/**
 * Who owns a table, a column or an index: the startup DDL or the migrations. The startup projection,
 * the check of that projection and the Alembic filter are written independently; this module says
 * exactly when they agree.
 */
module SchemaOwnership {
  import opened Options
  import Picking

  /** A table's column collection is keyed by `key`, which is the name unless declared otherwise. */
  datatype Column = Column(name: string, key: string, owner: Option<string>, system: bool)

  datatype Index = Index(name: Option<string>, owner: Option<string>, columns: set<string>)

  /** The columns a constraint refers to. */
  datatype Constraint = Constraint(columns: set<string>)

  datatype Table = Table(
    key: string, owner: Option<string>, columns: seq<Column>, indexes: seq<Index>, constraints: seq<Constraint>)

  type Metadata = seq<Table>

  /** A copied column; `system` columns are not rendered by CREATE TABLE. */
  datatype ProjectedColumn = ProjectedColumn(name: string, key: string, system: bool)

  datatype ProjectedTable = ProjectedTable(columns: seq<ProjectedColumn>, indexes: seq<Index>,
                                           constraints: seq<Constraint>)

  type Projection = map<string, ProjectedTable>

  const BOOTSTRAP := "bootstrap"
  const MIGRATION := "migration"

  ghost predicate DistinctColumns(t: Table) {
    forall i, j :: 0 <= i < j < |t.columns| ==>
      t.columns[i].name != t.columns[j].name && t.columns[i].key != t.columns[j].key
  }

  /** Table keys, column names and column keys are unique, as SQLAlchemy's collections make them. */
  ghost predicate WellNamed(m: Metadata) {
    && (forall i, j :: 0 <= i < j < |m| ==> m[i].key != m[j].key)
    && (forall t :: t in m ==> DistinctColumns(t))
  }

  /** No column has a key of its own or is declared as a system column. */
  predicate Plain(t: Table) {
    forall c :: c in t.columns ==> c.key == c.name && !c.system
  }

  // -------------------------------------------------------------- ownership

  function DeclaredOwner(owner: Option<string>): string {
    owner.GetOr(BOOTSTRAP)
  }

  predicate KnownOwner(owner: Option<string>) {
    DeclaredOwner(owner) == BOOTSTRAP || DeclaredOwner(owner) == MIGRATION
  }

  predicate TableManaged(t: Table) {
    DeclaredOwner(t.owner) == MIGRATION
  }

  /** A child is migration-managed by its own owner or by its table's. */
  predicate ChildManaged(t: Table, owner: Option<string>) {
    DeclaredOwner(owner) == MIGRATION || TableManaged(t)
  }

  function ManagedColumns(t: Table): set<string> {
    set c | c in t.columns && ChildManaged(t, c.owner) :: c.name
  }

  function ManagedIndexNames(t: Table): set<Option<string>> {
    set i | i in t.indexes && ChildManaged(t, i.owner) :: i.name
  }

  // ------------------------------------------------------------- projection

  predicate HasKey(t: Table, key: string) {
    exists c :: c in t.columns && c.key == key
  }

  /** What makes the projection of a bootstrap-owned table raise. */
  predicate Projectable(t: Table) {
    && (forall c :: c in t.columns ==> KnownOwner(c.owner))
    && (forall i :: i in t.indexes ==> KnownOwner(i.owner))
    && (forall name :: name in ManagedColumns(t) ==> HasKey(t, name))
    && (forall k :: k in t.constraints ==> k.columns * ManagedColumns(t) == {})
    && (forall i :: i in t.indexes && ChildManaged(t, i.owner) ==> i.name.Some?)
    && (forall i :: i in t.indexes && !ChildManaged(t, i.owner) ==> i.columns * ManagedColumns(t) == {})
  }

  predicate ProjectionSucceeds(m: Metadata) {
    && (forall t :: t in m ==> KnownOwner(t.owner))
    && (forall t :: t in m && !TableManaged(t) ==> Projectable(t))
  }

  /** The copy is looked up by key under the migration-owned names. */
  function ProjectedColumnOf(t: Table, c: Column): ProjectedColumn {
    ProjectedColumn(c.name, c.key, c.system || c.key in ManagedColumns(t))
  }

  function ProjectedColumns(t: Table): seq<ProjectedColumn> {
    seq(|t.columns|, i requires 0 <= i < |t.columns| => ProjectedColumnOf(t, t.columns[i]))
  }

  function KeptIndexes(indexes: seq<Index>, removed: set<Option<string>>): seq<Index> {
    if indexes == [] then []
    else
      var kept, last := KeptIndexes(indexes[..|indexes| - 1], removed), indexes[|indexes| - 1];
      if last.name in removed then kept else kept + [last]
  }

  function Projected(t: Table): ProjectedTable {
    ProjectedTable(ProjectedColumns(t), KeptIndexes(t.indexes, ManagedIndexNames(t)), t.constraints)
  }

  ghost predicate IsProjection(p: Projection, m: Metadata) {
    && (forall t :: t in m && !TableManaged(t) ==> t.key in p && p[t.key] == Projected(t))
    && (forall k :: k in p ==> exists t :: t in m && !TableManaged(t) && t.key == k)
  }

  lemma {:induction false} KeptAre(indexes: seq<Index>, removed: set<Option<string>>)
    ensures forall i :: i in KeptIndexes(indexes, removed) <==> i in indexes && i.name !in removed
  {
    if indexes != [] {
      KeptAre(indexes[..|indexes| - 1], removed);
      assert indexes == indexes[..|indexes| - 1] + [indexes[|indexes| - 1]];
    }
  }

  // ----------------------------------------------------- who creates what

  predicate InStartupColumn(p: Projection, t: Table, name: string) {
    && t.key in p
    && exists i :: 0 <= i < |p[t.key].columns| && p[t.key].columns[i].name == name && !p[t.key].columns[i].system
  }

  predicate InStartupIndex(p: Projection, t: Table, index: Index) {
    t.key in p && index in p[t.key].indexes
  }

  datatype SchemaObject = TableObject(t: Table) | ColumnObject(t: Table, column: Column)
    | IndexObject(t: Table, index: Index)
                        | OtherObject

  predicate HasManagedSchema(t: Table) {
    || TableManaged(t)
    || (exists c :: c in t.columns && ChildManaged(t, c.owner))
    || (exists i :: i in t.indexes && ChildManaged(t, i.owner))
  }

  /** `include_migration_managed_object`: a reflected object counts as the model object it is compared to. */
  predicate InAlembic(object_: SchemaObject, reflected: bool, comparedTo: Option<SchemaObject>) {
    var model := if reflected then comparedTo else Some(object_);
    && model.Some?
    && match model.value
       case TableObject(t) => HasManagedSchema(t)
       case ColumnObject(t, column) => ChildManaged(t, column.owner)
       case IndexObject(t, index) => ChildManaged(t, index.owner)
       case OtherObject => false
  }

  /** A child is the migrations' if it is marked so itself, or its table is. */
  ghost predicate MarkedForMigration(t: Table, owner: Option<string>) {
    owner == Some("migration") || t.owner == Some("migration")
  }

  /**
   * The filter by kind of object: a table with anything marked, a marked column or index, and nothing else;
   * a reflected object is judged by the model object beside it, and left out if there is none.
   */
  lemma FilterIs(object_: SchemaObject, model: SchemaObject, comparedTo: Option<SchemaObject>)
    ensures !InAlembic(object_, true, None)
    ensures InAlembic(object_, true, Some(model)) <==> InAlembic(model, false, comparedTo)
    ensures InAlembic(model, false, comparedTo) <==>
              match model
              case TableObject(t) =>
                || t.owner == Some("migration")
                || (exists c :: c in t.columns && c.owner == Some("migration"))
                || (exists i :: i in t.indexes && i.owner == Some("migration"))
              case ColumnObject(t, column) => MarkedForMigration(t, column.owner)
              case IndexObject(t, index) => MarkedForMigration(t, index.owner)
              case OtherObject => false
  {}

  /** A bootstrap-owned index of a bootstrap table has the name of a migration-owned one beside it. */
  ghost predicate SharesName(t: Table, index: Index) {
    && index in t.indexes && index.name.Some? && !ChildManaged(t, index.owner)
    && index.name in ManagedIndexNames(t)
  }

  ghost predicate NamesApart(m: Metadata) {
    forall t, i :: t in m && !TableManaged(t) && i in t.indexes ==> !SharesName(t, i)
  }

  lemma ColumnPosition(t: Table, i: nat, j: nat)
    requires i < |t.columns| && j < |t.columns| && DistinctColumns(t)
    requires t.columns[i].name == t.columns[j].name || t.columns[i].key == t.columns[j].key
    ensures i == j
  {}

  /** Whether the startup DDL leaves a column out exactly if a migration owns it. */
  predicate MarkedRightly(t: Table, c: Column) {
    c.system || c.key in ManagedColumns(t) <==> ChildManaged(t, c.owner)
  }

  lemma StartupColumn(m: Metadata, p: Projection, t: Table, i: nat)
    requires WellNamed(m) && IsProjection(p, m) && t in m && !TableManaged(t) && i < |t.columns|
    ensures InStartupColumn(p, t, t.columns[i].name) <==> !ProjectedColumnOf(t, t.columns[i]).system
  {
    var q := Projected(t).columns;
    assert q[i].name == t.columns[i].name;
    forall j | 0 <= j < |q| && q[j].name == t.columns[i].name ensures j == i {
      ColumnPosition(t, i, j);
    }
  }

  /**
   * Each column is created by exactly one side, the startup DDL or Alembic, unless its key or a system flag
   * of its own misleads the projection; that cannot happen in a plain table.
   */
  lemma ColumnsAreSplit(m: Metadata, p: Projection, t: Table, c: Column)
    requires WellNamed(m) && ProjectionSucceeds(m) && IsProjection(p, m) && t in m && c in t.columns
    ensures (InStartupColumn(p, t, c.name) <==> !InAlembic(ColumnObject(t, c), false, None)) <==>
            TableManaged(t) || MarkedRightly(t, c)
    ensures Plain(t) ==> MarkedRightly(t, c)
  {
    var i :| 0 <= i < |t.columns| && t.columns[i] == c;
    if TableManaged(t) {
      KeysAreUnique(m, p, t);
    } else {
      StartupColumn(m, p, t, i);
    }
    OnlyColumnOfName(t, i);
  }

  lemma OnlyColumnOfName(t: Table, i: nat)
    requires i < |t.columns| && DistinctColumns(t)
    ensures t.columns[i].name in ManagedColumns(t) <==> ChildManaged(t, t.columns[i].owner)
  {
    assert t.columns[i] in t.columns;
    if t.columns[i].name in ManagedColumns(t) {
      var c :| c in t.columns && ChildManaged(t, c.owner) && c.name == t.columns[i].name;
      var j :| 0 <= j < |t.columns| && t.columns[j] == c;
      ColumnPosition(t, i, j);
    }
  }

  lemma KeysAreUnique(m: Metadata, p: Projection, t: Table)
    requires WellNamed(m) && IsProjection(p, m) && t in m && TableManaged(t)
    ensures t.key !in p
  {
    forall u | u in m && u.key == t.key ensures u == t {
      var i :| 0 <= i < |m| && m[i] == t;
      var j :| 0 <= j < |m| && m[j] == u;
      assert i == j;
    }
  }

  /** Each named index is created by exactly one side, unless it shares its name across the boundary. */
  lemma IndexesAreSplit(m: Metadata, p: Projection, t: Table, index: Index)
    requires WellNamed(m) && ProjectionSucceeds(m) && IsProjection(p, m) && t in m && index in t.indexes
    ensures !(InStartupIndex(p, t, index) && InAlembic(IndexObject(t, index), false, None))
    ensures InStartupIndex(p, t, index) || InAlembic(IndexObject(t, index), false, None) <==> !SharesName(t, index)
  {
    KeptAre(t.indexes, ManagedIndexNames(t));
    if TableManaged(t) { KeysAreUnique(m, p, t); }
  }

  /**
   * The startup DDL has no constraint and no index over a migration-owned column, and in a plain table it
   * leaves out exactly those.
   */
  lemma NothingRefersToOmittedColumns(m: Metadata, p: Projection, t: Table)
    requires ProjectionSucceeds(m) && IsProjection(p, m) && t in m && !TableManaged(t)
    ensures forall k :: k in p[t.key].constraints ==> k.columns * ManagedColumns(t) == {}
    ensures forall i :: i in p[t.key].indexes ==> i.columns * ManagedColumns(t) == {}
    ensures Plain(t) ==> forall q :: q in p[t.key].columns ==> (q.system <==> q.name in ManagedColumns(t))
  {
    KeptAre(t.indexes, ManagedIndexNames(t));
  }

  // ----------------------------------------------------------------- verify

  /** `_verify_ownership_projection` without the rendering: whether no conflict is found. */
  predicate ColumnAgrees(t: Table, q: ProjectedTable, c: Column) {
    if ChildManaged(t, c.owner)
    then exists i :: 0 <= i < |q.columns| && q.columns[i].key == c.name && q.columns[i].system
    else exists i :: 0 <= i < |q.columns| && q.columns[i].key == c.name && !q.columns[i].system
  }

  /** The name of every bootstrap-owned column is the key of a column that is not declared as a system column. */
  predicate ColumnsFound(t: Table) {
    forall c :: c in t.columns && !ChildManaged(t, c.owner) ==> FoundUnder(t, c.name)
  }

  predicate FoundUnder(t: Table, key: string) {
    exists d :: d in t.columns && d.key == key && !d.system
  }

  predicate IndexAgrees(t: Table, q: ProjectedTable, index: Index) {
    index.name.Some? ==>
      if ChildManaged(t, index.owner) then forall i :: i in q.indexes ==> i.name != index.name
      else exists i :: i in q.indexes && i.name == index.name
  }

  predicate TableAgrees(p: Projection, t: Table) {
    if TableManaged(t) then t.key !in p
    else
      && t.key in p
      && (forall c :: c in t.columns ==> ColumnAgrees(t, p[t.key], c))
      && (forall i :: i in t.indexes ==> IndexAgrees(t, p[t.key], i))
  }

  lemma IndexAgreement(t: Table, index: Index)
    requires !TableManaged(t) && index in t.indexes
    ensures IndexAgrees(t, Projected(t), index) <==> !SharesName(t, index)
  {
    KeptAre(t.indexes, ManagedIndexNames(t));
    assert ChildManaged(t, index.owner) ==> index.name in ManagedIndexNames(t);
  }

  lemma ColumnAgreement(t: Table, c: Column)
    requires !TableManaged(t) && Projectable(t) && c in t.columns && DistinctColumns(t)
    ensures ColumnAgrees(t, Projected(t), c) <==> ChildManaged(t, c.owner) || FoundUnder(t, c.name)
  {
    var i :| 0 <= i < |t.columns| && t.columns[i] == c;
    OnlyColumnOfName(t, i);
    var q := Projected(t).columns;
    if ChildManaged(t, c.owner) {
      assert HasKey(t, c.name);
      var d :| d in t.columns && d.key == c.name;
      var j :| 0 <= j < |t.columns| && t.columns[j] == d;
      assert q[j].key == c.name && q[j].system;
    } else {
      forall j | 0 <= j < |q| && q[j].key == c.name ensures q[j].system == t.columns[j].system {}
      if FoundUnder(t, c.name) {
        var d :| d in t.columns && d.key == c.name && !d.system;
        var j :| 0 <= j < |t.columns| && t.columns[j] == d;
        assert q[j].key == c.name && !q[j].system;
      }
    }
  }

  lemma PlainColumnsFound(t: Table)
    requires Plain(t)
    ensures ColumnsFound(t)
  {
    forall c | c in t.columns ensures FoundUnder(t, c.name) {
      assert c.key == c.name && !c.system;
    }
  }

  /** What the check asks of the metadata itself. */
  ghost predicate Verifiable(m: Metadata) {
    NamesApart(m) && forall t :: t in m && !TableManaged(t) ==> ColumnsFound(t)
  }

  /**
   * The check accepts the projection exactly when no bootstrap-owned index shares its name with a
   * migration-owned index of the same bootstrap table, and every bootstrap-owned column is found under its
   * name; the latter always holds in plain tables.
   */
  lemma ProjectionIsVerified(m: Metadata, p: Projection)
    requires WellNamed(m) && ProjectionSucceeds(m) && IsProjection(p, m)
    ensures (forall t :: t in m ==> TableAgrees(p, t)) <==> Verifiable(m)
    ensures (forall t :: t in m ==> Plain(t)) ==> (Verifiable(m) <==> NamesApart(m))
  {
    forall t | t in m
      ensures TableAgrees(p, t) <==>
              TableManaged(t) || (ColumnsFound(t) && forall i :: i in t.indexes ==> !SharesName(t, i))
      ensures Plain(t) ==> ColumnsFound(t)
    {
      TableVerified(m, p, t);
    }
  }

  lemma TableVerified(m: Metadata, p: Projection, t: Table)
    requires WellNamed(m) && ProjectionSucceeds(m) && IsProjection(p, m) && t in m
    ensures TableAgrees(p, t) <==>
            TableManaged(t) || (ColumnsFound(t) && forall i :: i in t.indexes ==> !SharesName(t, i))
    ensures Plain(t) ==> ColumnsFound(t)
  {
    if Plain(t) { PlainColumnsFound(t); }
    if TableManaged(t) {
      KeysAreUnique(m, p, t);
    } else {
      TableAgreement(t);
    }
  }

  lemma TableAgreement(t: Table)
    requires !TableManaged(t) && Projectable(t) && DistinctColumns(t)
    ensures (forall c :: c in t.columns ==> ColumnAgrees(t, Projected(t), c)) <==> ColumnsFound(t)
    ensures (forall i :: i in t.indexes ==> IndexAgrees(t, Projected(t), i)) <==>
            forall i :: i in t.indexes ==> !SharesName(t, i)
  {
    forall c | c in t.columns
      ensures ColumnAgrees(t, Projected(t), c) <==> ChildManaged(t, c.owner) || FoundUnder(t, c.name)
    {
      ColumnAgreement(t, c);
    }
    forall i | i in t.indexes ensures IndexAgrees(t, Projected(t), i) <==> !SharesName(t, i) { IndexAgreement(t, i); }
  }

  /** Two indexes of one name, one of them migration-owned. */
  const SHARED_NAME := Table(
    "files", None, [Column("path", "path", None, false)],
    [Index(Some("ix_path"), None, {"path"}), Index(Some("ix_path"), Some(MIGRATION), {"path"})], [])

  /** The projection raises nothing on this table, drops both indexes, and the check complains. */
  lemma SharedNameIsReported(p: Projection)
    requires IsProjection(p, [SHARED_NAME])
    ensures WellNamed([SHARED_NAME]) && ProjectionSucceeds([SHARED_NAME]) && !NamesApart([SHARED_NAME])
    ensures (forall i :: i !in p[SHARED_NAME.key].indexes) && !TableAgrees(p, SHARED_NAME)
  {
    var own, managed := SHARED_NAME.indexes[0], SHARED_NAME.indexes[1];
    assert own in SHARED_NAME.indexes && managed in SHARED_NAME.indexes;
    assert ChildManaged(SHARED_NAME, managed.owner) && Some("ix_path") in ManagedIndexNames(SHARED_NAME);
    assert ManagedColumns(SHARED_NAME) == {};
    assert SharesName(SHARED_NAME, own);
    IndexAgreement(SHARED_NAME, own);
    KeptAre(SHARED_NAME.indexes, ManagedIndexNames(SHARED_NAME));
  }

  /** A column under a key of its own, which nothing else in the schema forbids. */
  const OWN_KEY := Table("files", None, [Column("path", "stored_path", None, false)], [], [])

  /** The projection raises nothing, and the check misses the column. */
  lemma OwnKeyIsReported(p: Projection)
    requires IsProjection(p, [OWN_KEY])
    ensures WellNamed([OWN_KEY]) && ProjectionSucceeds([OWN_KEY]) && NamesApart([OWN_KEY]) && !TableAgrees(p, OWN_KEY)
  {
    assert ManagedColumns(OWN_KEY) == {};
    assert OWN_KEY in [OWN_KEY];
    var path := OWN_KEY.columns[0];
    assert path in OWN_KEY.columns && !FoundUnder(OWN_KEY, path.name);
    ColumnAgreement(OWN_KEY, path);
  }

  // ------------------------------------------------------------ in place

  /** `None` is a KeyError: no column of the copy has the name as its key. */
  method MarkColumns(t: Table, managed: set<string>) returns (marked: Option<seq<ProjectedColumn>>)
    requires managed == ManagedColumns(t) && DistinctColumns(t)
    ensures marked.Some? <==> forall name :: name in managed ==> HasKey(t, name)
    ensures marked.Some? ==> marked.value == ProjectedColumns(t)
  {
    var columns := seq(|t.columns|, i requires 0 <= i < |t.columns| =>
      ProjectedColumn(t.columns[i].name, t.columns[i].key, t.columns[i].system));
    var rest := managed;
    while rest != {}
      invariant rest <= managed && |columns| == |t.columns|
      invariant forall name :: name in managed - rest ==> HasKey(t, name)
      invariant forall k :: 0 <= k < |columns| ==>
                  columns[k] == ProjectedColumn(t.columns[k].name, t.columns[k].key,
                                                t.columns[k].system || t.columns[k].key in managed - rest)
      decreases rest
    {
      var name := Picking.Any(rest);
      if !exists i :: 0 <= i < |columns| && columns[i].key == name {
        return None;
      }
      var i :| 0 <= i < |columns| && columns[i].key == name;
      assert t.columns[i] in t.columns;
      forall k | 0 <= k < |columns| && t.columns[k].key == name ensures k == i { ColumnPosition(t, i, k); }
      columns := columns[i := columns[i].(system := true)];
      rest := rest - {name};
    }
    return Some(columns);
  }

  method RemoveIndexes(indexes: seq<Index>, removed: set<Option<string>>) returns (kept: seq<Index>)
    ensures kept == KeptIndexes(indexes, removed)
  {
    kept := [];
    for i := 0 to |indexes|
      invariant kept == KeptIndexes(indexes[..i], removed)
    {
      assert indexes[..i + 1][..i] == indexes[..i];
      if indexes[i].name !in removed {
        kept := kept + [indexes[i]];
      }
    }
    assert indexes[..|indexes|] == indexes;
  }

  /** The startup metadata of one bootstrap-owned table; `None` is a ValueError. */
  method ProjectTable(t: Table) returns (r: Option<ProjectedTable>)
    requires !TableManaged(t) && DistinctColumns(t)
    ensures r.Some? <==> Projectable(t)
    ensures r.Some? ==> r.value == Projected(t)
  {
    if exists c :: c in t.columns && !KnownOwner(c.owner) {
      return None;
    }
    var columns := ManagedColumns(t);
    if columns != {} && exists k :: k in t.constraints && k.columns * columns != {} {
      return None;
    }
    var marked := MarkColumns(t, columns);
    if marked.None? {
      return None;
    }
    if exists i :: i in t.indexes && !KnownOwner(i.owner) {
      return None;
    }
    var names := ManagedIndexNames(t);
    if None in names {
      return None;
    }
    assert forall i :: i in t.indexes && ChildManaged(t, i.owner) ==> i.name in names;
    if columns != {} && exists i :: i in t.indexes && !ChildManaged(t, i.owner) && i.columns * columns != {} {
      return None;
    }
    var kept := RemoveIndexes(t.indexes, names);
    return Some(ProjectedTable(marked.value, kept, t.constraints));
  }

  method BootstrapProjection(m: Metadata) returns (r: Option<Projection>)
    requires WellNamed(m)
    ensures r.Some? <==> ProjectionSucceeds(m)
    ensures r.Some? ==> IsProjection(r.value, m)
  {
    if exists t :: t in m && !KnownOwner(t.owner) {
      return None;
    }
    var projection: Projection := map[];
    for i := 0 to |m|
      invariant forall k :: 0 <= k < i && !TableManaged(m[k]) ==>
                  Projectable(m[k]) && m[k].key in projection && projection[m[k].key] == Projected(m[k])
      invariant forall k :: k in projection ==> exists j :: 0 <= j < i && !TableManaged(m[j]) && m[j].key == k
    {
      assert m[i] in m;
      if !TableManaged(m[i]) {
        var table := ProjectTable(m[i]);
        if table.None? {
          return None;
        }
        projection := projection[m[i].key := table.value];
      }
    }
    r := Some(projection);
  }

  datatype Conflict = TableConflict(key: string) | ColumnConflict(key: string, name: string)
    | IndexConflict(key: string, name: string)

  /** What is wrong with a table's projection: the table itself, or a column or an index on the wrong side. */
  ghost predicate Complains(t: Table, projection: Projection, conflict: Conflict) {
    conflict.key == t.key &&
    match conflict
    case TableConflict(_) => TableManaged(t) == (t.key in projection)
    case ColumnConflict(_, name) =>
      && !TableManaged(t) && t.key in projection
      && exists c :: c in t.columns && c.name == name && !ColumnAgrees(t, projection[t.key], c)
    case IndexConflict(_, name) =>
      && !TableManaged(t) && t.key in projection
      && exists i :: i in t.indexes && i.name == Some(name) && !IndexAgrees(t, projection[t.key], i)
  }

  method TableConflicts(t: Table, projection: Projection) returns (conflicts: seq<Conflict>)
    ensures conflicts == [] <==> TableAgrees(projection, t)
    ensures forall conflict :: conflict in conflicts <==> Complains(t, projection, conflict)
  {
    conflicts := [];
    if TableManaged(t) {
      if t.key in projection {
        conflicts := conflicts + [TableConflict(t.key)];
      }
      return;
    }
    if t.key !in projection {
      return [TableConflict(t.key)];
    }
    var q := projection[t.key];
    for i := 0 to |t.columns|
      invariant conflicts == [] <==> forall k :: 0 <= k < i ==> ColumnAgrees(t, q, t.columns[k])
      invariant forall conflict :: conflict in conflicts <==>
                  && conflict.ColumnConflict? && conflict.key == t.key
                  && exists k :: 0 <= k < i && t.columns[k].name == conflict.name && !ColumnAgrees(t, q, t.columns[k])
    {
      if !ColumnAgrees(t, q, t.columns[i]) {
        conflicts := conflicts + [ColumnConflict(t.key, t.columns[i].name)];
      }
    }
    ghost var columnsAgree, columnConflicts := conflicts == [], conflicts;
    for i := 0 to |t.indexes|
      invariant conflicts == [] <==> columnsAgree && forall k :: 0 <= k < i ==> IndexAgrees(t, q, t.indexes[k])
      invariant forall conflict :: conflict in conflicts <==>
                  || conflict in columnConflicts
                  || (&& conflict.IndexConflict? && conflict.key == t.key
                      && exists k :: && 0 <= k < i && t.indexes[k].name == Some(conflict.name)
                                     && !IndexAgrees(t, q, t.indexes[k]))
    {
      if !IndexAgrees(t, q, t.indexes[i]) {
        conflicts := conflicts + [IndexConflict(t.key, t.indexes[i].name.GetOr(""))];
      }
    }
  }

  /** What the check reports of a table of the projection itself: lost columns, and names across the boundary. */
  ghost predicate Reported(t: Table, conflict: Conflict) {
    conflict.key == t.key && !TableManaged(t) &&
    match conflict
    case TableConflict(_) => false
    case ColumnConflict(_, name) =>
      (exists c :: c in t.columns && c.name == name && !ChildManaged(t, c.owner)) && !FoundUnder(t, name)
    case IndexConflict(_, name) => exists i :: i in t.indexes && i.name == Some(name) && SharesName(t, i)
  }

  lemma ReportedAre(m: Metadata, p: Projection, t: Table, conflict: Conflict)
    requires WellNamed(m) && ProjectionSucceeds(m) && IsProjection(p, m) && t in m
    ensures Complains(t, p, conflict) <==> Reported(t, conflict)
  {
    if TableManaged(t) {
      KeysAreUnique(m, p, t);
    } else {
      assert p[t.key] == Projected(t);
      forall c | c in t.columns
        ensures ColumnAgrees(t, Projected(t), c) <==> ChildManaged(t, c.owner) || FoundUnder(t, c.name)
      {
        ColumnAgreement(t, c);
      }
      forall i | i in t.indexes ensures IndexAgrees(t, Projected(t), i) <==> !SharesName(t, i) {
        IndexAgreement(t, i);
      }
    }
  }

  /** The check run on the projection itself: silent exactly on verifiable metadata. */
  method VerifyOwnershipBoundary(m: Metadata) returns (r: Option<seq<Conflict>>)
    requires WellNamed(m)
    ensures r.Some? <==> ProjectionSucceeds(m)
    ensures r.Some? ==> (r.value == [] <==> Verifiable(m))
    ensures r.Some? && (forall t :: t in m ==> Plain(t)) ==> (r.value == [] <==> NamesApart(m))
    ensures r.Some? ==> forall conflict :: conflict in r.value <==> exists t :: t in m && Reported(t, conflict)
  {
    var projection := BootstrapProjection(m);
    if projection.None? {
      return None;
    }
    var conflicts := AllConflicts(m, projection.value);
    ProjectionIsVerified(m, projection.value);
    forall t, conflict | t in m ensures Complains(t, projection.value, conflict) <==> Reported(t, conflict) {
      ReportedAre(m, projection.value, t, conflict);
    }
    return Some(conflicts);
  }

  method AllConflicts(m: Metadata, projection: Projection) returns (conflicts: seq<Conflict>)
    ensures conflicts == [] <==> forall t :: t in m ==> TableAgrees(projection, t)
    ensures forall conflict :: conflict in conflicts <==> exists t :: t in m && Complains(t, projection, conflict)
  {
    conflicts := [];
    for i := 0 to |m|
      invariant conflicts == [] <==> forall k :: 0 <= k < i ==> TableAgrees(projection, m[k])
      invariant forall conflict :: conflict in conflicts <==>
                  exists k :: 0 <= k < i && Complains(m[k], projection, conflict)
    {
      var more := TableConflicts(m[i], projection);
      conflicts := conflicts + more;
    }
  }
}
