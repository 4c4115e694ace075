/**
 * The source-year reconciler: a plan is verified against the live rows, verified again under lock and
 * applied batch by batch. However the batches are cut and wherever the process dies in between,
 * running it again ends in the same rows, history and change events as one uninterrupted run.
 */
module Reconciliation {
  import opened Options
  import opened Ordering
  import opened CaptureDates
  import opened SourceYearPlan

  const SOURCE_BASIS := "ORIGINAL_PATH"
  const MAX_BATCH_SIZE: nat := 50

  /** What the loader guarantees of a row it does not exclude. */
  predicate Actionable(p: PlanRow) {
    && p.sha.Some? && p.sourceYear.Some? && 1 <= p.sourceYear.value <= 9999
    && match p.action
       case KeepExactExif => p.reason.ExifSourceYearMatch?
       case KeepExactUser => p.reason.UserExact?
       case SetYearOnly => p.reason.ExifYearConflict? || p.reason.ImportedFallback? || p.reason.CreatedFallback?
       case Exclude => false
  }

  ghost predicate Loaded(plans: seq<PlanRow>) {
    && (forall p :: p in plans ==> p.action.Exclude? || Actionable(p))
    && (forall i, j :: 0 <= i < j < |plans| && plans[i].sha.Some? ==> plans[i].sha != plans[j].sha)
  }

  lemma SameDigestSameRow(plans: seq<PlanRow>, p: PlanRow, q: PlanRow)
    requires Loaded(plans) && p in plans && q in plans && p.sha.Some? && p.sha == q.sha
    ensures p == q
  {
    var i :| 0 <= i < |plans| && plans[i] == p;
    var j :| 0 <= j < |plans| && plans[j] == q;
    assert i == j;
  }

  // --------------------------------------------------------------- database

  datatype CommonFile = CommonFile(id: int, deleted: bool, created: Option<DateTime>)

  /** One history row; the old values are recorded as they were. */
  datatype HistoryItem = SourceYearSet(file: int, yearBefore: Option<int>, yearAfter: Option<int>)
                       | SourceBasisSet(file: int, basisBefore: Option<string>, basisAfter: Option<string>)

  datatype ChangeEvent = CaptureDateUpdated(sha: Sha, revision: nat)

  /** `links` holds the MemoryKeeper links with their creation time. */
  datatype Db = Db(
    files: map<Sha, CommonFile>,
    links: map<int, Option<DateTime>>,
    metadata: map<int, Option<DateTime>>,
    states: map<int, FileState>,
    history: seq<HistoryItem>,
    events: seq<ChangeEvent>)

  /** File ids are primary keys. */
  ghost predicate DistinctIds(db: Db) {
    forall a, b :: a in db.files && b in db.files && db.files[a].id == db.files[b].id ==> a == b
  }

  function Original(db: Db, id: int): Option<DateTime> {
    if id in db.metadata then db.metadata[id] else None
  }

  // ----------------------------------------------------------------- verify

  datatype Status =
    | ReadyProvenanceOnlyExif | ReadyYearOnlyExifConflict | ReadyYearOnlyImported | ReadyYearOnlyCreated
    | KeepUser | UserConflictReview | AlreadyApplied
    | StaleRevision | MissingFile | MissingLink | MissingState | SnapshotMismatch | ProjectionConflict | OtherConflict
    | PlanExcluded

  predicate IsReady(s: Status) {
    s.ReadyProvenanceOnlyExif? || s.ReadyYearOnlyExifConflict? || s.ReadyYearOnlyImported? || s.ReadyYearOnlyCreated?
  }

  predicate IsBlocking(s: Status) {
    || s.StaleRevision? || s.MissingFile? || s.MissingLink? || s.MissingState? || s.SnapshotMismatch?
    || s.ProjectionConflict? || s.OtherConflict?
  }

  function Target(db: Db, p: PlanRow): Projection
    requires Actionable(p) && p.sha.value in db.files
    requires var f := db.files[p.sha.value]; f.id in db.links && f.id in db.states
  {
    var f := db.files[p.sha.value];
    var s := db.states[f.id];
    Calculate(s.user, s.userPrecision, Original(db, f.id), db.links[f.id], f.created, p.sourceYear)
  }

  predicate SnapshotMatches(p: PlanRow, s: FileState) {
    && s.basis == p.snapshot.basis && s.year == p.snapshot.year && s.day == p.snapshot.day && s.when == p.snapshot.when
    && s.user == p.snapshot.user && s.userPrecision == p.snapshot.userPrecision
  }

  predicate ProjectionMatchesPlan(p: PlanRow, t: Projection) {
    match p.action
    case KeepExactExif =>
      t.basis == Some(EXIF) && t.precision == Some(DATETIME_PRECISION) && t.when == p.snapshot.when
        && t.year == p.sourceYear
    case SetYearOnly =>
      t.basis == Some(SOURCE_YEAR) && t.precision == Some(YEAR_PRECISION) && t.when == None && t.year == p.sourceYear
    case _ => false
  }

  predicate StateMatchesTarget(s: FileState, t: Projection) {
    s.when == t.when && s.day == DayOf(t.when) && s.year == t.year && s.precision == t.precision && s.basis == t.basis
  }

  function ReadyStatus(p: PlanRow): Status
    requires Actionable(p) && !p.action.KeepExactUser?
  {
    if p.action.KeepExactExif? then ReadyProvenanceOnlyExif
    else
      match p.reason
      case ExifYearConflict => ReadyYearOnlyExifConflict
      case ImportedFallback => ReadyYearOnlyImported
      case _ => ReadyYearOnlyCreated
  }

  function Verify(db: Db, p: PlanRow): Status
    requires Actionable(p)
  {
    if p.sha.value !in db.files || db.files[p.sha.value].deleted then MissingFile
    else
      var f := db.files[p.sha.value];
      if f.id !in db.links then MissingLink
      else if f.id !in db.states then MissingState
      else
        var s := db.states[f.id];
        if s.user.Some? || s.basis == Some(USER) then
          if s.user.Some? && YearOf(s.user) != p.sourceYear then UserConflictReview else KeepUser
        else if s.sourceYear == p.sourceYear && s.sourceBasis == Some(SOURCE_BASIS) then
          if StateMatchesTarget(s, Target(db, p)) then AlreadyApplied else ProjectionConflict
        else if s.sourceYear != None || s.sourceBasis != None then OtherConflict
        else if p.snapshot.revision != Some(RevisionOf(s)) then StaleRevision
        else if !SnapshotMatches(p, s) then SnapshotMismatch
        else if p.action.KeepExactUser? then if p.userConflict then UserConflictReview else KeepUser
        else if !ProjectionMatchesPlan(p, Target(db, p)) then ProjectionConflict
        else ReadyStatus(p)
  }

  predicate Ready(db: Db, p: PlanRow) {
    Actionable(p) && IsReady(Verify(db, p))
  }

  ghost predicate Blocked(db: Db, plans: seq<PlanRow>) {
    exists p :: p in plans && Actionable(p) && IsBlocking(Verify(db, p))
  }

  // ------------------------------------------------------------------ apply

  function FileIdOf(db: Db, p: PlanRow): int
    requires Ready(db, p)
  {
    db.files[p.sha.value].id
  }

  function AppliedState(db: Db, p: PlanRow): FileState
    requires Ready(db, p)
  {
    var s := db.states[FileIdOf(db, p)];
    Synchronized(s.(sourceYear := p.sourceYear, sourceBasis := Some(SOURCE_BASIS), revision := Some(RevisionOf(s) + 1)),
                 Target(db, p))
  }

  function HistoryOf(db: Db, p: PlanRow): seq<HistoryItem>
    requires Ready(db, p)
  {
    var id := FileIdOf(db, p);
    [SourceYearSet(id, db.states[id].sourceYear, p.sourceYear),
     SourceBasisSet(id, db.states[id].sourceBasis, Some(SOURCE_BASIS))]
  }

  function ApplyRow(db: Db, p: PlanRow): Db
    requires Ready(db, p)
  {
    var s := AppliedState(db, p);
    db.(states := db.states[FileIdOf(db, p) := s],
        history := db.history + HistoryOf(db, p),
        events := db.events + [CaptureDateUpdated(p.sha.value, RevisionOf(s))])
  }

  /** An applied row verifies as ALREADY_APPLIED, one revision later, with the user's date untouched. */
  lemma ReadyBecomesApplied(db: Db, p: PlanRow)
    requires Ready(db, p)
    ensures
      var db' := ApplyRow(db, p);
      var id := FileIdOf(db, p);
      && Verify(db', p).AlreadyApplied? && !Ready(db', p)
      && RevisionOf(db'.states[id]) == RevisionOf(db.states[id]) + 1
      && db'.states[id].user == db.states[id].user && db'.states[id].userPrecision == db.states[id].userPrecision
      && StateMatchesTarget(db'.states[id], Target(db, p))
      && db'.states[id].year == p.sourceYear
  {}

  /** Applying one row does not change how any other file's row verifies. */
  lemma OthersUnchanged(db: Db, p: PlanRow, q: PlanRow)
    requires DistinctIds(db) && Ready(db, p) && Actionable(q) && q.sha != p.sha
    ensures Verify(ApplyRow(db, p), q) == Verify(db, q)
    ensures q.sha.value in db.files ==> db.files[q.sha.value].id != FileIdOf(db, p)
  {
    OtherStates(db, p);
    VerifyReads(db, ApplyRow(db, p), q);
  }

  lemma OtherStates(db: Db, p: PlanRow)
    requires DistinctIds(db) && Ready(db, p)
    ensures
      var db' := ApplyRow(db, p);
      && db'.files == db.files && db'.links == db.links && db'.metadata == db.metadata
      && db'.states.Keys == db.states.Keys
    ensures forall sha :: sha in db.files && Some(sha) != p.sha ==> db.files[sha].id != FileIdOf(db, p)
    ensures forall id :: id in db.states && id != FileIdOf(db, p) ==> ApplyRow(db, p).states[id] == db.states[id]
  {}

  /** The verdict on a row depends on the state of its own file only. */
  lemma VerifyReads(db: Db, db': Db, q: PlanRow)
    requires Actionable(q) && db'.files == db.files && db'.links == db.links && db'.metadata == db.metadata
    requires db'.states.Keys == db.states.Keys
    requires q.sha.value in db.files && db.files[q.sha.value].id in db.states ==>
               db'.states[db.files[q.sha.value].id] == db.states[db.files[q.sha.value].id]
    ensures Verify(db', q) == Verify(db, q)
  {}

  // ------------------------------------------------------------ ready order

  ghost function ReadyIds(db: Db, plans: seq<PlanRow>): set<int> {
    set p | p in plans && Ready(db, p) :: FileIdOf(db, p)
  }

  /** The plan row of a ready file. */
  ghost function RowFor(db: Db, plans: seq<PlanRow>, id: int): (p: PlanRow)
    requires id in ReadyIds(db, plans)
    ensures p in plans && Ready(db, p) && FileIdOf(db, p) == id
  {
    var p :| p in plans && Ready(db, p) && FileIdOf(db, p) == id;
    p
  }

  lemma RowForIsUnique(db: Db, plans: seq<PlanRow>, p: PlanRow)
    requires Loaded(plans) && DistinctIds(db) && p in plans && Ready(db, p)
    ensures FileIdOf(db, p) in ReadyIds(db, plans) && RowFor(db, plans, FileIdOf(db, p)) == p
  {
    assert FileIdOf(db, p) in ReadyIds(db, plans);
    var q := RowFor(db, plans, FileIdOf(db, p));
    assert q.sha.value == p.sha.value;
  }

  ghost function Rows(db: Db, plans: seq<PlanRow>, ids: seq<int>): (rows: seq<PlanRow>)
    requires forall id :: id in ids ==> id in ReadyIds(db, plans)
    ensures |rows| == |ids|
    ensures forall i :: 0 <= i < |ids| ==> rows[i] == RowFor(db, plans, ids[i])
  {
    seq(|ids|, i requires 0 <= i < |ids| => assert ids[i] in ids; RowFor(db, plans, ids[i]))
  }

  /** The ready rows, sorted by file id. */
  ghost function Todo(db: Db, plans: seq<PlanRow>): seq<PlanRow> {
    Rows(db, plans, Ascending(ReadyIds(db, plans)))
  }

  lemma TodoIds(db: Db, plans: seq<PlanRow>, i: nat)
    requires i < |Todo(db, plans)|
    ensures |Todo(db, plans)| == |Ascending(ReadyIds(db, plans))|
    ensures Todo(db, plans)[i] in plans && Ready(db, Todo(db, plans)[i])
    ensures FileIdOf(db, Todo(db, plans)[i]) == Ascending(ReadyIds(db, plans))[i]
  {
    assert Ascending(ReadyIds(db, plans))[i] in Ascending(ReadyIds(db, plans));
  }

  // ---------------------------------------------------------------- prefix

  /**
   * After the first `n` ready rows: the database still has the same files, the applied rows verify as
   * ALREADY_APPLIED and every other row of the plan verifies as before.
   */
  ghost predicate Applied(db: Db, plans: seq<PlanRow>, n: nat, db': Db)
    requires n <= |Todo(db, plans)|
  {
    && db'.files == db.files && db'.links == db.links && db'.metadata == db.metadata
    && (forall p :: p in plans && Actionable(p) ==>
          if p in Todo(db, plans)[..n] then Verify(db', p).AlreadyApplied? else Verify(db', p) == Verify(db, p))
  }

  lemma TodoIsDistinct(db: Db, plans: seq<PlanRow>, i: nat, j: nat)
    requires i < j < |Todo(db, plans)|
    ensures Todo(db, plans)[i] != Todo(db, plans)[j]
  {
    TodoIds(db, plans, i);
    TodoIds(db, plans, j);
  }

  lemma NextIsReady(db: Db, plans: seq<PlanRow>, n: nat, db': Db)
    requires n < |Todo(db, plans)| && Applied(db, plans, n, db')
    ensures Todo(db, plans)[n] in plans && Ready(db', Todo(db, plans)[n])
    ensures Todo(db, plans)[n] !in Todo(db, plans)[..n]
  {
    TodoIds(db, plans, n);
    forall i | 0 <= i < n ensures Todo(db, plans)[i] != Todo(db, plans)[n] { TodoIsDistinct(db, plans, i, n); }
  }

  lemma OneMoreRow<T>(s: seq<T>, n: nat, x: T)
    requires n < |s|
    ensures x in s[..n + 1] <==> x in s[..n] || x == s[n]
  {
    assert s[..n + 1] == s[..n] + [s[n]];
  }

  lemma NextRow(db: Db, plans: seq<PlanRow>, n: nat, db': Db, q: PlanRow)
    requires Loaded(plans) && DistinctIds(db) && n < |Todo(db, plans)| && Applied(db, plans, n, db')
    requires Ready(db', Todo(db, plans)[n]) && Todo(db, plans)[n] in plans
    requires q in plans && Actionable(q)
    ensures
      var after := Verify(ApplyRow(db', Todo(db, plans)[n]), q);
      if q in Todo(db, plans)[..n + 1] then after.AlreadyApplied? else after == Verify(db, q)
  {
    var p := Todo(db, plans)[n];
    OneMoreRow(Todo(db, plans), n, q);
    if q == p {
      ReadyBecomesApplied(db', p);
    } else {
      if q.sha == p.sha { SameDigestSameRow(plans, p, q); }
      OthersUnchanged(db', p, q);
    }
  }

  lemma NextApplies(db: Db, plans: seq<PlanRow>, n: nat, db': Db)
    requires Loaded(plans) && DistinctIds(db) && n < |Todo(db, plans)| && Applied(db, plans, n, db')
    ensures Ready(db', Todo(db, plans)[n])
    ensures Applied(db, plans, n + 1, ApplyRow(db', Todo(db, plans)[n]))
  {
    NextIsReady(db, plans, n, db');
    forall q | q in plans && Actionable(q)
      ensures
        var after := Verify(ApplyRow(db', Todo(db, plans)[n]), q);
        if q in Todo(db, plans)[..n + 1] then after.AlreadyApplied? else after == Verify(db, q)
    {
      NextRow(db, plans, n, db', q);
    }
  }

  lemma BlockedAsBefore(db: Db, plans: seq<PlanRow>, n: nat, db': Db)
    requires n <= |Todo(db, plans)| && Applied(db, plans, n, db')
    ensures Blocked(db', plans) <==> Blocked(db, plans)
  {
    forall p | p in plans && Actionable(p) ensures IsBlocking(Verify(db', p)) <==> IsBlocking(Verify(db, p)) {
      BlocksAsBefore(db, plans, n, db', p);
    }
  }

  lemma BlocksAsBefore(db: Db, plans: seq<PlanRow>, n: nat, db': Db, p: PlanRow)
    requires n <= |Todo(db, plans)| && Applied(db, plans, n, db') && p in plans && Actionable(p)
    ensures IsBlocking(Verify(db', p)) <==> IsBlocking(Verify(db, p))
  {
    if p in Todo(db, plans)[..n] {
      var i :| 0 <= i < n && Todo(db, plans)[..n][i] == p;
      TodoIds(db, plans, i);
    }
  }

  lemma InTodo(db: Db, plans: seq<PlanRow>, p: PlanRow) returns (i: nat)
    requires Loaded(plans) && DistinctIds(db) && p in plans && Ready(db, p)
    ensures i < |Todo(db, plans)| && Todo(db, plans)[i] == p
  {
    RowForIsUnique(db, plans, p);
    var ids := Ascending(ReadyIds(db, plans));
    assert FileIdOf(db, p) in ids;
    i :| 0 <= i < |ids| && ids[i] == FileIdOf(db, p);
  }

  lemma AfterPrefix<T>(s: seq<T>, n: nat, i: nat)
    requires n <= |s| && i < |s|
    ensures i < n ==> s[i] in s[..n]
  {
    if i < n { assert s[..n][i] == s[i]; }
  }

  lemma RemainingIds(db: Db, plans: seq<PlanRow>, n: nat, db': Db)
    requires Loaded(plans) && DistinctIds(db) && n <= |Todo(db, plans)| && Applied(db, plans, n, db')
    ensures Ascending(ReadyIds(db', plans)) == Ascending(ReadyIds(db, plans))[n..]
  {
    var ids, todo := Ascending(ReadyIds(db, plans)), Todo(db, plans);
    forall id ensures id in ids[n..] <==> id in ReadyIds(db', plans) {
      if id in ids[n..] {
        var k :| 0 <= k < |ids| - n && ids[n..][k] == id;
        TodoIds(db, plans, n + k);
        var p := todo[n + k];
        forall i | 0 <= i < n ensures todo[i] != p { TodoIsDistinct(db, plans, i, n + k); }
        assert p !in todo[..n] && Ready(db', p) && FileIdOf(db', p) == id;
      }
      if id in ReadyIds(db', plans) {
        var p := RowFor(db', plans, id);
        assert p !in todo[..n] && Ready(db, p) && FileIdOf(db, p) == id;
        var i := InTodo(db, plans, p);
        AfterPrefix(todo, n, i);
        TodoIds(db, plans, i);
        assert ids[n..][i - n] == id;
      }
    }
    AscendingUnique(ReadyIds(db', plans), ids[n..]);
  }

  lemma SameRow(db: Db, db': Db, plans: seq<PlanRow>, id: int)
    requires Loaded(plans) && DistinctIds(db) && db'.files == db.files
    requires id in ReadyIds(db, plans) && id in ReadyIds(db', plans)
    ensures RowFor(db', plans, id) == RowFor(db, plans, id)
  {
    var p, q := RowFor(db, plans, id), RowFor(db', plans, id);
    assert p.sha.value == q.sha.value;
  }

  lemma RemainingRow(db: Db, db': Db, plans: seq<PlanRow>, n: nat, k: nat)
    requires Loaded(plans) && DistinctIds(db) && n + k < |Todo(db, plans)| && db'.files == db.files
    requires Ascending(ReadyIds(db', plans)) == Ascending(ReadyIds(db, plans))[n..]
    ensures k < |Todo(db', plans)| && Todo(db', plans)[k] == Todo(db, plans)[n + k]
  {
    var ids, ids' := Ascending(ReadyIds(db, plans)), Ascending(ReadyIds(db', plans));
    assert ids'[k] == ids[n + k] && ids'[k] in ids' && ids[n + k] in ids;
    SameRow(db, db', plans, ids'[k]);
  }

  lemma SameFrom<T>(a: seq<T>, b: seq<T>, n: nat)
    requires n <= |b| && |a| == |b| - n && forall k: nat :: n + k < |b| ==> a[k] == b[n + k]
    ensures a == b[n..]
  {}

  lemma RemainingRows(db: Db, plans: seq<PlanRow>, n: nat, db': Db)
    requires Loaded(plans) && DistinctIds(db) && n <= |Todo(db, plans)| && db'.files == db.files
    requires Ascending(ReadyIds(db', plans)) == Ascending(ReadyIds(db, plans))[n..]
    ensures Todo(db', plans) == Todo(db, plans)[n..]
  {
    var todo, todo' := Todo(db, plans), Todo(db', plans);
    assert |todo'| == |todo| - n;
    forall k: nat | n + k < |todo| ensures todo'[k] == todo[n + k] {
      RemainingRow(db, db', plans, n, k);
    }
    SameFrom(todo', todo, n);
  }

  // ------------------------------------------------------------ convergence

  ghost function ApplyIfReady(db: Db, p: PlanRow): Db {
    if Ready(db, p) then ApplyRow(db, p) else db
  }

  /** One uninterrupted run over `rows`, stopped after `n` of them. */
  ghost function Advance(db: Db, rows: seq<PlanRow>, n: nat): Db
    requires n <= |rows|
  {
    if n == 0 then db else ApplyIfReady(Advance(db, rows, n - 1), rows[n - 1])
  }

  lemma NothingApplied(db: Db, plans: seq<PlanRow>)
    ensures Applied(db, plans, 0, Advance(db, Todo(db, plans), 0))
  {}

  lemma AdvanceOne(db: Db, plans: seq<PlanRow>, n: nat)
    requires Loaded(plans) && DistinctIds(db) && n < |Todo(db, plans)|
    requires Applied(db, plans, n, Advance(db, Todo(db, plans), n))
    ensures Applied(db, plans, n + 1, Advance(db, Todo(db, plans), n + 1))
  {
    NextApplies(db, plans, n, Advance(db, Todo(db, plans), n));
  }

  lemma {:induction false} AppliedAfter(db: Db, plans: seq<PlanRow>, n: nat)
    requires Loaded(plans) && DistinctIds(db) && n <= |Todo(db, plans)|
    ensures Applied(db, plans, n, Advance(db, Todo(db, plans), n))
  {
    hide Advance, Todo, Applied, Loaded, DistinctIds;
    if n == 0 {
      NothingApplied(db, plans);
    } else {
      AppliedAfter(db, plans, n - 1);
      AdvanceOne(db, plans, n - 1);
    }
  }

  /** Every ready row is still ready when its turn comes. */
  lemma AdvanceApplies(db: Db, plans: seq<PlanRow>, n: nat)
    requires Loaded(plans) && DistinctIds(db) && n <= |Todo(db, plans)|
    ensures Applied(db, plans, n, Advance(db, Todo(db, plans), n))
    ensures n < |Todo(db, plans)| ==> Ready(Advance(db, Todo(db, plans), n), Todo(db, plans)[n])
  {
    AppliedAfter(db, plans, n);
    if n < |Todo(db, plans)| {
      NextIsReady(db, plans, n, Advance(db, Todo(db, plans), n));
    }
  }

  /** What is still to do after the first `n` rows are the remaining ones, in the same order. */
  lemma SuffixRemains(db: Db, plans: seq<PlanRow>, n: nat, db': Db)
    requires Loaded(plans) && DistinctIds(db) && n <= |Todo(db, plans)| && Applied(db, plans, n, db')
    ensures Todo(db', plans) == Todo(db, plans)[n..]
    ensures Blocked(db', plans) <==> Blocked(db, plans)
  {
    RemainingIds(db, plans, n, db');
    RemainingRows(db, plans, n, db');
    BlockedAsBefore(db, plans, n, db');
  }

  /** A run stopped after `k` rows and continued ends where the uninterrupted run ends. */
  lemma {:induction false} AdvanceAgain(db: Db, rows: seq<PlanRow>, k: nat, m: nat)
    requires k + m <= |rows|
    ensures Advance(Advance(db, rows, k), rows[k..], m) == Advance(db, rows, k + m)
  {
    if m > 0 {
      AdvanceAgain(db, rows, k, m - 1);
    }
  }

  /** The first `n` ready rows rise by one revision each; no other state row changes. */
  ghost predicate RaisedOnce(db: Db, ids: seq<int>, db': Db) {
    && db'.states.Keys == db.states.Keys
    && |db'.history| == |db.history| + 2 * |ids| && |db'.events| == |db.events| + |ids|
    && forall id :: id in db.states ==>
        if id in ids then RevisionOf(db'.states[id]) == RevisionOf(db.states[id]) + 1
          else db'.states[id] == db.states[id]
  }

  lemma RaiseOneMore(db: Db, ids: seq<int>, db': Db, p: PlanRow)
    requires RaisedOnce(db, ids, db') && Ready(db', p) && FileIdOf(db', p) !in ids
    ensures RaisedOnce(db, ids + [FileIdOf(db', p)], ApplyRow(db', p))
  {}

  lemma {:induction false} EachRowOnce(db: Db, plans: seq<PlanRow>, todo: seq<PlanRow>, ids: seq<int>, n: nat)
    requires Loaded(plans) && DistinctIds(db) && todo == Todo(db, plans) && ids == Ascending(ReadyIds(db, plans))
    requires n <= |todo|
    ensures |ids| == |todo| && RaisedOnce(db, ids[..n], Advance(db, todo, n))
  {
    SameLength(db, plans, todo, ids);
    if n > 0 {
      EachRowOnce(db, plans, todo, ids, n - 1);
      RowAt(db, plans, todo, ids, n - 1);
      RaiseOneMore(db, ids[..n - 1], Advance(db, todo, n - 1), todo[n - 1]);
    }
  }

  lemma SameLength(db: Db, plans: seq<PlanRow>, todo: seq<PlanRow>, ids: seq<int>)
    requires todo == Todo(db, plans) && ids == Ascending(ReadyIds(db, plans))
    ensures |todo| == |ids|
  {}

  lemma RowAt(db: Db, plans: seq<PlanRow>, todo: seq<PlanRow>, ids: seq<int>, i: nat)
    requires Loaded(plans) && DistinctIds(db) && todo == Todo(db, plans) && ids == Ascending(ReadyIds(db, plans))
    requires i < |todo| == |ids|
    ensures Ready(Advance(db, todo, i), todo[i]) && FileIdOf(Advance(db, todo, i), todo[i]) == ids[i]
    ensures ids[..i + 1] == ids[..i] + [ids[i]] && ids[i] !in ids[..i]
  {
    AdvanceApplies(db, plans, i);
    TodoIds(db, plans, i);
    NextId(ids, i);
  }

  lemma NextId(ids: seq<int>, i: nat)
    requires StrictlyAscending(ids) && i < |ids|
    ensures ids[..i + 1] == ids[..i] + [ids[i]] && ids[i] !in ids[..i]
  {}

  /** Verify, then apply in batches; the process dies after `batches` of them. */
  datatype Attempt = Attempt(batchSize: nat, batches: nat)

  /** Batches of `batchSize` rows, the last one possibly shorter. */
  function Committed(total: nat, a: Attempt): (n: nat)
    ensures n <= total
    decreases a.batches
  {
    if a.batches == 0 then 0
    else
      var n := Committed(total, a.(batches := a.batches - 1));
      if n + a.batchSize <= total then n + a.batchSize else total
  }

  lemma EnoughBatches(total: nat, a: Attempt)
    requires a.batchSize * a.batches >= total
    ensures Committed(total, a) == total
  {
    CommittedProduct(total, a);
  }

  lemma {:induction false} CommittedProduct(total: nat, a: Attempt)
    ensures Committed(total, a) == if a.batchSize * a.batches <= total then a.batchSize * a.batches else total
    decreases a.batches
  {
    if a.batches > 0 {
      CommittedProduct(total, a.(batches := a.batches - 1));
      assert a.batchSize * a.batches == a.batchSize * (a.batches - 1) + a.batchSize;
    }
  }

  ghost function AfterAttempt(db: Db, plans: seq<PlanRow>, a: Attempt): Db {
    if Blocked(db, plans) then db else Advance(db, Todo(db, plans), Committed(|Todo(db, plans)|, a))
  }

  ghost function AfterAttempts(db: Db, plans: seq<PlanRow>, attempts: seq<Attempt>): Db {
    if attempts == [] then db
    else AfterAttempt(AfterAttempts(db, plans, attempts[..|attempts| - 1]), plans, attempts[|attempts| - 1])
  }

  lemma ContinueFrom(db: Db, plans: seq<PlanRow>, todo: seq<PlanRow>, k: nat)
    requires Loaded(plans) && DistinctIds(db) && todo == Todo(db, plans) && k <= |todo|
    ensures Todo(Advance(db, todo, k), plans) == todo[k..]
    ensures Blocked(Advance(db, todo, k), plans) <==> Blocked(db, plans)
  {
    AdvanceApplies(db, plans, k);
    SuffixRemains(db, plans, k, Advance(db, todo, k));
  }

  lemma AttemptFrom(db: Db, plans: seq<PlanRow>, rows: seq<PlanRow>, a: Attempt, m: nat)
    requires !Blocked(db, plans) && rows == Todo(db, plans) && m == Committed(|rows|, a)
    ensures AfterAttempt(db, plans, a) == Advance(db, rows, m)
  {}

  lemma NextAttempt(db: Db, plans: seq<PlanRow>, todo: seq<PlanRow>, k: nat, a: Attempt, m: nat)
    requires Loaded(plans) && DistinctIds(db) && !Blocked(db, plans) && todo == Todo(db, plans) && k <= |todo|
    requires m == Committed(|todo| - k, a)
    ensures AfterAttempt(Advance(db, todo, k), plans, a) == Advance(db, todo, k + m)
  {
    ContinueFrom(db, plans, todo, k);
    AttemptFrom(Advance(db, todo, k), plans, todo[k..], a, m);
    AdvanceAgain(db, todo, k, m);
  }

  /** After any attempts the database is that of one run stopped after some row. */
  lemma {:induction false} AttemptsAreAPrefix(db: Db, plans: seq<PlanRow>, todo: seq<PlanRow>, attempts: seq<Attempt>)
    returns (n: nat)
    requires Loaded(plans) && DistinctIds(db) && !Blocked(db, plans) && todo == Todo(db, plans)
    ensures n <= |todo| && AfterAttempts(db, plans, attempts) == Advance(db, todo, n)
  {
    hide Loaded, DistinctIds, Blocked, Todo, Committed, AfterAttempt, ApplyIfReady;
    if attempts == [] {
      n := 0;
    } else {
      var k := AttemptsAreAPrefix(db, plans, todo, attempts[..|attempts| - 1]);
      var m := Committed(|todo| - k, attempts[|attempts| - 1]);
      NextAttempt(db, plans, todo, k, attempts[|attempts| - 1], m);
      n := k + m;
    }
  }

  lemma LastAttempt(db: Db, plans: seq<PlanRow>, todo: seq<PlanRow>, k: nat, last: Attempt)
    requires Loaded(plans) && DistinctIds(db) && !Blocked(db, plans) && todo == Todo(db, plans) && k <= |todo|
    requires last.batchSize * last.batches >= |todo|
    ensures AfterAttempt(Advance(db, todo, k), plans, last) == Advance(db, todo, |todo|)
  {
    EnoughBatches(|todo| - k, last);
    NextAttempt(db, plans, todo, k, last, |todo| - k);
  }

  lemma AttemptsThenLast(db: Db, plans: seq<PlanRow>, attempts: seq<Attempt>, last: Attempt)
    ensures AfterAttempts(db, plans, attempts + [last]) == AfterAttempt(AfterAttempts(db, plans, attempts), plans, last)
  {
    assert (attempts + [last])[..|attempts|] == attempts;
  }

  /**
   * Convergence: after any number of crashed attempts with any batch sizes, one attempt that gets
   * through ends in the states, history and events of a single uninterrupted run.
   */
  lemma AttemptsConverge(db: Db, plans: seq<PlanRow>, attempts: seq<Attempt>, last: Attempt)
    requires Loaded(plans) && DistinctIds(db) && !Blocked(db, plans)
    requires last.batchSize * last.batches >= |Todo(db, plans)|
    ensures AfterAttempts(db, plans, attempts + [last]) == Advance(db, Todo(db, plans), |Todo(db, plans)|)
  {
    var todo := Todo(db, plans);
    var k := AttemptsAreAPrefix(db, plans, todo, attempts);
    AttemptsThenLast(db, plans, attempts, last);
    LastAttempt(db, plans, todo, k, last);
  }

  /**
   * A finished run has raised the revision of every ready file exactly once, with two history rows
   * and one change event each, has left all other state rows alone and has nothing more to do.
   */
  lemma FinishedRun(db: Db, plans: seq<PlanRow>)
    requires Loaded(plans) && DistinctIds(db)
    ensures
      var db' := Advance(db, Todo(db, plans), |Todo(db, plans)|);
      && RaisedOnce(db, Ascending(ReadyIds(db, plans)), db')
      && Todo(db', plans) == []
      && (forall p :: p in plans && Ready(db, p) ==> Verify(db', p).AlreadyApplied?)
  {
    var todo, ids := Todo(db, plans), Ascending(ReadyIds(db, plans));
    var db' := Advance(db, todo, |todo|);
    EachRowOnce(db, plans, todo, ids, |todo|);
    AdvanceApplies(db, plans, |todo|);
    SuffixRemains(db, plans, |todo|, db');
    assert todo[..|todo|] == todo && ids[..|todo|] == ids;
    forall p | p in plans && Ready(db, p) ensures Verify(db', p).AlreadyApplied? {
      var i := InTodo(db, plans, p);
    }
  }

  /** A blocked plan is refused on every attempt. */
  lemma {:induction false} BlockedStays(db: Db, plans: seq<PlanRow>, attempts: seq<Attempt>)
    requires Blocked(db, plans)
    ensures AfterAttempts(db, plans, attempts) == db
  {
    if attempts != [] {
      BlockedStays(db, plans, attempts[..|attempts| - 1]);
    }
  }
}
