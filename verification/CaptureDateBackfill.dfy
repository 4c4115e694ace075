/**
 * The capture-date backfill: a keyset-paged loop over the active MemoryKeeper files that reports what
 * it would update, or updates it. Every file is visited once, in ascending order, whatever the batch
 * size, and on an unchanging database the report and the update agree.
 */
module CaptureDateBackfill {
  import opened Options
  import opened Ordering
  import opened CaptureDates
  import opened Tallies

  const MAX_BATCH_SIZE := 50

  /** An active MemoryKeeper file or another one; `legacyYear` is generated from the state's date. */
  datatype Row = Row(
    active: bool, path: Option<string>, created: Option<DateTime>, imported: Option<DateTime>,
    metadata: Option<Option<DateTime>>, state: Option<FileState>, legacyYear: Option<int>)

  type Table = map<int, Row>

  /** What the storage finds for a file. */
  datatype FileScan = Found(when: DateTime) | Absent | Unsafe | Unreadable | Undated

  datatype ScanReason =
    | OriginalExifAvailable | ProjectionOnly | OriginalFileMissing | UnsafePath | ReadError | NoCaptureDatetime
    | OriginalFileReextractable

  datatype Scan = Scan(when: Option<DateTime>, reason: ScanReason)

  datatype Config = Config(projectionOnly: bool, postgres: bool)

  ghost predicate ValidTable(t: Table) {
    forall id :: id in t && t[id].state.Some? ==> ValidSourceYear(t[id].state.value.sourceYear)
  }

  predicate ValidRow(r: Row) {
    r.state.Some? ==> ValidSourceYear(r.state.value.sourceYear)
  }

  function OriginalOf(r: Row): Option<DateTime> {
    r.metadata.GetOr(None)
  }

  function ScanOriginal(r: Row, file: FileScan, c: Config): Scan {
    if OriginalOf(r).Some? then Scan(None, OriginalExifAvailable)
    else if c.projectionOnly then Scan(None, ProjectionOnly)
    else if r.path.GetOr("") == "" then Scan(None, OriginalFileMissing)
    else
      match file
      case Found(when) => Scan(Some(when), OriginalFileReextractable)
      case Absent => Scan(None, OriginalFileMissing)
      case Unsafe => Scan(None, UnsafePath)
      case Unreadable => Scan(None, ReadError)
      case Undated => Scan(None, NoCaptureDatetime)
  }

  function BlankState(): FileState {
    FileState(None, None, None, None, None, None, None, None, None, Some(0))
  }

  function Project(r: Row, original: Option<DateTime>): Projection
    requires ValidRow(r)
  {
    var s := r.state.GetOr(BlankState());
    Calculate(s.user, s.userPrecision, original, r.imported, r.created, s.sourceYear)
  }

  predicate StateMatches(s: FileState, p: Projection) {
    s.when == p.when && s.year == p.year && s.precision == p.precision && s.basis == p.basis
  }

  predicate GeneratedMismatch(s: FileState, legacyYear: Option<int>, postgres: bool) {
    postgres && (s.day != DayOf(s.when) || legacyYear != YearOf(s.when))
  }

  /** The dry run's judgement of a row. */
  predicate WouldUpdate(r: Row, scan: Scan, c: Config)
    requires ValidRow(r)
  {
    || r.state.None? || scan.when.Some?
    || !StateMatches(r.state.value, Project(r, if OriginalOf(r).Some? then OriginalOf(r) else scan.when))
    || GeneratedMismatch(r.state.value, r.legacyYear, c.postgres)
  }

  /** `_apply_snapshot` on an active row: what it writes, and whether it changed anything. */
  function Apply(r: Row, scan: Scan, c: Config): (Row, bool)
    requires ValidRow(r)
  {
    var originalChanged := scan.when.Some? && OriginalOf(r).None?;
    var metadata := if originalChanged then Some(scan.when) else r.metadata;
    var created := r.state.None?;
    var state := r.state.GetOr(BlankState());
    var legacyYear := if created then None else r.legacyYear;
    var p := Project(r, metadata.GetOr(None));
    var changed := created || originalChanged || !StateMatches(state, p)
      || GeneratedMismatch(state, legacyYear, c.postgres);
    // Writing the projection also makes the database generate the day and the year anew.
    var written := r.(metadata := metadata, state := Some(Synchronized(state, p)), legacyYear := YearOf(p.when));
    (if changed then written else r, changed)
  }

  /** The stored EXIF date of a file. */
  ghost predicate HasOriginal(r: Row) {
    r.metadata.Some? && r.metadata.value.Some?
  }

  /** Why the storage is asked or not, and what it answers; only a date that was found is used. */
  lemma ScanOutcomes(r: Row, file: FileScan, c: Config)
    ensures
      var scan := ScanOriginal(r, file, c);
      var asked := !HasOriginal(r) && !c.projectionOnly && r.path.Some? && r.path.value != "";
      && (scan.reason == OriginalExifAvailable <==> HasOriginal(r))
      && (scan.reason == ProjectionOnly <==> !HasOriginal(r) && c.projectionOnly)
      && (scan.reason == OriginalFileMissing <==>
            !HasOriginal(r) && !c.projectionOnly && (r.path.None? || r.path.value == "" || file == Absent))
      && (scan.reason == UnsafePath <==> asked && file == Unsafe)
      && (scan.reason == ReadError <==> asked && file == Unreadable)
      && (scan.reason == NoCaptureDatetime <==> asked && file == Undated)
      && (scan.reason == OriginalFileReextractable <==> asked && file.Found?)
      && scan.when == if asked && file.Found? then Some(file.when) else None
  {}

  /** The EXIF date that a visit leaves, and the projection it implies for the row's state. */
  ghost predicate ProjectedFrom(r: Row, scan: Scan, p: Projection) {
    var original := if HasOriginal(r) then r.metadata.value else scan.when;
    if r.state.Some? then
      var s := r.state.value;
      DatedBy(p, s.user, s.userPrecision, original, r.imported, r.created, s.sourceYear)
    else DatedBy(p, None, None, original, r.imported, r.created, None)
  }

  /** A row is announced unless it has a state whose columns all show its projection and nothing was found. */
  lemma AnnouncedRows(r: Row, file: FileScan, c: Config)
    requires ValidRow(r)
    ensures
      var scan := ScanOriginal(r, file, c);
      !WouldUpdate(r, scan, c) <==>
        && r.state.Some? && scan.when == None
        && var s := r.state.value;
           && ProjectedFrom(r, scan, Projection(s.when, s.year, s.precision, s.basis))
           && (c.postgres ==>
                 && s.day == (if s.when.Some? then Some(s.when.value.date) else None)
                 && r.legacyYear == (if s.when.Some? then Some(s.when.value.date.year) else None))
  {
    var original := if HasOriginal(r) then r.metadata.value else ScanOriginal(r, file, c).when;
    var s := r.state.GetOr(BlankState());
    SourcesInOrder(s.user, s.userPrecision, original, r.imported, r.created, s.sourceYear);
  }

  /** What an update writes: a found EXIF date, and the dates of the projection; never the user's columns. */
  lemma WrittenRows(r: Row, file: FileScan, c: Config)
    requires ValidRow(r) && WouldUpdate(r, ScanOriginal(r, file, c), c)
    ensures
      var scan := ScanOriginal(r, file, c);
      var after := Apply(r, scan, c).0;
      && after.state.Some?
      && var s := after.state.value;
         && after == r.(metadata := after.metadata, state := after.state, legacyYear := after.legacyYear)
         && after.metadata == (if scan.when.Some? then Some(scan.when) else r.metadata)
         && ProjectedFrom(r, scan, Projection(s.when, s.year, s.precision, s.basis))
         && s.day == (if s.when.Some? then Some(s.when.value.date) else None)
         && after.legacyYear == (if s.when.Some? then Some(s.when.value.date.year) else None)
         && (r.state.Some? ==>
               s == r.state.value.(when := s.when, day := s.day, year := s.year, precision := s.precision,
                                   basis := s.basis))
         && (r.state.None? ==>
               s.user == None && s.userPrecision == None && s.sourceYear == None && s.sourceBasis == None
               && s.revision == Some(0))
  {
    var original := if HasOriginal(r) then r.metadata.value else ScanOriginal(r, file, c).when;
    var s := r.state.GetOr(BlankState());
    SourcesInOrder(s.user, s.userPrecision, original, r.imported, r.created, s.sourceYear);
  }

  /** The update changes a row exactly when the dry run announces it. */
  lemma DryRunIsFaithful(r: Row, file: FileScan, c: Config)
    requires ValidRow(r)
    ensures Apply(r, ScanOriginal(r, file, c), c).1 <==> WouldUpdate(r, ScanOriginal(r, file, c), c)
    ensures !WouldUpdate(r, ScanOriginal(r, file, c), c) ==> Apply(r, ScanOriginal(r, file, c), c).0 == r
  {}

  /** What an update leaves behind: a state that matches its projection, and the original date if one was found. */
  lemma UpdatedRow(r: Row, file: FileScan, c: Config)
    requires ValidRow(r)
    ensures
      var scan := ScanOriginal(r, file, c);
      var r' := Apply(r, scan, c).0;
      && ValidRow(r') && r'.active == r.active && r'.path == r.path && r'.state.Some?
      && OriginalOf(r') == (if OriginalOf(r).Some? then OriginalOf(r) else scan.when)
      && StateMatches(r'.state.value, Project(r', OriginalOf(r')))
        && !GeneratedMismatch(r'.state.value, r'.legacyYear, c.postgres)
  {}

  /** An updated row is announced again exactly when the storage finds a date it did not find before. */
  lemma UpdatedRowsAreDone(r: Row, file: FileScan, later: FileScan, c: Config)
    requires ValidRow(r)
    ensures
      var r' := Apply(r, ScanOriginal(r, file, c), c).0;
      && ValidRow(r') && r'.active == r.active
      && (WouldUpdate(r', ScanOriginal(r', later, c), c) <==>
            !file.Found? && later.Found? && OriginalOf(r).None? && !c.projectionOnly && r.path.GetOr("") != "")
  {
    UpdatedRow(r, file, c);
  }

  // ----------------------------------------------------------------- paging

  /** The active files behind a cursor. */
  function Behind(t: Table, cursor: int): set<int> {
    set id | id in t && t[id].active && id > cursor
  }

  function First(ids: seq<int>, limit: Option<nat>): seq<int> {
    if limit.None? || |ids| <= limit.value then ids else ids[..limit.value]
  }

  /** What a run visits: the active files behind the cursor, ascending, up to the limit. */
  function Visited(t: Table, after: int, limit: Option<nat>): seq<int> {
    First(Ascending(Behind(t, after)), limit)
  }

  lemma RestIsBehind(t: Table, after: int, all: seq<int>, k: nat)
    requires all == Ascending(Behind(t, after)) && k < |all|
    ensures Ascending(Behind(t, all[k])) == all[k + 1..]
  {
    assert all[k] in all;
    AscendingAbove(Behind(t, after), all, k, Behind(t, all[k]));
  }

  lemma Halves(s: seq<int>, k: nat)
    requires 0 < k <= |s|
    ensures s == s[..k] + s[k..] && s[..k][k - 1] == s[k - 1]
  {}

  /** A run that stopped at its limit and one resumed behind its last file visit what one run visits. */
  lemma ResumedRunsAddUp(t: Table, after: int, limit: nat)
    requires 0 < limit <= |Ascending(Behind(t, after))|
    ensures
      var first := Visited(t, after, Some(limit));
      first != [] && first + Visited(t, first[|first| - 1], None) == Visited(t, after, None)
  {
    var all := Ascending(Behind(t, after));
    RestIsBehind(t, after, all, limit - 1);
    Halves(all, limit);
    assert Visited(t, after, Some(limit)) == all[..limit];
  }

  // ------------------------------------------------------------------- run

  datatype Stats = Stats(
    scanned: nat, reasons: Tally<ScanReason>, uses: Tally<Use>, wouldUpdate: nat,
    updated: nat, failed: nat, skippedInactive: nat, highWater: Option<int>, last: Option<int>)

  const NO_STATS := Stats(0, map[], map[], 0, 0, 0, 0, None, None)

  /** The counters of `_increment_would_use`. */
  datatype Use = UsesUser | UsesExif | UsesImported | UsesCreated | NoSource

  /** Every other basis counts as no source. */
  function UseOf(p: Projection): Use {
    if p.basis == Some(USER) then UsesUser
    else if p.basis == Some(EXIF) then UsesExif
    else if p.basis == Some(IMPORTED) then UsesImported
    else if p.basis == Some(CREATED) then UsesCreated
    else NoSource
  }

  /** Which counter a projected row adds to, by the dates of its sources. */
  lemma UseIs(r: Row, original: Option<DateTime>)
    requires ValidRow(r)
    ensures
      var use := UseOf(Project(r, original));
      var user := r.state.Some? && r.state.value.user.Some?;
      var planned := r.state.Some? && r.state.value.sourceYear.Some?;
      && (use == UsesUser <==> user)
      && (use == UsesExif <==>
            !user && original.Some? && (planned ==> original.value.date.year == r.state.value.sourceYear.value))
      && (use == UsesImported <==> !user && !planned && original.None? && r.imported.Some?)
      && (use == UsesCreated <==> !user && !planned && original.None? && r.imported.None? && r.created.Some?)
  {}

  function SourceYearOf(r: Row): Option<int> {
    if r.state.Some? then r.state.value.sourceYear else None
  }

  function UserDateOf(r: Row): Option<DateTime> {
    if r.state.Some? then r.state.value.user else None
  }

  /**
   * The counter called "no source" counts two kinds of rows: those without any date, and those that a
   * source year decides because no user date and no EXIF date of that year exists.
   */
  lemma CountedAsNoSource(r: Row, original: Option<DateTime>)
    requires ValidRow(r)
    ensures UseOf(Project(r, original)).NoSource? <==>
            && UserDateOf(r).None?
            && if SourceYearOf(r).Some? then original.None? || YearOf(original) != SourceYearOf(r)
               else original.None? && r.imported.None? && r.created.None?
    ensures UseOf(Project(r, original)).NoSource? ==> Project(r, original).year == SourceYearOf(r)
  {}

  /** A file with an EXIF date, an import date and a planned source year is counted as having no source. */
  lemma DatedFileCountedAsNoSource()
    ensures
      var taken := Some(DateTime(Date(2021, 5, 1), 0));
      var state := BlankState().(sourceYear := Some(2020));
      var row := Row(true, Some("a.jpg"), taken, taken, Some(taken), Some(state), None);
      ValidRow(row) && UseOf(Project(row, taken)).NoSource? && Project(row, taken).year == Some(2020)
  {
    var taken := Some(DateTime(Date(2021, 5, 1), 0));
    var state := BlankState().(sourceYear := Some(2020));
    CountedAsNoSource(Row(true, Some("a.jpg"), taken, taken, Some(taken), Some(state), None), taken);
  }

  type Storage = map<int, FileScan>

  /** The options of a run, and what it will meet: `gone` files become inactive, `failing` ones raise. */
  datatype Setup = Setup(
    execute: bool, batchSize: int, maxRows: Option<int>, config: Config,
    storage: Storage, gone: set<int>, failing: set<int>)

  predicate GoodOptions(u: Setup, after: int) {
    1 <= u.batchSize <= MAX_BATCH_SIZE && (u.maxRows.Some? ==> u.maxRows.value >= 1) && after >= 0
  }

  function ScanOf(t: Table, u: Setup, id: int): Scan
    requires id in t
  {
    ScanOriginal(t[id], if id in u.storage then u.storage[id] else Absent, u.config)
  }

  /** The source that the projected date of a visited row would use. */
  function ProjectedUse(t: Table, u: Setup, id: int): Use
    requires id in t && ValidRow(t[id])
  {
    UseOf(Project(t[id], if OriginalOf(t[id]).Some? then OriginalOf(t[id]) else ScanOf(t, u, id).when))
  }

  predicate ValidIds(t: Table, ids: seq<int>) {
    forall i :: 0 <= i < |ids| ==> ids[i] in t && ValidRow(t[ids[i]])
  }

  /** Those of these files, `except` left out, that a dry run announces. */
  function Announced(t: Table, u: Setup, ids: seq<int>, except: set<int>): set<int>
    requires ValidIds(t, ids)
  {
    set id | id in ids && id !in except && id in t && ValidRow(t[id]) && WouldUpdate(t[id], ScanOf(t, u, id), u.config)
  }

  /** Those with this outcome of the scan, and those whose date would come from this source. */
  function ScannedAs(t: Table, u: Setup, ids: seq<int>, reason: ScanReason): set<int> {
    set id | id in ids && id in t && ScanOf(t, u, id).reason == reason
  }

  function UsedAs(t: Table, u: Setup, ids: seq<int>, use: Use): set<int> {
    set id | id in ids && id in t && ValidRow(t[id]) && ProjectedUse(t, u, id) == use
  }

  function Among(ids: seq<int>, s: set<int>): set<int> {
    set id | id in ids && id in s
  }

  /** The table after visiting the files; those of `except` were skipped or rolled back. */
  function Updated(t: Table, u: Setup, ids: seq<int>, except: set<int>): Table
    requires ValidIds(t, ids)
  {
    map id | id in t ::
      if id in ids && id !in except && ValidRow(t[id]) then Apply(t[id], ScanOf(t, u, id), u.config).0 else t[id]
  }

  /** Each counter of the scan is the number of visited files it stands for. */
  ghost predicate Tallied(s: Stats, t: Table, u: Setup, ids: seq<int>) {
    && (forall reason: ScanReason {:trigger ScannedAs(t, u, ids, reason)} ::
        Get(s.reasons, reason) == |ScannedAs(t, u, ids, reason)|)
    && (forall use: Use {:trigger UsedAs(t, u, ids, use)} :: Get(s.uses, use) == |UsedAs(t, u, ids, use)|)
    && s.scanned == |ids| == Total(s.reasons) == Total(s.uses)
  }

  ghost predicate Reported(s: Stats, t: Table, u: Setup, ids: seq<int>)
    requires ValidIds(t, ids)
  {
    && Tallied(s, t, u, ids)
    && s.wouldUpdate == |Announced(t, u, ids, {})|
    && s.last == if ids == [] then None else Some(ids[|ids| - 1])
  }

  ghost predicate Written(s: Stats, t: Table, u: Setup, ids: seq<int>)
    requires ValidIds(t, ids)
  {
    && s.updated == |Announced(t, u, ids, u.gone + u.failing)|
    && s.skippedInactive == |Among(ids, u.gone)| && s.failed == |Among(ids, u.failing - u.gone)|
  }

  lemma OneMoreFile(t: Table, u: Setup, ids: seq<int>, id: int, except: set<int>)
    requires ValidIds(t, ids) && id in t && ValidRow(t[id]) && id !in ids
    ensures ValidIds(t, ids + [id])
    ensures |Announced(t, u, ids + [id], except)| == |Announced(t, u, ids, except)|
              + if id !in except && WouldUpdate(t[id], ScanOf(t, u, id), u.config) then 1 else 0
  {
    if id !in except && WouldUpdate(t[id], ScanOf(t, u, id), u.config) {
      assert Announced(t, u, ids + [id], except) == Announced(t, u, ids, except) + {id};
    } else {
      assert Announced(t, u, ids + [id], except) == Announced(t, u, ids, except);
    }
  }

  lemma OneMoreScanned(t: Table, u: Setup, ids: seq<int>, id: int, reason: ScanReason)
    requires id in t && id !in ids
    ensures |ScannedAs(t, u, ids + [id], reason)|
         == |ScannedAs(t, u, ids, reason)| + if ScanOf(t, u, id).reason == reason then 1 else 0
  {
    if ScanOf(t, u, id).reason == reason {
      assert ScannedAs(t, u, ids + [id], reason) == ScannedAs(t, u, ids, reason) + {id};
    } else {
      assert ScannedAs(t, u, ids + [id], reason) == ScannedAs(t, u, ids, reason);
    }
  }

  lemma OneMoreUse(t: Table, u: Setup, ids: seq<int>, id: int, use: Use)
    requires id in t && ValidRow(t[id]) && id !in ids
    ensures |UsedAs(t, u, ids + [id], use)|
         == |UsedAs(t, u, ids, use)| + if ProjectedUse(t, u, id) == use then 1 else 0
  {
    if ProjectedUse(t, u, id) == use {
      assert UsedAs(t, u, ids + [id], use) == UsedAs(t, u, ids, use) + {id};
    } else {
      assert UsedAs(t, u, ids + [id], use) == UsedAs(t, u, ids, use);
    }
  }

  lemma OneMoreTallied(s: Stats, r: Stats, t: Table, u: Setup, ids: seq<int>, id: int)
    requires id in t && ValidRow(t[id]) && id !in ids && Tallied(s, t, u, ids)
    requires r.scanned == s.scanned + 1 && r.reasons == Bump(s.reasons, ScanOf(t, u, id).reason)
    requires r.uses == Bump(s.uses, ProjectedUse(t, u, id))
    ensures Tallied(r, t, u, ids + [id])
  {
    forall reason: ScanReason ensures Get(r.reasons, reason) == |ScannedAs(t, u, ids + [id], reason)| {
      OneMoreScanned(t, u, ids, id, reason);
    }
    forall use: Use ensures Get(r.uses, use) == |UsedAs(t, u, ids + [id], use)| {
      OneMoreUse(t, u, ids, id, use);
    }
    BumpAddsOne(s.reasons, ScanOf(t, u, id).reason);
    BumpAddsOne(s.uses, ProjectedUse(t, u, id));
  }

  lemma OneMoreAmong(ids: seq<int>, id: int, s: set<int>)
    requires id !in ids
    ensures |Among(ids + [id], s)| == |Among(ids, s)| + if id in s then 1 else 0
  {
    if id in s {
      assert Among(ids + [id], s) == Among(ids, s) + {id};
    } else {
      assert Among(ids + [id], s) == Among(ids, s);
    }
  }

  lemma NothingUpdated(t: Table, u: Setup, except: set<int>)
    ensures Updated(t, u, [], except) == t
  {}

  lemma NothingTallied(t: Table, u: Setup)
    ensures Tallied(NO_STATS, t, u, [])
  {
    forall reason: ScanReason ensures |ScannedAs(t, u, [], reason)| == 0 {
      assert ScannedAs(t, u, [], reason) == {};
    }
    forall use: Use ensures |UsedAs(t, u, [], use)| == 0 {
      assert UsedAs(t, u, [], use) == {};
    }
  }

  lemma AllValid(t: Table, after: int, all: seq<int>)
    requires all == Ascending(Behind(t, after)) && forall id :: id in t ==> ValidRow(t[id])
    ensures ValidIds(t, all)
  {
    forall i | 0 <= i < |all| ensures all[i] in t {
      assert all[i] in all;
    }
  }

  lemma NextBatch(t: Table, all: seq<int>, n: nat, batch: seq<int>)
    requires StrictlyAscending(all) && ValidIds(t, all) && n <= |all| && batch <= all[n..]
    ensures n + |batch| <= |all| && all[..n] + batch == all[..n + |batch|]
    ensures ValidIds(t, batch) && ValidIds(t, all[..n]) && StrictlyAscending(all[..n] + batch)
    ensures forall i :: 0 <= i < |batch| ==> batch[i] !in all[..n]
  {
    assert batch == all[n..][..|batch|];
  }

  /** Behind the last file of a batch lie the files the batch left over. */
  lemma MoveOn(t: Table, cursor: int, rest: seq<int>, batch: seq<int>, limit: nat)
    requires rest == Ascending(Behind(t, cursor)) && batch == First(rest, Some(limit)) && batch != []
    ensures |batch| <= limit && |batch| <= |rest|
    ensures Ascending(Behind(t, batch[|batch| - 1])) == rest[|batch|..]
  {
    RestIsBehind(t, cursor, rest, |batch| - 1);
  }

  lemma Regroup(visited: seq<int>, rest: seq<int>, batch: seq<int>, all: seq<int>, limit: nat)
    requires visited + rest == all && batch == First(rest, Some(limit))
    ensures |batch| <= limit && |batch| <= |rest| && |visited + batch| == |visited| + |batch|
    ensures (visited + batch) + rest[|batch|..] == all
    ensures batch == [] ==> rest[|batch|..] == rest && (limit > 0 ==> rest == [])
  {}

  lemma Finished(visited: seq<int>, rest: seq<int>, all: seq<int>, maxRows: Option<int>)
    requires visited + rest == all && (maxRows.Some? ==> 1 <= maxRows.value && |visited| <= maxRows.value)
    requires rest == [] || (maxRows.Some? && |visited| == maxRows.value)
    ensures visited == First(all, LimitOf(maxRows))
  {}

  /** The cursor of the loop, and how many rows it may still visit. */
  datatype Position = Position(cursor: int, remaining: Option<int>)

  /** The position after a batch, which never has more rows than remain. */
  function Advance(at: Position, batch: seq<int>): Position {
    Position(
      if batch != [] then batch[|batch| - 1] else at.cursor,
      if at.remaining.None? then None else Some(at.remaining.value - |batch|))
  }

  /** Where the loop stands: its position, what it has visited, and what lies behind the cursor. */
  datatype Place = Place(at: Position, visited: seq<int>, rest: seq<int>)

  ghost predicate Round(t: Table, all: seq<int>, maxRows: Option<int>, p: Place) {
    && p.rest == Ascending(Behind(t, p.at.cursor)) && p.visited + p.rest == all
    && ValidIds(t, p.visited) && ValidIds(t, p.rest)
    && (p.at.remaining.Some? <==> maxRows.Some?)
    && (p.at.remaining.Some? ==> p.at.remaining.value >= 0 && p.at.remaining.value + |p.visited| == maxRows.value)
  }

  function AfterBatch(p: Place, batch: seq<int>): Place
    requires |batch| <= |p.rest|
  {
    Place(Advance(p.at, batch), p.visited + batch, p.rest[|batch|..])
  }

  lemma StillValid(t: Table, visited: seq<int>, rest: seq<int>, batch: seq<int>)
    requires ValidIds(t, visited) && ValidIds(t, rest) && batch <= rest
    ensures ValidIds(t, visited + batch) && ValidIds(t, rest[|batch|..])
  {
    forall i | 0 <= i < |batch| ensures batch[i] in t && ValidRow(t[batch[i]]) {
      assert batch[i] == rest[i];
    }
  }

  lemma NextRoundHolds(t: Table, all: seq<int>, maxRows: Option<int>, p: Place, limit: nat, batch: seq<int>)
    requires Round(t, all, maxRows, p) && limit > 0 && (p.at.remaining.Some? ==> limit <= p.at.remaining.value)
    requires batch == First(p.rest, Some(limit))
    ensures |batch| <= |p.rest| && Round(t, all, maxRows, AfterBatch(p, batch))
    ensures if batch == [] then AfterBatch(p, batch).rest == [] else |AfterBatch(p, batch).rest| < |p.rest|
  {
    var q := AfterBatch(p, batch);
    Regroup(p.visited, p.rest, batch, all, limit);
    StillValid(t, p.visited, p.rest, batch);
    assert q.rest == Ascending(Behind(t, q.at.cursor)) by {
      if batch != [] { MoveOn(t, p.at.cursor, p.rest, batch, limit); }
    }
  }

  lemma NothingAbove(t: Table, cursor: int, high: int, rest: seq<int>)
    requires rest == Ascending(Behind(t, cursor)) && cursor >= high
    requires forall id :: id in t && t[id].active ==> id <= high
    ensures rest == []
  {
    assert Behind(t, cursor) == {};
  }

  lemma FirstOfRest(t: Table, visited: seq<int>, rest: seq<int>, batch: seq<int>, limit: nat)
    requires StrictlyAscending(visited + rest) && ValidIds(t, visited) && ValidIds(t, rest)
    requires batch == First(rest, Some(limit))
    ensures ValidIds(t, batch) && StrictlyAscending(visited + batch)
    ensures forall i :: 0 <= i < |batch| ==> batch[i] !in visited
  {
    var all := visited + rest;
    assert all[..|visited|] == visited && all[|visited|..] == rest;
    NextBatch(t, all, |visited|, batch);
  }

  lemma SameActivity(t: Table, u: Setup, ids: seq<int>, except: set<int>)
    requires ValidIds(t, ids)
    ensures
      var after := Updated(t, u, ids, except);
      after.Keys == t.Keys && forall id :: id in t ==> after[id].active == t[id].active
  {
    forall id | id in t && id in ids && id !in except && ValidRow(t[id]) {
      UpdatedRow(t[id], if id in u.storage then u.storage[id] else Absent, u.config);
    }
  }

  lemma NewInBatch(before: seq<int>, batch: seq<int>, i: nat)
    requires StrictlyAscending(before + batch) && i < |batch|
    ensures batch[i] !in before + batch[..i]
  {
    forall k | 0 <= k < |before| + i ensures (before + batch[..i])[k] != batch[i] {
      assert (before + batch[..i])[k] == (before + batch)[k] && (before + batch)[|before| + i] == batch[i];
    }
  }

  function LimitOf(maxRows: Option<int>): Option<nat> {
    if maxRows.Some? && maxRows.value >= 0 then Some(maxRows.value) else None
  }

  lemma ActivityStays(t: Table, u: Setup, ids: seq<int>, except: set<int>, cursor: int)
    requires ValidIds(t, ids)
    ensures Behind(Updated(t, u, ids, except), cursor) == Behind(t, cursor)
  {
    SameActivity(t, u, ids, except);
  }

  lemma UpdatedMore(t: Table, u: Setup, ids: seq<int>, except: set<int>, id: int)
    requires ValidIds(t, ids) && id in t && ValidRow(t[id]) && id !in ids
    ensures ValidIds(t, ids + [id])
    ensures Updated(t, u, ids, except)[id] == t[id]
    ensures Updated(t, u, ids + [id], except) ==
            if id in except then Updated(t, u, ids, except)
            else Updated(t, u, ids, except)[id := Apply(t[id], ScanOf(t, u, id), u.config).0]
  {}

  /** The table and the counters after visiting these files. */
  ghost predicate Progress(u: Setup, rows: Table, s: Stats, t: Table, ids: seq<int>)
    requires ValidIds(t, ids)
  {
    && Reported(s, t, u, ids)
    && (u.execute ==> Written(s, t, u, ids))
    && rows == if u.execute then Updated(t, u, ids, u.gone + u.failing) else t
  }

  /** The largest id of an active file. */
  ghost predicate IsHighWater(t: Table, high: int) {
    high in t && t[high].active && forall id :: id in t && t[id].active ==> id <= high
  }

  class CaptureDateBackfill {
    var rows: Table

    constructor (rows: Table)
      ensures this.rows == rows
    {
      this.rows := rows;
    }

    method HighWater() returns (high: Option<int>)
      ensures high.None? ==> forall id :: id in rows ==> !rows[id].active
      ensures high.Some? ==> IsHighWater(rows, high.value)
    {
      var ids := set id | id in rows && rows[id].active;
      var order := Ascending(ids);
      forall id | id in rows && rows[id].active ensures order != [] && id <= order[|order| - 1] {
        assert id in ids && id in order;
      }
      if order == [] {
        return None;
      }
      assert order[|order| - 1] in order;
      return Some(order[|order| - 1]);
    }

    /** The next active files behind the cursor, up to the high-water mark. */
    method LoadBatch(after: int, through: int, limit: nat) returns (batch: seq<int>)
      requires forall id :: id in rows && rows[id].active ==> id <= through
      ensures batch == First(Ascending(Behind(rows, after)), Some(limit))
    {
      var ids := set id | id in rows && rows[id].active && after < id <= through;
      assert ids == Behind(rows, after);
      var ascending := Ascending(ids);
      batch := if |ascending| <= limit then ascending else ascending[..limit];
    }

    method RecordDryRunRow(s: Stats, id: int, scan: Scan, u: Setup, ghost t: Table, ghost ids: seq<int>)
      returns (r: Stats)
      requires id in rows && id in t && rows[id] == t[id] && ValidRow(t[id]) && scan == ScanOf(t, u, id)
      requires ValidIds(t, ids) && id !in ids && Reported(s, t, u, ids)
      ensures ValidIds(t, ids + [id]) && Reported(r, t, u, ids + [id])
      ensures r == s.(scanned := r.scanned, reasons := r.reasons, uses := r.uses,
                      wouldUpdate := r.wouldUpdate, last := r.last)
    {
      OneMoreFile(t, u, ids, id, {});
      var row := rows[id];
      var projection := Project(row, if OriginalOf(row).Some? then OriginalOf(row) else scan.when);
      r := s.(scanned := s.scanned + 1);
      r := r.(reasons := Bump(s.reasons, scan.reason));
      r := r.(uses := Bump(s.uses, UseOf(projection)));
      r := r.(last := Some(id));
      if WouldUpdate(row, scan, u.config) {
        r := r.(wouldUpdate := r.wouldUpdate + 1);
      }
      OneMoreTallied(s, r, t, u, ids, id);
    }

    method ScanBatch(batch: seq<int>, s: Stats, u: Setup, ghost t: Table, ghost before: seq<int>)
      returns (r: Stats, scans: seq<Scan>)
      requires ValidIds(t, before) && ValidIds(t, batch) && StrictlyAscending(before + batch)
      requires Reported(s, t, u, before)
      requires forall i :: 0 <= i < |batch| ==> batch[i] in rows && rows[batch[i]] == t[batch[i]]
      ensures ValidIds(t, before + batch) && Reported(r, t, u, before + batch)
      ensures r == s.(scanned := r.scanned, reasons := r.reasons, uses := r.uses,
                      wouldUpdate := r.wouldUpdate, last := r.last)
      ensures |scans| == |batch| && forall i :: 0 <= i < |batch| ==> scans[i] == ScanOf(t, u, batch[i])
    {
      r, scans := s, [];
      assert before + batch[..0] == before;
      for i := 0 to |batch|
        invariant ValidIds(t, before + batch[..i]) && Reported(r, t, u, before + batch[..i])
        invariant r == s.(scanned := r.scanned, reasons := r.reasons, uses := r.uses,
                          wouldUpdate := r.wouldUpdate, last := r.last)
        invariant |scans| == i && forall k :: 0 <= k < i ==> scans[k] == ScanOf(t, u, batch[k])
      {
        var scan := ScanOf(rows, u, batch[i]);
        NewInBatch(before, batch, i);
        r := RecordDryRunRow(r, batch[i], scan, u, t, before + batch[..i]);
        scans := scans + [scan];
        assert before + batch[..i] + [batch[i]] == before + batch[..i + 1];
      }
      assert batch[..|batch|] == batch;
    }

    method ApplySnapshot(s: Stats, id: int, scan: Scan, u: Setup, ghost t: Table, ghost ids: seq<int>)
      returns (r: Stats)
      requires ValidIds(t, ids) && id in t && ValidRow(t[id]) && id !in ids && scan == ScanOf(t, u, id)
      requires rows == Updated(t, u, ids, u.gone + u.failing) && Written(s, t, u, ids)
      modifies this
      ensures ValidIds(t, ids + [id])
      ensures rows == Updated(t, u, ids + [id], u.gone + u.failing) && Written(r, t, u, ids + [id])
      ensures r == s.(updated := r.updated, failed := r.failed, skippedInactive := r.skippedInactive)
    {
      OneMoreFile(t, u, ids, id, u.gone + u.failing);
      OneMoreAmong(ids, id, u.gone);
      OneMoreAmong(ids, id, u.failing - u.gone);
      UpdatedMore(t, u, ids, u.gone + u.failing, id);
      DryRunIsFaithful(t[id], if id in u.storage then u.storage[id] else Absent, u.config);
      r := s;
      if id in u.gone {
        r := r.(skippedInactive := r.skippedInactive + 1);
      } else if id in u.failing {
        r := r.(failed := r.failed + 1);
      } else {
        var (row, changed) := Apply(rows[id], scan, u.config);
        rows := rows[id := row];
        if changed {
          r := r.(updated := r.updated + 1);
        }
      }
    }

    method ApplyBatch(batch: seq<int>, scans: seq<Scan>, s: Stats, u: Setup, ghost t: Table, ghost before: seq<int>)
      returns (r: Stats)
      requires ValidIds(t, before) && ValidIds(t, batch) && |scans| == |batch| && StrictlyAscending(before + batch)
      requires forall i :: 0 <= i < |batch| ==> scans[i] == ScanOf(t, u, batch[i])
      requires rows == Updated(t, u, before, u.gone + u.failing) && Written(s, t, u, before)
      modifies this
      ensures ValidIds(t, before + batch)
      ensures rows == Updated(t, u, before + batch, u.gone + u.failing)
      ensures Written(r, t, u, before + batch)
      ensures r == s.(updated := r.updated, failed := r.failed, skippedInactive := r.skippedInactive)
    {
      r := s;
      assert before + batch[..0] == before;
      for i := 0 to |batch|
        invariant ValidIds(t, before + batch[..i])
        invariant rows == Updated(t, u, before + batch[..i], u.gone + u.failing)
        invariant Written(r, t, u, before + batch[..i])
        invariant r == s.(updated := r.updated, failed := r.failed, skippedInactive := r.skippedInactive)
      {
        NewInBatch(before, batch, i);
        r := ApplySnapshot(r, batch[i], scans[i], u, t, before + batch[..i]);
        assert before + batch[..i] + [batch[i]] == before + batch[..i + 1];
      }
      assert batch[..|batch|] == batch;
    }

    /** One round of the loop: a batch is read and scanned, and in execute mode written. */
    method RunBatch(u: Setup, limit: nat, cursor: int, high: int, s: Stats, ghost t: Table, ghost p: Place)
      returns (r: Stats, batch: seq<int>)
      requires p.rest == Ascending(Behind(t, cursor))
      requires ValidIds(t, p.visited) && ValidIds(t, p.rest) && StrictlyAscending(p.visited + p.rest)
      requires forall id :: id in t && t[id].active ==> id <= high
      requires Progress(u, rows, s, t, p.visited)
      modifies this
      ensures batch == First(p.rest, Some(limit)) && ValidIds(t, p.visited + batch)
      ensures Progress(u, rows, r, t, p.visited + batch) && r.highWater == s.highWater
    {
      ActivityStays(t, u, p.visited, u.gone + u.failing, cursor);
      SameActivity(t, u, p.visited, u.gone + u.failing);
      batch := LoadBatch(cursor, high, limit);
      FirstOfRest(t, p.visited, p.rest, batch, limit);
      var scans;
      r, scans := ScanBatch(batch, s, u, t, p.visited);
      if u.execute {
        r := ApplyBatch(batch, scans, r, u, t, p.visited);
      }
    }

    method Run(u: Setup, after: int) returns (ok: bool, stats: Stats, ghost visited: seq<int>)
      requires forall id :: id in rows ==> ValidRow(rows[id])
      modifies this
      ensures ok <==> 1 <= u.batchSize <= 50 && (u.maxRows.Some? ==> 1 <= u.maxRows.value) && 0 <= after
      ensures !ok ==> rows == old(rows)
      ensures ok ==> if stats.highWater.Some? then IsHighWater(old(rows), stats.highWater.value)
                     else forall id :: id in old(rows) ==> !old(rows)[id].active
      ensures ok ==> ValidIds(old(rows), visited) && visited == Visited(old(rows), after, LimitOf(u.maxRows))
      ensures ok ==> Progress(u, rows, stats, old(rows), visited)
      ensures ok && u.execute && u.gone == {} && u.failing == {} ==> stats.updated == stats.wouldUpdate
    {
      stats, visited := NO_STATS, [];
      if !GoodOptions(u, after) {
        return false, stats, visited;
      }
      ok := true;
      ghost var t := rows;
      ghost var all := Ascending(Behind(t, after));
      AllValid(t, after, all);
      NothingUpdated(t, u, u.gone + u.failing);
      NothingTallied(t, u);
      var highWater := HighWater();
      stats := stats.(highWater := highWater);
      if highWater.None? || highWater.value <= after {
        assert Behind(t, after) == {};
        return;
      }
      stats, visited := RunBatches(u, after, highWater.value, stats, t, all);
    }

    method RunBatches(u: Setup, after: int, high: int, start: Stats, ghost t: Table, ghost all: seq<int>)
      returns (stats: Stats, ghost visited: seq<int>)
      requires GoodOptions(u, after) && high > after
      requires all == Ascending(Behind(t, after)) && ValidIds(t, all)
      requires forall id :: id in t && t[id].active ==> id <= high
      requires Progress(u, rows, start, t, [])
      modifies this
      ensures ValidIds(t, visited) && visited == First(all, LimitOf(u.maxRows))
      ensures Progress(u, rows, stats, t, visited) && stats.highWater == start.highWater
    {
      stats := start;
      var at := Position(after, u.maxRows);
      ghost var p := Place(at, [], all);
      var more := true;
      assert p.visited + p.rest == all;
      while more && at.cursor < high && (at.remaining.None? || at.remaining.value > 0)
        invariant Round(t, all, u.maxRows, p) && p.at == at
        invariant Progress(u, rows, stats, t, p.visited) && stats.highWater == start.highWater
        invariant !more ==> p.rest == []
        decreases more, |p.rest|
      {
        stats, more, at, p := NextRound(u, at, high, stats, t, all, p);
      }
      if at.cursor >= high { NothingAbove(t, at.cursor, high, p.rest); }
      Finished(p.visited, p.rest, all, u.maxRows);
      visited := p.visited;
    }

    /** The body of the loop. */
    method NextRound(u: Setup, at: Position, high: int, s: Stats, ghost t: Table, ghost all: seq<int>, ghost p: Place)
      returns (r: Stats, more: bool, moved: Position, ghost next: Place)
      requires u.batchSize > 0 && StrictlyAscending(all) && (at.remaining.Some? ==> at.remaining.value > 0)
      requires forall id :: id in t && t[id].active ==> id <= high
      requires Round(t, all, u.maxRows, p) && p.at == at
      requires Progress(u, rows, s, t, p.visited)
      modifies this
      ensures Round(t, all, u.maxRows, next) && next.at == moved
      ensures Progress(u, rows, r, t, next.visited) && r.highWater == s.highWater
      ensures if more then |next.rest| < |p.rest| else next.rest == []
    {
      var limit :=
        if at.remaining.None? || u.batchSize <= at.remaining.value then u.batchSize else at.remaining.value;
      var batch;
      r, batch := RunBatch(u, limit, at.cursor, high, s, t, p);
      NextRoundHolds(t, all, u.maxRows, p, limit, batch);
      next, moved := AfterBatch(p, batch), Advance(at, batch);
      more := batch != [];
    }
  }
}
