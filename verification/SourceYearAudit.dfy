/**
 * The source-year audit: every scanned file gets one row, classified by the year of its path and by
 * the row MemoryKeeper has for its digest. The module says exactly on which audits the planner and
 * the plan loader succeed.
 */
module SourceYearAudit {
  import opened Options
  import opened Ordering
  import opened CaptureDates
  import opened SourceYearPlan
  import opened Reconciliation

  /** A scanned file: the year of its path, and its digest unless hashing failed. */
  datatype Source = Source(pathYear: Option<int>, digest: Option<Sha>)

  type Records = map<Sha, Snapshot>

  const UNKNOWN := Snapshot(None, None, None, None, None, None, None)

  predicate Hashed(s: Source) {
    s.pathYear.Some? && s.digest.Some?
  }

  /** Two scanned files with this digest lie under different years. */
  predicate SeveralYears(sources: seq<Source>, digest: Sha) {
    exists i, j :: 0 <= i < |sources| && 0 <= j < |sources| && Hashed(sources[i]) && Hashed(sources[j])
      && sources[i].digest == sources[j].digest == Some(digest) && sources[i].pathYear != sources[j].pathYear
  }

  function StatusOf(s: Source, ambiguous: bool, records: Records): AuditStatus
    requires Hashed(s)
  {
    if ambiguous then AmbiguousSourceYear
    else if s.digest.value !in records then NotInMemoryKeeper
    else if records[s.digest.value].year.None? then MissingEffectiveYear
    else if records[s.digest.value].year == s.pathYear then Match else YearMismatch
  }

  function RowOf(s: Source, ambiguous: bool, records: Records): AuditRow {
    if s.pathYear.None? then AuditRow(NoPathYear, None, UNKNOWN, None)
    else if s.digest.None? then AuditRow(HashError, s.pathYear, UNKNOWN, None)
    else
      AuditRow(StatusOf(s, ambiguous, records), s.pathYear,
               if s.digest.value in records then records[s.digest.value] else UNKNOWN, s.digest)
  }

  /** The audit rows, in scan order. */
  function Audit(sources: seq<Source>, records: Records): (rows: seq<AuditRow>)
    ensures |rows| == |sources|
  {
    seq(|sources|, i requires 0 <= i < |sources| =>
      RowOf(sources[i], Hashed(sources[i]) && SeveralYears(sources, sources[i].digest.value), records))
  }

  /** What the audit says of one scanned file, by the year of its path, its digest and its record. */
  lemma AuditedRow(sources: seq<Source>, records: Records, i: nat)
    requires i < |sources|
    ensures
      var s, row := sources[i], Audit(sources, records)[i];
      var hashed := s.pathYear.Some? && s.digest.Some?;
      var disputed := hashed && exists j :: && 0 <= j < |sources| && sources[j].digest == s.digest
                                            && sources[j].pathYear.Some? && sources[j].pathYear != s.pathYear;
      var known := hashed && s.digest.value in records;
      && row.sourceYear == s.pathYear && row.sha == (if hashed then s.digest else None)
      && row.snapshot == (if known then records[s.digest.value]
                          else Snapshot(None, None, None, None, None, None, None))
      && (row.status == NoPathYear <==> s.pathYear == None)
      && (row.status == HashError <==> s.pathYear.Some? && s.digest == None)
      && (row.status == AmbiguousSourceYear <==> disputed)
      && (row.status == NotInMemoryKeeper <==> hashed && !disputed && !known)
      && (row.status == MissingEffectiveYear <==> known && !disputed && row.snapshot.year == None)
      && (row.status == Match <==> known && !disputed && row.snapshot.year.Some? && row.snapshot.year == s.pathYear)
      && (row.status == YearMismatch <==>
            known && !disputed && row.snapshot.year.Some? && row.snapshot.year != s.pathYear)
  {
    if Hashed(sources[i]) {
      DisputedYears(sources, i);
    }
  }

  lemma DisputedYears(sources: seq<Source>, i: nat)
    requires i < |sources| && Hashed(sources[i])
    ensures SeveralYears(sources, sources[i].digest.value) <==>
            exists j :: && 0 <= j < |sources| && sources[j].digest == sources[i].digest
                        && sources[j].pathYear.Some? && sources[j].pathYear != sources[i].pathYear
  {
    if SeveralYears(sources, sources[i].digest.value) {
      var k, j :| 0 <= k < |sources| && 0 <= j < |sources| && Hashed(sources[k]) && Hashed(sources[j])
        && sources[k].digest == sources[j].digest == sources[i].digest && sources[k].pathYear != sources[j].pathYear;
      assert sources[k].pathYear != sources[i].pathYear || sources[j].pathYear != sources[i].pathYear;
    }
  }

  // ------------------------------------------------------------- totality

  /** A record the planner can classify: an exact date whose basis it knows. */
  predicate Coherent(s: Snapshot) {
    && s.year.Some? && s.day.Some? && s.when.Some? && s.revision.Some?
    && (s.basis == Some(EXIF) || s.basis == Some(IMPORTED) || s.basis == Some(CREATED)
        || (s.basis == Some(USER) && s.user.Some? && YearOf(s.user) == s.year))
  }

  /** A digest whose plan row is decided by its record. */
  predicate Decided(sources: seq<Source>, records: Records, i: nat)
    requires i < |sources|
  {
    && Hashed(sources[i]) && !SeveralYears(sources, sources[i].digest.value)
    && sources[i].digest.value in records && records[sources[i].digest.value].year.Some?
  }

  /** The loader of the audit rows refuses a path year outside 1..9999. */
  ghost predicate PlannerSucceeds(rows: seq<AuditRow>) {
    (forall r :: r in rows ==> ValidSourceYear(r.sourceYear)) && Accepted(rows)
  }

  lemma AuditGroup(sources: seq<Source>, records: Records, i: nat, r: AuditRow)
    requires i < |sources| && Hashed(sources[i]) && r in Audit(sources, records) && r.sha == sources[i].digest
    ensures r.snapshot == if r.sha.value in records then records[r.sha.value] else UNKNOWN
    ensures r.sourceYear.Some? && (r.status.AmbiguousSourceYear? <==> SeveralYears(sources, r.sha.value))
    ensures !SeveralYears(sources, r.sha.value) ==> r == Audit(sources, records)[i]
  {
    var j :| 0 <= j < |sources| && Audit(sources, records)[j] == r;
    assert Hashed(sources[j]) && sources[j].digest == sources[i].digest;
    assert sources[j].pathYear != sources[i].pathYear ==> SeveralYears(sources, r.sha.value);
  }

  /** What the planner makes of one digest of an audit. */
  lemma AuditVerdict(sources: seq<Source>, records: Records, i: nat)
    requires i < |sources| && Hashed(sources[i])
    ensures sources[i].digest.value in Shas(Audit(sources, records))
    ensures
      var row := Audit(sources, records)[i];
      var verdict := GroupVerdict(Audit(sources, records), sources[i].digest.value);
      var paths := |Group(Audit(sources, records), sources[i].digest.value)|;
      verdict ==
        if SeveralYears(sources, row.sha.value) then
          Some(Planned(row.(sourceYear := None), Exclude, OtherReason(StatusText(AmbiguousSourceYear)), false, paths))
        else if !Decided(sources, records, i)
          then Some(Planned(row, Exclude, OtherReason(StatusText(row.status)), false, paths))
        else if !Eligible(row) then None
        else Classify(row, paths)
  {
    var rows, sha := Audit(sources, records), sources[i].digest.value;
    var row := rows[i];
    assert row in rows && row.sha == Some(sha);
    GroupIsTheRest(rows, sha);
    var g := Group(rows, sha);
    forall r | r in Members(g)
      ensures r.snapshot == row.snapshot && r.sourceYear.Some?
      ensures (r.status.AmbiguousSourceYear? <==> SeveralYears(sources, sha))
      ensures !SeveralYears(sources, sha) ==> r == row
    {
      AuditGroup(sources, records, i, r);
      AuditGroup(sources, records, i, row);
    }
    assert row in Members(g) && g[0] in Members(g);
    AnyRowComesFirst(Members(g), g[0], row, |g|);
  }

  /** A decided digest is planned exactly when its record is coherent. */
  lemma DecidedVerdict(sources: seq<Source>, records: Records, i: nat)
    requires i < |sources| && Decided(sources, records, i)
    ensures sources[i].digest.value in Shas(Audit(sources, records))
    ensures GroupVerdict(Audit(sources, records), sources[i].digest.value).Some? <==>
              Coherent(records[sources[i].digest.value])
  {
    AuditVerdict(sources, records, i);
  }

  lemma EveryDigestWasScanned(sources: seq<Source>, records: Records, sha: Sha) returns (i: nat)
    requires sha in Shas(Audit(sources, records))
    ensures i < |sources| && Hashed(sources[i]) && sources[i].digest == Some(sha)
    ensures Decided(sources, records, i) || GroupVerdict(Audit(sources, records), sha).Some?
  {
    var r :| r in Audit(sources, records) && r.sha == Some(sha);
    i :| 0 <= i < |sources| && Audit(sources, records)[i] == r;
    AuditVerdict(sources, records, i);
  }

  lemma AcceptedAudits(sources: seq<Source>, records: Records)
    ensures Accepted(Audit(sources, records)) <==>
              forall i :: 0 <= i < |sources| && Decided(sources, records, i) ==>
                Coherent(records[sources[i].digest.value])
  {
    var rows := Audit(sources, records);
    forall i | 0 <= i < |sources| && Decided(sources, records, i)
      ensures sources[i].digest.value in Shas(rows)
      ensures GroupVerdict(rows, sources[i].digest.value).Some? <==> Coherent(records[sources[i].digest.value])
    {
      DecidedVerdict(sources, records, i);
    }
    if forall i :: 0 <= i < |sources| && Decided(sources, records, i) ==> Coherent(records[sources[i].digest.value]) {
      forall sha | sha in Shas(rows) ensures GroupVerdict(rows, sha).Some? {
        var i := EveryDigestWasScanned(sources, records, sha);
      }
    }
  }

  /**
   * The planner succeeds on an audit exactly when no path lies under year 0000 and every record that
   * decides a row is coherent.
   */
  lemma PlannerIsTotal(sources: seq<Source>, records: Records)
    requires forall i :: 0 <= i < |sources| && sources[i].pathYear.Some? ==> 0 <= sources[i].pathYear.value <= 9999
    ensures PlannerSucceeds(Audit(sources, records)) <==>
              && (forall i :: 0 <= i < |sources| ==> sources[i].pathYear != Some(0))
              && (forall i :: 0 <= i < |sources| && Decided(sources, records, i) ==>
                  Coherent(records[sources[i].digest.value]))
  {
    var rows := Audit(sources, records);
    AcceptedAudits(sources, records);
    forall i | 0 <= i < |sources|
      ensures rows[i] in rows && (ValidSourceYear(rows[i].sourceYear) <==> sources[i].pathYear != Some(0))
    {}
  }

  /** A record that an earlier reconciliation reduced to its year. */
  const REDUCED := Snapshot(Some(SOURCE_YEAR), Some(2020), None, None, None, None, Some(1))

  /** One path under the year 0000, or one record that is reduced to its year, and there is no plan. */
  lemma PlannerFailsOn(sha: Sha)
    ensures !PlannerSucceeds(Audit([Source(Some(0), Some(sha))], map[]))
    ensures !PlannerSucceeds(Audit([Source(Some(2020), Some(sha))], map[sha := REDUCED]))
  {
    var zero := [Source(Some(0), Some(sha))];
    PlannerIsTotal(zero, map[]);
    assert zero[0].pathYear == Some(0);
    var sources, records := [Source(Some(2020), Some(sha))], map[sha := REDUCED];
    PlannerIsTotal(sources, records);
    assert Decided(sources, records, 0) && !Coherent(REDUCED);
  }

  // --------------------------------------------------------------- loading

  function ExpectedBasis(p: PlanRow): Option<string> {
    match p.reason
    case ExifSourceYearMatch => Some(EXIF)
    case UserExact => Some(USER)
    case ExifYearConflict => Some(EXIF)
    case ImportedFallback => Some(IMPORTED)
    case CreatedFallback => Some(CREATED)
    case OtherReason(_) => None
  }

  /** The loader's checks of one row, on its parsed values. */
  predicate LoaderAccepts(p: PlanRow) {
    if p.action.Exclude? then !p.userConflict
    else
      && Actionable(p) && (p.userConflict ==> p.action.KeepExactUser?)
      && p.snapshot.basis == ExpectedBasis(p)
      && p.snapshot.revision.Some? && p.snapshot.revision.value >= 0 && p.paths >= 1
      && p.snapshot.year.Some? && p.snapshot.day.Some? && p.snapshot.when.Some?
      && p.snapshot.day == DayOf(p.snapshot.when) && p.snapshot.year == YearOf(p.snapshot.when)
      && (p.action.KeepExactExif? ==> p.snapshot.year == p.sourceYear)
      && (p.reason.ExifYearConflict? ==> p.snapshot.year != p.sourceYear)
      && (p.action.KeepExactUser? ==>
            && p.snapshot.user.Some? && p.snapshot.userPrecision.Some? && p.snapshot.user == p.snapshot.when
            && (p.userConflict <==> YearOf(p.snapshot.user) != p.sourceYear))
  }

  /** Day and year are those of the date and time, and a user's date is the effective one. */
  predicate Exact(s: Snapshot) {
    && s.day == DayOf(s.when) && s.year == YearOf(s.when) && (s.revision.Some? ==> s.revision.value >= 0)
    && (s.basis == Some(USER) ==> s.user == s.when && s.userPrecision.Some?)
  }

  lemma ClassifiedRowLoads(r: AuditRow, paths: int)
    requires r.sha.Some? && r.sourceYear.Some? && ValidSourceYear(r.sourceYear) && Eligible(r) && paths >= 1
    requires r.status.Match? || r.status.YearMismatch?
    requires Classify(r, paths).Some?
    ensures !Classify(r, paths).value.action.Exclude? && Classify(r, paths).value.snapshot == r.snapshot
    ensures LoaderAccepts(Classify(r, paths).value) <==> Exact(r.snapshot)
  {}

  /** The loader accepts a planned row exactly when it is excluded or its record is exact. */
  lemma VerdictLoads(rows: seq<AuditRow>, sha: Sha)
    requires PlannerSucceeds(rows) && sha in Shas(rows)
    ensures
      var p := GroupVerdict(rows, sha).value;
      && (p.action.Exclude? || exists r :: r in rows && r.sha == Some(sha) && r.snapshot == p.snapshot)
      && (LoaderAccepts(p) <==> p.action.Exclude? || Exact(p.snapshot))
  {
    GroupIsTheRest(rows, sha);
    var g := Group(rows, sha);
    assert g[0] in g && g[0] in rows;
    if g[0].sourceYear.Some? && (g[0].status.Match? || g[0].status.YearMismatch?) && Eligible(g[0]) {
      if Classify(g[0], |g|).Some? { ClassifiedRowLoads(g[0], |g|); }
    }
  }

  /** What the planner prints, the loader takes: one actionable row per digest. */
  lemma PlansLoad(rows: seq<AuditRow>)
    requires PlannerSucceeds(rows)
    ensures (forall p :: p in PlanRows(rows) ==> LoaderAccepts(p)) <==>
            (forall p :: p in PlanRows(rows) && !p.action.Exclude? ==> Exact(p.snapshot))
    ensures (forall p :: p in PlanRows(rows) ==> LoaderAccepts(p)) ==> Loaded(PlanRows(rows))
  {
    PlanShape(rows);
    forall p | p in PlanRows(rows) ensures LoaderAccepts(p) <==> p.action.Exclude? || Exact(p.snapshot) {
      assert p in multiset(PlanRows(rows));
      assert p in HashedRows(rows) || p in Exclusions(rows);
      if p in HashedRows(rows) {
        var i :| 0 <= i < |HashedRows(rows)| && HashedRows(rows)[i] == p;
        assert Ascending(Shas(rows))[i] in Ascending(Shas(rows));
        VerdictLoads(rows, Ascending(Shas(rows))[i]);
      }
    }
    PlanDigestsDiffer(rows);
  }

  /** The loader's check for duplicate digests cannot fire on a plan. */
  lemma PlanDigestsDiffer(rows: seq<AuditRow>)
    requires Accepted(rows)
    ensures forall i, j :: 0 <= i < j < |PlanRows(rows)| && PlanRows(rows)[i].sha.Some? ==>
              PlanRows(rows)[i].sha != PlanRows(rows)[j].sha
  {
    PlanShape(rows);
    var hashed, rest := HashedRows(rows), Sorted(Exclusions(rows));
    SortedIsAPermutation(Exclusions(rows));
    UnhashedLack(rows);
    forall p | p in rest ensures p.sha.None? {
      assert p in multiset(rest);
      var j :| 0 <= j < |Exclusions(rows)| && Exclusions(rows)[j] == p;
      assert Unhashed(rows)[j] in Unhashed(rows);
    }
    forall i, j | 0 <= i < j < |hashed| ensures hashed[i].sha != hashed[j].sha {
      HashedRow(rows, i);
      HashedRow(rows, j);
    }
  }

  // ----------------------------------------------------- after reconciling

  function SnapshotOf(s: FileState): Snapshot {
    Snapshot(s.basis, s.year, s.day, s.when, s.user, s.userPrecision, Some(RevisionOf(s)))
  }

  /** A state the projection wrote without a source year is coherent and exact as soon as it has a date. */
  lemma ProjectedStatesPlan(s: FileState, original: Option<DateTime>, imported: Option<DateTime>,
                            created: Option<DateTime>)
    requires s.user.Some? ==> s.userPrecision.Some?
    ensures
      var snapshot :=
        SnapshotOf(Synchronized(s, Calculate(s.user, s.userPrecision, original, imported, created, None)));
      Exact(snapshot) && (snapshot.year.Some? ==> Coherent(snapshot))
  {}

  /** A row reduced to its year is not coherent any more: an audit that decides by it cannot be planned again. */
  lemma ReducedRowsCannotBePlanned(db: Db, p: PlanRow)
    requires Ready(db, p)
    ensures Coherent(SnapshotOf(AppliedState(db, p))) <==> p.action.KeepExactExif?
  {}
}
