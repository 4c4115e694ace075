/**
 * What each verification status says about the columns of the file, its link, its state row and its
 * plan row, and what applying a row writes.
 */
module ReconciliationVerdicts {
  import opened Options
  import opened CaptureDates
  import opened SourceYearPlan
  import opened Reconciliation

  /** The digest names an undeleted file with a MemoryKeeper link and the state row `s`. */
  ghost predicate LiveRow(db: Db, p: PlanRow, s: FileState) {
    && p.sha.Some? && p.sha.value in db.files && !db.files[p.sha.value].deleted
    && db.files[p.sha.value].id in db.links
    && db.files[p.sha.value].id in db.states && db.states[db.files[p.sha.value].id] == s
  }

  /** Neither a user's date nor a source year has been stored. */
  ghost predicate Undecided(s: FileState) {
    s.user == None && s.basis != Some("USER") && s.sourceYear == None && s.sourceBasis == None
  }

  /** The state row is the one that was planned for: the same revision and the same six columns. */
  ghost predicate AsPlanned(p: PlanRow, s: FileState) {
    && p.snapshot.revision == Some(if s.revision.Some? then s.revision.value else 0)
    && s.basis == p.snapshot.basis && s.year == p.snapshot.year && s.day == p.snapshot.day
    && s.when == p.snapshot.when && s.user == p.snapshot.user && s.userPrecision == p.snapshot.userPrecision
  }

  /** The file's EXIF date, if it lies in the planned year. */
  ghost function ExactDate(db: Db, p: PlanRow): Option<DateTime>
    requires p.sha.Some? && p.sha.value in db.files
  {
    var id := db.files[p.sha.value].id;
    if id in db.metadata && db.metadata[id].Some? && Some(db.metadata[id].value.date.year) == p.sourceYear
    then db.metadata[id] else None
  }

  /** The plan row may be written: its exact date is the file's, or the file has no exact date. */
  ghost predicate DatesAgree(db: Db, p: PlanRow)
    requires p.sha.Some? && p.sha.value in db.files
  {
    || (p.action == KeepExactExif && ExactDate(db, p).Some? && p.snapshot.when == ExactDate(db, p))
    || (p.action == SetYearOnly && ExactDate(db, p) == None)
  }

  /** The effective date is the exact one with its day, or the planned year alone. */
  ghost predicate ShowsPlannedYear(db: Db, p: PlanRow, s: FileState)
    requires p.sha.Some? && p.sha.value in db.files
  {
    var exact := ExactDate(db, p);
    && s.when == exact && s.year == p.sourceYear
    && s.day == (if exact.Some? then Some(exact.value.date) else None)
    && s.precision == Some(if exact.Some? then "DATETIME" else "YEAR")
    && s.basis == Some(if exact.Some? then "EXIF" else "SOURCE_YEAR")
  }

  /** The planned source year is stored already. */
  ghost predicate HasPlannedSource(p: PlanRow, s: FileState) {
    s.sourceYear == p.sourceYear && s.sourceBasis == Some("ORIGINAL_PATH")
  }

  /** A user's date takes precedence over everything but a missing file, link or state row. */
  ghost predicate UserDecided(s: FileState) {
    s.user.Some? || s.basis == Some("USER")
  }

  lemma NothingToVerify(db: Db, p: PlanRow)
    requires Actionable(p)
    ensures Verify(db, p).MissingFile? <==> p.sha.value in db.files ==> db.files[p.sha.value].deleted
    ensures Verify(db, p).MissingLink? <==>
              p.sha.value in db.files && !db.files[p.sha.value].deleted && db.files[p.sha.value].id !in db.links
    ensures Verify(db, p).MissingState? <==>
              && p.sha.value in db.files && !db.files[p.sha.value].deleted
              && db.files[p.sha.value].id in db.links && db.files[p.sha.value].id !in db.states
    ensures !Verify(db, p).PlanExcluded?
  {}

  /** The user's date is kept; whoever chose another year than the plan's is asked to review it. */
  lemma UserDatesAreKept(db: Db, p: PlanRow, s: FileState)
    requires Actionable(p) && LiveRow(db, p, s)
    ensures Verify(db, p).UserConflictReview? <==>
              || (s.user.Some? && s.user.value.date.year != p.sourceYear.value)
              || (Undecided(s) && AsPlanned(p, s) && p.action == KeepExactUser && p.userConflict)
    ensures Verify(db, p).KeepUser? <==>
              || (UserDecided(s) && !(s.user.Some? && s.user.value.date.year != p.sourceYear.value))
              || (Undecided(s) && AsPlanned(p, s) && p.action == KeepExactUser && !p.userConflict)
  {}

  /** Stored provenance is recognised, or it is a conflict; it is never overwritten. */
  lemma StoredSources(db: Db, p: PlanRow, s: FileState)
    requires Actionable(p) && LiveRow(db, p, s) && !UserDecided(s) && !Undecided(s)
    ensures Verify(db, p) == if !HasPlannedSource(p, s) then OtherConflict
                             else if ShowsPlannedYear(db, p, s) then AlreadyApplied
                             else ProjectionConflict
  {}

  /** The optimistic check: another revision is stale, and any other column is a mismatch. */
  lemma StaleRows(db: Db, p: PlanRow, s: FileState)
    requires Actionable(p) && LiveRow(db, p, s) && Undecided(s)
    ensures Verify(db, p).StaleRevision? <==>
              p.snapshot.revision != Some(if s.revision.Some? then s.revision.value else 0)
    ensures Verify(db, p).SnapshotMismatch? <==>
              && p.snapshot.revision == Some(if s.revision.Some? then s.revision.value else 0)
              && !AsPlanned(p, s)
    ensures AsPlanned(p, s) && p.action != KeepExactUser ==>
              (Verify(db, p).ProjectionConflict? <==> !DatesAgree(db, p))
  {}

  /**
   * A row is ready exactly if its file is live, nothing was decided about its date, it is as planned
   * for, and the EXIF date agrees with the plan; the status then names the plan's reason.
   */
  lemma ReadyRowsAre(db: Db, p: PlanRow)
    requires Actionable(p)
    ensures Ready(db, p) <==>
              exists s :: LiveRow(db, p, s) && Undecided(s) && AsPlanned(p, s) && DatesAgree(db, p)
    ensures Ready(db, p) ==>
              && (Verify(db, p).ReadyProvenanceOnlyExif? <==> p.action == KeepExactExif)
              && (Verify(db, p).ReadyYearOnlyExifConflict? <==> p.action == SetYearOnly && p.reason == ExifYearConflict)
              && (Verify(db, p).ReadyYearOnlyImported? <==> p.action == SetYearOnly && p.reason == ImportedFallback)
              && (Verify(db, p).ReadyYearOnlyCreated? <==> p.action == SetYearOnly && p.reason == CreatedFallback)
  {
    if Ready(db, p) {
      var s := db.states[db.files[p.sha.value].id];
      assert LiveRow(db, p, s) && Undecided(s) && AsPlanned(p, s) && DatesAgree(db, p);
    }
  }

  /** A row that does not stand in the way: it is ready, applied, or left to the user. */
  ghost predicate Harmless(db: Db, p: PlanRow, s: FileState) {
    && LiveRow(db, p, s)
    && (|| UserDecided(s)
        || (HasPlannedSource(p, s) && ShowsPlannedYear(db, p, s))
        || (Undecided(s) && AsPlanned(p, s) && (p.action == KeepExactUser || DatesAgree(db, p))))
  }

  /** Every other row blocks the whole plan. */
  lemma BlockingRowsAre(db: Db, plans: seq<PlanRow>)
    ensures Blocked(db, plans) <==>
              exists p :: p in plans && Actionable(p) && forall s :: !Harmless(db, p, s)
  {
    forall p | p in plans && Actionable(p)
      ensures IsBlocking(Verify(db, p)) <==> forall s :: !Harmless(db, p, s)
    {
      BlockingRow(db, p);
    }
  }

  lemma BlockingRow(db: Db, p: PlanRow)
    requires Actionable(p)
    ensures IsBlocking(Verify(db, p)) <==> forall s :: !Harmless(db, p, s)
  {
    if p.sha.value in db.files && db.files[p.sha.value].id in db.states {
      var s := db.states[db.files[p.sha.value].id];
      assert IsBlocking(Verify(db, p)) <==> !Harmless(db, p, s);
    }
  }

  // ------------------------------------------------------------------ apply

  /**
   * A state row was written from the plan: it was undecided and as planned for, and now stores the
   * planned year as its source one revision later, with the user's columns as they were.
   */
  ghost predicate WrittenFrom(db: Db, p: PlanRow, before: FileState, after: FileState) {
    && LiveRow(db, p, before) && Undecided(before) && AsPlanned(p, before) && DatesAgree(db, p)
    && after.sourceYear == p.sourceYear && after.sourceBasis == Some("ORIGINAL_PATH")
    && after.user == None && after.userPrecision == before.userPrecision
    && ShowsPlannedYear(db, p, after)
    && after.revision == Some(1 + if before.revision.Some? then before.revision.value else 0)
  }

  /** One row is written, with two history rows and one change event of the new revision. */
  lemma ApplyWrites(db: Db, p: PlanRow)
    requires Ready(db, p)
    ensures
      var id, after := db.files[p.sha.value].id, ApplyRow(db, p);
      && after == db.(states := db.states[id := after.states[id]],
                      history := db.history + [SourceYearSet(id, None, p.sourceYear),
                                               SourceBasisSet(id, None, Some("ORIGINAL_PATH"))],
                      events := db.events + [CaptureDateUpdated(p.sha.value, after.states[id].revision.value)])
      && WrittenFrom(db, p, db.states[id], after.states[id])
  {
    var id := db.files[p.sha.value].id;
    assert LiveRow(db, p, db.states[id]) && Undecided(db.states[id]);
    assert ShowsPlannedYear(db, p, ApplyRow(db, p).states[id]);
  }

  /** Every state row that has changed since `start` was written from a plan row, once. */
  ghost predicate OnlyPlanned(start: Db, db: Db, plans: seq<PlanRow>) {
    && db.files == start.files && db.links == start.links && db.metadata == start.metadata
    && db.states.Keys == start.states.Keys
    && forall id :: id in start.states && db.states[id] != start.states[id] ==>
         PlannedRow(start, plans, id, db.states[id])
  }

  ghost predicate PlannedRow(start: Db, plans: seq<PlanRow>, id: int, after: FileState)
    requires id in start.states
  {
    exists p :: p in plans && p.sha.Some? && p.sha.value in start.files && start.files[p.sha.value].id == id
                && WrittenFrom(start, p, start.states[id], after)
  }

  lemma PlannedRowHasSource(start: Db, plans: seq<PlanRow>, id: int, after: FileState)
    requires id in start.states && PlannedRow(start, plans, id, after)
    requires forall p :: p in plans ==> p.action.Exclude? || Actionable(p)
    ensures after.sourceYear.Some?
  {}

  /** A row is never written twice, so what it is compared with is what it was at the start. */
  lemma StillOnlyPlanned(start: Db, db: Db, plans: seq<PlanRow>, p: PlanRow)
    requires OnlyPlanned(start, db, plans) && Ready(db, p) && p in plans
    requires forall q :: q in plans ==> q.action.Exclude? || Actionable(q)
    ensures OnlyPlanned(start, ApplyRow(db, p), plans)
  {
    var id := db.files[p.sha.value].id;
    ApplyWrites(db, p);
    if db.states[id] != start.states[id] {
      PlannedRowHasSource(start, plans, id, db.states[id]);
    }
    SameRowWritten(start, db, p, db.states[id], ApplyRow(db, p).states[id]);
    assert PlannedRow(start, plans, id, ApplyRow(db, p).states[id]);
  }

  lemma SameRowWritten(start: Db, db: Db, p: PlanRow, before: FileState, after: FileState)
    requires db.files == start.files && db.links == start.links && db.metadata == start.metadata
    requires WrittenFrom(db, p, before, after)
    requires db.files[p.sha.value].id in start.states && start.states[db.files[p.sha.value].id] == before
    ensures WrittenFrom(start, p, before, after)
  {}
}
