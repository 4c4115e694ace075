/**
 * Concrete runs of one file, one record and one job that meet the two conditions under which the
 * services fall short: a claim's second transaction that comes late, and a Reset whose storage fails.
 */
module AstroCounterexamples {
  import opened Options
  import Jobs = PlateSolveJobs
  import opened ChangeFeed
  import opened ObservationRecords
  import opened AssetSafety
  import opened AstroRuns
  import opened AstroStore
  import opened StatusAgreement
  import opened ResetContract
  import Session = AstroSession

  const PHOTO := FileRow(false, Some("original.jpg"), Some("preview.jpg"), None)
  const UPLOADED := Db(map[], [], map[], map[1 := PHOTO], {Link(1, AstroJournal)}, map[], map[], {}, {})
  const PAYLOAD := NewRecord(None, 1, None, false, 0, true)
  const QUEUED := Jobs.NewJob(1, Some(10), 0)

  function OneRecord(status: SolveStatus, revision: nat, job: Jobs.Job, events: seq<Event>): Db {
    UPLOADED.(records := map[10 := Record(1, None, None, false, status, 0, false, revision)],
              events := events, jobs := map[100 := job])
  }

  const CREATED := OneRecord(Mirrored(Jobs.Waiting), 1, QUEUED, [RecordEvent(10, Operation.Create, 1)])

  lemma Uploading()
    ensures Enabled(EMPTY, Upload(1, AstroJournal, PHOTO)) && After(EMPTY, Upload(1, AstroJournal, PHOTO)) == UPLOADED
  {}

  lemma Creating()
    ensures
      var c := CreateRecord(10, PAYLOAD, [], 100, 0);
      Enabled(UPLOADED, c) && After(UPLOADED, c) == CREATED
  {
    var c := CreateRecord(10, PAYLOAD, [], 100, 0);
    Session.CreateCommits(UPLOADED, c);
    assert Jobs.Apply(map[], Jobs.Enqueue(100, 1, Some(10), 0)) == map[100 := QUEUED];
    StatusOfOnly(map[100 := QUEUED], 100);
    assert UPLOADED.links + {Link(1, AstroJournal)} == UPLOADED.links;
    assert DemoteAll(map[], {}) == map[];
  }

  lemma Claiming(status: SolveStatus, revision: nat, job: Jobs.Job, events: seq<Event>, worker: WorkerId, now: int,
                 until: int)
    requires Jobs.Claimable(job, now)
    ensures
      var db, c := OneRecord(status, revision, job, events), ClaimJob(100, worker, now, until);
      Enabled(db, c) && After(db, c) == OneRecord(status, revision, Jobs.ClaimedRow(job, worker, until), events)
  {
    var db, c := OneRecord(status, revision, job, events), ClaimJob(100, worker, now, until);
    Session.DerivedRowsStay(db, c);
    assert events + [] == events;
  }

  /** The mirrored status is written, with one revision and one event. */
  function Mirroring(db: Db, status: SolveStatus, job: Jobs.Job): Db
    requires 10 in db.records
  {
    OneRecord(status, db.records[10].revision + 1, job,
              db.events + [RecordEvent(10, Operation.Update, db.records[10].revision + 1)])
  }

  /** The one record changes its status, whatever happens to the job. */
  lemma OneMirrored(status: SolveStatus, revision: nat, job: Jobs.Job, events: seq<Event>, op: Jobs.JobOp,
                    after: Jobs.Job, mirrored: SolveStatus)
    requires job.fileId == 1 && status != mirrored && Jobs.Apply(map[100 := job], op) == map[100 := after]
    ensures
      var db := OneRecord(status, revision, job, events);
      && OutOfStep(db.records, 1, mirrored) == {10} && Lists([10], {10})
      && Session.MirroredDb(db, [10], op, 1, mirrored) == Mirroring(db, mirrored, after)
  {
    var db := OneRecord(status, revision, job, events);
    assert OutOfStep(db.records, 1, mirrored) == {10};
    OneUpdate(StatusAll(db.records, {10}, mirrored));
  }

  lemma OneUpdate(records: Records)
    requires 10 in records
    ensures Updates([10], records) == [RecordEvent(10, Operation.Update, records[10].revision)]
  {
    assert [10][..0] == [];
    assert Updates([], records) == [];
  }

  lemma Syncing(status: SolveStatus, revision: nat, job: Jobs.Job, events: seq<Event>)
    requires job.fileId == 1 && status != Mirrored(Jobs.Processing)
    ensures
      var db, c := OneRecord(status, revision, job, events), SyncClaim(100, [10]);
      Enabled(db, c) && After(db, c) == Mirroring(db, Mirrored(Jobs.Processing), job)
  {
    var db, c := OneRecord(status, revision, job, events), SyncClaim(100, [10]);
    OneMirrored(status, revision, job, events, Jobs.Skip, job, Mirrored(Jobs.Processing));
    Session.SyncCommits(db, c);
  }

  lemma Completing(status: SolveStatus, revision: nat, job: Jobs.Job, events: seq<Event>, worker: WorkerId)
    requires job.fileId == 1 && Jobs.Owns(job, worker) && status != Mirrored(Jobs.Completed)
    ensures
      var db, outcome := OneRecord(status, revision, job, events), Jobs.Complete(Some(7), Some(8), None);
      var c := ReleaseJob(100, worker, outcome, [10]);
      && Enabled(db, c)
      && After(db, c) == Mirroring(db, Mirrored(Jobs.Completed), Jobs.ReleasedRow(job, outcome))
  {
    var db, outcome := OneRecord(status, revision, job, events), Jobs.Complete(Some(7), Some(8), None);
    var c := ReleaseJob(100, worker, outcome, [10]);
    var op := Jobs.JobOp.Release(100, worker, outcome);
    OneMirrored(status, revision, job, events, op, Jobs.ReleasedRow(job, outcome), Mirrored(Jobs.Completed));
    Session.ReleaseCommits(db, c);
  }

  lemma Extend(states: seq<Db>, calls: seq<Call>, c: Call, db: Db)
    requires Run(states, calls) && Enabled(states[|calls|], c) && After(states[|calls|], c) == db
    ensures Run(states + [db], calls + [c])
  {
    var states', calls' := states + [db], calls + [c];
    forall i | 0 <= i < |calls'|
      ensures Enabled(states'[i], calls'[i]) && states'[i + 1] == After(states'[i], calls'[i])
    {
      assert i < |calls| ==> states'[i] == states[i] && states'[i + 1] == states[i + 1] && calls'[i] == calls[i];
    }
  }

  lemma Created() returns (states: seq<Db>, calls: seq<Call>)
    ensures Run(states, calls) && |calls| == 2 && states[2] == CREATED
  {
    Uploading();
    Extend([EMPTY], [], Upload(1, AstroJournal, PHOTO), UPLOADED);
    Creating();
    Extend([EMPTY] + [UPLOADED], [] + [Upload(1, AstroJournal, PHOTO)], CreateRecord(10, PAYLOAD, [], 100, 0), CREATED);
    states := [EMPTY] + [UPLOADED] + [CREATED];
    calls := [] + [Upload(1, AstroJournal, PHOTO)] + [CreateRecord(10, PAYLOAD, [], 100, 0)];
  }

  const FIRST := Jobs.ClaimedRow(QUEUED, 1, 10)
  const SECOND := Jobs.ClaimedRow(FIRST, 2, 20)
  const DONE := Jobs.ReleasedRow(SECOND, Jobs.Complete(Some(7), Some(8), None))
  const CLAIMED := OneRecord(Mirrored(Jobs.Waiting), 1, SECOND, CREATED.events)
  const SETTLED := Mirroring(CLAIMED, Mirrored(Jobs.Processing), SECOND)
  const COMPLETED := Mirroring(SETTLED, Mirrored(Jobs.Completed), DONE)

  lemma ClaimedTwice() returns (states: seq<Db>, calls: seq<Call>)
    ensures Run(states, calls) && |calls| == 4 && states[4] == CLAIMED
  {
    states, calls := Created();
    Claiming(Mirrored(Jobs.Waiting), 1, QUEUED, CREATED.events, 1, 1, 10);
    Extend(states, calls, ClaimJob(100, 1, 1, 10), OneRecord(Mirrored(Jobs.Waiting), 1, FIRST, CREATED.events));
    states := states + [OneRecord(Mirrored(Jobs.Waiting), 1, FIRST, CREATED.events)];
    calls := calls + [ClaimJob(100, 1, 1, 10)];
    Claiming(Mirrored(Jobs.Waiting), 1, FIRST, CREATED.events, 2, 11, 20);
    Extend(states, calls, ClaimJob(100, 2, 11, 20), CLAIMED);
    states := states + [CLAIMED];
    calls := calls + [ClaimJob(100, 2, 11, 20)];
  }

  lemma CompletedBySecond() returns (states: seq<Db>, calls: seq<Call>)
    ensures Run(states, calls) && |calls| == 6 && states[6] == COMPLETED
  {
    states, calls := ClaimedTwice();
    var release := ReleaseJob(100, 2, Jobs.Complete(Some(7), Some(8), None), [10]);
    Syncing(Mirrored(Jobs.Waiting), 1, SECOND, CREATED.events);
    Extend(states, calls, SyncClaim(100, [10]), SETTLED);
    states := states + [SETTLED];
    calls := calls + [SyncClaim(100, [10])];
    Completing(Mirrored(Jobs.Processing), 2, SECOND, SETTLED.events, 2);
    Extend(states, calls, release, COMPLETED);
    states := states + [COMPLETED];
    calls := calls + [release];
  }

  /**
   * Worker 1 claims and is slow; its lease ends, worker 2 claims and completes; then worker 1 commits
   * the second transaction of its claim, and the record of a completed job says PROCESSING.
   */
  lemma LateSyncHappens() returns (states: seq<Db>, calls: seq<Call>)
    ensures Run(states, calls) && |calls| == 7
    ensures LateSync(states[6], calls[6]) && Agreement(states[6]) && !Agreement(states[7])
    ensures 100 in states[7].jobs && states[7].jobs[100].status.Completed?
    ensures 10 in states[7].records && states[7].records[10].solveStatus == Mirrored(Jobs.Processing)
  {
    states, calls := CompletedBySecond();
    Syncing(Mirrored(Jobs.Completed), 3, DONE, COMPLETED.events);
    var late := Mirroring(COMPLETED, Mirrored(Jobs.Processing), DONE);
    Extend(states, calls, SyncClaim(100, [10]), late);
    states := states + [late];
    calls := calls + [SyncClaim(100, [10])];
    assert !Shows(late.records[10], late.jobs[100]);
    assert COMPLETED.records[10].fileId == COMPLETED.jobs[100].fileId;
  }

  /** A storage that deletes the original and then fails at the preview; both paths are stored. */
  const FAILING := Reset(map[], map[1 := Assets(Deleted, Unsuccessful, AlreadyAbsent)])

  lemma OnlyThePhoto()
    ensures AstroOnly(CREATED) == {1} && AstroUploads(CREATED) == {} && !ResetBlocked(CREATED)
    ensures Referenced(CREATED.records, 1)
  {
    assert Linked(CREATED, 1, AstroJournal);
    assert CREATED.records[10].fileId == 1;
  }

  lemma FailingReset()
    ensures Enabled(CREATED, FAILING) && After(CREATED, FAILING) == CREATED
    ensures HonestReset(CREATED, FAILING) && Strands(CREATED, FAILING, 1)
  {
    OnlyThePhoto();
    assert !ResetSucceeds(CREATED, FAILING);
    FailureChangesNothing(CREATED, FAILING);
  }

  /**
   * A Reset whose storage fails after it deleted an original rolls back, and an active record is left on
   * a file whose original is gone.
   */
  lemma FailedResetStrands() returns (states: seq<Db>, calls: seq<Call>)
    ensures Run(states, calls) && |calls| == 3 && calls[2] == FAILING
    ensures Strands(states[2], calls[2], 1) && states[3] == states[2]
    ensures HonestReset(states[2], calls[2])
  {
    states, calls := Created();
    FailingReset();
    Extend(states, calls, FAILING, CREATED);
    states := states + [CREATED];
    calls := calls + [FAILING];
  }
}
