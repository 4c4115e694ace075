/**
 * Runs of AstroJournal calls from an empty database, in any order and with any outcomes, and what
 * holds after every one of them.
 */
module AstroRuns {
  import Jobs = PlateSolveJobs
  import opened ChangeFeed
  import opened ObservationRecords
  import opened AstroStore
  import opened AssetSafety
  import opened AstroInvariants
  import opened StatusAgreement

  const EMPTY := Db(map[], [], map[], map[], {}, map[], map[], {}, {})

  /** `states[i]` is the database before `calls[i]`. */
  ghost predicate Run(states: seq<Db>, calls: seq<Call>) {
    && |states| == |calls| + 1 && states[0] == EMPTY
    && forall i :: 0 <= i < |calls| ==> Enabled(states[i], calls[i]) && states[i + 1] == After(states[i], calls[i])
  }

  ghost predicate StoreInv(db: Db) {
    && FeedInv(db.records, db.events) && OneRepresentative(db.records) && FilesInv(db) && Sound(db)
  }

  lemma {:induction false} EveryStateIsSound(states: seq<Db>, calls: seq<Call>, i: nat)
    requires Run(states, calls) && i < |states|
    ensures StoreInv(states[i])
  {
    if i > 0 {
      EveryStateIsSound(states, calls, i - 1);
      FeedStep(states[i - 1], calls[i - 1]);
      RepresentativeStep(states[i - 1], calls[i - 1]);
      FilesStep(states[i - 1], calls[i - 1]);
      QueueStep(states[i - 1], calls[i - 1]);
    }
  }

  /**
   * A client that pages through the feed while calls keep committing ends with exactly the table's
   * revisions and tombstones, as soon as a page announces no further rows.
   */
  lemma ClientsCatchUp(states: seq<Db>, calls: seq<Call>, i: nat, logs: seq<Log>, limits: seq<nat>)
    requires Run(states, calls) && i < |states|
    requires |logs| == |limits| > 0 && Growing(logs) && forall k :: 0 <= k < |limits| ==> limits[k] > 0
    requires Events(logs[|logs| - 1]) == states[i].events && !Polls(logs, limits).1
    ensures Polls(logs, limits).0.mirror == TableView(states[i].records)
  {
    EveryStateIsSound(states, calls, i);
    PagingIsReplay(logs, limits);
  }

  /** The events of a record are exactly its revisions 1, 2, .., in cursor order. */
  lemma RecordsAreChronicled(states: seq<Db>, calls: seq<Call>, i: nat, id: RecordId)
    requires Run(states, calls) && i < |states| && id in states[i].records
    ensures Chronicled(History(states[i].events, id), states[i].records[id])
  {
    EveryStateIsSound(states, calls, i);
  }

  /** Rows demoted one by one, before the new representative is written: the index accepts each flush. */
  lemma IndexNeverRejects(states: seq<Db>, calls: seq<Call>, i: nat, flushed: set<RecordId>)
    requires Run(states, calls) && i < |calls| && flushed <= Batch(states[i], calls[i])
    ensures OneRepresentative(DemoteAll(states[i].records, flushed))
    ensures OneRepresentative(states[i + 1].records)
  {
    EveryStateIsSound(states, calls, i);
    EveryStateIsSound(states, calls, i + 1);
    var records := DemoteAll(states[i].records, flushed);
    forall a, b | a in records && b in records && ActiveRepresentative(records[a]) && ActiveRepresentative(records[b])
                  && records[a].catalog == records[b].catalog
      ensures a == b
    {
      assert ActiveRepresentative(states[i].records[a]) && ActiveRepresentative(states[i].records[b]);
    }
  }

  lemma TombstonesStayUnreferenced(states: seq<Db>, calls: seq<Call>, i: nat, f: FileId)
    requires Run(states, calls) && i < |states| && f in states[i].files && states[i].files[f].deleted
    ensures !HasPaths(states[i].files[f]) && !Referenced(states[i].records, f)
    ensures forall l :: l in states[i].links ==> l.fileId != f
  {
    EveryStateIsSound(states, calls, i);
    TombstonesAreUnreferenced(states[i], f);
  }

  /**
   * Asset deletions spare files another service links, and used files unless a Reset runs; what a Reset
   * that succeeds asked for is unused afterwards, and one that fails leaves the rows as they were.
   */
  lemma SharedFilesSurvive(states: seq<Db>, calls: seq<Call>, i: nat, f: FileId)
    requires Run(states, calls) && i < |calls|
    ensures DeletesAssets(states[i], calls[i], f) ==> !LinkedElsewhere(states[i], f, Acting(calls[i]))
    ensures DeletesAssets(states[i], calls[i], f) && Referenced(states[i].records, f) ==>
              calls[i].Reset? && if ResetSucceeds(states[i], calls[i]) then !Referenced(states[i + 1].records, f)
                                 else states[i + 1] == states[i]
    ensures forall l :: l in states[i].links && l.service != Acting(calls[i]) ==> l in states[i + 1].links
  {
    EveryStateIsSound(states, calls, i);
    SharedFilesArePreserved(states[i], calls[i], f);
    if calls[i].Reset? && DeletesAssets(states[i], calls[i], f) {
      UsedFilesInAReset(states[i], calls[i], f);
    }
  }

  // -------------------------------------------------------------- agreement

  ghost predicate ClaimedBy(db: Db, c: Call, j: JobId, worker: WorkerId) {
    c.ClaimJob? && c.jobId == j && c.worker == worker && Jobs.Claims(db.jobs, QueueOp(db, c), j)
  }

  /**
   * Between a worker's claim at `k` and step `i` nobody claims the job again, and the worker, which
   * is sequential, does not release it yet.
   */
  ghost predicate StillSettling(states: seq<Db>, calls: seq<Call>, k: nat, i: nat, j: JobId, worker: WorkerId)
    requires Run(states, calls) && i <= |calls|
  {
    && k < i && ClaimedBy(states[k], calls[k], j, worker)
    && forall m :: k < m < i ==>
        && !Jobs.Claims(states[m].jobs, QueueOp(states[m], calls[m]), j)
        && !(calls[m].ReleaseJob? && calls[m].jobId == j && calls[m].worker == worker)
  }

  lemma OwnerStays(jobs: Jobs.Table, op: Jobs.JobOp, j: JobId, worker: WorkerId)
    requires j in jobs && Jobs.Owns(jobs[j], worker)
    requires !Jobs.Claims(jobs, op, j) && !(op.Release? && op.id == j && op.worker == worker)
    ensures j in Jobs.Apply(jobs, op) && Jobs.Owns(Jobs.Apply(jobs, op)[j], worker)
  {}

  lemma OwnerStaysInCall(db: Db, c: Call, j: JobId, worker: WorkerId)
    requires Enabled(db, c) && j in db.jobs && Jobs.Owns(db.jobs[j], worker)
    requires !Jobs.Claims(db.jobs, QueueOp(db, c), j)
    requires !(c.ReleaseJob? && c.jobId == j && c.worker == worker)
    ensures j in After(db, c).jobs && Jobs.Owns(After(db, c).jobs[j], worker)
  {
    OwnerStays(db.jobs, QueueOp(db, c), j, worker);
    OwnerStays(Jobs.Apply(db.jobs, QueueOp(db, c)), Jobs.Unlink(db.records.Keys), j, worker);
  }

  lemma ClaimerOwns(db: Db, c: Call, j: JobId, worker: WorkerId)
    requires Enabled(db, c) && ClaimedBy(db, c, j, worker)
    ensures j in After(db, c).jobs && Jobs.Owns(After(db, c).jobs[j], worker)
  {}

  /** Then the job is still the worker's at step `i`, whatever others do in between. */
  lemma {:induction false} StillProcessing(states: seq<Db>, calls: seq<Call>, k: nat, i: nat, j: JobId,
                                           worker: WorkerId)
    requires Run(states, calls) && i <= |calls| && StillSettling(states, calls, k, i, j, worker)
    ensures j in states[i].jobs && Jobs.Owns(states[i].jobs[j], worker)
    decreases i
  {
    if k < i - 1 {
      StillProcessing(states, calls, k, i - 1, j, worker);
      OwnerStaysInCall(states[i - 1], calls[i - 1], j, worker);
    } else {
      ClaimerOwns(states[k], calls[k], j, worker);
    }
  }

  /** Every claim's second transaction commits before the job is claimed again. */
  ghost predicate TimelySyncs(states: seq<Db>, calls: seq<Call>)
    requires Run(states, calls)
  {
    forall i :: 0 <= i < |calls| && calls[i].SyncClaim? ==>
      exists k: nat, worker :: k < i && StillSettling(states, calls, k, i, calls[i].jobId, worker)
  }

  lemma NoLateSync(states: seq<Db>, calls: seq<Call>, i: nat)
    requires Run(states, calls) && i < |calls| && TimelySyncs(states, calls)
    ensures !LateSync(states[i], calls[i])
  {
    var c := calls[i];
    if c.SyncClaim? {
      var k: nat, worker :| k < i && StillSettling(states, calls, k, i, c.jobId, worker);
      StillProcessing(states, calls, k, i, c.jobId, worker);
    }
  }

  /**
   * If every claim settles in time and no client PATCHes the mirrored status, then after every call
   * each active record shows the status of its file's job, unless that job is being processed.
   */
  lemma {:induction false} RecordsShowTheirJobs(states: seq<Db>, calls: seq<Call>, i: nat)
    requires Run(states, calls) && i < |states| && TimelySyncs(states, calls)
    requires forall m :: 0 <= m < |calls| ==> !Overwrites(states[m], calls[m])
    ensures Agreement(states[i])
  {
    if i > 0 {
      RecordsShowTheirJobs(states, calls, i - 1);
      EveryStateIsSound(states, calls, i - 1);
      NoLateSync(states, calls, i - 1);
      AgreementStep(states[i - 1], calls[i - 1]);
    }
  }
}
