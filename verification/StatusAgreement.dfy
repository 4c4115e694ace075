/**
 * When observation records show the status of their file's Plate Solve job, and exactly which calls
 * break that.
 */
module StatusAgreement {
  import opened Options
  import Jobs = PlateSolveJobs
  import opened ObservationRecords
  import opened AstroStore
  import opened AstroInvariants

  predicate Shows(r: Record, job: Jobs.Job) {
    !r.deleted && !job.status.Processing? && r.fileId == job.fileId ==> r.solveStatus == Mirrored(job.status)
  }

  /** Every active record on the file of a job that is not being processed shows the job's status. */
  ghost predicate Agreement(db: Db) {
    forall id, j :: id in db.records && j in db.jobs ==> Shows(db.records[id], db.jobs[j])
  }

  /** The second transaction of a claim commits although the job is no longer being processed. */
  ghost predicate LateSync(db: Db, c: Call) {
    && c.SyncClaim? && c.jobId in db.jobs && !db.jobs[c.jobId].status.Processing?
    && Referenced(db.records, db.jobs[c.jobId].fileId)
  }

  /** A PATCH writes a status of its own into the mirrored column. */
  ghost predicate Overwrites(db: Db, c: Call) {
    && c.UpdateRecord? && UpdateAccepted(db.records, c.id, c.patch) && c.patch.solveStatus.Some?
    && exists j :: j in db.jobs && db.jobs[j].fileId == db.records[c.id].fileId && !db.jobs[j].status.Processing?
                   && c.patch.solveStatus.value != Some(Mirrored(db.jobs[j].status))
  }

  ghost predicate Sound(db: Db) {
    Jobs.TableForm(db.jobs) && RecordsQueued(db)
  }

  lemma UniqueJob(db: Db, j: JobId, k: JobId)
    requires Sound(db) && j in db.jobs && k in db.jobs && db.jobs[j].fileId == db.jobs[k].fileId
    ensures j == k
  {}

  /** `StatusFor` picks the file's only job. */
  lemma StatusOfOnly(jobs: Jobs.Table, j: JobId)
    requires Jobs.UniqueFiles(jobs) && j in jobs
    ensures Jobs.HasFile(jobs, jobs[j].fileId) && StatusFor(jobs, jobs[j].fileId) == jobs[j].status
  {}

  lemma CreateAgrees(db: Db, c: Call)
    requires Sound(db) && Agreement(db) && Enabled(db, c) && c.CreateRecord?
    ensures Agreement(After(db, c))
  {
    var db' := After(db, c);
    QueueStep(db, c);
    forall id, j | id in db'.records && j in db'.jobs ensures Shows(db'.records[id], db'.jobs[j]) {
      if id !in db.records {
        StatusOfOnly(db'.jobs, j);
      } else if j in db.jobs {
        assert Shows(db.records[id], db.jobs[j]);
      } else {
        NewJobIsAlone(db, c, id, j);
      }
    }
  }

  /** A job is only created for a file that no record uses yet. */
  lemma NewJobIsAlone(db: Db, c: Call, id: RecordId, j: JobId)
    requires Sound(db) && Enabled(db, c) && id in db.records && j in JobsAfter(db, c) && j !in db.jobs
    ensures db.records[id].fileId != JobsAfter(db, c)[j].fileId
  {
    assert Jobs.HasFile(db.jobs, db.records[id].fileId);
    assert QueueOp(db, c).Enqueue?;
  }

  lemma MirrorAgrees(db: Db, c: Call)
    requires Sound(db) && Agreement(db) && Enabled(db, c) && (c.ReleaseJob? || c.RetryJob?)
    ensures Agreement(After(db, c))
  {
    var db' := After(db, c);
    forall id, j | id in db'.records && j in db'.jobs ensures Shows(db'.records[id], db'.jobs[j]) {
      assert Shows(db.records[id], db.jobs[j]);
      if c.jobId in db.jobs && db.jobs[j].fileId == db.jobs[c.jobId].fileId { UniqueJob(db, j, c.jobId); }
    }
  }

  lemma SyncAgrees(db: Db, c: Call)
    requires Sound(db) && Agreement(db) && Enabled(db, c) && c.SyncClaim?
    ensures Agreement(After(db, c)) <==> !LateSync(db, c)
  {
    var db' := After(db, c);
    if LateSync(db, c) {
      var id :| id in db.records && db.records[id].fileId == db.jobs[c.jobId].fileId && !db.records[id].deleted;
      assert !Shows(db'.records[id], db'.jobs[c.jobId]);
    } else {
      forall id, j | id in db'.records && j in db'.jobs ensures Shows(db'.records[id], db'.jobs[j]) {
        assert Shows(db.records[id], db.jobs[j]);
        if c.jobId in db.jobs && db.jobs[j].fileId == db.jobs[c.jobId].fileId { UniqueJob(db, j, c.jobId); }
      }
    }
  }

  lemma PatchAgrees(db: Db, c: Call)
    requires Sound(db) && Agreement(db) && Enabled(db, c) && c.UpdateRecord?
    ensures Agreement(After(db, c)) <==> !Overwrites(db, c)
  {
    var db' := After(db, c);
    if Overwrites(db, c) {
      var j :| j in db.jobs && db.jobs[j].fileId == db.records[c.id].fileId && !db.jobs[j].status.Processing?
               && c.patch.solveStatus.value != Some(Mirrored(db.jobs[j].status));
      assert !Shows(db'.records[c.id], db'.jobs[j]);
    } else {
      forall id, j | id in db'.records && j in db'.jobs ensures Shows(db'.records[id], db'.jobs[j]) {
        assert Shows(db.records[id], db.jobs[j]);
      }
    }
  }

  lemma DeleteAgrees(db: Db, c: Call)
    requires Sound(db) && Agreement(db) && Enabled(db, c) && c.DeleteRecord?
    ensures Agreement(After(db, c))
  {
    var db' := After(db, c);
    forall id, j | id in db'.records && j in db'.jobs ensures Shows(db'.records[id], db'.jobs[j]) {
      assert Shows(db.records[id], db.jobs[j]);
      assert !db'.records[id].deleted ==> Referenced(db'.records, db'.records[id].fileId);
    }
  }

  /** Agreement survives a call exactly when the call is neither a late sync nor an overwriting PATCH. */
  lemma AgreementStep(db: Db, c: Call)
    requires Sound(db) && Agreement(db) && Enabled(db, c)
    ensures Agreement(After(db, c)) <==> !LateSync(db, c) && !Overwrites(db, c)
  {
    match c
    case CreateRecord(_, _, _, _, _) => CreateAgrees(db, c);
    case UpdateRecord(_, _, _) => PatchAgrees(db, c);
    case DeleteRecord(_) => DeleteAgrees(db, c);
    case SyncClaim(_, _) => SyncAgrees(db, c);
    case ReleaseJob(_, _, _, _) => MirrorAgrees(db, c);
    case RetryJob(_, _) => MirrorAgrees(db, c);
    case _ => OthersAgree(db, c);
  }

  lemma OthersAgree(db: Db, c: Call)
    requires Sound(db) && Agreement(db) && Enabled(db, c)
    requires !c.CreateRecord? && !c.UpdateRecord? && !c.DeleteRecord? && !c.SyncClaim? && !c.ReleaseJob? && !c.RetryJob?
    ensures Agreement(After(db, c))
  {
    var db' := After(db, c);
    forall id, j | id in db'.records && j in db'.jobs ensures Shows(db'.records[id], db'.jobs[j]) {
      if j in db.jobs {
        assert Shows(db.records[id], db.jobs[j]);
      } else {
        NewJobIsAlone(db, c, id, j);
      }
    }
  }
}
