/**
 * What each accepted call on records, files and links writes, on the columns of the tables. Every
 * other row and table of the call stays as it was.
 */
module AstroColumns {
  import opened Options
  import Jobs = PlateSolveJobs
  import opened ChangeFeed
  import opened ObservationRecords
  import opened AstroStore
  import opened StatusAgreement

  /** The tables a call on records does not touch. */
  ghost predicate FilesStay(before: Db, after: Db) {
    && after.files == before.files && after.uploads == before.uploads && after.visions == before.visions
    && after.metadata == before.metadata && after.tags == before.tags
  }

  lemma NothingCleared(db: Db, c: Call)
    requires Enabled(db, c) && Cleared(db, c) == {} && FilesAfter(db, c) == db.files
    requires !c.SetUpload? && !c.SetVision? && !c.Reset?
    ensures FilesStay(db, After(db, c))
  {
    assert After(db, c).visions == db.visions;
    assert After(db, c).tags == db.tags;
    assert After(db, c).metadata == db.metadata;
  }

  // ------------------------------------------------------------------ PATCH

  /** A PATCH replaces the columns it sets, keeps the others and counts the revision. */
  ghost predicate PatchedColumns(before: Record, p: Patch, after: Record) {
    && after.catalog == (match p.catalog case Some(catalog) => catalog case None => before.catalog)
    && after.representative == (match p.representative case Some(flag) => flag case None => before.representative)
    && after.details == (match p.details case Some(details) => details case None => before.details)
    && (match p.solveStatus
        case Some(Some(status)) => after.solveStatus == status
        case _ => after.solveStatus == before.solveStatus)
    && after.fileId == before.fileId && after.clientId == before.clientId && after.deleted == before.deleted
    && after.revision == before.revision + 1
  }

  /** Next to a representative no other active one of its object is left; all other records stay. */
  ghost predicate OthersGiveWay(before: Records, after: Records, id: RecordId) {
    && id in after && after.Keys == before.Keys + {id}
    && forall k :: k in before && k != id ==>
         after[k] == if && after[id].representative && after[id].catalog.Some?
                        && before[k].catalog == after[id].catalog && before[k].representative && !before[k].deleted
                     then before[k].(representative := false, revision := before[k].revision + 1)
                     else before[k]
  }

  ghost predicate OnlyRepresentative(records: Records, id: RecordId)
    requires id in records
  {
    records[id].representative ==>
      forall k :: k in records && k != id && records[k].catalog == records[id].catalog ==>
        !records[k].representative || records[k].deleted
  }

  /** When a PATCH is accepted: an active record of that revision, and a representative that names an object. */
  lemma PatchIsAccepted(records: Records, id: RecordId, p: Patch)
    ensures UpdateAccepted(records, id, p) <==>
              && id in records && !records[id].deleted && records[id].revision == p.revision && p.equipmentOk
              && p.solveStatus != Some(None)
              && var catalog := match p.catalog case Some(c) => c case None => records[id].catalog;
                 var flag := match p.representative case Some(f) => f case None => records[id].representative;
                 flag ==> catalog.Some? && catalog.value != ""
  {}

  /** The record takes the patch's values, and gives way or makes way for the object it then names. */
  lemma PatchWrites(db: Db, c: Call)
    requires Enabled(db, c) && c.UpdateRecord? && UpdateAccepted(db.records, c.id, c.patch)
    ensures
      var after := After(db, c);
      && PatchedColumns(db.records[c.id], c.patch, after.records[c.id])
      && OthersGiveWay(db.records, after.records, c.id)
      && after.jobs == db.jobs && after.links == db.links && FilesStay(db, after)
      && OnlyRepresentative(after.records, c.id)
  {
    NothingCleared(db, c);
  }

  // ----------------------------------------------------------------- create

  /** A record is created for an undeleted file, with an object if it is a representative. */
  lemma CreationIsAccepted(db: Db, p: NewRecord)
    ensures CreateAccepted(db, p) <==>
              && (p.clientId.None? || forall id :: id in db.records ==> db.records[id].clientId != p.clientId)
              && p.fileId in db.files && !db.files[p.fileId].deleted
              && (p.representative ==> p.catalog.Some? && p.catalog.value != "") && p.equipmentOk
  {}

  /** The job that shows a new record's status: the file's own, or a new waiting one linked to the record. */
  ghost predicate JobForRecord(before: Jobs.Table, after: Jobs.Table, r: Record, id: RecordId, jobId: JobId, now: int) {
    && (exists j :: j in after && after[j].fileId == r.fileId && r.solveStatus == Mirrored(after[j].status))
    && (forall j :: j in before && before[j].fileId != r.fileId ==> j in after && after[j] == before[j])
    && (forall j :: j in before && before[j].fileId == r.fileId ==>
          && j in after
          && after[j] == before[j].(recordId := if before[j].recordId.None? then Some(id) else before[j].recordId))
    && ((forall j :: j in before ==> before[j].fileId != r.fileId) ==>
          && jobId in after && after[jobId].fileId == r.fileId && after[jobId].status.Waiting?
          && after[jobId].recordId == Some(id) && after[jobId].created == now && after[jobId].attempts == 0)
  }

  lemma CreationWrites(db: Db, c: Call)
    requires Enabled(db, c) && c.CreateRecord? && CreateAccepted(db, c.payload)
    ensures
      var after, p := After(db, c), c.payload;
      && OthersGiveWay(db.records, after.records, c.id)
      && after.records[c.id] == Record(p.fileId, p.clientId, p.catalog, p.representative,
                                       after.records[c.id].solveStatus, p.details, false, 1)
      && OnlyRepresentative(after.records, c.id)
      && after.links == db.links + {Link(p.fileId, AstroJournal)} && FilesStay(db, after)
  {
    hide CreatedStatus, JobsAfter, NewEvents;
    NothingCleared(db, c);
  }

  lemma CreationQueues(db: Db, c: Call)
    requires Enabled(db, c) && c.CreateRecord? && CreateAccepted(db, c.payload) && Jobs.TableForm(db.jobs)
    ensures JobForRecord(db.jobs, JobsAfter(db, c), RecordsAfter(db, c)[c.id], c.id, c.jobId, c.now)
  {
    Jobs.FormPreserved(db.jobs, QueueOp(db, c));
    JobIsFound(db.jobs, c.jobId, c.payload.fileId, c.id, c.now);
  }

  lemma JobIsFound(jobs: Jobs.Table, jobId: JobId, fileId: FileId, id: RecordId, now: int)
    requires Jobs.TableForm(jobs) && jobId !in jobs
    ensures
      var after := Jobs.Apply(jobs, Jobs.Enqueue(jobId, fileId, Some(id), now));
      && Jobs.HasFile(after, fileId)
      && exists j :: j in after && after[j].fileId == fileId && StatusFor(after, fileId) == after[j].status
  {
    var after := Jobs.Apply(jobs, Jobs.Enqueue(jobId, fileId, Some(id), now));
    if Jobs.HasFile(jobs, fileId) {
      var j :| j in jobs && jobs[j].fileId == fileId;
      assert j in after && after[j].fileId == fileId;
    } else {
      assert jobId in after && after[jobId].fileId == fileId;
    }
  }

  // ----------------------------------------------------------------- delete

  /** An active record becomes a tombstone; a file that loses its last record fails its waiting job. */
  lemma DeletionWrites(db: Db, c: Call)
    requires Enabled(db, c) && c.DeleteRecord?
    ensures
      var after, id := After(db, c), c.id;
      if id !in db.records || db.records[id].deleted then after == db
      else
        && after.records == db.records[id := db.records[id].(deleted := true, revision := db.records[id].revision + 1)]
        && after.links == db.links && FilesStay(db, after) && after.jobs.Keys == db.jobs.Keys
        && forall j :: j in db.jobs ==>
             after.jobs[j] ==
             if && db.jobs[j].fileId == db.records[id].fileId && db.jobs[j].status.Waiting?
                && forall k :: k in db.records && k != id && db.records[k].fileId == db.records[id].fileId ==>
                     db.records[k].deleted
             then db.jobs[j].(status := Jobs.Failed,
                              lastError := Some("Observation record was deleted before Plate Solve started"))
             else db.jobs[j]
  {
    NothingCleared(db, c);
    if c.id in db.records && !db.records[c.id].deleted {
      LastRecordOf(db, c);
    } else {
      assert After(db, c).events == db.events;
    }
  }

  lemma LastRecordOf(db: Db, c: Call)
    requires c.DeleteRecord? && DeleteAccepted(db.records, c.id)
    ensures !Referenced(RecordsAfter(db, c), db.records[c.id].fileId) <==>
            forall k :: k in db.records && k != c.id && db.records[k].fileId == db.records[c.id].fileId ==>
              db.records[k].deleted
  {
    forall k | k in db.records && k != c.id ensures RecordsAfter(db, c)[k] == db.records[k] {}
  }

  // --------------------------------------------------------------- clean-up

  /** The questions of a clean-up, on the columns of the tables. */
  ghost predicate Recorded(db: Db, f: FileId) {
    exists id :: id in db.records && db.records[id].fileId == f && !db.records[id].deleted
  }

  ghost predicate KeptElsewhere(db: Db, f: FileId, service: Service) {
    exists s: Service :: s != service && Link(f, s) in db.links
  }

  ghost predicate LookedAt(db: Db, f: FileId) {
    exists v :: && v in db.visions && db.visions[v].fileId == f && !db.visions[v].deleted
                && db.visions[v].state.Processing?
  }

  ghost predicate ToBeSolved(db: Db, f: FileId) {
    exists j :: j in db.jobs && db.jobs[j].fileId == f && (db.jobs[j].status.Waiting? || db.jobs[j].status.Processing?)
  }

  ghost predicate Emptied(db: Db, f: FileId) {
    && f in db.files && db.files[f].deleted && db.files[f].original.GetOr("") == ""
    && db.files[f].preview.GetOr("") == "" && db.files[f].thumb.GetOr("") == ""
  }

  lemma ElsewhereIs(db: Db, f: FileId, service: Service)
    ensures LinkedElsewhere(db, f, service) <==> KeptElsewhere(db, f, service)
  {
    if LinkedElsewhere(db, f, service) {
      var l :| l in db.links && l.fileId == f && l.service != service;
      assert Link(f, l.service) in db.links;
    }
  }

  lemma QuestionsAre(db: Db, f: FileId)
    ensures Referenced(db.records, f) <==> Recorded(db, f)
    ensures VisionBusy(db, f) <==> LookedAt(db, f)
    ensures SolvePending(db, f) <==> ToBeSolved(db, f)
    ensures f in db.files ==> (db.files[f].deleted && !HasPaths(db.files[f]) <==> Emptied(db, f))
  {}

  /** Which of the guards of a clean-up answers: the first one that applies, in this order. */
  lemma CleanupGuards(db: Db, f: FileId, service: Service, assets: Assets)
    ensures
      CleanupVerdict(db, f, service, assets) ==
      if f !in db.files then FileNotFound
      else if service == AstroJournal && Recorded(db, f) then PreservedActiveRecord
      else if KeptElsewhere(db, f, service) then PreservedOtherService
      else if LookedAt(db, f) then PreservedProcessingVision
      else if ToBeSolved(db, f) then PreservedActivePlateSolve
      else if Emptied(db, f) then AlreadyCleaned
      else if assets.original == Unsuccessful || assets.preview == Unsuccessful || assets.thumb == Unsuccessful
        then AssetDeleteFailed
      else Cleaned
  {
    hide Referenced, LinkedElsewhere, VisionBusy, SolvePending, HasPaths, Recorded, KeptElsewhere, LookedAt,
      ToBeSolved, Emptied;
    ElsewhereIs(db, f, service);
    QuestionsAre(db, f);
  }

  /**
   * A cleaned file becomes an empty tombstone without link, metadata, tags or active vision jobs; a
   * file another service keeps loses this service's link alone; otherwise nothing changes.
   */
  lemma CleanupWrites(db: Db, c: Call)
    requires Enabled(db, c) && c.Cleanup?
    ensures
      var after, f := After(db, c), c.fileId;
      match CleanupVerdict(db, f, c.service, c.assets)
      case Cleaned =>
        && after.files == db.files[f := FileRow(true, None, None, None)]
        && after.links == db.links - {Link(f, c.service)}
        && after.metadata == db.metadata - {f} && (forall t :: t in after.tags <==> t in db.tags && t.fileId != f)
        && after.visions.Keys == db.visions.Keys
        && (forall v :: v in db.visions ==>
              after.visions[v] == if db.visions[v].fileId == f then db.visions[v].(deleted := true) else db.visions[v])
        && after.records == db.records && after.events == db.events && after.jobs == db.jobs
        && after.uploads == db.uploads
      case PreservedOtherService => after == db.(links := db.links - {Link(f, c.service)})
      case _ => after == db
  {
    assert After(db, c).events == db.events;
    if !CleanupVerdict(db, c.fileId, c.service, c.assets).Cleaned? {
      NothingCleared(db, c);
    }
  }

  // ------------------------------------------------------------ other calls

  lemma OtherServicesWrite(db: Db, c: Call)
    requires Enabled(db, c) && (c.OtherReset? || c.Upload? || c.SetUpload? || c.SetVision? || c.OtherEvent?)
    ensures c.OtherReset? ==> After(db, c) == db.(links := set l | l in db.links && l.service != c.service)
    ensures c.Upload? ==>
              After(db, c) == db.(
                files := if c.fileId in db.files && !db.files[c.fileId].deleted then db.files
                  else db.files[c.fileId := c.row],
                links := db.links + {Link(c.fileId, c.service)})
    ensures c.SetUpload? ==> After(db, c) == db.(uploads := db.uploads[c.uploadId := c.upload])
    ensures c.SetVision? ==> After(db, c) == db.(visions := db.visions[c.visionId := c.vision])
    ensures c.OtherEvent? ==> After(db, c) == db.(events := db.events + [c.event])
  {
    assert !c.OtherEvent? ==> After(db, c).events == db.events;
    assert !c.SetVision? ==> After(db, c).visions == db.visions;
    assert After(db, c).tags == db.tags && After(db, c).metadata == db.metadata;
  }

  /** A file of AstroJournal with an original gets a waiting job, unless it has one. */
  lemma SubmissionWrites(db: Db, c: Call)
    requires Enabled(db, c) && c.SubmitFile?
    ensures
      var f := c.fileId;
      if && f in db.files && !db.files[f].deleted && Link(f, AstroJournal) in db.links
         && db.files[f].original.GetOr("") != "" && (forall j :: j in db.jobs ==> db.jobs[j].fileId != f)
      then
        && After(db, c) == db.(jobs := db.jobs[c.jobId := After(db, c).jobs[c.jobId]])
        && var job := After(db, c).jobs[c.jobId];
           job.fileId == f && job.recordId == None && job.status.Waiting? && job.attempts == 0 && job.created == c.now
      else After(db, c) == db
  {
    NothingCleared(db, c);
    assert After(db, c).events == db.events;
  }

  // ------------------------------------------------------- mirrored statuses

  /** Exactly the active records of the file that show something else take the status, one revision later. */
  ghost predicate RecordsShow(before: Records, after: Records, fileId: FileId, status: Jobs.Status) {
    && after.Keys == before.Keys
    && forall id :: id in before ==>
         after[id] == if && before[id].fileId == fileId && !before[id].deleted
                         && before[id].solveStatus != Mirrored(status)
                      then before[id].(solveStatus := Mirrored(status), revision := before[id].revision + 1)
                      else before[id]
  }

  /** The second transaction of a claim, a release by the owner and a retry of a failed job are mirrored. */
  lemma StatusWrites(db: Db, c: Call)
    requires Enabled(db, c) && (c.SyncClaim? || c.ReleaseJob? || c.RetryJob?) && c.jobId in db.jobs
    ensures
      var records, job := After(db, c).records, db.jobs[c.jobId];
      match c
      case SyncClaim(_, _) => RecordsShow(db.records, records, job.fileId, Jobs.Processing)
      case ReleaseJob(_, worker, outcome, _) =>
        job.status.Processing? && job.worker == Some(worker) ==>
          RecordsShow(db.records, records, job.fileId,
                      match outcome
                      case Complete(_, _, _) => Jobs.Completed
                      case Fail(_) => Jobs.Failed
                      case Requeue(_) => Jobs.Waiting)
      case RetryJob(_, _) => job.status.Failed? ==> RecordsShow(db.records, records, job.fileId, Jobs.Waiting)
      case _ => true
    ensures FilesStay(db, After(db, c)) && After(db, c).links == db.links
    ensures c.SyncClaim? ==> After(db, c).jobs == db.jobs
  {
    hide NewEvents;
    NothingCleared(db, c);
  }

  lemma SomeRows(order: seq<RecordId>, ids: set<RecordId>)
    requires Lists(order, ids)
    ensures order != [] ==> ids != {}
  {
    if order != [] {
      assert order[0] in order;
    }
  }

  /** Anybody else's release and any other retry change nothing. */
  lemma RefusedStatusWrites(db: Db, c: Call)
    requires Enabled(db, c) && (c.SyncClaim? || c.ReleaseJob? || c.RetryJob?)
    requires || c.jobId !in db.jobs
             || (c.ReleaseJob? && !(db.jobs[c.jobId].status.Processing? && db.jobs[c.jobId].worker == Some(c.worker)))
             || (c.RetryJob? && !db.jobs[c.jobId].status.Failed?)
    ensures After(db, c) == db
  {
    NothingCleared(db, c);
    SomeRows(Order(c), Batch(db, c));
    assert After(db, c).events == db.events;
  }
}
