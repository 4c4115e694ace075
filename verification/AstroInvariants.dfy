/**
 * What every sequence of AstroJournal calls keeps: the feed tells the table, one representative per
 * catalog object, tombstoned files are unreferenced, and records show their job's status.
 */
module AstroInvariants {
  import opened Options
  import Jobs = PlateSolveJobs
  import opened ChangeFeed
  import opened ObservationRecords
  import opened AstroStore

  // ------------------------------------------------------------------- feed

  lemma NothingRevised(order: seq<RecordId>, ids: set<RecordId>)
    requires Lists(order, ids)
    ensures order != [] ==> ids != {}
  {
    if order != [] { assert order[0] in order; }
  }

  lemma CreateKeepsFeed(db: Db, c: Call)
    requires FeedInv(db.records, db.events) && Enabled(db, c) && c.CreateRecord?
    ensures FeedInv(RecordsAfter(db, c), db.events + NewEvents(db, c))
  {
    var p, order, id := c.payload, c.order, c.id;
    if CreateAccepted(db, p) {
      var demoted := DemoteAll(db.records, Batch(db, c));
      var records := RecordsAfter(db, c);
      ReviseAll(db.records, demoted, db.events, order, Batch(db, c));
      UpdatesAgree(order, demoted, records);
      assert History(db.events + Updates(order, demoted), id) == [] by { FreshStays(db.events, order, demoted, id); }
      Introduce(demoted, db.events + Updates(order, demoted), id, records[id]);
      assert db.events + NewEvents(db, c) ==
        db.events + Updates(order, demoted) + [RecordEvent(id, Operation.Create, 1)];
    } else {
      assert db.events + [] == db.events;
    }
  }

  lemma {:induction false} FreshStays(events: seq<Event>, order: seq<RecordId>, records: Records, id: RecordId)
    requires id !in records && forall i :: i in order ==> i in records
    requires History(events, id) == []
    ensures History(events + Updates(order, records), id) == []
  {
    if order == [] {
      assert events + [] == events;
    } else {
      var n := |order| - 1;
      FreshStays(events, order[..n], records, id);
      var e := RecordEvent(order[n], Operation.Update, records[order[n]].revision);
      ReplayOne(events + Updates(order[..n], records), e);
      assert events + Updates(order, records) == events + Updates(order[..n], records) + [e];
    }
  }

  lemma UpdateKeepsFeed(db: Db, c: Call)
    requires FeedInv(db.records, db.events) && Enabled(db, c) && c.UpdateRecord?
    ensures FeedInv(RecordsAfter(db, c), db.events + NewEvents(db, c))
  {
    var p, order, id := c.patch, c.order, c.id;
    if UpdateAccepted(db.records, id, p) {
      var demoted := DemoteAll(db.records, Batch(db, c));
      var records := RecordsAfter(db, c);
      ReviseAll(db.records, demoted, db.events, order, Batch(db, c));
      assert id !in Batch(db, c);
      UpdatesAgree(order, demoted, records);
      Revise(demoted, db.events + Updates(order, demoted), id, records[id], Operation.Update);
      assert db.events + NewEvents(db, c) ==
             db.events + Updates(order, demoted) + [RecordEvent(id, Operation.Update, records[id].revision)];
    } else {
      assert db.events + [] == db.events;
    }
  }

  lemma MirrorKeepsFeed(db: Db, c: Call)
    requires FeedInv(db.records, db.events) && Enabled(db, c)
    requires c.SyncClaim? || c.ReleaseJob? || c.RetryJob?
    ensures FeedInv(RecordsAfter(db, c), db.events + NewEvents(db, c))
  {
    if c.ReleaseJob? && c.jobId !in db.jobs {
      NothingRevised(c.order, Batch(db, c));
      assert db.events + [] == db.events;
    } else {
      ReviseAll(db.records, RecordsAfter(db, c), db.events, Order(c), Batch(db, c));
    }
  }

  lemma FeedStep(db: Db, c: Call)
    requires FeedInv(db.records, db.events) && Enabled(db, c)
    ensures FeedInv(After(db, c).records, After(db, c).events)
  {
    match c
    case CreateRecord(_, _, _, _, _) => CreateKeepsFeed(db, c);
    case UpdateRecord(_, _, _) => UpdateKeepsFeed(db, c);
    case SyncClaim(_, _) => MirrorKeepsFeed(db, c);
    case ReleaseJob(_, _, _, _) => MirrorKeepsFeed(db, c);
    case RetryJob(_, _) => MirrorKeepsFeed(db, c);
    case DeleteRecord(_) => RemovalKeepsFeed(db, c);
    case Reset(_, _) => RemovalKeepsFeed(db, c);
    case OtherEvent(e) => Unrelated(db.records, db.events, e);
    case _ => assert db.events + [] == db.events;
  }

  lemma RemovalKeepsFeed(db: Db, c: Call)
    requires FeedInv(db.records, db.events) && Enabled(db, c) && (c.DeleteRecord? || c.Reset?)
    ensures FeedInv(RecordsAfter(db, c), db.events + NewEvents(db, c))
  {
    if c.DeleteRecord? && DeleteAccepted(db.records, c.id) {
      Revise(db.records, db.events, c.id, RecordsAfter(db, c)[c.id], Operation.Delete);
    } else if c.Reset? && ResetSucceeds(db, c) {
      ReplayOne(db.events, Event(AstroJournal, WholeReset, Operation.Update, None, false));
    } else {
      assert db.events + [] == db.events;
    }
  }

  // -------------------------------------------------------- representatives

  lemma StatusKeepsRepresentatives(records: Records, ids: set<RecordId>, status: SolveStatus)
    requires OneRepresentative(records)
    ensures OneRepresentative(StatusAll(records, ids, status))
  {
    var after := StatusAll(records, ids, status);
    forall i, j | i in after && j in after && ActiveRepresentative(after[i]) && ActiveRepresentative(after[j])
                  && after[i].catalog == after[j].catalog
      ensures i == j
    {
      assert ActiveRepresentative(records[i]) && ActiveRepresentative(records[j]);
    }
  }

  lemma CreateKeepsRepresentatives(db: Db, c: Call)
    requires OneRepresentative(db.records) && Enabled(db, c) && c.CreateRecord?
    ensures OneRepresentative(RecordsAfter(db, c))
  {
    var p := c.payload;
    if CreateAccepted(db, p) && p.representative { DemotionClears(db.records, p.catalog, None); }
    assert !p.representative ==> DemoteAll(db.records, {}) == db.records;
  }

  lemma UpdateKeepsRepresentatives(db: Db, c: Call)
    requires OneRepresentative(db.records) && Enabled(db, c) && c.UpdateRecord?
    ensures OneRepresentative(RecordsAfter(db, c))
  {
    var id, p := c.id, c.patch;
    if UpdateAccepted(db.records, id, p) {
      if PatchedRepresentative(db.records[id], p) {
        DemotionClears(db.records, PatchedCatalog(db.records[id], p), Some(id));
      } else {
        assert DemoteAll(db.records, {}) == db.records;
      }
    }
  }

  lemma RepresentativeStep(db: Db, c: Call)
    requires OneRepresentative(db.records) && Enabled(db, c)
    ensures OneRepresentative(After(db, c).records)
  {
    match c
    case CreateRecord(_, _, _, _, _) => CreateKeepsRepresentatives(db, c);
    case UpdateRecord(_, _, _) => UpdateKeepsRepresentatives(db, c);
    case SyncClaim(_, _) => StatusKeepsRepresentatives(db.records, Batch(db, c), Mirrored(Jobs.Processing));
    case ReleaseJob(j, _, outcome, _) =>
      if j in db.jobs {
        StatusKeepsRepresentatives(db.records, Batch(db, c), Mirrored(Jobs.ReleasedRow(db.jobs[j], outcome).status));
      }
    case RetryJob(_, _) => StatusKeepsRepresentatives(db.records, Batch(db, c), Mirrored(Jobs.Waiting));
    case _ =>
  }

  // ------------------------------------------------------------------ files

  /** Foreign keys, and what a tombstoned file may still have: nothing. */
  ghost predicate FilesInv(db: Db) {
    && (forall l :: l in db.links ==> l.fileId in db.files && !db.files[l.fileId].deleted)
    && (forall id :: id in db.records ==> db.records[id].fileId in db.files)
    && (forall id :: id in db.records && !db.records[id].deleted ==> Linked(db, db.records[id].fileId, AstroJournal))
    && (forall f :: f in db.files && db.files[f].deleted ==> !HasPaths(db.files[f]))
  }

  lemma LinksStep(db: Db, c: Call, l: Link)
    requires FilesInv(db) && Enabled(db, c) && l in After(db, c).links
    ensures l.fileId in After(db, c).files && !After(db, c).files[l.fileId].deleted
  {
    assert c.Cleanup? && CleanupVerdict(db, c.fileId, c.service, c.assets).Cleaned? ==>
             forall k :: k in db.links && k.fileId == c.fileId ==> k.service == c.service;
    assert c.Reset? && ResetSucceeds(db, c) ==>
             forall k :: k in db.links && k.fileId in AstroOnly(db) ==> k.service.AstroJournal?;
  }

  lemma ActiveLinkStep(db: Db, c: Call, id: RecordId)
    requires FilesInv(db) && Enabled(db, c) && id in After(db, c).records && !After(db, c).records[id].deleted
    ensures Linked(After(db, c), After(db, c).records[id].fileId, AstroJournal)
  {
    if c.Cleanup? {
      ActiveAreLinked(db);
      assert db.records[id].fileId == c.fileId ==> Referenced(db.records, c.fileId);
    } else if id in db.records {
      assert !db.records[id].deleted && db.records[id].fileId == After(db, c).records[id].fileId;
      assert Linked(db, db.records[id].fileId, AstroJournal);
    }
  }

  lemma FilesStep(db: Db, c: Call)
    requires FilesInv(db) && Enabled(db, c)
    ensures FilesInv(After(db, c))
  {
    var db' := After(db, c);
    forall l | l in db'.links ensures l.fileId in db'.files && !db'.files[l.fileId].deleted {
      LinksStep(db, c, l);
    }
    forall id | id in db'.records && !db'.records[id].deleted
      ensures Linked(db', db'.records[id].fileId, AstroJournal)
    {
      ActiveLinkStep(db, c, id);
    }
  }

  lemma ActiveAreLinked(db: Db)
    requires FilesInv(db)
    ensures forall id :: id in db.records && !db.records[id].deleted ==>
              Link(db.records[id].fileId, AstroJournal) in db.links
  {
    forall id | id in db.records && !db.records[id].deleted
      ensures Link(db.records[id].fileId, AstroJournal) in db.links
    {
      assert Linked(db, db.records[id].fileId, AstroJournal);
    }
  }

  /** A tombstoned file has no service link, no path and no active record. */
  lemma TombstonesAreUnreferenced(db: Db, f: FileId)
    requires FilesInv(db) && f in db.files && db.files[f].deleted
    ensures !HasPaths(db.files[f]) && !Referenced(db.records, f)
    ensures forall l :: l in db.links ==> l.fileId != f
  {
    ActiveAreLinked(db);
  }

  // ------------------------------------------------------------------ queue

  ghost predicate RecordsQueued(db: Db) {
    forall id :: id in db.records ==> Jobs.HasFile(db.jobs, db.records[id].fileId)
  }

  lemma JobsStay(jobs: Jobs.Table, op: Jobs.JobOp, j: Jobs.JobId)
    requires j in jobs
    ensures j in Jobs.Apply(jobs, op) && Jobs.Apply(jobs, op)[j].fileId == jobs[j].fileId
  {}

  lemma JobStays(db: Db, c: Call, j: JobId)
    requires j in db.jobs
    ensures j in JobsAfter(db, c) && JobsAfter(db, c)[j].fileId == db.jobs[j].fileId
  {
    JobsStay(db.jobs, QueueOp(db, c), j);
    JobsStay(Jobs.Apply(db.jobs, QueueOp(db, c)), Jobs.Unlink(db.records.Keys), j);
  }

  lemma QueueStep(db: Db, c: Call)
    requires Jobs.TableForm(db.jobs) && RecordsQueued(db) && Enabled(db, c)
    ensures Jobs.TableForm(After(db, c).jobs) && RecordsQueued(After(db, c))
  {
    var db' := After(db, c);
    Jobs.FormPreserved(db.jobs, QueueOp(db, c));
    Jobs.FormPreserved(Jobs.Apply(db.jobs, QueueOp(db, c)), Jobs.Unlink(db.records.Keys));
    forall id | id in db'.records ensures Jobs.HasFile(db'.jobs, db'.records[id].fileId) {
      if id in db.records {
        assert db'.records[id].fileId == db.records[id].fileId;
        var j :| j in db.jobs && db.jobs[j].fileId == db.records[id].fileId;
        JobStays(db, c, j);
      } else {
        EnqueueHasFile(db.jobs, c.jobId, c.payload.fileId, Some(id), c.now);
      }
    }
  }

  lemma EnqueueHasFile(jobs: Jobs.Table, jobId: JobId, fileId: FileId, recordId: Option<RecordId>, now: int)
    requires jobId !in jobs
    ensures Jobs.HasFile(Jobs.Apply(jobs, Jobs.Enqueue(jobId, fileId, recordId, now)), fileId)
  {
    var after := Jobs.Apply(jobs, Jobs.Enqueue(jobId, fileId, recordId, now));
    if Jobs.HasFile(jobs, fileId) {
      var j :| j in jobs && jobs[j].fileId == fileId;
      assert j in after && after[j].fileId == fileId;
    } else {
      assert jobId in after && after[jobId].fileId == fileId;
    }
  }
}
