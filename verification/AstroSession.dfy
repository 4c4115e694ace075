/**
 * The AstroJournal services as they change the session's rows in place. Every method commits exactly
 * the `Call` it stands for; an error rolls back and commits nothing.
 */
module AstroSession {
  import opened Options
  import opened Ordering
  import Picking
  import Jobs = PlateSolveJobs
  import opened ChangeFeed
  import opened ObservationRecords
  import opened AssetSafety
  import opened AstroColumns
  import opened AstroStore
  import opened StatusAgreement
  import opened ResetContract

  datatype Reply<+T> =
    | Ok(value: T)
    | NotFound
    | FileUnknown
    | NeedsCatalog
    | BadEquipment
    | RevisionConflict(current: nat)
    | RepresentativeConflict
    | NotFailed
    | LeaseLost

  /** What a Reset would do: rows and files in its scope, jobs in its way, and stored assets of each kind. */
  datatype ResetPreview = ResetPreview(
    records: nat, astroFiles: nat, astroOnly: nat, shared: nat, uploads: nat, pendingUploads: nat,
    processingUploads: nat, processingVisions: nat, processing: nat, originals: nat, previews: nat, thumbs: nat,
    blocked: bool)

  /** What an executed Reset reports: row counts of its deletions, files of its scope, deleted assets. */
  datatype ResetCounts = ResetCounts(
    records: nat, links: nat, uploads: nat, tombstoned: nat, shared: nat, originals: nat, previews: nat, thumbs: nat)

  datatype ResetReply = ResetDone(counts: ResetCounts) | ResetRefused(uploads: nat, visions: nat) | CleanupFailed

  /** `client_record_id` is unique. */
  ghost predicate UniqueClients(records: Records) {
    forall i, j | i in records && j in records && records[i].clientId.Some?
      :: records[i].clientId == records[j].clientId ==> i == j
  }

  /** A call that clears no derived rows leaves those tables as they are. */
  lemma DerivedRowsStay(db: Db, c: Call)
    requires Enabled(db, c) && Cleared(db, c) == {}
    requires !c.SetUpload? && !c.SetVision? && (c.Reset? ==> !ResetSucceeds(db, c))
    ensures After(db, c) == Db(RecordsAfter(db, c), db.events + NewEvents(db, c), JobsAfter(db, c), FilesAfter(db, c),
                               LinksAfter(db, c), db.uploads, db.visions, db.metadata, db.tags)
  {
    var after := After(db, c);
    assert after.visions == db.visions && after.tags == db.tags && after.metadata == db.metadata;
  }

  /** A refused call lists no rows and commits nothing. */
  lemma RefusedCreate(db: Db, c: Call)
    requires c.CreateRecord? && c.order == [] && !KnownClient(db.records, c.payload.clientId)
    requires !CreateAccepted(db, c.payload)
    requires c.id !in db.records && History(db.events, c.id) == [] && c.jobId !in db.jobs
    ensures Enabled(db, c) && After(db, c) == db
  {
    DerivedRowsStay(db, c);
  }

  lemma RefusedUpdate(db: Db, c: Call)
    requires c.UpdateRecord? && c.order == [] && !UpdateAccepted(db.records, c.id, c.patch)
    ensures Enabled(db, c) && After(db, c) == db
  {
    DerivedRowsStay(db, c);
  }

  lemma RefusedQueueCall(db: Db, c: Call)
    requires Order(c) == []
    requires (c.ReleaseJob? && !(c.jobId in db.jobs && Jobs.Owns(db.jobs[c.jobId], c.worker)))
          || (c.RetryJob? && !(c.jobId in db.jobs && db.jobs[c.jobId].status.Failed?))
    ensures Enabled(db, c) && After(db, c) == db
  {
    assert forall status :: StatusAll(db.records, {}, status) == db.records;
    DerivedRowsStay(db, c);
  }

  lemma ExistingRecordReturned(db: Db, c: Call, existing: RecordId)
    requires c.CreateRecord? && c.order == [] && UniqueClients(db.records) && c.payload.clientId.Some?
    requires existing in db.records && db.records[existing].clientId == c.payload.clientId
    requires c.id !in db.records && History(db.events, c.id) == [] && c.jobId !in db.jobs
    ensures Enabled(db, c)
    ensures After(db, c) ==
              db.(jobs := Jobs.Apply(db.jobs,
                                     Jobs.Enqueue(c.jobId, db.records[existing].fileId, Some(existing), c.now)))
  {
    assert RecordOfClient(db.records, c.payload.clientId) == existing;
    DerivedRowsStay(db, c);
  }

  ghost function DemotedBy(records: Records, catalog: Option<string>, representative: bool,
                           except: Option<RecordId>): set<RecordId> {
    if representative then RepresentativesOf(records, catalog, except) else {}
  }

  /** What an accepted creation commits, table by table. */
  lemma CreateCommits(db: Db, c: Call)
    requires c.CreateRecord? && !KnownClient(db.records, c.payload.clientId) && CreateAccepted(db, c.payload)
    requires c.id !in db.records && History(db.events, c.id) == [] && c.jobId !in db.jobs
    requires Lists(c.order, DemotedBy(db.records, c.payload.catalog, c.payload.representative, None))
    ensures Enabled(db, c)
    ensures
      var p := c.payload;
      var jobs := Jobs.Apply(db.jobs, Jobs.Enqueue(c.jobId, p.fileId, Some(c.id), c.now));
      var row := Record(p.fileId, p.clientId, p.catalog, p.representative, CreatedStatus(db, c), p.details, false, 1);
      var records := DemoteAll(db.records, DemotedBy(db.records, p.catalog, p.representative, None))[c.id := row];
      After(db, c) == db.(
        records := records,
        events := db.events + Updates(c.order, records) + [RecordEvent(c.id, Operation.Create, 1)],
        jobs := jobs,
        links := db.links + {Link(p.fileId, AstroJournal)})
  {
    DerivedRowsStay(db, c);
    assert db.events + NewEvents(db, c) ==
      db.events + Updates(c.order, RecordsAfter(db, c)) + [RecordEvent(c.id, Operation.Create, 1)];
  }

  lemma CreatedShows(db: Db, c: Call, job: JobId)
    requires c.CreateRecord?
    requires
      var jobs := Jobs.Apply(db.jobs, Jobs.Enqueue(c.jobId, c.payload.fileId, Some(c.id), c.now));
      Jobs.TableForm(jobs) && job in jobs && jobs[job].fileId == c.payload.fileId
    ensures CreatedStatus(db, c) ==
            Mirrored(Jobs.Apply(db.jobs, Jobs.Enqueue(c.jobId, c.payload.fileId, Some(c.id), c.now))[job].status)
  {
    StatusOfOnly(Jobs.Apply(db.jobs, Jobs.Enqueue(c.jobId, c.payload.fileId, Some(c.id), c.now)), job);
  }

  lemma UpdateCommits(db: Db, c: Call)
    requires c.UpdateRecord? && UpdateAccepted(db.records, c.id, c.patch)
    requires
      var r := db.records[c.id];
      Lists(c.order, DemotedBy(db.records, PatchedCatalog(r, c.patch), PatchedRepresentative(r, c.patch), Some(c.id)))
    ensures Enabled(db, c)
    ensures
      var r := db.records[c.id];
      var demoted := DemotedBy(db.records, PatchedCatalog(r, c.patch), PatchedRepresentative(r, c.patch), Some(c.id));
      var records := DemoteAll(db.records, demoted)[c.id := Patched(r, c.patch)];
      After(db, c) == db.(
        records := records,
        events := db.events + Updates(c.order, records) + [RecordEvent(c.id, Operation.Update, r.revision + 1)])
  {
    DerivedRowsStay(db, c);
    assert db.events + NewEvents(db, c)
        == db.events + Updates(c.order, RecordsAfter(db, c))
          + [RecordEvent(c.id, Operation.Update, db.records[c.id].revision + 1)];
  }

  function VisionsWithout(visions: map<int, VisionJob>, f: FileId): map<int, VisionJob> {
    map v | v in visions :: if visions[v].fileId == f then visions[v].(deleted := true) else visions[v]
  }

  lemma CleanupCommits(db: Db, c: Call)
    requires c.Cleanup? && CleanupVerdict(db, c.fileId, c.service, c.assets).Cleaned?
    ensures Enabled(db, c) && After(db, c) == db.(
              files := db.files[c.fileId := FileRow(true, None, None, None)],
              links := db.links - {Link(c.fileId, c.service)},
              visions := VisionsWithout(db.visions, c.fileId),
              metadata := db.metadata - {c.fileId},
              tags := set t | t in db.tags && t.fileId != c.fileId)
  {
    assert Cleared(db, c) == {c.fileId};
    assert (set t | t in db.tags && t.fileId != c.fileId) == (set t | t in db.tags && t.fileId !in Cleared(db, c));
    assert db.events + [] == db.events;
  }

  /** A status change of a job that is mirrored into its records, as one state change. */
  ghost function MirroredDb(db: Db, order: seq<RecordId>, op: Jobs.JobOp, fileId: FileId, status: SolveStatus): Db
    requires Lists(order, OutOfStep(db.records, fileId, status))
  {
    var records := StatusAll(db.records, OutOfStep(db.records, fileId, status), status);
    db.(records := records, events := db.events + Updates(order, records), jobs := Jobs.Apply(db.jobs, op))
  }

  lemma SyncCommits(db: Db, c: Call)
    requires c.SyncClaim? && c.jobId in db.jobs
    requires Lists(c.order, OutOfStep(db.records, db.jobs[c.jobId].fileId, Mirrored(Jobs.Processing)))
    ensures Enabled(db, c)
    ensures After(db, c) == MirroredDb(db, c.order, Jobs.Skip, db.jobs[c.jobId].fileId, Mirrored(Jobs.Processing))
  {
    DerivedRowsStay(db, c);
  }

  lemma ReleaseCommits(db: Db, c: Call)
    requires c.ReleaseJob? && c.jobId in db.jobs && Jobs.Owns(db.jobs[c.jobId], c.worker)
    requires var status := Mirrored(Jobs.ReleasedRow(db.jobs[c.jobId], c.outcome).status);
             Lists(c.order, OutOfStep(db.records, db.jobs[c.jobId].fileId, status))
    ensures Enabled(db, c)
    ensures
      var status := Mirrored(Jobs.ReleasedRow(db.jobs[c.jobId], c.outcome).status);
      After(db, c) ==
        MirroredDb(db, c.order, Jobs.JobOp.Release(c.jobId, c.worker, c.outcome), db.jobs[c.jobId].fileId, status)
  {
    DerivedRowsStay(db, c);
  }

  lemma RetryCommits(db: Db, c: Call)
    requires c.RetryJob? && c.jobId in db.jobs && db.jobs[c.jobId].status.Failed?
    requires Lists(c.order, OutOfStep(db.records, db.jobs[c.jobId].fileId, Mirrored(Jobs.Waiting)))
    ensures Enabled(db, c)
    ensures After(db, c) ==
              MirroredDb(db, c.order, Jobs.JobOp.Retry(c.jobId), db.jobs[c.jobId].fileId, Mirrored(Jobs.Waiting))
  {
    DerivedRowsStay(db, c);
  }

  lemma StatusOneMore(records: Records, done: set<RecordId>, id: RecordId, status: SolveStatus)
    requires id in records && id !in done
    ensures StatusAll(records, done + {id}, status) ==
              StatusAll(records, done, status)[id := WithStatus(records[id], status)]
    ensures StatusAll(records, done, status)[id] == records[id]
  {}

  lemma StillUnknown(before: Records, after: Records, clientId: Option<int>)
    requires before.Keys == after.Keys && !KnownClient(before, clientId)
    requires forall id :: id in before ==> after[id].clientId == before[id].clientId
    ensures !KnownClient(after, clientId)
  {}

  lemma NewClient(records: Records, id: RecordId, r: Record)
    requires UniqueClients(records) && id !in records && !KnownClient(records, r.clientId)
    ensures UniqueClients(records[id := r])
  {}

  lemma SameClients(before: Records, after: Records)
    requires UniqueClients(before) && before.Keys == after.Keys
    requires forall id :: id in before ==> after[id].clientId == before[id].clientId
    ensures UniqueClients(after)
  {
    forall i, j | i in after && j in after && after[i].clientId.Some? && after[i].clientId == after[j].clientId
      ensures i == j
    {
      assert before[i].clientId == before[j].clientId;
    }
  }

  lemma PatchKeepsClients(records: Records, ids: set<RecordId>, id: RecordId, r: Record)
    requires UniqueClients(records) && id in records && r.clientId == records[id].clientId
    ensures UniqueClients(DemoteAll(records, ids)[id := r])
  {
    SameClients(records, DemoteAll(records, ids)[id := r]);
  }

  /** What the execution reports is what the preview announced. */
  predicate Faithful(preview: ResetPreview, done: ResetCounts) {
    && done.records == preview.records && done.uploads == preview.uploads
    && done.tombstoned == preview.astroOnly && done.shared == preview.shared
  }

  /** The reported row counts are what the tables lost. */
  ghost predicate CountsRows(before: Db, after: Db, done: ResetCounts) {
    && done.records == |before.records| - |after.records|
    && done.links == |before.links| - |after.links|
    && done.uploads == |before.uploads| - |after.uploads|
    && done.tombstoned == |set f | f in AstroOnly(before) && f in after.files && after.files[f].deleted|
    && done.shared == |set f | f in Shared(before) && f in after.files && after.files[f] == before.files[f]|
  }

  function DeletedIn(ids: set<FileId>, answers: map<FileId, Assets>, kind: Kind): set<FileId>
    requires ids <= answers.Keys
  {
    set f | f in ids && AnswerOf(answers[f], kind).Deleted?
  }

  lemma OneMoreFile(done: set<FileId>, f: FileId, answers: map<FileId, Assets>, kind: Kind)
    requires done + {f} <= answers.Keys && f !in done
    ensures |DeletedIn(done + {f}, answers, kind)|
         == |DeletedIn(done, answers, kind)| + if AnswerOf(answers[f], kind).Deleted? then 1 else 0
  {
    if AnswerOf(answers[f], kind).Deleted? {
      assert DeletedIn(done + {f}, answers, kind) == DeletedIn(done, answers, kind) + {f};
    } else {
      assert DeletedIn(done + {f}, answers, kind) == DeletedIn(done, answers, kind);
    }
  }

  lemma StartsEmpty(answers: map<FileId, Assets>)
    ensures forall kind :: DeletedIn({}, answers, kind) == {}
  {}

  lemma AllReached(ids: set<FileId>, answers: map<FileId, Assets>)
    requires ids <= answers.Keys && forall f :: f in ids ==> Succeeded(answers[f])
    ensures forall f :: Reaches(ids, answers, f) <==> f in ids
  {}

  /** The first file that is not deleted is the last one that is asked for. */
  lemma ReachedUpTo(ids: set<FileId>, answers: map<FileId, Assets>, last: FileId)
    requires ids <= answers.Keys && last in ids && !Succeeded(answers[last])
    requires forall f :: f in ids && f < last ==> Succeeded(answers[f])
    ensures forall f :: Reaches(ids, answers, f) <==> f in ids && f <= last
  {}

  /** With an honest storage no more assets are deleted than the preview announced. */
  lemma DeletionsAreAnnounced(db: Db, answers: map<FileId, Assets>, kind: Kind)
    requires AstroOnly(db) <= answers.Keys
    requires forall f :: f in AstroOnly(db) ==> Honest(db.files[f], answers[f])
    ensures |DeletedIn(AstroOnly(db), answers, kind)| <= |Announced(db, kind)|
  {
    SmallerSet(DeletedIn(AstroOnly(db), answers, kind), Announced(db, kind));
  }

  lemma HonestDeletions(db: Db, answers: map<FileId, Assets>)
    requires AstroOnly(db) <= answers.Keys
    ensures (forall f :: f in AstroOnly(db) ==> Honest(db.files[f], answers[f])) ==>
              forall kind :: |DeletedIn(AstroOnly(db), answers, kind)| <= |Announced(db, kind)|
  {
    if forall f :: f in AstroOnly(db) ==> Honest(db.files[f], answers[f]) {
      forall kind {
        DeletionsAreAnnounced(db, answers, kind);
      }
    }
  }

  ghost predicate CountsDeletions(answers: map<FileId, Assets>, ids: set<FileId>, done: ResetCounts)
    requires ids <= answers.Keys
  {
    && done.originals == |DeletedIn(ids, answers, Original)|
    && done.previews == |DeletedIn(ids, answers, PreviewImage)|
    && done.thumbs == |DeletedIn(ids, answers, Thumbnail)|
  }

  ghost predicate AllGone(db: Db, incoming: map<int, Asset>, deletions: map<FileId, Assets>)
    requires AstroUploads(db) <= incoming.Keys && AstroOnly(db) <= deletions.Keys
  {
    && (forall u :: u in AstroUploads(db) ==> !incoming[u].Unsuccessful?)
    && (forall f :: f in AstroOnly(db) ==> Succeeded(deletions[f]))
  }

  lemma GoneIsSuccess(db: Db, c: Call, jobs: Jobs.Table)
    requires c.Reset? && !ResetBlocked(db) && AstroUploads(db) <= c.incoming.Keys && AstroOnly(db) <= c.deletions.Keys
    ensures AstroOnly(db.(jobs := jobs)) == AstroOnly(db) && AstroUploads(db.(jobs := jobs)) == AstroUploads(db)
    ensures ResetTargets(db.(jobs := jobs)) == ResetTargets(db)
    ensures AllGone(db.(jobs := jobs), c.incoming, c.deletions) <==> ResetSucceeds(db, c)
    ensures UploadsGone(db.(jobs := jobs), c.incoming) <==> UploadsGone(db, c.incoming)
  {
    assert AstroOnly(db.(jobs := jobs)) == AstroOnly(db);
    assert AstroUploads(db.(jobs := jobs)) == AstroUploads(db);
    assert forall u :: u in db.uploads && db.uploads[u].service.AstroJournal? ==> u in AstroUploads(db);
  }

  lemma ResetCommits(db: Db, c: Call)
    requires c.Reset? && ResetSucceeds(db, c)
    ensures Enabled(db, c) && Batch(db, c) == {}
    ensures After(db, c) == Db(
              map[],
              db.events + [Event(AstroJournal, WholeReset, Operation.Update, None, false)],
              Jobs.Apply(Jobs.Apply(db.jobs, Jobs.FailAllWaiting(RESET_OCCURRED)), Jobs.Unlink(db.records.Keys)),
              map f | f in db.files :: if f in AstroOnly(db) then Tombstone(db.files[f]) else db.files[f],
              set l | l in db.links && !(l.service.AstroJournal? && l.fileId in ResetTargets(db)),
              map u | u in db.uploads && !db.uploads[u].service.AstroJournal? :: db.uploads[u],
              map v | v in db.visions ::
                if db.visions[v].fileId in AstroOnly(db) then db.visions[v].(deleted := true) else db.visions[v],
              db.metadata - AstroOnly(db),
              set t | t in db.tags && t.fileId !in AstroOnly(db))
  {}

  lemma SmallerSet<T>(a: set<T>, b: set<T>)
    requires a <= b
    ensures |a| <= |b|
  {
    assert b == a + (b - a);
  }

  lemma MapSize<K, V>(m: map<K, V>, removed: set<K>)
    requires removed <= m.Keys
    ensures |m - removed| == |m| - |removed|
  {
    assert (m - removed).Keys == m.Keys - removed;
    assert |m.Keys| == |m| && |(m - removed).Keys| == |m - removed|;
  }

  lemma NextUp(order: seq<int>, i: nat, ids: set<int>)
    requires StrictlyAscending(order) && i < |order| && forall x :: x in order <==> x in ids
    ensures forall x :: x in ids ==> (x <= order[i] <==> i + 1 == |order| || x < order[i + 1])
  {
    forall x | x in ids ensures x <= order[i] <==> i + 1 == |order| || x < order[i + 1] {
      var k :| 0 <= k < |order| && order[k] == x;
    }
  }

  lemma UploadsAreCounted(db: Db, after: Db)
    requires after.uploads == map u | u in db.uploads && !db.uploads[u].service.AstroJournal? :: db.uploads[u]
    ensures |AstroUploads(db)| == |db.uploads| - |after.uploads|
  {
    MapSize(db.uploads, AstroUploads(db));
    assert after.uploads == db.uploads - AstroUploads(db);
  }

  lemma FilesAreCounted(db: Db, after: Db)
    requires after.files == map f | f in db.files :: if f in AstroOnly(db) then Tombstone(db.files[f]) else db.files[f]
    ensures (set f | f in AstroOnly(db) && f in after.files && after.files[f].deleted) == AstroOnly(db)
    ensures (set f | f in Shared(db) && f in after.files && after.files[f] == db.files[f]) == Shared(db)
  {
    var shared, only := Shared(db), AstroOnly(db);
    assert shared <= db.files.Keys && only <= db.files.Keys && shared !! only;
  }

  /** What a success takes from each table is what its scope announces. */
  lemma ScopeIsCounted(db: Db, after: Db, done: ResetCounts)
    requires after.records == map[] && done.records == |db.records| && done.links == |db.links| - |after.links|
    requires after.uploads == map u | u in db.uploads && !db.uploads[u].service.AstroJournal? :: db.uploads[u]
    requires after.files == map f | f in db.files :: if f in AstroOnly(db) then Tombstone(db.files[f]) else db.files[f]
    requires done.uploads == |db.uploads| - |after.uploads|
    requires done.tombstoned == |AstroOnly(db)| && done.shared == |Shared(db)|
    ensures done.uploads == |AstroUploads(db)| && CountsRows(db, after, done)
  {
    UploadsAreCounted(db, after);
    FilesAreCounted(db, after);
  }

  class AstroSession {
    var records: Records
    var events: seq<Event>
    const queue: Jobs.PlateSolveJobRepository
    var files: map<FileId, FileRow>
    var links: set<Link>
    var uploads: map<int, UploadJob>
    var visions: map<int, VisionJob>
    var metadata: set<FileId>
    var tags: set<Tag>

    function View(): Db
      reads this, queue
    {
      Db(records, events, queue.rows, files, links, uploads, visions, metadata, tags)
    }

    ghost predicate Valid()
      reads this, queue
    {
      UniqueClients(records) && Jobs.TableForm(queue.rows)
    }

    constructor ()
      ensures Valid() && fresh(queue)
      ensures View() == Db(map[], [], map[], map[], {}, map[], map[], {}, {})
    {
      records, events, files, links := map[], [], map[], {};
      uploads, visions, metadata, tags := map[], map[], {}, {};
      queue := new Jobs.PlateSolveJobRepository();
    }

    // ----------------------------------------------------------- records

    method FindByClient(clientId: Option<int>) returns (found: Option<RecordId>)
      ensures found.Some? <==> KnownClient(records, clientId)
      ensures found.Some? ==> found.value in records && records[found.value].clientId == clientId
    {
      found := None;
      var pending := if clientId.Some? then records.Keys else {};
      while pending != {}
        invariant pending <= records.Keys
        invariant forall id :: id in records && id !in pending && clientId.Some? ==> records[id].clientId != clientId
        decreases pending
      {
        var id := Picking.Any(pending);
        if records[id].clientId == clientId {
          return Some(id);
        }
        pending := pending - {id};
      }
    }

    method ClearRepresentative(catalog: Option<string>, except: Option<RecordId>) returns (demoted: seq<RecordId>)
      modifies this`records
      ensures records == DemoteAll(old(records), RepresentativesOf(old(records), catalog, except))
      ensures Lists(demoted, RepresentativesOf(old(records), catalog, except))
    {
      ghost var ids := RepresentativesOf(records, catalog, except);
      var pending := RepresentativesOf(records, catalog, except);
      demoted := [];
      while pending != {}
        invariant pending <= ids
        invariant records == DemoteAll(old(records), ids - pending)
        invariant Lists(demoted, ids - pending)
        decreases pending
      {
        var id := Picking.Any(pending);
        var row := records[id].(representative := false);
        row := row.(revision := row.revision + 1);
        records := records[id := row];
        demoted := demoted + [id];
        pending := pending - {id};
      }
    }

    method AppendChanges(changed: seq<RecordId>)
      requires forall id :: id in changed ==> id in records
      modifies this`events
      ensures events == old(events) + Updates(changed, records)
    {
      for i := 0 to |changed|
        invariant events == old(events) + Updates(changed[..i], records)
      {
        var id := changed[i];
        events := events + [RecordEvent(id, Operation.Update, records[id].revision)];
        assert changed[..i + 1][..i] == changed[..i];
      }
      assert changed[..|changed|] == changed;
    }

    method Create(payload: NewRecord, freshId: RecordId, freshJob: JobId, now: int)
      returns (reply: Reply<RecordId>, ghost call: Call)
      requires Valid() && freshId !in records && History(events, freshId) == [] && freshJob !in queue.rows
      modifies this, queue
      ensures Valid() && call == CreateRecord(freshId, payload, Order(call), freshJob, now)
      ensures Enabled(old(View()), call) && View() == After(old(View()), call)
      ensures reply.Ok? <==> KnownClient(old(records), payload.clientId) || CreateAccepted(old(View()), payload)
      ensures reply.Ok? ==>
                reply.value in records && (payload.clientId.Some? ==> records[reply.value].clientId == payload.clientId)
      ensures !KnownClient(old(records), payload.clientId) ==>
                && (reply.FileUnknown? <==> payload.fileId !in old(files) || old(files)[payload.fileId].deleted)
                && (reply.Ok? || reply.FileUnknown? || reply.NeedsCatalog? || reply.BadEquipment?)
                && (reply.NeedsCatalog? ==> payload.representative && payload.catalog.GetOr("") == "")
                && (reply.BadEquipment? ==>
                      !payload.equipmentOk && (payload.representative ==> payload.catalog.GetOr("") != ""))
    {
      hide After, Enabled, Batch;
      ghost var before := View();
      call := CreateRecord(freshId, payload, [], freshJob, now);
      var existing := FindByClient(payload.clientId);
      if existing.Some? {
        ExistingRecordReturned(before, call, existing.value);
        var _, _ := queue.Enqueue(records[existing.value].fileId, existing, freshJob, now);
        return Ok(existing.value), call;
      }
      if payload.fileId !in files || files[payload.fileId].deleted {
        RefusedCreate(before, call);
        return FileUnknown, call;
      }
      if payload.representative && !Named(payload.catalog) {
        RefusedCreate(before, call);
        return NeedsCatalog, call;
      }
      if !payload.equipmentOk {
        RefusedCreate(before, call);
        return BadEquipment, call;
      }
      call := Insert(payload, freshId, freshJob, now);
      return Ok(freshId), call;
    }

    method Insert(payload: NewRecord, freshId: RecordId, freshJob: JobId, now: int) returns (ghost call: Call)
      requires Valid() && freshId !in records && History(events, freshId) == [] && freshJob !in queue.rows
      requires CreateAccepted(View(), payload)
      modifies this, queue
      ensures Valid() && call == CreateRecord(freshId, payload, Order(call), freshJob, now)
      ensures Enabled(old(View()), call) && View() == After(old(View()), call)
      ensures freshId in records && records[freshId].clientId == payload.clientId
    {
      ghost var before := View();
      links := links + {Link(payload.fileId, AstroJournal)};
      var demoted := [];
      if payload.representative {
        demoted := ClearRepresentative(payload.catalog, None);
      } else {
        assert DemoteAll(records, {}) == records;
      }
      SameClients(before.records, records);
      StillUnknown(before.records, records, payload.clientId);
      call := CreateRecord(freshId, payload, demoted, freshJob, now);
      InsertRow(payload, freshId, freshJob, now, demoted, call);
      CreateCommits(before, call);
    }

    /** The new row, its job and the change events, after the demotions. */
    method InsertRow(payload: NewRecord, freshId: RecordId, freshJob: JobId, now: int, demoted: seq<RecordId>,
                     ghost call: Call)
      requires Valid() && freshId !in records && freshJob !in queue.rows && !KnownClient(records, payload.clientId)
      requires call == CreateRecord(freshId, payload, demoted, freshJob, now)
      requires forall i :: i in demoted ==> i in records
      modifies this`records, this`events, queue
      ensures Valid()
      ensures queue.rows == Jobs.Apply(old(queue.rows), Jobs.Enqueue(freshJob, payload.fileId, Some(freshId), now))
      ensures records ==
                old(records)[freshId :=
                             Record(payload.fileId, payload.clientId, payload.catalog, payload.representative,
                           CreatedStatus(old(View()), call), payload.details, false, 1)]
      ensures events == old(events) + Updates(demoted, records) + [RecordEvent(freshId, Operation.Create, 1)]
    {
      ghost var before := View();
      var row := Record(payload.fileId, payload.clientId, payload.catalog, payload.representative, Free("PENDING"),
                        payload.details, false, 1);
      NewClient(records, freshId, row);
      records := records[freshId := row];
      var job, _ := queue.Enqueue(payload.fileId, Some(freshId), freshJob, now);
      CreatedShows(before, call, job);
      row := row.(solveStatus := Mirrored(queue.rows[job].status));
      NewClient(before.records, freshId, row);
      records := records[freshId := row];
      assert records == before.records[freshId := row];
      AppendChanges(demoted);
      events := events + [RecordEvent(freshId, Operation.Create, records[freshId].revision)];
    }

    method Update(id: RecordId, patch: Patch) returns (reply: Reply<RecordId>, ghost call: Call)
      requires Valid()
      modifies this, queue
      ensures Valid() && call == UpdateRecord(id, patch, Order(call))
      ensures Enabled(old(View()), call) && View() == After(old(View()), call)
      ensures reply.Ok? <==> UpdateAccepted(old(records), id, patch)
      ensures reply.Ok? ==>
                && PatchedColumns(old(records)[id], patch, records[id]) && OthersGiveWay(old(records), records, id)
                && OnlyRepresentative(records, id)
                && View() == old(View()).(records := records, events := events)
      ensures !reply.Ok? ==> View() == old(View())
      ensures reply.NotFound? <==> id !in old(records) || old(records)[id].deleted
      ensures reply.RevisionConflict? <==>
                id in old(records) && !old(records)[id].deleted && old(records)[id].revision != patch.revision
      ensures reply.RevisionConflict? ==> reply.current == old(records)[id].revision
      ensures id in old(records) && !old(records)[id].deleted && old(records)[id].revision == patch.revision ==>
                && (reply.BadEquipment? <==> !patch.equipmentOk)
                && (reply.Ok? || reply.BadEquipment? || reply.NeedsCatalog? || reply.RepresentativeConflict?)
                && (reply.RepresentativeConflict? ==> patch.solveStatus == Some(None))
                && (reply.NeedsCatalog? ==>
                      && patch.representative.GetOr(old(records)[id].representative)
                      && patch.catalog.GetOr(old(records)[id].catalog).GetOr("") == "")
    {
      hide After, Enabled, Batch, PatchedColumns, OthersGiveWay, OnlyRepresentative;
      ghost var before := View();
      call := UpdateRecord(id, patch, []);
      if id !in records || records[id].deleted {
        RefusedUpdate(before, call);
        return NotFound, call;
      }
      var record := records[id];
      if record.revision != patch.revision {
        RefusedUpdate(before, call);
        return RevisionConflict(record.revision), call;
      }
      if !patch.equipmentOk {
        RefusedUpdate(before, call);
        return BadEquipment, call;
      }
      var catalog := patch.catalog.GetOr(record.catalog);
      var representative := patch.representative.GetOr(record.representative);
      if representative && !Named(catalog) {
        RefusedUpdate(before, call);
        return NeedsCatalog, call;
      }
      var saved := records;
      var demoted := [];
      if representative {
        demoted := ClearRepresentative(catalog, Some(id));
      } else {
        assert DemoteAll(records, {}) == records;
      }
      if patch.solveStatus == Some(None) {
        records := saved;  // the column refuses null: roll back
        RefusedUpdate(before, call);
        return RepresentativeConflict, call;
      }
      call := WritePatch(id, patch, catalog, representative, demoted, saved);
      PatchWrites(before, call);
      return Ok(id), call;
    }

    /** `update_if_revision` and the change events, after the demotions. */
    method WritePatch(id: RecordId, patch: Patch, catalog: Option<string>, representative: bool, demoted: seq<RecordId>,
                      ghost earlier: Records)
      returns (ghost call: Call)
      requires UpdateAccepted(earlier, id, patch) && UniqueClients(earlier)
      requires catalog == PatchedCatalog(earlier[id], patch)
      requires representative == PatchedRepresentative(earlier[id], patch)
      requires var ids := DemotedBy(earlier, catalog, representative, Some(id));
               records == DemoteAll(earlier, ids) && Lists(demoted, ids)
      modifies this`records, this`events
      ensures UniqueClients(records) && call == UpdateRecord(id, patch, demoted)
      ensures var before := old(View()).(records := earlier); Enabled(before, call) && View() == After(before, call)
    {
      ghost var before := View().(records := earlier);
      call := UpdateRecord(id, patch, demoted);
      ghost var ids := DemotedBy(earlier, catalog, representative, Some(id));
      PatchKeepsClients(earlier, ids, id, Patched(earlier[id], patch));
      UpdateCommits(before, call);
      assert id !in ids && records[id] == earlier[id];
      PatchRow(id, patch, catalog, representative, demoted);
    }

    method PatchRow(id: RecordId, patch: Patch, catalog: Option<string>, representative: bool, demoted: seq<RecordId>)
      requires id in records && patch.solveStatus != Some(None) && forall i :: i in demoted ==> i in records
      requires patch.revision == records[id].revision
      requires catalog == PatchedCatalog(records[id], patch)
      requires representative == PatchedRepresentative(records[id], patch)
      modifies this`records, this`events
      ensures records == old(records)[id := Patched(old(records)[id], patch)]
      ensures events ==
                old(events) + Updates(demoted, records) + [RecordEvent(id, Operation.Update, patch.revision + 1)]
    {
      var row := records[id].(catalog := catalog, representative := representative, revision := patch.revision + 1);
      if patch.solveStatus.Some? {
        row := row.(solveStatus := patch.solveStatus.value.value);
      }
      if patch.details.Some? {
        row := row.(details := patch.details.value);
      }
      records := records[id := row];
      AppendChanges(demoted);
      events := events + [RecordEvent(id, Operation.Update, records[id].revision)];
    }

    /** The first transaction of a deletion; the clean-up is a second one. */
    method SoftDelete(id: RecordId) returns (reply: Reply<RecordId>, ghost call: Call)
      requires Valid()
      modifies this, queue
      ensures Valid() && call == DeleteRecord(id)
      ensures Enabled(old(View()), call) && View() == After(old(View()), call)
      ensures reply == if id in old(records) then Ok(id) else NotFound
    {
      ghost var before := View();
      call := DeleteRecord(id);
      DerivedRowsStay(before, call);
      if id !in records {
        return NotFound, call;
      }
      if !records[id].deleted {
        var row := records[id].(deleted := true);
        records := records[id := row.(revision := row.revision + 1)];
        assert records == RecordsAfter(before, call);
        SameClients(before.records, records);
        FailWaitingIfFileUnreferenced(records[id].fileId);
        events := events + [RecordEvent(id, Operation.Delete, records[id].revision)];
      }
      return Ok(id), call;
    }

    method FailWaitingIfFileUnreferenced(fileId: FileId)
      requires Jobs.TableForm(queue.rows)
      modifies queue
      ensures Jobs.TableForm(queue.rows)
      ensures queue.rows == if Referenced(records, fileId) then old(queue.rows)
                            else Jobs.Apply(old(queue.rows), Jobs.FailWaiting(fileId, RECORD_DELETED))
    {
      if exists id :: id in records && records[id].fileId == fileId && !records[id].deleted {
        return;
      }
      Jobs.FormPreserved(queue.rows, Jobs.FailWaiting(fileId, RECORD_DELETED));
      var _ := queue.FailWaitingForFile(fileId, RECORD_DELETED);
    }

    // ------------------------------------------------------------- queue

    method SyncObservationStatus(fileId: FileId, status: SolveStatus) returns (changed: seq<RecordId>)
      modifies this`records, this`events
      ensures records == StatusAll(old(records), OutOfStep(old(records), fileId, status), status)
      ensures Lists(changed, OutOfStep(old(records), fileId, status))
      ensures forall id :: id in changed ==> id in records
      ensures events == old(events) + Updates(changed, records)
    {
      ghost var before := records;
      ghost var done: set<RecordId> := {};
      var pending := set id | id in records && records[id].fileId == fileId && !records[id].deleted;
      ghost var all := pending;
      changed := [];
      assert forall id :: id in all <==> id in before && before[id].fileId == fileId && !before[id].deleted;
      assert StatusAll(records, {}, status) == records;
      while pending != {}
        invariant pending <= all && done <= all && done !! pending
        invariant forall id :: id in done ==> before[id].solveStatus != status
        invariant forall id :: id in all && id !in pending && before[id].solveStatus != status ==> id in done
        invariant records == StatusAll(before, done, status)
        invariant Lists(changed, done)
        invariant events == old(events) + Updates(changed, records)
        decreases pending
      {
        var id := Picking.Any(pending);
        pending := pending - {id};
        if records[id].solveStatus != status {
          StatusOneMore(before, done, id, status);
          Announce(id, status, changed);
          changed := changed + [id];
          done := done + {id};
        }
      }
      forall id ensures id in done <==> id in OutOfStep(before, fileId, status) {
        assert id in all <==> id in before && before[id].fileId == fileId && !before[id].deleted;
      }
    }

    /** One record takes the status and announces its new revision. */
    method Announce(id: RecordId, status: SolveStatus, ghost changed: seq<RecordId>)
      requires id in records && id !in changed && forall i :: i in changed ==> i in records
      modifies this`records, this`events
      ensures records == old(records)[id := WithStatus(old(records)[id], status)]
      ensures events == old(events) + [RecordEvent(id, Operation.Update, records[id].revision)]
      ensures forall prefix :: old(events) == prefix + Updates(changed, old(records)) ==>
                events == prefix + Updates(changed + [id], records)
    {
      var row := records[id].(solveStatus := status);
      row := row.(revision := row.revision + 1);
      records := records[id := row];
      events := events + [RecordEvent(id, Operation.Update, row.revision)];
      UpdatesAgree(changed, old(records), records);
      assert (changed + [id])[..|changed|] == changed;
      forall prefix | old(events) == prefix + Updates(changed, old(records))
        ensures events == prefix + Updates(changed + [id], records)
      {
        assert prefix + Updates(changed, records) + [RecordEvent(id, Operation.Update, row.revision)]
            == prefix + (Updates(changed, records) + [RecordEvent(id, Operation.Update, row.revision)]);
      }
    }

    method ClaimNext(worker: WorkerId, leaseSeconds: int, now: int, locked: set<JobId>)
      returns (claimed: Option<JobId>, ghost call: Call)
      requires Valid()
      modifies queue
      ensures Valid()
      ensures claimed.Some? ==> call == ClaimJob(claimed.value, worker, now, now + leaseSeconds)
      ensures claimed.Some? ==> Enabled(old(View()), call) && View() == After(old(View()), call)
      ensures claimed.None? ==> View() == old(View())
    {
      ghost var before := View();
      claimed := queue.ClaimNext(worker, leaseSeconds, now, locked);
      call := ClaimJob(claimed.GetOr(0), worker, now, now + leaseSeconds);
      if claimed.Some? {
        Jobs.FormPreserved(before.jobs, QueueOp(before, call));
        DerivedRowsStay(before, call);
      }
    }

    /** The second transaction of a claim. */
    method SyncClaimed(job: JobId) returns (ghost call: Call)
      requires Valid() && job in queue.rows
      modifies this`records, this`events
      ensures Valid() && call == SyncClaim(job, Order(call))
      ensures Enabled(old(View()), call) && View() == After(old(View()), call)
    {
      ghost var before := View();
      var changed := SyncObservationStatus(queue.rows[job].fileId, Mirrored(Jobs.Processing));
      call := SyncClaim(job, changed);
      SameClients(before.records, records);
      SyncCommits(before, call);
    }

    /** `complete`, `fail` and `requeue_transient`: the row and its records in one transaction. */
    method Release(job: JobId, worker: WorkerId, outcome: Jobs.Outcome) returns (reply: Reply<JobId>, ghost call: Call)
      requires Valid()
      modifies this, queue
      ensures Valid() && call == ReleaseJob(job, worker, outcome, Order(call))
      ensures Enabled(old(View()), call) && View() == After(old(View()), call)
      ensures reply == if job in old(queue.rows) && Jobs.Owns(old(queue.rows)[job], worker) then Ok(job) else LeaseLost
    {
      hide After, Enabled, Batch;
      ghost var before := View();
      call := ReleaseJob(job, worker, outcome, []);
      var found := Mark(job, worker, outcome);
      if !found {
        RefusedQueueCall(before, call);
        return LeaseLost, call;
      }
      var changed := SyncObservationStatus(queue.rows[job].fileId, Mirrored(queue.rows[job].status));
      call := ReleaseJob(job, worker, outcome, changed);
      SameClients(before.records, records);
      ReleaseCommits(before, call);
      return Ok(job), call;
    }

    method Mark(job: JobId, worker: WorkerId, outcome: Jobs.Outcome) returns (found: bool)
      requires Jobs.TableForm(queue.rows)
      modifies queue
      ensures found <==> job in old(queue.rows) && Jobs.Owns(old(queue.rows)[job], worker)
      ensures queue.rows == Jobs.Apply(old(queue.rows), Jobs.JobOp.Release(job, worker, outcome))
      ensures Jobs.TableForm(queue.rows)
    {
      Jobs.FormPreserved(queue.rows, Jobs.JobOp.Release(job, worker, outcome));
      match outcome {
        case Complete(providerJob, solution, wcs) =>
          found := queue.MarkCompleted(job, worker, providerJob, solution, wcs);
        case Fail(message) => found := queue.MarkFailed(job, worker, message);
        case Requeue(message) => found := queue.MarkRetryable(job, worker, message);
      }
    }

    method Retry(job: JobId) returns (reply: Reply<JobId>, ghost call: Call)
      requires Valid()
      modifies this, queue
      ensures Valid() && call == RetryJob(job, Order(call))
      ensures Enabled(old(View()), call) && View() == After(old(View()), call)
      ensures reply == if job !in old(queue.rows) then NotFound
                       else if old(queue.rows)[job].status.Failed? then Ok(job)
                       else NotFailed
    {
      ghost var before := View();
      call := RetryJob(job, []);
      Jobs.FormPreserved(before.jobs, Jobs.JobOp.Retry(job));
      if job !in queue.rows {
        RefusedQueueCall(before, call);
        return NotFound, call;
      }
      var accepted := queue.Retry(job);
      if !accepted {
        RefusedQueueCall(before, call);
        return NotFailed, call;
      }
      var changed := SyncObservationStatus(queue.rows[job].fileId, Mirrored(Jobs.Waiting));
      call := RetryJob(job, changed);
      SameClients(before.records, records);
      RetryCommits(before, call);
      return Ok(job), call;
    }

    // ----------------------------------------------------------- cleanup

    /** `assets` is what the storage answers if it is asked to delete the file's assets. */
    method CleanupFile(fileId: FileId, service: Service, assets: Assets)
      returns (status: CleanupStatus, ghost call: Call)
      requires Valid()
      modifies this
      ensures Valid() && call == Cleanup(fileId, service, assets)
      ensures status == CleanupVerdict(old(View()), fileId, service, assets)
      ensures Enabled(old(View()), call) && View() == After(old(View()), call)
    {
      ghost var before := View();
      call := Cleanup(fileId, service, assets);
      status := Verdict(fileId, service, assets);
      if status.PreservedOtherService? {
        links := links - {Link(fileId, service)};
      }
      if !status.Cleaned? {
        DerivedRowsStay(before, call);
        return;
      }
      ClearFile(fileId, service);
      CleanupCommits(before, call);
    }

    method ClearFile(fileId: FileId, service: Service)
      requires fileId in files
      modifies this`metadata, this`tags, this`visions, this`links, this`files
      ensures metadata == old(metadata) - {fileId}
      ensures tags == set t | t in old(tags) && t.fileId != fileId
      ensures visions == VisionsWithout(old(visions), fileId)
      ensures links == old(links) - {Link(fileId, service)}
      ensures files == old(files)[fileId := FileRow(true, None, None, None)]
    {
      metadata := metadata - {fileId};
      tags := set t | t in tags && t.fileId != fileId;
      visions := map v | v in visions :: if visions[v].fileId == fileId then visions[v].(deleted := true)
        else visions[v];
      links := links - {Link(fileId, service)};
      var row := files[fileId].(original := None);
      row := row.(preview := None);
      row := row.(thumb := None);
      row := row.(deleted := true);
      files := files[fileId := row];
    }

    method Verdict(fileId: FileId, service: Service, assets: Assets) returns (status: CleanupStatus)
      ensures status == CleanupVerdict(View(), fileId, service, assets)
    {
      hide HasPaths, Stored, Succeeded;
      if fileId !in files {
        return FileNotFound;
      }
      if service.AstroJournal? && exists id :: id in records && records[id].fileId == fileId && !records[id].deleted {
        return PreservedActiveRecord;
      }
      if exists l :: l in links && l.fileId == fileId && l.service != service {
        return PreservedOtherService;
      }
      if exists v :: v in visions && visions[v].fileId == fileId && !visions[v].deleted
                     && visions[v].state.Processing? {
        return PreservedProcessingVision;
      }
      if exists j :: j in queue.rows && queue.rows[j].fileId == fileId
                     && (queue.rows[j].status.Waiting? || queue.rows[j].status.Processing?) {
        return PreservedActivePlateSolve;
      }
      if files[fileId].deleted && !HasPaths(files[fileId]) {
        return AlreadyCleaned;
      }
      return if Succeeded(assets) then Cleaned else AssetDeleteFailed;
    }

    // ------------------------------------------------------------- reset

    function Preview(): (p: ResetPreview)
      reads this, queue
      ensures p.blocked <==> ResetBlocked(View())
      ensures p.processing > 0 <==> p.blocked
    {
      BlockedByProcessing(View());
      var uploading, looking := |ProcessingUploads(View())|, |ProcessingVisions(View())|;
      var processing := uploading + looking + |ProcessingSolves(View())|;
      ResetPreview(|records|, |ResetTargets(View())|, |AstroOnly(View())|, |Shared(View())|, |AstroUploads(View())|,
                  |PendingUploads(View())|, uploading, looking, processing,
                  |Announced(View(), Original)|, |Announced(View(), PreviewImage)|, |Announced(View(), Thumbnail)|,
                  processing > 0)
    }

    /** The preview's numbers are sizes of sets of rows, chosen by their columns alone. */
    lemma PreviewCounts()
      ensures
        var p, db := Preview(), View();
        && p.records == |records|
        && p.uploads == |set u | u in db.uploads && db.uploads[u].service == AstroJournal|
        && p.pendingUploads
        == |set u | u in db.uploads && db.uploads[u].service == AstroJournal && db.uploads[u].state == JobState.Waiting|
        && CountsProcessing(db, p.processingUploads, p.processingVisions,
                            p.processing - p.processingUploads - p.processingVisions)
        && p.astroFiles == |set f | f in db.files && InScope(db, f)|
        && p.astroOnly == |set f | f in db.files && AstroAlone(db, f)|
        && p.shared == |set f | f in db.files && InScope(db, f) && OtherLink(db, f)|
        && p.originals == |set f | f in db.files && AstroAlone(db, f) && db.files[f].original.GetOr("") != ""|
        && p.previews == |set f | f in db.files && AstroAlone(db, f) && db.files[f].preview.GetOr("") != ""|
        && p.thumbs == |set f | f in db.files && AstroAlone(db, f) && db.files[f].thumb.GetOr("") != ""|
    {
      hide ResetTargets, AstroOnly, Shared, AstroUploads, PendingUploads, Announced, InScope, AstroAlone, OtherLink,
        CountsProcessing, ProcessingUploads, ProcessingVisions, ProcessingSolves;
      ProcessingIsCounted(View());
      ScopeSets(View());
      UploadSets(View());
      AnnouncedSets(View());
    }

    method DeleteUploadIncomingAssets(answers: map<int, Asset>) returns (ok: bool)
      requires AstroUploads(View()) <= answers.Keys
      ensures ok <==> forall u :: u in AstroUploads(View()) ==> !answers[u].Unsuccessful?
    {
      ghost var all := AstroUploads(View());
      var pending := set u | u in uploads && uploads[u].service.AstroJournal?;
      while pending != {}
        invariant pending <= all
        invariant forall u :: u in all && u !in pending ==> !answers[u].Unsuccessful?
        decreases pending
      {
        var u := Picking.Any(pending);
        if answers[u].Unsuccessful? {
          return false;
        }
        pending := pending - {u};
      }
      return true;
    }

    /** Asks in ascending order of the ids and stops at the first file whose assets were not all deleted. */
    method DeleteResetAssets(ids: set<FileId>, answers: map<FileId, Assets>)
      returns (ok: bool, originals: nat, previews: nat, thumbs: nat, ghost asked: set<FileId>)
      requires ids <= answers.Keys
      ensures ok <==> forall f :: f in ids ==> Succeeded(answers[f])
      ensures forall f :: f in asked <==> Reaches(ids, answers, f)
      ensures ok ==> originals == |DeletedIn(ids, answers, Original)|
      ensures ok ==> previews == |DeletedIn(ids, answers, PreviewImage)|
      ensures ok ==> thumbs == |DeletedIn(ids, answers, Thumbnail)|
    {
      hide DeletedIn, Reaches, Succeeded;
      StartsEmpty(answers);
      originals, previews, thumbs, asked := 0, 0, 0, {};
      var order := Ascending(ids);
      var i := 0;
      while i < |order|
        invariant 0 <= i <= |order| && asked <= ids
        invariant forall x :: x in ids ==> (x in asked <==> i == |order| || x < order[i])
        invariant forall f :: f in asked ==> Succeeded(answers[f])
        invariant originals == |DeletedIn(asked, answers, Original)|
        invariant previews == |DeletedIn(asked, answers, PreviewImage)|
        invariant thumbs == |DeletedIn(asked, answers, Thumbnail)|
      {
        var f := order[i];
        assert f in order;
        if !Succeeded(answers[f]) {
          asked := asked + {f};
          ReachedUpTo(ids, answers, f);
          return false, originals, previews, thumbs, asked;
        }
        OneMoreFile(asked, f, answers, Original);
        OneMoreFile(asked, f, answers, PreviewImage);
        OneMoreFile(asked, f, answers, Thumbnail);
        NextUp(order, i, ids);
        asked := asked + {f};
        originals := originals + if answers[f].original.Deleted? then 1 else 0;
        previews := previews + if answers[f].preview.Deleted? then 1 else 0;
        thumbs := thumbs + if answers[f].thumb.Deleted? then 1 else 0;
        i := i + 1;
      }
      assert asked == ids;
      AllReached(ids, answers);
      ok := true;
    }

    /** Incoming uploads first, then the files' assets; the first refusal ends it. */
    method DeleteAssets(incoming: map<int, Asset>, deletions: map<FileId, Assets>)
      returns (ok: bool, originals: nat, previews: nat, thumbs: nat, ghost asked: set<FileId>)
      requires AstroUploads(View()) <= incoming.Keys && AstroOnly(View()) <= deletions.Keys
      ensures ok <==> AllGone(View(), incoming, deletions)
      ensures forall f :: f in asked <==> UploadsGone(View(), incoming) && Reaches(AstroOnly(View()), deletions, f)
      ensures ok ==> originals == |DeletedIn(AstroOnly(View()), deletions, Original)|
      ensures ok ==> previews == |DeletedIn(AstroOnly(View()), deletions, PreviewImage)|
      ensures ok ==> thumbs == |DeletedIn(AstroOnly(View()), deletions, Thumbnail)|
    {
      ok := DeleteUploadIncomingAssets(incoming);
      if !ok {
        return false, 0, 0, 0, {};
      }
      ok, originals, previews, thumbs, asked := DeleteResetAssets(AstroOnly(View()), deletions);
    }

    /** All or nothing: a blocked or failed Reset leaves every row as it was. */
    method ExecuteReset(incoming: map<int, Asset>, deletions: map<FileId, Assets>)
      returns (reply: ResetReply, ghost call: Call, ghost asked: set<FileId>)
      requires Valid() && AstroUploads(View()) <= incoming.Keys && AstroOnly(View()) <= deletions.Keys
      modifies this, queue
      ensures Valid() && call == Reset(incoming, deletions)
      ensures Enabled(old(View()), call) && View() == After(old(View()), call)
      ensures forall f :: f in asked <==> DeletesAssets(old(View()), call, f)
      ensures
        var db := old(View());
        var uploading := |set u | u in db.uploads && db.uploads[u].service.AstroJournal?
                                  && db.uploads[u].state.Processing?|;
        var looking := |set v | v in db.visions && AstroAlone(db, db.visions[v].fileId) && !db.visions[v].deleted
                                && db.visions[v].state.Processing?|;
        var solving := |set j | j in db.jobs && db.jobs[j].status.Processing?|;
        && (reply.ResetRefused? <==> uploading + looking + solving != 0)
        && (reply.ResetRefused? ==> reply.uploads == uploading && reply.visions == looking)
      ensures !reply.ResetRefused? ==> (reply.ResetDone? <==> NothingRefused(old(View()), incoming, deletions))
      ensures reply.ResetDone? <==> ResetSucceeds(old(View()), call)
      ensures reply.ResetDone? ==>
                Faithful(old(Preview()), reply.counts) && CountsRows(old(View()), View(), reply.counts)
      ensures reply.ResetDone? ==> CountsDeletions(deletions, AstroOnly(old(View())), reply.counts)
      ensures reply.ResetDone? && (forall f :: f in AstroOnly(old(View())) ==> Honest(old(files)[f], deletions[f])) ==>
                && reply.counts.originals <= old(Preview()).originals
                && reply.counts.previews <= old(Preview()).previews
                && reply.counts.thumbs <= old(Preview()).thumbs
    {
      hide After, ResetSucceeds, ResetBlocked, NothingRefused, AstroAlone, Shared, Honest;
      ghost var before := View();
      call := Reset(incoming, deletions);
      asked := {};
      var preview := Preview();
      ProcessingIsCounted(before);
      SuccessIs(before, call);
      if preview.blocked {
        FailureChangesNothing(before, call);
        return ResetRefused(preview.processingUploads, preview.processingVisions), call, asked;
      }
      var saved := queue.rows;
      FailAllWaiting();
      GoneIsSuccess(before, call, queue.rows);
      var ok, originals, previews, thumbs;
      ok, originals, previews, thumbs, asked := DeleteAssets(incoming, deletions);
      if !ok {
        queue.rows := saved;  // roll back
        FailureChangesNothing(before, call);
        return CleanupFailed, call, asked;
      }
      var counts := CommitReset(before, call, originals, previews, thumbs);
      HonestDeletions(before, deletions);
      return ResetDone(counts), call, asked;
    }

    /** The rows' part of a Reset whose assets are gone, and its single event. */
    method CommitReset(ghost before: Db, ghost call: Call, originals: nat, previews: nat, thumbs: nat)
      returns (counts: ResetCounts)
      requires Valid() && call.Reset? && ResetSucceeds(before, call)
      requires AstroUploads(before) <= call.incoming.Keys && AstroOnly(before) <= call.deletions.Keys
      requires View() == before.(jobs := Jobs.Apply(before.jobs, Jobs.FailAllWaiting(RESET_OCCURRED)))
      modifies this, queue
      ensures Valid() && Enabled(before, call) && View() == After(before, call)
      ensures counts.records == |before.records| && counts.uploads == |AstroUploads(before)|
      ensures counts.tombstoned == |AstroOnly(before)| && counts.shared == |Shared(before)|
      ensures CountsRows(before, View(), counts)
      ensures counts.originals == originals && counts.previews == previews && counts.thumbs == thumbs
    {
      var astroOnly, targets, sharedFiles := AstroOnly(View()), ResetTargets(View()), Shared(View());
      GoneIsSuccess(before, call, queue.rows);
      ResetCommits(before, call);
      var deletedRecords, removedLinks, deletedUploads := StageReset(astroOnly, targets);
      events := events + [Event(AstroJournal, WholeReset, Operation.Update, None, false)];
      counts := ResetCounts(deletedRecords, removedLinks, deletedUploads, |astroOnly|, |sharedFiles|,
                            originals, previews, thumbs);
      ScopeIsCounted(before, View(), counts);
    }

    method FailAllWaiting()
      requires Jobs.TableForm(queue.rows)
      modifies queue
      ensures queue.rows == Jobs.Apply(old(queue.rows), Jobs.FailAllWaiting(RESET_OCCURRED))
      ensures Jobs.TableForm(queue.rows)
    {
      Jobs.FormPreserved(queue.rows, Jobs.FailAllWaiting(RESET_OCCURRED));
      queue.rows := map i | i in queue.rows :: Jobs.FailedWaitingRow(queue.rows[i], RESET_OCCURRED);
    }

    /** Hard deletion of all records; the jobs' record keys become null. */
    method DeleteRecords() returns (deleted: nat)
      requires Jobs.TableForm(queue.rows)
      modifies this`records, queue
      ensures records == map[] && deleted == |old(records)| - |records|
      ensures queue.rows == Jobs.Apply(old(queue.rows), Jobs.Unlink(old(records).Keys)) && Jobs.TableForm(queue.rows)
    {
      Jobs.FormPreserved(queue.rows, Jobs.Unlink(records.Keys));
      queue.rows := map i | i in queue.rows :: Jobs.UnlinkedRow(queue.rows[i], records.Keys);
      deleted := |records|;
      records := map[];
    }

    /** The Astro-only files' data go, and AstroJournal's links of the targets. */
    method StageDatabaseCleanup(astroOnly: set<FileId>, targets: set<FileId>) returns (removedLinks: nat)
      modifies this`metadata, this`tags, this`visions, this`files, this`links
      ensures metadata == old(metadata) - astroOnly
      ensures files == map f | f in old(files) :: if f in astroOnly then Tombstone(old(files)[f]) else old(files)[f]
      ensures tags == set t | t in old(tags) && t.fileId !in astroOnly
      ensures visions == map v | v in old(visions) ::
                if old(visions)[v].fileId in astroOnly then old(visions)[v].(deleted := true) else old(visions)[v]
      ensures links == set l | l in old(links) && !(l.service.AstroJournal? && l.fileId in targets)
      ensures removedLinks == |old(links)| - |links|
    {
      metadata := metadata - astroOnly;
      tags := set t | t in tags && t.fileId !in astroOnly;
      visions := map v | v in visions ::
        if visions[v].fileId in astroOnly then visions[v].(deleted := true) else visions[v];
      files := map f | f in files :: if f in astroOnly then FileRow(true, None, None, None) else files[f];
      var removed := set l | l in links && l.fileId in targets && l.service.AstroJournal?;
      links := links - removed;
      removedLinks := |removed|;
    }

    method DeleteUploads() returns (deleted: nat)
      modifies this`uploads
      ensures uploads == map u | u in old(uploads) && !old(uploads)[u].service.AstroJournal? :: old(uploads)[u]
      ensures deleted == |old(uploads)| - |uploads|
    {
      var removed := set u | u in uploads && uploads[u].service.AstroJournal?;
      MapSize(uploads, removed);
      uploads := uploads - removed;
      deleted := |removed|;
    }

    /** Records, Astro-only files, links and upload jobs go; the jobs' record keys become null. */
    method StageReset(astroOnly: set<FileId>, targets: set<FileId>)
      returns (deletedRecords: nat, removedLinks: nat, deletedUploads: nat)
      requires Jobs.TableForm(queue.rows)
      modifies this`records, this`metadata, this`tags, this`visions, this`files, this`links, this`uploads, queue
      ensures records == map[] && metadata == old(metadata) - astroOnly
      ensures queue.rows == Jobs.Apply(old(queue.rows), Jobs.Unlink(old(records).Keys)) && Jobs.TableForm(queue.rows)
      ensures files == map f | f in old(files) :: if f in astroOnly then Tombstone(old(files)[f]) else old(files)[f]
      ensures tags == set t | t in old(tags) && t.fileId !in astroOnly
      ensures visions == map v | v in old(visions) ::
                if old(visions)[v].fileId in astroOnly then old(visions)[v].(deleted := true) else old(visions)[v]
      ensures links == set l | l in old(links) && !(l.service.AstroJournal? && l.fileId in targets)
      ensures uploads == map u | u in old(uploads) && !old(uploads)[u].service.AstroJournal? :: old(uploads)[u]
      ensures deletedRecords == |old(records)| - |records|
      ensures removedLinks == |old(links)| - |links|
      ensures deletedUploads == |old(uploads)| - |uploads|
    {
      deletedRecords := DeleteRecords();
      removedLinks := StageDatabaseCleanup(astroOnly, targets);
      deletedUploads := DeleteUploads();
    }
  }
}
