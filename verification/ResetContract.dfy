/**
 * AstroJournal Reset: the preview's numbers, and what a successful, a blocked and a failed execution
 * leave behind.
 */
module ResetContract {
  import opened Options
  import opened ChangeFeed
  import opened ObservationRecords
  import opened AstroStore
  import opened AstroInvariants
  import Jobs = PlateSolveJobs
  import Picking

  function AstroUploads(db: Db): set<int> {
    set u | u in db.uploads && db.uploads[u].service.AstroJournal?
  }

  function Shared(db: Db): set<FileId> {
    ResetTargets(db) - AstroOnly(db)
  }

  function PendingUploads(db: Db): set<int> {
    set u | u in db.uploads && db.uploads[u].service.AstroJournal? && db.uploads[u].state.Waiting?
  }

  function ProcessingUploads(db: Db): set<int> {
    set u | u in db.uploads && db.uploads[u].service.AstroJournal? && db.uploads[u].state.Processing?
  }

  function ProcessingVisions(db: Db): set<int> {
    set v | v in db.visions && db.visions[v].fileId in AstroOnly(db) && !db.visions[v].deleted
            && db.visions[v].state.Processing?
  }

  function ProcessingSolves(db: Db): set<JobId> {
    set j | j in db.jobs && db.jobs[j].status.Processing?
  }

  // --------------------------------------------------- the scope on links and records

  /** AstroJournal links the existing file or has a record of it. */
  ghost predicate InScope(db: Db, f: FileId) {
    f in db.files && (Link(f, AstroJournal) in db.links || exists id :: id in db.records && db.records[id].fileId == f)
  }

  ghost predicate OtherLink(db: Db, f: FileId) {
    exists s: Service :: s != AstroJournal && Link(f, s) in db.links
  }

  ghost predicate AstroAlone(db: Db, f: FileId) {
    InScope(db, f) && !OtherLink(db, f)
  }

  /** The three sets of a Reset's scope, and what makes it refuse to start. */
  lemma ScopeIs(db: Db)
    ensures forall f :: f in ResetTargets(db) <==> InScope(db, f)
    ensures forall f :: f in AstroOnly(db) <==> AstroAlone(db, f)
    ensures forall f :: f in Shared(db) <==> InScope(db, f) && OtherLink(db, f)
  {
    forall f ensures LinkedElsewhere(db, f, AstroJournal) <==> OtherLink(db, f) {
      if LinkedElsewhere(db, f, AstroJournal) {
        var l :| l in db.links && l.fileId == f && l.service != AstroJournal;
        assert Link(f, l.service) in db.links;
      }
    }
  }

  /** The numbers of the preview, on the tables' columns. */
  ghost predicate CountsProcessing(db: Db, uploads: nat, visions: nat, solves: nat) {
    && uploads == |set u | u in db.uploads && db.uploads[u].service.AstroJournal? && db.uploads[u].state.Processing?|
    && visions == |set v | v in db.visions && AstroAlone(db, db.visions[v].fileId) && !db.visions[v].deleted
                          && db.visions[v].state.Processing?|
    && solves == |set j | j in db.jobs && db.jobs[j].status.Processing?|
  }

  lemma ProcessingIsCounted(db: Db)
    ensures CountsProcessing(db, |ProcessingUploads(db)|, |ProcessingVisions(db)|, |ProcessingSolves(db)|)
  {
    ScopeIs(db);
    assert ProcessingUploads(db)
        == set u | u in db.uploads && db.uploads[u].service.AstroJournal? && db.uploads[u].state.Processing?;
    assert ProcessingVisions(db)
        == set v | v in db.visions && AstroAlone(db, db.visions[v].fileId) && !db.visions[v].deleted
                   && db.visions[v].state.Processing?;
  }

  /** A Reset is blocked exactly if the processing uploads, visions and solve jobs are not zero in sum. */
  lemma BlockedByProcessing(db: Db)
    ensures ResetBlocked(db) <==> |ProcessingUploads(db)| + |ProcessingVisions(db)| + |ProcessingSolves(db)| > 0
  {
    if ProcessingUploads(db) != {} {
      var u := Picking.Member(ProcessingUploads(db));
      assert db.uploads[u].service.AstroJournal? && db.uploads[u].state.Processing?;
    }
    if ProcessingVisions(db) != {} {
      var v := Picking.Member(ProcessingVisions(db));
      assert db.visions[v].fileId in AstroOnly(db) && !db.visions[v].deleted && db.visions[v].state.Processing?;
    }
    if ProcessingSolves(db) != {} {
      var j := Picking.Member(ProcessingSolves(db));
      assert db.jobs[j].status.Processing?;
    }
    assert forall u :: u in db.uploads && db.uploads[u].service.AstroJournal? && db.uploads[u].state.Processing? ==>
             u in ProcessingUploads(db);
    assert forall v :: (&& v in db.visions && db.visions[v].fileId in AstroOnly(db) && !db.visions[v].deleted
                        && db.visions[v].state.Processing?) ==> v in ProcessingVisions(db);
    assert forall j :: j in db.jobs && db.jobs[j].status.Processing? ==> j in ProcessingSolves(db);
  }

  datatype Kind = Original | PreviewImage | Thumbnail

  function PathOf(f: FileRow, kind: Kind): Option<string> {
    match kind
    case Original => f.original
    case PreviewImage => f.preview
    case Thumbnail => f.thumb
  }

  function AnswerOf(a: Assets, kind: Kind): Asset {
    match kind
    case Original => a.original
    case PreviewImage => a.preview
    case Thumbnail => a.thumb
  }

  /** The Astro-only files with a stored path: what the preview announces as physical deletions. */
  function Announced(db: Db, kind: Kind): set<FileId> {
    set f | f in AstroOnly(db) && Stored(PathOf(db.files[f], kind))
  }

  /** The sets behind the preview's numbers, on the tables' columns. */
  lemma ScopeSets(db: Db)
    ensures ResetTargets(db) == set f | f in db.files && InScope(db, f)
    ensures AstroOnly(db) == set f | f in db.files && AstroAlone(db, f)
    ensures Shared(db) == set f | f in db.files && InScope(db, f) && OtherLink(db, f)
  {
    ScopeIs(db);
  }

  lemma UploadSets(db: Db)
    ensures AstroUploads(db) == set u | u in db.uploads && db.uploads[u].service == AstroJournal
    ensures PendingUploads(db)
         == set u | u in db.uploads && db.uploads[u].service == AstroJournal && db.uploads[u].state == JobState.Waiting
  {}

  lemma AnnouncedSets(db: Db)
    ensures Announced(db, Original)
         == set f | f in db.files && AstroAlone(db, f) && db.files[f].original.GetOr("") != ""
    ensures Announced(db, PreviewImage)
         == set f | f in db.files && AstroAlone(db, f) && db.files[f].preview.GetOr("") != ""
    ensures Announced(db, Thumbnail)
         == set f | f in db.files && AstroAlone(db, f) && db.files[f].thumb.GetOr("") != ""
  {
    ScopeIs(db);
    forall f, kind ensures f in Announced(db, kind) <==> AstroAlone(db, f) && Stored(PathOf(db.files[f], kind)) {}
  }

  /** What becomes of a solve job: a waiting one fails, and the link to its record is cut. */
  ghost predicate JobAfterReset(before: Jobs.Job, after: Jobs.Job, records: Records) {
    after == before.(
      status := if before.status.Waiting? then Jobs.Failed else before.status,
      lastError := if before.status.Waiting? then Some("AstroJournal Reset occurred before Plate Solve started")
        else before.lastError,
      recordId := if before.recordId.Some? && before.recordId.value in records then None else before.recordId)
  }

  /** The storage deletes every upload's incoming asset, and all three assets of every Astro-only file. */
  ghost predicate NothingRefused(db: Db, incoming: map<int, Asset>, deletions: map<FileId, Assets>) {
    && (forall u :: u in db.uploads && db.uploads[u].service == AstroJournal ==>
          u in incoming && incoming[u] != Unsuccessful)
    && (forall f :: AstroAlone(db, f) ==>
          && f in deletions && deletions[f].original != Unsuccessful && deletions[f].preview != Unsuccessful
          && deletions[f].thumb != Unsuccessful)
  }

  lemma SuccessIs(db: Db, c: Call)
    requires c.Reset?
    ensures ResetSucceeds(db, c) <==> !ResetBlocked(db) && NothingRefused(db, c.incoming, c.deletions)
  {
    ScopeIs(db);
  }

  /** A successful execution clears AstroJournal and nothing else. */
  lemma SuccessClearsAstroJournal(db: Db, c: Call)
    requires FilesInv(db) && Enabled(db, c) && c.Reset? && ResetSucceeds(db, c)
    ensures
      var db' := After(db, c);
      && db'.records == map[] && AstroUploads(db') == {}
      && (forall l :: l in db'.links <==> l in db.links && !l.service.AstroJournal?)
      && (forall j :: j in db'.jobs ==> !db'.jobs[j].status.Waiting? && !db'.jobs[j].status.Processing?)
      && db'.files.Keys == db.files.Keys
      && (forall f :: f in AstroOnly(db) ==> db'.files[f] == FileRow(true, None, None, None))
      && (forall f :: f in db.files && f !in AstroOnly(db) ==> db'.files[f] == db.files[f])
  {
    var db' := After(db, c);
    forall l | l in db.links && l.service.AstroJournal? ensures l.fileId in ResetTargets(db) {
      assert Linked(db, l.fileId, AstroJournal);
    }
    forall j | j in db'.jobs ensures !db'.jobs[j].status.Waiting? && !db'.jobs[j].status.Processing? {
      assert j in db.jobs && !db.jobs[j].status.Processing?;
    }
  }

  /** Nothing that was being processed is taken away: no upload, no vision job, no solve job. */
  lemma NothingRunningIsLost(db: Db, c: Call)
    requires Enabled(db, c) && c.Reset?
    ensures forall u :: u in db.uploads && u !in After(db, c).uploads ==> db.uploads[u].state != JobState.Processing
    ensures After(db, c).visions.Keys == db.visions.Keys
    ensures forall v :: v in db.visions && After(db, c).visions[v] != db.visions[v] ==>
              db.visions[v].state != JobState.Processing && After(db, c).visions[v] == db.visions[v].(deleted := true)
    ensures forall j :: j in db.jobs && db.jobs[j].status.Processing? ==>
              j in After(db, c).jobs && After(db, c).jobs[j] == db.jobs[j]
  {
    if !ResetSucceeds(db, c) {
      FailureChangesNothing(db, c);
    }
  }

  /** Each table after a successful execution, on links and records. */
  lemma ResetWrites(db: Db, c: Call)
    requires Enabled(db, c) && c.Reset? && ResetSucceeds(db, c)
    ensures
      var db' := After(db, c);
      && db'.records == map[]
      && db'.events == db.events + [Event(AstroJournal, WholeReset, Operation.Update, None, false)]
      && db'.files.Keys == db.files.Keys
      && (forall f :: f in db.files ==>
            db'.files[f] == if AstroAlone(db, f) then FileRow(true, None, None, None) else db.files[f])
      && (forall l :: l in db'.links <==> l in db.links && (l.service == AstroJournal ==> !InScope(db, l.fileId)))
      && (forall u :: u in db'.uploads <==> u in db.uploads && db.uploads[u].service != AstroJournal)
      && (forall u :: u in db'.uploads ==> db'.uploads[u] == db.uploads[u])
      && db'.visions.Keys == db.visions.Keys
      && (forall v :: v in db.visions ==>
            db'.visions[v] == if AstroAlone(db, db.visions[v].fileId) then db.visions[v].(deleted := true)
                              else db.visions[v])
      && (forall f :: f in db'.metadata <==> f in db.metadata && !AstroAlone(db, f))
      && (forall t :: t in db'.tags <==> t in db.tags && !AstroAlone(db, t.fileId))
      && db'.jobs.Keys == db.jobs.Keys
      && (forall j :: j in db.jobs ==> JobAfterReset(db.jobs[j], db'.jobs[j], db.records))
  {
    ScopeIs(db);
  }

  /** A shared file loses its AstroJournal link and keeps everything else. */
  lemma SharedFilesLoseTheLinkOnly(db: Db, c: Call, f: FileId)
    requires FilesInv(db) && Enabled(db, c) && c.Reset? && ResetSucceeds(db, c) && f in Shared(db)
    ensures
      var db' := After(db, c);
      && db'.files[f] == db.files[f]
      && (f in db'.metadata <==> f in db.metadata)
      && (forall t: Tag :: t.fileId == f ==> (t in db'.tags <==> t in db.tags))
      && (forall v :: v in db.visions && db.visions[v].fileId == f ==>
          v in db'.visions && db'.visions[v] == db.visions[v])
      && (forall s :: Link(f, s) in db'.links <==> Link(f, s) in db.links && s != AstroJournal)
      && exists l :: l in db'.links && l.fileId == f
  {
    SuccessClearsAstroJournal(db, c);
    var l :| l in db.links && l.fileId == f && l.service != AstroJournal;
    assert l in After(db, c).links;
  }

  /** A blocked or failed execution commits nothing. */
  lemma FailureChangesNothing(db: Db, c: Call)
    requires Enabled(db, c) && c.Reset? && !ResetSucceeds(db, c)
    ensures After(db, c) == db
  {
    var db' := After(db, c);
    assert db'.visions == db.visions;
    assert db'.tags == db.tags;
    assert db'.metadata == db.metadata;
    assert db'.events == db.events;
  }

  /**
   * No link and no record is left, so a further Reset finds no file in its scope; and only a
   * success announces itself in the feed.
   */
  lemma ResetIsFinal(db: Db, c: Call)
    requires FilesInv(db) && Enabled(db, c) && c.Reset?
    ensures ResetSucceeds(db, c) ==> ResetTargets(After(db, c)) == {} && !ResetBlocked(After(db, c))
    ensures ResetSucceeds(db, c) <==> |After(db, c).events| == |db.events| + 1
  {
    if ResetSucceeds(db, c) {
      SuccessClearsAstroJournal(db, c);
    }
  }
}
