/**
 * The database behind AstroJournal: observation records with their feed, the Plate Solve queue, shared
 * files with their service links, upload and vision jobs. One `Call` is one service call in one
 * transaction; `After` is the state it commits. A rejected or failing call commits nothing.
 */
module AstroStore {
  import opened Options
  import Jobs = PlateSolveJobs
  import opened ChangeFeed
  import opened ObservationRecords

  type JobId = Jobs.JobId
  type WorkerId = Jobs.WorkerId

  datatype FileRow = FileRow(deleted: bool, original: Option<string>, preview: Option<string>, thumb: Option<string>)

  datatype JobState = Waiting | Processing | Completed | Failed

  datatype UploadJob = UploadJob(service: Service, state: JobState, incoming: string)

  datatype VisionJob = VisionJob(fileId: FileId, state: JobState, deleted: bool)

  datatype Link = Link(fileId: FileId, service: Service)

  datatype Tag = Tag(fileId: FileId, name: string)

  datatype Db = Db(
    records: Records,
    events: seq<Event>,
    jobs: Jobs.Table,
    files: map<FileId, FileRow>,
    links: set<Link>,
    uploads: map<int, UploadJob>,
    visions: map<int, VisionJob>,
    metadata: set<FileId>,
    tags: set<Tag>)

  /** Outcome of deleting one asset; a path that is not stored is already absent. */
  datatype Asset = Deleted | AlreadyAbsent | Unsuccessful

  datatype Assets = Assets(original: Asset, preview: Asset, thumb: Asset)

  datatype NewRecord = NewRecord(
    clientId: Option<int>, fileId: FileId, catalog: Option<string>, representative: bool, details: int,
    equipmentOk: bool)

  /** Fields a PATCH sets; a null status is a value the column refuses. */
  datatype Patch = Patch(
    revision: nat, catalog: Option<Option<string>>, representative: Option<bool>,
    solveStatus: Option<Option<SolveStatus>>, details: Option<int>, equipmentOk: bool)

  /** `order` and `fresh..` arguments are the database's choices: row order, new keys. */
  datatype Call =
    | Upload(fileId: FileId, service: Service, row: FileRow)
    | CreateRecord(id: RecordId, payload: NewRecord, order: seq<RecordId>, jobId: JobId, now: int)
    | UpdateRecord(id: RecordId, patch: Patch, order: seq<RecordId>)
    | DeleteRecord(id: RecordId)
    | Cleanup(fileId: FileId, service: Service, assets: Assets)
    | Reset(incoming: map<int, Asset>, deletions: map<FileId, Assets>)
    | OtherReset(service: Service)
    | SubmitFile(fileId: FileId, jobId: JobId, now: int)
    | ClaimJob(jobId: JobId, worker: WorkerId, now: int, until: int)
    | SyncClaim(jobId: JobId, order: seq<RecordId>)
    | WriteJob(jobId: JobId, worker: WorkerId, write: Jobs.Write)
    | ReleaseJob(jobId: JobId, worker: WorkerId, outcome: Jobs.Outcome, order: seq<RecordId>)
    | RetryJob(jobId: JobId, order: seq<RecordId>)
    | SetUpload(uploadId: int, upload: UploadJob)
    | SetVision(visionId: int, vision: VisionJob)
    | OtherEvent(event: Event)

  const RECORD_DELETED := "Observation record was deleted before Plate Solve started"
  const RESET_OCCURRED := "AstroJournal Reset occurred before Plate Solve started"

  // ---------------------------------------------------------------- queries

  predicate Linked(db: Db, fileId: FileId, service: Service) {
    Link(fileId, service) in db.links
  }

  predicate LinkedElsewhere(db: Db, fileId: FileId, service: Service) {
    exists l | l in db.links :: l.fileId == fileId && l.service != service
  }

  predicate Referenced(records: Records, fileId: FileId) {
    exists id | id in records :: records[id].fileId == fileId && !records[id].deleted
  }

  predicate VisionBusy(db: Db, fileId: FileId) {
    exists v | v in db.visions ::
      db.visions[v].fileId == fileId && !db.visions[v].deleted && db.visions[v].state.Processing?
  }

  predicate SolvePending(db: Db, fileId: FileId) {
    exists j | j in db.jobs ::
      db.jobs[j].fileId == fileId && (db.jobs[j].status.Waiting? || db.jobs[j].status.Processing?)
  }

  /** Python truth of a path column. */
  predicate Stored(path: Option<string>) {
    path.Some? && path.value != ""
  }

  predicate HasPaths(f: FileRow) {
    Stored(f.original) || Stored(f.preview) || Stored(f.thumb)
  }

  predicate Succeeded(a: Assets) {
    !a.original.Unsuccessful? && !a.preview.Unsuccessful? && !a.thumb.Unsuccessful?
  }

  function Tombstone(f: FileRow): FileRow {
    FileRow(true, None, None, None)
  }

  ghost predicate KnownClient(records: Records, clientId: Option<int>) {
    clientId.Some? && exists id :: id in records && records[id].clientId == clientId
  }

  ghost function RecordOfClient(records: Records, clientId: Option<int>): (id: RecordId)
    requires KnownClient(records, clientId)
    ensures id in records && records[id].clientId == clientId
  {
    var id :| id in records && records[id].clientId == clientId;
    id
  }

  ghost function StatusFor(jobs: Jobs.Table, fileId: FileId): Jobs.Status
    requires Jobs.HasFile(jobs, fileId)
  {
    var j :| j in jobs && jobs[j].fileId == fileId;
    jobs[j].status
  }

  predicate FileUsable(db: Db, fileId: FileId) {
    fileId in db.files && !db.files[fileId].deleted
  }

  // ------------------------------------------------------------ record calls

  ghost predicate CreateAccepted(db: Db, p: NewRecord) {
    && !KnownClient(db.records, p.clientId)
    && FileUsable(db, p.fileId) && (p.representative ==> Named(p.catalog)) && p.equipmentOk
  }

  function PatchedCatalog(r: Record, p: Patch): Option<string> {
    p.catalog.GetOr(r.catalog)
  }

  function PatchedRepresentative(r: Record, p: Patch): bool {
    p.representative.GetOr(r.representative)
  }

  predicate UpdateAccepted(records: Records, id: RecordId, p: Patch) {
    && id in records && !records[id].deleted && records[id].revision == p.revision && p.equipmentOk
    && (PatchedRepresentative(records[id], p) ==> Named(PatchedCatalog(records[id], p)))
    && p.solveStatus != Some(None)
  }

  function Patched(r: Record, p: Patch): Record {
    r.(catalog := PatchedCatalog(r, p),
       representative := PatchedRepresentative(r, p),
       solveStatus := if p.solveStatus.Some? && p.solveStatus.value.Some? then p.solveStatus.value.value
         else r.solveStatus,
       details := p.details.GetOr(r.details),
       revision := r.revision + 1)
  }

  predicate DeleteAccepted(records: Records, id: RecordId) {
    id in records && !records[id].deleted
  }

  /** The records a call revises as a batch: the demoted ones, or the ones whose status it mirrors. */
  ghost function Batch(db: Db, c: Call): set<RecordId> {
    match c
    case CreateRecord(_, p, _, _, _) =>
      if CreateAccepted(db, p) && p.representative then RepresentativesOf(db.records, p.catalog, None) else {}
    case UpdateRecord(id, p, _) =>
      if UpdateAccepted(db.records, id, p) && PatchedRepresentative(db.records[id], p)
      then RepresentativesOf(db.records, PatchedCatalog(db.records[id], p), Some(id)) else {}
    case SyncClaim(j, _) =>
      if j in db.jobs then OutOfStep(db.records, db.jobs[j].fileId, Mirrored(Jobs.Processing)) else {}
    case ReleaseJob(j, w, outcome, _) =>
      if j in db.jobs && Jobs.Owns(db.jobs[j], w)
      then OutOfStep(db.records, db.jobs[j].fileId, Mirrored(Jobs.ReleasedRow(db.jobs[j], outcome).status)) else {}
    case RetryJob(j, _) =>
      if j in db.jobs && db.jobs[j].status.Failed?
      then OutOfStep(db.records, db.jobs[j].fileId, Mirrored(Jobs.Waiting)) else {}
    case _ => {}
  }

  function Order(c: Call): seq<RecordId> {
    match c
    case CreateRecord(_, _, order, _, _) => order
    case UpdateRecord(_, _, order) => order
    case SyncClaim(_, order) => order
    case ReleaseJob(_, _, _, order) => order
    case RetryJob(_, order) => order
    case _ => []
  }

  // ------------------------------------------------------------------ queue

  ghost function QueueOp(db: Db, c: Call): Jobs.JobOp {
    match c
    case CreateRecord(id, p, _, jobId, now) =>
      if KnownClient(db.records, p.clientId) then
        var existing := RecordOfClient(db.records, p.clientId);
        Jobs.Enqueue(jobId, db.records[existing].fileId, Some(existing), now)
      else if CreateAccepted(db, p) then Jobs.Enqueue(jobId, p.fileId, Some(id), now)
      else Jobs.Skip
    case DeleteRecord(id) =>
      if DeleteAccepted(db.records, id) && !Referenced(RecordsAfter(db, c), db.records[id].fileId)
      then Jobs.FailWaiting(db.records[id].fileId, RECORD_DELETED) else Jobs.Skip
    case Reset(_, _) => if ResetSucceeds(db, c) then Jobs.FailAllWaiting(RESET_OCCURRED) else Jobs.Skip
    case SubmitFile(fileId, jobId, now) =>
      if FileUsable(db, fileId) && Linked(db, fileId, AstroJournal) && Stored(db.files[fileId].original)
         && !Jobs.HasFile(db.jobs, fileId)
      then Jobs.Enqueue(jobId, fileId, None, now) else Jobs.Skip
    case ClaimJob(j, w, now, until) => Jobs.Claim(j, w, now, until)
    case WriteJob(j, w, write) => Jobs.Update(j, w, write)
    case ReleaseJob(j, w, outcome, _) => Jobs.Release(j, w, outcome)
    case RetryJob(j, _) => Jobs.Retry(j)
    case _ => Jobs.Skip
  }

  /** Hard deletion of records nulls the jobs' foreign keys. */
  ghost function JobsAfter(db: Db, c: Call): Jobs.Table {
    var jobs := Jobs.Apply(db.jobs, QueueOp(db, c));
    if c.Reset? && ResetSucceeds(db, c) then Jobs.Apply(jobs, Jobs.Unlink(db.records.Keys)) else jobs
  }

  // ---------------------------------------------------------------- cleanup

  datatype CleanupStatus =
    | FileNotFound | PreservedActiveRecord | PreservedOtherService | PreservedProcessingVision
    | PreservedActivePlateSolve | AlreadyCleaned | AssetDeleteFailed | Cleaned

  function CleanupVerdict(db: Db, fileId: FileId, service: Service, assets: Assets): CleanupStatus {
    if fileId !in db.files then FileNotFound
    else if service.AstroJournal? && Referenced(db.records, fileId) then PreservedActiveRecord
    else if LinkedElsewhere(db, fileId, service) then PreservedOtherService
    else if VisionBusy(db, fileId) then PreservedProcessingVision
    else if SolvePending(db, fileId) then PreservedActivePlateSolve
    else if db.files[fileId].deleted && !HasPaths(db.files[fileId]) then AlreadyCleaned
    else if !Succeeded(assets) then AssetDeleteFailed
    else Cleaned
  }

  // ------------------------------------------------------------------ reset

  /** `_scope`: every existing file that AstroJournal links or has a record of, deleted or not. */
  function ResetTargets(db: Db): set<FileId> {
    set f | f in db.files
      && (Linked(db, f, AstroJournal) || exists id :: id in db.records && db.records[id].fileId == f)
  }

  function AstroOnly(db: Db): set<FileId> {
    set f | f in ResetTargets(db) && !LinkedElsewhere(db, f, AstroJournal)
  }

  predicate ResetBlocked(db: Db) {
    || (exists u :: u in db.uploads && db.uploads[u].service.AstroJournal? && db.uploads[u].state.Processing?)
    || (exists v :: v in db.visions && db.visions[v].fileId in AstroOnly(db) && !db.visions[v].deleted
                    && db.visions[v].state.Processing?)
    || (exists j :: j in db.jobs && db.jobs[j].status.Processing?)
  }

  ghost predicate ResetSucceeds(db: Db, c: Call)
    requires c.Reset?
  {
    && !ResetBlocked(db)
    && (forall u :: u in db.uploads && db.uploads[u].service.AstroJournal? ==>
          u in c.incoming && !c.incoming[u].Unsuccessful?)
    && (forall f :: f in AstroOnly(db) ==> f in c.deletions && Succeeded(c.deletions[f]))
  }

  // ------------------------------------------------------------------ calls

  ghost predicate Enabled(db: Db, c: Call) {
    && Lists(Order(c), Batch(db, c))
    && match c
       case Upload(_, _, row) => !row.deleted
       case CreateRecord(id, _, _, jobId, _) => id !in db.records && History(db.events, id) == [] && jobId !in db.jobs
       case SubmitFile(_, jobId, _) => jobId !in db.jobs
       case OtherReset(service) => !service.AstroJournal?
       case OtherEvent(e) => e.service.AstroJournal? ==> !e.resource.RecordOf? && !e.resource.WholeReset?
       case _ => true
  }

  ghost function RecordsAfter(db: Db, c: Call): Records {
    match c
    case CreateRecord(id, p, _, _, _) =>
      if CreateAccepted(db, p) then
        DemoteAll(db.records, Batch(db, c))
          [id := Record(p.fileId, p.clientId, p.catalog, p.representative, CreatedStatus(db, c), p.details, false, 1)]
      else db.records
    case UpdateRecord(id, p, _) =>
      if UpdateAccepted(db.records, id, p)
      then DemoteAll(db.records, Batch(db, c))[id := Patched(db.records[id], p)] else db.records
    case DeleteRecord(id) =>
      if DeleteAccepted(db.records, id)
      then db.records[id := db.records[id].(deleted := true, revision := db.records[id].revision + 1)] else db.records
    case Reset(_, _) => if ResetSucceeds(db, c) then map[] else db.records
    case SyncClaim(_, _) => StatusAll(db.records, Batch(db, c), Mirrored(Jobs.Processing))
    case ReleaseJob(j, _, outcome, _) =>
      if j in db.jobs then StatusAll(db.records, Batch(db, c), Mirrored(Jobs.ReleasedRow(db.jobs[j], outcome).status))
      else db.records
    case RetryJob(_, _) => StatusAll(db.records, Batch(db, c), Mirrored(Jobs.Waiting))
    case _ => db.records
  }

  /** A new record takes over the status of its file's job. */
  ghost function CreatedStatus(db: Db, c: Call): SolveStatus
    requires c.CreateRecord?
  {
    var jobs := Jobs.Apply(db.jobs, Jobs.Enqueue(c.jobId, c.payload.fileId, Some(c.id), c.now));
    if Jobs.HasFile(jobs, c.payload.fileId) then Mirrored(StatusFor(jobs, c.payload.fileId)) else Free("PENDING")
  }

  ghost function NewEvents(db: Db, c: Call): seq<Event>
    requires Enabled(db, c)
  {
    var records := RecordsAfter(db, c);
    match c
    case CreateRecord(id, p, order, _, _) =>
      if CreateAccepted(db, p)
      then Updates(order, records) + [RecordEvent(id, Operation.Create, records[id].revision)] else []
    case UpdateRecord(id, p, order) =>
      if UpdateAccepted(db.records, id, p)
      then Updates(order, records) + [RecordEvent(id, Operation.Update, records[id].revision)] else []
    case DeleteRecord(id) =>
      if DeleteAccepted(db.records, id) then [RecordEvent(id, Operation.Delete, records[id].revision)] else []
    case Reset(_, _) =>
      if ResetSucceeds(db, c) then [Event(AstroJournal, WholeReset, Operation.Update, None, false)] else []
    case OtherEvent(e) => [e]
    case _ => Updates(Order(c), records)
  }

  ghost function FilesAfter(db: Db, c: Call): map<FileId, FileRow> {
    match c
    case Upload(f, _, row) => if FileUsable(db, f) then db.files else db.files[f := row]
    case Cleanup(f, service, assets) =>
      if CleanupVerdict(db, f, service, assets).Cleaned? then db.files[f := Tombstone(db.files[f])] else db.files
    case Reset(_, _) =>
      if ResetSucceeds(db, c)
      then map f | f in db.files :: if f in AstroOnly(db) then Tombstone(db.files[f]) else db.files[f]
      else db.files
    case _ => db.files
  }

  ghost function LinksAfter(db: Db, c: Call): set<Link> {
    match c
    case Upload(f, service, _) => db.links + {Link(f, service)}
    case CreateRecord(_, p, _, _, _) =>
      if CreateAccepted(db, p) then db.links + {Link(p.fileId, AstroJournal)} else db.links
    case Cleanup(f, service, assets) =>
      var verdict := CleanupVerdict(db, f, service, assets);
      if verdict.Cleaned? || verdict.PreservedOtherService? then db.links - {Link(f, service)} else db.links
    case Reset(_, _) =>
      if ResetSucceeds(db, c) then set l | l in db.links && !(l.service.AstroJournal? && l.fileId in ResetTargets(db))
        else db.links
    case OtherReset(service) => set l | l in db.links && l.service != service
    case _ => db.links
  }

  /** The files whose derived rows (metadata, tags, vision jobs) a call clears. */
  ghost function Cleared(db: Db, c: Call): set<FileId> {
    match c
    case Cleanup(f, service, assets) => if CleanupVerdict(db, f, service, assets).Cleaned? then {f} else {}
    case Reset(_, _) => if ResetSucceeds(db, c) then AstroOnly(db) else {}
    case _ => {}
  }

  ghost function After(db: Db, c: Call): Db
    requires Enabled(db, c)
  {
    Db(
      RecordsAfter(db, c),
      db.events + NewEvents(db, c),
      JobsAfter(db, c),
      FilesAfter(db, c),
      LinksAfter(db, c),
      match c
      case Reset(_, _) =>
        if ResetSucceeds(db, c)
        then map u | u in db.uploads && !db.uploads[u].service.AstroJournal? :: db.uploads[u]
        else db.uploads
      case SetUpload(u, upload) => db.uploads[u := upload]
      case _ => db.uploads,
      if c.SetVision? then db.visions[c.visionId := c.vision]
      else map v | v in db.visions :: if db.visions[v].fileId in Cleared(db, c) then db.visions[v].(deleted := true)
        else db.visions[v],
      db.metadata - Cleared(db, c),
      set t | t in db.tags && t.fileId !in Cleared(db, c))
  }
}
