/**
 * The Plate Solve queue table: one row per file, changed by the worker's fenced writes and by
 * administration. Every way the repository changes the table is one `JobOp`; a run is any
 * interleaving of them. `PlateSolveJobRepository` performs them in place on its rows.
 */
module PlateSolveJobs {
  import opened Options
  import Picking

  type JobId = int
  type FileId = int
  type RecordId = int
  type WorkerId = int

  datatype Status = Waiting | Processing | Completed | Failed

  datatype Job = Job(
    fileId: FileId,
    recordId: Option<RecordId>,
    status: Status,
    attempts: nat,
    submission: Option<int>,
    providerJob: Option<int>,
    worker: Option<WorkerId>,
    lease: Option<int>,
    created: int,
    lastError: Option<string>,
    solution: Option<int>,  // the seven scalar results, carried as one opaque value
    wcs: Option<int>)

  type Table = map<JobId, Job>

  /** The writes a claimer makes while it keeps the job. */
  datatype Write =
    | TouchLease(until: int)
    | SaveSubmission(id: int)
    | SaveProviderJob(id: int)
    | SaveReplacement(id: int)

  /** The three ways a claimer gives the job up. */
  datatype Outcome =
    | Complete(providerJob: Option<int>, solution: Option<int>, wcs: Option<int>)
    | Fail(message: string)
    | Requeue(message: string)

  datatype JobOp =
    | Skip
    | Enqueue(id: JobId, fileId: FileId, recordId: Option<RecordId>, created: int)
    | Claim(id: JobId, worker: WorkerId, now: int, until: int)
    | Update(id: JobId, worker: WorkerId, write: Write)
    | Release(id: JobId, worker: WorkerId, outcome: Outcome)
    | Retry(id: JobId)
    | FailWaiting(fileId: FileId, message: string)
    | FailAllWaiting(message: string)
    | Unlink(records: set<RecordId>)

  // ---------------------------------------------------------------- one row

  predicate Owns(job: Job, worker: WorkerId) {
    job.status.Processing? && job.worker == Some(worker)
  }

  predicate Claimable(job: Job, now: int) {
    || job.status.Waiting?
    || (job.status.Processing? && (job.lease.None? || job.lease.value < now))
  }

  function ClaimedRow(job: Job, worker: WorkerId, until: int): Job {
    job.(status := Processing,
         attempts := if job.submission.None? && job.providerJob.None? then job.attempts + 1 else job.attempts,
         lastError := None, worker := Some(worker), lease := Some(until))
  }

  function WrittenRow(job: Job, write: Write): Job {
    match write
    case TouchLease(until) => job.(lease := Some(until))
    case SaveSubmission(id) => job.(submission := Some(id))
    case SaveProviderJob(id) => job.(providerJob := Some(id))
    case SaveReplacement(id) =>
      job.(submission := Some(id), providerJob := None, wcs := None, attempts := job.attempts + 1)
  }

  function ReleasedRow(job: Job, outcome: Outcome): Job {
    match outcome
    case Complete(providerJob, solution, wcs) =>
      job.(status := Completed, providerJob := providerJob, solution := solution, wcs := wcs,
           lastError := None, worker := None, lease := None)
    case Fail(message) =>
      job.(status := Failed, lastError := Some(message), worker := None, lease := None)
    case Requeue(message) =>
      job.(status := Waiting, lastError := Some(message), worker := None, lease := None)
  }

  function RetriedRow(job: Job): Job {
    job.(status := Waiting, solution := None, wcs := None, lastError := None, worker := None, lease := None)
  }

  function FailedWaitingRow(job: Job, message: string): Job {
    if job.status.Waiting? then job.(status := Failed, lastError := Some(message)) else job
  }

  function UnlinkedRow(job: Job, records: set<RecordId>): Job {
    if job.recordId.Some? && job.recordId.value in records then job.(recordId := None) else job
  }

  // -------------------------------------------------------------- the table

  predicate HasFile(jobs: Table, fileId: FileId) {
    exists id :: id in jobs && jobs[id].fileId == fileId
  }

  /** `common_file_id` is unique: a file has at most one job. */
  ghost predicate UniqueFiles(jobs: Table) {
    forall i, j :: i in jobs && j in jobs && jobs[i].fileId == jobs[j].fileId ==> i == j
  }

  /** A worker id and a lease are set on exactly the rows being processed. */
  predicate RowForm(job: Job) {
    && (job.status.Processing? <==> job.worker.Some?)
    && (job.status.Processing? <==> job.lease.Some?)
  }

  ghost predicate TableForm(jobs: Table) {
    && UniqueFiles(jobs)
    && forall id :: id in jobs ==> RowForm(jobs[id])
  }

  function EnqueuedRow(job: Job, recordId: Option<RecordId>): Job {
    if job.recordId.None? && recordId.Some? then job.(recordId := recordId) else job
  }

  function NewJob(fileId: FileId, recordId: Option<RecordId>, created: int): Job {
    Job(fileId, recordId, Waiting, 0, None, None, None, None, created, None, None, None)
  }

  function Apply(jobs: Table, op: JobOp): Table {
    match op
    case Skip => jobs
    case Enqueue(id, fileId, recordId, created) =>
      if HasFile(jobs, fileId) then
        map i | i in jobs :: if jobs[i].fileId == fileId then EnqueuedRow(jobs[i], recordId) else jobs[i]
      else if id in jobs then jobs
      else jobs[id := NewJob(fileId, recordId, created)]
    case Claim(id, worker, now, until) =>
      if id in jobs && Claimable(jobs[id], now) then jobs[id := ClaimedRow(jobs[id], worker, until)] else jobs
    case Update(id, worker, write) =>
      if id in jobs && Owns(jobs[id], worker) then jobs[id := WrittenRow(jobs[id], write)] else jobs
    case Release(id, worker, outcome) =>
      if id in jobs && Owns(jobs[id], worker) then jobs[id := ReleasedRow(jobs[id], outcome)] else jobs
    case Retry(id) =>
      if id in jobs && jobs[id].status.Failed? then jobs[id := RetriedRow(jobs[id])] else jobs
    case FailWaiting(fileId, message) =>
      map i | i in jobs :: if jobs[i].fileId == fileId then FailedWaitingRow(jobs[i], message) else jobs[i]
    case FailAllWaiting(message) =>
      map i | i in jobs :: FailedWaitingRow(jobs[i], message)
    case Unlink(records) =>
      map i | i in jobs :: UnlinkedRow(jobs[i], records)
  }

  // Whether an operation changes who may write the job: an accepted claim, or an accepted release.
  predicate Claims(jobs: Table, op: JobOp, id: JobId) {
    op.Claim? && op.id == id && id in jobs && Claimable(jobs[id], op.now)
  }

  predicate Releases(jobs: Table, op: JobOp, id: JobId) {
    op.Release? && op.id == id && id in jobs && Owns(jobs[id], op.worker)
  }

  /** An accepted touch, record or mark by `worker`. */
  predicate Writes(jobs: Table, op: JobOp, id: JobId, worker: WorkerId) {
    && (op.Update? || op.Release?) && op.id == id && op.worker == worker
    && id in jobs && Owns(jobs[id], worker)
  }

  lemma FormPreserved(jobs: Table, op: JobOp)
    requires TableForm(jobs)
    ensures TableForm(Apply(jobs, op))
  {
    var jobs' := Apply(jobs, op);
    forall i, j | i in jobs' && j in jobs' && jobs'[i].fileId == jobs'[j].fileId ensures i == j {
      if op.Enqueue? && i in jobs && j in jobs { assert jobs[i].fileId == jobs'[i].fileId; }
    }
  }

  /** Under unique files, an operation addressed by file touches the file's only row. */
  lemma ByFile(jobs: Table, id: JobId, op: JobOp)
    requires UniqueFiles(jobs) && id in jobs
    requires op.Enqueue? || op.FailWaiting?
    requires jobs[id].fileId == op.fileId
    ensures op.Enqueue? ==> Apply(jobs, op) == jobs[id := EnqueuedRow(jobs[id], op.recordId)]
    ensures op.FailWaiting? ==> Apply(jobs, op) == jobs[id := FailedWaitingRow(jobs[id], op.message)]
    ensures forall i :: i in jobs && jobs[i].fileId == op.fileId ==> i == id
  {
    forall i | i in jobs && jobs[i].fileId == op.fileId ensures i == id {
      assert jobs[i].fileId == jobs[id].fileId;
    }
  }

  // ------------------------------------------------------------------- runs

  /** `tables[i]` is the table before `ops[i]`; the queue starts empty. */
  ghost predicate Run(tables: seq<Table>, ops: seq<JobOp>) {
    && |tables| == |ops| + 1
    && tables[0] == map[]
    && forall i :: 0 <= i < |ops| ==> tables[i + 1] == Apply(tables[i], ops[i])
  }

  lemma {:induction false} RunForm(tables: seq<Table>, ops: seq<JobOp>, i: nat)
    requires Run(tables, ops) && i < |tables|
    ensures TableForm(tables[i])
  {
    if i > 0 {
      RunForm(tables, ops, i - 1);
      FormPreserved(tables[i - 1], ops[i - 1]);
    }
  }

  /** No operation strictly between `k` and `i` claims or releases the job. */
  ghost predicate Quiet(tables: seq<Table>, ops: seq<JobOp>, id: JobId, k: int, i: int)
    requires |tables| == |ops| + 1 && -1 <= k && i <= |ops|
  {
    forall m :: k < m < i ==> !Claims(tables[m], ops[m], id) && !Releases(tables[m], ops[m], id)
  }

  /** Whoever owns a job got it from the latest claim, and nobody released it since. */
  lemma {:induction false} OwnerClaimed(tables: seq<Table>, ops: seq<JobOp>, i: nat, id: JobId, worker: WorkerId)
    returns (k: nat)
    requires Run(tables, ops) && i < |tables|
    requires id in tables[i] && Owns(tables[i][id], worker)
    ensures k < i && Claims(tables[k], ops[k], id) && ops[k].worker == worker
    ensures Quiet(tables, ops, id, k, i)
  {
    RunForm(tables, ops, i - 1);
    var before, op := tables[i - 1], ops[i - 1];
    if Claims(before, op, id) {
      k := i - 1;
    } else {
      assert id in before && Owns(before[id], worker);
      k := OwnerClaimed(tables, ops, i - 1, id, worker);
    }
  }

  /**
   * Fencing: an accepted touch, record or mark is made by the worker of the latest claim, with no
   * release in between, whatever the interleaving of workers, lease expiries, retries and Resets.
   */
  lemma Fencing(tables: seq<Table>, ops: seq<JobOp>, i: nat, id: JobId, worker: WorkerId)
    requires Run(tables, ops) && i < |ops|
    requires Writes(tables[i], ops[i], id, worker)
    ensures exists k: nat :: k < i && Claims(tables[k], ops[k], id) && ops[k].worker == worker
                             && Quiet(tables, ops, id, k, i)
  {
    var k := OwnerClaimed(tables, ops, i, id, worker);
  }

  /** Between two accepted releases (complete, fail or requeue) of a job there is a new claim. */
  lemma OneRelease(tables: seq<Table>, ops: seq<JobOp>, i: nat, i': nat, id: JobId)
    requires Run(tables, ops) && i < i' < |ops|
    requires Releases(tables[i], ops[i], id) && Releases(tables[i'], ops[i'], id)
    ensures exists k: nat :: i < k < i' && Claims(tables[k], ops[k], id) && ops[k].worker == ops[i'].worker
  {
    var k := OwnerClaimed(tables, ops, i', id, ops[i'].worker);
  }

  /** A stale worker's write or release leaves the table as it was. */
  lemma StaleIsIgnored(jobs: Table, op: JobOp)
    requires op.Update? || op.Release?
    requires op.id in jobs ==> !Owns(jobs[op.id], op.worker)
    ensures Apply(jobs, op) == jobs
  {}

  /** Jobs are never deleted, keep their file, and a completed row changes in its record link only. */
  lemma {:induction false} RowsLast(tables: seq<Table>, ops: seq<JobOp>, i: nat, i': nat, id: JobId)
    requires Run(tables, ops) && i <= i' < |tables| && id in tables[i]
    ensures id in tables[i'] && tables[i'][id].fileId == tables[i][id].fileId
    ensures tables[i][id].status.Completed? ==>
              tables[i'][id] == tables[i][id].(recordId := tables[i'][id].recordId)
  {
    if i < i' {
      RowsLast(tables, ops, i, i' - 1, id);
    }
  }

  // ------------------------------------------------------------- repository

  predicate Before(jobs: Table, i: JobId, j: JobId)
    requires i in jobs && j in jobs
  {
    jobs[i].created < jobs[j].created || (jobs[i].created == jobs[j].created && i <= j)
  }

  function Eligible(jobs: Table, locked: set<JobId>, now: int): set<JobId> {
    set id | id in jobs && id !in locked && Claimable(jobs[id], now)
  }

  ghost predicate FirstOf(jobs: Table, ids: set<JobId>, id: JobId)
    requires ids <= jobs.Keys
  {
    id in ids && forall j :: j in ids ==> Before(jobs, id, j)
  }

  lemma {:induction false} FirstExists(jobs: Table, ids: set<JobId>)
    requires ids <= jobs.Keys && ids != {}
    ensures exists id :: FirstOf(jobs, ids, id)
    decreases ids
  {
    var pick := Picking.Member(ids);
    var rest := ids - {pick};
    assert ids == rest + {pick};
    if rest == {} {
      assert FirstOf(jobs, ids, pick);
    } else {
      FirstExists(jobs, rest);
      var id :| FirstOf(jobs, rest, id);
      assert FirstOf(jobs, ids, if Before(jobs, pick, id) then pick else id);
    }
  }

  class PlateSolveJobRepository {
    var rows: Table

    constructor ()
      ensures rows == map[]
    {
      rows := map[];
    }

    method GetByFile(fileId: FileId) returns (found: Option<JobId>)
      ensures found.None? <==> !HasFile(rows, fileId)
      ensures found.Some? ==> found.value in rows && rows[found.value].fileId == fileId
    {
      var pending := rows.Keys;
      while pending != {}
        invariant pending <= rows.Keys
        invariant forall id :: id in rows && id !in pending ==> rows[id].fileId != fileId
        decreases pending
      {
        var id := Picking.Any(pending);
        if rows[id].fileId == fileId {
          return Some(id);
        }
        pending := pending - {id};
      }
      return None;
    }

    /** `freshId` is the primary key drawn for a new row; `now` its creation time. */
    method Enqueue(fileId: FileId, recordId: Option<RecordId>, freshId: JobId, now: int)
      returns (id: JobId, created: bool)
      requires TableForm(rows) && freshId !in rows
      modifies this
      ensures rows == Apply(old(rows), JobOp.Enqueue(freshId, fileId, recordId, now))
      ensures created <==> !HasFile(old(rows), fileId)
      ensures id in rows && rows[id].fileId == fileId && TableForm(rows)
      ensures created ==>
                && id == freshId && rows == old(rows)[id := rows[id]] && rows[id].status.Waiting?
                && rows[id].recordId == recordId && rows[id].attempts == 0 && rows[id].created == now
                && rows[id].submission.None? && rows[id].providerJob.None? && rows[id].lastError.None?
                && rows[id].solution.None? && rows[id].wcs.None?
      ensures !created ==>
                && id in old(rows)
                && rows == old(rows)[id := old(rows)[id].(
                     recordId := if old(rows)[id].recordId.None? then recordId else old(rows)[id].recordId)]
    {
      FormPreserved(rows, JobOp.Enqueue(freshId, fileId, recordId, now));
      var existing := GetByFile(fileId);
      if existing.Some? {
        ByFile(rows, existing.value, JobOp.Enqueue(freshId, fileId, recordId, now));
        var job := rows[existing.value];
        if job.recordId.None? && recordId.Some? {
          job := job.(recordId := recordId);
          rows := rows[existing.value := job];
        }
        return existing.value, false;
      }
      rows := rows[freshId := NewJob(fileId, recordId, now)];
      return freshId, true;
    }

    /** Rows locked by other transactions are skipped. */
    method ClaimNext(worker: WorkerId, leaseSeconds: int, now: int, locked: set<JobId>)
      returns (claimed: Option<JobId>)
      modifies this
      ensures claimed.None? ==>
                rows == old(rows) && Eligible(rows, locked, now) == {}
      ensures claimed.Some? ==>
                && claimed.value !in locked
                && FirstOf(old(rows), Eligible(old(rows), locked, now), claimed.value)
                && rows == Apply(old(rows), Claim(claimed.value, worker, now, now + leaseSeconds))
      ensures claimed.Some? ==>
                && claimed.value in old(rows)
                && var job := old(rows)[claimed.value];
                   && (job.status.Waiting? || (job.status.Processing? && (job.lease.None? || job.lease.value < now)))
                   && rows == old(rows)[claimed.value := job.(
                        status := Processing, worker := Some(worker), lease := Some(now + leaseSeconds),
                        lastError := None,
                        attempts := job.attempts + if job.submission.None? && job.providerJob.None? then 1 else 0)]
      ensures claimed.Some? ==> forall k :: k in Eligible(old(rows), locked, now) ==>
                old(rows)[claimed.value].created < old(rows)[k].created
                || (old(rows)[claimed.value].created == old(rows)[k].created && claimed.value <= k)
      ensures claimed.None? ==> forall k :: k in rows && k !in locked ==>
                && !rows[k].status.Waiting?
                && (rows[k].status.Processing? ==> rows[k].lease.Some? && now <= rows[k].lease.value)
    {
      var eligible := Eligible(rows, locked, now);
      if eligible == {} {
        assert forall k :: k in rows && k !in locked ==> k !in eligible;
        return None;
      }
      FirstExists(rows, eligible);
      var id :| id in eligible && forall j :: j in eligible ==> Before(rows, id, j);
      var job := rows[id].(status := Processing);
      if job.submission.None? && job.providerJob.None? {
        job := job.(attempts := job.attempts + 1);
      }
      job := job.(lastError := None);
      job := job.(worker := Some(worker));
      job := job.(lease := Some(now + leaseSeconds));
      rows := rows[id := job];
      return Some(id);
    }

    predicate OwnedProcessingJob(id: JobId, worker: WorkerId)
      reads this
    {
      id in rows && Owns(rows[id], worker)
    }

    method TouchLease(id: JobId, worker: WorkerId, leaseSeconds: int, now: int) returns (touched: bool)
      modifies this
      ensures touched <==> old(OwnedProcessingJob(id, worker))
      ensures rows == Apply(old(rows), Update(id, worker, Write.TouchLease(now + leaseSeconds)))
      ensures rows == if touched then old(rows)[id := old(rows)[id].(lease := Some(now + leaseSeconds))] else old(rows)
      ensures touched ==> forall time :: Claimable(rows[id], time) <==> now + leaseSeconds < time
    {
      touched := OwnedProcessingJob(id, worker);
      if touched {
        rows := rows[id := rows[id].(lease := Some(now + leaseSeconds))];
      }
    }

    method RecordSubmission(id: JobId, worker: WorkerId, submission: int) returns (found: bool)
      modifies this
      ensures found <==> old(OwnedProcessingJob(id, worker))
      ensures rows == Apply(old(rows), Update(id, worker, SaveSubmission(submission)))
      ensures rows == if found then old(rows)[id := old(rows)[id].(submission := Some(submission))] else old(rows)
    {
      found := OwnedProcessingJob(id, worker);
      if found {
        rows := rows[id := rows[id].(submission := Some(submission))];
      }
    }

    method RecordProviderJob(id: JobId, worker: WorkerId, providerJob: int) returns (found: bool)
      modifies this
      ensures found <==> old(OwnedProcessingJob(id, worker))
      ensures rows == Apply(old(rows), Update(id, worker, SaveProviderJob(providerJob)))
      ensures rows == if found then old(rows)[id := old(rows)[id].(providerJob := Some(providerJob))] else old(rows)
    {
      found := OwnedProcessingJob(id, worker);
      if found {
        rows := rows[id := rows[id].(providerJob := Some(providerJob))];
      }
    }

    method RecordReplacementSubmission(id: JobId, worker: WorkerId, submission: int) returns (found: bool)
      modifies this
      ensures found <==> old(OwnedProcessingJob(id, worker))
      ensures rows == Apply(old(rows), Update(id, worker, SaveReplacement(submission)))
      ensures rows == if !found then old(rows) else old(rows)[id := old(rows)[id].(
                        submission := Some(submission), providerJob := None, wcs := None,
                        attempts := old(rows)[id].attempts + 1)]
    {
      found := OwnedProcessingJob(id, worker);
      if found {
        var job := rows[id];
        job := job.(submission := Some(submission));
        job := job.(providerJob := None);
        job := job.(wcs := None);
        job := job.(attempts := job.attempts + 1);
        rows := rows[id := job];
      }
    }

    method MarkRetryable(id: JobId, worker: WorkerId, message: string) returns (found: bool)
      modifies this
      ensures found <==> old(OwnedProcessingJob(id, worker))
      ensures rows == Apply(old(rows), Release(id, worker, Requeue(message)))
      ensures rows == if !found then old(rows) else old(rows)[id := old(rows)[id].(
                        status := Waiting, lastError := Some(message), worker := None, lease := None)]
    {
      found := OwnedProcessingJob(id, worker);
      if found {
        var job := rows[id];
        job := job.(status := Waiting);
        job := job.(lastError := Some(message));
        job := job.(worker := None);
        job := job.(lease := None);
        rows := rows[id := job];
      }
    }

    method MarkCompleted(id: JobId, worker: WorkerId, providerJob: Option<int>, solution: Option<int>, wcs: Option<int>)
      returns (found: bool)
      modifies this
      ensures found <==> old(OwnedProcessingJob(id, worker))
      ensures rows == Apply(old(rows), Release(id, worker, Complete(providerJob, solution, wcs)))
      ensures rows == if !found then old(rows) else old(rows)[id := old(rows)[id].(
                        status := Completed, providerJob := providerJob, solution := solution, wcs := wcs,
                        lastError := None, worker := None, lease := None)]
    {
      found := OwnedProcessingJob(id, worker);
      if found {
        var job := rows[id];
        job := job.(status := Completed);
        job := job.(providerJob := providerJob);
        job := job.(solution := solution);
        job := job.(wcs := wcs);
        job := job.(lastError := None);
        job := job.(worker := None);
        job := job.(lease := None);
        rows := rows[id := job];
      }
    }

    method MarkFailed(id: JobId, worker: WorkerId, message: string) returns (found: bool)
      modifies this
      ensures found <==> old(OwnedProcessingJob(id, worker))
      ensures rows == Apply(old(rows), Release(id, worker, Fail(message)))
      ensures rows == if !found then old(rows) else old(rows)[id := old(rows)[id].(
                        status := Failed, lastError := Some(message), worker := None, lease := None)]
    {
      found := OwnedProcessingJob(id, worker);
      if found {
        var job := rows[id];
        job := job.(status := Failed);
        job := job.(lastError := Some(message));
        job := job.(worker := None);
        job := job.(lease := None);
        rows := rows[id := job];
      }
    }

    /** The service refuses a job that is missing or not FAILED before it reaches the row. */
    method Retry(id: JobId) returns (accepted: bool)
      modifies this
      ensures accepted <==> id in old(rows) && old(rows)[id].status.Failed?
      ensures rows == Apply(old(rows), JobOp.Retry(id))
      ensures rows == if !accepted then old(rows) else old(rows)[id := old(rows)[id].(
                        status := Waiting, solution := None, wcs := None, lastError := None, worker := None,
                        lease := None)]
    {
      accepted := id in rows && rows[id].status.Failed?;
      if accepted {
        var job := rows[id];
        job := job.(status := Waiting);
        job := job.(solution := None);
        job := job.(wcs := None);
        job := job.(lastError := None);
        job := job.(worker := None);
        job := job.(lease := None);
        rows := rows[id := job];
      }
    }

    method FailWaitingForFile(fileId: FileId, message: string) returns (failed: bool)
      requires TableForm(rows)
      modifies this
      ensures rows == Apply(old(rows), FailWaiting(fileId, message))
      ensures rows.Keys == old(rows).Keys
      ensures forall id :: id in old(rows) ==>
                rows[id] == if old(rows)[id].fileId == fileId && old(rows)[id].status.Waiting?
                            then old(rows)[id].(status := Failed, lastError := Some(message)) else old(rows)[id]
      ensures failed <==>
                exists id :: id in old(rows) && old(rows)[id].fileId == fileId && old(rows)[id].status.Waiting?
    {
      var existing := GetByFile(fileId);
      if existing.None? {
        assert forall id :: id in rows ==> rows[id].fileId != fileId;
        assert rows == Apply(rows, FailWaiting(fileId, message));
        return false;
      }
      ByFile(rows, existing.value, FailWaiting(fileId, message));
      if !rows[existing.value].status.Waiting? {
        return false;
      }
      var job := rows[existing.value];
      job := job.(status := Failed);
      job := job.(lastError := Some(message));
      rows := rows[existing.value := job];
      return true;
    }
  }
}
