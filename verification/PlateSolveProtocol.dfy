/**
 * The Plate Solve protocol: any number of workers, each a sequential program with its own copies of
 * the provider ids, compete for the queue rows while the provider answers as it likes, leases expire,
 * administrators intervene and processes crash. Every database transaction is one step.
 */
module PlateSolveProtocol {
  import opened Options
  import opened PlateSolveJobs
  import ApiUsage

  /** Where a busy worker stands in `process_next_plate_solve_job`. */
  datatype Point =
    | Syncing                       // claim committed, record status not yet mirrored
    | Loading
    | Reserving                     // no saved provider work: about to pay for a first submission
    | Submitting(key: ApiUsage.Key) // paid for, provider call outstanding
    | Recording(accepted: int)         // provider accepted, id not yet saved
    | Polling(resuming: bool)       // head of the polling loop
    | Asking(resuming: bool)        // lease extended, provider being asked
    | Resolving(found: int, resuming: bool)
    | Missing                       // the provider says that the saved work does not exist
    | Resubmitting(key: ApiUsage.Key)
    | Replacing(accepted: int)
    | Finishing(result: Option<int>)
    | Releasing(requeue: bool)      // in the exception handler

  datatype Pc =
    | Idle
    | Crashed
    | Busy(job: JobId, sub: Option<int>, pj: Option<int>, at: Point)

  /** `submits` and `recorded` count provider submissions; the program does not store them. */
  datatype Sys = Sys(
    jobs: Table,
    pcs: map<WorkerId, Pc>,
    usage: ApiUsage.Table,
    config: ApiUsage.Config,
    now: int, year: int, month: int,
    submits: map<ApiUsage.Key, nat>,
    recorded: map<JobId, nat>)

  /** `transient` says how an exception raised by the step is classified. */
  datatype Label =
    | Tick(now: int, year: int, month: int)
    | Admin(op: JobOp)
    | OtherUsage(call: ApiUsage.Call)
    | Start(worker: WorkerId)
    | Crash(worker: WorkerId)
    | ClaimJob(worker: WorkerId, id: JobId, leaseSeconds: int)
    | SyncRecords(worker: WorkerId)
    | Load(worker: WorkerId)
    | Reserve(worker: WorkerId, transient: bool)
    | Submitted(worker: WorkerId, accepted: int)
    | SubmitFailed(worker: WorkerId, transient: bool)
    | Record(worker: WorkerId, transient: bool)
    | Touch(worker: WorkerId, leaseSeconds: int, transient: bool)
    | StillPending(worker: WorkerId)
    | JobResolved(worker: WorkerId, found: int)
    | SaveJob(worker: WorkerId, transient: bool)
    | NotFound(worker: WorkerId, transient: bool)
    | Solved(worker: WorkerId, result: Option<int>)
    | Raise(worker: WorkerId, transient: bool)
    | Finish(worker: WorkerId, solution: Option<int>, wcs: Option<int>, transient: bool)
    | GiveUp(worker: WorkerId, message: string)

  predicate Global(l: Label) {
    l.Tick? || l.Admin? || l.OtherUsage?
  }

  function SolveKey(s: Sys): ApiUsage.Key {
    ApiUsage.Key(ApiUsage.Astrometry, ApiUsage.PlateSolve, s.year, s.month)
  }

  function Count<K>(m: map<K, nat>, k: K): nat {
    if k in m then m[k] else 0
  }

  predicate Pays(s: Sys) {
    ApiUsage.GrantedReservation(s.usage, s.config, SolveKey(s), 1) > 0
  }

  predicate HasIds(pc: Pc)
    requires pc.Busy?
  {
    pc.sub.Some? || pc.pj.Some?
  }

  /** The exception handler requeues only a transient failure of work whose id is known. */
  function Raised(pc: Pc, transient: bool): Pc
    requires pc.Busy?
  {
    pc.(at := Releasing(transient && HasIds(pc)))
  }

  predicate Working(s: Sys, w: WorkerId) {
    w in s.pcs && s.pcs[w].Busy?
  }

  predicate Administrative(op: JobOp) {
    op.Enqueue? || op.Retry? || op.FailWaiting? || op.FailAllWaiting? || op.Unlink?
  }

  /** A step outside the database, from the worker's own state alone. */
  predicate Local(l: Label) {
    || l.SyncRecords? || l.Load? || l.Submitted? || l.SubmitFailed? || l.StillPending?
    || l.JobResolved? || l.NotFound? || l.Solved? || l.Raise?
  }

  predicate WritesQueue(l: Label) {
    l.Record? || l.Touch? || l.SaveJob? || l.Finish? || l.GiveUp?
  }

  /** About to commit something: the transaction itself may raise, which is never classified as transient. */
  predicate InTransaction(at: Point) {
    || at.Reserving? || at.Missing? || at.Recording? || at.Replacing? || at.Polling? || at.Resolving? || at.Finishing?
  }

  /** The ids the exception handler sees: those of an accepted submission, even if it could not be saved. */
  function KnownIds(pc: Pc): (known: Pc)
    requires pc.Busy?
    ensures known.Busy? && known.job == pc.job && known.at == pc.at
  {
    if pc.at.Recording? || pc.at.Replacing? then pc.(sub := Some(pc.at.accepted), pj := None) else pc
  }

  /** Where in the program a worker's step can be taken. */
  predicate Allowed(pc: Pc, l: Label) {
    && pc.Busy?
    && match l
       case SyncRecords(_) => pc.at.Syncing?
       case Load(_) => pc.at.Loading?
       case Reserve(_, _) => pc.at.Reserving? || pc.at.Missing?
       case Submitted(_, _) => pc.at.Submitting? || pc.at.Resubmitting?
       case SubmitFailed(_, _) => pc.at.Submitting? || pc.at.Resubmitting?
       case Record(_, _) => pc.at.Recording? || pc.at.Replacing?
       case Touch(_, _, _) => pc.at.Polling?
       case StillPending(_) => pc.at.Asking?
       case JobResolved(_, _) => pc.at.Asking? && pc.pj.None?
       case SaveJob(_, _) => pc.at.Resolving?
       case NotFound(_, _) => pc.at.Asking?
       case Solved(_, _) => pc.at.Asking?
       case Raise(_, transient) => pc.at.Loading? || pc.at.Asking? || (InTransaction(pc.at) && !transient)
       case Finish(_, _, _, _) => pc.at.Finishing?
       case GiveUp(_, _) => pc.at.Releasing?
       case _ => false
  }

  function Moved(pc: Pc, l: Label): Pc
    requires Local(l) && Allowed(pc, l)
  {
    match l
    case SyncRecords(_) => pc.(at := Loading)
    case Load(_) => pc.(at := if HasIds(pc) then Polling(true) else Reserving)
    case Submitted(_, accepted) => pc.(at := if pc.at.Submitting? then Recording(accepted) else Replacing(accepted))
    case SubmitFailed(_, transient) => Raised(pc, transient)
    case StillPending(_) => pc.(at := Polling(pc.at.resuming))
    case JobResolved(_, found) => pc.(at := Resolving(found, pc.at.resuming))
    case NotFound(_, transient) => if pc.at.resuming then pc.(at := Missing) else Raised(pc, transient)
    case Solved(_, result) => pc.(at := Finishing(result))
    case Raise(_, transient) => Raised(KnownIds(pc), transient)
  }

  /** After a write: `held` tells whether the row was still the worker's. */
  function Wrote(pc: Pc, l: Label, held: bool): Pc
    requires WritesQueue(l) && Allowed(pc, l)
  {
    match l
    case Record(_, transient) =>
      var pc' := Busy(pc.job, Some(pc.at.accepted), None, Polling(false));
      if held then pc' else Raised(pc', transient)
    case Touch(_, _, transient) => if held then pc.(at := Asking(pc.at.resuming)) else Raised(pc, transient)
    case SaveJob(_, transient) =>
      if held then pc.(pj := Some(pc.at.found), at := Polling(pc.at.resuming)) else Raised(pc, transient)
    case Finish(_, _, _, transient) => if held then Idle else Raised(pc, transient)
    case GiveUp(_, _) => Idle
  }

  function Charged(pc: Pc, l: Label, paid: bool, key: ApiUsage.Key): Pc
    requires l.Reserve? && Allowed(pc, l)
  {
    if !paid then Raised(pc, l.transient)
    else pc.(at := if pc.at.Missing? then Resubmitting(key) else Submitting(key))
  }

  predicate Enabled(s: Sys, l: Label) {
    match l
    case Tick(_, _, _) => true
    case Admin(op) => Administrative(op)
    case OtherUsage(call) => !call.key.api.PlateSolve?
    case Start(w) => w in s.pcs ==> s.pcs[w].Crashed?
    case Crash(w) => w in s.pcs
    case ClaimJob(w, id, _) => w in s.pcs && s.pcs[w].Idle? && id in s.jobs && Claimable(s.jobs[id], s.now)
    case _ => l.worker in s.pcs && Allowed(s.pcs[l.worker], l)
  }

  /** Whether the worker still owns the job it works on. */
  predicate Holds(s: Sys, w: WorkerId) {
    Working(s, w) && s.pcs[w].job in s.jobs && Owns(s.jobs[s.pcs[w].job], w)
  }

  /** The transaction a step commits on the queue. */
  function OpOf(s: Sys, l: Label): JobOp
    requires Enabled(s, l)
  {
    match l
    case Admin(op) => op
    case ClaimJob(w, id, leaseSeconds) => JobOp.Claim(id, w, s.now, s.now + leaseSeconds)
    case Record(w, _) =>
      var pc := s.pcs[w];
      Update(pc.job, w, if pc.at.Recording? then SaveSubmission(pc.at.accepted) else SaveReplacement(pc.at.accepted))
    case Touch(w, leaseSeconds, _) => Update(s.pcs[w].job, w, TouchLease(s.now + leaseSeconds))
    case SaveJob(w, _) => Update(s.pcs[w].job, w, SaveProviderJob(s.pcs[w].at.found))
    case Finish(w, solution, wcs, _) =>
      JobOp.Release(s.pcs[w].job, w, Complete(s.pcs[w].at.result, solution, wcs))
    case GiveUp(w, message) =>
      JobOp.Release(s.pcs[w].job, w, if s.pcs[w].at.requeue then Requeue(message) else Fail(message))
    case _ => JobOp.Skip
  }

  /** The month that paid for the worker's outstanding provider call; a crash leaves the call made. */
  function PaidAt(pcs: map<WorkerId, Pc>, w: WorkerId): Option<ApiUsage.Key> {
    if w in pcs && pcs[w].Busy? && pcs[w].at.Submitting? then Some(pcs[w].at.key)
    else if w in pcs && pcs[w].Busy? && pcs[w].at.Resubmitting? then Some(pcs[w].at.key)
    else None
  }

  function PcAfter(s: Sys, l: Label): Pc
    requires Enabled(s, l) && !Global(l)
  {
    if Local(l) then Moved(s.pcs[l.worker], l)
    else if WritesQueue(l) then Wrote(s.pcs[l.worker], l, Holds(s, l.worker))
    else if l.Reserve? then Charged(s.pcs[l.worker], l, Pays(s), SolveKey(s))
    else if l.ClaimJob? then Busy(l.id, s.jobs[l.id].submission, s.jobs[l.id].providerJob, Syncing)
    else if l.Crash? then Crashed
    else Idle
  }

  function Step(s: Sys, l: Label): Sys
    requires Enabled(s, l)
  {
    s.(
      now := if l.Tick? then l.now else s.now,
      year := if l.Tick? then l.year else s.year,
      month := if l.Tick? then l.month else s.month,
      usage :=
        if l.OtherUsage? then ApiUsage.Effect(s.usage, s.config, l.call)
        else if l.Reserve? then ApiUsage.Reserved(s.usage, s.config, SolveKey(s), 1)
        else s.usage,
      submits :=
        if !Global(l) && PaidAt(s.pcs, l.worker).Some? && (l.Submitted? || l.SubmitFailed? || l.Crash?)
        then s.submits[s.pcs[l.worker].at.key := Count(s.submits, s.pcs[l.worker].at.key) + 1]
        else s.submits,
      recorded :=
        if l.Record? && Holds(s, l.worker)
        then s.recorded[s.pcs[l.worker].job := Count(s.recorded, s.pcs[l.worker].job) + 1]
        else s.recorded,
      pcs := if Global(l) then s.pcs else s.pcs[l.worker := PcAfter(s, l)],
      jobs := Apply(s.jobs, OpOf(s, l)))
  }

  // ------------------------------------------------------------- invariants

  /** A provider job id is never kept without its submission id; a row that had work was attempted. */
  predicate RowSound(job: Job) {
    && RowForm(job)
    && (job.providerJob.Some? ==> job.submission.Some?)
    && (job.status.Processing? || job.submission.Some? ==> job.attempts >= 1)
  }

  /** Only a worker that was started has its id in a row. */
  predicate HolderKnown(s: Sys, id: JobId)
    requires id in s.jobs
  {
    s.jobs[id].worker.Some? ==> s.jobs[id].worker.value in s.pcs
  }

  /** While the worker owns the row its copies of the provider ids are the row's. */
  predicate CopiesAgree(job: Job, pc: Pc)
    requires pc.Busy?
  {
    match pc.at
    case Releasing(requeue) => requeue ==> job.submission.Some?
    case Resolving(_, _) => job.submission == pc.sub && pc.sub.Some? && job.providerJob.None? && pc.pj.None?
    case _ =>
      && job.submission == pc.sub && job.providerJob == pc.pj
      && (pc.at.Reserving? || pc.at.Submitting? || pc.at.Recording? ==> pc.sub.None? && pc.pj.None?)
      && (pc.at.Syncing? || pc.at.Loading? || pc.at.Reserving? || pc.at.Submitting? || pc.at.Recording?
          || pc.sub.Some?)
  }

  predicate CopiesSound(s: Sys, w: WorkerId) {
    Working(s, w) ==> s.pcs[w].job in s.jobs && (Holds(s, w) ==> CopiesAgree(s.jobs[s.pcs[w].job], s.pcs[w]))
  }

  /** Recorded submissions never exceed attempts, and none is recorded before an id is saved. */
  predicate Ledger(s: Sys, id: JobId)
    requires id in s.jobs
  {
    && Count(s.recorded, id) <= s.jobs[id].attempts
    && (s.jobs[id].submission.None? <==> Count(s.recorded, id) == 0)
  }

  ghost predicate QueueInv(s: Sys) {
    && TableForm(s.jobs)
    && (forall id :: id in s.jobs ==> RowSound(s.jobs[id]) && HolderKnown(s, id) && Ledger(s, id))
    && (forall id :: id !in s.jobs ==> Count(s.recorded, id) == 0)
    && (forall w :: w in s.pcs ==> CopiesSound(s, w))
  }

  /** Administration leaves ids, attempts and ownership of every row alone. */
  lemma AdminRow(jobs: Table, op: JobOp, id: JobId)
    requires Administrative(op)
    requires id in jobs ==> RowForm(jobs[id])
    ensures id in jobs ==> id in Apply(jobs, op)
    ensures id in jobs ==>
              var row := Apply(jobs, op)[id];
              && row.submission == jobs[id].submission && row.providerJob == jobs[id].providerJob
              && row.attempts == jobs[id].attempts && row.worker == jobs[id].worker
              && row.status.Processing? == jobs[id].status.Processing? && RowForm(row)
    ensures id in Apply(jobs, op) && id !in jobs ==>
              var row := Apply(jobs, op)[id];
              row.submission.None? && row.providerJob.None? && row.attempts == 0 && row.worker.None? && RowForm(row)
              && !row.status.Processing?
  {}

  function RowWritten(s: Sys, l: Label): Job
    requires Enabled(s, l) && WritesQueue(l) && Holds(s, l.worker)
  {
    var job := s.jobs[s.pcs[l.worker].job];
    match OpOf(s, l)
    case Update(_, _, write) => WrittenRow(job, write)
    case Release(_, _, outcome) => ReleasedRow(job, outcome)
    case _ => job
  }

  /** A worker's step writes its own job if it still owns it, and no other row. */
  lemma WorkerTable(s: Sys, l: Label)
    requires Enabled(s, l) && !Global(l) && !l.ClaimJob?
    ensures Step(s, l).jobs ==
            if WritesQueue(l) && Holds(s, l.worker) then s.jobs[s.pcs[l.worker].job := RowWritten(s, l)] else s.jobs
  {}

  lemma WrittenCounts(s: Sys, l: Label)
    requires QueueInv(s) && Enabled(s, l) && WritesQueue(l) && Holds(s, l.worker)
    ensures RowSound(RowWritten(s, l))
    ensures Ledger(Step(s, l), s.pcs[l.worker].job)
  {
    var id := s.pcs[l.worker].job;
    WorkerTable(s, l);
    assert RowSound(s.jobs[id]) && Ledger(s, id) && CopiesSound(s, l.worker);
  }

  lemma WrittenSound(s: Sys, l: Label)
    requires QueueInv(s) && Enabled(s, l) && WritesQueue(l) && Holds(s, l.worker)
    ensures RowWritten(s, l).worker == if PcAfter(s, l).Busy? then Some(l.worker) else None
    ensures PcAfter(s, l).Busy? ==>
              PcAfter(s, l).job == s.pcs[l.worker].job && CopiesAgree(RowWritten(s, l), PcAfter(s, l))
  {
    var id := s.pcs[l.worker].job;
    assert RowSound(s.jobs[id]) && CopiesSound(s, l.worker);
  }

  lemma RowStep(s: Sys, l: Label, id: JobId)
    requires QueueInv(s) && Enabled(s, l)
    requires id in Step(s, l).jobs
    ensures RowSound(Step(s, l).jobs[id]) && Ledger(Step(s, l), id) && HolderKnown(Step(s, l), id)
  {
    if l.ClaimJob? || Global(l) {
      RowStepByOthers(s, l, id);
    } else {
      RowStepByWorker(s, l, id);
    }
  }

  lemma RowStepByOthers(s: Sys, l: Label, id: JobId)
    requires QueueInv(s) && Enabled(s, l) && (l.ClaimJob? || Global(l))
    requires id in Step(s, l).jobs
    ensures RowSound(Step(s, l).jobs[id]) && Ledger(Step(s, l), id) && HolderKnown(Step(s, l), id)
  {
    if id in s.jobs {
      assert RowSound(s.jobs[id]) && HolderKnown(s, id) && Ledger(s, id);
    }
    if l.Admin? {
      AdminRow(s.jobs, l.op, id);
    }
  }

  lemma RowStepByWorker(s: Sys, l: Label, id: JobId)
    requires QueueInv(s) && Enabled(s, l) && !l.ClaimJob? && !Global(l)
    requires id in Step(s, l).jobs
    ensures RowSound(Step(s, l).jobs[id]) && Ledger(Step(s, l), id) && HolderKnown(Step(s, l), id)
  {
    WorkerTable(s, l);
    assert RowSound(s.jobs[id]) && HolderKnown(s, id) && Ledger(s, id);
    if WritesQueue(l) && Holds(s, l.worker) {
      WrittenCounts(s, l);
    }
  }

  /** A step that leaves the row to the worker keeps the worker's copies right. */
  lemma OwnStep(s: Sys, l: Label)
    requires QueueInv(s) && Enabled(s, l) && !Global(l) && !l.Start? && !l.Crash?
    ensures CopiesSound(Step(s, l), l.worker)
  {
    if l.ClaimJob? {
      assert RowSound(s.jobs[l.id]);
    } else {
      OwnStepInClaim(s, l);
    }
  }

  lemma OwnStepInClaim(s: Sys, l: Label)
    requires QueueInv(s) && Enabled(s, l) && !Global(l) && !l.Start? && !l.Crash? && !l.ClaimJob?
    ensures CopiesSound(Step(s, l), l.worker)
  {
    if WritesQueue(l) {
      OwnWrite(s, l);
    } else if l.Reserve? {
      OwnCharge(s, l);
    } else {
      OwnMove(s, l);
    }
  }

  lemma OwnMove(s: Sys, l: Label)
    requires QueueInv(s) && Enabled(s, l) && Local(l)
    ensures CopiesSound(Step(s, l), l.worker)
  {
    WorkerTable(s, l);
    assert CopiesSound(s, l.worker) && RowSound(s.jobs[s.pcs[l.worker].job]);
    if Holds(s, l.worker) { MovedAgrees(s.jobs[s.pcs[l.worker].job], s.pcs[l.worker], l); }
  }

  lemma OwnCharge(s: Sys, l: Label)
    requires QueueInv(s) && Enabled(s, l) && l.Reserve?
    ensures CopiesSound(Step(s, l), l.worker)
  {
    assert CopiesSound(s, l.worker) && RowSound(s.jobs[s.pcs[l.worker].job]);
    if Holds(s, l.worker) { ChargedAgrees(s.jobs[s.pcs[l.worker].job], s.pcs[l.worker], l, Pays(s), SolveKey(s)); }
  }

  lemma MovedAgrees(job: Job, pc: Pc, l: Label)
    requires Local(l) && Allowed(pc, l) && CopiesAgree(job, pc) && (job.providerJob.Some? ==> job.submission.Some?)
    ensures Moved(pc, l).Busy? && Moved(pc, l).job == pc.job && CopiesAgree(job, Moved(pc, l))
  {}

  lemma ChargedAgrees(job: Job, pc: Pc, l: Label, paid: bool, key: ApiUsage.Key)
    requires l.Reserve? && Allowed(pc, l) && CopiesAgree(job, pc) && (job.providerJob.Some? ==> job.submission.Some?)
    ensures CopiesAgree(job, Charged(pc, l, paid, key))
  {}

  lemma OwnWrite(s: Sys, l: Label)
    requires QueueInv(s) && Enabled(s, l) && WritesQueue(l)
    ensures CopiesSound(Step(s, l), l.worker)
  {
    assert CopiesSound(s, l.worker) && RowSound(s.jobs[s.pcs[l.worker].job]);
    WorkerTable(s, l);
    if Holds(s, l.worker) { WrittenSound(s, l); }
  }

  lemma OthersStep(s: Sys, l: Label, w: WorkerId)
    requires QueueInv(s) && Enabled(s, l) && Working(s, w)
    requires !Global(l) ==> l.worker != w
    ensures CopiesSound(Step(s, l), w)
  {
    var id := s.pcs[w].job;
    assert CopiesSound(s, w) && RowSound(s.jobs[id]);
    if l.Admin? {
      AdminRow(s.jobs, l.op, id);
    } else if !Global(l) && !l.ClaimJob? {
      WorkerTable(s, l);
    }
  }

  lemma TableStep(s: Sys, l: Label)
    requires QueueInv(s) && Enabled(s, l)
    ensures TableForm(Step(s, l).jobs)
    ensures forall id :: id !in Step(s, l).jobs ==> id !in s.jobs && Count(Step(s, l).recorded, id) == 0
  {
    FormPreserved(s.jobs, OpOf(s, l));
  }

  lemma CopiesStep(s: Sys, l: Label, w: WorkerId)
    requires QueueInv(s) && Enabled(s, l)
    ensures CopiesSound(Step(s, l), w)
  {
    if Working(Step(s, l), w) {
      if !Global(l) && l.worker == w { OwnStep(s, l); } else { OthersStep(s, l, w); }
    }
  }

  lemma QueueStep(s: Sys, l: Label)
    requires QueueInv(s) && Enabled(s, l)
    ensures QueueInv(Step(s, l))
  {
    var s' := Step(s, l);
    TableStep(s, l);
    forall id | id in s'.jobs ensures RowSound(s'.jobs[id]) && HolderKnown(s', id) && Ledger(s', id) {
      RowStep(s, l, id);
    }
    forall w | w in s'.pcs ensures CopiesSound(s', w) {
      CopiesStep(s, l, w);
    }
  }

  // ------------------------------------------------------------------ quota

  ghost function Paid(pcs: map<WorkerId, Pc>, key: ApiUsage.Key): set<WorkerId> {
    set w | w in pcs && PaidAt(pcs, w) == Some(key)
  }

  /** Submissions charged to a month, made or outstanding, are reserved units; those respect the limit. */
  ghost predicate QuotaInv(s: Sys) {
    && ApiUsage.Settled(s.usage, s.config)
    && forall key: ApiUsage.Key :: key.api.PlateSolve? ==>
        && Count(s.submits, key) + |Paid(s.pcs, key)| <= ApiUsage.Used(s.usage, key)
        && ApiUsage.Used(s.usage, key) <= ApiUsage.Limit(s.config, key)
  }

  lemma PaidSplit(ws: set<WorkerId>, w: WorkerId)
    ensures |ws| == |ws - {w}| + if w in ws then 1 else 0
  {
    if w in ws { assert ws == (ws - {w}) + {w}; } else { assert ws == ws - {w}; }
  }

  /** Moving one worker takes at most its own ticket away and adds at most its new one. */
  lemma PaidMove(pcs: map<WorkerId, Pc>, w: WorkerId, pc: Pc, key: ApiUsage.Key)
    ensures
      var before := if PaidAt(pcs, w) == Some(key) then 1 else 0;
      var after := if PaidAt(pcs[w := pc], w) == Some(key) then 1 else 0;
      |Paid(pcs[w := pc], key)| == |Paid(pcs, key)| - before + after
  {
    PaidRest(pcs, w, pc, key);
    PaidSplit(Paid(pcs, key), w);
    PaidSplit(Paid(pcs[w := pc], key), w);
  }

  lemma PaidRest(pcs: map<WorkerId, Pc>, w: WorkerId, pc: Pc, key: ApiUsage.Key)
    ensures Paid(pcs[w := pc], key) - {w} == Paid(pcs, key) - {w}
    ensures w in Paid(pcs, key) <==> PaidAt(pcs, w) == Some(key)
    ensures w in Paid(pcs[w := pc], key) <==> PaidAt(pcs[w := pc], w) == Some(key)
  {
    forall v | v != w ensures PaidAt(pcs[w := pc], v) == PaidAt(pcs, v) {}
  }

  lemma UsageStep(s: Sys, l: Label)
    requires QuotaInv(s) && Enabled(s, l)
    ensures ApiUsage.Settled(Step(s, l).usage, s.config)
    ensures forall key: ApiUsage.Key :: key.api.PlateSolve? ==>
              ApiUsage.Used(Step(s, l).usage, key) ==
              ApiUsage.Used(s.usage, key) + if l.Reserve? && Pays(s) && key == SolveKey(s) then 1 else 0
  {
    if l.Reserve? {
      ApiUsage.ReservedStep(s.usage, s.config, SolveKey(s), 1);
    }
    if l.OtherUsage? {
      forall key: ApiUsage.Key { ApiUsage.EffectStep(s.usage, s.config, l.call, key); }
    }
  }

  /** A charge becomes outstanding when it is paid, and made when the provider call ends or the worker crashes. */
  lemma TicketStep(s: Sys, l: Label, key: ApiUsage.Key)
    requires Enabled(s, l) && key.api.PlateSolve?
    ensures Count(Step(s, l).submits, key) + |Paid(Step(s, l).pcs, key)| <=
            Count(s.submits, key) + |Paid(s.pcs, key)| + if l.Reserve? && Pays(s) && key == SolveKey(s) then 1 else 0
  {
    if !Global(l) {
      PaidMove(s.pcs, l.worker, PcAfter(s, l), key);
    }
  }

  lemma QuotaStep(s: Sys, l: Label)
    requires QuotaInv(s) && Enabled(s, l)
    ensures QuotaInv(Step(s, l))
  {
    UsageStep(s, l);
    forall key: ApiUsage.Key | key.api.PlateSolve?
      ensures Count(Step(s, l).submits, key) + |Paid(Step(s, l).pcs, key)| <= ApiUsage.Used(Step(s, l).usage, key)
      ensures ApiUsage.Used(Step(s, l).usage, key) <= ApiUsage.Limit(s.config, key)
    {
      assert Count(s.submits, key) + |Paid(s.pcs, key)| <= ApiUsage.Used(s.usage, key);
      TicketStep(s, l, key);
    }
  }

  // ------------------------------------------------------------------- runs

  ghost predicate Init(s: Sys) {
    s.jobs == map[] && s.pcs == map[] && s.usage == map[] && s.submits == map[] && s.recorded == map[]
  }

  /** `states[i]` is the state before `labels[i]`. */
  ghost predicate Run(states: seq<Sys>, labels: seq<Label>) {
    && |states| == |labels| + 1
    && Init(states[0])
    && forall i :: 0 <= i < |labels| ==> Enabled(states[i], labels[i]) && states[i + 1] == Step(states[i], labels[i])
  }

  lemma {:induction false} Reachable(states: seq<Sys>, labels: seq<Label>, i: nat)
    requires Run(states, labels) && i < |states|
    ensures QueueInv(states[i]) && QuotaInv(states[i])
  {
    if i > 0 {
      Reachable(states, labels, i - 1);
      QueueStep(states[i - 1], labels[i - 1]);
      QuotaStep(states[i - 1], labels[i - 1]);
    } else {
      assert forall key: ApiUsage.Key :: Paid(states[0].pcs, key) == {};
    }
  }

  /** The queue seen alone is a run of the job table, so its fencing results hold here. */
  lemma TablesRun(states: seq<Sys>, labels: seq<Label>)
    requires Run(states, labels)
    ensures PlateSolveJobs.Run(seq(|states|, i requires 0 <= i < |states| => states[i].jobs),
                               seq(|labels|, i requires 0 <= i < |labels|
                                   && Enabled(states[i], labels[i]) => OpOf(states[i], labels[i])))
  {}

  predicate WorksOn(s: Sys, w: WorkerId, id: JobId) {
    Working(s, w) && s.pcs[w].job == id
  }

  predicate OwnsJob(s: Sys, w: WorkerId, id: JobId) {
    id in s.jobs && Owns(s.jobs[id], w)
  }

  /** A row comes to carry the id of a worker that does not work on it by a crash only. */
  lemma LeftStep(s: Sys, l: Label, w: WorkerId, id: JobId)
    requires QueueInv(s) && Enabled(s, l)
    requires OwnsJob(Step(s, l), w, id) && !WorksOn(Step(s, l), w, id)
    ensures OwnsJob(s, w, id)
    ensures WorksOn(s, w, id) ==> l == Crash(w)
  {
    if id in s.jobs {
      assert RowSound(s.jobs[id]);
    }
    if l.Admin? {
      AdminRow(s.jobs, l.op, id);
    } else if !Global(l) && !l.ClaimJob? {
      WorkerTable(s, l);
      LeftByWorker(s, l, w, id);
    }
  }

  lemma LeftByWorker(s: Sys, l: Label, w: WorkerId, id: JobId)
    requires Enabled(s, l) && !Global(l) && !l.ClaimJob? && OwnsJob(Step(s, l), w, id) && !WorksOn(Step(s, l), w, id)
    requires Step(s, l).jobs ==
             if WritesQueue(l) && Holds(s, l.worker) then s.jobs[s.pcs[l.worker].job := RowWritten(s, l)] else s.jobs
    ensures OwnsJob(s, w, id)
    ensures WorksOn(s, w, id) ==> l == Crash(w)
  {}

  lemma LeftInRun(states: seq<Sys>, labels: seq<Label>, k: nat, w: WorkerId, id: JobId)
    requires Run(states, labels) && k < |labels|
    requires OwnsJob(states[k + 1], w, id) && !WorksOn(states[k + 1], w, id)
    ensures OwnsJob(states[k], w, id)
    ensures WorksOn(states[k], w, id) ==> labels[k] == Crash(w)
  {
    Reachable(states, labels, k);
    LeftStep(states[k], labels[k], w, id);
  }

  /**
   * Every worker lets go: whatever the provider and everybody else do, a job that carries the id of a
   * worker which does not work on it was left by a crash of that worker, or of an earlier process under
   * its id, and has lain there since.
   */
  lemma LetsGo(states: seq<Sys>, labels: seq<Label>, i: nat, w: WorkerId, id: JobId) returns (k: nat)
    requires Run(states, labels) && i < |states|
    requires OwnsJob(states[i], w, id) && !WorksOn(states[i], w, id)
    ensures k < i && labels[k] == Crash(w) && WorksOn(states[k], w, id)
    ensures forall m :: k <= m <= i ==> OwnsJob(states[m], w, id)
    ensures forall m :: k < m <= i ==> !WorksOn(states[m], w, id)
  {
    forall m | 0 <= m < |labels| ensures LeftFrom(states[m], labels[m], states[m + 1], w, id) {
      if OwnsJob(states[m + 1], w, id) && !WorksOn(states[m + 1], w, id) { LeftInRun(states, labels, m, w, id); }
    }
    k := LatestCrash(states, labels, i, w, id);
  }

  ghost predicate LeftFrom(s: Sys, l: Label, s': Sys, w: WorkerId, id: JobId) {
    OwnsJob(s', w, id) && !WorksOn(s', w, id) ==> OwnsJob(s, w, id) && (WorksOn(s, w, id) ==> l == Crash(w))
  }

  lemma {:induction false} LatestCrash(states: seq<Sys>, labels: seq<Label>, i: nat, w: WorkerId, id: JobId)
    returns (k: nat)
    requires |states| == |labels| + 1 && !OwnsJob(states[0], w, id) && i < |states|
    requires forall m :: 0 <= m < |labels| ==> LeftFrom(states[m], labels[m], states[m + 1], w, id)
    requires OwnsJob(states[i], w, id) && !WorksOn(states[i], w, id)
    ensures k < i && labels[k] == Crash(w) && WorksOn(states[k], w, id)
    ensures forall m :: k <= m <= i ==> OwnsJob(states[m], w, id)
    ensures forall m :: k < m <= i ==> !WorksOn(states[m], w, id)
  {
    assert i > 0 && LeftFrom(states[i - 1], labels[i - 1], states[i - 1 + 1], w, id);
    if WorksOn(states[i - 1], w, id) {
      k := i - 1;
    } else {
      k := LatestCrash(states, labels, i - 1, w, id);
    }
  }

  /** Every job a worker puts back into the queue has a saved submission to resume. */
  lemma RequeuedIsResumable(states: seq<Sys>, labels: seq<Label>, i: nat)
    requires Run(states, labels) && i < |labels|
    requires labels[i].GiveUp? && Holds(states[i], labels[i].worker)
    ensures
      var id := states[i].pcs[labels[i].worker].job;
      && id in states[i + 1].jobs
      && (states[i + 1].jobs[id].status.Waiting? ==> states[i + 1].jobs[id].submission.Some?)
  {
    Reachable(states, labels, i);
    assert CopiesSound(states[i], labels[i].worker);
  }

  /** In the polling loop the worker's ids are the row's while it owns the row. */
  lemma PollingCopies(states: seq<Sys>, labels: seq<Label>, i: nat, w: WorkerId)
    requires Run(states, labels) && i < |states|
    requires Holds(states[i], w) && (states[i].pcs[w].at.Polling? || states[i].pcs[w].at.Asking?)
    ensures
      var s := states[i];
      && s.jobs[s.pcs[w].job].submission == s.pcs[w].sub && s.pcs[w].sub.Some?
      && s.jobs[s.pcs[w].job].providerJob == s.pcs[w].pj
  {
    Reachable(states, labels, i);
    assert CopiesSound(states[i], w);
  }

  /** One step keeps a saved submission id, and keeps attempts and recorded submissions in step. */
  lemma WorkKept(s: Sys, l: Label, id: JobId)
    requires QueueInv(s) && Enabled(s, l)
    requires id in s.jobs && s.jobs[id].submission.Some?
    ensures id in Step(s, l).jobs && Step(s, l).jobs[id].submission.Some?
    ensures Step(s, l).jobs[id].attempts - Count(Step(s, l).recorded, id) ==
            s.jobs[id].attempts - Count(s.recorded, id)
  {
    assert RowSound(s.jobs[id]);
    if l.Admin? {
      AdminRow(s.jobs, l.op, id);
    } else if !Global(l) && !l.ClaimJob? {
      WorkKeptByWorker(s, l, id);
    }
  }

  lemma WorkKeptByWorker(s: Sys, l: Label, id: JobId)
    requires QueueInv(s) && Enabled(s, l) && !Global(l) && !l.ClaimJob?
    requires id in s.jobs && s.jobs[id].submission.Some?
    ensures id in Step(s, l).jobs && Step(s, l).jobs[id].submission.Some?
    ensures Step(s, l).jobs[id].attempts - Count(Step(s, l).recorded, id) ==
            s.jobs[id].attempts - Count(s.recorded, id)
  {
    assert CopiesSound(s, l.worker);
    WorkerTable(s, l);
  }

  /**
   * Provider work is never forgotten: once a submission id is saved it stays non-null for ever, a
   * provider job id always comes with it, and from then on attempts and recorded submissions move
   * together; recorded submissions never exceed attempts.
   */
  lemma NeverForgotten(states: seq<Sys>, labels: seq<Label>, i: nat, i': nat, id: JobId)
    requires Run(states, labels) && i <= i' < |states|
    requires id in states[i].jobs && states[i].jobs[id].submission.Some?
    ensures id in states[i'].jobs && states[i'].jobs[id].submission.Some?
    ensures states[i'].jobs[id].attempts - Count(states[i'].recorded, id) ==
            states[i].jobs[id].attempts - Count(states[i].recorded, id) >= 0
  {
    SavedTogether(states, labels, i, id);
    forall m | 0 <= m < |labels| ensures WorkLasts(states[m], states[m + 1], id) {
      if HasWork(states[m], id) { WorkKeptInRun(states, labels, m, id); }
    }
    WorkLastsLong(states, i, i', id);
  }

  predicate HasWork(s: Sys, id: JobId) {
    id in s.jobs && s.jobs[id].submission.Some?
  }

  ghost predicate WorkLasts(s: Sys, s': Sys, id: JobId) {
    HasWork(s, id) ==>
      && HasWork(s', id)
      && s'.jobs[id].attempts - Count(s'.recorded, id) == s.jobs[id].attempts - Count(s.recorded, id)
  }

  lemma {:induction false} WorkLastsLong(states: seq<Sys>, i: nat, i': nat, id: JobId)
    requires i <= i' < |states| && HasWork(states[i], id)
    requires forall m :: 0 <= m < |states| - 1 ==> WorkLasts(states[m], states[m + 1], id)
    ensures WorkLasts(states[i], states[i'], id)
  {
    if i < i' {
      WorkLastsLong(states, i, i' - 1, id);
      assert WorkLasts(states[i' - 1], states[i' - 1 + 1], id);
    }
  }

  lemma WorkKeptInRun(states: seq<Sys>, labels: seq<Label>, k: nat, id: JobId)
    requires Run(states, labels) && k < |labels| && HasWork(states[k], id)
    ensures WorkLasts(states[k], states[k + 1], id)
  {
    Reachable(states, labels, k);
    WorkKept(states[k], labels[k], id);
  }

  lemma SavedTogether(states: seq<Sys>, labels: seq<Label>, i: nat, id: JobId)
    requires Run(states, labels) && i < |states| && id in states[i].jobs
    ensures states[i].jobs[id].providerJob.Some? ==> states[i].jobs[id].submission.Some?
    ensures Count(states[i].recorded, id) <= states[i].jobs[id].attempts
  {
    Reachable(states, labels, i);
    assert RowSound(states[i].jobs[id]) && Ledger(states[i], id);
  }

  /** Provider submissions charged to a month never exceed its reserved units, nor those its limit. */
  lemma SubmissionsArePaid(states: seq<Sys>, labels: seq<Label>, i: nat, key: ApiUsage.Key)
    requires Run(states, labels) && i < |states| && key.api.PlateSolve?
    ensures Count(states[i].submits, key) <= ApiUsage.Used(states[i].usage, key)
    ensures ApiUsage.Used(states[i].usage, key) <= ApiUsage.Limit(states[i].config, key)
  {
    Reachable(states, labels, i);
    assert Count(states[i].submits, key) + |Paid(states[i].pcs, key)| <= ApiUsage.Used(states[i].usage, key);
  }

  predicate Replaces(pc: Pc) {
    pc.Busy? && (pc.at.Missing? || pc.at.Resubmitting? || pc.at.Replacing?)
  }

  /** Ownership lost during a job is not regained before the next claim. */
  lemma StillHeld(s: Sys, l: Label, w: WorkerId)
    requires QueueInv(s) && Enabled(s, l) && Working(s, w) && Holds(Step(s, l), w)
    requires Step(s, l).pcs[w].job == s.pcs[w].job
    ensures Holds(s, w)
  {
    var id := s.pcs[w].job;
    assert CopiesSound(s, w) && RowSound(s.jobs[id]);
    if l.Admin? {
      AdminRow(s.jobs, l.op, id);
    } else if !Global(l) && !l.ClaimJob? {
      WorkerTable(s, l);
    }
  }

  /** A completion, failure or requeue of the job that the row accepts. */
  predicate ReleasesJob(s: Sys, l: Label, id: JobId) {
    (l.Finish? || l.GiveUp?) && Holds(s, l.worker) && s.pcs[l.worker].job == id
  }

  predicate ClaimsFor(l: Label, w: WorkerId, id: JobId) {
    l.ClaimJob? && l.worker == w && l.id == id
  }

  /** The worker held the job before the step, which neither claims nor releases it. */
  predicate KeptBy(s: Sys, l: Label, w: WorkerId, id: JobId) {
    && Holds(s, w) && s.pcs[w].job == id
    && !ReleasesJob(s, l, id) && !(l.ClaimJob? && l.id == id)
  }

  lemma SameJob(s: Sys, l: Label, w: WorkerId)
    requires Enabled(s, l) && Working(Step(s, l), w)
    ensures WorksOn(s, w, Step(s, l).pcs[w].job) || ClaimsFor(l, w, Step(s, l).pcs[w].job)
  {}

  lemma OthersClaim(s: Sys, l: Label, w: WorkerId, id: JobId)
    requires Enabled(s, l) && WorksOn(s, w, id) && (ReleasesJob(s, l, id) || (l.ClaimJob? && l.id == id))
    requires TableForm(s.jobs) && OwnsJob(s, w, id)
    ensures !OwnsJob(Step(s, l), w, id)
  {}

  lemma HeldStep(s: Sys, l: Label, w: WorkerId)
    requires QueueInv(s) && Enabled(s, l) && Holds(Step(s, l), w)
    ensures
      var id := Step(s, l).pcs[w].job;
      ClaimsFor(l, w, id) || KeptBy(s, l, w, id)
  {
    var id := Step(s, l).pcs[w].job;
    SameJob(s, l, w);
    if !ClaimsFor(l, w, id) {
      StillHeld(s, l, w);
      if ReleasesJob(s, l, id) || (l.ClaimJob? && l.id == id) { OthersClaim(s, l, w, id); }
    }
  }

  lemma HeldInRun(states: seq<Sys>, labels: seq<Label>, k: nat, w: WorkerId)
    requires Run(states, labels) && k < |labels| && Holds(states[k + 1], w)
    ensures
      var id := states[k + 1].pcs[w].job;
      ClaimsFor(labels[k], w, id) || KeptBy(states[k], labels[k], w, id)
  {
    Reachable(states, labels, k);
    HeldStep(states[k], labels[k], w);
  }

  /**
   * Fencing in the protocol: a worker whose writes are accepted claimed the job, has held it in every
   * state since, and nobody claimed or released it in between. A process that restarts under the id of
   * a crashed one cannot write to the job before it claims it again.
   */
  lemma HeldSinceClaim(states: seq<Sys>, labels: seq<Label>, i: nat, w: WorkerId) returns (k: nat)
    requires Run(states, labels) && i < |states| && Holds(states[i], w)
    ensures k < i && ClaimsFor(labels[k], w, states[i].pcs[w].job)
    ensures forall m :: k < m < i ==> KeptBy(states[m], labels[m], w, states[i].pcs[w].job)
  {
    forall m | 0 <= m < |labels| ensures HeldFrom(states[m], labels[m], states[m + 1], w) {
      if Holds(states[m + 1], w) { HeldInRun(states, labels, m, w); }
    }
    k := LatestClaim(states, labels, i, w);
  }

  /** Holding a job is the effect of a claim, or goes on. */
  ghost predicate HeldFrom(s: Sys, l: Label, s': Sys, w: WorkerId) {
    Holds(s', w) ==> ClaimsFor(l, w, s'.pcs[w].job) || KeptBy(s, l, w, s'.pcs[w].job)
  }

  lemma {:induction false} LatestClaim(states: seq<Sys>, labels: seq<Label>, i: nat, w: WorkerId) returns (k: nat)
    requires |states| == |labels| + 1 && !Holds(states[0], w) && i < |states| && Holds(states[i], w)
    requires forall m :: 0 <= m < |labels| ==> HeldFrom(states[m], labels[m], states[m + 1], w)
    ensures k < i && ClaimsFor(labels[k], w, states[i].pcs[w].job)
    ensures forall m :: k < m < i ==> KeptBy(states[m], labels[m], w, states[i].pcs[w].job)
  {
    assert i > 0 && HeldFrom(states[i - 1], labels[i - 1], states[i - 1 + 1], w);
    if ClaimsFor(labels[i - 1], w, states[i].pcs[w].job) {
      k := i - 1;
    } else {
      k := LatestClaim(states, labels, i - 1, w);
    }
  }

  predicate SameWork(s: Sys, w: WorkerId, pc: Pc)
    requires pc.Busy?
  {
    Holds(s, w) && s.pcs[w].job == pc.job && s.pcs[w].sub == pc.sub && s.pcs[w].pj == pc.pj
  }

  lemma SameWorkAgain(s: Sys, w: WorkerId, pc: Pc, later: Pc)
    requires pc.Busy? && later.Busy? && SameWork(s, w, pc)
    requires pc.job == later.job && pc.sub == later.sub && pc.pj == later.pj
    ensures SameWork(s, w, later)
  {}

  /** The replacement path is entered by a not-found answer only, and keeps the worker's copies. */
  lemma ReplacesStep(s: Sys, l: Label, w: WorkerId)
    requires QueueInv(s) && Enabled(s, l)
    requires Holds(Step(s, l), w) && Replaces(Step(s, l).pcs[w])
    ensures SameWork(s, w, Step(s, l).pcs[w])
    ensures Replaces(s.pcs[w]) || (l.NotFound? && l.worker == w)
  {
    assert Working(s, w) && s.pcs[w].job == Step(s, l).pcs[w].job;
    StillHeld(s, l, w);
  }

  lemma ReplacesInRun(states: seq<Sys>, labels: seq<Label>, k: nat, w: WorkerId)
    requires Run(states, labels) && k < |labels|
    requires Holds(states[k + 1], w) && Replaces(states[k + 1].pcs[w])
    ensures SameWork(states[k], w, states[k + 1].pcs[w])
    ensures Replaces(states[k].pcs[w]) || (labels[k].NotFound? && labels[k].worker == w)
  {
    Reachable(states, labels, k);
    ReplacesStep(states[k], labels[k], w);
  }

  /** A worker on the replacement path was told, in this claim, that its saved work is gone. */
  lemma MissingOrigin(states: seq<Sys>, labels: seq<Label>, i: nat, w: WorkerId) returns (k: nat)
    requires Run(states, labels) && i < |states|
    requires Holds(states[i], w) && Replaces(states[i].pcs[w])
    ensures k < i && labels[k].NotFound? && labels[k].worker == w
    ensures forall m :: k <= m < i ==> SameWork(states[m], w, states[i].pcs[w])
  {
    forall m | 0 <= m < |labels| ensures ReplacesFrom(states[m], labels[m], states[m + 1], w) {
      if Holds(states[m + 1], w) && Replaces(states[m + 1].pcs[w]) { ReplacesInRun(states, labels, m, w); }
    }
    k := LatestNotFound(states, labels, i, w);
  }

  ghost predicate ReplacesFrom(s: Sys, l: Label, s': Sys, w: WorkerId) {
    Holds(s', w) && Replaces(s'.pcs[w]) ==>
      SameWork(s, w, s'.pcs[w]) && (Replaces(s.pcs[w]) || (l.NotFound? && l.worker == w))
  }

  lemma {:induction false} LatestNotFound(states: seq<Sys>, labels: seq<Label>, i: nat, w: WorkerId) returns (k: nat)
    requires |states| == |labels| + 1 && !Holds(states[0], w) && i < |states|
    requires forall m :: 0 <= m < |labels| ==> ReplacesFrom(states[m], labels[m], states[m + 1], w)
    requires Holds(states[i], w) && Replaces(states[i].pcs[w])
    ensures k < i && labels[k].NotFound? && labels[k].worker == w
    ensures forall m :: k <= m < i ==> SameWork(states[m], w, states[i].pcs[w])
  {
    assert i > 0 && ReplacesFrom(states[i - 1], labels[i - 1], states[i - 1 + 1], w);
    if labels[i - 1].NotFound? && labels[i - 1].worker == w {
      k := i - 1;
    } else {
      k := LatestNotFound(states, labels, i - 1, w);
      forall m | k <= m < i - 1 ensures SameWork(states[m], w, states[i].pcs[w]) {
        SameWorkAgain(states[m], w, states[i - 1].pcs[w], states[i].pcs[w]);
      }
    }
  }

  /**
   * Provider work is never needlessly redone: every submission recorded after the job's first one is
   * a replacement, and follows the provider's statement, to the same worker in the same claim, that
   * exactly the saved ids do not exist.
   */
  lemma LaterSubmissionsReplaceMissingWork(states: seq<Sys>, labels: seq<Label>, i: nat)
    requires Run(states, labels) && i < |labels|
    requires labels[i].Record? && Holds(states[i], labels[i].worker)
    requires
      var id := states[i].pcs[labels[i].worker].job;
      Count(states[i].recorded, id) > 0
    ensures exists k: nat ::
      && k < i && labels[k].NotFound? && labels[k].worker == labels[i].worker
      && (forall m :: k <= m < i ==> SameWork(states[m], labels[i].worker, states[i].pcs[labels[i].worker]))
      && var pc := states[k].pcs[labels[i].worker];
         && states[k].jobs[pc.job].submission == pc.sub && pc.sub.Some?
         && states[k].jobs[pc.job].providerJob == pc.pj
  {
    var w := labels[i].worker;
    Reachable(states, labels, i);
    assert CopiesSound(states[i], w) && Ledger(states[i], states[i].pcs[w].job);
    var k := MissingOrigin(states, labels, i, w);
    Reachable(states, labels, k);
    assert CopiesSound(states[k], w);
  }
}
