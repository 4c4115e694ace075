/**
 * The worker program itself. It runs against a queue that other workers, administrators, lease
 * expiry and crashes change between any two of its transactions, and against a provider that
 * answers as it likes. Every transaction is performed by the repositories and is shown to be a step
 * of the protocol, so the results about runs of the protocol hold for runs of this program.
 */
module PlateSolveWorker {
  import opened Options
  import opened PlateSolveJobs
  import opened PlateSolveProtocol
  import ApiUsage
  import opened ProviderErrors

  /** What the provider, or the code around a provider call, comes back with. */
  datatype Answer =
    | Accepted(id: int)                 // a submission was taken
    | Unfinished
    | Resolved(id: int)                 // the submission's provider job
    | Gone                              // the saved work does not exist
    | Completed(result: Option<int>, solution: Option<int>, wcs: Option<int>)
    | Error(raised: ProviderErrors.Raised)  // anything that raises

  /** What the next call comes back with. */
  function NextAnswer(script: seq<Answer>): Answer {
    if script == [] then Error(DEADLINE) else script[0]
  }

  /** Whether the answer is an exception that is safe to resume later. */
  ghost predicate Transiently(answer: Answer) {
    answer.Error? && TransientChain(answer.raised)
  }

  /** An unreliable provider; when its script ends the polling deadline has passed. */
  class Provider {
    var script: seq<Answer>

    constructor (script: seq<Answer>)
      ensures this.script == script
    {
      this.script := script;
    }

    method Call() returns (answer: Answer)
      modifies this
      ensures answer == NextAnswer(old(script))
      ensures script == if old(script) == [] then [] else old(script)[1..]
    {
      if script == [] {
        return Error(DEADLINE);
      }
      answer := script[0];
      script := script[1..];
    }
  }

  /** What is left of the script after one call. */
  function Rest(script: seq<Answer>): seq<Answer> {
    if script == [] then [] else script[1..]
  }

  /**
   * What goes wrong for a worker without the provider: its transaction raises, its row is no longer
   * its own, or the month has no submission left.
   */
  predicate Disturbs(s: Sys, l: Label, me: WorkerId) {
    && !Global(l) && l.worker == me && Working(s, me)
    && match l
       case Raise(_, _) => InTransaction(s.pcs[me].at)
       case Reserve(_, _) => !Pays(s)
       case _ => WritesQueue(l) && !Holds(s, me)
  }

  /** How often something went wrong for the worker. */
  ghost function Troubles(states: seq<Sys>, labels: seq<Label>, me: WorkerId): nat
    decreases |labels|
  {
    if labels == [] || |states| < |labels| then 0
    else
      var n := |labels| - 1;
      Troubles(states[..n + 1], labels[..n], me) + if Disturbs(states[n], labels[n], me) then 1 else 0
  }

  lemma TroublesGrow(states: seq<Sys>, labels: seq<Label>, after: Sys, l: Label, me: WorkerId)
    requires |states| == |labels| + 1
    ensures Troubles(states + [after], labels + [l], me) ==
            Troubles(states, labels, me) + if Disturbs(states[|labels|], l, me) then 1 else 0
  {
    assert (states + [after])[..|states|] == states && (labels + [l])[..|labels|] == labels;
  }

  /** When the number has grown, something went wrong meanwhile. */
  lemma {:induction false} TroubleHappened(states0: seq<Sys>, labels0: seq<Label>, states: seq<Sys>,
                                           labels: seq<Label>, me: WorkerId)
    requires states0 <= states && labels0 <= labels
    requires |states0| == |labels0| + 1 && |states| == |labels| + 1
    requires Troubles(states0, labels0, me) < Troubles(states, labels, me)
    ensures exists k :: |labels0| <= k < |labels| && Disturbs(states[k], labels[k], me)
  {
    assert labels0 == labels ==> states0 == states;
    var n := |labels| - 1;
    if !Disturbs(states[n], labels[n], me) {
      TroubleHappened(states0, labels0, states[..n + 1], labels[..n], me);
    }
  }

  class World {
    const queue: PlateSolveJobRepository
    const usage: ApiUsage.ApiUsageRepository
    var now: int
    var year: int
    var month: int
    var others: seq<seq<Label>>  // what everybody else will try to do, one batch per interleaving point
    var faults: seq<bool>        // which of the worker's coming transactions raise instead
    var pcs: map<WorkerId, Pc>
    var submits: map<ApiUsage.Key, nat>
    var recorded: map<JobId, nat>
    ghost var states: seq<Sys>
    ghost var labels: seq<Label>

    function View(): Sys
      reads this, queue, usage
    {
      Sys(queue.rows, pcs, usage.rows, usage.config, now, year, month, submits, recorded)
    }

    /** Everything that has happened so far is a run of the protocol that ends in the current state. */
    ghost predicate Valid()
      reads this, queue, usage
    {
      PlateSolveProtocol.Run(states, labels) && states[|states| - 1] == View()
    }

    /** The history has grown since, and this worker did not crash meanwhile. */
    ghost predicate Since(states0: seq<Sys>, labels0: seq<Label>, me: WorkerId)
      reads this
    {
      && states0 <= states && labels0 <= labels
      && (forall k :: |labels0| <= k < |labels| ==> labels[k] != Crash(me))
      && Troubles(states0, labels0, me) <= Troubles(states, labels, me)
    }

    ghost predicate Troubled(states0: seq<Sys>, labels0: seq<Label>, me: WorkerId)
      reads this
    {
      Troubles(states0, labels0, me) < Troubles(states, labels, me)
    }

    /** The row holds this result, and nobody works on it any more. */
    ghost predicate Finished(id: JobId, result: Option<int>, solution: Option<int>, wcs: Option<int>)
      reads queue
    {
      && id in queue.rows && queue.rows[id].status == Status.Completed
      && queue.rows[id].providerJob == result && queue.rows[id].solution == solution && queue.rows[id].wcs == wcs
      && queue.rows[id].lastError == None && queue.rows[id].worker == None && queue.rows[id].lease == None
    }

    /** The row was given up with this message: it waits again, or it failed. */
    ghost predicate Returned(id: JobId, requeue: bool, message: string)
      reads queue
    {
      && id in queue.rows && queue.rows[id].status == (if requeue then Status.Waiting else Status.Failed)
      && queue.rows[id].lastError == Some(message) && queue.rows[id].worker == None && queue.rows[id].lease == None
    }

    /** The latest step of all was this one, and `held` tells whether its worker owned its job then. */
    ghost predicate Latest(l: Label, held: bool)
      reads this
    {
      && |labels| > 0 && |states| == |labels| + 1 && labels[|labels| - 1] == l && !Global(l)
      && (held <==> Holds(states[|labels| - 1], l.worker))
    }

    ghost predicate LastIs(l: Label)
      reads this
    {
      |labels| > 0 && labels[|labels| - 1] == l
    }

    constructor (config: ApiUsage.Config, now: int, year: int, month: int, others: seq<seq<Label>>, faults: seq<bool>)
      ensures Valid() && pcs == map[] && queue.rows == map[]
      ensures fresh(queue) && fresh(usage)
    {
      queue := new PlateSolveJobRepository();
      usage := new ApiUsage.ApiUsageRepository(config);
      this.now, this.year, this.month := now, year, month;
      this.others, this.faults := others, faults;
      pcs, submits, recorded := map[], map[], map[];
      labels := [];
      new;
      states := [View()];
    }

    /** Appends a step that the real state has just taken to the history. */
    ghost method Log(l: Label, before: Sys)
      requires PlateSolveProtocol.Run(states, labels) && states[|states| - 1] == before
      requires Enabled(before, l) && View() == Step(before, l)
      modifies this`states, this`labels
      ensures Valid() && labels == old(labels) + [l] && states == old(states) + [View()]
      ensures forall w :: Troubles(states, labels, w) ==
                old(Troubles(states, labels, w)) + if Disturbs(before, l, w) then 1 else 0
    {
      hide Troubles, Disturbs;
      forall w {
        TroublesGrow(states, labels, View(), l, w);
      }
      states := states + [View()];
      labels := labels + [l];
    }

    method Advance(l: Label, before: Sys)
      requires Enabled(before, l) && pcs == before.pcs && submits == before.submits && recorded == before.recorded
      modifies this`pcs, this`submits, this`recorded
      ensures pcs == Step(before, l).pcs && submits == Step(before, l).submits && recorded == Step(before, l).recorded
    {
      var after := Step(before, l);
      pcs, submits, recorded := after.pcs, after.submits, after.recorded;
    }

    /** One fenced write on the queue; tells whether the row was the worker's. */
    method Perform(op: JobOp) returns (held: bool)
      requires op.Update? || op.Release?
      modifies queue
      ensures queue.rows == Apply(old(queue.rows), op)
      ensures held <==> op.id in old(queue.rows) && Owns(old(queue.rows)[op.id], op.worker)
    {
      match op {
        case Update(id, me, write) =>
          match write {
            case TouchLease(until) => held := queue.TouchLease(id, me, until - now, now);
            case SaveSubmission(submission) => held := queue.RecordSubmission(id, me, submission);
            case SaveProviderJob(job) => held := queue.RecordProviderJob(id, me, job);
            case SaveReplacement(submission) => held := queue.RecordReplacementSubmission(id, me, submission);
          }
        case Release(id, me, outcome) =>
          match outcome {
            case Complete(job, solution, wcs) => held := queue.MarkCompleted(id, me, job, solution, wcs);
            case Fail(message) => held := queue.MarkFailed(id, me, message);
            case Requeue(message) => held := queue.MarkRetryable(id, me, message);
          }
      }
    }

    method Write(me: WorkerId, l: Label, op: JobOp) returns (held: bool)
      requires Valid() && Enabled(View(), l) && WritesQueue(l) && l.worker == me && op == OpOf(View(), l)
      modifies this, queue
      ensures Valid() && Since(old(states), old(labels), me) && me in pcs
      ensures held <==> old(Holds(View(), me))
      ensures Latest(l, held) && queue.rows == Apply(old(queue.rows), op)
      ensures pcs[me] == Wrote(old(pcs)[me], l, held)
      ensures !held ==> Troubled(old(states), old(labels), me)
      ensures now == old(now)
    {
      var before := View();
      held := Perform(op);
      Advance(l, before);
      Log(l, before);
    }

    /** A transaction that raises commits nothing and ends in the exception handler. */
    method Raises(me: WorkerId) returns (raises: bool)
      requires Valid() && me in pcs && pcs[me].Busy? && InTransaction(pcs[me].at)
      modifies this, queue, usage
      ensures Valid() && Since(old(states), old(labels), me) && me in pcs
      ensures pcs[me] == if raises then Moved(old(pcs)[me], Raise(me, false)) else old(pcs)[me]
      ensures raises ==> LastIs(Raise(me, false)) && Troubled(old(states), old(labels), me)
    {
      hide Troubles;
      Others(me);
      raises := faults != [] && faults[0];
      if faults != [] {
        faults := faults[1..];
      }
      if raises {
        Move(Raise(me, false));
      }
    }

    ghost predicate LeaseIs(id: JobId, until: int)
      reads queue
    {
      id in queue.rows && queue.rows[id].lease == Some(until)
    }

    method Touch(me: WorkerId, leaseSeconds: int) returns (held: bool)
      requires Valid() && me in pcs && pcs[me].Busy? && pcs[me].at.Polling?
      modifies this, queue, usage
      ensures Valid() && Since(old(states), old(labels), me) && me in pcs
      ensures pcs[me] == old(pcs)[me].(at := if held then Asking(old(pcs)[me].at.resuming) else Releasing(false))
      ensures !held ==> Troubled(old(states), old(labels), me)
      ensures held ==> LeaseIs(pcs[me].job, now + leaseSeconds)
    {
      hide Troubles, Disturbs, Step;
      var raises := Raises(me);
      if raises {
        return false;
      }
      held := Write(me, Label.Touch(me, leaseSeconds, false), Update(pcs[me].job, me, TouchLease(now + leaseSeconds)));
    }

    /** `record_submission`, or `record_replacement_submission` for missing work. */
    method Record(me: WorkerId, accepted: int) returns (held: bool)
      requires Valid() && me in pcs && pcs[me].Busy?
      requires pcs[me].at == Recording(accepted) || pcs[me].at == Replacing(accepted)
      modifies this, queue, usage
      ensures Valid() && Since(old(states), old(labels), me) && me in pcs
      ensures pcs[me] == Busy(old(pcs)[me].job, Some(accepted), None, if held then Polling(false) else Releasing(false))
      ensures !held ==> Troubled(old(states), old(labels), me)
      ensures held ==> pcs[me].job in queue.rows && queue.rows[pcs[me].job].submission == Some(accepted)
    {
      hide Troubles, Disturbs, Step;
      var raises := Raises(me);
      if raises {
        return false;
      }
      var write := if pcs[me].at.Recording? then SaveSubmission(accepted) else SaveReplacement(accepted);
      held := Write(me, Label.Record(me, false), Update(pcs[me].job, me, write));
    }

    method SaveJob(me: WorkerId, found: int) returns (held: bool)
      requires Valid() && me in pcs && pcs[me].Busy? && pcs[me].at.Resolving? && pcs[me].at.found == found
      modifies this, queue, usage
      ensures Valid() && Since(old(states), old(labels), me) && me in pcs
      ensures held ==> pcs[me] == old(pcs)[me].(pj := Some(found), at := Polling(old(pcs)[me].at.resuming))
      ensures !held ==> pcs[me] == old(pcs)[me].(at := Releasing(false)) && Troubled(old(states), old(labels), me)
      ensures held ==> pcs[me].job in queue.rows && queue.rows[pcs[me].job].providerJob == Some(found)
    {
      hide Troubles, Disturbs, Step;
      var raises := Raises(me);
      if raises {
        return false;
      }
      held := Write(me, Label.SaveJob(me, false), Update(pcs[me].job, me, SaveProviderJob(found)));
    }

    method Finish(me: WorkerId, result: Option<int>, solution: Option<int>, wcs: Option<int>) returns (held: bool)
      requires Valid() && me in pcs && pcs[me].Busy? && pcs[me].at == Finishing(result)
      modifies this, queue, usage
      ensures Valid() && Since(old(states), old(labels), me) && me in pcs
      ensures pcs[me] == if held then Idle else old(pcs)[me].(at := Releasing(false))
      ensures Latest(Label.Finish(me, solution, wcs, false), held) || (!held && LastIs(Raise(me, false)))
      ensures held ==> Finished(old(pcs)[me].job, result, solution, wcs)
      ensures !held ==> Troubled(old(states), old(labels), me)
    {
      hide Troubles, Disturbs, Step, Apply, World.Finished;
      var raises := Raises(me);
      if raises {
        return false;
      }
      held := FinishNow(me, result, solution, wcs);
    }

    method FinishNow(me: WorkerId, result: Option<int>, solution: Option<int>, wcs: Option<int>) returns (held: bool)
      requires Valid() && me in pcs && pcs[me].Busy? && pcs[me].at == Finishing(result)
      modifies this, queue
      ensures Valid() && Since(old(states), old(labels), me) && me in pcs
      ensures pcs[me] == if held then Idle else old(pcs)[me].(at := Releasing(false))
      ensures Latest(Label.Finish(me, solution, wcs, false), held)
      ensures held ==> Finished(old(pcs)[me].job, result, solution, wcs)
      ensures !held ==> Troubled(old(states), old(labels), me)
    {
      held := Write(me, Label.Finish(me, solution, wcs, false),
                    JobOp.Release(pcs[me].job, me, Complete(result, solution, wcs)));
    }

    method GiveUp(me: WorkerId, requeue: bool, message: string) returns (held: bool)
      requires Valid() && me in pcs && pcs[me].Busy? && pcs[me].at == Releasing(requeue)
      modifies this, queue, usage
      ensures Valid() && Since(old(states), old(labels), me) && me in pcs && pcs[me].Idle?
      ensures Latest(Label.GiveUp(me, message), held)
      ensures held ==> Returned(old(pcs)[me].job, requeue, message)
      ensures !held ==> !OwnsJob(View(), me, old(pcs)[me].job) && Troubled(old(states), old(labels), me)
    {
      hide Troubles;
      Others(me);
      held := GiveUpNow(me, requeue, message);
    }

    method GiveUpNow(me: WorkerId, requeue: bool, message: string) returns (held: bool)
      requires Valid() && me in pcs && pcs[me].Busy? && pcs[me].at == Releasing(requeue)
      modifies this, queue
      ensures Valid() && Since(old(states), old(labels), me) && me in pcs && pcs[me].Idle?
      ensures Latest(Label.GiveUp(me, message), held)
      ensures held ==> Returned(old(pcs)[me].job, requeue, message)
      ensures !held ==> !OwnsJob(View(), me, old(pcs)[me].job) && Troubled(old(states), old(labels), me)
    {
      var outcome := if requeue then Requeue(message) else Fail(message);
      held := Write(me, Label.GiveUp(me, message), JobOp.Release(pcs[me].job, me, outcome));
    }

    /** The reservation itself. */
    method Charge(me: WorkerId) returns (paid: bool)
      requires Valid() && me in pcs && pcs[me].Busy? && (pcs[me].at.Reserving? || pcs[me].at.Missing?)
      modifies this, usage
      ensures Valid() && Since(old(states), old(labels), me) && me in pcs
      ensures pcs[me] == Charged(old(pcs)[me], Label.Reserve(me, false), paid, SolveKey(old(View())))
      ensures !paid ==> Troubled(old(states), old(labels), me)
    {
      var before := View();
      paid := usage.ReserveUsage(ApiUsage.Key(ApiUsage.Astrometry, ApiUsage.PlateSolve, year, month), 1);
      Advance(Label.Reserve(me, false), before);
      Log(Label.Reserve(me, false), before);
    }

    /** `_reserve_submit_usage`. */
    method Reserve(me: WorkerId) returns (paid: bool)
      requires Valid() && me in pcs && pcs[me].Busy? && (pcs[me].at.Reserving? || pcs[me].at.Missing?)
      modifies this, queue, usage
      ensures Valid() && Since(old(states), old(labels), me) && me in pcs
      ensures pcs[me].Busy? && pcs[me] == old(pcs)[me].(at := pcs[me].at)
      ensures !paid ==> pcs[me].at == Releasing(false) && Troubled(old(states), old(labels), me)
      ensures paid ==> if old(pcs)[me].at.Missing? then pcs[me].at.Resubmitting? else pcs[me].at.Submitting?
    {
      hide Troubles;
      var raises := Raises(me);
      if raises {
        return false;
      }
      paid := Charge(me);
    }

    /** The `k`th step was the worker's claim of the job. */
    ghost predicate Took(k: nat, me: WorkerId, id: JobId, leaseSeconds: int)
      reads this
    {
      k < |labels| && labels[k] == ClaimJob(me, id, leaseSeconds)
    }

    /** Whether the job had provider work when the `k`th step was taken. */
    ghost predicate IdsAt(k: nat, id: JobId)
      reads this
    {
      && k < |states| && id in states[k].jobs
      && (states[k].jobs[id].submission.Some? || states[k].jobs[id].providerJob.Some?)
    }

    /** The first transaction of `claim_next`. */
    method Claim(me: WorkerId, leaseSeconds: int, locked: set<JobId>) returns (claimed: Option<JobId>)
      requires Valid() && me in pcs && pcs[me].Idle?
      modifies this, queue, usage
      ensures Valid() && Since(old(states), old(labels), me) && me in pcs
      ensures claimed.None? ==> pcs[me].Idle? && Eligible(queue.rows, locked, now) == {}
      ensures claimed.Some? ==>
                && claimed.value in queue.rows
                && pcs[me] == Busy(claimed.value, queue.rows[claimed.value].submission,
                                   queue.rows[claimed.value].providerJob, Syncing)
                && |states| == |labels| + 1 && |labels| > |old(labels)|
                && Took(|labels| - 1, me, claimed.value, leaseSeconds)
                && IdsAt(|labels| - 1, claimed.value) == HasIds(pcs[me])
    {
      hide Troubles;
      Others(me);
      claimed := ClaimNow(me, leaseSeconds, locked);
    }

    method ClaimNow(me: WorkerId, leaseSeconds: int, locked: set<JobId>) returns (claimed: Option<JobId>)
      requires Valid() && me in pcs && pcs[me].Idle?
      modifies this, queue
      ensures Valid() && Since(old(states), old(labels), me) && me in pcs
      ensures claimed.None? ==> pcs[me].Idle? && Eligible(queue.rows, locked, now) == {}
      ensures claimed.Some? ==>
                && claimed.value in queue.rows
                && pcs[me] == Busy(claimed.value, queue.rows[claimed.value].submission,
                                   queue.rows[claimed.value].providerJob, Syncing)
                && |states| == |labels| + 1 && |labels| > |old(labels)|
                && Took(|labels| - 1, me, claimed.value, leaseSeconds)
                && IdsAt(|labels| - 1, claimed.value) == HasIds(pcs[me])
    {
      hide Troubles, Disturbs, FirstOf, Before;
      var before := View();
      claimed := queue.ClaimNext(me, leaseSeconds, now, locked);
      if claimed.Some? {
        Advance(ClaimJob(me, claimed.value, leaseSeconds), before);
        Log(ClaimJob(me, claimed.value, leaseSeconds), before);
      }
    }

    /** A step of the worker outside the database: only its program counter and the history move. */
    method Move(l: Label)
      requires Valid() && Local(l) && l.worker in pcs && Allowed(pcs[l.worker], l)
      modifies this`pcs, this`submits, this`recorded, this`states, this`labels
      ensures Valid() && Since(old(states), old(labels), l.worker) && l.worker in pcs
      ensures pcs[l.worker] == Moved(old(pcs)[l.worker], l) && labels == old(labels) + [l]
      ensures Disturbs(old(View()), l, l.worker) ==> Troubled(old(states), old(labels), l.worker)
    {
      var before := View();
      Advance(l, before);
      Log(l, before);
    }

    /** One step of somebody else, if it is possible now. */
    method Foreign(me: WorkerId, l: Label)
      requires Valid() && me in pcs && (Global(l) || l.worker != me)
      modifies this, queue, usage
      ensures Valid() && me in pcs && pcs[me] == old(pcs)[me]
      ensures Since(old(states), old(labels), me)
    {
      var before := View();
      if Enabled(before, l) {
        var after := Step(before, l);
        queue.rows, usage.rows := after.jobs, after.usage;
        now, year, month := after.now, after.year, after.month;
        Advance(l, before);
        Log(l, before);
      }
    }

    /** Everybody but `me` runs for a while. */
    method Others(me: WorkerId)
      requires Valid() && me in pcs
      modifies this, queue, usage
      ensures Valid() && me in pcs && pcs[me] == old(pcs)[me]
      ensures Since(old(states), old(labels), me)
    {
      if others == [] {
        return;
      }
      var batch := others[0];
      others := others[1..];
      for i := 0 to |batch|
        invariant Valid() && me in pcs && pcs[me] == old(pcs)[me]
        invariant Since(old(states), old(labels), me)
      {
        if Global(batch[i]) || batch[i].worker != me {
          Foreign(me, batch[i]);
        }
      }
    }
  }

  /** How a call ended: the loop of `run_worker` goes on in every case. */
  datatype Ending = NoJob | Processed(job: JobId) | Raised(job: JobId, message: string)

  /** What leaves the polling loop. */
  datatype Polled =
    | Got(result: Option<int>, solution: Option<int>, wcs: Option<int>)
    | WorkMissing
    | Stopped(transient: bool)

  /** What becomes of a claimed job. */
  datatype Fate =
    | Succeeded(result: Option<int>, solution: Option<int>, wcs: Option<int>)
    | GivenUp(requeue: bool)

  // ------------------------------------------------------- what the provider decides

  /** An answer after which the polling loop asks again. */
  predicate Pending(answer: Answer) {
    answer.Accepted? || answer.Unfinished? || answer.Resolved?
  }

  /** The provider's part in the polling loop: its first answer that is not just a status. */
  ghost function PollOutcome(script: seq<Answer>, resuming: bool): (polled: Polled)
    ensures polled.WorkMissing? ==> resuming
  {
    match NextAnswer(script)
    case Completed(result, solution, wcs) => Got(result, solution, wcs)
    case Gone => if resuming then WorkMissing else Stopped(false)
    case Error(raised) => Stopped(TransientChain(raised))
    case _ => PollOutcome(Rest(script), resuming)
  }

  ghost function AfterPoll(script: seq<Answer>): seq<Answer> {
    if Pending(NextAnswer(script)) then AfterPoll(Rest(script)) else Rest(script)
  }

  ghost function FateOfPoll(polled: Polled): Fate
    requires !polled.WorkMissing?
  {
    if polled.Got? then Succeeded(polled.result, polled.solution, polled.wcs) else GivenUp(polled.transient)
  }

  /** A refused or failed upload is worth another attempt if the failure is transient. */
  ghost predicate Retriable(answer: Answer) {
    answer.Error? ==> TransientChain(answer.raised)
  }

  ghost function FateOfUpload(script: seq<Answer>, replacing: bool): Fate {
    if NextAnswer(script).Accepted? then FateOfPoll(PollOutcome(Rest(script), false))
    else GivenUp(replacing && Retriable(NextAnswer(script)))
  }

  /**
   * What becomes of a job if nothing but the provider goes wrong: saved work is polled, work that is
   * gone is replaced once, and work that was never submitted is submitted.
   */
  ghost function FateOfJob(script: seq<Answer>, hasIds: bool, loads: bool): Fate {
    if !loads then GivenUp(false)
    else if !hasIds then FateOfUpload(script, false)
    else if PollOutcome(script, true).WorkMissing? then FateOfUpload(AfterPoll(script), true)
    else FateOfPoll(PollOutcome(script, true))
  }

  /** The answer that ends the polling comes after answers that only ask for patience. */
  ghost predicate FirstVerdict(script: seq<Answer>, n: nat) {
    && n <= |script| && !Pending(NextAnswer(script[n..]))
    && forall k :: 0 <= k < n ==> Pending(script[k])
  }

  lemma {:induction false} PollingEnds(script: seq<Answer>, resuming: bool) returns (n: nat)
    ensures FirstVerdict(script, n) && AfterPoll(script) == Rest(script[n..])
    ensures
      var answer, polled := NextAnswer(script[n..]), PollOutcome(script, resuming);
      && (answer.Completed? ==> polled == Got(answer.result, answer.solution, answer.wcs))
      && (answer.Gone? ==> polled == if resuming then WorkMissing else Stopped(false))
      && (answer.Error? ==> polled == Stopped(TransientChain(answer.raised)))
    decreases |script|
  {
    if Pending(NextAnswer(script)) {
      var m := PollingEnds(Rest(script), resuming);
      n := m + 1;
      assert Rest(script)[m..] == script[n..];
      forall k | 0 <= k < n ensures Pending(script[k]) {
        if k > 0 {
          assert script[k] == Rest(script)[k - 1];
        }
      }
    } else {
      n := 0;
      assert script[0..] == script;
    }
  }

  /** A job succeeds only with a result that the provider has given. */
  lemma SuccessIsAnAnswer(script: seq<Answer>, hasIds: bool, loads: bool)
    ensures
      var fate := FateOfJob(script, hasIds, loads);
      fate.Succeeded? ==> Answer.Completed(fate.result, fate.solution, fate.wcs) in script
  {
    if FateOfJob(script, hasIds, loads).Succeeded? {
      var n := PollingEnds(script, true);
      if hasIds && !PollOutcome(script, true).WorkMissing? {
        assert script[n] == NextAnswer(script[n..]);
      } else {
        var upload := if hasIds then AfterPoll(script) else script;
        var m := PollingEnds(Rest(upload), false);
        assert Rest(upload)[m] == NextAnswer(Rest(upload)[m..]);
        assert Rest(upload)[m] in script by {
          assert Rest(upload)[m] == upload[m + 1];
        }
      }
    }
  }

  class PlateSolveWorker {
    const world: World
    const provider: Provider
    const me: WorkerId
    const leaseSeconds: int

    constructor (world: World, provider: Provider, me: WorkerId, leaseSeconds: int)
      ensures this.world == world && this.provider == provider && this.me == me && this.leaseSeconds == leaseSeconds
    {
      this.world, this.provider, this.me, this.leaseSeconds := world, provider, me, leaseSeconds;
    }

    ghost predicate Ready()
      reads world, world.queue, world.usage
    {
      world.Valid() && me in world.pcs
    }

    ghost predicate Stands(pc: Pc)
      reads world, world.queue, world.usage
    {
      Ready() && world.pcs[me] == pc
    }

    /** The submission's provider job is known: save it and poll that job. */
    method Resolve(job: JobId, sub: Option<int>, pj: Option<int>, resuming: bool, id: int)
      returns (verdict: Option<Polled>, providerJob: Option<int>)
      requires Stands(Busy(job, sub, pj, Asking(resuming)))
      requires sub.Some? || pj.Some?
      modifies world, world.queue, world.usage
      ensures Ready() && world.Since(old(world.states), old(world.labels), me)
      ensures verdict.None? ==>
                providerJob == (if pj.Some? then pj else Some(id))
                && world.pcs[me] == Busy(job, sub, providerJob, Polling(resuming))
      ensures verdict.Some? ==>
                && Verdict(world.pcs[me], verdict.value, job, sub, resuming)
                && verdict.value == Stopped(false) && world.Troubled(old(world.states), old(world.labels), me)
    {
      if pj.Some? {
        world.Move(StillPending(me));
        return None, pj;
      }
      world.Move(JobResolved(me, id));
      var saved := world.SaveJob(me, id);
      if !saved {
        return Some(Stopped(false)), pj;
      }
      return None, Some(id);
    }

    /** The provider raised, or said that the work does not exist. */
    method Stop(job: JobId, sub: Option<int>, pj: Option<int>, resuming: bool, answer: Answer) returns (polled: Polled)
      requires Stands(Busy(job, sub, pj, Asking(resuming))) && (sub.Some? || pj.Some?)
      requires answer.Gone? || answer.Error?
      modifies world, world.queue, world.usage
      ensures Ready() && world.Since(old(world.states), old(world.labels), me)
      ensures Verdict(world.pcs[me], polled, job, sub, resuming)
      ensures answer.Error? ==> polled == Stopped(TransientChain(answer.raised))
      ensures answer.Gone? ==> polled == if resuming then WorkMissing else Stopped(false)
    {
      hide Troubles, Disturbs, Step, Apply, PlateSolveProtocol.Run, TransientChain;
      KnownFailures();
      var transient := Classify(if answer.Error? then answer.raised else WORK_NOT_FOUND);
      if answer.Gone? {
        world.Move(NotFound(me, transient));
        return if resuming then WorkMissing else Stopped(transient);
      }
      world.Move(Raise(me, transient));
      return Stopped(transient);
    }

    /** The provider gave a status, a job id or a result. */
    method Answered(job: JobId, sub: Option<int>, pj: Option<int>, resuming: bool, answer: Answer)
      returns (verdict: Option<Polled>, providerJob: Option<int>)
      requires Stands(Busy(job, sub, pj, Asking(resuming))) && (sub.Some? || pj.Some?)
      requires !answer.Gone? && !answer.Error?
      modifies world, world.queue, world.usage
      ensures Ready() && world.Since(old(world.states), old(world.labels), me)
      ensures verdict.None? ==>
                && Pending(answer) && world.pcs[me] == Busy(job, sub, providerJob, Polling(resuming))
                && providerJob == if answer.Resolved? && pj.None? then Some(answer.id) else pj
      ensures verdict.Some? ==> Verdict(world.pcs[me], verdict.value, job, sub, resuming)
      ensures verdict.Some? ==>
                || (answer.Completed? && verdict.value == Got(answer.result, answer.solution, answer.wcs))
                || (verdict.value == Stopped(false) && world.Troubled(old(world.states), old(world.labels), me))
    {
      if answer.Resolved? {
        verdict, providerJob := Resolve(job, sub, pj, resuming, answer.id);
      } else if answer.Completed? {
        world.Move(Solved(me, answer.result));
        return Some(Got(answer.result, answer.solution, answer.wcs)), pj;
      } else {
        world.Move(StillPending(me));
        return None, pj;
      }
    }

    /**
     * One answer of the provider inside the polling loop, asked for under a lease that has just been
     * extended; the loop goes on when there is no verdict.
     */
    method Ask(job: JobId, sub: Option<int>, pj: Option<int>, resuming: bool)
      returns (verdict: Option<Polled>, providerJob: Option<int>)
      requires Stands(Busy(job, sub, pj, Asking(resuming)))
      requires world.LeaseIs(job, world.now + leaseSeconds)
      requires sub.Some? || pj.Some?
      modifies world, world.queue, world.usage, provider
      ensures Ready() && world.Since(old(world.states), old(world.labels), me)
      ensures provider.script == Rest(old(provider.script))
      ensures
        var answer := NextAnswer(old(provider.script));
        && (verdict.None? ==>
              && Pending(answer) && world.pcs[me] == Busy(job, sub, providerJob, Polling(resuming))
              && providerJob == if answer.Resolved? && pj.None? then Some(answer.id) else pj)
        && (verdict.Some? && Pending(answer) ==>
              verdict.value == Stopped(false) && world.Troubled(old(world.states), old(world.labels), me))
      ensures verdict.Some? ==> Verdict(world.pcs[me], verdict.value, job, sub, resuming)
      ensures verdict.Some? ==>
                || verdict.value == PollOutcome(old(provider.script), resuming)
                || (verdict.value == Stopped(false) && world.Troubled(old(world.states), old(world.labels), me))
    {
      hide Troubles;
      var answer := provider.Call();
      if answer.Gone? || answer.Error? {
        var polled := Stop(job, sub, pj, resuming, answer);
        return Some(polled), pj;
      }
      verdict, providerJob := Answered(job, sub, pj, resuming, answer);
    }

    ghost predicate Verdict(pc: Pc, polled: Polled, job: JobId, sub: Option<int>, resuming: bool) {
      && pc.Busy? && pc.job == job && pc.sub == sub && HasIds(pc)
      && match polled
         case Got(result, _, _) => pc.at == Finishing(result)
         case WorkMissing => resuming && pc.at == Missing
         case Stopped(transient) => pc.at == Releasing(transient)
    }

    /** One round of the polling loop: a lost lease ends it before the provider is asked. */
    method TouchAndAsk(job: JobId, sub: Option<int>, pj: Option<int>, resuming: bool)
      returns (verdict: Option<Polled>, providerJob: Option<int>)
      requires Stands(Busy(job, sub, pj, Polling(resuming)))
      requires sub.Some? || pj.Some?
      modifies world, world.queue, world.usage, provider
      ensures Ready() && world.Since(old(world.states), old(world.labels), me)
      ensures verdict.None? ==>
                && world.pcs[me] == Busy(job, sub, providerJob, Polling(resuming)) && (sub.Some? || providerJob.Some?)
                && Pending(NextAnswer(old(provider.script))) && provider.script == Rest(old(provider.script))
      ensures verdict.Some? ==> Verdict(world.pcs[me], verdict.value, job, sub, resuming)
      ensures verdict.Some? ==>
                || Decided(verdict.value, old(provider.script), resuming)
                || (verdict.value == Stopped(false) && world.Troubled(old(world.states), old(world.labels), me))
    {
      hide Troubles;
      var touched := world.Touch(me, leaseSeconds);
      if !touched {
        return Some(Stopped(false)), pj;
      }
      verdict, providerJob := Ask(job, sub, pj, resuming);
    }

    /** The provider alone has ended the polling, and no answer was asked for in vain. */
    ghost predicate Decided(polled: Polled, script: seq<Answer>, resuming: bool)
      reads provider
    {
      polled == PollOutcome(script, resuming) && provider.script == AfterPoll(script)
    }

    /**
     * `_poll_provider`. The ids are the worker's copies; the loop ends by an answer, by a missing
     * piece of work, by a failure, or by a lost lease.
     */
    method Poll(job: JobId, sub: Option<int>, pj: Option<int>, resuming: bool) returns (polled: Polled)
      requires Stands(Busy(job, sub, pj, Polling(resuming)))
      requires sub.Some? || pj.Some?
      modifies world, world.queue, world.usage, provider
      ensures Ready() && world.Since(old(world.states), old(world.labels), me)
      ensures Verdict(world.pcs[me], polled, job, sub, resuming)
      ensures Decided(polled, old(provider.script), resuming)
              || (polled == Stopped(false) && world.Troubled(old(world.states), old(world.labels), me))
    {
      hide Troubles;
      var providerJob := pj;
      while true
        invariant Stands(Busy(job, sub, providerJob, Polling(resuming)))
        invariant sub.Some? || providerJob.Some?
        invariant world.Since(old(world.states), old(world.labels), me)
        invariant PollOutcome(provider.script, resuming) == PollOutcome(old(provider.script), resuming)
        invariant AfterPoll(provider.script) == AfterPoll(old(provider.script))
        decreases |provider.script|
      {
        var verdict;
        verdict, providerJob := TouchAndAsk(job, sub, providerJob, resuming);
        if verdict.Some? {
          return verdict.value;
        }
      }
    }

    /** The paid provider call; only a replacement that fails transiently is worth another attempt. */
    method Upload(replacing: bool) returns (accepted: Option<int>, requeue: bool)
      requires Ready() && world.pcs[me].Busy? && (replacing <==> HasIds(world.pcs[me]))
      requires if replacing then world.pcs[me].at.Resubmitting? else world.pcs[me].at.Submitting?
      modifies world, provider
      ensures Ready() && world.Since(old(world.states), old(world.labels), me)
      ensures world.pcs[me].Busy? && world.pcs[me] == old(world.pcs)[me].(at := world.pcs[me].at)
      ensures provider.script == Rest(old(provider.script))
      ensures accepted.None? ==>
                && world.pcs[me].at == Releasing(requeue) && !NextAnswer(old(provider.script)).Accepted?
                && (requeue <==> replacing && Retriable(NextAnswer(old(provider.script))))
      ensures accepted.Some? ==>
                && world.pcs[me].at == (if replacing then Replacing(accepted.value) else Recording(accepted.value))
                && NextAnswer(old(provider.script)) == Answer.Accepted(accepted.value)
    {
      hide Troubles;
      KnownFailures();
      var answer := provider.Call();
      if answer.Accepted? {
        world.Move(Submitted(me, answer.id));
        return Some(answer.id), false;
      }
      var transient := Classify(if answer.Error? then answer.raised else UPLOAD_FAILED);
      world.Move(SubmitFailed(me, transient));
      return None, transient && replacing;
    }

    /**
     * Pays for one submission and makes it: the first one, or the replacement of missing work. On
     * success the provider's id is saved and the worker stands at the head of the polling loop.
     */
    method Submit(job: JobId, replacing: bool) returns (submission: Option<int>, requeue: bool)
      requires Ready() && world.pcs[me].Busy? && world.pcs[me].job == job
      requires world.pcs[me].at == if replacing then Missing else Reserving
      requires replacing <==> HasIds(world.pcs[me])
      modifies world, world.queue, world.usage, provider
      ensures Ready() && world.Since(old(world.states), old(world.labels), me)
      ensures world.pcs[me].Busy? && world.pcs[me].job == job
      ensures submission.Some? ==>
                && world.pcs[me] == Busy(job, submission, None, Polling(false))
                && NextAnswer(old(provider.script)) == Answer.Accepted(submission.value)
                && provider.script == Rest(old(provider.script))
                && job in world.queue.rows && world.queue.rows[job].submission == submission
      ensures submission.None? ==> world.pcs[me].at == Releasing(requeue)
      ensures submission.None? ==>
                || (!requeue && world.Troubled(old(world.states), old(world.labels), me))
                || (!NextAnswer(old(provider.script)).Accepted?
                    && (requeue <==> replacing && Retriable(NextAnswer(old(provider.script)))))
    {
      hide Troubles, Disturbs, Step, Enabled, Apply, PlateSolveProtocol.Run;
      var paid := world.Reserve(me);
      if !paid {
        return None, false;
      }
      submission, requeue := Upload(replacing);
      if submission.None? {
        return;
      }
      var recorded := world.Record(me, submission.value);
      return if recorded then submission else None, false;
    }

    /** The last step of a call: an accepted completion, failure or requeue, or a lease found lost. */
    ghost predicate Ended(ending: Ending)
      reads world
    {
      && |world.labels| > 0 && |world.states| == |world.labels| + 1
      && var l, before := world.labels[|world.labels| - 1], world.states[|world.labels| - 1];
         match ending
         case NoJob => false
         case Processed(_) => (l.Finish? || l.GiveUp?) && l.worker == me && Holds(before, me)
         case Raised(_, _) => l.GiveUp? && l.worker == me && !Holds(before, me)
    }

    /** The row after a call that settled it, or what is known of it after the lease was lost. */
    ghost predicate Settled(ending: Ending, job: JobId, fate: Fate, message: string)
      reads world, world.queue, world.usage
    {
      && (ending == Processed(job) || (ending.Raised? && ending.job == job))
      && Ended(ending)
      && (ending.Raised? ==> !OwnsJob(world.View(), me, job))
      && (ending.Processed? ==>
            match fate
            case Succeeded(result, solution, wcs) => world.Finished(job, result, solution, wcs)
            case GivenUp(requeue) => world.Returned(job, requeue, message))
    }

    /** The handler of `process_next_plate_solve_job`: put the job back, or fail it. */
    method Handle(job: JobId, requeue: bool, message: string) returns (ending: Ending)
      requires Ready() && world.pcs[me].Busy? && world.pcs[me].job == job && world.pcs[me].at == Releasing(requeue)
      modifies world, world.queue, world.usage
      ensures Stands(Idle) && world.Since(old(world.states), old(world.labels), me)
      ensures Settled(ending, job, GivenUp(requeue), message)
      ensures ending.Raised? ==> world.Troubled(old(world.states), old(world.labels), me)
    {
      hide Troubles;
      var held := world.GiveUp(me, requeue, message);
      return if held then Processed(job) else Raised(job, "Plate Solve job lease was lost");
    }

    /** The job met the fate that the provider has decided, or it was given up after some trouble. */
    ghost predicate Met(fate: Fate, decided: Fate, states: seq<Sys>, labels: seq<Label>)
      reads world
    {
      fate == decided || (fate == GivenUp(false) && world.Troubled(states, labels, me))
    }

    /** Completes the job with the provider's answer, or handles what stopped the polling. */
    method Settle(job: JobId, polled: Polled, message: string) returns (ending: Ending, ghost fate: Fate)
      requires !polled.WorkMissing? && Ready()
      requires exists sub, resuming :: Verdict(world.pcs[me], polled, job, sub, resuming)
      modifies world, world.queue, world.usage
      ensures Stands(Idle) && world.Since(old(world.states), old(world.labels), me)
      ensures Settled(ending, job, fate, message)
      ensures Met(fate, FateOfPoll(polled), old(world.states), old(world.labels))
      ensures ending.Raised? ==> world.Troubled(old(world.states), old(world.labels), me)
    {
      hide Troubles, Disturbs, Step, Enabled, Apply, World.Finished, World.Returned, OwnsJob;
      if polled.Stopped? {
        ending := Handle(job, polled.transient, message);
        return ending, GivenUp(polled.transient);
      }
      var held := world.Finish(me, polled.result, polled.solution, polled.wcs);
      if held {
        return Processed(job), Succeeded(polled.result, polled.solution, polled.wcs);
      }
      ending := Handle(job, false, message);
      return ending, GivenUp(false);
    }

    /** The saved work is polled; if the provider has lost it, one replacement is submitted and polled. */
    method Resume(job: JobId, sub: Option<int>, pj: Option<int>, message: string)
      returns (ending: Ending, ghost fate: Fate)
      requires Stands(Busy(job, sub, pj, Polling(true))) && (sub.Some? || pj.Some?)
      modifies world, world.queue, world.usage, provider
      ensures Stands(Idle) && world.Since(old(world.states), old(world.labels), me)
      ensures Settled(ending, job, fate, message)
      ensures Met(fate, FateOfJob(old(provider.script), true, true), old(world.states), old(world.labels))
      ensures ending.Raised? ==> world.Troubled(old(world.states), old(world.labels), me)
    {
      hide Troubles, Disturbs, Step, Enabled, Apply, World.Finished, World.Returned, Ended, OwnsJob;
      var polled := Poll(job, sub, pj, true);
      if !polled.WorkMissing? {
        ending, fate := Settle(job, polled, message);
        return;
      }
      ending, fate := SubmitAndPoll(job, true, message);
    }

    /** Submits the first piece of work, or a replacement, and polls it. */
    method SubmitAndPoll(job: JobId, replacing: bool, message: string) returns (ending: Ending, ghost fate: Fate)
      requires Ready() && world.pcs[me].Busy? && world.pcs[me].job == job
      requires world.pcs[me].at == if replacing then Missing else Reserving
      requires replacing <==> HasIds(world.pcs[me])
      modifies world, world.queue, world.usage, provider
      ensures Stands(Idle) && world.Since(old(world.states), old(world.labels), me)
      ensures Settled(ending, job, fate, message)
      ensures Met(fate, FateOfUpload(old(provider.script), replacing), old(world.states), old(world.labels))
      ensures ending.Raised? ==> world.Troubled(old(world.states), old(world.labels), me)
    {
      hide Troubles, Disturbs, Step, Enabled, Apply, World.Finished, World.Returned, Ended, OwnsJob;
      var submission, requeue := Submit(job, replacing);
      if submission.None? {
        ending := Handle(job, requeue, message);
        return ending, GivenUp(requeue);
      }
      ending, fate := PollAndSettle(job, submission, message);
    }

    method PollAndSettle(job: JobId, submission: Option<int>, message: string)
      returns (ending: Ending, ghost fate: Fate)
      requires Stands(Busy(job, submission, None, Polling(false))) && submission.Some?
      modifies world, world.queue, world.usage, provider
      ensures Stands(Idle) && world.Since(old(world.states), old(world.labels), me)
      ensures Settled(ending, job, fate, message)
      ensures Met(fate, FateOfPoll(PollOutcome(old(provider.script), false)), old(world.states), old(world.labels))
      ensures ending.Raised? ==> world.Troubled(old(world.states), old(world.labels), me)
    {
      hide Troubles, Disturbs, Step, Enabled, Apply, World.Finished, World.Returned, Ended, OwnsJob;
      var polled := Poll(job, submission, None, false);
      ending, fate := Settle(job, polled, message);
    }

    /** `loads` tells whether the file and the API key are found; `claim` is the step of the claim. */
    method ClaimAndSolve(locked: set<JobId>, loads: bool, message: string)
      returns (ending: Ending, ghost fate: Fate, ghost claim: nat)
      requires Stands(Idle)
      modifies world, world.queue, world.usage, provider
      ensures Stands(Idle) && world.Since(old(world.states), old(world.labels), me)
      ensures if ending.NoJob? then Eligible(world.queue.rows, locked, world.now) == {}
              else
                && |old(world.labels)| <= claim && world.Took(claim, me, ending.job, leaseSeconds)
                && Settled(ending, ending.job, fate, message)
                && Met(fate, FateOfJob(old(provider.script), world.IdsAt(claim, ending.job), loads),
                       old(world.states), old(world.labels))
      ensures ending.Raised? ==> world.Troubled(old(world.states), old(world.labels), me)
    {
      hide Troubles, Disturbs, Step, Enabled, Apply, World.Finished, World.Returned, Ended, OwnsJob;
      var claimed := world.Claim(me, leaseSeconds, locked);
      if claimed.None? {
        return NoJob, GivenUp(false), 0;
      }
      var job := claimed.value;
      claim := |world.labels| - 1;
      ending, fate := Solve(job, world.queue.rows[job].submission, world.queue.rows[job].providerJob, loads, message);
    }

    /** Mirrors the claim and loads what the job needs; a failure here ends the job. */
    method LoadWork(job: JobId, submission: Option<int>, providerJob: Option<int>, loads: bool)
      requires Stands(Busy(job, submission, providerJob, Syncing))
      modifies world
      ensures Ready() && world.Since(old(world.states), old(world.labels), me)
      ensures world.pcs[me] == Busy(job, submission, providerJob,
                                    if !loads then Releasing(false)
                                    else if submission.Some? || providerJob.Some? then Polling(true)
                                    else Reserving)
    {
      hide Troubles;
      world.Move(SyncRecords(me));
      world.Move(if loads then Load(me) else Raise(me, false));
    }

    method Solve(job: JobId, submission: Option<int>, providerJob: Option<int>, loads: bool, message: string)
      returns (ending: Ending, ghost fate: Fate)
      requires Stands(Busy(job, submission, providerJob, Syncing))
      modifies world, world.queue, world.usage, provider
      ensures Stands(Idle) && world.Since(old(world.states), old(world.labels), me)
      ensures Settled(ending, job, fate, message)
      ensures Met(fate, FateOfJob(old(provider.script), submission.Some? || providerJob.Some?, loads),
                  old(world.states), old(world.labels))
      ensures ending.Raised? ==> world.Troubled(old(world.states), old(world.labels), me)
    {
      hide Troubles, Disturbs, Step, Enabled, Apply, World.Finished, World.Returned, Ended, OwnsJob;
      LoadWork(job, submission, providerJob, loads);
      if !loads {
        ending := Handle(job, false, message);
        return ending, GivenUp(false);
      } else if submission.Some? || providerJob.Some? {
        ending, fate := Resume(job, submission, providerJob, message);
      } else {
        ending, fate := SubmitAndPoll(job, false, message);
      }
    }

    /** Something other than the provider has gone wrong for this worker since then. */
    ghost predicate Disturbed(since: nat)
      reads world
    {
      exists k :: since <= k < |world.labels| && k < |world.states| && Disturbs(world.states[k], world.labels[k], me)
    }

    /**
     * `process_next_plate_solve_job`: whatever the provider and everybody else do, the call extends the
     * protocol run and leaves no job held by this worker, but for those that carried its id before,
     * which a crash of an earlier process under this id has left. A completed job's row holds one
     * answer of the provider, a requeued or failed one's holds the message; what becomes of an
     * undisturbed job is decided by the provider's answers alone.
     */
    method ProcessNext(locked: set<JobId>, loads: bool, message: string)
      returns (ending: Ending, ghost fate: Fate, ghost claim: nat)
      requires Stands(Idle)
      modifies world, world.queue, world.usage, provider
      ensures Stands(Idle) && world.Since(old(world.states), old(world.labels), me)
      ensures if ending.NoJob? then Eligible(world.queue.rows, locked, world.now) == {} else Ended(ending)
      ensures forall id :: OwnsJob(world.View(), me, id) ==>
                OwnsJob(old(world.View()), me, id) && LeftByCrash(old(world.states), old(world.labels), id)
      ensures ending.Processed? ==>
                && ending.job in world.queue.rows
                && var row := world.queue.rows[ending.job];
                   && row.worker == None && row.lease == None
                   && (fate.Succeeded? ==>
                         && row.status == Status.Completed && row.lastError == None
                         && row.providerJob == fate.result && row.solution == fate.solution && row.wcs == fate.wcs
                         && Answer.Completed(row.providerJob, row.solution, row.wcs) in old(provider.script))
                   && (fate.GivenUp? ==>
                         && row.status == (if fate.requeue then Status.Waiting else Status.Failed)
                         && row.lastError == Some(message))
      ensures !ending.NoJob? ==>
                && |old(world.labels)| <= claim < |world.labels|
                && world.labels[claim] == ClaimJob(me, ending.job, leaseSeconds)
                && (fate == FateOfJob(old(provider.script), world.IdsAt(claim, ending.job), loads)
                    || (fate == GivenUp(false) && Disturbed(|old(world.labels)|)))
      ensures ending.Raised? ==> !OwnsJob(world.View(), me, ending.job) && Disturbed(|old(world.labels)|)
    {
      hide Troubles;
      ghost var states, labels := world.states, world.labels;
      ghost var script := provider.script;
      ending, fate, claim := ClaimAndSolve(locked, loads, message);
      forall id | OwnsJob(world.View(), me, id)
        ensures OwnsJob(old(world.View()), me, id) && LeftByCrash(states, labels, id)
      {
        OnlyLeftByCrash(states, labels, id);
      }
      if world.Troubled(states, labels, me) {
        TroubleHappened(states, labels, world.states, world.labels, me);
      }
      if !ending.NoJob? {
        SuccessIsAnAnswer(script, world.IdsAt(claim, ending.job), loads);
      }
    }

    lemma OnlyLeftByCrash(states: seq<Sys>, labels: seq<Label>, id: JobId)
      requires Stands(Idle) && world.Since(states, labels, me) && |states| == |labels| + 1
      requires OwnsJob(world.View(), me, id) && states[|labels|].pcs.Keys >= {me} && states[|labels|].pcs[me].Idle?
      ensures OwnsJob(states[|labels|], me, id) && LeftByCrash(states, labels, id)
    {
      var k := LetsGo(world.states, world.labels, |world.labels|, me, id);
      assert world.labels[k] == labels[k] && world.states[k] == states[k];
      assert OwnsJob(world.states[|labels|], me, id);
    }

    ghost predicate LeftByCrash(states: seq<Sys>, labels: seq<Label>, id: JobId) {
      exists k: nat :: k < |labels| && k < |states| && labels[k] == Crash(me) && WorksOn(states[k], me, id)
    }
  }
}
