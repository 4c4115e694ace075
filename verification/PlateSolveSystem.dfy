/**
 * The queue's workers and AstroJournal's services over one job table: every step of the protocol that
 * commits a transaction is at the same time a call on the records' database, and every service call is an
 * administrative step for the workers.
 */
module PlateSolveSystem {
  import opened Options
  import Jobs = PlateSolveJobs
  import Queue = PlateSolveProtocol
  import opened AstroInvariants
  import opened AstroRuns
  import opened AstroStore
  import opened ObservationRecords
  import opened StatusAgreement

  /** `due` is when the lease ends that a worker's latest claim or touch gave it; the program does not store it. */
  datatype System = System(queue: Queue.Sys, db: Db, due: map<WorkerId, int>)

  /** `order` is the order in which the database returns the records of a mirrored status. */
  datatype Action =
    | Work(step: Queue.Label, order: seq<RecordId>)
    | Serve(call: Call)

  /** A call of a service, not of a worker. */
  predicate ServiceCall(c: Call) {
    !c.ClaimJob? && !c.SyncClaim? && !c.WriteJob? && !c.ReleaseJob?
  }

  /** The transaction that a protocol step commits on the database. */
  function CallOf(s: Queue.Sys, l: Queue.Label, order: seq<RecordId>): Option<Call>
    requires Queue.Enabled(s, l)
  {
    match l
    case ClaimJob(w, id, leaseSeconds) => Some(Call.ClaimJob(id, w, s.now, s.now + leaseSeconds))
    case SyncRecords(w) => Some(SyncClaim(s.pcs[w].job, order))
    case Record(w, _) => Some(WriteJob(s.pcs[w].job, w, Queue.OpOf(s, l).write))
    case Touch(w, _, _) => Some(WriteJob(s.pcs[w].job, w, Queue.OpOf(s, l).write))
    case SaveJob(w, _) => Some(WriteJob(s.pcs[w].job, w, Queue.OpOf(s, l).write))
    case Finish(w, _, _, _) => Some(ReleaseJob(s.pcs[w].job, w, Queue.OpOf(s, l).outcome, order))
    case GiveUp(w, _) => Some(ReleaseJob(s.pcs[w].job, w, Queue.OpOf(s, l).outcome, order))
    case _ => None
  }

  ghost predicate CanAct(x: System, a: Action) {
    match a
    case Work(l, order) =>
      && !l.Admin? && Queue.Enabled(x.queue, l)
      && (CallOf(x.queue, l, order).Some? ==> Enabled(x.db, CallOf(x.queue, l, order).value))
    case Serve(c) => ServiceCall(c) && Enabled(x.db, c)
  }

  /** The database call of an action, if it makes one. */
  function Made(x: System, a: Action): Option<Call>
    requires a.Work? ==> Queue.Enabled(x.queue, a.step)
  {
    match a
    case Work(l, order) => CallOf(x.queue, l, order)
    case Serve(c) => Some(c)
  }

  /** A claim starts a lease, and an accepted touch starts a new one. */
  function DueAfter(x: System, l: Queue.Label): map<WorkerId, int>
    requires Queue.Enabled(x.queue, l)
  {
    if l.ClaimJob? || (l.Touch? && Queue.Holds(x.queue, l.worker))
    then x.due[l.worker := x.queue.now + l.leaseSeconds] else x.due
  }

  ghost function Next(x: System, a: Action): System
    requires CanAct(x, a)
  {
    var db := if Made(x, a).Some? then After(x.db, Made(x, a).value) else x.db;
    match a
    case Work(l, _) => System(Queue.Step(x.queue, l), db, DueAfter(x, l))
    case Serve(_) => x.(queue := x.queue.(jobs := db.jobs), db := db)
  }

  /** `states[i]` is the system before `actions[i]`. */
  ghost predicate Run(states: seq<System>, actions: seq<Action>) {
    && |states| == |actions| + 1
    && Queue.Init(states[0].queue) && states[0].db == EMPTY && states[0].due == map[]
    && forall i :: 0 <= i < |actions| ==> CanAct(states[i], actions[i]) && states[i + 1] == Next(states[i], actions[i])
  }

  /** A service call is one or two administrative steps for the workers, or none. */
  lemma ServicesAdministrate(db: Db, c: Call)
    requires ServiceCall(c)
    ensures QueueOp(db, c).Skip? || Queue.Administrative(QueueOp(db, c))
    ensures JobsAfter(db, c) == Jobs.Apply(db.jobs, QueueOp(db, c))
         || JobsAfter(db, c) == Jobs.Apply(Jobs.Apply(db.jobs, QueueOp(db, c)), Jobs.Unlink(db.records.Keys))
  {}

  /** Workers and services keep looking at the same table. */
  lemma OneTable(x: System, a: Action)
    requires x.queue.jobs == x.db.jobs && CanAct(x, a)
    ensures Next(x, a).queue.jobs == Next(x, a).db.jobs
  {
    if a.Work? && Made(x, a).Some? {
      assert QueueOp(x.db, Made(x, a).value) == Queue.OpOf(x.queue, a.step);
    }
  }

  lemma AdminStep(s: Queue.Sys, op: Jobs.JobOp)
    requires Queue.QueueInv(s) && Queue.Administrative(op)
    ensures Queue.QueueInv(s.(jobs := Jobs.Apply(s.jobs, op)))
  {
    Queue.QueueStep(s, Queue.Admin(op));
    assert Queue.Step(s, Queue.Admin(op)) == s.(jobs := Jobs.Apply(s.jobs, op));
  }

  lemma ServeKeepsQueue(x: System, c: Call)
    requires x.queue.jobs == x.db.jobs && Queue.QueueInv(x.queue) && ServiceCall(c)
    ensures Queue.QueueInv(x.queue.(jobs := JobsAfter(x.db, c)))
  {
    ServicesAdministrate(x.db, c);
    var op := QueueOp(x.db, c);
    var once := x.queue.(jobs := Jobs.Apply(x.queue.jobs, op));
    if op.Skip? {
      assert once == x.queue;
    } else {
      AdminStep(x.queue, op);
    }
    AdminStep(once, Jobs.Unlink(x.db.records.Keys));
  }

  // ---------------------------------------------------------------- leases

  predicate LeasedUntil(jobs: Jobs.Table, id: JobId, w: WorkerId, until: int) {
    id in jobs && Jobs.Owns(jobs[id], w) && jobs[id].lease == Some(until)
  }

  /** Until its lease ends, a worker owns the job it works on, under that lease. */
  predicate Leased(x: System, w: WorkerId) {
    Queue.Working(x.queue, w) ==>
      && w in x.due
      && (x.queue.now <= x.due[w] ==> LeasedUntil(x.queue.jobs, x.queue.pcs[w].job, w, x.due[w]))
  }

  lemma ServiceKeepsLease(jobs: Jobs.Table, op: Jobs.JobOp, id: JobId, w: WorkerId, until: int)
    requires op.Skip? || Queue.Administrative(op)
    requires LeasedUntil(jobs, id, w, until)
    ensures LeasedUntil(Jobs.Apply(jobs, op), id, w, until)
  {}

  lemma ServeKeepsLeases(x: System, c: Call, w: WorkerId)
    requires x.queue.jobs == x.db.jobs && CanAct(x, Serve(c)) && Leased(x, w)
    ensures Leased(Next(x, Serve(c)), w)
  {
    ServicesAdministrate(x.db, c);
    if Queue.Working(x.queue, w) && x.queue.now <= x.due[w] {
      var id, until, op := x.queue.pcs[w].job, x.due[w], QueueOp(x.db, c);
      ServiceKeepsLease(x.db.jobs, op, id, w, until);
      ServiceKeepsLease(Jobs.Apply(x.db.jobs, op), Jobs.Unlink(x.db.records.Keys), id, w, until);
    }
  }

  lemma ClaimKeepsLease(jobs: Jobs.Table, op: Jobs.JobOp, id: JobId, w: WorkerId, until: int)
    requires op.Claim? && op.now <= until && LeasedUntil(jobs, id, w, until)
    ensures LeasedUntil(Jobs.Apply(jobs, op), id, w, until)
  {}

  lemma WriteKeepsLease(s: Queue.Sys, l: Queue.Label, w: WorkerId, until: int)
    requires Queue.Enabled(s, l) && !Queue.Global(l) && !l.ClaimJob?
    requires Queue.Working(s, w) && LeasedUntil(s.jobs, s.pcs[w].job, w, until) && l.worker != w
    ensures LeasedUntil(Queue.Step(s, l).jobs, s.pcs[w].job, w, until)
  {
    Queue.WorkerTable(s, l);
  }

  /** The worker's own step keeps its lease, renews it by a touch, or ends its work on the job. */
  lemma OwnStepLeases(s: Queue.Sys, l: Queue.Label, until: int)
    requires Queue.Enabled(s, l) && !Queue.Global(l) && !l.ClaimJob? && !l.Start?
    requires Queue.Working(s, l.worker) && LeasedUntil(s.jobs, s.pcs[l.worker].job, l.worker, until)
    ensures
      var s', job := Queue.Step(s, l), s.pcs[l.worker].job;
      Queue.Working(s', l.worker) ==>
        && s'.pcs[l.worker].job == job
        && LeasedUntil(s'.jobs, job, l.worker, if l.Touch? then s.now + l.leaseSeconds else until)
  {
    Queue.WorkerTable(s, l);
  }

  lemma OwnStepStays(s: Queue.Sys, l: Queue.Label)
    requires Queue.Enabled(s, l) && !Queue.Global(l) && !l.ClaimJob? && Queue.Working(Queue.Step(s, l), l.worker)
    ensures !l.Start? && Queue.Working(s, l.worker)
  {}

  lemma OwnWorkKeepsLease(x: System, l: Queue.Label, order: seq<RecordId>)
    requires CanAct(x, Work(l, order)) && !Queue.Global(l) && Leased(x, l.worker)
    ensures Leased(Next(x, Work(l, order)), l.worker)
  {
    var s, w := x.queue, l.worker;
    if !l.ClaimJob? && Queue.Working(Queue.Step(s, l), w) {
      OwnStepStays(s, l);
      if s.now <= x.due[w] { OwnStepLeases(s, l, x.due[w]); }
    }
  }

  lemma OthersKeepLease(x: System, l: Queue.Label, order: seq<RecordId>, w: WorkerId)
    requires CanAct(x, Work(l, order)) && !Queue.Global(l) && l.worker != w && Leased(x, w)
    ensures Leased(Next(x, Work(l, order)), w)
  {
    var s := x.queue;
    if Queue.Working(s, w) && s.now <= x.due[w] {
      if l.ClaimJob? {
        ClaimKeepsLease(s.jobs, Queue.OpOf(s, l), s.pcs[w].job, w, x.due[w]);
      } else {
        WriteKeepsLease(s, l, w, x.due[w]);
      }
    }
  }

  /** Nobody else can take the job before the lease ends, and the worker lets go of it only by releasing it. */
  lemma WorkKeepsLeases(x: System, l: Queue.Label, order: seq<RecordId>, w: WorkerId)
    requires CanAct(x, Work(l, order)) && Leased(x, w) && (l.Tick? ==> x.queue.now <= l.now)
    ensures Leased(Next(x, Work(l, order)), w)
  {
    if !Queue.Global(l) {
      if l.worker == w { OwnWorkKeepsLease(x, l, order); } else { OthersKeepLease(x, l, order, w); }
    }
  }

  /** The clock does not go back. */
  predicate ClockForward(x: System, a: Action) {
    a.Work? && a.step.Tick? ==> x.queue.now <= a.step.now
  }

  /**
   * The clock does not go back, no client PATCHes a status of its own, and a worker settles its claim before
   * the lease of the claim ends.
   */
  ghost predicate Orderly(x: System, a: Action)
    requires CanAct(x, a)
  {
    && (Made(x, a).Some? ==> !Overwrites(x.db, Made(x, a).value))
    && ClockForward(x, a)
    && (a.Work? && a.step.SyncRecords? && a.step.worker in x.due ==> x.queue.now <= x.due[a.step.worker])
  }

  /** A claim settled within its lease finds the job still being processed. */
  lemma SettledInTime(x: System, a: Action)
    requires x.queue.jobs == x.db.jobs && CanAct(x, a) && Orderly(x, a)
    requires forall w :: Leased(x, w)
    ensures Made(x, a).Some? ==> !LateSync(x.db, Made(x, a).value)
  {
    if a.Work? && a.step.SyncRecords? {
      assert Leased(x, a.step.worker) && Queue.Working(x.queue, a.step.worker);
    }
  }

  // ------------------------------------------------------------------ runs

  /** What the workers keep, what the services keep, and that they share the table. */
  ghost predicate SystemInv(x: System) {
    x.queue.jobs == x.db.jobs && Queue.QueueInv(x.queue) && StoreInv(x.db)
  }

  lemma CallKeepsStore(db: Db, c: Call)
    requires StoreInv(db) && Enabled(db, c)
    ensures StoreInv(After(db, c))
  {
    FeedStep(db, c);
    RepresentativeStep(db, c);
    FilesStep(db, c);
    QueueStep(db, c);
  }

  lemma SystemStep(x: System, a: Action)
    requires SystemInv(x) && CanAct(x, a)
    ensures SystemInv(Next(x, a))
  {
    OneTable(x, a);
    if Made(x, a).Some? { CallKeepsStore(x.db, Made(x, a).value); }
    match a
    case Work(l, _) => Queue.QueueStep(x.queue, l);
    case Serve(c) => ServeKeepsQueue(x, c);
  }

  lemma LeasesStep(x: System, a: Action)
    requires x.queue.jobs == x.db.jobs && CanAct(x, a) && ClockForward(x, a) && forall w :: Leased(x, w)
    ensures forall w :: Leased(Next(x, a), w)
  {
    forall w ensures Leased(Next(x, a), w) {
      match a
      case Work(l, order) => WorkKeepsLeases(x, l, order, w);
      case Serve(c) => ServeKeepsLeases(x, c, w);
    }
  }

  /** Exactly a late second claim transaction and an overwriting PATCH end the agreement. */
  lemma AgreementAction(x: System, a: Action)
    requires SystemInv(x) && CanAct(x, a) && Agreement(x.db)
    ensures Agreement(Next(x, a).db) <==>
            Made(x, a).Some? ==> !LateSync(x.db, Made(x, a).value) && !Overwrites(x.db, Made(x, a).value)
  {
    if Made(x, a).Some? { AgreementStep(x.db, Made(x, a).value); }
  }

  ghost predicate OrderlyRun(states: seq<System>, actions: seq<Action>)
    requires Run(states, actions)
  {
    forall i :: 0 <= i < |actions| ==> Orderly(states[i], actions[i])
  }

  lemma {:induction false} SystemIsSound(states: seq<System>, actions: seq<Action>, i: nat)
    requires Run(states, actions) && i < |states|
    ensures SystemInv(states[i])
  {
    if i == 0 {
      assert Queue.QueueInv(states[0].queue);
    } else {
      SystemIsSound(states, actions, i - 1);
      SystemStep(states[i - 1], actions[i - 1]);
    }
  }

  /**
   * Workers, services, crashes and restarts in any order: as long as claims are settled within their lease
   * and no client writes the mirrored column, every active record shows the status of its file's job,
   * unless that job is being processed.
   */
  lemma {:induction false} WorkersShowTheirJobs(states: seq<System>, actions: seq<Action>, i: nat)
    requires Run(states, actions) && OrderlyRun(states, actions) && i < |states|
    ensures Agreement(states[i].db)
    ensures forall w :: Leased(states[i], w)
  {
    if i > 0 {
      var x, a := states[i - 1], actions[i - 1];
      WorkersShowTheirJobs(states, actions, i - 1);
      SystemIsSound(states, actions, i - 1);
      SettledInTime(x, a);
      LeasesStep(x, a);
      AgreementAction(x, a);
    }
  }

  lemma {:induction false} EveryoneLeased(states: seq<System>, actions: seq<Action>, i: nat)
    requires Run(states, actions) && i < |states|
    requires forall k :: 0 <= k < i ==> ClockForward(states[k], actions[k])
    ensures forall w :: Leased(states[i], w)
  {
    if i > 0 {
      EveryoneLeased(states, actions, i - 1);
      SystemIsSound(states, actions, i - 1);
      LeasesStep(states[i - 1], actions[i - 1]);
    }
  }

  /** The worker claims a job, or touches the job it owns. */
  predicate GivesLease(x: System, a: Action, w: WorkerId) {
    && a.Work? && (a.step.ClaimJob? || (a.step.Touch? && Queue.Holds(x.queue, w)))
    && a.step.worker == w
  }

  /**
   * The lease protects: with a clock that does not go back, a worker that has touched its job, or has just
   * claimed it, owns it until that lease ends, unless it releases the job or crashes; whatever it writes
   * until then is accepted, and until then no other claim of the job is possible.
   */
  lemma LeaseProtects(states: seq<System>, actions: seq<Action>, k: nat, i: nat, w: WorkerId)
    requires Run(states, actions) && k < i < |states|
    requires forall m :: 0 <= m < i ==> ClockForward(states[m], actions[m])
    requires GivesLease(states[k], actions[k], w)
    requires forall m :: k < m < i ==> StillWorking(states[m], actions[m], w)
    requires states[i].queue.now <= states[k].queue.now + actions[k].step.leaseSeconds
    ensures
      var s := states[i].queue;
      && Queue.Working(s, w) && s.pcs[w].job == states[k + 1].queue.pcs[w].job
      && s.pcs[w].job in s.jobs && s.jobs[s.pcs[w].job].status.Processing? && s.jobs[s.pcs[w].job].worker == Some(w)
      && s.jobs[s.pcs[w].job].lease == Some(states[k].queue.now + actions[k].step.leaseSeconds)
      && !Jobs.Claimable(s.jobs[s.pcs[w].job], s.now)
  {
    hide Next, CanAct, Queue.Init;
    EveryoneLeased(states, actions, i);
    StillDue(states, actions, k, i, w);
    LeasedRow(states[i], w);
  }

  lemma LeasedRow(x: System, w: WorkerId)
    requires Leased(x, w) && Queue.Working(x.queue, w) && w in x.due && x.queue.now <= x.due[w]
    ensures
      var s := x.queue;
      && s.pcs[w].job in s.jobs && s.jobs[s.pcs[w].job].status.Processing? && s.jobs[s.pcs[w].job].worker == Some(w)
      && s.jobs[s.pcs[w].job].lease == Some(x.due[w]) && !Jobs.Claimable(s.jobs[s.pcs[w].job], s.now)
  {}

  /** The worker neither releases its job, nor crashes, nor touches the job again. */
  predicate StillWorking(x: System, a: Action, w: WorkerId) {
    a.Work? && !Queue.Global(a.step) && a.step.worker == w ==>
      !a.step.Finish? && !a.step.GiveUp? && !a.step.Crash? && !a.step.Touch?
  }

  lemma StillDueStep(x: System, a: Action, w: WorkerId)
    requires CanAct(x, a) && StillWorking(x, a, w) && Queue.Working(x.queue, w) && w in x.due
    ensures Queue.Working(Next(x, a).queue, w) && Next(x, a).queue.pcs[w].job == x.queue.pcs[w].job
    ensures w in Next(x, a).due && Next(x, a).due[w] == x.due[w]
  {}

  lemma {:induction false} StillDue(states: seq<System>, actions: seq<Action>, k: nat, i: nat, w: WorkerId)
    requires Run(states, actions) && k < i < |states| && GivesLease(states[k], actions[k], w)
    requires forall m :: k < m < i ==> StillWorking(states[m], actions[m], w)
    ensures Queue.Working(states[i].queue, w) && states[i].queue.pcs[w].job == states[k + 1].queue.pcs[w].job
    ensures w in states[i].due && states[i].due[w] == states[k].queue.now + actions[k].step.leaseSeconds
    decreases i
  {
    hide Next, CanAct, Queue.Init, DueAfter;
    if i > k + 1 {
      StillDue(states, actions, k, i - 1, w);
      StillDueStep(states[i - 1], actions[i - 1], w);
    } else {
      DueGiven(states[k], actions[k], w);
    }
  }

  lemma DueGiven(x: System, a: Action, w: WorkerId)
    requires CanAct(x, a) && GivesLease(x, a, w)
    ensures Queue.Working(Next(x, a).queue, w)
    ensures w in Next(x, a).due && Next(x, a).due[w] == x.queue.now + a.step.leaseSeconds
  {}
}
