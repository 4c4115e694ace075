/**
 * The reconciler at work: it verifies a plan, refuses it as a whole, or applies it in locked batches,
 * each of which is committed or rolled back. Its own consistency checks never fire.
 */
module Reconciler {
  import opened Options
  import opened Ordering
  import opened CaptureDates
  import opened SourceYearPlan
  import opened Reconciliation
  import opened ReconciliationVerdicts

  datatype Result = Result(plan: PlanRow, fileId: Option<int>, status: Status)

  datatype Outcome = Done | Crashed | BadBatchSize | Refused | Failed

  datatype Stats = Stats(applied: nat, alreadyApplied: nat, batches: nat)

  function FileIdFor(db: Db, p: PlanRow): Option<int> {
    if p.sha.Some? && p.sha.value in db.files then Some(db.files[p.sha.value].id) else None
  }

  /** `verify_all` */
  function ResultOf(db: Db, p: PlanRow): Result
    requires p.action.Exclude? || Actionable(p)
  {
    if p.action.Exclude? then Result(p, None, PlanExcluded) else Result(p, FileIdFor(db, p), Verify(db, p))
  }

  function Results(db: Db, plans: seq<PlanRow>): seq<Result>
    requires forall p :: p in plans ==> p.action.Exclude? || Actionable(p)
  {
    seq(|plans|, i requires 0 <= i < |plans| => ResultOf(db, plans[i]))
  }

  function Plans(results: seq<Result>): seq<PlanRow> {
    seq(|results|, i requires 0 <= i < |results| => results[i].plan)
  }

  /** Every row of a batch verifies, at its turn, as it did when the plan was verified. */
  ghost predicate AsExpected(db: Db, batch: seq<Result>) {
    forall k :: 0 <= k < |batch| ==> FoundAs(Advance(db, Plans(batch), k), batch[k])
  }

  predicate FoundAs(db: Db, r: Result) {
    Ready(db, r.plan) && Verify(db, r.plan) == r.status
  }

  lemma ExpectedTurn(db: Db, batch: seq<Result>, i: nat)
    requires AsExpected(db, batch) && i < |batch|
    ensures Turn(Advance(db, Plans(batch), i), batch[i], Advance(db, Plans(batch), i + 1))
  {}

  /** A row is found as it was verified, and written. */
  ghost predicate Turn(before: Db, r: Result, after: Db) {
    FoundAs(before, r) && after == ApplyRow(before, r.plan)
  }

  /** The databases before each row of a batch, and behind the last one. */
  ghost function Turns(db: Db, batch: seq<Result>): (turns: seq<Db>)
    ensures |turns| == |batch| + 1
    ensures forall k :: 0 <= k <= |batch| ==> turns[k] == Advance(db, Plans(batch), k)
  {
    seq(|batch| + 1, k requires 0 <= k <= |batch| => Advance(db, Plans(batch), k))
  }

  lemma TurnsFollow(db: Db, batch: seq<Result>)
    requires AsExpected(db, batch)
    ensures forall k :: 0 <= k < |batch| ==> Turn(Turns(db, batch)[k], batch[k], Turns(db, batch)[k + 1])
  {
    forall k | 0 <= k < |batch| ensures Turn(Turns(db, batch)[k], batch[k], Turns(db, batch)[k + 1]) {
      ExpectedTurn(db, batch, k);
    }
  }

  /** The user's date, the files and the EXIF data are never written; history and feed only grow. */
  ghost predicate OnlyAppends(before: Db, after: Db) {
    && after.files == before.files && after.links == before.links && after.metadata == before.metadata
    && before.history <= after.history && before.events <= after.events
    && after.states.Keys == before.states.Keys
    && forall id :: id in before.states ==>
        && after.states[id].user == before.states[id].user
          && after.states[id].userPrecision == before.states[id].userPrecision
        && RevisionOf(before.states[id]) <= RevisionOf(after.states[id])
  }

  lemma ApplyOnlyAppends(start: Db, db: Db, p: PlanRow)
    requires OnlyAppends(start, db) && Ready(db, p)
    ensures OnlyAppends(start, ApplyRow(db, p))
  {}

  ghost function ReadyResults(db: Db, plans: seq<PlanRow>): seq<Result>
    requires Loaded(plans)
  {
    seq(|Todo(db, plans)|, i requires 0 <= i < |Todo(db, plans)| =>
      assert Todo(db, plans)[i] in plans by { TodoIds(db, plans, i); }
      ResultOf(db, Todo(db, plans)[i]))
  }

  lemma ReadyResultsAre(db: Db, plans: seq<PlanRow>)
    requires Loaded(plans)
    ensures Plans(ReadyResults(db, plans)) == Todo(db, plans)
  {
    forall i | 0 <= i < |Todo(db, plans)| ensures Plans(ReadyResults(db, plans))[i] == Todo(db, plans)[i] {
      TodoIds(db, plans, i);
    }
  }

  /** On an unchanged database every ready row is found as it was verified. */
  lemma TodoAsExpected(db: Db, plans: seq<PlanRow>)
    requires Loaded(plans) && DistinctIds(db)
    ensures AsExpected(db, ReadyResults(db, plans)) && Plans(ReadyResults(db, plans)) == Todo(db, plans)
  {
    ReadyResultsAre(db, plans);
    forall k | 0 <= k < |ReadyResults(db, plans)|
      ensures FoundAs(Advance(db, Todo(db, plans), k), ReadyResults(db, plans)[k])
    {
      TurnComes(db, plans, k);
    }
  }

  lemma TurnComes(db: Db, plans: seq<PlanRow>, i: nat)
    requires Loaded(plans) && DistinctIds(db) && i < |Todo(db, plans)|
    ensures
      var db' := Advance(db, Todo(db, plans), i);
      && Ready(db', Todo(db, plans)[i])
      && Verify(db', Todo(db, plans)[i]) == ReadyResults(db, plans)[i].status
      && ReadyResults(db, plans)[i].plan == Todo(db, plans)[i]
  {
    AdvanceApplies(db, plans, i);
    NextIsReady(db, plans, i, Advance(db, Todo(db, plans), i));
    TodoIds(db, plans, i);
  }

  lemma ResultIn(db: Db, plans: seq<PlanRow>, p: PlanRow)
    requires Loaded(plans) && p in plans
    ensures ResultOf(db, p) in Results(db, plans)
  {
    var i :| 0 <= i < |plans| && plans[i] == p;
    assert Results(db, plans)[i] == ResultOf(db, p);
  }

  lemma ResultFrom(db: Db, plans: seq<PlanRow>, r: Result)
    requires Loaded(plans) && r in Results(db, plans)
    ensures r.plan in plans && r == ResultOf(db, r.plan)
  {}

  lemma ReadyIdsAre(db: Db, plans: seq<PlanRow>, ids: set<int>, results: seq<Result>)
    requires Loaded(plans) && results == Results(db, plans)
    requires ids == set r | r in results && IsReady(r.status) :: r.fileId.GetOr(0)
    ensures ids == ReadyIds(db, plans)
  {
    forall id | id in ids ensures id in ReadyIds(db, plans) {
      var r :| r in results && IsReady(r.status) && r.fileId.GetOr(0) == id;
      ResultFrom(db, plans, r);
      assert Ready(db, r.plan) && FileIdOf(db, r.plan) == id;
    }
    forall id | id in ReadyIds(db, plans) ensures id in ids {
      var p := RowFor(db, plans, id);
      ResultIn(db, plans, p);
    }
  }

  lemma ReadyResultIs(db: Db, plans: seq<PlanRow>, results: seq<Result>, i: nat, r: Result)
    requires Loaded(plans) && DistinctIds(db) && results == Results(db, plans) && i < |Ascending(ReadyIds(db, plans))|
    requires r in results && IsReady(r.status) && r.fileId.GetOr(0) == Ascending(ReadyIds(db, plans))[i]
    ensures i < |ReadyResults(db, plans)| && r == ReadyResults(db, plans)[i]
  {
    ResultFrom(db, plans, r);
    RowForIsUnique(db, plans, r.plan);
  }

  lemma BlockingResults(db: Db, plans: seq<PlanRow>, results: seq<Result>)
    requires Loaded(plans) && results == Results(db, plans)
    ensures Blocked(db, plans) <==> exists r :: r in results && IsBlocking(r.status)
  {
    if Blocked(db, plans) {
      var p :| p in plans && Actionable(p) && IsBlocking(Verify(db, p));
      ResultIn(db, plans, p);
    }
    forall r | r in results && IsBlocking(r.status) ensures Blocked(db, plans) {
      ResultFrom(db, plans, r);
    }
  }

  lemma ReadyRows(db: Db, plans: seq<PlanRow>)
    requires Loaded(plans)
    ensures forall r :: r in ReadyResults(db, plans) ==> r.plan in plans && Actionable(r.plan) && IsReady(r.status)
  {
    forall r | r in ReadyResults(db, plans) ensures r.plan in plans && Actionable(r.plan) && IsReady(r.status) {
      var k :| 0 <= k < |ReadyResults(db, plans)| && ReadyResults(db, plans)[k] == r;
      TodoIds(db, plans, k);
    }
  }

  lemma RowsReady(db: Db, plans: seq<PlanRow>)
    requires forall p :: p in plans ==> p.action.Exclude? || Actionable(p)
    ensures forall i :: 0 <= i < |plans| ==>
              && (plans[i].action.Exclude? <==> Results(db, plans)[i].status.PlanExcluded?)
              && (IsReady(Results(db, plans)[i].status) <==>
                    exists s :: && LiveRow(db, plans[i], s) && Undecided(s) && AsPlanned(plans[i], s)
                                && DatesAgree(db, plans[i]))
  {
    forall i | 0 <= i < |plans|
      ensures (plans[i].action.Exclude? <==> Results(db, plans)[i].status.PlanExcluded?)
      ensures IsReady(Results(db, plans)[i].status) <==>
                exists s :: && LiveRow(db, plans[i], s) && Undecided(s) && AsPlanned(plans[i], s)
                            && DatesAgree(db, plans[i])
    {
      assert plans[i] in plans;
      if !plans[i].action.Exclude? {
        ReadyRowsAre(db, plans[i]);
        NothingToVerify(db, plans[i]);
      }
    }
  }

  /** What a run has added: two history rows and one event for each row it wrote. */
  ghost predicate Tells(before: Db, after: Db, applied: nat) {
    |after.history| == |before.history| + 2 * applied && |after.events| == |before.events| + applied
  }

  /** The changes since `start` are the plan's, and they have been told. */
  ghost predicate Reconciled(start: Db, db: Db, plans: seq<PlanRow>, applied: nat) {
    OnlyPlanned(start, db, plans) && Tells(start, db, applied)
  }

  lemma ReconcileOne(start: Db, db: Db, plans: seq<PlanRow>, applied: nat, p: PlanRow)
    requires Loaded(plans) && Reconciled(start, db, plans, applied) && Ready(db, p) && p in plans
    ensures Reconciled(start, ApplyRow(db, p), plans, applied + 1)
  {
    StillOnlyPlanned(start, db, plans, p);
  }

  lemma AppendsAgain(a: Db, b: Db, c: Db)
    requires OnlyAppends(a, b) && OnlyAppends(b, c)
    ensures OnlyAppends(a, c)
  {}

  lemma {:induction false} NothingLeft(total: nat, size: nat, batches: nat, survives: nat)
    requires batches <= survives && Committed(total, Attempt(size, batches)) == total
    ensures Committed(total, Attempt(size, survives)) == total
    decreases survives
  {
    if batches < survives { NothingLeft(total, size, batches, survives - 1); }
  }

  /** How a locked row was found, and whether it was written. */
  datatype RowStep = Found | Changed | Written

  class MemoryKeeperSourceYearReconciler {
    var files: map<Sha, CommonFile>
    var links: map<int, Option<DateTime>>
    var metadata: map<int, Option<DateTime>>
    var states: map<int, FileState>
    var history: seq<HistoryItem>
    var events: seq<ChangeEvent>

    function View(): Db
      reads this
    {
      Db(files, links, metadata, states, history, events)
    }

    constructor (db: Db)
      ensures View() == db
    {
      files, links, metadata, states, history, events := db.files, db.links, db.metadata, db.states, db.history,
        db.events;
    }

    method VerifyAll(plans: seq<PlanRow>) returns (results: seq<Result>)
      requires forall p :: p in plans ==> p.action.Exclude? || Actionable(p)
      ensures results == Results(View(), plans)
      ensures forall i :: 0 <= i < |plans| ==>
                && results[i].plan == plans[i]
                && (plans[i].action.Exclude? <==> results[i].status.PlanExcluded?)
                && (IsReady(results[i].status) <==>
                      exists s :: && LiveRow(View(), plans[i], s) && Undecided(s) && AsPlanned(plans[i], s)
                                  && DatesAgree(View(), plans[i]))
    {
      RowsReady(View(), plans);
      results := [];
      for i := 0 to |plans|
        invariant results == Results(View(), plans)[..i]
      {
        assert plans[i] in plans;
        var status := PlanExcluded;
        var fileId := None;
        if !plans[i].action.Exclude? {
          status := Verify(View(), plans[i]);
          fileId := FileIdFor(View(), plans[i]);
        }
        results := results + [Result(plans[i], fileId, status)];
      }
    }

    /** Writes one row and checks what was written; the checks cannot fail. */
    method ApplyContext(plan: PlanRow) returns (ok: bool)
      requires Ready(View(), plan)
      modifies this`states, this`history, this`events
      ensures ok && View() == ApplyRow(old(View()), plan)
      ensures
        var id := files[plan.sha.value].id;
        && id in old(states) && id in states && states == old(states)[id := states[id]]
        && WrittenFrom(old(View()), plan, old(states)[id], states[id])
        && history == old(history) + [SourceYearSet(id, None, plan.sourceYear),
                                      SourceBasisSet(id, None, Some("ORIGINAL_PATH"))]
        && events == old(events) + [CaptureDateUpdated(plan.sha.value, states[id].revision.value)]
    {
      hide ApplyRow;
      ApplyWrites(View(), plan);
      ok := WriteContext(plan);
    }

    method WriteContext(plan: PlanRow) returns (ok: bool)
      requires Ready(View(), plan)
      modifies this`states, this`history, this`events
      ensures ok && View() == ApplyRow(old(View()), plan)
    {
      var id := files[plan.sha.value].id;
      var userBefore := (states[id].user, states[id].userPrecision);
      var originalBefore := Original(View(), id);
      var oldYear, oldBasis := states[id].sourceYear, states[id].sourceBasis;
      states := states[id := states[id].(sourceYear := plan.sourceYear)];
      states := states[id := states[id].(sourceBasis := Some(SOURCE_BASIS))];
      var target := Target(View(), plan);
      if !ProjectionMatchesPlan(plan, target) {
        return false;
      }
      states := states[id := Synchronized(states[id], target)];
      states := states[id := states[id].(revision := Some(RevisionOf(states[id]) + 1))];
      history := history + [SourceYearSet(id, oldYear, plan.sourceYear)];
      history := history + [SourceBasisSet(id, oldBasis, Some(SOURCE_BASIS))];
      events := events + [CaptureDateUpdated(plan.sha.value, RevisionOf(states[id]))];
      if !StateMatchesTarget(states[id], target) {
        return false;
      }
      if (states[id].user, states[id].userPrecision) != userBefore {
        return false;
      }
      if Original(View(), id) != originalBefore {
        return false;
      }
      ok := true;
      assert history == old(history) + HistoryOf(old(View()), plan);
    }

    /**
     * One locked batch: committed as a whole, or rolled back. `turns` is the database before each row, if
     * every row is found as expected.
     */
    method ApplyBatch(batch: seq<Result>, ghost start: Db, ghost plans: seq<PlanRow>, ghost before: nat,
                      ghost turns: seq<Db>, ghost expected: bool)
      returns (ok: bool, applied: nat, already: nat)
      requires Loaded(plans) && Reconciled(start, View(), plans, before)
      requires forall r :: r in batch ==> r.plan in plans && Actionable(r.plan) && IsReady(r.status)
      requires |turns| == |batch| + 1 && turns[0] == View()
      requires expected ==> forall k :: 0 <= k < |batch| ==> Turn(turns[k], batch[k], turns[k + 1])
      modifies this
      ensures !ok ==> View() == old(View())
      ensures OnlyAppends(old(View()), View())
      ensures Reconciled(start, View(), plans, if ok then before + applied else before)
      ensures ok ==> applied + already == |batch|
      ensures expected ==> ok && already == 0 && View() == turns[|batch|]
    {
      var saved := View();
      applied, already := 0, 0;
      for i := 0 to |batch|
        invariant saved == old(View()) && OnlyAppends(saved, View())
        invariant Reconciled(start, View(), plans, before + applied)
        invariant applied + already == i
        invariant expected ==> already == 0 && View() == turns[i]
      {
        assert batch[i] in batch;
        var step := ApplyOne(batch[i], start, plans, before + applied, saved, turns[i + 1], expected);
        match step {
          case Changed =>
            Rollback(saved);
            return false, 0, 0;
          case Found => already := already + 1;
          case Written => applied := applied + 1;
        }
      }
      ok := true;
    }

    /** One row of a batch, verified again under lock. */
    method ApplyOne(r: Result, ghost start: Db, ghost plans: seq<PlanRow>, ghost applied: nat, ghost saved: Db,
                    ghost next: Db, ghost expected: bool)
      returns (step: RowStep)
      requires Actionable(r.plan) && IsReady(r.status) && OnlyAppends(saved, View())
      requires Loaded(plans) && r.plan in plans && Reconciled(start, View(), plans, applied)
      requires expected ==> Turn(View(), r, next)
      modifies this`states, this`history, this`events
      ensures OnlyAppends(saved, View())
      ensures expected ==> step.Written? && View() == next
      ensures step.Written? <==> old(FoundAs(View(), r))
      ensures step.Found? <==> old(Verify(View(), r.plan)).AlreadyApplied?
      ensures if step.Written? then View() == ApplyRow(old(View()), r.plan) else View() == old(View())
      ensures Reconciled(start, View(), plans, if step.Written? then applied + 1 else applied)
    {
      var current := Verify(View(), r.plan);
      if current.AlreadyApplied? {
        return Found;
      }
      if current != r.status {
        return Changed;
      }
      ApplyOnlyAppends(saved, View(), r.plan);
      ReconcileOne(start, View(), plans, applied, r.plan);
      var written := ApplyContext(r.plan);
      return Written;
    }

    method Rollback(saved: Db)
      modifies this
      ensures View() == saved
    {
      files, links, metadata := saved.files, saved.links, saved.metadata;
      states, history, events := saved.states, saved.history, saved.events;
    }

    /** The ready results in the order in which they are locked. */
    method SortReady(results: seq<Result>, ghost verified: Db, ghost plans: seq<PlanRow>) returns (ready: seq<Result>)
      requires Loaded(plans) && DistinctIds(verified) && results == Results(verified, plans)
      ensures ready == ReadyResults(verified, plans)
    {
      var ids := set r | r in results && IsReady(r.status) :: r.fileId.GetOr(0);
      ReadyIdsAre(verified, plans, ids, results);
      var order := Ascending(ids);
      ghost var sorted := ReadyResults(verified, plans);
      forall i, r | 0 <= i < |order| && r in results && IsReady(r.status) && r.fileId.GetOr(0) == order[i]
        ensures r == sorted[i]
      {
        ReadyResultIs(verified, plans, results, i, r);
      }
      forall i | 0 <= i < |order|
        ensures exists r :: r in results && IsReady(r.status) && r.fileId.GetOr(0) == order[i]
      {
        assert order[i] in order;
      }
      ready := InOrder(results, order, sorted);
    }

    method InOrder(results: seq<Result>, order: seq<int>, ghost sorted: seq<Result>) returns (ready: seq<Result>)
      requires |sorted| == |order|
      requires forall i, r | 0 <= i < |order| && r in results && IsReady(r.status) ::
                 r.fileId.GetOr(0) == order[i] ==> r == sorted[i]
      requires forall i :: 0 <= i < |order| ==>
                 exists r :: r in results && IsReady(r.status) && r.fileId.GetOr(0) == order[i]
      ensures ready == sorted
    {
      ready := [];
      for i := 0 to |order|
        invariant |ready| == i && forall k :: 0 <= k < i ==> ready[k] == sorted[k]
      {
        var r := FindResult(results, order[i]);
        ready := ready + [r];
      }
    }

    method FindResult(results: seq<Result>, id: int) returns (r: Result)
      requires exists r :: r in results && IsReady(r.status) && r.fileId.GetOr(0) == id
      ensures r in results && IsReady(r.status) && r.fileId.GetOr(0) == id
    {
      r :| r in results && IsReady(r.status) && r.fileId.GetOr(0) == id;
    }

    /**
     * `verified` is the database as the plan was verified against it, possibly different by now; the
     * process survives `survives` batches. On an unchanged database no batch fails.
     */
    method ApplyVerified(results: seq<Result>, batchSize: int, survives: nat, ghost verified: Db,
                         ghost plans: seq<PlanRow>)
      returns (outcome: Outcome, stats: Stats)
      requires Loaded(plans) && DistinctIds(verified) && results == Results(verified, plans)
      modifies this
      ensures outcome.BadBatchSize? <==> !(1 <= batchSize <= 50)
      ensures outcome.Refused? <==> 1 <= batchSize <= MAX_BATCH_SIZE && Blocked(verified, plans)
      ensures outcome.Refused? <==>
                1 <= batchSize <= 50 && exists p :: p in plans && Actionable(p) && forall s :: !Harmless(verified, p, s)
      ensures outcome.BadBatchSize? || outcome.Refused? ==> View() == old(View())
      ensures forall id :: id in old(states) && id in states && states[id] != old(states)[id] ==>
                exists p :: p in plans && p.sha.Some? && p.sha.value in files && files[p.sha.value].id == id
                            && WrittenFrom(old(View()), p, old(states)[id], states[id])
      ensures |history| == |old(history)| + 2 * stats.applied && |events| == |old(events)| + stats.applied
      ensures OnlyAppends(old(View()), View())
      ensures old(View()) == verified && 1 <= batchSize <= MAX_BATCH_SIZE ==>
                !outcome.Failed? && View() == AfterAttempt(verified, plans, Attempt(batchSize, survives))
      ensures old(View()) == verified && outcome.Done? ==>
                stats.alreadyApplied == 0 && stats.applied == |Todo(verified, plans)|
    {
      stats := Stats(0, 0, 0);
      if !(1 <= batchSize <= MAX_BATCH_SIZE) {
        return BadBatchSize, stats;
      }
      BlockingResults(verified, plans, results);
      BlockingRowsAre(verified, plans);
      if exists r :: r in results && IsBlocking(r.status) {
        return Refused, stats;
      }
      var ready := SortReady(results, verified, plans);
      ReadyRows(verified, plans);
      ghost var turns, expected := Turns(View(), ready), View() == verified;
      if expected {
        TodoAsExpected(verified, plans);
        TurnsFollow(verified, ready);
      }
      outcome, stats := ApplyBatches(ready, plans, batchSize, survives, turns, expected);
    }

    method ApplySlice(ready: seq<Result>, from: nat, to: nat, ghost start: Db, ghost plans: seq<PlanRow>,
                      ghost before: nat, ghost turns: seq<Db>, ghost expected: bool)
      returns (ok: bool, applied: nat, already: nat)
      requires from <= to <= |ready| && OnlyAppends(start, View()) && |turns| == |ready| + 1
      requires Loaded(plans) && Reconciled(start, View(), plans, before)
      requires forall r :: r in ready ==> r.plan in plans && Actionable(r.plan) && IsReady(r.status)
      requires expected ==> View() == turns[from]
      requires expected ==> forall k :: 0 <= k < |ready| ==> Turn(turns[k], ready[k], turns[k + 1])
      modifies this
      ensures OnlyAppends(start, View()) && (ok ==> applied + already == to - from)
      ensures Reconciled(start, View(), plans, if ok then before + applied else before)
      ensures expected ==> ok && already == 0 && View() == turns[to]
    {
      ghost var slice := turns[from..to + 1][0 := View()];
      if expected {
        assert slice == turns[from..to + 1];
        forall k | 0 <= k < to - from ensures Turn(slice[k], ready[from..to][k], slice[k + 1]) {
          assert Turn(turns[from + k], ready[from + k], turns[from + k + 1]);
        }
      }
      ok, applied, already := ApplyBatch(ready[from..to], start, plans, before, slice, expected);
      AppendsAgain(start, old(View()), View());
    }

    method ApplyBatches(ready: seq<Result>, ghost plans: seq<PlanRow>, batchSize: nat, survives: nat,
                        ghost turns: seq<Db>, ghost expected: bool)
      returns (outcome: Outcome, stats: Stats)
      requires batchSize > 0 && Loaded(plans)
      requires forall r :: r in ready ==> r.plan in plans && Actionable(r.plan) && IsReady(r.status)
      requires |turns| == |ready| + 1 && turns[0] == View()
      requires expected ==> forall k :: 0 <= k < |ready| ==> Turn(turns[k], ready[k], turns[k + 1])
      modifies this
      ensures outcome.Done? || outcome.Crashed? || outcome.Failed?
      ensures OnlyAppends(old(View()), View()) && Reconciled(old(View()), View(), plans, stats.applied)
      ensures expected ==>
                && !outcome.Failed? && stats.alreadyApplied == 0
                && View() == turns[Committed(|ready|, Attempt(batchSize, survives))]
                && (outcome.Done? ==> stats.applied == |ready|)
    {
      stats := Stats(0, 0, 0);
      ghost var start := View();
      var from := 0;
      while from < |ready| && stats.batches < survives
        invariant from <= |ready| && stats.batches <= survives && stats.applied + stats.alreadyApplied == from
        invariant from == Committed(|ready|, Attempt(batchSize, stats.batches))
        invariant OnlyAppends(start, View()) && Reconciled(start, View(), plans, stats.applied)
        invariant expected ==> stats.alreadyApplied == 0 && View() == turns[from]
        decreases |ready| - from
      {
        var to := if from + batchSize <= |ready| then from + batchSize else |ready|;
        var ok, applied, already := ApplySlice(ready, from, to, start, plans, stats.applied, turns, expected);
        if !ok {
          return Failed, stats;
        }
        stats := Stats(stats.applied + applied, stats.alreadyApplied + already, stats.batches + 1);
        from := to;
      }
      if from == |ready| { NothingLeft(|ready|, batchSize, stats.batches, survives); }
      outcome := if from < |ready| then Crashed else Done;
    }
  }
}
