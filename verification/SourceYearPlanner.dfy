/**
 * `build_plan` as it runs: rows are grouped, each group is judged, counters are kept beside the rows,
 * and the totals are compared at the end. The comparison never fails.
 */
module SourceYearPlanner {
  import opened Options
  import opened Ordering
  import opened CaptureDates
  import opened SourceYearPlan
  import opened Tallies
  import Picking

  datatype Summary = Summary(
    rows: seq<PlanRow>, totalAuditRows: nat, uniqueMemoryKeeper: nat,
    counts: Tally<Key>, provenanceOnly: nat, conflicts: nat,
    years: Tally<int>, reasons: Tally<Reason>)

  datatype Outcome = Plan(summary: Summary) | Rejected | TotalsDiffer

  /** A row is counted under its action, an excluded one under its reason. */
  datatype Key = ByAction(action: Action) | ByReason(reason: Reason)

  function KeyOf(p: PlanRow): Key {
    if p.action.Exclude? then ByReason(p.reason) else ByAction(p.action)
  }

  function Count(rows: seq<PlanRow>, key: Key): nat {
    if rows == [] then 0 else Count(rows[..|rows| - 1], key) + if KeyOf(rows[|rows| - 1]) == key then 1 else 0
  }

  /** The counters beside those of the actions. */
  datatype Counter = SetsYear(year: int) | SetsReason(reason: Reason) | Conflicts

  predicate Adds(p: PlanRow, counter: Counter) {
    match counter
    case SetsYear(year) => p.action == SetYearOnly && p.sourceYear.GetOr(0) == year
    case SetsReason(reason) => p.action == SetYearOnly && p.reason == reason
    case Conflicts => p.userConflict
  }

  function CountBy(rows: seq<PlanRow>, counter: Counter): nat {
    if rows == [] then 0
    else CountBy(rows[..|rows| - 1], counter) + if Adds(rows[|rows| - 1], counter) then 1 else 0
  }

  ghost predicate Fits(p: PlanRow, key: Key) {
    match key
    case ByAction(action) => p.action == action && action != Exclude
    case ByReason(reason) => p.action == Exclude && p.reason == reason
  }

  lemma FitsItsKey(rows: seq<PlanRow>, key: Key)
    ensures forall p :: p in rows ==> (KeyOf(p) == key <==> Fits(p, key))
  {}

  /** The positions of the rows that a counter stands for. */
  ghost function Fitting(rows: seq<PlanRow>, key: Key): set<int> {
    set i | 0 <= i < |rows| && Fits(rows[i], key)
  }

  ghost function Adding(rows: seq<PlanRow>, counter: Counter): set<int> {
    set i | 0 <= i < |rows| && Adds(rows[i], counter)
  }

  lemma OneMoreIndex(before: set<int>, after: set<int>, n: int, more: bool)
    requires n !in before && before <= after <= before + {n} && (n in after <==> more)
    ensures |after| == |before| + if more then 1 else 0
  {
    if more {
      assert after == before + {n};
    } else {
      assert after == before;
    }
  }

  lemma OneMorePosition(init: seq<PlanRow>, p: PlanRow, key: Key, counter: Counter)
    ensures |Fitting(init + [p], key)| == |Fitting(init, key)| + if Fits(p, key) then 1 else 0
    ensures |Adding(init + [p], counter)| == |Adding(init, counter)| + if Adds(p, counter) then 1 else 0
  {
    hide Fits, Adds;
    OneMoreIndex(Fitting(init, key), Fitting(init + [p], key), |init|, Fits(p, key));
    OneMoreIndex(Adding(init, counter), Adding(init + [p], counter), |init|, Adds(p, counter));
  }

  /** Each count is the number of rows of the plan with that action, reason, year or conflict. */
  lemma {:induction false} CountsArePositions(rows: seq<PlanRow>, key: Key, counter: Counter)
    ensures Count(rows, key) == |Fitting(rows, key)| && CountBy(rows, counter) == |Adding(rows, counter)|
  {
    hide Fits, KeyOf, Adds;
    FitsItsKey(rows, key);
    if rows != [] {
      var n := |rows| - 1;
      CountsArePositions(rows[..n], key, counter);
      OneMorePosition(rows[..n], rows[n], key, counter);
      assert rows == rows[..n] + [rows[n]];
    }
  }

  ghost predicate TallyOf(counts: Tally<Key>, rows: seq<PlanRow>) {
    forall key :: Get(counts, key) == Count(rows, key)
  }

  /** The counters agree with the rows counted so far. */
  ghost predicate Tallied(s: Summary) {
    && TallyOf(s.counts, s.rows)
    && s.provenanceOnly == Count(s.rows, ByAction(KeepExactExif))
    && s.conflicts == CountBy(s.rows, Conflicts)
    && Total(s.years) == Count(s.rows, ByAction(SetYearOnly))
    && Total(s.reasons) == Count(s.rows, ByAction(SetYearOnly))
    && (forall year :: Get(s.years, year) == CountBy(s.rows, SetsYear(year)))
    && (forall reason :: Get(s.reasons, reason) == CountBy(s.rows, SetsReason(reason)))
    && s.uniqueMemoryKeeper == Count(s.rows, ByAction(KeepExactExif)) + Count(s.rows, ByAction(KeepExactUser))
                               + Count(s.rows, ByAction(SetYearOnly))
                               + Count(s.rows, ByReason(OtherReason("MISSING_EFFECTIVE_YEAR")))
  }

  function MissingYear(): Reason {
    OtherReason(StatusText(MissingEffectiveYear))
  }

  /** What one more plan row adds to the counters. */
  function Counted(s: Summary, p: PlanRow): Summary {
    s.(rows := s.rows + [p],
       uniqueMemoryKeeper := s.uniqueMemoryKeeper + if p.action.Exclude? && p.reason != MissingYear() then 0 else 1,
       counts := Bump(s.counts, KeyOf(p)),
       provenanceOnly := s.provenanceOnly + if p.action.KeepExactExif? then 1 else 0,
       conflicts := s.conflicts + if p.userConflict then 1 else 0,
       years := if p.action.SetYearOnly? then Bump(s.years, p.sourceYear.GetOr(0)) else s.years,
       reasons := if p.action.SetYearOnly? then Bump(s.reasons, p.reason) else s.reasons)
  }

  lemma OneMoreRow(rows: seq<PlanRow>, p: PlanRow, key: Key, counter: Counter)
    ensures Count(rows + [p], key) == Count(rows, key) + if KeyOf(p) == key then 1 else 0
    ensures CountBy(rows + [p], counter) == CountBy(rows, counter) + if Adds(p, counter) then 1 else 0
  {
    assert (rows + [p])[..|rows|] == rows;
  }

  /** The counters by year and by reason take part in exactly the rows that set a year alone. */
  lemma YearsAgree(s: Summary, p: PlanRow)
    requires Tallied(s)
    ensures
      var t := Counted(s, p);
      && (forall year :: Get(t.years, year) == CountBy(t.rows, SetsYear(year)))
      && (forall reason :: Get(t.reasons, reason) == CountBy(t.rows, SetsReason(reason)))
  {
    hide Count, CountBy, Total;
    forall year {
      OneMoreRow(s.rows, p, KeyOf(p), SetsYear(year));
    }
    forall reason {
      OneMoreRow(s.rows, p, KeyOf(p), SetsReason(reason));
    }
  }

  lemma TotalsAgree(s: Summary, p: PlanRow)
    requires Tallied(s)
    ensures
      var t := Counted(s, p);
      && Total(t.years) == Count(t.rows, ByAction(SetYearOnly))
      && Total(t.reasons) == Count(t.rows, ByAction(SetYearOnly))
  {
    hide Count, CountBy, Total;
    OneMoreRow(s.rows, p, ByAction(SetYearOnly), Conflicts);
    BumpAddsOne(s.years, p.sourceYear.GetOr(0));
    BumpAddsOne(s.reasons, p.reason);
  }

  lemma CountedAgrees(s: Summary, p: PlanRow)
    requires Tallied(s)
    ensures Tallied(Counted(s, p))
  {
    hide Count, CountBy, Total;
    YearsAgree(s, p);
    TotalsAgree(s, p);
    forall key {
      OneMoreRow(s.rows, p, key, Conflicts);
    }
  }

  lemma SingletonSet<T>(s: set<T>, x: T)
    requires x in s
    ensures |s| == 1 <==> s == {x}
  {
    assert |s - {x}| == |s| - 1;
    assert s - {x} == {} ==> s == {x};
  }

  method AddRow(s: Summary, p: PlanRow) returns (t: Summary)
    requires Tallied(s)
    ensures Tallied(t) && t.rows == s.rows + [p] && t.totalAuditRows == s.totalAuditRows
  {
    CountedAgrees(s, p);
    t := Counted(s, p);
  }

  lemma DiffersSomewhere<T>(g: seq<AuditRow>, f: AuditRow -> T, values: set<T>)
    requires g != [] && values == set r | r in g :: f(r)
    ensures |values| > 0 && (|values| != 1 <==> exists r :: r in Members(g) && f(r) != f(g[0]))
  {
    assert g[0] in g;
    SingletonSet(values, f(g[0]));
    forall r | r in g ensures f(r) in values {}
    if |values| != 1 && values - {f(g[0])} != {} {
      var x := Picking.Member(values - {f(g[0])});
      var r :| r in g && f(r) == x;
      assert r in Members(g);
    }
  }

  /** One group of rows with the same digest; `None` is a validation error. */
  method ClassifyGroup(g: seq<AuditRow>) returns (row: Option<PlanRow>)
    requires g != []
    ensures row == Verdict(Members(g), g[0], |g|)
  {
    assert g[0] in g;
    var snapshots := set r | r in g :: r.snapshot;
    var statuses := set r | r in g :: r.status;
    var years := set r | r in g :: r.sourceYear;
    DiffersSomewhere(g, (r: AuditRow) => r.snapshot, snapshots);
    DiffersSomewhere(g, (r: AuditRow) => r.status, statuses);
    DiffersSomewhere(g, (r: AuditRow) => r.sourceYear, years);
    if |snapshots| != 1 {
      return None;
    }
    if None in years {
      return None;
    }
    if |years| > 1 || AmbiguousSourceYear in statuses {
      return Some(Planned(g[0].(sourceYear := None), Exclude, OtherReason(StatusText(AmbiguousSourceYear)), false,
                          |g|));
    }
    if |statuses| != 1 {
      return None;
    }
    var first := g[0];
    if first.status.NotInMemoryKeeper? || first.status.MissingEffectiveYear? {
      return Some(Planned(first, Exclude, OtherReason(StatusText(first.status)), false, |g|));
    }
    if !(first.status.Match? || first.status.YearMismatch?) {
      return None;
    }
    return if Eligible(first) then Classify(first, |g|) else None;
  }

  method GroupRows(rows: seq<AuditRow>) returns (ok: bool, grouped: map<int, seq<AuditRow>>, standalone: seq<AuditRow>)
    ensures ok <==> forall r :: r in rows && r.sha.None? ==> MayLackSha(r.status)
    ensures ok ==> standalone == Unhashed(rows) && grouped.Keys == Shas(rows)
    ensures ok ==> forall sha :: sha in grouped ==> sha >= 0 && grouped[sha] == Group(rows, sha)
  {
    grouped, standalone := map[], [];
    for i := 0 to |rows|
      invariant standalone == Unhashed(rows[..i]) && grouped.Keys == Shas(rows[..i])
      invariant forall sha: Sha :: Group(rows[..i], sha) == if sha in grouped then grouped[sha] else []
      invariant forall r :: r in rows[..i] && r.sha.None? ==> MayLackSha(r.status)
    {
      var row := rows[i];
      assert row in rows && rows[..i + 1] == rows[..i] + [row] && rows[..i + 1][..i] == rows[..i];
      ShasGrow(rows[..i], row);
      if row.sha.None? {
        if !MayLackSha(row.status) {
          return false, grouped, standalone;
        }
        standalone := standalone + [row];
      } else {
        var key := row.sha.value;
        grouped := grouped[key := (if key in grouped then grouped[key] else []) + [row]];
      }
    }
    assert rows[..|rows|] == rows;
    ok := true;
  }

  lemma ShasGrow(rows: seq<AuditRow>, row: AuditRow)
    ensures Shas(rows + [row]) == if row.sha.Some? then Shas(rows) + {row.sha.value} else Shas(rows)
  {}

  /** The first `n` groups in order. */
  ghost predicate AllJudged(rows: seq<AuditRow>, shas: seq<int>, n: nat)
    requires n <= |shas|
  {
    forall i :: 0 <= i < n ==> shas[i] in Shas(rows) && GroupVerdict(rows, shas[i]).Some?
  }

  ghost function Judged(rows: seq<AuditRow>, shas: seq<int>, n: nat): seq<PlanRow>
    requires n <= |shas| && AllJudged(rows, shas, n)
  {
    seq(n, i requires 0 <= i < n => GroupVerdict(rows, shas[i]).value)
  }

  lemma AllAreJudged(rows: seq<AuditRow>)
    requires AllJudged(rows, Ascending(Shas(rows)), |Ascending(Shas(rows))|)
    ensures forall sha :: sha in Shas(rows) ==> GroupVerdict(rows, sha).Some?
  {
    forall sha | sha in Shas(rows) ensures GroupVerdict(rows, sha).Some? {
      assert sha in Ascending(Shas(rows));
    }
  }

  lemma GroupIsFilled(rows: seq<AuditRow>, sha: Sha)
    requires sha in Shas(rows)
    ensures Group(rows, sha) != []
  {
    GroupIsTheRest(rows, sha);
  }

  method JudgeGroup(ghost rows: seq<AuditRow>, ghost sha: Sha, g: seq<AuditRow>) returns (row: Option<PlanRow>)
    requires sha in Shas(rows) && g == Group(rows, sha)
    ensures row == GroupVerdict(rows, sha)
  {
    GroupIsFilled(rows, sha);
    row := ClassifyGroup(g);
  }

  lemma JudgedNext(rows: seq<AuditRow>, order: seq<int>, i: nat, row: PlanRow)
    requires i < |order| && AllJudged(rows, order, i) && order[i] in Shas(rows)
    requires GroupVerdict(rows, order[i]) == Some(row)
    ensures AllJudged(rows, order, i + 1) && Judged(rows, order, i + 1) == Judged(rows, order, i) + [row]
  {}

  /** One group more; `None` when the group is an error. */
  method JudgeNext(ghost rows: seq<AuditRow>, grouped: map<int, seq<AuditRow>>, order: seq<int>, i: nat, s: Summary)
    returns (next: Option<Summary>)
    requires order == Ascending(Shas(rows)) && i < |order| && grouped.Keys == Shas(rows) && AllJudged(rows, order, i)
    requires forall sha :: sha in grouped ==> sha >= 0 && grouped[sha] == Group(rows, sha)
    requires Tallied(s) && s.rows == Judged(rows, order, i)
    ensures next.None? ==> exists sha :: sha in Shas(rows) && GroupVerdict(rows, sha).None?
    ensures next.Some? ==>
              && AllJudged(rows, order, i + 1) && next.value.rows == Judged(rows, order, i + 1)
              && Tallied(next.value) && next.value.totalAuditRows == s.totalAuditRows
  {
    var sha := order[i];
    assert sha in order;
    var row := JudgeGroup(rows, sha, grouped[sha]);
    if row.None? {
      return None;
    }
    JudgedNext(rows, order, i, row.value);
    var t := AddRow(s, row.value);
    return Some(t);
  }

  /** The groups in the order of their digests; the first error ends it. */
  method JudgeGroups(rows: seq<AuditRow>, grouped: map<int, seq<AuditRow>>, start: Summary)
    returns (ok: bool, s: Summary)
    requires grouped.Keys == Shas(rows) && Tallied(start) && start.rows == []
    requires forall sha :: sha in grouped ==> sha >= 0 && grouped[sha] == Group(rows, sha)
    ensures !ok ==> exists sha :: sha in Shas(rows) && GroupVerdict(rows, sha).None?
    ensures ok ==> Tallied(s) && s.totalAuditRows == start.totalAuditRows
    ensures ok ==>
              var order := Ascending(Shas(rows));
              AllJudged(rows, order, |order|) && s.rows == Judged(rows, order, |order|)
  {
    s := start;
    var order := Ascending(grouped.Keys);
    for i := 0 to |order|
      invariant AllJudged(rows, order, i)
      invariant Tallied(s) && s.totalAuditRows == start.totalAuditRows && s.rows == Judged(rows, order, i)
    {
      var next := JudgeNext(rows, grouped, order, i, s);
      if next.None? {
        return false, s;
      }
      s := next.value;
    }
    ok := true;
  }

  method AddStandalone(standalone: seq<AuditRow>, start: Summary) returns (s: Summary)
    requires Tallied(start) && forall r :: r in standalone ==> MayLackSha(r.status)
    ensures Tallied(s) && s.totalAuditRows == start.totalAuditRows && s.rows == start.rows + Excluded(standalone)
  {
    hide Tallied, Counted, Planned;
    s := start;
    for i := 0 to |standalone|
      invariant Tallied(s) && s.totalAuditRows == start.totalAuditRows
      invariant s.rows == start.rows + Excluded(standalone[..i])
    {
      assert standalone[i] in standalone;
      var row := Exclusion(standalone[i]);
      s := AddRow(s, row);
      assert Excluded(standalone[..i + 1]) == Excluded(standalone[..i]) + [row];
    }
    assert standalone[..|standalone|] == standalone;
  }

  /** A stable insertion sort by `_plan_sort_key`. */
  method SortRows(rows: seq<PlanRow>) returns (sorted: seq<PlanRow>)
    ensures sorted == Sorted(rows)
  {
    sorted := [];
    for i := 0 to |rows|
      invariant sorted == Sorted(rows[..i])
    {
      sorted := Insert(sorted, rows[i]);
      assert rows[..i + 1][..i] == rows[..i];
    }
    assert rows[..|rows|] == rows;
  }

  lemma {:induction false} InsertCounts(sorted: seq<PlanRow>, p: PlanRow, key: Key, counter: Counter)
    ensures Count(Insert(sorted, p), key) == Count(sorted, key) + if KeyOf(p) == key then 1 else 0
    ensures CountBy(Insert(sorted, p), counter) == CountBy(sorted, counter) + if Adds(p, counter) then 1 else 0
  {
    hide KeyLe, Adds, KeyOf;
    if sorted != [] && !KeyLe(sorted[|sorted| - 1], p) {
      InsertCounts(sorted[..|sorted| - 1], p, key, counter);
    }
  }

  lemma {:induction false} SortedCounts(rows: seq<PlanRow>, key: Key, counter: Counter)
    ensures Count(Sorted(rows), key) == Count(rows, key) && CountBy(Sorted(rows), counter) == CountBy(rows, counter)
  {
    hide Insert, Adds, KeyOf;
    if rows != [] {
      SortedCounts(rows[..|rows| - 1], key, counter);
      InsertCounts(Sorted(rows[..|rows| - 1]), rows[|rows| - 1], key, counter);
    }
  }

  lemma SortingKeepsTallies(s: Summary)
    requires Tallied(s)
    ensures Tallied(s.(rows := Sorted(s.rows)))
  {
    hide Count, CountBy, Sorted;
    forall key, counter {
      SortedCounts(s.rows, key, counter);
    }
  }

  lemma NothingCounted(total: nat)
    ensures Tallied(Summary([], total, 0, map[], 0, 0, map[], map[]))
  {}

  method BuildPlan(rows: seq<AuditRow>) returns (outcome: Outcome)
    ensures outcome.Plan? <==> Accepted(rows)
    ensures !outcome.TotalsDiffer?
    ensures outcome.Plan? ==> outcome.summary.rows == PlanRows(rows) && outcome.summary.totalAuditRows == |rows|
    ensures outcome.Plan? ==> Tallied(outcome.summary)
  {
    hide Count, CountBy, Group, Unhashed, Verdict, Sorted;
    var ok, grouped, standalone := GroupRows(rows);
    if !ok {
      return Rejected;
    }
    var s := Summary([], |rows|, 0, map[], 0, 0, map[], map[]);
    NothingCounted(|rows|);
    var judged, summary := JudgeGroups(rows, grouped, s);
    if !judged {
      return Rejected;
    }
    AllAreJudged(rows);
    UnhashedLack(rows);
    summary := AddStandalone(standalone, summary);
    assert summary.rows == HashedRows(rows) + Exclusions(rows);
    SortingKeepsTallies(summary);
    var sorted := SortRows(summary.rows);
    summary := summary.(rows := sorted);
    var yearTotal := Sum(summary.years);
    var reasonTotal := Sum(summary.reasons);
    if yearTotal != Get(summary.counts, ByAction(SetYearOnly)) {
      return TotalsDiffer;
    }
    if reasonTotal != Get(summary.counts, ByAction(SetYearOnly)) {
      return TotalsDiffer;
    }
    return Plan(summary);
  }
}
