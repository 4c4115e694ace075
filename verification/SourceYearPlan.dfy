/**
 * The source-year planner: audit rows are grouped by digest and classified into one plan row per
 * digest, plus one per row without a digest. The plan does not depend on the order of the rows, no
 * source path is lost, and the planner's own total checks cannot fail.
 */
module SourceYearPlan {
  import opened Options
  import opened Ordering
  import opened CaptureDates

  datatype AuditStatus =
    | Match | YearMismatch | MissingEffectiveYear | NotInMemoryKeeper | NoPathYear | AmbiguousSourceYear | HashError

  /** What the audit saw of the file's state row. */
  datatype Snapshot = Snapshot(
    basis: Option<string>, year: Option<int>, day: Option<Date>, when: Option<DateTime>,
    user: Option<DateTime>, userPrecision: Option<string>, revision: Option<int>)

  datatype AuditRow = AuditRow(status: AuditStatus, sourceYear: Option<int>, snapshot: Snapshot, sha: Option<Sha>)

  datatype Action = KeepExactExif | KeepExactUser | SetYearOnly | Exclude

  datatype Reason =
    | ExifSourceYearMatch | UserExact | ExifYearConflict | ImportedFallback | CreatedFallback
      | OtherReason(text: string)

  datatype PlanRow = PlanRow(
    sha: Option<Sha>, sourceYear: Option<int>, action: Action, reason: Reason, userConflict: bool,
    snapshot: Snapshot, paths: int)

  function StatusText(s: AuditStatus): string {
    match s
    case Match => "MATCH"
    case YearMismatch => "YEAR_MISMATCH"
    case MissingEffectiveYear => "MISSING_EFFECTIVE_YEAR"
    case NotInMemoryKeeper => "NOT_IN_MEMORYKEEPER"
    case NoPathYear => "NO_PATH_YEAR"
    case AmbiguousSourceYear => "AMBIGUOUS_SOURCE_YEAR"
    case HashError => "HASH_ERROR"
  }

  function ReasonText(r: Reason): string {
    match r
    case ExifSourceYearMatch => "EXIF_SOURCE_YEAR_MATCH"
    case UserExact => "USER_EXACT"
    case ExifYearConflict => "EXIF_YEAR_CONFLICT"
    case ImportedFallback => "IMPORTED_FALLBACK"
    case CreatedFallback => "CREATED_FALLBACK"
    case OtherReason(text) => text
  }

  // --------------------------------------------------------------- one row

  /** `_validate_snapshot_status`: the status agrees with the years, and the exact date is complete. */
  predicate Eligible(r: AuditRow)
    requires r.sourceYear.Some?
  {
    && r.snapshot.year.Some?
    && (r.status.Match? <==> r.snapshot.year == r.sourceYear)
    && r.snapshot.day.Some? && r.snapshot.when.Some? && r.snapshot.revision.Some?
  }

  function Planned(r: AuditRow, action: Action, reason: Reason, userConflict: bool, paths: int): PlanRow {
    PlanRow(r.sha, r.sourceYear, action, reason, userConflict, r.snapshot, paths)
  }

  /** `_classify_memorykeeper_row` */
  function Classify(r: AuditRow, paths: int): Option<PlanRow>
    requires r.sourceYear.Some?
  {
    if r.snapshot.basis == Some(EXIF) then
      if r.snapshot.year == r.sourceYear then Some(Planned(r, KeepExactExif, ExifSourceYearMatch, false, paths))
      else Some(Planned(r, SetYearOnly, ExifYearConflict, false, paths))
    else if r.snapshot.basis == Some(IMPORTED) then Some(Planned(r, SetYearOnly, ImportedFallback, false, paths))
    else if r.snapshot.basis == Some(CREATED) then Some(Planned(r, SetYearOnly, CreatedFallback, false, paths))
    else if r.snapshot.basis == Some(USER) then
      if r.snapshot.user.None? || YearOf(r.snapshot.user) != r.snapshot.year then None
      else Some(Planned(r, KeepExactUser, UserExact, YearOf(r.snapshot.user) != r.sourceYear, paths))
    else None
  }

  // -------------------------------------------------------------- one group

  /** `sources` is what a group of `paths` rows with the same digest looks like as a set. */
  function Verdict(sources: set<AuditRow>, first: AuditRow, paths: int): Option<PlanRow>
    requires first in sources
  {
    if exists r :: r in sources && r.snapshot != first.snapshot then None
    else if exists r :: r in sources && r.sourceYear.None? then None
    else if (exists r :: r in sources && r.sourceYear != first.sourceYear)
      || (exists r :: r in sources && r.status.AmbiguousSourceYear?) then
      Some(Planned(first.(sourceYear := None), Exclude, OtherReason(StatusText(AmbiguousSourceYear)), false, paths))
    else if exists r :: r in sources && r.status != first.status then None
    else if first.status.NotInMemoryKeeper? || first.status.MissingEffectiveYear? then
      Some(Planned(first, Exclude, OtherReason(StatusText(first.status)), false, paths))
    else if !first.status.Match? && !first.status.YearMismatch? then None
    else if !Eligible(first) then None
    else Classify(first, paths)
  }

  /** The verdict does not depend on which row of the group came first. */
  lemma AnyRowComesFirst(sources: set<AuditRow>, a: AuditRow, b: AuditRow, paths: int)
    requires a in sources && b in sources && a.sha == b.sha
    ensures Verdict(sources, a, paths) == Verdict(sources, b, paths)
  {
    if a.snapshot == b.snapshot && a.sourceYear == b.sourceYear && a.status == b.status {
      assert a == b;
    }
  }

  /** The rows of a digest disagree about its year, or the audit has said so. */
  ghost predicate Disputed(sources: set<AuditRow>) {
    || (exists r, q :: r in sources && q in sources && r.sourceYear != q.sourceYear)
    || (exists r :: r in sources && r.status == AmbiguousSourceYear)
  }

  /** A complete exact date whose basis the planner knows, and whose year fits the status. */
  ghost predicate Plannable(r: AuditRow) {
    var s := r.snapshot;
    && s.year.Some? && s.day.Some? && s.when.Some? && s.revision.Some?
    && (r.status == Match <==> s.year == r.sourceYear)
    && (|| s.basis == Some("EXIF") || s.basis == Some("IMPORTED") || s.basis == Some("CREATED")
        || (s.basis == Some("USER") && s.user.Some? && Some(s.user.value.date.year) == s.year))
  }

  /** When a group is rejected: rows that differ where they must not, or a date that cannot be planned. */
  lemma RejectedGroups(sources: set<AuditRow>, first: AuditRow, paths: int)
    requires first in sources
    ensures Verdict(sources, first, paths).None? <==>
              || (exists r :: r in sources && r.snapshot != first.snapshot)
              || (exists r :: r in sources && r.sourceYear == None)
              || (!Disputed(sources)
                  && (|| (exists r :: r in sources && r.status != first.status)
                      || first.status == NoPathYear || first.status == HashError
                      || ((first.status == Match || first.status == YearMismatch) && !Plannable(first))))
  {
    assert (exists r :: r in sources && r.sourceYear != first.sourceYear) ==>
        exists r, q :: r in sources && q in sources && r.sourceYear != q.sourceYear;
  }

  /** What becomes of an accepted group, by its status and the basis of its date. */
  lemma AcceptedGroups(sources: set<AuditRow>, first: AuditRow, paths: int)
    requires first in sources && Verdict(sources, first, paths).Some?
    ensures
      var p, basis := Verdict(sources, first, paths).value, first.snapshot.basis;
      && p.sha == first.sha && p.snapshot == first.snapshot && p.paths == paths
      && p.sourceYear == (if Disputed(sources) then None else first.sourceYear)
      && (p.userConflict <==> !Disputed(sources) && first.status == YearMismatch && basis == Some("USER"))
      && (p.action, p.reason) ==
         if Disputed(sources) then (Exclude, OtherReason("AMBIGUOUS_SOURCE_YEAR"))
         else if first.status == NotInMemoryKeeper then (Exclude, OtherReason("NOT_IN_MEMORYKEEPER"))
         else if first.status == MissingEffectiveYear then (Exclude, OtherReason("MISSING_EFFECTIVE_YEAR"))
         else if basis == Some("EXIF") then
           if first.status == Match then (KeepExactExif, ExifSourceYearMatch) else (SetYearOnly, ExifYearConflict)
         else if basis == Some("IMPORTED") then (SetYearOnly, ImportedFallback)
         else if basis == Some("CREATED") then (SetYearOnly, CreatedFallback)
         else (KeepExactUser, UserExact)
  {
    assert (exists r :: r in sources && r.sourceYear != first.sourceYear) ==>
        exists r, q :: r in sources && q in sources && r.sourceYear != q.sourceYear;
  }

  function Group(rows: seq<AuditRow>, sha: Sha): seq<AuditRow> {
    if rows == [] then []
    else
      var g, last := Group(rows[..|rows| - 1], sha), rows[|rows| - 1];
      if last.sha == Some(sha) then g + [last] else g
  }

  function Unhashed(rows: seq<AuditRow>): seq<AuditRow> {
    if rows == [] then []
    else
      var u, last := Unhashed(rows[..|rows| - 1]), rows[|rows| - 1];
      if last.sha.None? then u + [last] else u
  }

  function Shas(rows: seq<AuditRow>): set<int> {
    set r | r in rows && r.sha.Some? :: r.sha.value
  }

  lemma {:induction false} GroupIsTheRest(rows: seq<AuditRow>, sha: Sha)
    ensures forall r :: r in Group(rows, sha) <==> r in rows && r.sha == Some(sha)
    ensures multiset(Group(rows, sha)) <= multiset(rows)
  {
    if rows != [] {
      GroupIsTheRest(rows[..|rows| - 1], sha);
      assert rows == rows[..|rows| - 1] + [rows[|rows| - 1]];
    }
  }

  function Members(g: seq<AuditRow>): set<AuditRow> {
    set r | r in g
  }

  function GroupVerdict(rows: seq<AuditRow>, sha: Sha): Option<PlanRow>
    requires sha in Shas(rows)
  {
    GroupIsTheRest(rows, sha);
    var g := Group(rows, sha);
    Verdict(Members(g), g[0], |g|)
  }

  // --------------------------------------------------------------- the plan

  predicate MayLackSha(s: AuditStatus) {
    s.NoPathYear? || s.HashError?
  }

  ghost predicate Accepted(rows: seq<AuditRow>) {
    && (forall r :: r in rows && r.sha.None? ==> MayLackSha(r.status))
    && (forall sha :: sha in Shas(rows) ==> GroupVerdict(rows, sha).Some?)
  }

  function Exclusion(r: AuditRow): PlanRow {
    Planned(r, Exclude, OtherReason(StatusText(r.status)), false, 1)
  }

  /** A row without a digest is excluded under its own status, with the year of its path. */
  lemma ExclusionNames(r: AuditRow)
    requires MayLackSha(r.status)
    ensures
      var p := Exclusion(r);
      && p.action == Exclude && p.sha == r.sha && p.sourceYear == r.sourceYear && p.snapshot == r.snapshot
      && p.paths == 1 && !p.userConflict
      && p.reason == OtherReason(if r.status == NoPathYear then "NO_PATH_YEAR" else "HASH_ERROR")
  {}

  function Excluded(u: seq<AuditRow>): seq<PlanRow> {
    seq(|u|, i requires 0 <= i < |u| => Exclusion(u[i]))
  }

  function Exclusions(rows: seq<AuditRow>): seq<PlanRow> {
    Excluded(Unhashed(rows))
  }

  ghost function HashedRows(rows: seq<AuditRow>): seq<PlanRow>
    requires Accepted(rows)
  {
    var shas := Ascending(Shas(rows));
    seq(|shas|, i requires 0 <= i < |shas| => assert shas[i] in shas; GroupVerdict(rows, shas[i]).value)
  }

  // ------------------------------------------------------------------- sort

  predicate TextLe(a: string, b: string) {
    a == "" || (b != "" && (a[0] < b[0] || (a[0] == b[0] && TextLe(a[1..], b[1..]))))
  }

  lemma {:induction false} TextLeTotal(a: string, b: string)
    ensures TextLe(a, b) || TextLe(b, a)
    ensures TextLe(a, b) && TextLe(b, a) ==> a == b
  {
    if a != "" && b != "" && a[0] == b[0] {
      TextLeTotal(a[1..], b[1..]);
      assert a == [a[0]] + a[1..] && b == [b[0]] + b[1..];
    }
  }

  lemma {:induction false} TextLeTransitive(a: string, b: string, c: string)
    requires TextLe(a, b) && TextLe(b, c)
    ensures TextLe(a, c)
  {
    if a != "" && a[0] == b[0] == c[0] {
      TextLeTransitive(a[1..], b[1..], c[1..]);
    }
  }

  /** Lexicographic: the texts agree up to some position, where the first one ends or has the smaller character. */
  lemma {:induction false} TextOrder(a: string, b: string)
    ensures TextLe(a, b) <==>
            exists n: nat :: n <= |a| && n <= |b| && a[..n] == b[..n]
                             && (n == |a| || (n < |b| && a[n] < b[n]))
  {
    forall n: nat | 0 < n <= |a| && n <= |b| && a[..n] == b[..n] ensures a[0] == b[0] {
      assert a[..n][0] == b[..n][0];
    }
    if a == "" {
      assert a[..0] == b[..0];
    } else if b != "" && a[0] == b[0] {
      TextOrder(a[1..], b[1..]);
      if TextLe(a, b) {
        var n: nat :| n <= |a[1..]| && n <= |b[1..]| && a[1..][..n] == b[1..][..n]
                      && (n == |a[1..]| || (n < |b[1..]| && a[1..][n] < b[1..][n]));
        assert a[..n + 1] == [a[0]] + a[1..][..n] && b[..n + 1] == [b[0]] + b[1..][..n];
      }
      forall n: nat | n <= |a| && n <= |b| && a[..n] == b[..n] && (n == |a| || (n < |b| && a[n] < b[n]))
        ensures TextLe(a, b)
      {
        assert n > 0;
        assert a[1..][..n - 1] == a[..n][1..] && b[1..][..n - 1] == b[..n][1..];
      }
    } else if b != "" {
      assert a[..0] == b[..0];
    }
  }

  function YearKey(p: PlanRow): int {
    p.sourceYear.GetOr(0)
  }

  /** `_plan_sort_key`: rows with a digest first, by digest, then by year and reason. */
  predicate KeyLe(a: PlanRow, b: PlanRow) {
    if a.sha.Some? != b.sha.Some? then a.sha.Some?
    else if a.sha != b.sha then a.sha.value < b.sha.value
    else if YearKey(a) != YearKey(b) then YearKey(a) < YearKey(b)
    else TextLe(ReasonText(a.reason), ReasonText(b.reason))
  }

  /** By digest with the rows without one last, then by year with an absent one as 0, then by reason. */
  lemma KeyOrder(a: PlanRow, b: PlanRow)
    ensures KeyLe(a, b) <==>
              || (a.sha.Some? && (b.sha.None? || a.sha.value < b.sha.value))
              || (a.sha == b.sha
                  && var year, other := a.sourceYear.GetOr(0), b.sourceYear.GetOr(0);
                     year < other || (year == other && TextLe(ReasonText(a.reason), ReasonText(b.reason))))
  {}

  lemma KeyLeIsAnOrder(a: PlanRow, b: PlanRow, c: PlanRow)
    ensures KeyLe(a, b) || KeyLe(b, a)
    ensures KeyLe(a, b) && KeyLe(b, c) ==> KeyLe(a, c)
  {
    TextLeTotal(ReasonText(a.reason), ReasonText(b.reason));
    if TextLe(ReasonText(a.reason), ReasonText(b.reason)) && TextLe(ReasonText(b.reason), ReasonText(c.reason)) {
      TextLeTransitive(ReasonText(a.reason), ReasonText(b.reason), ReasonText(c.reason));
    }
  }

  /** A stable sort: a row goes behind the rows that are not greater. */
  function Insert(sorted: seq<PlanRow>, p: PlanRow): seq<PlanRow> {
    if sorted == [] || KeyLe(sorted[|sorted| - 1], p) then sorted + [p]
    else Insert(sorted[..|sorted| - 1], p) + [sorted[|sorted| - 1]]
  }

  function Sorted(rows: seq<PlanRow>): seq<PlanRow> {
    if rows == [] then [] else Insert(Sorted(rows[..|rows| - 1]), rows[|rows| - 1])
  }

  ghost predicate Ordered(rows: seq<PlanRow>) {
    forall i, j :: 0 <= i < j < |rows| ==> KeyLe(rows[i], rows[j])
  }

  lemma {:induction false} InsertKeeps(sorted: seq<PlanRow>, p: PlanRow)
    requires Ordered(sorted)
    ensures Ordered(Insert(sorted, p)) && multiset(Insert(sorted, p)) == multiset(sorted) + multiset{p}
  {
    if sorted != [] && !KeyLe(sorted[|sorted| - 1], p) {
      var init, last := sorted[..|sorted| - 1], sorted[|sorted| - 1];
      assert sorted == init + [last];
      InsertKeeps(init, p);
      KeyLeIsAnOrder(p, last, last);
      forall q | q in Insert(init, p) ensures KeyLe(q, last) {
        assert q in multiset(init) + multiset{p};
      }
    } else if sorted != [] {
      var last := sorted[|sorted| - 1];
      forall i | 0 <= i < |sorted| ensures KeyLe(sorted[i], p) {
        KeyLeIsAnOrder(sorted[i], last, p);
      }
    }
  }

  lemma {:induction false} SortedIsAPermutation(rows: seq<PlanRow>)
    ensures Ordered(Sorted(rows)) && multiset(Sorted(rows)) == multiset(rows)
  {
    if rows != [] {
      var init, last := rows[..|rows| - 1], rows[|rows| - 1];
      assert rows == init + [last];
      SortedIsAPermutation(init);
      InsertKeeps(Sorted(init), last);
    }
  }

  /** Rows that all come after `front` are sorted behind it. */
  lemma {:induction false} InsertBehind(front: seq<PlanRow>, back: seq<PlanRow>, p: PlanRow)
    requires forall q :: q in front ==> KeyLe(q, p)
    ensures Insert(front + back, p) == front + Insert(back, p)
  {
    var all := front + back;
    if back == [] {
      assert all == front;
      assert front != [] ==> front[|front| - 1] in front;
    } else {
      assert all[|all| - 1] == back[|back| - 1];
      if !KeyLe(back[|back| - 1], p) {
        assert all[..|all| - 1] == front + back[..|back| - 1];
        InsertBehind(front, back[..|back| - 1], p);
      } else {
        assert all + [p] == front + (back + [p]);
      }
    }
  }

  lemma {:induction false} SortedBehind(front: seq<PlanRow>, back: seq<PlanRow>)
    requires Ordered(front) && forall q, p :: q in front && p in back ==> KeyLe(q, p)
    ensures Sorted(front + back) == front + Sorted(back)
  {
    if back == [] {
      assert front + back == front;
      SortedAlready(front);
      assert front + [] == front;
    } else {
      var all := front + back;
      assert all[..|all| - 1] == front + back[..|back| - 1];
      SortedBehind(front, back[..|back| - 1]);
      InsertBehind(front, Sorted(back[..|back| - 1]), back[|back| - 1]);
    }
  }

  lemma {:induction false} SortedAlready(rows: seq<PlanRow>)
    requires Ordered(rows)
    ensures Sorted(rows) == rows
  {
    if rows != [] {
      SortedAlready(rows[..|rows| - 1]);
      assert rows == rows[..|rows| - 1] + [rows[|rows| - 1]];
    }
  }

  // -------------------------------------------------------- the whole plan

  ghost function PlanRows(rows: seq<AuditRow>): seq<PlanRow>
    requires Accepted(rows)
  {
    Sorted(HashedRows(rows) + Exclusions(rows))
  }

  lemma VerdictNames(sources: set<AuditRow>, first: AuditRow, paths: int)
    requires first in sources && Verdict(sources, first, paths).Some?
    ensures Verdict(sources, first, paths).value.sha == first.sha && Verdict(sources, first, paths).value.paths == paths
  {}

  lemma HashedRow(rows: seq<AuditRow>, i: nat)
    requires Accepted(rows) && i < |Ascending(Shas(rows))|
    ensures HashedRows(rows)[i].sha == Some(Ascending(Shas(rows))[i])
    ensures HashedRows(rows)[i].paths == |Group(rows, Ascending(Shas(rows))[i])|
  {
    var sha := Ascending(Shas(rows))[i];
    assert sha in Ascending(Shas(rows));
    GroupIsTheRest(rows, sha);
    var g := Group(rows, sha);
    assert g[0] in g;
    VerdictNames(Members(g), g[0], |g|);
  }

  /** One row per digest, in the order of the digests, then the rows without one. */
  lemma PlanShape(rows: seq<AuditRow>)
    requires Accepted(rows)
    ensures PlanRows(rows) == HashedRows(rows) + Sorted(Exclusions(rows))
    ensures |PlanRows(rows)| == |Shas(rows)| + |Unhashed(rows)|
    ensures multiset(PlanRows(rows)) == multiset(HashedRows(rows)) + multiset(Exclusions(rows))
  {
    var hashed, rest := HashedRows(rows), Exclusions(rows);
    forall i, j | 0 <= i < j < |hashed| ensures KeyLe(hashed[i], hashed[j]) {
      HashedRow(rows, i);
      HashedRow(rows, j);
    }
    UnhashedLack(rows);
    forall q, p | q in hashed && p in rest ensures KeyLe(q, p) {
      var i :| 0 <= i < |hashed| && hashed[i] == q;
      HashedRow(rows, i);
      var j :| 0 <= j < |rest| && rest[j] == p;
      assert Unhashed(rows)[j] in Unhashed(rows);
    }
    SortedBehind(hashed, rest);
    SortedIsAPermutation(hashed + rest);
    SortedIsAPermutation(rest);
    assert |multiset(PlanRows(rows))| == |multiset(hashed + rest)|;
    AscendingSize(Shas(rows));
  }

  lemma {:induction false} UnhashedLack(rows: seq<AuditRow>)
    ensures forall r :: r in Unhashed(rows) <==> r in rows && r.sha.None?
  {
    if rows != [] {
      UnhashedLack(rows[..|rows| - 1]);
      assert rows == rows[..|rows| - 1] + [rows[|rows| - 1]];
    }
  }

  lemma {:induction false} AscendingSize(s: set<int>)
    ensures |Ascending(s)| == |s|
    decreases s
  {
    if s != {} {
      AscendingSize(s - {Least(s)});
    }
  }

  // ------------------------------------------------------------------ order

  lemma {:induction false} GroupCount(rows: seq<AuditRow>, sha: Sha, r: AuditRow)
    ensures multiset(Group(rows, sha))[r] == if r.sha == Some(sha) then multiset(rows)[r] else 0
    ensures multiset(Unhashed(rows))[r] == if r.sha.None? then multiset(rows)[r] else 0
  {
    if rows != [] {
      GroupCount(rows[..|rows| - 1], sha, r);
      assert rows == rows[..|rows| - 1] + [rows[|rows| - 1]];
    }
  }

  lemma GroupsAgree(a: seq<AuditRow>, b: seq<AuditRow>, sha: Sha)
    requires multiset(a) == multiset(b)
    ensures multiset(Group(a, sha)) == multiset(Group(b, sha)) && multiset(Unhashed(a)) == multiset(Unhashed(b))
    ensures |Group(a, sha)| == |Group(b, sha)| && |Unhashed(a)| == |Unhashed(b)|
    ensures Members(Group(a, sha)) == Members(Group(b, sha))
  {
    forall r
      ensures multiset(Group(a, sha))[r] == multiset(Group(b, sha))[r]
      ensures multiset(Unhashed(a))[r] == multiset(Unhashed(b))[r]
    {
      GroupCount(a, sha, r);
      GroupCount(b, sha, r);
    }
    assert multiset(Group(a, sha)) == multiset(Group(b, sha)) && multiset(Unhashed(a)) == multiset(Unhashed(b));
    assert |multiset(Group(a, sha))| == |multiset(Group(b, sha))|;
    assert |multiset(Unhashed(a))| == |multiset(Unhashed(b))|;
    forall r ensures r in Group(a, sha) <==> r in Group(b, sha) {
      assert r in Group(a, sha) <==> r in multiset(Group(a, sha));
      assert r in Group(b, sha) <==> r in multiset(Group(b, sha));
    }
  }

  lemma SameElements(a: seq<AuditRow>, b: seq<AuditRow>)
    requires multiset(a) == multiset(b)
    ensures forall r :: r in a <==> r in b
    ensures Shas(a) == Shas(b)
  {
    forall r ensures r in a <==> r in b {
      assert r in a <==> r in multiset(a);
      assert r in b <==> r in multiset(b);
    }
  }

  lemma VerdictsAgree(a: seq<AuditRow>, b: seq<AuditRow>, sha: Sha)
    requires multiset(a) == multiset(b) && sha in Shas(a) && sha in Shas(b)
    ensures GroupVerdict(a, sha) == GroupVerdict(b, sha)
  {
    GroupsAgree(a, b, sha);
    GroupIsTheRest(a, sha);
    GroupIsTheRest(b, sha);
    var first, other := Group(a, sha)[0], Group(b, sha)[0];
    assert other in Group(b, sha) && other in Members(Group(a, sha));
    assert first in Group(a, sha);
    AnyRowComesFirst(Members(Group(a, sha)), first, other, |Group(a, sha)|);
  }

  lemma TakeOut<T>(s: seq<T>, k: nat)
    requires k < |s|
    ensures multiset(s) == multiset(s[..k] + s[k + 1..]) + multiset{s[k]}
  {
    assert s == s[..k] + [s[k]] + s[k + 1..];
  }

  /** Equal multisets stay equal under the same mapping of their elements. */
  lemma {:induction false} ExclusionsAgree(u: seq<AuditRow>, v: seq<AuditRow>)
    requires multiset(u) == multiset(v)
    ensures multiset(Excluded(u)) == multiset(Excluded(v))
    decreases |u|
  {
    assert |multiset(u)| == |multiset(v)|;
    if u != [] {
      var n := |u| - 1;
      assert u == u[..n] + [u[n]];
      assert u[n] in multiset(v);
      var k :| 0 <= k < |v| && v[k] == u[n];
      var w := v[..k] + v[k + 1..];
      TakeOut(v, k);
      assert multiset(u[..n]) == multiset(u) - multiset{u[n]};
      assert multiset(w) == multiset(v) - multiset{u[n]};
      ExclusionsAgree(u[..n], w);
      assert Excluded(u) == Excluded(u[..n]) + [Exclusion(u[n])];
      TakeOut(Excluded(v), k);
      assert Excluded(w) == Excluded(v)[..k] + Excluded(v)[k + 1..];
    }
  }

  /**
   * Any permutation of the audit rows is accepted or rejected alike, gives the same rows with a
   * digest in the same order, and the same rows over all.
   */
  lemma OrderDoesNotMatter(a: seq<AuditRow>, b: seq<AuditRow>)
    requires multiset(a) == multiset(b)
    ensures Accepted(a) <==> Accepted(b)
    ensures Accepted(a) ==> HashedRows(a) == HashedRows(b) && multiset(PlanRows(a)) == multiset(PlanRows(b))
  {
    SameElements(a, b);
    forall sha | sha in Shas(a) ensures GroupVerdict(a, sha) == GroupVerdict(b, sha) {
      VerdictsAgree(a, b, sha);
    }
    if Accepted(a) {
      forall i | 0 <= i < |Ascending(Shas(a))| ensures HashedRows(a)[i] == HashedRows(b)[i] {
        assert Ascending(Shas(a))[i] in Ascending(Shas(a));
      }
      GroupsAgree(a, b, 0);
      ExclusionsAgree(Unhashed(a), Unhashed(b));
      PlanShape(a);
      PlanShape(b);
    }
  }

  // ----------------------------------------------------------- conservation

  function SumPaths(rows: seq<PlanRow>): int {
    if rows == [] then 0 else SumPaths(rows[..|rows| - 1]) + rows[|rows| - 1].paths
  }

  lemma {:induction false} SumOfInsert(sorted: seq<PlanRow>, p: PlanRow)
    ensures SumPaths(Insert(sorted, p)) == SumPaths(sorted) + p.paths
  {
    if sorted != [] && !KeyLe(sorted[|sorted| - 1], p) {
      SumOfInsert(sorted[..|sorted| - 1], p);
    }
  }

  lemma {:induction false} SumOfSorted(rows: seq<PlanRow>)
    ensures SumPaths(Sorted(rows)) == SumPaths(rows)
  {
    if rows != [] {
      SumOfSorted(rows[..|rows| - 1]);
      SumOfInsert(Sorted(rows[..|rows| - 1]), rows[|rows| - 1]);
    }
  }

  lemma {:induction false} SumConcat(a: seq<PlanRow>, b: seq<PlanRow>)
    ensures SumPaths(a + b) == SumPaths(a) + SumPaths(b)
  {
    if b == [] {
      assert a + b == a;
    } else {
      assert (a + b)[..|a + b| - 1] == a + b[..|b| - 1];
      SumConcat(a, b[..|b| - 1]);
    }
  }

  lemma {:induction false} SumOfOnes(rows: seq<PlanRow>)
    requires forall i :: 0 <= i < |rows| ==> rows[i].paths == 1
    ensures SumPaths(rows) == |rows|
  {
    if rows != [] {
      SumOfOnes(rows[..|rows| - 1]);
    }
  }

  /** How many rows carry a digest of the list. */
  function Carrying(rows: seq<AuditRow>, shas: seq<int>): nat {
    if rows == [] then 0
    else
      var last := rows[|rows| - 1];
      Carrying(rows[..|rows| - 1], shas) + if last.sha.Some? && last.sha.value in shas then 1 else 0
  }

  lemma {:induction false} CarryingOneMore(rows: seq<AuditRow>, shas: seq<int>, sha: Sha)
    requires sha !in shas
    ensures Carrying(rows, shas + [sha]) == Carrying(rows, shas) + |Group(rows, sha)|
  {
    if rows != [] {
      CarryingOneMore(rows[..|rows| - 1], shas, sha);
    }
  }

  lemma {:induction false} CarryingNone(rows: seq<AuditRow>)
    ensures Carrying(rows, []) == 0
  {
    if rows != [] {
      CarryingNone(rows[..|rows| - 1]);
    }
  }

  lemma {:induction false} CarryingAll(rows: seq<AuditRow>, shas: seq<int>)
    requires forall r :: r in rows && r.sha.Some? ==> r.sha.value in shas
    ensures Carrying(rows, shas) + |Unhashed(rows)| == |rows|
  {
    if rows != [] {
      assert rows[|rows| - 1] in rows;
      CarryingAll(rows[..|rows| - 1], shas);
    }
  }

  lemma {:induction false} SumOfGroups(rows: seq<AuditRow>, hashed: seq<PlanRow>, shas: seq<int>)
    requires |hashed| == |shas| && StrictlyAscending(shas) && (forall i :: 0 <= i < |shas| ==> shas[i] >= 0)
    requires forall i :: 0 <= i < |shas| ==> hashed[i].paths == |Group(rows, shas[i])|
    ensures SumPaths(hashed) == Carrying(rows, shas)
  {
    if shas == [] {
      CarryingNone(rows);
    } else {
      var n := |shas| - 1;
      SumOfGroups(rows, hashed[..n], shas[..n]);
      CarryingOneMore(rows, shas[..n], shas[n]);
      assert shas == shas[..n] + [shas[n]];
    }
  }

  /** Every audit row is counted in exactly one plan row. */
  lemma PathsAreConserved(rows: seq<AuditRow>)
    requires Accepted(rows)
    ensures SumPaths(PlanRows(rows)) == |rows|
  {
    var shas := Ascending(Shas(rows));
    forall i | 0 <= i < |shas| ensures shas[i] >= 0 && HashedRows(rows)[i].paths == |Group(rows, shas[i])| {
      assert shas[i] in shas;
      HashedRow(rows, i);
    }
    SumOfGroups(rows, HashedRows(rows), shas);
    CarryingAll(rows, shas);
    SumOfOnes(Exclusions(rows));
    SumConcat(HashedRows(rows), Exclusions(rows));
    SumOfSorted(HashedRows(rows) + Exclusions(rows));
  }
}
