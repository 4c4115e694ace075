/**
 * The plan file: what the planner prints for a row, the reconciler's loader reads back as the same
 * row, exactly when the loader accepts the row and no year in it is 0, which prints as blank.
 */
module PlanCsv {
  import opened Options
  import opened Ordering
  import opened CaptureDates
  import opened SourceYearPlan
  import opened SourceYearAudit
  import opened TextForms

  datatype Cells = Cells(
    sha: string, sourceYear: string, action: string, reason: string, reviewReason: string, basis: string, year: string,
    day: string, when: string, user: string, userPrecision: string, revision: string, paths: string)

  const USER_SOURCE_YEAR_CONFLICT := "USER_SOURCE_YEAR_CONFLICT"

  function ActionText(a: Action): string {
    match a
    case KeepExactExif => "KEEP_EXACT_EXIF"
    case KeepExactUser => "KEEP_EXACT_USER"
    case SetYearOnly => "SET_YEAR_ONLY"
    case Exclude => "EXCLUDE"
  }

  // ------------------------------------------------------------------ print

  /** Upper-case text without blanks around it, as the audit loader leaves it. */
  predicate Normal(s: string) {
    Clean(s) && NoLower(s)
  }

  predicate NormalText(s: Option<string>) {
    s.Some? ==> Normal(s.value)
  }

  /** Digests have 64 digits, dates exist in the calendar, texts are normalised. */
  predicate Printable(p: PlanRow) {
    && (p.sha.Some? ==> p.sha.value < Pow(16, 64))
    && NormalText(p.snapshot.basis) && NormalText(p.snapshot.userPrecision)
    && (p.snapshot.day.Some? ==> ValidDate(p.snapshot.day.value))
    && (p.snapshot.when.Some? ==> ValidDateTime(p.snapshot.when.value))
    && (p.snapshot.user.Some? ==> ValidDateTime(p.snapshot.user.value))
    && Normal(ReasonText(p.reason)) && ParseReason(ReasonText(p.reason)) == p.reason
  }

  /** Python's `year or ""` */
  function YearCell(year: Option<int>): string {
    if year.Some? && year.value != 0 then IntText(year.value) else ""
  }

  function IntCell(n: Option<int>): string {
    if n.Some? then IntText(n.value) else ""
  }

  function TimeCell(t: Option<DateTime>): string
    requires t.Some? ==> ValidDateTime(t.value)
  {
    if t.Some? then DateTimeText(t.value) else ""
  }

  /** `csv_dict` */
  function Print(p: PlanRow): Cells
    requires Printable(p)
  {
    Cells(
      if p.sha.Some? then Fixed(p.sha.value, 16, 64) else "",
      YearCell(p.sourceYear), ActionText(p.action), ReasonText(p.reason),
      if p.userConflict then USER_SOURCE_YEAR_CONFLICT else "",
      p.snapshot.basis.GetOr(""), YearCell(p.snapshot.year),
      if p.snapshot.day.Some? then DateText(p.snapshot.day.value) else "",
      TimeCell(p.snapshot.when), TimeCell(p.snapshot.user), p.snapshot.userPrecision.GetOr(""),
      IntCell(p.snapshot.revision), IntText(p.paths))
  }

  // ------------------------------------------------------------------ parse

  /** A cell: blank, a value, or a text the loader refuses. */
  datatype Cell<+T> = Blank | Value(value: T) | Malformed

  function ToOption<T>(c: Cell<T>): Option<T> {
    if c.Value? then Some(c.value) else None
  }

  function TextCell(s: string): Cell<string> {
    var t := Strip(s);
    if t == "" then Blank else Value(Upper(t))
  }

  function ReadInt(s: string): Cell<int> {
    var t := Strip(s);
    if t == "" then Blank else if ParseInt(t).Some? then Value(ParseInt(t).value) else Malformed
  }

  function ReadDate(s: string): Cell<Date> {
    var t := Strip(s);
    if t == "" then Blank else if ParseDate(t).Some? then Value(ParseDate(t).value) else Malformed
  }

  function ReadTime(s: string): Cell<DateTime> {
    var t := Strip(s);
    if t == "" then Blank else if ParseDateTime(t).Some? then Value(ParseDateTime(t).value) else Malformed
  }

  function ReadSha(s: string): Cell<Sha> {
    var t := Strip(s);
    if t == "" then Blank else if |t| == 64 && AllDigits(Lower(t), 16) then Value(ValueOf(Lower(t), 16)) else Malformed
  }

  function ParseAction(s: string): Option<Action> {
    if s == "KEEP_EXACT_EXIF" then Some(KeepExactExif)
    else if s == "KEEP_EXACT_USER" then Some(KeepExactUser)
    else if s == "SET_YEAR_ONLY" then Some(SetYearOnly)
    else if s == "EXCLUDE" then Some(Exclude)
    else None
  }

  function ParseReason(s: string): Reason {
    if s == "EXIF_SOURCE_YEAR_MATCH" then ExifSourceYearMatch
    else if s == "USER_EXACT" then UserExact
    else if s == "EXIF_YEAR_CONFLICT" then ExifYearConflict
    else if s == "IMPORTED_FALLBACK" then ImportedFallback
    else if s == "CREATED_FALLBACK" then CreatedFallback
    else OtherReason(s)
  }

  predicate Readable(c: Cells) {
    && TextCell(c.action).Value? && ParseAction(TextCell(c.action).value).Some? && TextCell(c.reason).Value?
    && (TextCell(c.reviewReason).Blank? || TextCell(c.reviewReason) == Value(USER_SOURCE_YEAR_CONFLICT))
    && !ReadSha(c.sha).Malformed? && !ReadInt(c.sourceYear).Malformed? && !ReadInt(c.year).Malformed?
    && !ReadDate(c.day).Malformed? && !ReadTime(c.when).Malformed? && !ReadTime(c.user).Malformed?
    && !ReadInt(c.revision).Malformed? && !ReadInt(c.paths).Malformed?
  }

  /** The values of readable cells, before the loader's checks of the row. */
  function Values(c: Cells): PlanRow
    requires Readable(c)
  {
    PlanRow(
      ToOption(ReadSha(c.sha)), ToOption(ReadInt(c.sourceYear)), ParseAction(TextCell(c.action).value).value,
      ParseReason(TextCell(c.reason).value), TextCell(c.reviewReason).Value?,
      Snapshot(ToOption(TextCell(c.basis)), ToOption(ReadInt(c.year)), ToOption(ReadDate(c.day)),
               ToOption(ReadTime(c.when)),
               ToOption(ReadTime(c.user)), ToOption(TextCell(c.userPrecision)), ToOption(ReadInt(c.revision))),
      ToOption(ReadInt(c.paths)).GetOr(0))
  }

  /** `_parse_plan_row` */
  function Parse(c: Cells): Option<PlanRow> {
    if Readable(c) && LoaderAccepts(Values(c)) then Some(Values(c)) else None
  }

  // ------------------------------------------------------------- round trip

  lemma CleanStays(s: string)
    requires Clean(s)
    ensures Strip(s) == s
  {}

  lemma NormalRoundTrip(s: string)
    requires Normal(s)
    ensures TextCell(s) == Value(s)
  {
    CleanStays(s);
    UpperIsUpper(s);
  }

  lemma YearRoundTrip(year: Option<int>)
    ensures !ReadInt(YearCell(year)).Malformed?
    ensures ToOption(ReadInt(YearCell(year))) == if year == Some(0) then None else year
  {
    if year.Some? && year.value != 0 {
      IntRoundTrip(year.value);
      CleanStays(IntText(year.value));
    }
  }

  lemma IntCellRoundTrip(n: Option<int>)
    ensures !ReadInt(IntCell(n)).Malformed? && ToOption(ReadInt(IntCell(n))) == n
  {
    if n.Some? {
      IntRoundTrip(n.value);
      CleanStays(IntText(n.value));
    }
  }

  lemma TimeRoundTrip(t: Option<DateTime>)
    requires t.Some? ==> ValidDateTime(t.value)
    ensures !ReadTime(TimeCell(t)).Malformed? && ToOption(ReadTime(TimeCell(t))) == t
  {
    if t.Some? {
      DateTimeRoundTrip(t.value);
      CleanStays(DateTimeText(t.value));
    }
  }

  lemma ShaRoundTrip(sha: Sha)
    requires sha < Pow(16, 64)
    ensures ReadSha(Fixed(sha, 16, 64)) == Value(sha)
  {
    var s := Fixed(sha, 16, 64);
    HexRoundTrip(sha, 64);
    DigitsAreClean(s);
    CleanStays(s);
    DigitsAreLower(s);
  }

  lemma ActionRoundTrip(a: Action)
    ensures TextCell(ActionText(a)) == Value(ActionText(a)) && ParseAction(ActionText(a)) == Some(a)
  {
    NormalRoundTrip(ActionText(a));
  }

  lemma OptionalTextRoundTrip(s: Option<string>)
    requires NormalText(s)
    ensures ToOption(TextCell(s.GetOr(""))) == s
  {
    if s.Some? { NormalRoundTrip(s.value); }
  }

  lemma ReviewRoundTrip(conflict: bool)
    ensures TextCell(if conflict then USER_SOURCE_YEAR_CONFLICT else "") ==
              if conflict then Value(USER_SOURCE_YEAR_CONFLICT) else Blank
  {
    NormalRoundTrip(USER_SOURCE_YEAR_CONFLICT);
  }

  /** A printed row is readable, and its values are the row's, but for a year 0. */
  lemma PrintedValues(p: PlanRow)
    requires Printable(p)
    ensures Readable(Print(p))
    ensures Values(Print(p)) == p.(
              sourceYear := if p.sourceYear == Some(0) then None else p.sourceYear,
              snapshot := p.snapshot.(year := if p.snapshot.year == Some(0) then None else p.snapshot.year))
  {
    if p.sha.Some? { ShaRoundTrip(p.sha.value); }
    YearRoundTrip(p.sourceYear);
    ActionRoundTrip(p.action);
    NormalRoundTrip(ReasonText(p.reason));
    ReviewRoundTrip(p.userConflict);
    OptionalTextRoundTrip(p.snapshot.basis);
    YearRoundTrip(p.snapshot.year);
    if p.snapshot.day.Some? {
      DateRoundTrip(p.snapshot.day.value);
      CleanStays(DateText(p.snapshot.day.value));
    }
    TimeRoundTrip(p.snapshot.when);
    TimeRoundTrip(p.snapshot.user);
    OptionalTextRoundTrip(p.snapshot.userPrecision);
    IntCellRoundTrip(p.snapshot.revision);
    IntCellRoundTrip(Some(p.paths));
  }

  /** The texts of the action and reason columns, and of the review column of a user's other year. */
  lemma ColumnTexts(p: PlanRow)
    requires Printable(p)
    ensures
      var c := Print(p);
      && c.action == (match p.action
                      case KeepExactExif => "KEEP_EXACT_EXIF"
                      case KeepExactUser => "KEEP_EXACT_USER"
                      case SetYearOnly => "SET_YEAR_ONLY"
                      case Exclude => "EXCLUDE")
      && c.reason == (match p.reason
                      case ExifSourceYearMatch => "EXIF_SOURCE_YEAR_MATCH"
                      case UserExact => "USER_EXACT"
                      case ExifYearConflict => "EXIF_YEAR_CONFLICT"
                      case ImportedFallback => "IMPORTED_FALLBACK"
                      case CreatedFallback => "CREATED_FALLBACK"
                      case OtherReason(text) => text)
      && c.reviewReason == if p.userConflict then "USER_SOURCE_YEAR_CONFLICT" else ""
  {}

  /** Each value stands in the column of its name. */
  lemma ColumnValues(p: PlanRow)
    requires Printable(p)
    ensures
      var c, s := Print(p), p.snapshot;
      && (p.sha.Some? ==> |c.sha| == 64 && ValueOf(c.sha, 16) == p.sha.value) && (p.sha.None? ==> c.sha == "")
      && c.basis == s.basis.GetOr("") && c.userPrecision == s.userPrecision.GetOr("")
      && ToOption(ReadInt(c.sourceYear)) == (if p.sourceYear == Some(0) then None else p.sourceYear)
      && ToOption(ReadInt(c.year)) == (if s.year == Some(0) then None else s.year)
      && c.day == (if s.day.Some? then DateText(s.day.value) else "")
      && c.when == (if s.when.Some? then DateTimeText(s.when.value) else "")
      && c.user == (if s.user.Some? then DateTimeText(s.user.value) else "")
      && ToOption(ReadInt(c.revision)) == s.revision && ToOption(ReadInt(c.paths)) == Some(p.paths)
  {
    if p.sha.Some? { HexRoundTrip(p.sha.value, 64); }
    YearRoundTrip(p.sourceYear);
    YearRoundTrip(p.snapshot.year);
    IntCellRoundTrip(p.snapshot.revision);
    IntCellRoundTrip(Some(p.paths));
  }

  /** Printing and loading returns the row exactly when the loader accepts it and no year is 0. */
  lemma RoundTrip(p: PlanRow)
    requires Printable(p)
    ensures Parse(Print(p)) == Some(p) <==> LoaderAccepts(p) && p.sourceYear != Some(0) && p.snapshot.year != Some(0)
  {
    PrintedValues(p);
  }

  // -------------------------------------------------- from the audit to the loader

  /** What the audit loader makes of a text cell is normal. */
  lemma {:induction false} StripIsClean(s: string)
    ensures Strip(s) == "" || Clean(Strip(s))
  {
    if s != "" {
      if IsSpace(s[0]) {
        StripIsClean(s[1..]);
      } else if IsSpace(s[|s| - 1]) {
        StripIsClean(s[..|s| - 1]);
      }
    }
  }

  lemma LoadedTextsAreNormal(s: string)
    ensures NormalText(ToOption(TextCell(s)))
  {
    StripIsClean(s);
  }

  lemma StatusesAreClean(s: AuditStatus)
    ensures Normal(StatusText(s))
  {}

  lemma StatusesAreNoReasons(s: AuditStatus)
    ensures ParseReason(StatusText(s)) == OtherReason(StatusText(s))
  {
    match s
    case Match => assert |StatusText(s)| == 5;
    case YearMismatch => assert |StatusText(s)| == 13;
    case MissingEffectiveYear => assert StatusText(s)[0] == 'M';
    case NotInMemoryKeeper => assert StatusText(s)[0] == 'N';
    case NoPathYear => assert |StatusText(s)| == 12;
    case AmbiguousSourceYear => assert StatusText(s)[0] == 'A';
    case HashError => assert StatusText(s)[0] == 'H';
  }

  lemma StatusesAreNormal(s: AuditStatus)
    ensures Normal(StatusText(s)) && ParseReason(StatusText(s)) == OtherReason(StatusText(s))
  {
    StatusesAreClean(s);
    StatusesAreNoReasons(s);
  }

  /** The records of an audit, as loaded from its file. */
  predicate PrintableSnapshot(s: Snapshot) {
    && NormalText(s.basis) && NormalText(s.userPrecision)
    && (s.day.Some? ==> ValidDate(s.day.value)) && (s.when.Some? ==> ValidDateTime(s.when.value))
    && (s.user.Some? ==> ValidDateTime(s.user.value)) && s.year != Some(0)
  }

  /** A verdict copies the first row of its group; its reason is one of the fixed texts. */
  lemma VerdictCopies(sources: set<AuditRow>, first: AuditRow, paths: int)
    requires first in sources && Verdict(sources, first, paths).Some?
    ensures
      var p := Verdict(sources, first, paths).value;
      && p.snapshot == first.snapshot && p.sha == first.sha
        && (p.sourceYear == None || p.sourceYear == first.sourceYear)
      && (!p.reason.OtherReason? || p.reason == OtherReason(StatusText(first.status))
          || p.reason == OtherReason(StatusText(AmbiguousSourceYear)))
  {}

  lemma ReasonsAreNormal(r: Reason)
    requires r.OtherReason? ==> exists s: AuditStatus :: r.text == StatusText(s)
    ensures Normal(ReasonText(r)) && ParseReason(ReasonText(r)) == r
  {
    if r.OtherReason? {
      var s: AuditStatus :| r.text == StatusText(s);
      StatusesAreNormal(s);
    } else {
      FixedReasonsAreNormal(r);
    }
  }

  lemma FixedReasonsAreNormal(r: Reason)
    requires !r.OtherReason?
    ensures Normal(ReasonText(r)) && ParseReason(ReasonText(r)) == r
  {}

  lemma HashedRowsSurvive(rows: seq<AuditRow>, i: nat)
    requires PlannerSucceeds(rows) && i < |HashedRows(rows)|
    requires forall r :: r in rows ==> PrintableSnapshot(r.snapshot) && (r.sha.Some? ==> r.sha.value < Pow(16, 64))
    ensures
      var p := HashedRows(rows)[i];
      && Printable(p) && p.sourceYear != Some(0) && p.snapshot.year != Some(0)
      && (LoaderAccepts(p) <==> p.action.Exclude? || Exact(p.snapshot))
  {
    var sha := Ascending(Shas(rows))[i];
    assert sha in Ascending(Shas(rows));
    VerdictLoads(rows, sha);
    GroupIsTheRest(rows, sha);
    var g := Group(rows, sha);
    assert g[0] in g && g[0] in rows;
    VerdictCopies(Members(g), g[0], |g|);
    ReasonsAreNormal(HashedRows(rows)[i].reason);
  }

  /** Every row of a plan built from such an audit survives the trip through the plan file. */
  lemma PlanRowsSurvive(rows: seq<AuditRow>, p: PlanRow)
    requires PlannerSucceeds(rows) && p in PlanRows(rows)
    requires forall r :: r in rows ==> PrintableSnapshot(r.snapshot) && (r.sha.Some? ==> r.sha.value < Pow(16, 64))
    ensures Printable(p)
    ensures Parse(Print(p)) == Some(p) <==> p.action.Exclude? || Exact(p.snapshot)
  {
    WhereRowsComeFrom(rows, p);
    if p in HashedRows(rows) {
      var i :| 0 <= i < |HashedRows(rows)| && HashedRows(rows)[i] == p;
      HashedRowsSurvive(rows, i);
    } else {
      var r :| r in rows && r.sha.None? && p == Exclusion(r);
      UnhashedRowSurvives(r);
    }
    RoundTrip(p);
  }

  lemma WhereRowsComeFrom(rows: seq<AuditRow>, p: PlanRow)
    requires Accepted(rows) && p in PlanRows(rows)
    ensures p in HashedRows(rows) || exists r :: r in rows && r.sha.None? && p == Exclusion(r)
  {
    PlanShape(rows);
    OneOfBoth(PlanRows(rows), HashedRows(rows), Exclusions(rows), p);
    if p in Exclusions(rows) {
      UnhashedLack(rows);
      var r := ExcludedFrom(Unhashed(rows), p);
    }
  }

  lemma OneOfBoth<T>(all: seq<T>, a: seq<T>, b: seq<T>, x: T)
    requires multiset(all) == multiset(a) + multiset(b) && x in all
    ensures x in a || x in b
  {
    assert x in multiset(all);
  }

  lemma ExcludedFrom(u: seq<AuditRow>, p: PlanRow) returns (r: AuditRow)
    requires p in Excluded(u)
    ensures r in u && p == Exclusion(r)
  {
    var j :| 0 <= j < |u| && Excluded(u)[j] == p;
    r := u[j];
  }

  lemma UnhashedRowSurvives(r: AuditRow)
    requires r.sha.None? && ValidSourceYear(r.sourceYear) && PrintableSnapshot(r.snapshot)
    ensures
      var p := Exclusion(r);
      Printable(p) && p.sourceYear != Some(0) && p.snapshot.year != Some(0) && LoaderAccepts(p) && p.action.Exclude?
  {
    StatusesAreNormal(r.status);
  }
}
