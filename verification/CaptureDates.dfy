/** MemoryKeeper capture dates: the projection of a file's effective date from its sources. */
module CaptureDates {
  import opened Options

  /** A SHA-256 digest as a number; numbers are ordered like the 64-digit lower-case texts. */
  type Sha = nat

  datatype Date = Date(year: int, month: int, day: int)

  /** A naive wall-clock time; `micros` counts from midnight. */
  datatype DateTime = DateTime(date: Date, micros: nat)

  const USER := "USER"
  const EXIF := "EXIF"
  const SOURCE_YEAR := "SOURCE_YEAR"
  const IMPORTED := "IMPORTED"
  const CREATED := "CREATED"

  const YEAR_PRECISION := "YEAR"
  const DATE_PRECISION := "DATE"
  const DATETIME_PRECISION := "DATETIME"

  datatype Projection = Projection(
    when: Option<DateTime>, year: Option<int>, precision: Option<string>, basis: Option<string>)

  function DayOf(when: Option<DateTime>): Option<Date> {
    if when.Some? then Some(when.value.date) else None
  }

  function YearOf(when: Option<DateTime>): Option<int> {
    if when.Some? then Some(when.value.date.year) else None
  }

  /** Python's `precision or DATE`: an empty text is false as well. */
  function PrecisionOr(precision: Option<string>, default: string): string {
    if precision.Some? && precision.value != "" then precision.value else default
  }

  predicate ValidSourceYear(year: Option<int>) {
    year.Some? ==> 1 <= year.value <= 9999
  }

  /** A user's date first, then the source year (exact where EXIF agrees), EXIF, import, creation. */
  function Calculate(
    user: Option<DateTime>, userPrecision: Option<string>, original: Option<DateTime>,
    imported: Option<DateTime>, created: Option<DateTime>, sourceYear: Option<int>): (p: Projection)
    requires ValidSourceYear(sourceYear)
    ensures p.when.Some? ==> p.year == YearOf(p.when)
    ensures p.when.None? && p.year.Some? <==> p.basis == Some(SOURCE_YEAR)
    ensures p.basis == Some(USER) <==> user.Some?
    ensures sourceYear.Some? && user.None? ==> p.year == sourceYear
  {
    if user.Some? then
      Projection(user, YearOf(user), Some(PrecisionOr(userPrecision, DATE_PRECISION)), Some(USER))
    else if sourceYear.Some? then
      if original.Some? && YearOf(original) == sourceYear
      then Projection(original, sourceYear, Some(DATETIME_PRECISION), Some(EXIF))
      else Projection(None, sourceYear, Some(YEAR_PRECISION), Some(SOURCE_YEAR))
    else if original.Some? then Projection(original, YearOf(original), Some(DATETIME_PRECISION), Some(EXIF))
    else if imported.Some? then Projection(imported, YearOf(imported), Some(DATETIME_PRECISION), Some(IMPORTED))
    else if created.Some? then Projection(created, YearOf(created), Some(DATETIME_PRECISION), Some(CREATED))
    else Projection(None, None, None, None)
  }

  /** Which of a file's dates is the effective one, and how exactly it is known. */
  ghost predicate DatedBy(
    p: Projection, user: Option<DateTime>, userPrecision: Option<string>, original: Option<DateTime>,
    imported: Option<DateTime>, created: Option<DateTime>, sourceYear: Option<int>)
  {
    if user.Some? then
      && p.when == user && p.year == Some(user.value.date.year) && p.basis == Some("USER")
      && p.precision == Some(if userPrecision.Some? && userPrecision.value != "" then userPrecision.value else "DATE")
    else if sourceYear.Some? then
      var exact := original.Some? && original.value.date.year == sourceYear.value;
      && p.when == (if exact then original else None) && p.year == sourceYear
      && p.precision == Some(if exact then "DATETIME" else "YEAR")
      && p.basis == Some(if exact then "EXIF" else "SOURCE_YEAR")
    else
      && (original.Some? ==> p.when == original && p.basis == Some("EXIF"))
      && (original.None? && imported.Some? ==> p.when == imported && p.basis == Some("IMPORTED"))
      && (original.None? && imported.None? && created.Some? ==> p.when == created && p.basis == Some("CREATED"))
      && (original.None? && imported.None? && created.None? ==> p == Projection(None, None, None, None))
      && (p.when.Some? ==> p.year == Some(p.when.value.date.year) && p.precision == Some("DATETIME"))
  }

  /** The user's date precedes the source year, EXIF precedes the import and the import the creation. */
  lemma SourcesInOrder(
    user: Option<DateTime>, userPrecision: Option<string>, original: Option<DateTime>,
    imported: Option<DateTime>, created: Option<DateTime>, sourceYear: Option<int>)
    requires ValidSourceYear(sourceYear)
    ensures DatedBy(Calculate(user, userPrecision, original, imported, created, sourceYear),
                    user, userPrecision, original, imported, created, sourceYear)
  {}

  /** The MemoryKeeper state row of a file. */
  datatype FileState = FileState(
    user: Option<DateTime>, userPrecision: Option<string>,
    when: Option<DateTime>, day: Option<Date>, year: Option<int>, precision: Option<string>, basis: Option<string>,
    sourceYear: Option<int>, sourceBasis: Option<string>,
    revision: Option<nat>)

  /** What `synchronize` writes; the day is a column generated from the date and time. */
  function Synchronized(s: FileState, p: Projection): (after: FileState)
    ensures after.user == s.user && after.userPrecision == s.userPrecision
    ensures after.sourceYear == s.sourceYear && after.sourceBasis == s.sourceBasis && after.revision == s.revision
    ensures Projection(after.when, after.year, after.precision, after.basis) == p
    ensures if p.when.Some? then after.day == Some(p.when.value.date) else after.day == None
  {
    s.(when := p.when, day := DayOf(p.when), year := p.year, precision := p.precision, basis := p.basis)
  }

  /** `int(revision or 0)` */
  function RevisionOf(s: FileState): nat {
    s.revision.GetOr(0)
  }
}
