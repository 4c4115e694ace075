/** Numbers, dates and times as texts, and reading them back. */
module TextForms {
  import opened Options
  import opened CaptureDates

  function Pow(b: nat, e: nat): (p: nat)
    requires b > 0
    ensures p > 0
  {
    if e == 0 then 1 else b * Pow(b, e - 1)
  }

  const DIGITS := "0123456789abcdef"

  function DigitOf(d: nat): char
    requires d < 16
  {
    DIGITS[d]
  }

  function DigitValue(c: char): nat {
    if '0' <= c <= '9' then (c - '0') as int
    else if 'a' <= c <= 'f' then (c - 'a') as int + 10
    else 16
  }

  lemma DigitRoundTrip(d: nat)
    requires d < 16
    ensures DigitValue(DigitOf(d)) == d
    ensures DigitOf(d) == if d < 10 then '0' + d as char else 'a' + (d - 10) as char
    ensures !IsSpace(DigitOf(d)) && !IsUpper(DigitOf(d)) && DigitOf(d) != '-'
  {
    assert DIGITS[0] == '0' && DIGITS[1] == '1' && DIGITS[2] == '2' && DIGITS[3] == '3' && DIGITS[4] == '4'
      && DIGITS[5] == '5';
    assert DIGITS[6] == '6' && DIGITS[7] == '7' && DIGITS[8] == '8' && DIGITS[9] == '9' && DIGITS[10] == 'a'
      && DIGITS[11] == 'b';
    assert DIGITS[12] == 'c' && DIGITS[13] == 'd' && DIGITS[14] == 'e' && DIGITS[15] == 'f';
  }

  predicate AllDigits(s: string, b: nat) {
    forall i :: 0 <= i < |s| ==> DigitValue(s[i]) < b
  }

  function ValueOf(s: string, b: nat): nat {
    if s == "" then 0 else ValueOf(s[..|s| - 1], b) * b + DigitValue(s[|s| - 1])
  }

  /** `width` digits in base `b`. */
  function Fixed(n: nat, b: nat, width: nat): (s: string)
    requires 2 <= b <= 16
    ensures |s| == width
  {
    if width == 0 then "" else Fixed(n / b, b, width - 1) + [DigitOf(n % b)]
  }

  lemma LastDigit(s: string, c: char, b: nat)
    requires AllDigits(s, b) && DigitValue(c) < b
    ensures AllDigits(s + [c], b) && ValueOf(s + [c], b) == ValueOf(s, b) * b + DigitValue(c)
  {
    assert (s + [c])[..|s|] == s;
  }

  lemma {:induction false} DecimalRoundTrip(n: nat, width: nat)
    requires n < Pow(10, width)
    ensures AllDigits(Fixed(n, 10, width), 10) && ValueOf(Fixed(n, 10, width), 10) == n
  {
    if width > 0 {
      DecimalRoundTrip(n / 10, width - 1);
      DigitRoundTrip(n % 10);
      LastDigit(Fixed(n / 10, 10, width - 1), DigitOf(n % 10), 10);
    }
  }

  lemma {:induction false} HexRoundTrip(n: nat, width: nat)
    requires n < Pow(16, width)
    ensures AllDigits(Fixed(n, 16, width), 16) && ValueOf(Fixed(n, 16, width), 16) == n
  {
    if width > 0 {
      HexRoundTrip(n / 16, width - 1);
      DigitRoundTrip(n % 16);
      LastDigit(Fixed(n / 16, 16, width - 1), DigitOf(n % 16), 16);
    }
  }

  // ---------------------------------------------------------------- integers

  /** `str` of a non-negative integer. */
  function NatText(n: nat): (s: string)
    ensures s != ""
  {
    if n < 10 then [DigitOf(n)] else NatText(n / 10) + [DigitOf(n % 10)]
  }

  function IntText(n: int): string {
    if n < 0 then "-" + NatText(-n) else NatText(n)
  }

  /** `int`, for an optional minus sign and decimal digits. */
  function ParseInt(s: string): Option<int> {
    if s == "" then None
    else if s[0] == '-' then 
      if |s| > 1 && AllDigits(s[1..], 10) then
        var n := -(ValueOf(s[1..], 10) as int);
        Some(n)
      else None
    else if AllDigits(s, 10) then Some(ValueOf(s, 10)) else None
  }

  lemma {:induction false} NatRoundTrip(n: nat)
    ensures AllDigits(NatText(n), 10) && ValueOf(NatText(n), 10) == n
    ensures NatText(n)[0] != '-'
  {
    if n < 10 {
      DigitRoundTrip(n);
    } else {
      NatRoundTrip(n / 10);
      DigitRoundTrip(n % 10);
      var s := NatText(n);
      assert s[..|s| - 1] == NatText(n / 10);
      assert s[0] == NatText(n / 10)[0];
    }
  }

  lemma ReadDigits(t: string, n: nat)
    requires t != "" && AllDigits(t, 10) && ValueOf(t, 10) == n && t[0] != '-'
    ensures ParseInt(t) == Some(n) && Clean(t)
    ensures ParseInt("-" + t) == Some(-(n as int)) && Clean("-" + t)
  {
    assert ("-" + t)[1..] == t;
    DigitsAreClean(t);
  }

  lemma IntRoundTrip(n: int)
    ensures ParseInt(IntText(n)) == Some(n) && Clean(IntText(n))
  {
    var m: nat := if n < 0 then -n else n;
    NatRoundTrip(m);
    ReadDigits(NatText(m), m);
  }

  // -------------------------------------------------------------- trimming

  predicate IsSpace(c: char) {
    c == ' ' || c == '\t' || c == '\n' || c == '\r'
  }

  predicate IsUpper(c: char) {
    'A' <= c <= 'Z'
  }

  predicate IsLower(c: char) {
    'a' <= c <= 'z'
  }

  function Strip(s: string): string {
    if s == "" then ""
    else if IsSpace(s[0]) then Strip(s[1..])
    else if IsSpace(s[|s| - 1]) then Strip(s[..|s| - 1])
    else s
  }

  function UpperChar(c: char): char {
    if IsLower(c) then c - 'a' + 'A' else c
  }

  function LowerChar(c: char): char {
    if IsUpper(c) then c - 'A' + 'a' else c
  }

  function Upper(s: string): string {
    seq(|s|, i requires 0 <= i < |s| => UpperChar(s[i]))
  }

  function Lower(s: string): string {
    seq(|s|, i requires 0 <= i < |s| => LowerChar(s[i]))
  }

  /** Nothing to trim. */
  predicate Clean(s: string) {
    s != "" && !IsSpace(s[0]) && !IsSpace(s[|s| - 1])
  }

  lemma DigitsAreClean(s: string)
    requires s != "" && AllDigits(s, 16)
    ensures Clean(s)
  {}

  predicate NoLower(s: string) {
    forall i :: 0 <= i < |s| ==> !IsLower(s[i])
  }

  lemma UpperIsUpper(s: string)
    requires NoLower(s)
    ensures Upper(s) == s
  {}

  lemma DigitsAreLower(s: string)
    requires AllDigits(s, 16)
    ensures Lower(s) == s
  {}

  // ------------------------------------------------------------------ dates

  predicate Leap(y: int) {
    y % 4 == 0 && (y % 100 != 0 || y % 400 == 0)
  }

  function DaysIn(y: int, m: int): int {
    if m == 2 then if Leap(y) then 29 else 28
    else if m == 4 || m == 6 || m == 9 || m == 11 then 30 else 31
  }

  predicate ValidDate(d: Date) {
    1 <= d.year <= 9999 && 1 <= d.month <= 12 && 1 <= d.day <= DaysIn(d.year, d.month)
  }

  const DAY_MICROS: nat := 86_400_000_000

  predicate ValidDateTime(t: DateTime) {
    ValidDate(t.date) && t.micros < DAY_MICROS
  }

  /** `date.isoformat` */
  function DateText(d: Date): (s: string)
    requires ValidDate(d)
    ensures |s| == 10
  {
    Fixed(d.year, 10, 4) + "-" + Fixed(d.month, 10, 2) + "-" + Fixed(d.day, 10, 2)
  }

  function ParseDate(s: string): Option<Date> {
    if |s| == 10 && s[4] == '-' && s[7] == '-' && AllDigits(s[..4], 10) && AllDigits(s[5..7], 10)
      && AllDigits(s[8..], 10) then
      var d := Date(ValueOf(s[..4], 10), ValueOf(s[5..7], 10), ValueOf(s[8..], 10));
      if ValidDate(d) then Some(d) else None
    else None
  }

  lemma Powers()
    ensures Pow(10, 2) == 100 && Pow(10, 4) == 10_000 && Pow(10, 6) == 1_000_000
  {
    assert Pow(10, 1) == 10 && Pow(10, 3) == 1000 && Pow(10, 5) == 100_000;
  }

  lemma DateRoundTrip(d: Date)
    requires ValidDate(d)
    ensures ParseDate(DateText(d)) == Some(d) && Clean(DateText(d))
    ensures
      var s := DateText(d);
      && s[4] == '-' && s[7] == '-'
      && ValueOf(s[..4], 10) == d.year && ValueOf(s[5..7], 10) == d.month && ValueOf(s[8..], 10) == d.day
  {
    var s := DateText(d);
    Powers();
    DecimalRoundTrip(d.year, 4);
    DecimalRoundTrip(d.month, 2);
    DecimalRoundTrip(d.day, 2);
    assert s[..4] == Fixed(d.year, 10, 4) && s[5..7] == Fixed(d.month, 10, 2) && s[8..] == Fixed(d.day, 10, 2);
    assert s[0] == s[..4][0] && s[9] == s[8..][1];
  }

  function FractionText(micro: nat): (s: string)
    ensures |s| == if micro == 0 then 0 else 7
  {
    if micro == 0 then "" else "." + Fixed(micro, 10, 6)
  }

  /** `datetime.isoformat`: the microseconds only when there are any. */
  function DateTimeText(t: DateTime): (s: string)
    requires ValidDateTime(t)
    ensures |s| == 19 || |s| == 26
  {
    var seconds, micro := t.micros / 1_000_000, t.micros % 1_000_000;
    DateText(t.date) + "T" + ClockText(seconds / 3600, seconds / 60 % 60, seconds % 60)
      + FractionText(micro)
  }

  function ClockValue(h: nat, m: nat, s: nat): Option<nat> {
    if h < 24 && m < 60 && s < 60 then Some(h * 3600 + m * 60 + s) else None
  }

  function ParseTime(s: string): Option<nat> {
    if |s| == 8 && s[2] == ':' && s[5] == ':' && AllDigits(s[..2], 10) && AllDigits(s[3..5], 10)
      && AllDigits(s[6..], 10) then
      ClockValue(ValueOf(s[..2], 10), ValueOf(s[3..5], 10), ValueOf(s[6..], 10))
    else None
  }

  function ParseDateTime(s: string): Option<DateTime> {
    if (|s| == 19 || (|s| == 26 && s[19] == '.' && AllDigits(s[20..], 10))) && s[10] == 'T' then
      var date, seconds := ParseDate(s[..10]), ParseTime(s[11..19]);
      var micro := if |s| == 19 then 0 else ValueOf(s[20..], 10);
      if date.Some? && seconds.Some? then Some(DateTime(date.value, seconds.value * 1_000_000 + micro)) else None
    else None
  }

  lemma Clock(seconds: nat)
    requires seconds < 86_400
    ensures seconds / 3600 < 24
    ensures seconds / 3600 * 3600 + seconds / 60 % 60 * 60 + seconds % 60 == seconds
  {
    assert seconds / 60 / 60 == seconds / 3600;
  }

  /** `HH:MM:SS` */
  function ClockText(h: nat, m: nat, s: nat): (text: string)
    ensures |text| == 8
  {
    Fixed(h, 10, 2) + ":" + Fixed(m, 10, 2) + ":" + Fixed(s, 10, 2)
  }

  lemma ClockSlices(h: string, m: string, s: string)
    requires |h| == 2 && |m| == 2 && |s| == 2
    ensures
      var text := h + ":" + m + ":" + s;
      |text| == 8 && text[2] == ':' && text[5] == ':' && text[..2] == h && text[3..5] == m && text[6..] == s
        && text[7] == s[1]
  {}

  lemma ClockParts(h: string, m: string, s: string)
    requires |h| == 2 && |m| == 2 && |s| == 2 && AllDigits(h, 10) && AllDigits(m, 10) && AllDigits(s, 10)
    ensures ParseTime(h + ":" + m + ":" + s) == ClockValue(ValueOf(h, 10), ValueOf(m, 10), ValueOf(s, 10))
  {
    ClockSlices(h, m, s);
  }

  lemma ClockRoundTrip(h: nat, m: nat, s: nat)
    requires h < 24 && m < 60 && s < 60
    ensures ParseTime(ClockText(h, m, s)) == Some(h * 3600 + m * 60 + s)
    ensures
      var text := ClockText(h, m, s);
      && text[2] == ':' && text[5] == ':'
      && ValueOf(text[..2], 10) == h && ValueOf(text[3..5], 10) == m && ValueOf(text[6..], 10) == s
    ensures DigitValue(ClockText(h, m, s)[7]) < 10
  {
    Powers();
    DecimalRoundTrip(h, 2);
    DecimalRoundTrip(m, 2);
    DecimalRoundTrip(s, 2);
    ClockSlices(Fixed(h, 10, 2), Fixed(m, 10, 2), Fixed(s, 10, 2));
    ClockParts(Fixed(h, 10, 2), Fixed(m, 10, 2), Fixed(s, 10, 2));
  }

  lemma DateTimeSlices(date: string, clock: string, fraction: string)
    requires |date| == 10 && |clock| == 8
    ensures
      var text := date + "T" + clock + fraction;
      && |text| == 19 + |fraction| && text[10] == 'T' && text[..10] == date && text[11..19] == clock
        && text[0] == date[0]
      && text[|text| - 1] == if fraction == "" then clock[7] else fraction[|fraction| - 1]
  {}

  lemma FractionSlices(date: string, clock: string, fraction: string)
    requires |date| == 10 && |clock| == 8 && |fraction| == 7
    ensures
      var text := date + "T" + clock + fraction;
      text[19] == fraction[0] && text[20..] == fraction[1..]
  {}

  function MicrosOf(fraction: string): nat {
    if fraction == "" then 0 else ValueOf(fraction[1..], 10)
  }

  predicate IsFraction(fraction: string) {
    fraction == "" || (|fraction| == 7 && fraction[0] == '.' && AllDigits(fraction[1..], 10))
  }

  /** A date and time text is read part by part. */
  lemma DateTimeParts(date: string, clock: string, fraction: string)
    requires |date| == 10 && |clock| == 8 && ParseDate(date).Some? && ParseTime(clock).Some? && IsFraction(fraction)
    ensures ParseDateTime(date + "T" + clock + fraction)
         == Some(DateTime(ParseDate(date).value, ParseTime(clock).value * 1_000_000 + MicrosOf(fraction)))
  {
    DateTimeSlices(date, clock, fraction);
    if fraction != "" { FractionSlices(date, clock, fraction); }
  }

  lemma DateTimeIsClean(date: string, clock: string, fraction: string)
    requires |date| == 10 && |clock| == 8 && Clean(date) && DigitValue(clock[7]) < 10 && IsFraction(fraction)
    ensures Clean(date + "T" + clock + fraction)
  {
    DateTimeSlices(date, clock, fraction);
    assert fraction != "" ==> fraction[6] == fraction[1..][5];
  }

  /** The clock text of a second of the day. */
  lemma SecondRoundTrip(seconds: nat)
    requires seconds < 86_400
    ensures
      var clock := ClockText(seconds / 3600, seconds / 60 % 60, seconds % 60);
      ParseTime(clock) == Some(seconds) && DigitValue(clock[7]) < 10
  {
    Clock(seconds);
    ClockRoundTrip(seconds / 3600, seconds / 60 % 60, seconds % 60);
  }

  lemma Assembled(t: DateTime, date: string, clock: string, fraction: string)
    requires |date| == 10 && ParseDate(date) == Some(t.date) && Clean(date)
    requires |clock| == 8 && ParseTime(clock).Some? && DigitValue(clock[7]) < 10 && IsFraction(fraction)
    requires t.micros == ParseTime(clock).value * 1_000_000 + MicrosOf(fraction)
    ensures ParseDateTime(date + "T" + clock + fraction) == Some(t) && Clean(date + "T" + clock + fraction)
  {
    DateTimeParts(date, clock, fraction);
    DateTimeIsClean(date, clock, fraction);
  }

  /** `YYYY-MM-DDTHH:MM:SS`, with six more digits behind a point if there are microseconds. */
  lemma DateTimeLayout(t: DateTime)
    requires ValidDateTime(t)
    ensures
      var s, seconds, micro := DateTimeText(t), t.micros / 1_000_000, t.micros % 1_000_000;
      var clock := s[11..19];
      && s[..10] == DateText(t.date) && s[10] == 'T' && clock[2] == ':' && clock[5] == ':'
      && ValueOf(clock[..2], 10) == seconds / 3600 && ValueOf(clock[3..5], 10) == seconds / 60 % 60
      && ValueOf(clock[6..], 10) == seconds % 60
      && if micro == 0 then |s| == 19 else |s| == 26 && s[19] == '.' && ValueOf(s[20..], 10) == micro
  {
    hide Fixed, ValueOf, ClockText, DateText;
    var seconds, micro := t.micros / 1_000_000, t.micros % 1_000_000;
    Clock(seconds);
    ClockRoundTrip(seconds / 3600, seconds / 60 % 60, seconds % 60);
    var date, clock, fraction := DateText(t.date), ClockText(seconds / 3600, seconds / 60 % 60, seconds % 60),
      FractionText(micro);
    DateTimeSlices(date, clock, fraction);
    FractionRoundTrip(micro);
    if micro != 0 {
      FractionSlices(date, clock, fraction);
    }
  }

  lemma DateTimeRoundTrip(t: DateTime)
    requires ValidDateTime(t)
    ensures ParseDateTime(DateTimeText(t)) == Some(t) && Clean(DateTimeText(t))
  {
    var seconds, micro := t.micros / 1_000_000, t.micros % 1_000_000;
    SecondRoundTrip(seconds);
    DateRoundTrip(t.date);
    FractionRoundTrip(micro);
    Assembled(t, DateText(t.date), ClockText(seconds / 3600, seconds / 60 % 60, seconds % 60), FractionText(micro));
  }

  lemma FractionRoundTrip(micro: nat)
    requires micro < 1_000_000
    ensures IsFraction(FractionText(micro)) && MicrosOf(FractionText(micro)) == micro
  {
    Powers();
    DecimalRoundTrip(micro, 6);
    assert micro != 0 ==> FractionText(micro)[1..] == Fixed(micro, 10, 6);
  }
}
