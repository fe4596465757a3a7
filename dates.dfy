/**
 * Calendar dates as the date filter reads and writes them: the RFC 3339
 * section 5.6 `full-date` form YYYY-MM-DD, limited to Python's date range
 * (years 1 to 9999), ordered chronologically.
 */
module Dates {
  import opened Wrappers
  import opened Digits

  datatype Date = Date(year: int, month: int, day: int)

  predicate IsLeapYear(y: int) {
    y % 4 == 0 && (y % 100 != 0 || y % 400 == 0)
  }

  function DaysInMonth(y: int, m: int): int {
    if m == 2 then (if IsLeapYear(y) then 29 else 28)
    else if m == 4 || m == 6 || m == 9 || m == 11 then 30
    else 31
  }

  /** A date Python's `datetime.date` can hold. */
  predicate ValidDate(d: Date) {
    1 <= d.year <= 9999 && 1 <= d.month <= 12 && 1 <= d.day <= DaysInMonth(d.year, d.month)
  }

  predicate FullDateShape(s: string) {
    |s| == 10 && s[4] == '-' && s[7] == '-'
    && AllDigits(s[..4], 10) && AllDigits(s[5..7], 10) && AllDigits(s[8..], 10)
  }

  /**
   * `date.fromisoformat` as in Python 3.10 and earlier, which reads the
   * YYYY-MM-DD form only: None where Python raises ValueError.
   */
  function ParseFullDate(s: string): (r: Option<Date>)
    ensures r.Some? ==> ValidDate(r.value)
  {
    if FullDateShape(s) then
      var d := Date(ValueOf(s[..4], 10), ValueOf(s[5..7], 10), ValueOf(s[8..], 10));
      if ValidDate(d) then Some(d) else None
    else None
  }

  /** `'{:%Y-%m-%d}'.format(d)`, which is also `str(d)`. */
  function FormatDate(d: Date): string {
    FormatInt(d.year, 10, 4) + "-" + FormatInt(d.month, 10, 2) + "-" + FormatInt(d.day, 10, 2)
  }

  /** Chronological order, which for dates is the order of (year, month, day). */
  predicate DateLessEq(a: Date, b: Date) {
    a.year < b.year
    || (a.year == b.year && a.month < b.month)
    || (a.year == b.year && a.month == b.month && a.day <= b.day)
  }

  lemma FieldRoundTrip(n: int, w: nat)
    requires w >= 1 && 0 <= n < Pow(10, w)
    ensures |FormatInt(n, 10, w)| == w && AllDigits(FormatInt(n, 10, w), 10)
    ensures ValueOf(FormatInt(n, 10, w), 10) == n
  {
    FormatWidth(n, 10, w);
    FormatParseRoundTrip(n, 10, w);
    PlainDigits(FormatInt(n, 10, w), 10);
  }

  /** Three digit fields of widths 4, 2 and 2 joined by dashes parse as those fields' values. */
  lemma ParseFields(y: string, m: string, dd: string)
    requires |y| == 4 && |m| == 2 && |dd| == 2
    requires AllDigits(y, 10) && AllDigits(m, 10) && AllDigits(dd, 10)
    ensures var d := Date(ValueOf(y, 10), ValueOf(m, 10), ValueOf(dd, 10));
      ParseFullDate(y + "-" + m + "-" + dd) == if ValidDate(d) then Some(d) else None
  {
    var s := y + "-" + m + "-" + dd;
    assert s[..4] == y && s[5..7] == m && s[8..] == dd;
    assert FullDateShape(s);
  }

  /** Every valid date renders to a full-date that parses back to it. */
  lemma FormatThenParse(d: Date)
    requires ValidDate(d)
    ensures ParseFullDate(FormatDate(d)) == Some(d)
  {
    assert Pow(10, 2) == 100 && Pow(10, 4) == 10000;
    FieldRoundTrip(d.year, 4);
    FieldRoundTrip(d.month, 2);
    FieldRoundTrip(d.day, 2);
    ParseFields(FormatInt(d.year, 10, 4), FormatInt(d.month, 10, 2), FormatInt(d.day, 10, 2));
  }

  lemma FieldCanonical(s: string)
    requires |s| >= 1 && AllDigits(s, 10)
    ensures FormatInt(ValueOf(s, 10), 10, |s|) == s
  {
    RenderCanonical(s, 10);
    LowerDecimal(s);
  }

  /** The parser accepts only the canonical text: what it reads renders back to the same string. */
  lemma ParseThenFormat(s: string)
    requires ParseFullDate(s).Some?
    ensures FormatDate(ParseFullDate(s).value) == s
  {
    FieldCanonical(s[..4]);
    FieldCanonical(s[5..7]);
    FieldCanonical(s[8..]);
    assert s == s[..4] + "-" + s[5..7] + "-" + s[8..];
  }
}
