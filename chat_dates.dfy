/**
 * The date handling of `process_message`: `datetime.strptime` under
 * `%m/%d/%Y`, then under `%m/%d/%y`, and the inclusive range filter.
 *
 * CPython's `_strptime` turns each directive into a regular expression and
 * requires the whole string to be consumed:
 *   `%m`  1-9, 01-09 or 10-12
 *   `%d`  1-9, 01-09, 10-31, or a space and 1-9
 *   `%Y`  exactly four digits
 *   `%y`  exactly two digits; 00-68 are read as 2000-2068, 69-99 as 1969-1999
 * and `datetime` then rejects year 0 and a day past the end of its month.
 * Both formats are read by splitting at the first two slashes, since no
 * directive above can match a slash.
 */
module ChatDates {
  import opened Opt
  import opened Strings

  /** A calendar date; the time of day is always midnight here. */
  datatype Date = Date(year: int, month: int, day: int)

  predicate IsLeap(y: int) {
    y % 4 == 0 && (y % 100 != 0 || y % 400 == 0)
  }

  function DaysIn(y: int, m: int): (n: int)
    requires 1 <= m <= 12
    ensures 28 <= n <= 31
  {
    if m == 2 then (if IsLeap(y) then 29 else 28)
    else if m == 4 || m == 6 || m == 9 || m == 11 then 30
    else 31
  }

  /** What `datetime` accepts: years 1-9999 and a day inside its month. */
  predicate ValidDate(d: Date) {
    1 <= d.year <= 9999 && 1 <= d.month <= 12 && 1 <= d.day <= DaysIn(d.year, d.month)
  }

  /** The three slash-separated fields of a date string. */
  datatype Fields = Fields(month: string, day: string, year: string)

  /** The text before the first slash, between the first two, and after the second. */
  function SplitDate(s: string): (r: Option<Fields>)
    ensures r.Some? ==> s == r.value.month + "/" + r.value.day + "/" + r.value.year
    ensures r.Some? ==> '/' !in r.value.month && '/' !in r.value.day
  {
    if '/' in s && '/' in After(s, '/') then
      var rest := After(s, '/');
      Some(Fields(Before(s, '/'), Before(rest, '/'), After(rest, '/')))
    else
      None
  }

  /** `%m`. */
  function Month(t: string): (r: Option<int>)
    ensures r.Some? ==> 1 <= r.value <= 12
  {
    if |t| == 1 && '1' <= t[0] <= '9' then Some(DigitValue(t[0]))
    else if |t| == 2 && t[0] == '0' && '1' <= t[1] <= '9' then Some(DigitValue(t[1]))
    else if |t| == 2 && t[0] == '1' && '0' <= t[1] <= '2' then Some(10 + DigitValue(t[1]))
    else None
  }

  /** `%d`. */
  function Day(t: string): (r: Option<int>)
    ensures r.Some? ==> 1 <= r.value <= 31
  {
    if |t| == 1 && '1' <= t[0] <= '9' then Some(DigitValue(t[0]))
    else if |t| == 2 && (t[0] == '0' || t[0] == ' ') && '1' <= t[1] <= '9' then Some(DigitValue(t[1]))
    else if |t| == 2 && (t[0] == '1' || t[0] == '2') && IsDigit(t[1]) then Some(10 * DigitValue(t[0]) + DigitValue(t[1]))
    else if |t| == 2 && t[0] == '3' && '0' <= t[1] <= '1' then Some(30 + DigitValue(t[1]))
    else None
  }

  /** `%Y` when `four`, otherwise `%y` with its 1969-2068 window. */
  function Year(t: string, four: bool): (r: Option<int>)
  {
    if four then
      if |t| == 4 && AllDigits(t) then Some(DigitsValue(t)) else None
    else if |t| == 2 && AllDigits(t) then
      Some(if DigitsValue(t) <= 68 then 2000 + DigitsValue(t) else 1900 + DigitsValue(t))
    else None
  }

  /** `datetime.strptime(s, "%m/%d/%Y")` (`four`) or `"%m/%d/%y"`; `None` for a `ValueError`. */
  function ParseFormat(s: string, four: bool): (r: Option<Date>)
  {
    match SplitDate(s)
    case None => None
    case Some(f) =>
      match (Month(f.month), Day(f.day), Year(f.year, four))
      case (Some(m), Some(d), Some(y)) =>
        if ValidDate(Date(y, m, d)) then Some(Date(y, m, d)) else None
      case _ => None
  }

  /**
   * The parse at the head of `process_message`: the four-digit-year format,
   * then the two-digit one; `None` is the "Error parsing date" return.
   */
  function ParseDate(s: string): (r: Option<Date>)
    ensures r.Some? ==> ValidDate(r.value)
    ensures r.Some? <==> ParseFormat(s, true).Some? || ParseFormat(s, false).Some?
  {
    match ParseFormat(s, true)
    case Some(d) => Some(d)
    case None => ParseFormat(s, false)
  }

  /** Python's comparison of two dates: by year, then month, then day. */
  predicate LessEq(a: Date, b: Date) {
    a.year < b.year
    || (a.year == b.year && a.month < b.month)
    || (a.year == b.year && a.month == b.month && a.day <= b.day)
  }

  /** `start_date <= message_date <= end_date`, both bounds included. */
  predicate InRange(start: Date, d: Date, end: Date) {
    LessEq(start, d) && LessEq(d, end)
  }

  // ---------------------------------------------------------------------
  // What a successful parse guarantees.
  // ---------------------------------------------------------------------

  /** The fields of a date accepted under either format. */
  lemma ParseFormatFields(s: string, four: bool) returns (f: Fields)
    requires ParseFormat(s, four).Some?
    ensures SplitDate(s) == Some(f)
    ensures Month(f.month) == Some(ParseFormat(s, four).value.month)
    ensures Day(f.day) == Some(ParseFormat(s, four).value.day)
    ensures Year(f.year, four) == Some(ParseFormat(s, four).value.year)
    ensures ValidDate(ParseFormat(s, four).value)
  {
    f := SplitDate(s).value;
  }

  /** A two-digit year lands in the window 1969-2068. */
  lemma TwoDigitWindow(s: string)
    requires ParseFormat(s, false).Some?
    ensures 1969 <= ParseFormat(s, false).value.year <= 2068
  {
    var f := ParseFormatFields(s, false);
    DigitsValueBound(f.year);
  }

  lemma DigitsValueBound(t: string)
    requires |t| == 2 && AllDigits(t)
    ensures DigitsValue(t) <= 99
  {
    TwoDigits(t);
  }

  /**
   * The two formats never both accept a string: the year field has four
   * digits for one and two for the other.  So the four-digit reading, tried
   * first, is never shadowed, and the two-digit one is used exactly when the
   * first fails.
   */
  lemma FormatsExclusive(s: string)
    ensures !(ParseFormat(s, true).Some? && ParseFormat(s, false).Some?)
  {
    if ParseFormat(s, true).Some? {
      var f := ParseFormatFields(s, true);
      assert Year(f.year, false).None?;
    }
  }

  /** A year field of neither two nor four characters is always rejected. */
  lemma YearLength(s: string, f: Fields)
    requires SplitDate(s) == Some(f) && |f.year| != 2 && |f.year| != 4
    ensures ParseDate(s) == None
  {
  }

  // ---------------------------------------------------------------------
  // Round trips through the zero-padded formats.
  // ---------------------------------------------------------------------

  /** Four digits, zero-padded. */
  function Pad4(n: int): (t: string)
    requires 0 <= n <= 9999
    ensures |t| == 4 && AllDigits(t)
  {
    Pad2(n / 100) + Pad2(n % 100)
  }

  /** A date written as `MM/DD/YYYY`. */
  function Format4(d: Date): string
    requires ValidDate(d)
  {
    Pad2(d.month) + "/" + Pad2(d.day) + "/" + Pad4(d.year)
  }

  /** A date written as `MM/DD/YY`. */
  function Format2(d: Date): string
    requires ValidDate(d)
  {
    Pad2(d.month) + "/" + Pad2(d.day) + "/" + Pad2(d.year % 100)
  }

  lemma Pad4Value(n: int)
    requires 0 <= n <= 9999
    ensures DigitsValue(Pad4(n)) == n
  {
    Pad2Value(n / 100);
    Pad2Value(n % 100);
    DigitsValueAppend(Pad2(n / 100), Pad2(n % 100));
    assert Pow10(2) == 100;
  }

  lemma Pad2Month(m: int)
    requires 1 <= m <= 12
    ensures Month(Pad2(m)) == Some(m)
  {
  }

  lemma Pad2Day(d: int)
    requires 1 <= d <= 31
    ensures Day(Pad2(d)) == Some(d)
  {
  }

  /** The slash-separated fields of `a/b/c` when `a` and `b` hold no slash. */
  lemma SplitOf(a: string, b: string, c: string)
    requires '/' !in a && '/' !in b
    ensures SplitDate(a + "/" + b + "/" + c) == Some(Fields(a, b, c))
  {
    var s := a + "/" + b + "/" + c;
    assert s == a + ['/'] + (b + "/" + c);
    SplitFirst(a, '/', b + "/" + c);
    assert b + "/" + c == b + ['/'] + c;
    SplitFirst(b, '/', c);
  }

  lemma DigitsNoSlash(t: string)
    requires AllDigits(t)
    ensures '/' !in t
  {
    forall k | 0 <= k < |t| ensures t[k] != '/' {
      assert IsDigit(t[k]);
    }
  }

  /** `strptime` reads `MM/DD/YYYY` back as the date written. */
  lemma Format4RoundTrip(d: Date)
    requires ValidDate(d)
    ensures ParseDate(Format4(d)) == Some(d)
  {
    DigitsNoSlash(Pad2(d.month));
    DigitsNoSlash(Pad2(d.day));
    SplitOf(Pad2(d.month), Pad2(d.day), Pad4(d.year));
    Pad2Month(d.month);
    Pad2Day(d.day);
    Pad4Value(d.year);
  }

  /** `strptime` reads `MM/DD/YY` back as the date written, for the years 1969-2068. */
  lemma Format2RoundTrip(d: Date)
    requires ValidDate(d) && 1969 <= d.year <= 2068
    ensures ParseDate(Format2(d)) == Some(d)
  {
    DigitsNoSlash(Pad2(d.month));
    DigitsNoSlash(Pad2(d.day));
    SplitOf(Pad2(d.month), Pad2(d.day), Pad2(d.year % 100));
    Pad2Month(d.month);
    Pad2Day(d.day);
    Pad2Value(d.year % 100);
  }

  /** Outside the window, `MM/DD/YY` names a date a century away. */
  lemma Format2OutsideWindow(d: Date)
    requires ValidDate(d) && (d.year < 1969 || d.year > 2068)
    ensures ParseDate(Format2(d)) != Some(d)
  {
    var s := Format2(d);
    if ParseDate(s).Some? {
      FormatsExclusive(s);
      if ParseFormat(s, true).Some? {
        var f := ParseFormatFields(s, true);
        DigitsNoSlash(Pad2(d.month));
        DigitsNoSlash(Pad2(d.day));
        SplitOf(Pad2(d.month), Pad2(d.day), Pad2(d.year % 100));
      } else {
        TwoDigitWindow(s);
      }
    }
  }

  // ---------------------------------------------------------------------
  // The comparison is chronological: it agrees with the day count.
  // ---------------------------------------------------------------------

  function DaysInYear(y: int): int {
    if IsLeap(y) then 366 else 365
  }

  /** Days before 1 January of year `y`, counted from 1 January of year 1. */
  function DaysBeforeYear(y: int): int
    requires y >= 1
  {
    var p := y - 1;
    p * 365 + p / 4 - p / 100 + p / 400
  }

  /** Days of year `y` before the first of month `m`. */
  function DaysBeforeMonth(y: int, m: int): int
    requires 1 <= m <= 12
  {
    [0, 31, 59, 90, 120, 151, 181, 212, 243, 273, 304, 334][m - 1] + (if m > 2 && IsLeap(y) then 1 else 0)
  }

  /** `date.toordinal()`: 1 January of year 1 is day 1. */
  function Ordinal(d: Date): int
    requires ValidDate(d)
  {
    DaysBeforeYear(d.year) + DaysBeforeMonth(d.year, d.month) + d.day
  }

  lemma NextYear(y: int)
    requires y >= 1
    ensures DaysBeforeYear(y + 1) == DaysBeforeYear(y) + DaysInYear(y)
  {
    var p := y - 1;
    assert DaysBeforeYear(y) == p * 365 + p / 4 - p / 100 + p / 400;
    assert DaysBeforeYear(y + 1) == y * 365 + y / 4 - y / 100 + y / 400;
    DivStep(p, 4);
    DivStep(p, 100);
    DivStep(p, 400);
  }

  /** How a quotient grows when the dividend goes up by one. */
  lemma DivStep(p: int, k: int)
    requires p >= 0 && (k == 4 || k == 100 || k == 400)
    ensures (p + 1) / k == p / k + (if (p + 1) % k == 0 then 1 else 0)
  {
    if k == 4 {
    } else if k == 100 {
    } else {
    }
  }

  lemma {:induction false} YearsAfter(y: int, z: int)
    requires 1 <= y < z
    ensures DaysBeforeYear(y) + DaysInYear(y) <= DaysBeforeYear(z)
    decreases z - y
  {
    NextYear(y);
    if y + 1 < z {
      YearsAfter(y + 1, z);
    }
  }

  lemma MonthsAfter(y: int, m: int, n: int)
    requires 1 <= m < n <= 12
    ensures DaysBeforeMonth(y, m) + DaysIn(y, m) <= DaysBeforeMonth(y, n)
  {
  }

  lemma MonthsInYear(y: int, m: int)
    requires 1 <= m <= 12
    ensures DaysBeforeMonth(y, m) + DaysIn(y, m) <= DaysInYear(y)
  {
  }

  /** A strictly earlier date has a strictly smaller day number. */
  lemma OrdinalStrict(a: Date, b: Date)
    requires ValidDate(a) && ValidDate(b) && LessEq(a, b) && a != b
    ensures Ordinal(a) < Ordinal(b)
  {
    if a.year < b.year {
      MonthsInYear(a.year, a.month);
      YearsAfter(a.year, b.year);
    } else if a.month < b.month {
      MonthsAfter(a.year, a.month, b.month);
    }
  }

  /** The date comparison of `process_message` orders dates by their day number. */
  lemma OrdinalOrder(a: Date, b: Date)
    requires ValidDate(a) && ValidDate(b)
    ensures LessEq(a, b) <==> Ordinal(a) <= Ordinal(b)
  {
    if LessEq(a, b) && a != b {
      OrdinalStrict(a, b);
    } else if !LessEq(a, b) {
      OrdinalStrict(b, a);
    }
  }

  /** The range filter, stated with day numbers. */
  lemma InRangeOrdinal(start: Date, d: Date, end: Date)
    requires ValidDate(start) && ValidDate(d) && ValidDate(end)
    ensures InRange(start, d, end) <==> Ordinal(start) <= Ordinal(d) <= Ordinal(end)
  {
    OrdinalOrder(start, d);
    OrdinalOrder(d, end);
  }
}
