/**
  The UTC calendar date of a JavaScript time value, written as the date part
  of `Date.prototype.toISOString` (the `full-date` form of section 5.6 of
  RFC 3339 for years 0000 to 9999).
 */
module Calendar {
  import opened Optional
  import opened Strings

  const MsPerDay := 86400000

  /** The largest time value a JavaScript Date holds (8.64e15 ms after the epoch). */
  const MaxTimeValue := 8640000000000000

  /** The instants the model covers: from 1970-01-01T00:00:00Z to the end of the Date range. */
  type TimeValue = t: int | 0 <= t <= MaxTimeValue

  predicate IsLeapYear(y: int) {
    y % 4 == 0 && (y % 100 != 0 || y % 400 == 0)
  }

  function DaysInYear(y: int): nat {
    if IsLeapYear(y) then 366 else 365
  }

  function DaysInMonth(y: int, m: int): nat
    requires 1 <= m <= 12
  {
    if m == 2 then (if IsLeapYear(y) then 29 else 28)
    else if m == 4 || m == 6 || m == 9 || m == 11 then 30
    else 31
  }

  /** Days of the months of `y` before month `m`; month 13 stands for the end of the year. */
  function DaysBeforeMonth(y: int, m: int): nat
    requires 1 <= m <= 13
  {
    [0, 31, 59, 90, 120, 151, 181, 212, 243, 273, 304, 334, 365][m - 1]
    + (if m > 2 && IsLeapYear(y) then 1 else 0)
  }

  lemma MonthTable(y: int, m: int)
    requires 1 <= m <= 12
    ensures DaysBeforeMonth(y, m + 1) == DaysBeforeMonth(y, m) + DaysInMonth(y, m)
    ensures DaysBeforeMonth(y, 13) == DaysInYear(y)
  {
  }

  /** Days from 1970-01-01 to January 1st of `y`. */
  function DaysBeforeYear(y: int): nat
    requires y >= 1970
    decreases y
  {
    if y == 1970 then 0 else DaysBeforeYear(y - 1) + DaysInYear(y - 1)
  }

  datatype Date = Date(year: int, month: int, day: int)

  predicate ValidDate(d: Date) {
    d.year >= 1970 && 1 <= d.month <= 12 && 1 <= d.day <= DaysInMonth(d.year, d.month)
  }

  /** Days from 1970-01-01 to `d`. */
  function DayNumber(d: Date): nat
    requires ValidDate(d)
  {
    DaysBeforeYear(d.year) + DaysBeforeMonth(d.year, d.month) + d.day - 1
  }

  /** The date `rest` days after the first of month `m` of `y`. */
  function DateInYear(y: int, m: int, rest: nat): (d: Date)
    requires y >= 1970 && 1 <= m <= 12
    requires DaysBeforeMonth(y, m) + rest < DaysInYear(y)
    ensures ValidDate(d) && d.year == y
    ensures DaysBeforeMonth(y, d.month) + d.day - 1 == DaysBeforeMonth(y, m) + rest
    decreases 12 - m
  {
    MonthTable(y, m);
    if rest < DaysInMonth(y, m) then Date(y, m, rest + 1)
    else DateInYear(y, m + 1, rest - DaysInMonth(y, m))
  }

  /** The date `rest` days after January 1st of `y`. */
  function DateFrom(y: int, rest: nat): (d: Date)
    requires y >= 1970
    ensures ValidDate(d) && d.year >= y
    ensures DayNumber(d) == DaysBeforeYear(y) + rest
    decreases rest
  {
    if rest < DaysInYear(y) then DateInYear(y, 1, rest)
    else DateFrom(y + 1, rest - DaysInYear(y))
  }

  /** The UTC calendar date of a time value. */
  function UtcDate(t: TimeValue): (d: Date)
    ensures ValidDate(d)
    ensures DayNumber(d) == t / MsPerDay
  {
    DateFrom(1970, t / MsPerDay)
  }

  lemma {:induction false} DaysBeforeYearGrows(y1: int, y2: int)
    requires 1970 <= y1 < y2
    ensures DaysBeforeYear(y1) + DaysInYear(y1) <= DaysBeforeYear(y2)
    decreases y2 - y1
  {
    if y1 + 1 < y2 {
      DaysBeforeYearGrows(y1 + 1, y2);
    }
  }

  lemma {:induction false} DaysBeforeYearAtLeast(y: int)
    requires y >= 1970
    ensures DaysBeforeYear(y) >= 365 * (y - 1970)
    decreases y
  {
    if y > 1970 {
      DaysBeforeYearAtLeast(y - 1);
    }
  }

  lemma {:induction false} MonthsGrow(y: int, m1: int, m2: int)
    requires 1 <= m1 < m2 <= 13
    ensures DaysBeforeMonth(y, m1) + DaysInMonth(y, m1) <= DaysBeforeMonth(y, m2)
    decreases m2 - m1
  {
    MonthTable(y, m1);
    if m1 + 1 < m2 {
      MonthsGrow(y, m1 + 1, m2);
    }
  }

  /** Distinct valid dates have distinct day numbers, so `UtcDate(t)` is the only date of day `t / MsPerDay`. */
  lemma DayNumberInjective(a: Date, b: Date)
    requires ValidDate(a) && ValidDate(b)
    requires DayNumber(a) == DayNumber(b)
    ensures a == b
  {
    MonthTable(a.year, a.month);
    MonthTable(b.year, b.month);
    MonthTable(a.year, 12);
    MonthTable(b.year, 12);
    if a.year < b.year {
      DaysBeforeYearGrows(a.year, b.year);
      MonthsGrow(a.year, a.month, 13);
      assert false;
    } else if b.year < a.year {
      DaysBeforeYearGrows(b.year, a.year);
      MonthsGrow(b.year, b.month, 13);
      assert false;
    } else if a.month < b.month {
      MonthsGrow(a.year, a.month, b.month);
      assert false;
    } else if b.month < a.month {
      MonthsGrow(a.year, b.month, a.month);
      assert false;
    }
  }

  /** Every time value of a JavaScript Date falls before the year 1000000. */
  lemma UtcYearBelowMillion(t: TimeValue)
    ensures UtcDate(t).year < 1000000
  {
    var d := UtcDate(t);
    DaysBeforeYearAtLeast(d.year);
  }

  function DigitChar(n: int): (c: char)
    requires 0 <= n <= 9
    ensures IsDigit(c)
  {
    ('0' as int + n) as char
  }

  function DigitValue(c: char): int {
    c as int - '0' as int
  }

  function Pow10(width: nat): nat {
    if width == 0 then 1 else 10 * Pow10(width - 1)
  }

  /** `n` in exactly `width` decimal digits, padded with zeros on the left. */
  function Pad(n: nat, width: nat): (r: string)
    ensures |r| == width
    ensures forall i :: 0 <= i < width ==> IsDigit(r[i])
  {
    if width == 0 then "" else Pad(n / 10, width - 1) + [DigitChar(n % 10)]
  }

  /** The number written by a string of decimal digits. */
  function DigitsValue(s: string): int {
    if |s| == 0 then 0 else DigitsValue(s[..|s| - 1]) * 10 + DigitValue(s[|s| - 1])
  }

  lemma {:induction false} PadValue(n: nat, width: nat)
    requires n < Pow10(width)
    ensures DigitsValue(Pad(n, width)) == n
  {
    if width > 0 {
      assert n / 10 < Pow10(width - 1);
      PadValue(n / 10, width - 1);
      var r := Pad(n, width);
      assert r[..width - 1] == Pad(n / 10, width - 1);
    }
  }

  /** The date part of `toISOString()`: a four-digit year, or a sign and six digits after 9999. */
  function IsoDatePart(t: TimeValue): string {
    var d := UtcDate(t);
    (if d.year <= 9999 then Pad(d.year, 4) else "+" + Pad(d.year, 6))
    + "-" + Pad(d.month, 2) + "-" + Pad(d.day, 2)
  }

  /** The `full-date` shape of section 5.6 of RFC 3339: `YYYY-MM-DD`. */
  predicate IsFullDate(s: string) {
    && |s| == 10
    && s[4] == '-' && s[7] == '-'
    && forall i :: 0 <= i < 10 && i != 4 && i != 7 ==> IsDigit(s[i])
  }

  /** Reads a `full-date` back into its year, month and day. */
  function ParseFullDate(s: string): Option<Date> {
    if IsFullDate(s) then
      Some(Date(DigitsValue(s[..4]), DigitsValue(s[5..7]), DigitsValue(s[8..])))
    else None
  }

  /**
    For years up to 9999 the date part is a `full-date` that reads back as the
    UTC date of `t`; later years carry the expanded `+YYYYYY` form.
   */
  lemma IsoDatePartReadsBack(t: TimeValue)
    ensures UtcDate(t).year <= 9999 ==> IsFullDate(IsoDatePart(t)) && ParseFullDate(IsoDatePart(t)) == Some(UtcDate(t))
    ensures UtcDate(t).year > 9999 ==> |IsoDatePart(t)| == 13 && IsoDatePart(t)[0] == '+'
  {
    var d := UtcDate(t);
    var s := IsoDatePart(t);
    if d.year <= 9999 {
      var y, m, dd := Pad(d.year, 4), Pad(d.month, 2), Pad(d.day, 2);
      assert s == y + "-" + m + "-" + dd;
      assert s[..4] == y && s[5..7] == m && s[8..] == dd;
      assert forall i :: 0 <= i < 4 ==> s[i] == y[i];
      assert forall i :: 5 <= i < 7 ==> s[i] == m[i - 5];
      assert forall i :: 8 <= i < 10 ==> s[i] == dd[i - 8];
      PadValue(d.year, 4);
      PadValue(d.month, 2);
      PadValue(d.day, 2);
    }
  }

  /**
    After the year 9999 the date part is "+", six year digits, "-", two month
    digits, "-", two day digits, and each field reads back exactly: no year of
    a JavaScript Date needs a seventh digit.
   */
  lemma ExpandedDateReadsBack(t: TimeValue)
    requires UtcDate(t).year > 9999
    ensures var s, d := IsoDatePart(t), UtcDate(t);
      && |s| == 13 && s[0] == '+' && s[7] == '-' && s[10] == '-'
      && DigitsValue(s[1..7]) == d.year
      && DigitsValue(s[8..10]) == d.month
      && DigitsValue(s[11..]) == d.day
  {
    var d := UtcDate(t);
    var s := IsoDatePart(t);
    var y, m, dd := Pad(d.year, 6), Pad(d.month, 2), Pad(d.day, 2);
    assert s == "+" + y + "-" + m + "-" + dd;
    assert s[1..7] == y && s[8..10] == m && s[11..] == dd;
    UtcYearBelowMillion(t);
    PadValue(d.year, 6);
    PadValue(d.month, 2);
    PadValue(d.day, 2);
  }
}
