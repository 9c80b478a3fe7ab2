/**
 * Calendar dates as the pipeline sees them: the result of Go's
 * `time.Parse("2006-01-02", text)` (a UTC midnight, so a proleptic Gregorian
 * year-month-day triple) and `Date.Add(24 * time.Hour)`, the next calendar day.
 */
module Dates {
  import opened Wrappers
  import opened GoStrings

  datatype Ymd = Ymd(year: int, month: int, day: int)

  /** Go's `isLeap`: the Gregorian leap-year rule. */
  predicate IsLeap(year: int)
  {
    year % 4 == 0 && (year % 100 != 0 || year % 400 == 0)
  }

  /** Go's `daysIn(month, year)` for months 1 to 12. */
  function DaysIn(month: int, year: int): int
  {
    if month == 2 then (if IsLeap(year) then 29 else 28)
    else if month == 4 || month == 6 || month == 9 || month == 11 then 30
    else 31
  }

  predicate IsCalendarDate(d: Ymd)
  {
    0 <= d.year && 1 <= d.month <= 12 && 1 <= d.day <= DaysIn(d.month, d.year)
  }

  /** A day of the Gregorian calendar from year 0 on. */
  type Date = d: Ymd | IsCalendarDate(d) witness Ymd(0, 1, 1)

  // Text form "YYYY-MM-DD".

  function Pad2(n: nat): string
    requires n < 100
  {
    [DigitChar(n / 10), DigitChar(n % 10)]
  }

  function Pad4(n: nat): string
    requires n < 10000
  {
    [DigitChar(n / 1000), DigitChar(n / 100 % 10), DigitChar(n / 10 % 10), DigitChar(n % 10)]
  }

  /** `Time.Format("2006-01-02")` of a date with a four-digit year. */
  function FormatDate(d: Date): string
    requires d.year <= 9999
  {
    Pad4(d.year) + "-" + Pad2(d.month) + "-" + Pad2(d.day)
  }

  /**
   * `time.Parse("2006-01-02", value)`: four digits for the year, `-`, exactly two
   * digits for a month in 1..12, `-`, exactly two digits for a day that exists in that
   * month of that year, and nothing after. Only success or failure matters here: the
   * error text is only logged.
   */
  function ParseDate(value: string): (r: Option<Date>)
    ensures r.Some? ==> r.value.year <= 9999 && value == FormatDate(r.value)
  {
    if |value| < 4 || !IsDigit(value[0]) || !IsDigit(value[1]) || !IsDigit(value[2]) || !IsDigit(value[3]) then None
    else if |value| < 5 || value[4] != '-' then None
    else if |value| < 7 || !IsDigit(value[5]) || !IsDigit(value[6]) then None
    else
      var month := 10 * DigitValue(value[5]) + DigitValue(value[6]);
      if month < 1 || 12 < month then None
      else if |value| < 8 || value[7] != '-' then None
      else if |value| < 10 || !IsDigit(value[8]) || !IsDigit(value[9]) then None
      else if |value| > 10 then None
      else
        var year := 1000 * DigitValue(value[0]) + 100 * DigitValue(value[1]) + 10 * DigitValue(value[2]) + DigitValue(value[3]);
        var day := 10 * DigitValue(value[8]) + DigitValue(value[9]);
        if day < 1 || DaysIn(month, year) < day then None
        else
          var d := Ymd(year, month, day);
          FormatOfDigits(value);
          Some(d)
  }

  /** A ten-character text of the right shape is the format of the number it spells. */
  lemma FormatOfDigits(value: string)
    requires |value| == 10 && value[4] == '-' && value[7] == '-'
    requires IsDigit(value[0]) && IsDigit(value[1]) && IsDigit(value[2]) && IsDigit(value[3])
    requires IsDigit(value[5]) && IsDigit(value[6]) && IsDigit(value[8]) && IsDigit(value[9])
    ensures var year := 1000 * DigitValue(value[0]) + 100 * DigitValue(value[1]) + 10 * DigitValue(value[2]) + DigitValue(value[3]);
            var month := 10 * DigitValue(value[5]) + DigitValue(value[6]);
            var day := 10 * DigitValue(value[8]) + DigitValue(value[9]);
            value == Pad4(year) + "-" + Pad2(month) + "-" + Pad2(day)
  {
    var a, b, c, e := DigitValue(value[0]), DigitValue(value[1]), DigitValue(value[2]), DigitValue(value[3]);
    Digits4(a, b, c, e);
    Digits2(DigitValue(value[5]), DigitValue(value[6]));
    Digits2(DigitValue(value[8]), DigitValue(value[9]));
    assert DigitChar(a) == value[0] && DigitChar(b) == value[1] && DigitChar(c) == value[2] && DigitChar(e) == value[3];
    assert DigitChar(DigitValue(value[5])) == value[5] && DigitChar(DigitValue(value[6])) == value[6];
    assert DigitChar(DigitValue(value[8])) == value[8] && DigitChar(DigitValue(value[9])) == value[9];
  }

  lemma Digits2(a: nat, b: nat)
    requires a < 10 && b < 10
    ensures Pad2(10 * a + b) == [DigitChar(a), DigitChar(b)]
  {
  }

  lemma Digits4(a: nat, b: nat, c: nat, e: nat)
    requires a < 10 && b < 10 && c < 10 && e < 10
    ensures Pad4(1000 * a + 100 * b + 10 * c + e) == [DigitChar(a), DigitChar(b), DigitChar(c), DigitChar(e)]
  {
    var n := 1000 * a + 100 * b + 10 * c + e;
    DivMod1000(a, 100 * b + 10 * c + e);
    DivMod100(10 * a + b, 10 * c + e);
    DivMod10(10 * a + b, 0);
    assert (10 * a + b) % 10 == b by { DivMod10(a, b); }
    DivMod10(100 * a + 10 * b + c, e);
    assert (100 * a + 10 * b + c) % 10 == c by { DivMod10(10 * a + b, c); }
  }

  lemma DivMod10(q: nat, r: nat)
    requires r < 10
    ensures (10 * q + r) / 10 == q && (10 * q + r) % 10 == r
  {
  }

  lemma DivMod100(q: nat, r: nat)
    requires r < 100
    ensures (100 * q + r) / 100 == q && (100 * q + r) % 100 == r
  {
  }

  lemma DivMod1000(q: nat, r: nat)
    requires r < 1000
    ensures (1000 * q + r) / 1000 == q && (1000 * q + r) % 1000 == r
  {
  }

  lemma Pad2Value(n: nat)
    requires n < 100
    ensures 10 * DigitValue(Pad2(n)[0]) + DigitValue(Pad2(n)[1]) == n
  {
  }

  lemma Pad4Value(n: nat)
    requires n < 10000
    ensures 1000 * DigitValue(Pad4(n)[0]) + 100 * DigitValue(Pad4(n)[1]) + 10 * DigitValue(Pad4(n)[2]) + DigitValue(Pad4(n)[3]) == n
  {
    assert 1000 * (n / 1000) + 100 * (n / 100 % 10) + 10 * (n / 10 % 10) + n % 10 == n;
  }

  /** Every date with a four-digit year is accepted back from its own text. */
  lemma ParseFormat(d: Date)
    requires d.year <= 9999
    ensures ParseDate(FormatDate(d)) == Some(d)
  {
    var s := FormatDate(d);
    var y, m, dd := Pad4(d.year), Pad2(d.month), Pad2(d.day);
    Pad4Value(d.year);
    Pad2Value(d.month);
    Pad2Value(d.day);
    assert s == y + "-" + m + "-" + dd;
    assert |s| == 10 && s[4] == '-' && s[7] == '-';
    assert s[0] == y[0] && s[1] == y[1] && s[2] == y[2] && s[3] == y[3];
    assert s[5] == m[0] && s[6] == m[1] && s[8] == dd[0] && s[9] == dd[1];
  }

  /** Accepted text is exactly ten characters long: any trailing text, a "\r" included, is refused. */
  lemma ParsedTextIsTenCharacters(value: string, extra: string)
    requires ParseDate(value).Some?
    requires |extra| > 0
    ensures |value| == 10
    ensures ParseDate(value + extra).None?
  {
    var d := ParseDate(value).value;
    assert |FormatDate(d)| == 10;
  }

  /** The text of a date is ten characters, all digits except the two dashes. */
  lemma FormatDateChars(d: Date)
    requires d.year <= 9999
    ensures |FormatDate(d)| == 10
    ensures forall i :: 0 <= i < |FormatDate(d)| ==> IsDigit(FormatDate(d)[i]) || FormatDate(d)[i] == '-'
  {
  }

  /** February 29 exists in leap years only. */
  lemma LeapDayInLeapYears()
    ensures ParseDate("2024-02-29") == Some(Ymd(2024, 2, 29))
    ensures ParseDate("2000-02-29") == Some(Ymd(2000, 2, 29))
  {
    assert IsLeap(2024) && IsLeap(2000);
  }

  lemma NoLeapDayInOtherYears()
    ensures ParseDate("2025-02-29") == None
    ensures ParseDate("1900-02-29") == None
  {
    assert !IsLeap(2025) && !IsLeap(1900);
  }

  /** The month takes exactly two digits and lies in 1..12. */
  lemma MonthFormExamples()
    ensures ParseDate("2025-1-01") == None
    ensures ParseDate("2025-13-01") == None
  {
  }

  // The next calendar day.

  /** `d.Add(24 * time.Hour)` for a UTC midnight: the following calendar day. */
  function NextDay(d: Date): Date
  {
    if d.day < DaysIn(d.month, d.year) then Ymd(d.year, d.month, d.day + 1)
    else if d.month < 12 then Ymd(d.year, d.month + 1, 1)
    else Ymd(d.year + 1, 1, 1)
  }

  // An independent reference: the number of days from 0000-01-01.

  ghost function YearLength(year: nat): nat
  {
    if IsLeap(year) then 366 else 365
  }

  ghost function DaysBeforeYear(year: nat): nat
  {
    if year == 0 then 0 else DaysBeforeYear(year - 1) + YearLength(year - 1)
  }

  /** Go's `daysBefore` table, plus the leap day after February. */
  ghost function DaysBeforeMonth(month: int, year: nat): nat
    requires 1 <= month <= 12
  {
    var before :=
      if month == 1 then 0 else if month == 2 then 31 else if month == 3 then 59
      else if month == 4 then 90 else if month == 5 then 120 else if month == 6 then 151
      else if month == 7 then 181 else if month == 8 then 212 else if month == 9 then 243
      else if month == 10 then 273 else if month == 11 then 304 else 334;
    before + if month > 2 && IsLeap(year) then 1 else 0
  }

  ghost function DayNumber(d: Date): nat
  {
    DaysBeforeYear(d.year) + DaysBeforeMonth(d.month, d.year) + d.day - 1
  }

  lemma MonthTable(month: int, year: nat)
    requires 1 <= month <= 12
    ensures month < 12 ==> DaysBeforeMonth(month + 1, year) == DaysBeforeMonth(month, year) + DaysIn(month, year)
    ensures month == 12 ==> DaysBeforeMonth(month, year) + DaysIn(month, year) == YearLength(year)
  {
  }

  /** The next day is exactly one day (24 hours) later. */
  lemma NextDayIsOneDayLater(d: Date)
    ensures DayNumber(NextDay(d)) == DayNumber(d) + 1
  {
    MonthTable(d.month, d.year);
  }

  lemma {:induction false} DaysBeforeYearGrows(a: nat, b: nat)
    requires a <= b
    decreases b - a
    ensures DaysBeforeYear(a) <= DaysBeforeYear(b)
  {
    if a < b {
      DaysBeforeYearGrows(a, b - 1);
    }
  }

  /** Day numbers within a year stay below the year's length and grow with the month. */
  lemma DayOfYearBounds(a: Date, b: Date)
    requires a.year == b.year && a.month < b.month
    ensures DaysBeforeMonth(a.month, a.year) + a.day <= DaysBeforeMonth(b.month, b.year)
  {
  }

  lemma DayOfYearBelowYearLength(d: Date)
    ensures DaysBeforeMonth(d.month, d.year) + d.day <= YearLength(d.year)
  {
  }

  /** Different dates have different day numbers. */
  lemma DayNumberInjective(a: Date, b: Date)
    requires DayNumber(a) == DayNumber(b)
    ensures a == b
  {
    if a.year < b.year {
      DayOfYearBelowYearLength(a);
      DaysBeforeYearGrows(a.year + 1, b.year);
      assert false;
    } else if b.year < a.year {
      DayOfYearBelowYearLength(b);
      DaysBeforeYearGrows(b.year + 1, a.year);
      assert false;
    } else if a.month < b.month {
      DayOfYearBounds(a, b);
      assert false;
    } else if b.month < a.month {
      DayOfYearBounds(b, a);
      assert false;
    }
  }

  /** The next day is the only date one day later. */
  lemma NextDayIsUnique(d: Date, e: Date)
    requires DayNumber(e) == DayNumber(d) + 1
    ensures e == NextDay(d)
  {
    NextDayIsOneDayLater(d);
    DayNumberInjective(e, NextDay(d));
  }

  /** February 28 is followed by February 29 only in a leap year. */
  lemma FebruaryRollover(year: nat)
    ensures NextDay(Ymd(year, 2, 28)) == if IsLeap(year) then Ymd(year, 2, 29) else Ymd(year, 3, 1)
  {
  }

  /** December 31 is followed by January 1 of the next year. */
  lemma YearRollover(year: nat)
    ensures NextDay(Ymd(year, 12, 31)) == Ymd(year + 1, 1, 1)
  {
  }
}
