/**
 * The proleptic Gregorian calendar: dates, their day numbers, the day of the week that
 * `new Date(s).getDay()` reports (0 is Sunday), and the ISO `YYYY-MM-DD` form the date
 * input produces.
 */
module Calendar {
  import opened Wrappers
  import opened JsString

  datatype Date = Date(year: int, month: int, day: int)

  predicate IsLeapYear(y: int) {
    (y % 4 == 0 && y % 100 != 0) || y % 400 == 0
  }

  function DaysInMonth(y: int, m: int): (n: int)
    requires 1 <= m <= 12
    ensures 28 <= n <= 31
    ensures n == 29 <==> m == 2 && IsLeapYear(y)
  {
    if m == 2 then (if IsLeapYear(y) then 29 else 28)
    else if m == 4 || m == 6 || m == 9 || m == 11 then 30
    else 31
  }

  predicate ValidDate(dt: Date) {
    1 <= dt.month <= 12 && 1 <= dt.day <= DaysInMonth(dt.year, dt.month)
  }

  /** Days in the whole years before year `y`, counted from 0001-01-01 (day 0). */
  function DaysBeforeYear(y: int): int {
    var p := y - 1;
    365 * p + p / 4 - p / 100 + p / 400
  }

  /** Days in the months of year `y` before month `m`. */
  function DaysBeforeMonth(y: int, m: int): int
    requires 1 <= m <= 12
  {
    var common :=
      if m == 1 then 0 else if m == 2 then 31 else if m == 3 then 59
      else if m == 4 then 90 else if m == 5 then 120 else if m == 6 then 151
      else if m == 7 then 181 else if m == 8 then 212 else if m == 9 then 243
      else if m == 10 then 273 else if m == 11 then 304 else 334;
    common + (if m > 2 && IsLeapYear(y) then 1 else 0)
  }

  /** Days from 0001-01-01 to `dt`. */
  function DayNumber(dt: Date): int
    requires ValidDate(dt)
  {
    DaysBeforeYear(dt.year) + DaysBeforeMonth(dt.year, dt.month) + dt.day - 1
  }

  /** The day of the week, 0 = Sunday … 6 = Saturday; 0001-01-01 was a Monday. */
  function DayOfWeek(dt: Date): (w: nat)
    requires ValidDate(dt)
    ensures w < 7
  {
    (DayNumber(dt) + 1) % 7
  }

  /** The calendar day after `dt`, rolling over month and year ends. */
  function NextDay(dt: Date): (n: Date)
    requires ValidDate(dt)
    ensures ValidDate(n)
  {
    if dt.day < DaysInMonth(dt.year, dt.month) then Date(dt.year, dt.month, dt.day + 1)
    else if dt.month < 12 then Date(dt.year, dt.month + 1, 1)
    else Date(dt.year + 1, 1, 1)
  }

  lemma Step4(y: int)
    ensures y / 4 - (y - 1) / 4 == if y % 4 == 0 then 1 else 0
  {
  }

  lemma Step100(y: int)
    ensures y / 100 - (y - 1) / 100 == if y % 100 == 0 then 1 else 0
  {
  }

  lemma Step400(y: int)
    ensures y / 400 - (y - 1) / 400 == if y % 400 == 0 then 1 else 0
  {
  }

  /** Year `y` has 365 days, or 366 when it is a leap year. */
  lemma YearLength(y: int)
    ensures DaysBeforeYear(y + 1) - DaysBeforeYear(y) == if IsLeapYear(y) then 366 else 365
  {
    var p := y - 1;
    Step4(y);
    Step100(y);
    Step400(y);
    var a, b, c := y / 4 - p / 4, y / 100 - p / 100, y / 400 - p / 400;
    assert DaysBeforeYear(y + 1) - DaysBeforeYear(y) == 365 + a - b + c;
    Divides400(y);
    Divides100(y);
  }

  lemma Divides400(y: int)
    ensures y % 400 == 0 ==> y % 100 == 0
  {
    if y % 400 == 0 {
      assert y == 100 * (4 * (y / 400));
    }
  }

  lemma Divides100(y: int)
    ensures y % 100 == 0 ==> y % 4 == 0
  {
    if y % 100 == 0 {
      assert y == 4 * (25 * (y / 100));
    }
  }

  /** Consecutive calendar days have consecutive day numbers, across month and year ends. */
  lemma NextDayNumber(dt: Date)
    requires ValidDate(dt)
    ensures DayNumber(NextDay(dt)) == DayNumber(dt) + 1
  {
    if dt.day == DaysInMonth(dt.year, dt.month) && dt.month == 12 {
      YearLength(dt.year);
    }
  }

  /** The weekday advances by one, modulo seven, from each day to the next. */
  lemma NextDayOfWeek(dt: Date)
    requires ValidDate(dt)
    ensures DayOfWeek(NextDay(dt)) == (DayOfWeek(dt) + 1) % 7
  {
    NextDayNumber(dt);
    var n := DayNumber(dt) + 1;
    ModSevenStep(n);
  }

  lemma ModSevenStep(n: int)
    ensures (n + 1) % 7 == (n % 7 + 1) % 7
  {
  }

  /** Calendar anchors: the Unix epoch was a Thursday, 2025-01-05 a Sunday, 2025-01-10 a Friday. */
  lemma KnownWeekdays()
    ensures DayOfWeek(Date(1970, 1, 1)) == 4
    ensures DayOfWeek(Date(2025, 1, 5)) == 0
    ensures DayOfWeek(Date(2025, 1, 10)) == 5
    ensures DayOfWeek(Date(2025, 1, 11)) == 6
    ensures DayOfWeek(Date(2000, 2, 29)) == 2
    ensures DayOfWeek(Date(2100, 3, 1)) == 1
  {
  }

  // ----- the ISO form "YYYY-MM-DD" -----

  /** Is `s` shaped like `YYYY-MM-DD` (digits and dashes in place)? */
  predicate IsoShaped(s: string) {
    |s| == 10 && s[4] == '-' && s[7] == '-'
    && IsDigit(s[0]) && IsDigit(s[1]) && IsDigit(s[2]) && IsDigit(s[3])
    && IsDigit(s[5]) && IsDigit(s[6]) && IsDigit(s[8]) && IsDigit(s[9])
  }

  /**
   * The date an ISO `YYYY-MM-DD` string names, or None (an Invalid Date) when the string is
   * not of that shape or names no real day.
   */
  function ParseIsoDate(s: string): (r: Option<Date>)
    ensures r.Some? ==> ValidDate(r.value) && 0 <= r.value.year <= 9999
    ensures r.Some? ==>
      IsoShaped(s)
      && r.value == Date(100 * TwoDigits(s[0], s[1]) + TwoDigits(s[2], s[3]),
                         TwoDigits(s[5], s[6]), TwoDigits(s[8], s[9]))
    ensures r.Some? <==> (IsoShaped(s)
      && ValidDate(Date(100 * TwoDigits(s[0], s[1]) + TwoDigits(s[2], s[3]),
                        TwoDigits(s[5], s[6]), TwoDigits(s[8], s[9]))))
  {
    if !IsoShaped(s) then None
    else
      var dt := Date(100 * TwoDigits(s[0], s[1]) + TwoDigits(s[2], s[3]),
                     TwoDigits(s[5], s[6]), TwoDigits(s[8], s[9]));
      if ValidDate(dt) then Some(dt) else None
  }

  /** A number below 100 as two decimal digits, zero-padded. */
  function Pad2(n: nat): (s: string)
    requires n < 100
    ensures |s| == 2 && IsDigit(s[0]) && IsDigit(s[1]) && TwoDigits(s[0], s[1]) == n
  {
    [DigitChar(n / 10), DigitChar(n % 10)]
  }

  lemma Pad2OfDigits(a: char, b: char)
    requires IsDigit(a) && IsDigit(b)
    ensures Pad2(TwoDigits(a, b)) == [a, b]
  {
    var n := TwoDigits(a, b);
    assert n / 10 == DigitValue(a) && n % 10 == DigitValue(b);
  }

  /** The `YYYY-MM-DD` text of a date with a four-digit year, as a date input holds it. */
  function IsoString(dt: Date): (s: string)
    requires ValidDate(dt) && 0 <= dt.year <= 9999
    ensures IsoShaped(s)
  {
    Pad2(dt.year / 100) + Pad2(dt.year % 100) + "-" + Pad2(dt.month) + "-" + Pad2(dt.day)
  }

  /** Every date with a four-digit year reads back from its ISO text. */
  lemma ParseIsoString(dt: Date)
    requires ValidDate(dt) && 0 <= dt.year <= 9999
    ensures ParseIsoDate(IsoString(dt)) == Some(dt)
  {
    var s := IsoString(dt);
    assert TwoDigits(s[0], s[1]) == dt.year / 100 && TwoDigits(s[2], s[3]) == dt.year % 100;
    assert TwoDigits(s[5], s[6]) == dt.month && TwoDigits(s[8], s[9]) == dt.day;
  }

  /** Every string that parses is the ISO text of the date it names. */
  lemma IsoStringOfParse(s: string)
    requires ParseIsoDate(s).Some?
    ensures IsoString(ParseIsoDate(s).value) == s
  {
    var dt := ParseIsoDate(s).value;
    var hi, lo := TwoDigits(s[0], s[1]), TwoDigits(s[2], s[3]);
    assert dt.year / 100 == hi && dt.year % 100 == lo;
    Pad2OfDigits(s[0], s[1]);
    Pad2OfDigits(s[2], s[3]);
    Pad2OfDigits(s[5], s[6]);
    Pad2OfDigits(s[8], s[9]);
    assert s == [s[0], s[1]] + [s[2], s[3]] + "-" + [s[5], s[6]] + "-" + [s[8], s[9]];
  }

  /** The date strings of the worked examples read as the days they name. */
  lemma ParseExamples()
    ensures ParseIsoDate("2025-01-10") == Some(Date(2025, 1, 10))
    ensures ParseIsoDate("2025-01-11") == Some(Date(2025, 1, 11))
    ensures ParseIsoDate("2025-02-29") == None
    ensures ParseIsoDate("2024-02-29") == Some(Date(2024, 2, 29))
    ensures ParseIsoDate("") == None
  {
  }
}
