/**
 * Calendar arithmetic as the ECMAScript Date algorithms define it
 * (DayFromYear, MakeDay, MakeDate), in UTC, enough to model
 * `d.setMonth(d.getMonth() + 1)`: the month is advanced, the year carries,
 * and a day of month the new month does not have overflows into the month
 * after it.
 */
module CivilDate {
  import opened Base

  predicate IsLeapYear(y: int) {
    y % 4 == 0 && (y % 100 != 0 || y % 400 == 0)
  }

  function DaysInYear(y: int): (n: int)
    ensures n == 365 || n == 366
    ensures n == 366 <==> IsLeapYear(y)
  {
    if IsLeapYear(y) then 366 else 365
  }

  /** Months are numbered 0 (January) to 11 (December), as in JavaScript. */
  function DaysInMonth(y: int, m: int): (n: int)
    requires 0 <= m < 12
    ensures 28 <= n <= 31
    ensures m == 1 ==> (n == 29 <==> IsLeapYear(y))
  {
    if m == 1 then (if IsLeapYear(y) then 29 else 28)
    else if m == 3 || m == 5 || m == 8 || m == 10 then 30
    else 31
  }

  function DaysBeforeMonth(y: int, m: int): (n: int)
    requires 0 <= m < 12
    ensures 0 <= n <= 335
  {
    [0, 31, 59, 90, 120, 151, 181, 212, 243, 273, 304, 334][m]
      + (if m >= 2 && IsLeapYear(y) then 1 else 0)
  }

  /** Day number of 1 January of year `y`, counted from 1 January 1970. */
  function DayFromYear(y: int): int {
    365 * (y - 1970) + (y - 1969) / 4 - (y - 1901) / 100 + (y - 1601) / 400
  }

  /** A broken-down instant: year, month 0..11, day of month, and milliseconds into the day. */
  datatype DateTime = DateTime(year: int, month: int, date: int, msOfDay: int)

  predicate Valid(d: DateTime) {
    && 0 <= d.month < 12
    && 1 <= d.date <= DaysInMonth(d.year, d.month)
    && 0 <= d.msOfDay < DAY_MS
  }

  type Instant = d: DateTime | Valid(d) witness DateTime(1970, 0, 1, 0)

  /** Days since 1 January 1970 (MakeDay). */
  function DayNumber(d: Instant): int {
    DayFromYear(d.year) + DaysBeforeMonth(d.year, d.month) + d.date - 1
  }

  /** Milliseconds since the epoch (MakeDate of the day and the time within the day). */
  function TimeValue(d: Instant): int {
    DayNumber(d) * DAY_MS + d.msOfDay
  }

  /** The month after (y, m), carrying into the next year after December. */
  function FollowingMonth(y: int, m: int): (r: (int, int))
    requires 0 <= m < 12
    ensures 0 <= r.1 < 12
    ensures r == (if m == 11 then (y + 1, 0) else (y, m + 1))
  {
    if m == 11 then (y + 1, 0) else (y, m + 1)
  }

  /** `setMonth(getMonth() + 1)`: same day of month and time of day in the
      following month; a day the following month lacks rolls into the month
      after that (31 January becomes 3 March, or 2 March in a leap year). */
  function AddOneMonth(d: Instant): (r: Instant)
    ensures r.msOfDay == d.msOfDay
    ensures d.date <= DaysInMonth(FollowingMonth(d.year, d.month).0, FollowingMonth(d.year, d.month).1)
      ==> (r.year, r.month) == FollowingMonth(d.year, d.month) && r.date == d.date
  {
    var (y1, m1) := FollowingMonth(d.year, d.month);
    if d.date <= DaysInMonth(y1, m1) then
      DateTime(y1, m1, d.date, d.msOfDay)
    else
      var (y2, m2) := FollowingMonth(y1, m1);
      DateTime(y2, m2, d.date - DaysInMonth(y1, m1), d.msOfDay)
  }

  /** From year `y` to `y + 1`, each of the three leap-year corrections of
      `DayFromYear` moves by one exactly when `y` is a multiple of its period. */
  lemma {:induction false} LeapCorrectionsStep(y: int)
    ensures (y + 1 - 1969) / 4 == (y - 1969) / 4 + (if y % 4 == 0 then 1 else 0)
    ensures (y + 1 - 1901) / 100 == (y - 1901) / 100 + (if y % 100 == 0 then 1 else 0)
    ensures (y + 1 - 1601) / 400 == (y - 1601) / 400 + (if y % 400 == 0 then 1 else 0)
  {
    var a, b, c := y - 1969, y - 1901, y - 1601;
    assert a == 4 * (a / 4) + a % 4;
    assert b == 100 * (b / 100) + b % 100;
    assert c == 400 * (c / 400) + c % 400;
  }

  /** A multiple of 400 is a multiple of 100, which is a multiple of 4. */
  lemma {:induction false} PeriodsNest(y: int)
    ensures y % 400 == 0 ==> y % 100 == 0
    ensures y % 100 == 0 ==> y % 4 == 0
  {
    if y % 400 == 0 {
      var k := y / 400;
      assert y == 400 * k;
      assert y / 100 == 4 * k;
    }
    if y % 100 == 0 {
      var k := y / 100;
      assert y == 100 * k;
      assert y / 4 == 25 * k;
    }
  }

  lemma {:induction false} DayFromYearNext(y: int)
    ensures DayFromYear(y + 1) == DayFromYear(y) + DaysInYear(y)
  {
    LeapCorrectionsStep(y);
    PeriodsNest(y);
    var dy := (y + 1 - 1969) / 4 - (y - 1969) / 4 - ((y + 1 - 1901) / 100 - (y - 1901) / 100)
      + ((y + 1 - 1601) / 400 - (y - 1601) / 400);
    assert dy == if IsLeapYear(y) then 1 else 0;
  }

  /** Day number of the first day of month (y, m) since the epoch. */
  function MonthStart(y: int, m: int): int
    requires 0 <= m < 12
  {
    DayFromYear(y) + DaysBeforeMonth(y, m)
  }

  lemma {:induction false} MonthStartNext(y: int, m: int)
    requires 0 <= m < 12
    ensures MonthStart(FollowingMonth(y, m).0, FollowingMonth(y, m).1) == MonthStart(y, m) + DaysInMonth(y, m)
  {
    if m == 11 {
      DayFromYearNext(y);
    }
  }

  lemma {:induction false} AddOneMonthDays(d: Instant)
    ensures DayNumber(AddOneMonth(d)) == DayNumber(d) + DaysInMonth(d.year, d.month)
  {
    var (y1, m1) := FollowingMonth(d.year, d.month);
    MonthStartNext(d.year, d.month);
    if d.date > DaysInMonth(y1, m1) {
      MonthStartNext(y1, m1);
    }
  }

  /** The shift `setMonth(getMonth() + 1)` applies is exactly the length of
      the starting month, so the result is strictly later and at most 31
      days later. */
  lemma {:induction false} AddOneMonthShift(d: Instant)
    ensures TimeValue(AddOneMonth(d)) == TimeValue(d) + DaysInMonth(d.year, d.month) * DAY_MS
    ensures TimeValue(d) + 28 * DAY_MS <= TimeValue(AddOneMonth(d)) <= TimeValue(d) + 31 * DAY_MS
  {
    AddOneMonthDays(d);
    assert DAY_MS == 86400000;
  }

  /** 31 January 2024 (a leap year) becomes 2 March 2024. */
  lemma {:induction false} JanuaryThirtyFirstOverflows()
    ensures AddOneMonth(DateTime(2024, 0, 31, 0)) == DateTime(2024, 2, 2, 0)
  {
  }
}
