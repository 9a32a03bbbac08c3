/**
 * Instants and calendar months. An instant is a whole number of
 * milliseconds since 1970-01-01T00:00 in one fixed time zone, on the
 * proleptic Gregorian calendar. `FirstOfMonth` is `new Date(year, monthIndex, 1)`
 * for years from 100 on, including JavaScript's normalisation of a month index
 * outside 0..11; JavaScript reads a year 0..99 as 1900 + year, the model does not.
 */
module Calendar {

  /** The day length every elapsed-days computation divides by (1000 * 60 * 60 * 24). */
  const MsPerDay: int := 86_400_000

  predicate IsLeapYear(y: int) {
    y % 4 == 0 && (y % 100 != 0 || y % 400 == 0)
  }

  /** Days in month `mi` (0 = January) of year y. */
  function DaysInMonth(y: int, mi: int): (n: int)
    requires 0 <= mi < 12
    ensures 28 <= n <= 31
  {
    if mi == 1 then (if IsLeapYear(y) then 29 else 28)
    else if mi == 3 || mi == 5 || mi == 8 || mi == 10 then 30
    else 31
  }

  /** Days of year y before the first of month `mi`. */
  function DaysBeforeMonth(y: int, mi: int): (n: int)
    requires 0 <= mi < 12
    ensures mi == 0 ==> n == 0
    ensures mi == 11 ==> n + DaysInMonth(y, mi) == (if IsLeapYear(y) then 366 else 365)
  {
    [0, 31, 59, 90, 120, 151, 181, 212, 243, 273, 304, 334][mi]
    + (if mi >= 2 && IsLeapYear(y) then 1 else 0)
  }

  lemma MonthStep(y: int, mi: int)
    requires 0 <= mi < 11
    ensures DaysBeforeMonth(y, mi + 1) == DaysBeforeMonth(y, mi) + DaysInMonth(y, mi)
  {
  }

  /** Days from 1970-01-01 to January 1st of year y, counted year by year
      forwards from 1970 or backwards before it. */
  function DaysBeforeYear(y: int): int
    decreases if y >= 1970 then y - 1970 else 1970 - y
  {
    if y == 1970 then 0
    else if y > 1970 then DaysBeforeYear(y - 1) + (if IsLeapYear(y - 1) then 366 else 365)
    else DaysBeforeYear(y + 1) - (if IsLeapYear(y) then 366 else 365)
  }

  /** Consecutive years start a year-length apart. */
  lemma YearLength(y: int)
    ensures DaysBeforeYear(y + 1) == DaysBeforeYear(y) + (if IsLeapYear(y) then 366 else 365)
  {
  }

  /** The day number (days since 1970-01-01) of the first of month `mi`,
      normalising an out-of-range month index into the neighbouring years. */
  function FirstDayOfMonth(y: int, mi: int): int {
    var year := y + mi / 12;
    DaysBeforeYear(year) + DaysBeforeMonth(year, mi % 12)
  }

  /** `new Date(y, mi, 1)` as an instant, for y outside 0..99. */
  function FirstOfMonth(y: int, mi: int): int {
    FirstDayOfMonth(y, mi) * MsPerDay
  }

  /** First instant of calendar month `month` (1 = January) of `year`. */
  function MonthStart(year: int, month: int): int {
    FirstOfMonth(year, month - 1)
  }

  /** First instant after the month: `new Date(year, month, 1)`, the first of
      the next month, December rolling over into January of year + 1. */
  function MonthEnd(year: int, month: int): int {
    FirstOfMonth(year, month)
  }

  /** The first days of consecutive months are a month-length apart. */
  lemma MonthDays(y: int, mi: int)
    ensures FirstDayOfMonth(y, mi + 1) - FirstDayOfMonth(y, mi) == DaysInMonth(y + mi / 12, mi % 12)
  {
    var year := y + mi / 12;
    if mi % 12 == 11 {
      assert (mi + 1) / 12 == mi / 12 + 1 && (mi + 1) % 12 == 0;
      YearLength(year);
    } else {
      assert (mi + 1) / 12 == mi / 12 && (mi + 1) % 12 == mi % 12 + 1;
      MonthStep(year, mi % 12);
    }
  }

  /** A month lasts between 28 and 31 whole days, so its end follows its start. */
  lemma MonthLength(year: int, month: int)
    ensures MonthStart(year, month) + 28 * MsPerDay <= MonthEnd(year, month)
    ensures MonthEnd(year, month) <= MonthStart(year, month) + 31 * MsPerDay
  {
    MonthDays(year, month - 1);
    var a := FirstDayOfMonth(year, month - 1);
    var b := FirstDayOfMonth(year, month);
    assert 28 <= b - a <= 31;
    assert MonthEnd(year, month) - MonthStart(year, month) == (b - a) * MsPerDay;
  }

  /** Midnight starting day `day` of month `month` (1-based) of `year`. */
  function DateInstant(year: int, month: int, day: int): int
    requires 1 <= month <= 12
  {
    (DaysBeforeYear(year) + DaysBeforeMonth(year, month - 1) + day - 1) * MsPerDay
  }

  /** `Math.floor((now - start) / (1000 * 60 * 60 * 24))`: whole days elapsed,
      rounded down, and negative when start is after now. */
  function ElapsedDays(start: int, now: int): (d: int)
    ensures d * MsPerDay <= now - start < (d + 1) * MsPerDay
    ensures start <= now ==> d >= 0
    ensures now < start ==> d < 0
  {
    (now - start) / MsPerDay
  }

  /** Whole days between two midnights are their difference in days. */
  lemma ElapsedDaysBetweenDates(start: int, days: int)
    ensures ElapsedDays(start, start + days * MsPerDay) == days
  {
  }

  lemma MonthStartIsFirstDay(year: int, month: int)
    requires 1 <= month <= 12
    ensures MonthStart(year, month) == DateInstant(year, month, 1)
  {
    assert (month - 1) / 12 == 0 && (month - 1) % 12 == month - 1;
  }
}
