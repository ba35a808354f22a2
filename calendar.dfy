/**
  The calendar facts behind the budget summary: Gregorian months with 0-based
  month numbers (the moment.js convention), stepping one day at a time, the
  ISO weekday, and the two day-counting loops of functions/index.js.
 */
module Calendar {

  /** A month number as moment.js reports it: 0 is January, 11 is December. */
  type Month = m: nat | m < 12

  /** A civil date in the proleptic Gregorian calendar; `day` is 1-based. */
  datatype Date = Date(year: int, month: Month, day: nat)

  predicate IsLeapYear(year: int) {
    year % 4 == 0 && (year % 100 != 0 || year % 400 == 0)
  }

  /** The Gregorian length of a month. */
  function DaysInMonth(year: int, month: Month): (n: nat)
    ensures 28 <= n <= 31
    ensures n == 29 <==> month == 1 && IsLeapYear(year)
    ensures n == 28 <==> month == 1 && !IsLeapYear(year)
    ensures n == 30 <==> month in {3, 5, 8, 10}
  {
    if month == 1 then (if IsLeapYear(year) then 29 else 28)
    else if month == 3 || month == 5 || month == 8 || month == 10 then 30
    else 31
  }

  predicate ValidDate(d: Date) {
    1 <= d.day <= DaysInMonth(d.year, d.month)
  }

  /** The day after `d`, as moment's `add(1, 'days')` computes it. */
  function NextDay(d: Date): (r: Date)
    requires ValidDate(d)
    ensures ValidDate(r)
  {
    if d.day < DaysInMonth(d.year, d.month) then Date(d.year, d.month, d.day + 1)
    else if d.month < 11 then Date(d.year, d.month + 1, 1)
    else Date(d.year + 1, 0, 1)
  }

  /** Days from 0000-01-01 to the first day of `year` (floor division, so any year works). */
  function DaysBeforeYear(year: int): int {
    365 * year + (year + 3) / 4 - (year + 99) / 100 + (year + 399) / 400
  }

  /** Days from the first of January to the first day of `month`. */
  function DaysBeforeMonth(year: int, month: Month): nat {
    [0, 31, 59, 90, 120, 151, 181, 212, 243, 273, 304, 334][month]
      + (if month >= 2 && IsLeapYear(year) then 1 else 0)
  }

  /** The number of days from 0000-01-01 to `d`: a serial day number. */
  function DayNumber(d: Date): int {
    DaysBeforeYear(d.year) + DaysBeforeMonth(d.year, d.month) + d.day - 1
  }

  /** moment's `isoWeekday()`: 1 is Monday, 7 is Sunday; 0000-01-01 was a Saturday. */
  function IsoWeekday(d: Date): (w: nat)
    ensures 1 <= w <= 7
  {
    (DayNumber(d) + 5) % 7 + 1
  }

  // Each divisor adds one to its leap-year count exactly when it divides the year.

  lemma FourStep(year: int)
    ensures (year + 4) / 4 - (year + 3) / 4 == if year % 4 == 0 then 1 else 0
  {
  }

  lemma CenturyStep(year: int)
    ensures (year + 100) / 100 - (year + 99) / 100 == if year % 100 == 0 then 1 else 0
  {
  }

  lemma FourCenturyStep(year: int)
    ensures (year + 400) / 400 - (year + 399) / 400 == if year % 400 == 0 then 1 else 0
  {
  }

  lemma CenturyDivisible(year: int)
    requires year % 100 == 0
    ensures year % 4 == 0
  {
  }

  lemma FourCenturyDivisible(year: int)
    requires year % 400 == 0
    ensures year % 100 == 0
  {
  }

  /** A year is 366 days long exactly when it is a leap year. */
  lemma YearLength(year: int)
    ensures DaysBeforeYear(year + 1) - DaysBeforeYear(year) == if IsLeapYear(year) then 366 else 365
  {
    FourStep(year);
    CenturyStep(year);
    FourCenturyStep(year);
    if year % 100 == 0 {
      CenturyDivisible(year);
    }
    if year % 400 == 0 {
      FourCenturyDivisible(year);
    }
    var fours := (year + 4) / 4 - (year + 3) / 4;
    var centuries := (year + 100) / 100 - (year + 99) / 100;
    var fourCenturies := (year + 400) / 400 - (year + 399) / 400;
    assert DaysBeforeYear(year + 1) - DaysBeforeYear(year) == 365 + fours - centuries + fourCenturies;
  }

  /** NextDay advances the serial day number by exactly one. */
  lemma NextDayIsOneDayLater(d: Date)
    requires ValidDate(d)
    ensures DayNumber(NextDay(d)) == DayNumber(d) + 1
  {
    if d.day == DaysInMonth(d.year, d.month) && d.month == 11 {
      YearLength(d.year);
    }
  }

  lemma WeekdayStep(n: int)
    ensures (n + 6) % 7 + 1 == ((n + 5) % 7 + 1) % 7 + 1
  {
  }

  /** So the ISO weekday cycles Monday .. Sunday as the days advance. */
  lemma NextDayWeekday(d: Date)
    requires ValidDate(d)
    ensures IsoWeekday(NextDay(d)) == IsoWeekday(d) % 7 + 1
  {
    NextDayIsOneDayLater(d);
    WeekdayStep(DayNumber(d));
  }

  /** NextDay leaves the month exactly when `d` is its last day, and then lands on the 1st. */
  lemma NextDayLeavesMonth(d: Date)
    requires ValidDate(d)
    ensures NextDay(d).month != d.month <==> d.day == DaysInMonth(d.year, d.month)
    ensures NextDay(d).month != d.month ==> NextDay(d).day == 1
  {
  }

  /** The days from `d`, inclusive, to the end of its month. */
  function DaysLeftInMonth(d: Date): (n: nat)
    requires ValidDate(d)
    ensures 1 <= n <= DaysInMonth(d.year, d.month)
  {
    DaysInMonth(d.year, d.month) - d.day + 1
  }

  /** Moving to the next day removes one day left, until the month rolls over and the count restarts. */
  lemma DaysLeftAdvance(d: Date)
    requires ValidDate(d)
    ensures NextDay(d).month == d.month ==> DaysLeftInMonth(NextDay(d)) == DaysLeftInMonth(d) - 1
    ensures NextDay(d).month != d.month ==>
      DaysLeftInMonth(d) == 1 && DaysLeftInMonth(NextDay(d)) == DaysInMonth(NextDay(d).year, NextDay(d).month)
  {
  }

  /**
    getWorkDays: walk from the 1st of the month until the month changes,
    incrementing the counter whenever `isoWeekday()` is truthy, which it
    always is. The count is the length of the month.
   */
  method GetWorkDays(year: int, month: Month) returns (workDays: nat)
    ensures workDays == DaysInMonth(year, month)
    ensures 28 <= workDays <= 31
  {
    var day := Date(year, month, 1);
    workDays := 0;
    while day.month == month
      invariant ValidDate(day)
      invariant day.month == month ==> day == Date(year, month, workDays + 1)
      invariant day.month != month ==> workDays == DaysInMonth(year, month)
      decreases if day.month == month then DaysInMonth(year, month) - day.day + 1 else 0
    {
      if IsoWeekday(day) != 0 {
        workDays := workDays + 1;
      }
      day := NextDay(day);
    }
  }

  /**
    getRemainingWorkDays: the same walk, starting at "today" (a parameter
    here instead of the wall clock in Asia/Jerusalem). It counts today and
    every later day of the month, so it is never zero.
   */
  method GetRemainingWorkDays(today: Date) returns (remainingDays: nat)
    requires ValidDate(today)
    ensures remainingDays == DaysLeftInMonth(today)
    ensures 1 <= remainingDays <= DaysInMonth(today.year, today.month)
  {
    var day := today;
    var month := day.month;
    remainingDays := 0;
    while day.month == month
      invariant ValidDate(day)
      invariant day.month == month ==>
        day == Date(today.year, month, today.day + remainingDays)
      invariant day.month != month ==> remainingDays == DaysLeftInMonth(today)
      decreases if day.month == month then DaysInMonth(today.year, month) - day.day + 1 else 0
    {
      if IsoWeekday(day) != 0 {
        remainingDays := remainingDays + 1;
      }
      day := NextDay(day);
    }
  }

  /** 2023-11-14 (month 10) was a Tuesday. */
  lemma KnownWeekday()
    ensures IsoWeekday(Date(2023, 10, 14)) == 2
    ensures IsoWeekday(Date(1970, 0, 1)) == 4
  {
  }
}
