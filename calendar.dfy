/** Plain calendar arithmetic standing in for date-fns: a `yyyy-MM-dd` string
    parsed by `parseISO` becomes a valid (year, month, day) triple, `getDay()`
    is computed from a day count, and the bucket key `format(date, 'yyyy-ww')`
    is computed with the default en-US week rules (weeks start on Sunday and
    week 1 is the week that contains January 1). */
module Calendar {

  datatype CalendarDate = CalendarDate(year: int, month: int, day: int)

  predicate IsLeapYear(y: int) {
    y % 4 == 0 && (y % 100 != 0 || y % 400 == 0)
  }

  function DaysInYear(y: int): int {
    if IsLeapYear(y) then 366 else 365
  }

  function DaysInMonth(year: int, month: int): (n: int)
    ensures 28 <= n <= 31
  {
    if month == 2 then (if IsLeapYear(year) then 29 else 28)
    else if month == 4 || month == 6 || month == 9 || month == 11 then 30
    else 31
  }

  /** A real day of the proleptic Gregorian calendar. */
  predicate InCalendar(d: CalendarDate) {
    1 <= d.month <= 12 && 1 <= d.day <= DaysInMonth(d.year, d.month)
  }

  /** The years a four-digit `yyyy-MM-dd` text can name. Outside them
      date-fns prints `yyyy` as an era year (1 - y for y <= 0). */
  const MinYear := 1
  const MaxYear := 9999

  predicate ValidDate(d: CalendarDate) {
    MinYear <= d.year <= MaxYear && InCalendar(d)
  }

  /** A date as the system stores it: a real calendar date with a
      four-digit year. */
  type Date = d: CalendarDate | ValidDate(d) witness CalendarDate(1970, 1, 1)

  /** Leap years among the years before `y` (counted from a fixed origin;
      only differences matter). */
  function LeapYearsBefore(y: int): int {
    (y - 1) / 4 - (y - 1) / 100 + (y - 1) / 400
  }

  /** Day number of January 1 of year `y`, counted from 1970-01-01. */
  function YearStart(y: int): int {
    365 * (y - 1970) + LeapYearsBefore(y) - LeapYearsBefore(1970)
  }

  /** Days of year `y` that come before the first of `month`. */
  function DaysBeforeMonth(y: int, month: int): int {
    var common :=
      if month <= 1 then 0 else if month == 2 then 31 else if month == 3 then 59
      else if month == 4 then 90 else if month == 5 then 120 else if month == 6 then 151
      else if month == 7 then 181 else if month == 8 then 212 else if month == 9 then 243
      else if month == 10 then 273 else if month == 11 then 304 else 334;
    common + (if month > 2 && IsLeapYear(y) then 1 else 0)
  }

  /** Days since 1970-01-01 in the proleptic Gregorian calendar (negative
      before it). */
  function DayNumber(d: CalendarDate): int {
    YearStart(d.year) + DaysBeforeMonth(d.year, d.month) + d.day - 1
  }

  /** The weekday of day number `n`, numbered as `Date.getDay()`:
      0 is Sunday, 1 Monday, ..., 6 Saturday (1970-01-01 was a Thursday). */
  function WeekdayOfDayNumber(n: int): (w: int)
    ensures 0 <= w < 7
  {
    (n + 4) % 7
  }

  function Weekday(d: Date): (w: int)
    ensures 0 <= w < 7
  {
    WeekdayOfDayNumber(DayNumber(d))
  }

  /** The day after `d` (for 9999-12-31 a day past the four-digit years). */
  function NextDay(d: Date): (e: CalendarDate)
    ensures InCalendar(e)
  {
    if d.day < DaysInMonth(d.year, d.month) then CalendarDate(d.year, d.month, d.day + 1)
    else if d.month < 12 then CalendarDate(d.year, d.month + 1, 1)
    else CalendarDate(d.year + 1, 1, 1)
  }

  /** Consecutive integers have quotients by 4, 100 and 400 that differ
      exactly at the multiples. */
  lemma QuotientSteps(y: int)
    ensures y / 4 - (y - 1) / 4 == if y % 4 == 0 then 1 else 0
    ensures y / 100 - (y - 1) / 100 == if y % 100 == 0 then 1 else 0
    ensures y / 400 - (y - 1) / 400 == if y % 400 == 0 then 1 else 0
  {
  }

  lemma YearStartStep(y: int)
    ensures YearStart(y + 1) == YearStart(y) + DaysInYear(y)
  {
    QuotientSteps(y);
    assert y % 400 == 0 ==> y % 100 == 0;
    assert y % 100 == 0 ==> y % 4 == 0;
  }

  /** Day numbers count days: the next day has the next day number, so the
      weekday advances by one, Saturday being followed by Sunday. */
  lemma NextDayNumber(d: Date)
    ensures DayNumber(NextDay(d)) == DayNumber(d) + 1
    ensures WeekdayOfDayNumber(DayNumber(NextDay(d))) == (Weekday(d) + 1) % 7
  {
    if d.day < DaysInMonth(d.year, d.month) {
    } else if d.month < 12 {
      assert DaysBeforeMonth(d.year, d.month + 1) == DaysBeforeMonth(d.year, d.month) + DaysInMonth(d.year, d.month);
    } else {
      YearStartStep(d.year);
    }
    WeekdayStep(DayNumber(d));
  }

  lemma WeekdayStep(n: int)
    ensures WeekdayOfDayNumber(n + 1) == (WeekdayOfDayNumber(n) + 1) % 7
  {
  }

  /** A date lies in its own calendar year: its day number is at least that
      of January 1 and below that of the next January 1. */
  lemma DayNumberInYear(d: Date)
    ensures YearStart(d.year) <= DayNumber(d) < YearStart(d.year) + DaysInYear(d.year)
  {
  }

  /** The Sunday on or before day number `n`, as date-fns `startOfWeek`. */
  function WeekStart(n: int): (s: int)
    ensures s <= n < s + 7
    ensures WeekdayOfDayNumber(s) == 0
  {
    n - WeekdayOfDayNumber(n)
  }

  lemma WeekStartMonotone(m: int, n: int)
    requires m <= n
    ensures WeekStart(m) <= WeekStart(n)
  {
    assert WeekStart(m) == 7 * ((m + 4) / 7) - 4;
    assert WeekStart(n) == 7 * ((n + 4) / 7) - 4;
  }

  /** Two week starts are a whole number of weeks apart. */
  lemma WeekStartsApart(m: int, n: int)
    ensures (WeekStart(n) - WeekStart(m)) % 7 == 0
  {
    assert WeekStart(m) == 7 * ((m + 4) / 7) - 4;
    assert WeekStart(n) == 7 * ((n + 4) / 7) - 4;
  }

  /** The bucket key of the constraint engine: the CALENDAR year (`yyyy`)
      paired with the en-US week-of-year (`ww`). */
  datatype WeekKey = WeekKey(year: int, week: int)

  /** First day of the week that date-fns numbers week 1 of year `y`. */
  function FirstWeekStart(y: int): int {
    WeekStart(YearStart(y))
  }

  /** `format(d, 'yyyy-ww')`. The week-numbering year of `d` is the following
      year once `d` reaches that year's first week (only possible in late
      December); the week number counts weeks from the first week of the
      week-numbering year, but the year printed is `d`'s calendar year. */
  function WeekKeyOf(d: Date): (k: WeekKey)
    ensures k.year == d.year
    ensures 1 <= k.week <= 53
  {
    DayNumberInYear(d);
    YearStartStep(d.year);
    KeyForDay(d.year, DayNumber(d))
  }

  /** The key of day number `n` of calendar year `y`. */
  function KeyForDay(y: int, n: int): (k: WeekKey)
    requires YearStart(y) <= n < YearStart(y + 1)
    ensures k.year == y
    ensures 1 <= k.week <= 53
  {
    var next := FirstWeekStart(y + 1);
    if n >= next then WeekKey(y, 1)
    else
      var s := WeekStart(n);
      var s0 := FirstWeekStart(y);
      WeekStartMonotone(YearStart(y), n);
      WeekStartsApart(YearStart(y), n);
      WeekStartsApart(n, YearStart(y + 1));
      YearStartStep(y);
      WeekKey(y, (s - s0) / 7 + 1)
  }

  /** Dates of one calendar year that share a Sunday-to-Saturday week share a
      bucket key. */
  lemma SameWeekSameKey(d1: Date, d2: Date)
    requires d1.year == d2.year
    requires WeekStart(DayNumber(d1)) == WeekStart(DayNumber(d2))
    ensures WeekKeyOf(d1) == WeekKeyOf(d2)
  {
    DayNumberInYear(d1);
    DayNumberInYear(d2);
    YearStartStep(d1.year);
    SameWeekSameKeyForDays(d1.year, DayNumber(d1), DayNumber(d2));
  }

  lemma SameWeekSameKeyForDays(y: int, n1: int, n2: int)
    requires YearStart(y) <= n1 < YearStart(y + 1)
    requires YearStart(y) <= n2 < YearStart(y + 1)
    requires WeekStart(n1) == WeekStart(n2)
    ensures KeyForDay(y, n1) == KeyForDay(y, n2)
  {
    var next := FirstWeekStart(y + 1);
    assert WeekStart(next) == next;
    if n1 >= next {
      WeekStartMonotone(next, n1);
    }
    if n2 >= next {
      WeekStartMonotone(next, n2);
    }
  }

  /** The converse, away from the late-December wrap: two days of one
      calendar year before the first week of the next year share a key only
      when they share a Sunday-to-Saturday week. */
  lemma SameKeySameWeekForDays(y: int, n1: int, n2: int)
    requires YearStart(y) <= n1 < FirstWeekStart(y + 1)
    requires YearStart(y) <= n2 < FirstWeekStart(y + 1)
    requires KeyForDay(y, n1) == KeyForDay(y, n2)
    ensures WeekStart(n1) == WeekStart(n2)
  {
    WeekStartsApart(YearStart(y), n1);
    WeekStartsApart(YearStart(y), n2);
    WeekStartMonotone(YearStart(y), n1);
    WeekStartMonotone(YearStart(y), n2);
  }

  lemma SameKeySameWeek(d1: Date, d2: Date)
    requires d1.year == d2.year
    requires DayNumber(d1) < FirstWeekStart(d1.year + 1) && DayNumber(d2) < FirstWeekStart(d1.year + 1)
    requires WeekKeyOf(d1) == WeekKeyOf(d2)
    ensures WeekStart(DayNumber(d1)) == WeekStart(DayNumber(d2))
  {
    DayNumberInYear(d1);
    DayNumberInYear(d2);
    YearStartStep(d1.year);
    SameKeySameWeekForDays(d1.year, DayNumber(d1), DayNumber(d2));
  }
}
