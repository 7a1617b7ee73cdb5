/** Concrete scenarios of the constraint engine, and the two calendar
    quirks of its `yyyy-ww` bucket key, as consequences of the rule-by-rule
    characterisation. */
module Scenarios {
  import opened Seqs
  import opened Calendar
  import opened Types
  import opened ConstraintEngine
  import opened ConstraintProperties

  function Clock(hour: int, minute: int): TimeOfDay {
    TimeOfDay(Some(hour), Some(minute))
  }

  // ---------------------------------------------------------------------
  // The week key is not an ISO week
  // ---------------------------------------------------------------------

  lemma Years()
    ensures YearStart(2024) == 19723
    ensures YearStart(2025) == 20089
    ensures YearStart(2026) == 20454
  {
    assert LeapYearsBefore(2024) == 490;
    assert LeapYearsBefore(2025) == 491;
    assert LeapYearsBefore(2026) == 491;
    assert LeapYearsBefore(1970) == 477;
  }

  /** Week 1 of 2024 starts on Sunday 2023-12-31, week 1 of 2025 on Sunday
      2024-12-29. */
  lemma FirstWeeks()
    ensures FirstWeekStart(2024) == 19722
    ensures FirstWeekStart(2025) == 20086
    ensures FirstWeekStart(2026) == 20450
  {
    Years();
  }

  /** 2024-12-30 lies in the week that starts on 2024-12-29, which contains
      2025-01-01 and so is week 1; printed with the calendar year it becomes
      2024-01, the key of the first days of January 2024, almost a year
      earlier. */
  lemma LateDecemberJoinsJanuary()
    ensures WeekKeyOf(CalendarDate(2024, 12, 30)) == WeekKeyOf(CalendarDate(2024, 1, 2)) == WeekKey(2024, 1)
    ensures WeekStart(DayNumber(CalendarDate(2024, 12, 30))) != WeekStart(DayNumber(CalendarDate(2024, 1, 2)))
  {
    Years();
    FirstWeeks();
    assert DayNumber(CalendarDate(2024, 12, 30)) == 20087;
    assert DayNumber(CalendarDate(2024, 1, 2)) == 19724;
  }

  /** The Sunday-to-Saturday week of New Year 2025 is split over two
      buckets, because the key carries the calendar year. */
  lemma NewYearWeekSplit()
    ensures WeekStart(DayNumber(CalendarDate(2024, 12, 31))) == WeekStart(DayNumber(CalendarDate(2025, 1, 1)))
    ensures WeekKeyOf(CalendarDate(2024, 12, 31)) != WeekKeyOf(CalendarDate(2025, 1, 1))
  {
    Years();
    assert DayNumber(CalendarDate(2025, 1, 1)) == 20089;
    assert DayNumber(CalendarDate(2024, 12, 31)) == 20088;
  }

  /** 2024-01-01 was a Monday. */
  lemma FirstWeekdays()
    ensures Weekday(CalendarDate(2024, 1, 1)) == 1
    ensures Weekday(CalendarDate(2024, 1, 2)) == 2
    ensures Weekday(CalendarDate(2024, 1, 3)) == 3
    ensures Weekday(CalendarDate(2024, 1, 6)) == 6
  {
    Years();
    assert DayNumber(CalendarDate(2024, 1, 1)) == 19723;
  }

  // ---------------------------------------------------------------------
  // Vincent evenings
  // ---------------------------------------------------------------------

  /** A bucket that holds the whole input. */
  lemma OneWeek(ts: seq<Task>, x: Task)
    requires x in ts
    requires forall i :: 0 <= i < |ts| ==> KeyOf(ts[i]) == KeyOf(ts[0])
    ensures WeekOf(ts, x) == ts
  {
    FilterAll(ts, InWeekOf(KeyOf(x)));
  }

  lemma AllVincentLateAt(ts: seq<Task>, x: Task)
    requires |ts| > VincentEveningLimit
    requires forall i :: 0 <= i < |ts| ==> IsVincentLate(ts[i])
    requires forall i :: 0 <= i < |ts| ==> KeyOf(ts[i]) == KeyOf(ts[0])
    ensures multiset(Subjects(Warnings(ts), VincentEvenings))[x] == multiset(ts)[x]
  {
    VincentEveningsExactly(ts, x);
    if x in ts {
      OneWeek(ts, x);
      FilterAll(ts, IsVincentLate);
    }
  }

  /** When all tasks are late Vincent tasks in one week and there are more
      than five, each one gets a `vincent-evenings` warning. */
  lemma AllVincentLate(ts: seq<Task>)
    requires |ts| > VincentEveningLimit
    requires forall i :: 0 <= i < |ts| ==> IsVincentLate(ts[i])
    requires forall i :: 0 <= i < |ts| ==> KeyOf(ts[i]) == KeyOf(ts[0])
    ensures multiset(Subjects(Warnings(ts), VincentEvenings)) == multiset(ts)
  {
    forall x
      ensures multiset(Subjects(Warnings(ts), VincentEvenings))[x] == multiset(ts)[x]
    {
      AllVincentLateAt(ts, x);
    }
    SameCounts(Subjects(Warnings(ts), VincentEvenings), ts);
  }

  /** Six late Vincent tasks in one week: each gets one `vincent-evenings`
      warning. */
  lemma ScenarioSixVincentEvenings(ts: seq<Task>)
    requires |ts| == 6
    requires forall i :: 0 <= i < |ts| ==> IsVincentLate(ts[i])
    requires forall i :: 0 <= i < |ts| ==> KeyOf(ts[i]) == KeyOf(ts[0])
    ensures multiset(Subjects(Warnings(ts), VincentEvenings)) == multiset(ts)
    ensures |Subjects(Warnings(ts), VincentEvenings)| == 6
  {
    AllVincentLate(ts);
    assert |multiset(Subjects(Warnings(ts), VincentEvenings))| == |multiset(ts)|;
  }

  /** Five tasks can never trigger `vincent-evenings`, whatever they are. */
  lemma ScenarioFiveVincentEvenings(ts: seq<Task>)
    requires |ts| == 5
    ensures Subjects(Warnings(ts), VincentEvenings) == []
  {
    forall x
      ensures multiset(Subjects(Warnings(ts), VincentEvenings))[x] == 0
    {
      FiveAt(ts, x);
    }
    NoCounts(Subjects(Warnings(ts), VincentEvenings));
  }

  lemma FiveAt(ts: seq<Task>, x: Task)
    requires |ts| == 5
    ensures multiset(Subjects(Warnings(ts), VincentEvenings))[x] == 0
  {
    VincentEveningsExactly(ts, x);
  }

  // ---------------------------------------------------------------------
  // Jannes hours
  // ---------------------------------------------------------------------

  lemma SixteenHoursTotal(ts: seq<Task>)
    requires |ts| == 3
    requires ts[0].start == Clock(9, 0) && ts[0].end == Clock(17, 0)
    requires ts[1].start == Clock(9, 0) && ts[1].end == Clock(13, 0)
    requires ts[2].start == Clock(14, 0) && ts[2].end == Clock(18, 0)
    ensures TotalMinutes(ts) == Some(960)
  {
    assert ts[1..][1..] == [ts[2]];
    assert TotalMinutes([ts[2]]) == Some(240);
  }

  lemma SixteenDigits()
    ensures NatToString(16) == "16"
  {
    assert NatToString(1) == "1";
    assert NatToString(16) == NatToString(1) + "6";
  }

  /** 960 minutes are reported as "16.0" hours. */
  lemma SixteenHoursText()
    ensures HoursText(960) == "16.0"
  {
    SixteenDigits();
    assert NatToString(0) == "0";
  }

  lemma SixteenHoursMessage()
    ensures JannesHoursMessage(960) == "Jannes is scheduled for 16.0 hours this week (>15 hour limit)"
  {
    SixteenHoursText();
  }

  lemma AllJannesOverLimitAt(ts: seq<Task>, x: Task)
    requires forall i :: 0 <= i < |ts| ==> IsJannes(ts[i])
    requires forall i :: 0 <= i < |ts| ==> KeyOf(ts[i]) == KeyOf(ts[0])
    requires OverJannesLimit(TotalMinutes(ts))
    ensures multiset(Subjects(Warnings(ts), JannesHours))[x] == multiset(ts)[x]
  {
    JannesHoursExactly(ts, x);
    if x in ts {
      OneWeek(ts, x);
      FilterAll(ts, IsJannes);
    }
  }

  /** When all tasks are Jannes's, in one week, and exceed 15 hours, each
      one gets a `jannes-hours` warning. */
  lemma AllJannesOverLimit(ts: seq<Task>)
    requires forall i :: 0 <= i < |ts| ==> IsJannes(ts[i])
    requires forall i :: 0 <= i < |ts| ==> KeyOf(ts[i]) == KeyOf(ts[0])
    requires OverJannesLimit(TotalMinutes(ts))
    ensures multiset(Subjects(Warnings(ts), JannesHours)) == multiset(ts)
    ensures |Subjects(Warnings(ts), JannesHours)| == |ts|
  {
    forall x
      ensures multiset(Subjects(Warnings(ts), JannesHours))[x] == multiset(ts)[x]
    {
      AllJannesOverLimitAt(ts, x);
    }
    SameCounts(Subjects(Warnings(ts), JannesHours), ts);
    assert |multiset(Subjects(Warnings(ts), JannesHours))| == |multiset(ts)|;
  }

  /** Jannes works 09:00-17:00, 09:00-13:00 and 14:00-18:00 in one week:
      16 hours, so each of the three tasks is warned about. */
  lemma ScenarioJannesSixteenHours(ts: seq<Task>)
    requires |ts| == 3
    requires forall i :: 0 <= i < |ts| ==> IsJannes(ts[i])
    requires forall i :: 0 <= i < |ts| ==> KeyOf(ts[i]) == KeyOf(ts[0])
    requires ts[0].start == Clock(9, 0) && ts[0].end == Clock(17, 0)
    requires ts[1].start == Clock(9, 0) && ts[1].end == Clock(13, 0)
    requires ts[2].start == Clock(14, 0) && ts[2].end == Clock(18, 0)
    ensures multiset(Subjects(Warnings(ts), JannesHours)) == multiset(ts)
    ensures |Subjects(Warnings(ts), JannesHours)| == 3
  {
    SixteenHoursTotal(ts);
    AllJannesOverLimit(ts);
  }

  /** ... and every one of those warnings reports "16.0 hours". */
  lemma ScenarioJannesSixteenHoursMessage(ts: seq<Task>, w: ConstraintWarning)
    requires |ts| == 3
    requires forall i :: 0 <= i < |ts| ==> IsJannes(ts[i])
    requires forall i :: 0 <= i < |ts| ==> KeyOf(ts[i]) == KeyOf(ts[0])
    requires ts[0].start == Clock(9, 0) && ts[0].end == Clock(17, 0)
    requires ts[1].start == Clock(9, 0) && ts[1].end == Clock(13, 0)
    requires ts[2].start == Clock(14, 0) && ts[2].end == Clock(18, 0)
    requires w in Warnings(ts) && w.kind == JannesHours
    ensures w.message == "Jannes is scheduled for 16.0 hours this week (>15 hour limit)"
  {
    SixteenHoursTotal(ts);
    SixteenHoursMessage();
    FilterAll(ts, IsJannes);
    WarningJustified(ts, w);
    OneWeek(ts, w.task);
  }

  // ---------------------------------------------------------------------
  // Physical BD and late evenings
  // ---------------------------------------------------------------------

  /** A physical-BD task on Monday 2024-01-01 is warned about; moved to
      Wednesday 2024-01-03 it is not. */
  lemma ScenarioPhysicalBdMonday(t: Task)
    requires PhysicalBD in t.tags
    ensures t.date == CalendarDate(2024, 1, 1) ==> Subjects(Warnings([t]), PhysicalBdDays) == [t]
    ensures t.date == CalendarDate(2024, 1, 3) ==> Subjects(Warnings([t]), PhysicalBdDays) == []
  {
    PhysicalBdExactly([t]);
    assert Filter([t], IsMisplacedBd) == (if IsMisplacedBd(t) then [t] else []);
    FirstWeekdays();
  }

  /** A Jannes task ending 21:30 on Tuesday 2024-01-02 gets a late-evening
      warning; on Saturday 2024-01-06 it gets none. */
  lemma ScenarioJannesLateTuesday(t: Task)
    requires t.assignee == Jannes && t.end == Clock(21, 30)
    ensures t.date == CalendarDate(2024, 1, 2) ==> multiset(Subjects(Warnings([t]), JannesLateEvenings))[t] == 1
    ensures t.date == CalendarDate(2024, 1, 6) ==> multiset(Subjects(Warnings([t]), JannesLateEvenings))[t] == 0
  {
    JannesLateExactly([t], t);
    FirstWeekdays();
  }
}
