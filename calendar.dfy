/** The dashboard calendar: the month grid (leading blank cells, then one
    cell per day with its events) and the month navigation state. */
module Calendar {
  import opened Wrappers
  import opened Text

  /** A calendar event. Its date is kept as the year, the 0-based
      month (as `getMonth` reports it) and the day of the month. */
  datatype CalendarEvent = CalendarEvent(id: nat, title: string, year: int, month: nat, day: nat, time: string, kind: string)

  /** The Gregorian leap-year rule. */
  predicate LeapYear(year: int)
  {
    (year % 4 == 0 && year % 100 != 0) || year % 400 == 0
  }

  /** The day of month of `new Date(year, month + 1, 0)`: the last day of
      the 0-based `month`. */
  function DaysInMonth(year: int, month: nat): (n: nat)
    requires month < 12
    ensures 28 <= n <= 31
    ensures n == 31 <==> month in {0, 2, 4, 6, 7, 9, 11}
    ensures n == 30 <==> month in {3, 5, 8, 10}
    ensures n == 29 <==> month == 1 && LeapYear(year)
    ensures n == 28 <==> month == 1 && !LeapYear(year)
  {
    if month == 1 then (if LeapYear(year) then 29 else 28)
    else if month in {3, 5, 8, 10} then 30
    else 31
  }

  /** The events on this day of this month, in their order; the
      year is not compared. */
  function EventsOn(events: seq<CalendarEvent>, month: nat, day: nat): (r: seq<CalendarEvent>)
    ensures IsSubsequence(r, events)
    ensures forall e :: e in r <==> e in events && e.month == month && e.day == day
    ensures forall e :: multiset(r)[e] == if e.month == month && e.day == day then multiset(events)[e] else 0
    decreases |events|
  {
    if events == [] then []
    else
      var rest := EventsOn(events[1..], month, day);
      assert forall e :: e in events <==> e == events[0] || e in events[1..];
      assert events == [events[0]] + events[1..];
      if events[0].month == month && events[0].day == day then [events[0]] + rest else rest
  }

  /** A grid cell: blank cells have no day and no `events` field. */
  datatype Cell = Cell(day: Option<nat>, isToday: bool, events: Option<seq<CalendarEvent>>)

  /** The cell before the first day of the month. */
  const Blank := Cell(None, false, None)

  /** The cell of day `d` when today is `todayDate`. */
  function DayCell(events: seq<CalendarEvent>, d: nat, todayDate: nat, month: nat): Cell
  {
    Cell(Some(d), d == todayDate, Some(EventsOn(events, month, d)))
  }

  /** The grid for a month whose first day falls on weekday `firstWeekday`
      (0 is Sunday): that many blanks, then the days 1..DaysInMonth in
      order. */
  ghost predicate IsMonthGrid(days: seq<Cell>, events: seq<CalendarEvent>, year: int, month: nat, todayDate: nat, firstWeekday: nat)
    requires month < 12
  {
    && |days| == firstWeekday + DaysInMonth(year, month)
    && (forall k :: 0 <= k < firstWeekday ==> days[k] == Blank)
    && (forall k :: firstWeekday <= k < |days| ==> days[k] == DayCell(events, k - firstWeekday + 1, todayDate, month))
  }

  /** `generateCalendarDays`: the date parts come in as parameters, and
      `events` is the event list whose entries it files under each day. */
  method GenerateCalendarDays(events: seq<CalendarEvent>, year: int, month: nat, todayDate: nat, firstWeekday: nat)
    returns (days: seq<Cell>)
    requires month < 12 && firstWeekday < 7
    ensures IsMonthGrid(days, events, year, month, todayDate, firstWeekday)
  {
    var daysInMonth := DaysInMonth(year, month);
    days := [];
    for i := 0 to firstWeekday
      invariant |days| == i
      invariant forall k :: 0 <= k < i ==> days[k] == Blank
    {
      days := days + [Cell(None, false, None)];
    }
    for i := 1 to daysInMonth + 1
      invariant |days| == firstWeekday + i - 1
      invariant forall k :: 0 <= k < firstWeekday ==> days[k] == Blank
      invariant forall k :: firstWeekday <= k < |days| ==> days[k] == DayCell(events, k - firstWeekday + 1, todayDate, month)
    {
      days := days + [Cell(Some(i), i == todayDate, Some(EventsOn(events, month, i)))];
    }
  }

  /** Day `d` sits at index `firstWeekday + d - 1`, and every cell at or
      after `firstWeekday` is a day cell. */
  lemma DayPosition(days: seq<Cell>, events: seq<CalendarEvent>, year: int, month: nat, todayDate: nat, firstWeekday: nat, d: nat)
    requires month < 12 && IsMonthGrid(days, events, year, month, todayDate, firstWeekday)
    requires 1 <= d <= DaysInMonth(year, month)
    ensures days[firstWeekday + d - 1].day == Some(d)
    ensures days[firstWeekday + d - 1].events == Some(EventsOn(events, month, d))
  {
    assert days[firstWeekday + d - 1] == DayCell(events, d, todayDate, month);
  }

  /** When today lies in the month, exactly one cell is marked today, and
      it is today's cell. */
  lemma {:induction false} TodayExactlyOnce(days: seq<Cell>, events: seq<CalendarEvent>, year: int, month: nat, todayDate: nat, firstWeekday: nat)
    requires month < 12 && IsMonthGrid(days, events, year, month, todayDate, firstWeekday)
    requires 1 <= todayDate <= DaysInMonth(year, month)
    ensures days[firstWeekday + todayDate - 1].isToday
    ensures forall k :: 0 <= k < |days| && days[k].isToday ==> k == firstWeekday + todayDate - 1
  {
    assert days[firstWeekday + todayDate - 1] == DayCell(events, todayDate, todayDate, month);
    forall k | 0 <= k < |days| && days[k].isToday ensures k == firstWeekday + todayDate - 1 {
      if k >= firstWeekday {
        assert days[k] == DayCell(events, k - firstWeekday + 1, todayDate, month);
      }
    }
  }

  // ---------------------------------------------------------------------
  // Month navigation

  /** `MONTH_NAMES`, indexed by the 0-based month. */
  const MonthNames: seq<string> := [
    "January", "February", "March", "April", "May", "June",
    "July", "August", "September", "October", "November", "December"
  ]

  /** `DAY_NAMES`, indexed by weekday from Sunday. */
  const DayNames: seq<string> := ["Sun", "Mon", "Tue", "Wed", "Thu", "Fri", "Sat"]

  /** A (month, year) state counted in months. */
  function MonthIndex(month: nat, year: int): int
  {
    year * 12 + month
  }

  /** The state after `goToNextMonth`. */
  function NextMonth(month: nat, year: int): (r: (nat, int))
    requires month < 12
    ensures r.0 < 12
    ensures MonthIndex(r.0, r.1) == MonthIndex(month, year) + 1
  {
    if month == 11 then (0, year + 1) else (month + 1, year)
  }

  /** The state after `goToPreviousMonth`. */
  function PreviousMonth(month: nat, year: int): (r: (nat, int))
    requires month < 12
    ensures r.0 < 12
    ensures MonthIndex(r.0, r.1) == MonthIndex(month, year) - 1
  {
    if month == 0 then (11, year - 1) else (month - 1, year)
  }

  /** A month index names one state with a month in 0..11. */
  lemma MonthIndexInjective(m1: nat, y1: int, m2: nat, y2: int)
    requires m1 < 12 && m2 < 12
    requires MonthIndex(m1, y1) == MonthIndex(m2, y2)
    ensures m1 == m2 && y1 == y2
  {
  }

  /** Next then previous, and previous then next, restore the state. */
  lemma NavigationInverse(month: nat, year: int)
    requires month < 12
    ensures var n := NextMonth(month, year); PreviousMonth(n.0, n.1) == (month, year)
    ensures var p := PreviousMonth(month, year); NextMonth(p.0, p.1) == (month, year)
  {
    var n := NextMonth(month, year);
    MonthIndexInjective(PreviousMonth(n.0, n.1).0, PreviousMonth(n.0, n.1).1, month, year);
    var p := PreviousMonth(month, year);
    MonthIndexInjective(NextMonth(p.0, p.1).0, NextMonth(p.0, p.1).1, month, year);
  }

  /** The calendar page's navigation state. */
  class CalendarView {
    var currentMonth: nat
    var currentYear: int

    ghost predicate Valid()
      reads this
    {
      currentMonth < 12
    }

    /** Starts at today's month and year. */
    constructor (month: nat, year: int)
      requires month < 12
      ensures Valid() && currentMonth == month && currentYear == year
    {
      currentMonth, currentYear := month, year;
    }

    /** `goToPreviousMonth`. */
    method GoToPreviousMonth()
      requires Valid()
      modifies this
      ensures Valid()
      ensures (currentMonth, currentYear) == PreviousMonth(old(currentMonth), old(currentYear))
    {
      if currentMonth == 0 {
        currentMonth := 11;
        currentYear := currentYear - 1;
      } else {
        currentMonth := currentMonth - 1;
      }
    }

    /** `goToNextMonth`. */
    method GoToNextMonth()
      requires Valid()
      modifies this
      ensures Valid()
      ensures (currentMonth, currentYear) == NextMonth(old(currentMonth), old(currentYear))
    {
      if currentMonth == 11 {
        currentMonth := 0;
        currentYear := currentYear + 1;
      } else {
        currentMonth := currentMonth + 1;
      }
    }

    /** The heading's month name, `MONTH_NAMES[currentMonth]`. */
    function MonthName(): (name: string)
      requires Valid()
      reads this
      ensures name in MonthNames
    {
      MonthNames[currentMonth]
    }
  }

  /** The name tables have one entry per month and per weekday, so every
      month reachable by navigation has a name. */
  lemma NameTablesCover(month: nat, year: int)
    requires month < 12
    ensures |MonthNames| == 12 && |DayNames| == 7
    ensures NextMonth(month, year).0 < |MonthNames| && PreviousMonth(month, year).0 < |MonthNames|
  {
  }
}
