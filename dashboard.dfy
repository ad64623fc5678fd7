/**
 * The dashboard's calendar and recent-tests table. A calendar date is a day number counted from
 * 1 January 1970 (a Thursday), so that `getDay` is the day number plus four, modulo seven, and
 * `setDate` with an out-of-range day of the month is plain addition of days.
 */
module Dashboard {

  /** `date.getDay()`: 0 for Sunday, 1 for Monday, ..., 6 for Saturday. */
  function DayOfWeek(day: int): (dow: nat)
    ensures dow < 7
  {
    (day + 4) % 7
  }

  /** Weekdays repeat every seven days, backwards as well as forwards. */
  lemma WeekdayRepeats(day: int, weeks: int)
    ensures DayOfWeek(day + weeks * 7) == DayOfWeek(day)
  {
    assert (day + weeks * 7 + 4) % 7 == (day + 4) % 7;
  }

  /** How many days the week's Monday lies before a day of the given weekday (Sunday counts as 6). */
  function DaysFromMonday(dow: nat): (n: nat)
    requires dow < 7
    ensures n < 7
    ensures (n + 1) % 7 == dow
  {
    if dow == 0 then 6 else dow - 1
  }

  /** The Monday of the week `weekOffset` weeks after the week that holds `today`. */
  function WeekStart(today: int, weekOffset: int): int {
    today - DaysFromMonday(DayOfWeek(today)) + weekOffset * 7
  }

  /** `getWeekDates`: the seven days, Monday first, of the week `weekOffset` weeks from today's. */
  method GetWeekDates(today: int, weekOffset: int) returns (weekDates: seq<int>)
    ensures |weekDates| == 7
    ensures forall i :: 0 <= i < 7 ==> weekDates[i] == WeekStart(today, weekOffset) + i
    ensures forall i :: 0 <= i < 7 ==> DayOfWeek(weekDates[i]) == (i + 1) % 7
  {
    var monday := today - DaysFromMonday(DayOfWeek(today)) + weekOffset * 7;
    MondayIsMonday(today, weekOffset);
    weekDates := [];
    for i := 0 to 7
      invariant |weekDates| == i
      invariant forall j :: 0 <= j < i ==> weekDates[j] == monday + j
      invariant forall j :: 0 <= j < i ==> DayOfWeek(weekDates[j]) == (j + 1) % 7
    {
      var date := monday + i;
      DayOfWeekAfter(monday, i);
      weekDates := weekDates + [date];
    }
  }

  /** Counting `i` days on from a Monday lands on weekday `(i + 1) % 7`. */
  lemma DayOfWeekAfter(monday: int, i: nat)
    requires DayOfWeek(monday) == 1
    ensures DayOfWeek(monday + i) == (i + 1) % 7
  {
    assert (monday + i + 4) % 7 == ((monday + 4) % 7 + i) % 7;
  }

  /** Every week the calendar shows starts on a Monday. */
  lemma MondayIsMonday(today: int, weekOffset: int)
    ensures DayOfWeek(WeekStart(today, weekOffset)) == 1
  {
    var n := DaysFromMonday(DayOfWeek(today));
    var m := today - n;
    assert (m + 4) % 7 == 1 by {
      assert (today + 4) % 7 == (n + 1) % 7;
    }
    assert (m + weekOffset * 7 + 4) % 7 == (m + 4) % 7;
  }

  /** Today is among the days shown exactly when the calendar is at the current week. */
  lemma TodayShownIffCurrentWeek(today: int, weekOffset: int)
    ensures (WeekStart(today, weekOffset) <= today <= WeekStart(today, weekOffset) + 6)
        <==> weekOffset == 0
  {
    var n := DaysFromMonday(DayOfWeek(today));
    assert WeekStart(today, weekOffset) == today - n + weekOffset * 7;
    if weekOffset >= 1 {
      assert WeekStart(today, weekOffset) > today;
    } else if weekOffset <= -1 {
      assert WeekStart(today, weekOffset) + 6 < today;
    }
  }

  /** One step forward shows the following seven days. */
  lemma NextWeekFollows(today: int, weekOffset: int)
    ensures WeekStart(today, weekOffset + 1) == WeekStart(today, weekOffset) + 7
  {
  }

  /** `weekDates[3]`, the day whose month and year title the calendar. */
  const DisplayIndex := 3

  /** The day that titles the calendar is the week's Thursday. */
  lemma DisplayDateIsThursday(today: int, weekOffset: int)
    ensures DayOfWeek(WeekStart(today, weekOffset) + DisplayIndex) == 4
  {
    MondayIsMonday(today, weekOffset);
    DayOfWeekAfter(WeekStart(today, weekOffset), DisplayIndex);
  }

  /** The calendar's week offset and its three navigation buttons. */
  class WeekNavigator {
    var currentWeekOffset: int

    constructor()
      ensures currentWeekOffset == 0 && !BackButtonShown()
    {
      currentWeekOffset := 0;
    }

    /** "Back to Current Week" is rendered whenever another week is shown. */
    predicate BackButtonShown()
      reads this
    {
      currentWeekOffset != 0
    }

    method GoToPreviousWeek()
      modifies this
      ensures currentWeekOffset == old(currentWeekOffset) - 1
    {
      currentWeekOffset := currentWeekOffset - 1;
    }

    method GoToNextWeek()
      modifies this
      ensures currentWeekOffset == old(currentWeekOffset) + 1
    {
      currentWeekOffset := currentWeekOffset + 1;
    }

    method GoToCurrentWeek()
      modifies this
      ensures currentWeekOffset == 0 && !BackButtonShown()
    {
      currentWeekOffset := 0;
    }
  }

  /** The number of rows the recent-tests table shows. */
  const RecentRows := 10

  /** `testData.slice(0, 10)`: the first ten rows, or all of them when there are fewer. */
  function RecentTests<T>(rows: seq<T>): (shown: seq<T>)
    ensures |shown| == if |rows| < RecentRows then |rows| else RecentRows
    ensures shown == rows[..|shown|]
  {
    if |rows| < RecentRows then rows else rows[..RecentRows]
  }

  /** The status cell shows a spinner while a test is analysing and a check mark otherwise. */
  datatype StatusIcon = Loader | CircleCheck

  function StatusIconFor(status: string): (icon: StatusIcon)
    ensures icon == Loader <==> status == "Analyzing"
  {
    if status == "Analyzing" then Loader else CircleCheck
  }
}
