/** The week strip: seven days from Sunday to Saturday,
    paged a week at a time, with today and the selected day marked, and the
    flag that asks for a "Today" button whenever the strip or the selection
    has moved away from today. Days are whole day numbers counted from
    1 January 1970, a Thursday; today is given by the caller. */
module WeekCalendar {

  /** The day of the week, 0 for Sunday to 6 for Saturday. */
  function DayOfWeek(day: int): (r: int)
    ensures 0 <= r < 7
  {
    (day + 4) % 7
  }

  /** `startOfWeek(day, { weekStartsOn: 0 })`: the Sunday on or before `day`. */
  function StartOfWeek(day: int): (r: int)
    ensures r <= day < r + 7
    ensures DayOfWeek(r) == 0
  {
    day - DayOfWeek(day)
  }

  /** Every day of one Sunday-to-Saturday week has the same start. */
  lemma StartOfWeekSame(day: int, i: int)
    requires 0 <= i < 7
    ensures StartOfWeek(StartOfWeek(day) + i) == StartOfWeek(day)
    ensures DayOfWeek(StartOfWeek(day) + i) == i
  {
    var s := StartOfWeek(day);
    assert (s + i + 4) % 7 == ((s + 4) % 7 + i) % 7;
  }

  /** The first day shown for a week offset. */
  function WeekStart(today: int, weekOffset: int): int {
    StartOfWeek(today) + 7 * weekOffset
  }

  /** One cell of the strip. */
  datatype WeekDay = WeekDay(date: int, dayName: string, isToday: bool, isSelected: bool)

  const DayNames: seq<string> := ["Sun", "Mon", "Tue", "Wed", "Thu", "Fri", "Sat"]

  /** The seven cells of the week at `weekOffset`. */
  function WeekDays(today: int, weekOffset: int, selected: int): (r: seq<WeekDay>)
    ensures |r| == 7
    ensures forall i :: 0 <= i < 7 ==> r[i].date == WeekStart(today, weekOffset) + i
    ensures forall i :: 0 <= i < 7 ==> r[i].isToday == (r[i].date == today)
    ensures forall i :: 0 <= i < 7 ==> r[i].isSelected == (r[i].date == selected)
  {
    var s := WeekStart(today, weekOffset);
    [Cell(s, today, selected), Cell(s + 1, today, selected), Cell(s + 2, today, selected),
     Cell(s + 3, today, selected), Cell(s + 4, today, selected), Cell(s + 5, today, selected),
     Cell(s + 6, today, selected)]
  }

  /** One day's cell: its weekday name and its two marks. */
  function Cell(date: int, today: int, selected: int): (c: WeekDay)
    ensures c.date == date && c.isToday == (date == today) && c.isSelected == (date == selected)
    ensures c.dayName == DayNames[DayOfWeek(date)]
  {
    WeekDay(date, DayNames[DayOfWeek(date)], date == today, date == selected)
  }

  /** The days are seven consecutive days from a Sunday, named in order from
      "Sun" to "Sat". */
  lemma WeekDaysConsecutive(today: int, weekOffset: int, selected: int)
    ensures var r := WeekDays(today, weekOffset, selected);
      && DayOfWeek(r[0].date) == 0
      && (forall i :: 0 <= i < 6 ==> r[i + 1].date == r[i].date + 1)
      && (forall i :: 0 <= i < 7 ==> r[i].dayName == DayNames[i])
  {
    var r := WeekDays(today, weekOffset, selected);
    var s := WeekStart(today, weekOffset);
    assert DayOfWeek(s) == 0 by {
      WeekShift(StartOfWeek(today), weekOffset);
    }
    forall i | 0 <= i < 7 ensures r[i].dayName == DayNames[i] {
      assert (s + i + 4) % 7 == ((s + 4) % 7 + i) % 7;
    }
  }

  /** Whole weeks do not change the day of the week. */
  lemma {:induction false} WeekShift(day: int, weeks: int)
    ensures DayOfWeek(day + 7 * weeks) == DayOfWeek(day)
    decreases if weeks < 0 then -weeks else weeks
  {
    if weeks > 0 {
      WeekShift(day, weeks - 1);
      assert day + 7 * weeks == (day + 7 * (weeks - 1)) + 7;
    } else if weeks < 0 {
      WeekShift(day, weeks + 1);
      assert day + 7 * (weeks + 1) == (day + 7 * weeks) + 7;
    }
  }

  /** At most one day is marked today and at most one selected; the current
      week marks today in its own weekday column, and no other week marks it. */
  lemma WeekDaysMarks(today: int, weekOffset: int, selected: int)
    ensures var r := WeekDays(today, weekOffset, selected);
      && (forall i, j :: 0 <= i < 7 && 0 <= j < 7 && r[i].isToday && r[j].isToday ==> i == j)
      && (forall i, j :: 0 <= i < 7 && 0 <= j < 7 && r[i].isSelected && r[j].isSelected ==> i == j)
      && (weekOffset == 0 ==> r[DayOfWeek(today)].isToday)
      && (weekOffset != 0 ==> forall i :: 0 <= i < 7 ==> !r[i].isToday)
  {
    var r := WeekDays(today, weekOffset, selected);
    if weekOffset > 0 {
      assert 7 * weekOffset >= 7;
    } else if weekOffset < 0 {
      assert 7 * weekOffset <= -7;
    }
  }

  /** Whether the "Today" button should show: the strip is away from the
      current week, or the selection is not today. */
  function ShowTodayButton(weekOffset: int, selected: int, today: int): (b: bool)
    ensures !b <==> weekOffset == 0 && selected == today
  {
    weekOffset != 0 || selected != today
  }

  /** With the button hidden, the strip shows today and today is the
      selected day. */
  lemma HiddenButtonShowsToday(weekOffset: int, selected: int, today: int)
    requires !ShowTodayButton(weekOffset, selected, today)
    ensures var r := WeekDays(today, weekOffset, selected);
      r[DayOfWeek(today)].isToday && r[DayOfWeek(today)].isSelected
  {
    WeekDaysMarks(today, weekOffset, selected);
  }

  class Calendar {
    /** Today's day number, fixed when the strip is first shown. */
    const today: int
    var weekOffset: int
    /** The selected day, owned by the caller and updated through it. */
    var selectedDate: int
    /** The last value reported for the "Today" button; false until the
        first report. */
    var todayButton: bool

    constructor (today: int, selectedDate: int)
      ensures this.today == today && weekOffset == 0
      ensures this.selectedDate == selectedDate && !todayButton
    {
      this.today := today;
      weekOffset := 0;
      this.selectedDate := selectedDate;
      todayButton := false;
    }

    /** The cells shown now. */
    function Days(): (r: seq<WeekDay>)
      reads this
      ensures |r| == 7 && r[0].date == WeekStart(today, weekOffset)
    {
      WeekDays(today, weekOffset, selectedDate)
    }

    /** The left arrow: one week back. */
    method PrevWeek()
      modifies this
      ensures weekOffset == old(weekOffset) - 1 && selectedDate == old(selectedDate)
      ensures todayButton == ShowTodayButton(weekOffset, selectedDate, today)
    {
      var newOffset := weekOffset - 1;
      weekOffset := newOffset;
      todayButton := newOffset != 0 || selectedDate != today;
    }

    /** The right arrow: one week on. */
    method NextWeek()
      modifies this
      ensures weekOffset == old(weekOffset) + 1 && selectedDate == old(selectedDate)
      ensures todayButton == ShowTodayButton(weekOffset, selectedDate, today)
    {
      var newOffset := weekOffset + 1;
      weekOffset := newOffset;
      todayButton := newOffset != 0 || selectedDate != today;
    }

    /** A click on a day: the caller takes it as the selection. */
    method SelectDate(date: int)
      modifies this
      ensures selectedDate == date && weekOffset == old(weekOffset)
      ensures todayButton == ShowTodayButton(weekOffset, date, today)
    {
      selectedDate := date;
      todayButton := weekOffset != 0 || date != today;
    }
  }
}
