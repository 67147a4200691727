/**
 * The month grid of the calendar component: Gregorian month lengths and
 * weekdays, the normalisation the `Date` constructor applies to its
 * `(year, monthIndex, day)` arguments, the grid of leading blanks and
 * numbered days with their `selected` and `today` tags, and the dates the
 * navigation buttons and a click select. "Today" is an input.
 */
module CalendarGrid {

  /** A calendar date as the component reads it: full year, month index 0..11, day of month. */
  datatype Date = Date(year: int, month: int, day: int)

  predicate IsLeapYear(y: int) {
    y % 4 == 0 && (y % 100 != 0 || y % 400 == 0)
  }

  /** The Gregorian length of month `m` (0 = January) of year `y`. */
  function MonthLength(y: int, m: int): (n: int)
    requires 0 <= m < 12
    ensures 28 <= n <= 31
    ensures m == 1 ==> (n == 29 <==> IsLeapYear(y))
    ensures m != 1 ==> (n == 30 <==> m in {3, 5, 8, 10})
  {
    if m == 1 then (if IsLeapYear(y) then 29 else 28)
    else if m == 3 || m == 5 || m == 8 || m == 10 then 30
    else 31
  }

  predicate ValidDate(d: Date) {
    0 <= d.month < 12 && 1 <= d.day <= MonthLength(d.year, d.month)
  }

  /** What a `Date` object holds: always a real calendar date. */
  type CalendarDate = d: Date | ValidDate(d) witness Date(1970, 0, 1)

  /** The `Date` constructor reads a year argument in 0..99 as 1900 + that year. */
  function FullYear(y: int): int {
    if 0 <= y <= 99 then 1900 + y else y
  }

  /** Years the constructor takes as they are. */
  predicate Unshifted(y: int) {
    y < 0 || 99 < y
  }

  /** The month of `(y, m)` shifted by one, either way. */
  function PrevMonthOf(y: int, m: int): (int, int)
    requires 0 <= m < 12
  {
    if m == 0 then (y - 1, 11) else (y, m - 1)
  }

  /**
   * Day `d` of month `(y, m)`, counted on into later months when `d` is past
   * the month's end and back into earlier months when it is below 1.
   */
  function NormalizeDay(y: int, m: int, d: int): (r: CalendarDate)
    requires 0 <= m < 12
    decreases if d < 1 then 1 else 0, if d < 1 then -d else d
  {
    if d < 1 then
      var (py, pm) := PrevMonthOf(y, m);
      NormalizeDay(py, pm, d + MonthLength(py, pm))
    else if d > MonthLength(y, m) then
      NormalizeDay(if m == 11 then y + 1 else y, if m == 11 then 0 else m + 1, d - MonthLength(y, m))
    else Date(y, m, d)
  }

  /** `new Date(y, m, d)`: the year mapped, the month index carried into the year, the day normalised. */
  function MakeDate(y: int, m: int, d: int): CalendarDate {
    NormalizeDay(FullYear(y) + m / 12, m % 12, d)
  }

  /** A day already inside its month is taken as it is. */
  lemma MakeDateInRange(y: int, m: int, d: int)
    requires 0 <= m < 12 && 1 <= d <= MonthLength(FullYear(y), m)
    ensures MakeDate(y, m, d) == Date(FullYear(y), m, d)
  {
  }

  // ----- day numbers and weekdays -----

  /** The number of days from 1970-01-01 to January 1 of year `y`. */
  function DaysBeforeYear(y: int): int {
    365 * (y - 1970) + (y - 1969) / 4 - (y - 1901) / 100 + (y - 1601) / 400
  }

  /** A year has 366 days exactly when it is a leap year. */
  lemma YearStep(y: int)
    ensures DaysBeforeYear(y + 1) == DaysBeforeYear(y) + 365 + (if IsLeapYear(y) then 1 else 0)
  {
    LeapFours(y);
    LeapCenturies(y);
    LeapQuadricentennials(y);
    DivisibleChain(y);
    var leaps := (if y % 4 == 0 then 1 else 0) - (if y % 100 == 0 then 1 else 0) + (if y % 400 == 0 then 1 else 0);
    assert leaps == (if IsLeapYear(y) then 1 else 0);
    assert DaysBeforeYear(y + 1) == 365 * (y - 1969) + (y - 1968) / 4 - (y - 1900) / 100 + (y - 1600) / 400;
  }

  /** A multiple of 400 is a multiple of 100, and a multiple of 100 is a multiple of 4. */
  lemma DivisibleChain(y: int)
    ensures y % 400 == 0 ==> y % 100 == 0
    ensures y % 100 == 0 ==> y % 4 == 0
  {
    var q := y / 400;
    var c := y / 100;
    assert y == 400 * q + y % 400;
    assert y == 100 * c + y % 100;
    if y % 400 == 0 {
      assert y == 100 * (4 * q) + 0;
    }
    if y % 100 == 0 {
      assert y == 4 * (25 * c) + 0;
    }
  }

  /** The count of multiples of 4 since 1968 grows by one at each multiple of 4. */
  lemma LeapFours(y: int)
    ensures (y - 1968) / 4 == (y - 1969) / 4 + (if y % 4 == 0 then 1 else 0)
  {
  }

  /** The count of multiples of 100 since 1900 grows by one at each multiple of 100. */
  lemma LeapCenturies(y: int)
    ensures (y - 1900) / 100 == (y - 1901) / 100 + (if y % 100 == 0 then 1 else 0)
  {
  }

  /** The count of multiples of 400 since 1600 grows by one at each multiple of 400. */
  lemma LeapQuadricentennials(y: int)
    ensures (y - 1600) / 400 == (y - 1601) / 400 + (if y % 400 == 0 then 1 else 0)
  {
  }

  /** The days of the months of year `y` before month `m`. */
  function DaysBeforeMonth(y: int, m: int): int
    requires 0 <= m < 12
  {
    [0, 31, 59, 90, 120, 151, 181, 212, 243, 273, 304, 334][m] + (if m >= 2 && IsLeapYear(y) then 1 else 0)
  }

  /** Each month begins a month's length of days after the one before it, and the twelve fill the year. */
  lemma MonthStep(y: int, m: int)
    requires 0 <= m < 12
    ensures m < 11 ==> DaysBeforeMonth(y, m + 1) == DaysBeforeMonth(y, m) + MonthLength(y, m)
    ensures m == 11 ==> DaysBeforeMonth(y, m) + MonthLength(y, m) == 365 + (if IsLeapYear(y) then 1 else 0)
  {
  }

  /** Days since 1970-01-01 (negative before it). */
  function DayNumber(d: CalendarDate): int {
    DaysBeforeYear(d.year) + DaysBeforeMonth(d.year, d.month) + d.day - 1
  }

  /** `getDay()`: 0 = Sunday; 1970-01-01 was a Thursday. */
  function WeekDay(d: CalendarDate): (w: int)
    ensures 0 <= w < 7
  {
    (DayNumber(d) + 4) % 7
  }

  /** The first day of the next month comes a month's length of days after the first of this one. */
  lemma NextMonthDayNumber(y: int, m: int)
    requires 0 <= m < 12
    ensures var (ny, nm) := if m == 11 then (y + 1, 0) else (y, m + 1);
      DayNumber(Date(ny, nm, 1)) == DayNumber(Date(y, m, 1)) + MonthLength(y, m)
  {
    MonthStep(y, m);
    if m == 11 {
      YearStep(y);
    }
  }

  /** `new Date(y, m + 1, 0).getDate()`: the number of days of the displayed month. */
  function DaysInMonth(y: int, m: int): int
    requires 0 <= m < 12
  {
    MakeDate(y, m + 1, 0).day
  }

  /** `new Date(y, m, 1).getDay()`: the weekday of the first of the displayed month. */
  function FirstWeekday(y: int, m: int): (w: int)
    requires 0 <= m < 12
    ensures 0 <= w < 7
  {
    WeekDay(MakeDate(y, m, 1))
  }

  /** Day 0 of the next month is the last day of this one, so the count is the Gregorian length. */
  lemma DaysInMonthIsLength(y: int, m: int)
    requires 0 <= m < 12
    ensures DaysInMonth(y, m) == MonthLength(FullYear(y), m)
    ensures Unshifted(y) ==> DaysInMonth(y, m) == MonthLength(y, m)
  {
    var yr := FullYear(y);
    if m == 11 {
      assert MakeDate(y, m + 1, 0) == NormalizeDay(yr + 1, 0, 0);
    } else {
      assert MakeDate(y, m + 1, 0) == NormalizeDay(yr, m + 1, 0);
    }
  }

  lemma ShiftMod7(x: int, n: int)
    ensures (x + n) % 7 == (x % 7 + n) % 7
  {
    var q := x / 7;
    assert x == 7 * q + x % 7;
    assert (7 * q + (x % 7 + n)) % 7 == (x % 7 + n) % 7;
  }

  /** The next month's grid starts where this month's last row leaves off. */
  lemma NextFirstWeekday(y: int, m: int)
    requires 0 <= m < 11
    ensures FirstWeekday(y, m + 1) == (FirstWeekday(y, m) + DaysInMonth(y, m)) % 7
  {
    var yr := FullYear(y);
    DaysInMonthIsLength(y, m);
    MakeDateInRange(y, m, 1);
    MakeDateInRange(y, m + 1, 1);
    NextMonthDayNumber(yr, m);
    var a := DayNumber(Date(yr, m, 1));
    var n := MonthLength(yr, m);
    assert DayNumber(Date(yr, m + 1, 1)) == a + n;
    assert FirstWeekday(y, m) == (a + 4) % 7;
    assert FirstWeekday(y, m + 1) == (a + n + 4) % 7;
    assert DaysInMonth(y, m) == n;
    ShiftMod7(a + 4, n);
  }

  /** From December the grid of January of the next year starts where December's last row leaves off. */
  lemma NewYearFirstWeekday(y: int)
    requires Unshifted(y) && Unshifted(y + 1)
    ensures FirstWeekday(y + 1, 0) == (FirstWeekday(y, 11) + DaysInMonth(y, 11)) % 7
  {
    DaysInMonthIsLength(y, 11);
    MakeDateInRange(y, 11, 1);
    MakeDateInRange(y + 1, 0, 1);
    NextMonthDayNumber(y, 11);
    var a := DayNumber(Date(y, 11, 1));
    var n := MonthLength(y, 11);
    assert DayNumber(Date(y + 1, 0, 1)) == a + n;
    assert FirstWeekday(y, 11) == (a + 4) % 7;
    assert FirstWeekday(y + 1, 0) == (a + n + 4) % 7;
    ShiftMod7(a + 4, n);
  }

  /** November 2025 begins on a Saturday and has 30 days. */
  lemma November2025()
    ensures FirstWeekday(2025, 10) == 6 && DaysInMonth(2025, 10) == 30
  {
    DaysInMonthIsLength(2025, 10);
    MakeDateInRange(2025, 10, 1);
    assert DaysBeforeMonth(2025, 10) == 304;
  }

  // ----- the grid -----

  /** A grid cell: a leading blank, or a numbered day with its two tags. */
  datatype Cell = Blank | DayCell(day: int, selected: bool, today: bool)

  /**
   * `isSelectedDate(day)`: the selected date is that day of the displayed
   * month and year. The displayed month and year are read off the selected
   * date itself, so only the day is compared.
   */
  predicate IsSelectedDate(selected: CalendarDate, day: int) {
    selected.day == day
  }

  /** `isToday(day)`: today is that day of the displayed month and year. */
  predicate IsToday(selected: CalendarDate, today: CalendarDate, day: int) {
    today.day == day && today.month == selected.month && today.year == selected.year
  }

  function DayCellFor(selected: CalendarDate, today: CalendarDate, day: int): Cell {
    DayCell(day, IsSelectedDate(selected, day), IsToday(selected, today, day))
  }

  /** `blanks` leading blanks, then the days `1..length` in order with their tags. */
  function Layout(blanks: int, length: int, selected: CalendarDate, today: CalendarDate): (g: seq<Cell>)
    requires 0 <= blanks && 0 <= length
    ensures |g| == blanks + length
    ensures forall i :: 0 <= i < blanks ==> g[i] == Blank
    ensures forall i :: blanks <= i < |g| ==> g[i] == DayCellFor(selected, today, i - blanks + 1)
  {
    seq(blanks + length, i requires 0 <= i < blanks + length =>
      if i < blanks then Blank else DayCellFor(selected, today, i - blanks + 1))
  }

  /** The displayed month's grid: its first weekday's worth of blanks, then its days. */
  function Grid(selected: CalendarDate, today: CalendarDate): seq<Cell> {
    Layout(FirstWeekday(selected.year, selected.month), DaysInMonth(selected.year, selected.month), selected, today)
  }

  /** `renderCalendarDays`: the blanks, then one cell per day of the month. */
  method RenderCalendarDays(selected: CalendarDate, today: CalendarDate) returns (days: seq<Cell>)
    ensures days == Grid(selected, today)
  {
    var firstDayWeekday := FirstWeekday(selected.year, selected.month);
    var daysInMonth := DaysInMonth(selected.year, selected.month);
    var g := Grid(selected, today);
    days := [];
    var i := 0;
    while i < firstDayWeekday
      invariant 0 <= i <= firstDayWeekday
      invariant |days| == i
      invariant forall k :: 0 <= k < i ==> days[k] == g[k]
    {
      days := days + [Blank];
      i := i + 1;
    }
    var day := 1;
    while day <= daysInMonth
      invariant 1 <= day && |days| == firstDayWeekday + day - 1
      invariant daysInMonth >= 0 ==> day <= daysInMonth + 1
      invariant forall k :: 0 <= k < |days| ==> days[k] == g[k]
    {
      days := days + [DayCellFor(selected, today, day)];
      day := day + 1;
    }
    assert |days| == |g|;
  }

  /** Numbered cells are tagged `selected` exactly at the selected day, when the month has that day. */
  lemma SelectedCells(blanks: int, length: int, selected: CalendarDate, today: CalendarDate)
    requires 0 <= blanks && 0 <= length
    ensures var g := Layout(blanks, length, selected, today);
      forall i :: 0 <= i < |g| ==>
        (g[i].DayCell? && g[i].selected <==> selected.day <= length && i == blanks + selected.day - 1)
  {
  }

  /** The selected day is always on the grid of its own month, so exactly one cell is selected. */
  lemma SelectedDayShown(selected: CalendarDate)
    requires Unshifted(selected.year)
    ensures selected.day <= DaysInMonth(selected.year, selected.month)
  {
    DaysInMonthIsLength(selected.year, selected.month);
  }

  /**
   * At most one cell is tagged `today`, none when today lies in another month
   * or year, and the tag does not depend on the selection.
   */
  lemma TodayCells(blanks: int, length: int, selected: CalendarDate, today: CalendarDate)
    requires 0 <= blanks && 0 <= length
    ensures var g := Layout(blanks, length, selected, today);
      forall i, j :: 0 <= i < j < |g| && g[i].DayCell? && g[j].DayCell? ==> !(g[i].today && g[j].today)
    ensures var g := Layout(blanks, length, selected, today);
      today.month != selected.month || today.year != selected.year ==>
        forall i :: 0 <= i < |g| && g[i].DayCell? ==> !g[i].today
    ensures var g := Layout(blanks, length, selected, today);
      today == selected && selected.day <= length ==>
        g[blanks + selected.day - 1].selected && g[blanks + selected.day - 1].today
  {
  }

  // ----- navigation -----

  /** `handlePrevMonth`: day 1 of the month before the displayed one. */
  function PrevMonth(selected: CalendarDate): CalendarDate {
    MakeDate(selected.year, selected.month - 1, 1)
  }

  /** `handleNextMonth`: day 1 of the month after the displayed one. */
  function NextMonth(selected: CalendarDate): CalendarDate {
    MakeDate(selected.year, selected.month + 1, 1)
  }

  /** `handleDateClick(day)`: that day of the displayed month. */
  function DateClick(selected: CalendarDate, day: int): CalendarDate {
    MakeDate(selected.year, selected.month, day)
  }

  /** The previous month of January is December of the year before. */
  lemma PrevMonthWraps(selected: CalendarDate)
    ensures PrevMonth(selected) ==
      if selected.month == 0 then Date(FullYear(selected.year) - 1, 11, 1)
      else Date(FullYear(selected.year), selected.month - 1, 1)
    ensures Unshifted(selected.year) ==>
      PrevMonth(selected) == if selected.month == 0 then Date(selected.year - 1, 11, 1) else Date(selected.year, selected.month - 1, 1)
  {
    if selected.month == 0 {
      assert (selected.month - 1) / 12 == -1 && (selected.month - 1) % 12 == 11;
    }
  }

  /** The next month of December is January of the year after. */
  lemma NextMonthWraps(selected: CalendarDate)
    ensures NextMonth(selected) ==
      if selected.month == 11 then Date(FullYear(selected.year) + 1, 0, 1)
      else Date(FullYear(selected.year), selected.month + 1, 1)
    ensures Unshifted(selected.year) ==>
      NextMonth(selected) == if selected.month == 11 then Date(selected.year + 1, 0, 1) else Date(selected.year, selected.month + 1, 1)
  {
  }

  /** Going back a month and then forward again lands on the first of the month one started in. */
  lemma PrevThenNext(selected: CalendarDate)
    requires Unshifted(selected.year) && Unshifted(PrevMonth(selected).year)
    ensures NextMonth(PrevMonth(selected)) == Date(selected.year, selected.month, 1)
  {
    PrevMonthWraps(selected);
    NextMonthWraps(PrevMonth(selected));
  }

  /** Clicking a day of the grid selects that date, and on the new grid that day's cell is the selected one. */
  lemma ClickSelects(selected: CalendarDate, today: CalendarDate, day: int)
    requires Unshifted(selected.year)
    requires 1 <= day <= DaysInMonth(selected.year, selected.month)
    ensures DateClick(selected, day) == Date(selected.year, selected.month, day)
    ensures var g, fw := Grid(DateClick(selected, day), today), FirstWeekday(selected.year, selected.month);
      fw + day - 1 < |g| && g[fw + day - 1] == DayCell(day, true, IsToday(selected, today, day))
  {
    DaysInMonthIsLength(selected.year, selected.month);
    MakeDateInRange(selected.year, selected.month, day);
    var clicked := DateClick(selected, day);
    assert clicked.year == selected.year && clicked.month == selected.month;
  }
}
