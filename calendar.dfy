/** Gregorian calendar arithmetic behind the date widget: month lengths (what
    `QDate(year, month, 1).daysInMonth()` answers) and the weekday of a date
    (what `date.weekday()` answers, Monday = 0). Days are counted from
    2000-01-01, the first day the widget's year spinner admits. */
module Calendar {

  datatype Date = Date(year: int, month: int, day: int)

  /** Range of the year spinner. */
  const FirstYear := 2000
  const LastYear := 2100

  /** Monday = 0 … Sunday = 6, as Python's `date.weekday()`. */
  type Weekday = w: int | 0 <= w < 7

  const Saturday: Weekday := 5

  predicate IsLeapYear(y: int) {
    y % 4 == 0 && (y % 100 != 0 || y % 400 == 0)
  }

  function DaysInMonth(y: int, m: int): (n: int)
    requires 1 <= m <= 12
    ensures 28 <= n <= 31
    ensures n == 29 <==> m == 2 && IsLeapYear(y)
    ensures n == 28 <==> m == 2 && !IsLeapYear(y)
  {
    if m == 2 then (if IsLeapYear(y) then 29 else 28)
    else if m == 4 || m == 6 || m == 9 || m == 11 then 30
    else 31
  }

  function DaysInYear(y: int): int {
    if IsLeapYear(y) then 366 else 365
  }

  /** A date that exists in the calendar, within the range counted from. */
  predicate IsCalendarDate(d: Date) {
    d.year >= FirstYear && 1 <= d.month <= 12 && 1 <= d.day <= DaysInMonth(d.year, d.month)
  }

  /** Days in the months of year `y` before month `m`. */
  function DaysBeforeMonth(y: int, m: int): nat
    requires 1 <= m <= 13
  {
    if m == 1 then 0 else DaysBeforeMonth(y, m - 1) + DaysInMonth(y, m - 1)
  }

  /** Days in the years from `FirstYear` up to (not including) `y`. */
  function DaysBeforeYear(y: int): nat
    requires y >= FirstYear
    decreases y - FirstYear
  {
    if y == FirstYear then 0 else DaysBeforeYear(y - 1) + DaysInYear(y - 1)
  }

  /** Number of days from 2000-01-01 to `d`. */
  function DayNumber(d: Date): nat
    requires IsCalendarDate(d)
  {
    DaysBeforeYear(d.year) + DaysBeforeMonth(d.year, d.month) + d.day - 1
  }

  /** 2000-01-01 was a Saturday. */
  function WeekdayOf(d: Date): (w: Weekday)
    requires IsCalendarDate(d)
    ensures d == Date(FirstYear, 1, 1) ==> w == Saturday
  {
    (DayNumber(d) + Saturday) % 7
  }

  /** The next calendar day. */
  function Successor(d: Date): (s: Date)
    requires IsCalendarDate(d)
    ensures IsCalendarDate(s)
    ensures s.year == d.year || (s.year == d.year + 1 && s.month == 1 && s.day == 1)
  {
    if d.day < DaysInMonth(d.year, d.month) then Date(d.year, d.month, d.day + 1)
    else if d.month < 12 then Date(d.year, d.month + 1, 1)
    else Date(d.year + 1, 1, 1)
  }

  /** The twelve month lengths add up to the length of the year. */
  lemma YearLength(y: int)
    ensures DaysBeforeMonth(y, 13) == DaysInYear(y)
  {
    var feb := DaysInMonth(y, 2);
    assert DaysBeforeMonth(y, 2) == 31;
    assert DaysBeforeMonth(y, 3) == 31 + feb;
    assert DaysBeforeMonth(y, 4) == 62 + feb;
    assert DaysBeforeMonth(y, 5) == 92 + feb;
    assert DaysBeforeMonth(y, 6) == 123 + feb;
    assert DaysBeforeMonth(y, 7) == 153 + feb;
    assert DaysBeforeMonth(y, 8) == 184 + feb;
    assert DaysBeforeMonth(y, 9) == 215 + feb;
    assert DaysBeforeMonth(y, 10) == 245 + feb;
    assert DaysBeforeMonth(y, 11) == 276 + feb;
    assert DaysBeforeMonth(y, 12) == 306 + feb;
  }

  /** Closed form of the year count inside the spinner's range: every fourth
      year from 2000 on is a leap year up to 2100 (2100 itself is not). */
  lemma {:induction false} DaysBeforeYearClosedForm(y: int)
    requires FirstYear <= y <= LastYear
    ensures DaysBeforeYear(y) == 365 * (y - FirstYear) + (y - FirstYear + 3) / 4
    decreases y - FirstYear
  {
    if y > FirstYear {
      DaysBeforeYearClosedForm(y - 1);
    }
  }

  /** Consecutive calendar days have consecutive day numbers. */
  lemma {:induction false} DayNumberOfSuccessor(d: Date)
    requires IsCalendarDate(d)
    ensures DayNumber(Successor(d)) == DayNumber(d) + 1
  {
    if d.day == DaysInMonth(d.year, d.month) && d.month == 12 {
      YearLength(d.year);
    }
  }

  /** The weekday advances by one, Sunday wrapping to Monday, from a day to the next. */
  lemma WeekdayOfSuccessor(d: Date)
    requires IsCalendarDate(d)
    ensures WeekdayOf(Successor(d)) == (WeekdayOf(d) + 1) % 7
  {
    DayNumberOfSuccessor(d);
  }

  /** A known anchor: 2024-01-01 was a Monday. */
  lemma NewYear2024IsMonday()
    ensures WeekdayOf(Date(2024, 1, 1)) == 0
  {
    DaysBeforeYearClosedForm(2024);
    assert DayNumber(Date(2024, 1, 1)) == 8766;
  }
}
