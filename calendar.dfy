/** Dates as the code sees them: an instant on the server's and the browser's clock,
    the Gregorian calendar date of a JavaScript Date in the browser's time zone, the
    leap-year rule and the length of a month, and the month before a given month. */
module Calendar {

  /** A point in time, in milliseconds since 1970-01-01T00:00:00Z. */
  type Instant = int

  /** .NET's DateTime.MinValue, 0001-01-01T00:00:00: the value a DateTime property
      keeps when a JSON body leaves it out. */
  const MinDateTime: Instant := -62135596800000

  /** A day of the proleptic Gregorian calendar; month runs from 1 to 12. */
  datatype CalendarDate = CalendarDate(year: int, month: int, day: int)

  predicate IsLeapYear(y: int) {
    y % 4 == 0 && (y % 100 != 0 || y % 400 == 0)
  }

  function DaysInMonth(y: int, m: int): (n: int)
    requires 1 <= m <= 12
    ensures 28 <= n <= 31
    ensures n == 29 <==> m == 2 && IsLeapYear(y)
    ensures n == 28 <==> m == 2 && !IsLeapYear(y)
  {
    if m == 2 then (if IsLeapYear(y) then 29 else 28)
    else if m == 4 || m == 6 || m == 9 || m == 11 then 30
    else 31
  }

  predicate IsValidDate(d: CalendarDate) {
    1 <= d.month <= 12 && 1 <= d.day <= DaysInMonth(d.year, d.month)
  }

  /** A JavaScript Date object: the instant it denotes (what toISOString prints) and
      its calendar date in the browser's time zone (what getFullYear, getMonth + 1 and
      getDate return). Which calendar date an instant falls on depends on the time zone,
      which the model takes as given. */
  datatype JsDate = JsDate(instant: Instant, local: CalendarDate)

  /** A Date object whose time value is a number: it falls on a real calendar date. */
  type Date = d: JsDate | IsValidDate(d.local) witness JsDate(0, CalendarDate(1970, 1, 1))

  /** What a date picker holds and hands to its onChange: a Date, or an Invalid Date
      (the picker's value for a date typed only in part), whose time value is NaN: its
      getDate and getMonth give NaN and its toISOString throws a RangeError. */
  datatype DateValue = ValidDate(date: Date) | InvalidDate

  /** The month index used for comparing months: consecutive months differ by one. */
  function MonthIndex(year: int, month: int): int {
    year * 12 + (month - 1)
  }

  /** The month before (month, year), for a 0-based month as getMonth returns it:
      January's predecessor is December of the previous year. */
  function PreviousMonth(month: int, year: int): (r: (int, int))
    requires 0 <= month <= 11
    ensures 0 <= r.0 <= 11
    ensures MonthIndex(r.1, r.0 + 1) == MonthIndex(year, month + 1) - 1
  {
    var lastMonth := if month == 0 then 11 else month - 1;
    var lastMonthYear := if month == 0 then year - 1 else year;
    (lastMonth, lastMonthYear)
  }

  /** MonthIndex numbers months without gaps or repeats, so the predecessor above is
      the only month one step back. */
  lemma MonthIndexInjective(y1: int, m1: int, y2: int, m2: int)
    requires 1 <= m1 <= 12 && 1 <= m2 <= 12
    requires MonthIndex(y1, m1) == MonthIndex(y2, m2)
    ensures y1 == y2 && m1 == m2
  {
  }
}
