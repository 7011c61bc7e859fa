/** The prorated HAP amount the MCR form computes: the monthly amount divided by the
    number of days in the vacate date's month, times the vacate date's day of the
    month, rounded to cents. The model computes it exactly, as a fraction, and rounds
    once, as toFixed(2) does. */
module Proration {
  import opened Strings
  import opened Calendar
  import opened Money

  /** The year JavaScript's Date(year, month, day) constructor uses: a year from 0 to
      99 is taken as 1900 + year. */
  function JsConstructorYear(y: int): int {
    if 0 <= y <= 99 then 1900 + y else y
  }

  /** `new Date(y, m + 1, 0).getDate()` for the 1-based month m: day 0 of the next
      month is the last day of month m. */
  function JsLastDay(y: int, m: int): (n: int)
    requires 1 <= m <= 12
    ensures 28 <= n <= 31
  {
    DaysInMonth(JsConstructorYear(y), m)
  }

  /** The two-digit-year rule never changes a month's length, except in year 0: 1900 is
      not a leap year, year 0 is. */
  lemma JsLastDayIsCalendar(y: int, m: int)
    requires 1 <= m <= 12 && y != 0
    ensures JsLastDay(y, m) == DaysInMonth(y, m)
  {
    if 0 < y <= 99 {
      assert (1900 + y) % 4 == y % 4;
      assert (1900 + y) % 100 == y;
      assert IsLeapYear(1900 + y) == IsLeapYear(y);
    }
  }

  /** The number the proration leaves in its slot: a whole number of cents, or NaN. */
  datatype ProratedValue = InCents(cents: int) | NaN

  /** calculateProratedAmount: None (null) when the amount text is empty, there is no
      vacate date, or the text is not a number. An Invalid Date is an object, so it
      passes the `!vacateDate` test, and its NaN day and month make the amount NaN. */
  function ProratedCents(hapText: string, vacate: Option<DateValue>): (r: Option<ProratedValue>)
    ensures r.Some? <==> hapText != [] && vacate.Some? && ParseAmount(hapText).Some?
    ensures r.Some? ==> (r.value.NaN? <==> vacate.value.InvalidDate?)
  {
    if hapText == [] || vacate.None? then None
    else
      match ParseAmount(hapText)
      case None => None
      case Some(amount) =>
        match vacate.value
        case InvalidDate => Some(NaN)
        case ValidDate(d) => Some(InCents(ProrationOf(amount, d.local)))
  }

  /** amount / lastDay * day in cents, lastDay being the month's last day as the
      constructor computes it. */
  function ProrationOf(amount: Decimal, d: CalendarDate): int
    requires IsValidDate(d)
  {
    RoundHalfAwayFromZero(amount.mantissa * d.day * 100, Pow10(amount.scale) * JsLastDay(d.year, d.month))
  }

  /** The prorated amount is the cent nearest to amount / lastDay * day, a tie going
      away from zero. */
  lemma ProratedIsNearestCent(hapText: string, vacate: Option<DateValue>)
    requires ProratedCents(hapText, vacate).Some? && vacate.value.ValidDate?
    ensures var amount := ParseAmount(hapText).value;
      var d := vacate.value.date.local;
      var num := amount.mantissa * d.day * 100;
      var den := Pow10(amount.scale) * JsLastDay(d.year, d.month);
      var r := ProratedCents(hapText, vacate).value;
      r.InCents? && -den <= 2 * den * r.cents - 2 * num <= den
  {
  }

  /** On the last day of the month the whole amount is due. */
  lemma LastDayPaysFullAmount(amount: Decimal, d: CalendarDate)
    requires IsValidDate(d) && d.day == JsLastDay(d.year, d.month)
    ensures ProrationOf(amount, d) == Cents(amount)
  {
    var m100, p, lastDay := amount.mantissa * 100, Pow10(amount.scale), d.day;
    assert amount.mantissa * d.day * 100 == m100 * lastDay;
    RoundScale(m100, p, lastDay);
    assert p * lastDay == Pow10(amount.scale) * JsLastDay(d.year, d.month);
  }

  /** For a non-negative amount and a date outside year 0 the prorated amount lies
      between zero and the rounded amount, since the day never exceeds the month's
      last day. */
  lemma ProratedWithinAmount(amount: Decimal, d: CalendarDate)
    requires IsValidDate(d) && amount.mantissa >= 0 && d.year != 0
    ensures 0 <= ProrationOf(amount, d) <= Cents(amount)
  {
    JsLastDayIsCalendar(d.year, d.month);
    ProrationBounds(amount.mantissa, Pow10(amount.scale), d.day, JsLastDay(d.year, d.month));
  }

  /** The rounded share of day / lastDay of m / p lies between 0 and the rounded whole. */
  lemma ProrationBounds(m: int, p: int, day: int, lastDay: int)
    requires m >= 0 && p > 0 && 0 < day <= lastDay
    ensures 0 <= RoundHalfAwayFromZero(m * day * 100, p * lastDay) <= RoundHalfAwayFromZero(m * 100, p)
  {
    assert m * day * 100 == (m * 100) * day;
    PartOfWhole(m * 100, p, day, lastDay);
  }

  /** Rounding day / lastDay of a non-negative num / den, day at most lastDay. */
  lemma PartOfWhole(num: int, den: int, day: int, lastDay: int)
    requires num >= 0 && den > 0 && 0 < day <= lastDay
    ensures 0 <= RoundHalfAwayFromZero(num * day, den * lastDay) <= RoundHalfAwayFromZero(num, den)
  {
    assert num * lastDay - num * day == num * (lastDay - day);
    RoundMonotone(num * day, num * lastDay, den * lastDay);
    RoundScale(num, den, lastDay);
  }

  /** In year 0 the constructor's two-digit-year rule makes February 28 days long,
      so proration on February 29 of year 0 pays more than the monthly amount, for
      every positive whole amount. */
  lemma YearZeroFebruaryOverpays(n: nat, instant: Instant)
    requires n > 0
    ensures DaysInMonth(0, 2) == 29 && JsLastDay(0, 2) == 28
    ensures var r := ProratedCents(NatToString(n), Some(ValidDate(JsDate(instant, CalendarDate(0, 2, 29)))));
      r.Some? && r.value.InCents? && r.value.cents > n * 100
  {
    var d := CalendarDate(0, 2, 29);
    assert DaysInMonth(0, 2) == 29;
    assert IsValidDate(d);
    ParseWhole(n);
    assert Pow10(0) == 1;
    var r := ProrationOf(Decimal(n, 0), d);
    assert r == RoundHalfAwayFromZero(n * 29 * 100, 1 * 28);
    assert 2 * (n * 29 * 100) == 5800 * n;
    assert 2 * 28 * r + 28 > 5800 * n;
  }

  /** Half of a 30-day month on a monthly amount of 930.00 is 465.00; a third of a
      31-day month (the 10th) on 100.00 is 32.26. */
  lemma ProrationExamples()
    ensures ProrationOf(Decimal(93000, 2), CalendarDate(2024, 6, 15)) == 46500
    ensures ProrationOf(Decimal(10000, 2), CalendarDate(2025, 1, 10)) == 3226
  {
    assert Pow10(2) == 100;
  }
}
