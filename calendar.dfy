/**
 * Calendar dates as Python's `datetime.date` has them, and the due-date rule
 * of the rent reminder: rent is due on the first day of the next month.
 */
module Calendar {
  import opened Wrappers

  /** The years a `datetime.date` can hold (`datetime.MINYEAR`, `datetime.MAXYEAR`). */
  const MinYear := 1
  const MaxYear := 9999

  /** Python 2's `date.strftime` raises `ValueError` for a year before this one. */
  const StrftimeMinYear := 1900

  datatype Date = Date(year: int, month: int, day: int)

  predicate IsLeapYear(y: int) {
    y % 4 == 0 && (y % 100 != 0 || y % 400 == 0)
  }

  function DaysInMonth(y: int, m: int): int
    requires 1 <= m <= 12
  {
    if m == 2 then (if IsLeapYear(y) then 29 else 28)
    else if m == 4 || m == 6 || m == 9 || m == 11 then 30
    else 31
  }

  /** The dates a `datetime.date` object can denote. */
  predicate ValidDate(d: Date) {
    && MinYear <= d.year <= MaxYear
    && 1 <= d.month <= 12
    && 1 <= d.day <= DaysInMonth(d.year, d.month)
  }

  /** Chronological order, as `<=` compares two `date` objects. */
  predicate OnOrBefore(a: Date, b: Date) {
    || a.year < b.year
    || (a.year == b.year && a.month < b.month)
    || (a.year == b.year && a.month == b.month && a.day <= b.day)
  }

  predicate Before(a: Date, b: Date) {
    !OnOrBefore(b, a)
  }

  /**
   * The first day of the month after `d`: December rolls over to January of
   * the next year. `None` where that year is beyond `MaxYear`, where Python's
   * `date` constructor raises.
   */
  function FirstNextMonth(d: Date): (r: Option<Date>)
    requires ValidDate(d)
    ensures r.None? <==> d.year == MaxYear && d.month == 12
    ensures r.Some? ==> ValidDate(r.value) && r.value.day == 1 && Before(d, r.value)
    // the earliest first-of-month strictly after d
    ensures r.Some? ==>
      forall e :: ValidDate(e) && e.day == 1 && Before(d, e) ==> OnOrBefore(r.value, e)
  {
    if d.month == 12 then
      if d.year + 1 > MaxYear then None else Some(Date(d.year + 1, 1, 1))
    else
      Some(Date(d.year, d.month + 1, 1))
  }

  /** The rollover written out month by month. */
  lemma FirstNextMonthRollover(d: Date)
    requires ValidDate(d) && FirstNextMonth(d).Some?
    ensures d.month == 12 ==> FirstNextMonth(d).value == Date(d.year + 1, 1, 1)
    ensures d.month < 12 ==> FirstNextMonth(d).value == Date(d.year, d.month + 1, 1)
  {
  }
}
