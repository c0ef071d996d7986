/**
 * Timestamps as already-decoded UTC calendar values. The source stores ISO
 * 8601 strings and compares them in the database; here a timestamp is its
 * date plus the whole milliseconds elapsed since midnight, ordered
 * chronologically. The database keeps microseconds; an instant is taken here
 * at millisecond resolution.
 */
module Stamps {

  datatype CivilDate = CivilDate(year: int, month: int, day: int)

  datatype Stamp = Stamp(date: CivilDate, msOfDay: int)

  const MsPerDay: int := 86_400_000
  /** 23:59:59.999 as milliseconds since midnight. */
  const LastMs: int := 86_399_999

  predicate IsLeapYear(y: int) {
    y % 4 == 0 && (y % 100 != 0 || y % 400 == 0)
  }

  /** Days in month `m` (1 to 12) of the proleptic Gregorian year `y`. */
  function DaysInMonth(y: int, m: int): (n: int)
    ensures 28 <= n <= 31
  {
    if m == 2 then (if IsLeapYear(y) then 29 else 28)
    else if m == 4 || m == 6 || m == 9 || m == 11 then 30
    else 31
  }

  predicate ValidDate(d: CivilDate) {
    1 <= d.month <= 12 && 1 <= d.day <= DaysInMonth(d.year, d.month)
  }

  predicate ValidStamp(t: Stamp) {
    ValidDate(t.date) && 0 <= t.msOfDay < MsPerDay
  }

  /** Strict chronological order of dates. */
  predicate DateBefore(a: CivilDate, b: CivilDate) {
    a.year < b.year
    || (a.year == b.year && (a.month < b.month || (a.month == b.month && a.day < b.day)))
  }

  /** `a <= b` between timestamps (the database's `created_at` ordering). */
  predicate AtOrBefore(a: Stamp, b: Stamp) {
    DateBefore(a.date, b.date) || (a.date == b.date && a.msOfDay <= b.msOfDay)
  }

  /** `a < b` between timestamps. */
  predicate Before(a: Stamp, b: Stamp) {
    !AtOrBefore(b, a)
  }

  /** `${date}T00:00:00.000Z`. */
  function DayStart(d: CivilDate): Stamp {
    Stamp(d, 0)
  }

  /** `${date}T23:59:59.999Z`. */
  function DayLastMs(d: CivilDate): Stamp {
    Stamp(d, LastMs)
  }

  /**
   * The day window of the by-date lookup: `created_at >= DayStart(d)` and
   * `created_at < DayLastMs(d)`, the upper bound being exclusive.
   */
  predicate InDayWindow(t: Stamp, d: CivilDate) {
    AtOrBefore(DayStart(d), t) && Before(t, DayLastMs(d))
  }

  /**
   * The day window holds exactly the instants of that UTC day except the very
   * last millisecond, 23:59:59.999.
   */
  lemma DayWindowExact(t: Stamp, d: CivilDate)
    requires ValidStamp(t)
    ensures InDayWindow(t, d) <==> t.date == d && t.msOfDay != LastMs
  {
  }

  /**
   * The calendar month a JavaScript `new Date(year, month, 1)` lands in, with
   * `month` counted from 0 and normalised into the year as JavaScript does
   * (month 12 is January of the next year, month -1 December of the previous).
   */
  function NormalisedYear(year: int, month: int): int {
    year + month / 12
  }

  function NormalisedMonth(month: int): (m: int)
    ensures 1 <= m <= 12
  {
    month % 12 + 1
  }

  /** `${startDate}T00:00:00.000Z` of the month query: the first day of the month. */
  function MonthStart(year: int, month: int): Stamp {
    DayStart(CivilDate(NormalisedYear(year, month), NormalisedMonth(month), 1))
  }

  /** `${endDate}T23:59:59.999Z` of the month query: the last millisecond of the month's last day. */
  function MonthLastMs(year: int, month: int): Stamp {
    var y, m := NormalisedYear(year, month), NormalisedMonth(month);
    DayLastMs(CivilDate(y, m, DaysInMonth(y, m)))
  }

  /** The month window: both bounds inclusive (`gte` and `lte`). */
  predicate InMonthWindow(t: Stamp, year: int, month: int) {
    AtOrBefore(MonthStart(year, month), t) && AtOrBefore(t, MonthLastMs(year, month))
  }

  /** The month window holds exactly the millisecond instants of that calendar month. */
  lemma MonthWindowExact(t: Stamp, year: int, month: int)
    requires ValidStamp(t)
    ensures InMonthWindow(t, year, month)
        <==> t.date.year == NormalisedYear(year, month) && t.date.month == NormalisedMonth(month)
  {
  }
}
