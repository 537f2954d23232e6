/** Wall-clock dates as a JavaScript `Date` exposes them through its local-time
    getters, and the month arithmetic of `Date.prototype.setMonth`. */
module Calendar {

  const MsPerDay := 86_400_000

  /** A date: full year, month 0..11 (as `getMonth` numbers them), day of the
      month from 1, and milliseconds into the day. */
  datatype Date = Date(year: int, month: int, day: int, ms: int)
  {
    predicate Valid()
    {
      0 <= month < 12 && 1 <= day <= DaysInMonth(year, month) && 0 <= ms < MsPerDay
    }
  }

  /** The proleptic Gregorian leap-year rule. */
  predicate IsLeapYear(year: int)
  {
    year % 4 == 0 && (year % 100 != 0 || year % 400 == 0)
  }

  function DaysInMonth(year: int, month: int): (n: int)
    ensures 28 <= n <= 31
  {
    if month == 1 then (if IsLeapYear(year) then 29 else 28)
    else if month == 3 || month == 5 || month == 8 || month == 10 then 30
    else 31
  }

  /** `a < b` on two dates: their time values compare as the calendar fields do,
      most significant first. */
  predicate Before(a: Date, b: Date)
  {
    a.year < b.year
    || (a.year == b.year && a.month < b.month)
    || (a.year == b.year && a.month == b.month && a.day < b.day)
    || (a.year == b.year && a.month == b.month && a.day == b.day && a.ms < b.ms)
  }

  /** A date that a JavaScript `Date` can show: its fields are always normalised. */
  type ValidDate = d: Date | d.Valid() witness Date(1970, 0, 1, 0)

  /** The months from year 0 to the month of `d`; the months of valid dates
      compare as their year and month do. */
  function MonthIndex(d: Date): int
  {
    d.year * 12 + d.month
  }

  /** `d.setMonth(m)`: the month index `m` may run past 11 and carries into the
      year; a day of the month the new month does not have runs over into the
      following month (January 31 moved to April becomes May 1). */
  function SetMonth(d: Date, m: int): (r: Date)
    requires d.Valid()
    ensures r.Valid() && r.ms == d.ms
    ensures d.day <= DaysInMonth(d.year + m / 12, m % 12)
            ==> MonthIndex(r) == d.year * 12 + m && r.day == d.day
    ensures d.day > DaysInMonth(d.year + m / 12, m % 12)
            ==> && MonthIndex(r) == d.year * 12 + m + 1
                && r.day == d.day - DaysInMonth(d.year + m / 12, m % 12)
                && r.day <= 3
  {
    var year := d.year + m / 12;
    var month := m % 12;
    var length := DaysInMonth(year, month);
    if d.day <= length then Date(year, month, d.day, d.ms)
    else if month == 11 then Date(year + 1, 0, d.day - length, d.ms)
    else Date(year, month + 1, d.day - length, d.ms)
  }

  /** The number of days of the month three months after the month of `now`. */
  function HorizonMonthLength(now: Date): int
  {
    DaysInMonth(now.year + (now.month + 3) / 12, (now.month + 3) % 12)
  }

  /** `threeMonthsFromNow` of `isApproachingExpiry`: `now` with its month
      advanced by 3 through `setMonth`. It is the same day and time three
      months on when that month has the day, and otherwise runs over into the
      fourth month. */
  function ThreeMonthsFrom(now: Date): (r: Date)
    requires now.Valid()
    ensures r.Valid() && r.ms == now.ms
    ensures now.day <= HorizonMonthLength(now)
            ==> MonthIndex(r) == MonthIndex(now) + 3 && r.day == now.day
    ensures now.day > HorizonMonthLength(now)
            ==> MonthIndex(r) == MonthIndex(now) + 4 && r.day == now.day - HorizonMonthLength(now)
  {
    SetMonth(now, now.month + 3)
  }

  /** The horizon lies strictly after `now`. */
  lemma ThreeMonthsFromIsLater(now: Date)
    requires now.Valid()
    ensures Before(now, ThreeMonthsFrom(now))
  {
  }

  /** Moving January 31 by three months gives May 1 (April has 30 days). */
  lemma JanuaryThirtyFirstRunsOver()
    ensures ThreeMonthsFrom(Date(2025, 0, 31, 0)) == Date(2025, 4, 1, 0)
  {
  }

  /** The horizon is not monotone in `now`: November 30 gives March 2 (through
      February 30 in a common year), the later December 1 gives March 1, so a
      date of March 1 is before the first horizon and not before the second. */
  lemma ThreeMonthsFromNotMonotone()
    ensures Before(Date(2025, 10, 30, 0), Date(2025, 11, 1, 0))
    ensures ThreeMonthsFrom(Date(2025, 10, 30, 0)) == Date(2026, 2, 2, 0)
    ensures ThreeMonthsFrom(Date(2025, 11, 1, 0)) == Date(2026, 2, 1, 0)
    ensures Before(Date(2026, 2, 1, 0), ThreeMonthsFrom(Date(2025, 10, 30, 0)))
    ensures !Before(Date(2026, 2, 1, 0), ThreeMonthsFrom(Date(2025, 11, 1, 0)))
  {
  }
}
