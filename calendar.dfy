/**
  * Proleptic Gregorian dates as Python's `datetime` uses them, adding whole days
  * (`+ timedelta(days=n)`), and the clock reading that `datetime.now()` supplies.
  */
module Calendar {

  /** The largest year `datetime` accepts. */
  const MaxYear := 9999

  datatype Date = Date(year: int, month: int, day: int)

  predicate IsLeapYear(y: int) {
    y % 4 == 0 && (y % 100 != 0 || y % 400 == 0)
  }

  function DaysInMonth(y: int, m: int): (n: int)
    requires 1 <= m <= 12
    ensures 28 <= n <= 31
  {
    if m == 2 then (if IsLeapYear(y) then 29 else 28)
    else if m == 4 || m == 6 || m == 9 || m == 11 then 30
    else 31
  }

  /** A calendar date, with no upper bound on the year. */
  predicate ValidDate(d: Date) {
    1 <= d.year && 1 <= d.month <= 12 && 1 <= d.day <= DaysInMonth(d.year, d.month)
  }

  /** A date `datetime` can represent. */
  predicate InRange(d: Date) {
    ValidDate(d) && d.year <= MaxYear
  }

  /** Chronological order. */
  predicate Before(d: Date, e: Date) {
    d.year < e.year || (d.year == e.year && (d.month < e.month || (d.month == e.month && d.day < e.day)))
  }

  predicate OnOrBefore(d: Date, e: Date) {
    d == e || Before(d, e)
  }

  function NextDay(d: Date): (r: Date)
    requires ValidDate(d)
    ensures ValidDate(r) && Before(d, r)
  {
    if d.day < DaysInMonth(d.year, d.month) then Date(d.year, d.month, d.day + 1)
    else if d.month < 12 then Date(d.year, d.month + 1, 1)
    else Date(d.year + 1, 1, 1)
  }

  /** `d + timedelta(days=n)`, before the range check on the year. */
  function AddDays(d: Date, n: nat): (r: Date)
    requires ValidDate(d)
    ensures ValidDate(r) && d.year <= r.year
    ensures n > 0 ==> Before(d, r)
  {
    if n == 0 then d
    else
      var prev := AddDays(d, n - 1);
      BeforeTransitive(d, prev, NextDay(prev));
      NextDay(prev)
  }

  lemma BeforeTransitive(a: Date, b: Date, c: Date)
    requires OnOrBefore(a, b) && Before(b, c)
    ensures Before(a, c)
  {
  }

  /** Adding more days gives a strictly later date. */
  lemma {:induction false} AddDaysIncreasing(d: Date, m: nat, n: nat)
    requires ValidDate(d) && m < n
    ensures Before(AddDays(d, m), AddDays(d, n))
    decreases n
  {
    if m < n - 1 {
      AddDaysIncreasing(d, m, n - 1);
    }
    BeforeTransitive(AddDays(d, m), AddDays(d, n - 1), AddDays(d, n));
  }

  /** Comparing `d + m` with `d + n` is comparing `m` with `n`. */
  lemma AddDaysOrder(d: Date, m: nat, n: nat)
    requires ValidDate(d)
    ensures OnOrBefore(AddDays(d, m), AddDays(d, n)) <==> m <= n
  {
    if m < n {
      AddDaysIncreasing(d, m, n);
    } else if n < m {
      AddDaysIncreasing(d, n, m);
    }
  }

  /**
    * A reading of the clock: the date, `weekday()` (0 is Monday) and whether the time of
    * day is exactly midnight (the only time at which a date-time equals that date's own
    * midnight).
    */
  datatype Clock = Clock(date: Date, weekday: int, atMidnight: bool)

  type Today = c: Clock | InRange(c.date) && 0 <= c.weekday < 7
    witness Clock(Date(2000, 1, 1), 5, true)
}
