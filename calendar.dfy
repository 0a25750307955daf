/**
 * Naive dates and date-times on the proleptic Gregorian calendar, as Python's
 * `datetime` module has them: years 1 to 9999, and `datetime - timedelta`
 * raising `OverflowError` below 0001-01-01 00:00:00.
 */
module Calendar {
  import opened Common

  const MinYear := 1
  const MaxYear := 9999
  const SecondsPerDay := 86400

  datatype Date = Date(year: int, month: int, day: int)
  datatype DateTime = DateTime(date: Date, hour: int, minute: int, second: int)

  /** The earliest date Python can represent (`date.min`). */
  const FirstDate := Date(MinYear, 1, 1)

  predicate IsLeapYear(y: int) {
    y % 4 == 0 && (y % 100 != 0 || y % 400 == 0)
  }

  function DaysInMonth(y: int, m: int): (n: int)
    requires 1 <= m <= 12
    ensures 28 <= n <= 31
  {
    if m == 2 then (if IsLeapYear(y) then 29 else 28)
    else if m == 4 || m == 6 || m == 9 || m == 11 then 30
    else 31
  }

  function DaysInYear(y: int): int {
    if IsLeapYear(y) then 366 else 365
  }

  predicate ValidDate(d: Date) {
    MinYear <= d.year <= MaxYear && 1 <= d.month <= 12 && 1 <= d.day <= DaysInMonth(d.year, d.month)
  }

  predicate ValidDateTime(t: DateTime) {
    ValidDate(t.date) && 0 <= t.hour < 24 && 0 <= t.minute < 60 && 0 <= t.second < 60
  }

  /** Days in the years before `y`, counted from year 1. */
  function DaysBeforeYear(y: int): int
    requires y >= 1
  {
    var n := y - 1;
    n * 365 + n / 4 - n / 100 + n / 400
  }

  /** Days in the months of year `y` before month `m`. */
  function DaysBeforeMonth(y: int, m: int): int
    requires 1 <= m <= 12
  {
    [0, 31, 59, 90, 120, 151, 181, 212, 243, 273, 304, 334][m - 1]
    + (if m > 2 && IsLeapYear(y) then 1 else 0)
  }

  /** Python's `date.toordinal()`: 0001-01-01 is day 1. */
  function Ordinal(d: Date): int
    requires ValidDate(d)
  {
    DaysBeforeYear(d.year) + DaysBeforeMonth(d.year, d.month) + d.day
  }

  function SecondOfDay(t: DateTime): int {
    t.hour * 3600 + t.minute * 60 + t.second
  }

  /** Seconds elapsed since 0001-01-01 00:00:00: the order in which timers fire. */
  function Seconds(t: DateTime): int
    requires ValidDateTime(t)
  {
    (Ordinal(t.date) - 1) * SecondsPerDay + SecondOfDay(t)
  }

  lemma YearStep(y: int)
    requires y >= 1
    ensures DaysBeforeYear(y + 1) == DaysBeforeYear(y) + DaysInYear(y)
  {
    var n := y - 1;
    assert (n + 1) / 4 - n / 4 == if y % 4 == 0 then 1 else 0;
    assert (n + 1) / 100 - n / 100 == if y % 100 == 0 then 1 else 0;
    assert (n + 1) / 400 - n / 400 == if y % 400 == 0 then 1 else 0;
  }

  lemma MonthStep(y: int, m: int)
    requires 2 <= m <= 12
    ensures DaysBeforeMonth(y, m) == DaysBeforeMonth(y, m - 1) + DaysInMonth(y, m - 1)
  {
  }

  lemma LastMonthEndsYear(y: int)
    ensures DaysBeforeMonth(y, 12) + DaysInMonth(y, 12) == DaysInYear(y)
  {
  }

  /** Every valid date is on day 1 or later, and only `FirstDate` is on day 1. */
  lemma OrdinalAtLeastOne(d: Date)
    requires ValidDate(d)
    ensures Ordinal(d) >= 1
    ensures Ordinal(d) == 1 <==> d == FirstDate
  {
    if d.year > 1 {
      var n := d.year - 1;
      assert n / 4 - n / 100 >= 0;
      assert DaysBeforeYear(d.year) >= 365;
    }
  }

  /** The day before `d`. */
  function PrevDate(d: Date): (p: Date)
    requires ValidDate(d) && d != FirstDate
    ensures ValidDate(p) && Ordinal(p) == Ordinal(d) - 1
  {
    if d.day > 1 then
      Date(d.year, d.month, d.day - 1)
    else if d.month > 1 then
      MonthStep(d.year, d.month);
      Date(d.year, d.month - 1, DaysInMonth(d.year, d.month - 1))
    else
      YearStep(d.year - 1);
      LastMonthEndsYear(d.year - 1);
      Date(d.year - 1, 12, 31)
  }

  /** The time `n` seconds after midnight on `d`. */
  function AtSecondOfDay(d: Date, n: int): (t: DateTime)
    requires 0 <= n < SecondsPerDay
    ensures t.date == d && SecondOfDay(t) == n
    ensures 0 <= t.hour < 24 && 0 <= t.minute < 60 && 0 <= t.second < 60
  {
    DateTime(d, n / 3600, n % 3600 / 60, n % 60)
  }

  /**
   * `t - timedelta(seconds=delta)` for a delta of at most one day: `None` where
   * Python raises `OverflowError` because the result would precede 0001-01-01.
   */
  function SecondsBefore(t: DateTime, delta: int): (r: Option<DateTime>)
    requires ValidDateTime(t) && 0 <= delta <= SecondsPerDay
    ensures r.Some? <==> Seconds(t) >= delta
    ensures r.Some? ==> ValidDateTime(r.value) && Seconds(r.value) == Seconds(t) - delta
  {
    OrdinalAtLeastOne(t.date);
    var n := SecondOfDay(t);
    if n >= delta then
      Some(AtSecondOfDay(t.date, n - delta))
    else if t.date == FirstDate then
      None
    else
      Some(AtSecondOfDay(PrevDate(t.date), n + SecondsPerDay - delta))
  }

  /** Going back no further than midnight stays on the same day. */
  lemma SecondsBeforeSameDay(t: DateTime, delta: int)
    requires ValidDateTime(t) && 0 <= delta <= SecondOfDay(t)
    ensures SecondsBefore(t, delta) == Some(AtSecondOfDay(t.date, SecondOfDay(t) - delta))
  {
  }

  /** Going back past midnight lands on the previous day, `delta` seconds earlier on the clock. */
  lemma SecondsBeforePrevDay(t: DateTime, delta: int)
    requires ValidDateTime(t) && SecondOfDay(t) < delta <= SecondsPerDay && Seconds(t) >= delta
    ensures t.date != FirstDate
    ensures SecondsBefore(t, delta) == Some(AtSecondOfDay(PrevDate(t.date), SecondOfDay(t) + SecondsPerDay - delta))
  {
    OrdinalAtLeastOne(t.date);
  }
}
