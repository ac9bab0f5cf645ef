/** The proleptic Gregorian calendar of Python's `datetime.date`, and the
    instants (`datetime` values in UTC) the storage readers compare against. */
module Calendar {

  datatype Date = Date(year: int, month: int, day: int)

  /** A UTC `datetime`: a calendar date plus the time of day, in any unit
      finer than a day (only its order and whether it is midnight matter). */
  datatype Instant = Instant(date: Date, timeOfDay: nat)

  predicate IsLeap(y: int) {
    y % 4 == 0 && (y % 100 != 0 || y % 400 == 0)
  }

  function DaysInMonth(y: int, m: int): (n: int)
    requires 1 <= m <= 12
    ensures 28 <= n <= 31
    ensures m == 2 ==> (n == 29 <==> IsLeap(y))
  {
    if m == 2 then (if IsLeap(y) then 29 else 28)
    else if m == 4 || m == 6 || m == 9 || m == 11 then 30
    else 31
  }

  /** A real calendar day (any year, as date arithmetic needs). */
  predicate ValidDate(d: Date) {
    1 <= d.month <= 12 && 1 <= d.day <= DaysInMonth(d.year, d.month)
  }

  /** A date Python's `datetime` can hold: years 1 to 9999. */
  predicate PyDate(d: Date) {
    ValidDate(d) && 1 <= d.year <= 9999
  }

  predicate Before(a: Date, b: Date) {
    a.year < b.year ||
    (a.year == b.year && (a.month < b.month || (a.month == b.month && a.day < b.day)))
  }

  predicate AtMost(a: Date, b: Date) {
    a == b || Before(a, b)
  }

  predicate InstantAtMost(a: Instant, b: Instant) {
    Before(a.date, b.date) || (a.date == b.date && a.timeOfDay <= b.timeOfDay)
  }

  /** The instant at which a day begins. */
  function Midnight(d: Date): Instant {
    Instant(d, 0)
  }

  function NextDay(d: Date): (r: Date)
    requires ValidDate(d)
    ensures ValidDate(r) && Before(d, r)
  {
    if d.day < DaysInMonth(d.year, d.month) then Date(d.year, d.month, d.day + 1)
    else if d.month < 12 then Date(d.year, d.month + 1, 1)
    else Date(d.year + 1, 1, 1)
  }

  function PrevDay(d: Date): (r: Date)
    requires ValidDate(d)
    ensures ValidDate(r) && Before(r, d)
  {
    if d.day > 1 then Date(d.year, d.month, d.day - 1)
    else if d.month > 1 then Date(d.year, d.month - 1, DaysInMonth(d.year, d.month - 1))
    else Date(d.year - 1, 12, 31)
  }

  lemma NextPrev(d: Date)
    requires ValidDate(d)
    ensures NextDay(PrevDay(d)) == d && PrevDay(NextDay(d)) == d
  {
  }

  /** No valid day lies strictly between a day and the next one. */
  lemma NothingBetween(d: Date, x: Date)
    requires ValidDate(d) && ValidDate(x)
    ensures !(Before(d, x) && Before(x, NextDay(d)))
  {
  }

  lemma BeforeTransitive(a: Date, b: Date, c: Date)
    requires Before(a, b) && Before(b, c)
    ensures Before(a, c)
  {
  }

  /** The date `n` days after `d` (`d + timedelta(days=n)`). */
  function Forward(d: Date, n: nat): (r: Date)
    requires ValidDate(d)
    ensures ValidDate(r)
  {
    if n == 0 then d else NextDay(Forward(d, n - 1))
  }

  /** The date `n` days before `d` (`d - timedelta(days=n)`). */
  function Backward(d: Date, n: nat): (r: Date)
    requires ValidDate(d)
    ensures ValidDate(r)
    decreases n
  {
    if n == 0 then d else Backward(PrevDay(d), n - 1)
  }

  lemma {:induction false} ForwardBackward(d: Date, n: nat)
    requires ValidDate(d)
    ensures Forward(Backward(d, n), n) == d
    decreases n
  {
    if n > 0 {
      ForwardBackward(PrevDay(d), n - 1);
      NextPrev(d);
    }
  }

  /** Stepping forward is strictly increasing. */
  lemma {:induction false} ForwardIncreasing(d: Date, i: nat, j: nat)
    requires ValidDate(d) && i < j
    ensures Before(Forward(d, i), Forward(d, j))
    decreases j
  {
    if i < j - 1 {
      ForwardIncreasing(d, i, j - 1);
      BeforeTransitive(Forward(d, i), Forward(d, j - 1), Forward(d, j));
    }
  }

  /** A number that orders valid dates as `Before` does (not a day count). */
  function Ordinal(d: Date): int {
    d.year * 372 + (d.month - 1) * 31 + (d.day - 1)
  }

  lemma OrdinalOrder(a: Date, b: Date)
    requires ValidDate(a) && ValidDate(b)
    ensures Before(a, b) <==> Ordinal(a) < Ordinal(b)
    ensures a == b <==> Ordinal(a) == Ordinal(b)
  {
  }
}
