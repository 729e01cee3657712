// Calendar: the proleptic Gregorian dates and UTC date-times that chrono
// provides to the services, with just the operations they use: the first
// day of a month, the next month, stepping by days, comparison, and the
// number of days between two dates.

module Calendar {

  datatype Date = Date(year: int, month: int, day: int)

  predicate IsLeapYear(y: int) {
    y % 4 == 0 && (y % 100 != 0 || y % 400 == 0)
  }

  function DaysInMonth(y: int, m: int): (n: int)
    requires 1 <= m <= 12
    ensures 28 <= n <= 31
    ensures n == 29 <==> m == 2 && IsLeapYear(y)
  {
    if m == 2 then (if IsLeapYear(y) then 29 else 28)
    else if m == 4 || m == 6 || m == 9 || m == 11 then 30
    else 31
  }

  /** A date chrono can represent (the year range of chrono is not modelled). */
  predicate Valid(d: Date) {
    1 <= d.month <= 12 && 1 <= d.day <= DaysInMonth(d.year, d.month)
  }

  /** An order-preserving number for a date: not a day count, but ordered
      as the dates are (see KeyIsLexicographic). */
  function Key(d: Date): int {
    d.year * 400 + d.month * 32 + d.day
  }

  predicate Before(a: Date, b: Date) {
    a.year < b.year || (a.year == b.year && (a.month < b.month || (a.month == b.month && a.day < b.day)))
  }

  lemma KeyIsLexicographic(a: Date, b: Date)
    requires Valid(a) && Valid(b)
    ensures Key(a) < Key(b) <==> Before(a, b)
    ensures Key(a) == Key(b) <==> a == b
  {
  }

  /** The day after `d`, rolling over into the next month and year. */
  function NextDay(d: Date): (n: Date)
    requires Valid(d)
    ensures Valid(n) && Key(d) < Key(n)
  {
    if d.day < DaysInMonth(d.year, d.month) then Date(d.year, d.month, d.day + 1)
    else if d.month < 12 then Date(d.year, d.month + 1, 1)
    else Date(d.year + 1, 1, 1)
  }

  /** No valid date lies strictly between `d` and the day after. */
  lemma NextDayIsNext(d: Date, e: Date)
    requires Valid(d) && Valid(e) && Key(d) < Key(e)
    ensures Key(NextDay(d)) <= Key(e)
  {
    KeyIsLexicographic(d, e);
    var n := NextDay(d);
    KeyIsLexicographic(n, e);
    if d.day < DaysInMonth(d.year, d.month) {
      assert n == Date(d.year, d.month, d.day + 1);
    } else if d.month < 12 {
      assert n == Date(d.year, d.month + 1, 1);
    } else {
      assert n == Date(d.year + 1, 1, 1);
    }
  }

  /** `d + Duration::days(n)` on the date part. */
  function AddDays(d: Date, n: nat): (r: Date)
    requires Valid(d)
    ensures Valid(r) && Key(d) + n <= Key(r)
    decreases n
  {
    if n == 0 then d else AddDays(NextDay(d), n - 1)
  }

  /** The day before `d`, rolling back into the previous month and year. */
  function PrevDay(d: Date): (p: Date)
    requires Valid(d)
    ensures Valid(p) && NextDay(p) == d
  {
    if d.day > 1 then Date(d.year, d.month, d.day - 1)
    else if d.month > 1 then Date(d.year, d.month - 1, DaysInMonth(d.year, d.month - 1))
    else Date(d.year - 1, 12, 31)
  }

  /** `d - Duration::days(n)` on the date part. */
  function SubDays(d: Date, n: nat): (r: Date)
    requires Valid(d)
    ensures Valid(r)
    decreases n
  {
    if n == 0 then d else SubDays(PrevDay(d), n - 1)
  }

  /** Stepping back `n` days and then forward `n` days returns to `d`. */
  lemma {:induction false} AddSubDays(d: Date, n: nat)
    requires Valid(d)
    ensures AddDays(SubDays(d, n), n) == d
    decreases n
  {
    if n > 0 {
      var p := PrevDay(d);
      AddSubDays(p, n - 1);
      AddDaysLast(SubDays(p, n - 1), n - 1);
    }
  }

  /** `n + 1` days forward are `n` days forward and then one more. */
  lemma {:induction false} AddDaysLast(d: Date, n: nat)
    requires Valid(d)
    ensures AddDays(d, n + 1) == NextDay(AddDays(d, n))
    decreases n
  {
    if n > 0 {
      AddDaysLast(NextDay(d), n - 1);
    }
  }

  /** The number of days from `a` forward to `b`. */
  function Forward(a: Date, b: Date): nat
    requires Valid(a) && Valid(b) && Key(a) <= Key(b)
    decreases Key(b) - Key(a)
  {
    if Key(a) == Key(b) then 0
    else
      NextDayIsNext(a, b);
      1 + Forward(NextDay(a), b)
  }

  /** `(b - a).num_days()` for two dates. */
  function DaysBetween(a: Date, b: Date): int
    requires Valid(a) && Valid(b)
  {
    if Key(a) <= Key(b) then Forward(a, b) else -(Forward(b, a) as int)
  }

  /** Counting days forward undoes stepping forward by days. */
  lemma {:induction false} ForwardAddDays(d: Date, n: nat)
    requires Valid(d)
    ensures Forward(d, AddDays(d, n)) == n
    decreases n
  {
    if n > 0 {
      ForwardAddDays(NextDay(d), n - 1);
      KeyIsLexicographic(d, AddDays(d, n));
    }
  }

  lemma DaysBetweenIsForward(d: Date, n: nat)
    requires Valid(d)
    ensures DaysBetween(d, AddDays(d, n)) == n && DaysBetween(AddDays(d, n), d) == -(n as int)
  {
    ForwardAddDays(d, n);
    if n > 0 {
      KeyIsLexicographic(d, AddDays(d, n));
    }
  }

  /** A UTC date-time: a date and a time of day in seconds. */
  datatype DateTime = DateTime(date: Date, time: int)

  const DayLength := 86400

  predicate ValidTime(t: DateTime) {
    Valid(t.date) && 0 <= t.time < DayLength
  }

  /** An order-preserving number for a date-time. */
  function Stamp(t: DateTime): int {
    Key(t.date) * 86400 + t.time
  }

  lemma StampIsLexicographic(a: DateTime, b: DateTime)
    requires ValidTime(a) && ValidTime(b)
    ensures Stamp(a) < Stamp(b) <==> Before(a.date, b.date) || (a.date == b.date && a.time < b.time)
    ensures Stamp(a) == Stamp(b) <==> a == b
  {
    KeyIsLexicographic(a.date, b.date);
  }

  /** `t + Duration::days(n)`. */
  function AddDaysTime(t: DateTime, n: nat): (r: DateTime)
    requires ValidTime(t)
    ensures ValidTime(r) && r.time == t.time && Key(t.date) + n <= Key(r.date)
    ensures n >= 1 ==> Stamp(t) < Stamp(r)
  {
    DateTime(AddDays(t.date, n), t.time)
  }

  /** `t - Duration::days(n)`: `n` days earlier at the same time of day. */
  function SubDaysTime(t: DateTime, n: nat): (r: DateTime)
    requires ValidTime(t)
    ensures ValidTime(r) && r.time == t.time
  {
    DateTime(SubDays(t.date, n), t.time)
  }

  /** Midnight on the first day of month `m` of year `y`. */
  function MonthStart(y: int, m: int): (t: DateTime)
    requires 1 <= m <= 12
    ensures ValidTime(t) && t.date.day == 1 && t.time == 0
  {
    DateTime(Date(y, m, 1), 0)
  }

  /** The month after (`y`, `m`): month 12 rolls over to month 1 of the
      next year. */
  function NextMonth(y: int, m: int): (r: (int, int))
    requires 1 <= m <= 12
    ensures 1 <= r.1 <= 12
    ensures MonthIndex(r.0, r.1) == MonthIndex(y, m) + 1
  {
    if m == 12 then (y + 1, 1) else (y, m + 1)
  }

  /** Months counted from January of year 0. */
  function MonthIndex(y: int, m: int): int {
    y * 12 + m - 1
  }

  /** Month starts are ordered as their months are. */
  lemma MonthStartOrder(y1: int, m1: int, y2: int, m2: int)
    requires 1 <= m1 <= 12 && 1 <= m2 <= 12
    ensures Stamp(MonthStart(y1, m1)) < Stamp(MonthStart(y2, m2)) <==> MonthIndex(y1, m1) < MonthIndex(y2, m2)
  {
    StampIsLexicographic(MonthStart(y1, m1), MonthStart(y2, m2));
  }

  /** A date-time lies in month (`y`, `m`) exactly when it is at or after
      that month's start and before the next month's start. */
  lemma InMonth(t: DateTime, y: int, m: int)
    requires ValidTime(t) && 1 <= m <= 12
    ensures var (ny, nm) := NextMonth(y, m);
      (Stamp(MonthStart(y, m)) <= Stamp(t) < Stamp(MonthStart(ny, nm))) <==> (t.date.year == y && t.date.month == m)
  {
    var (ny, nm) := NextMonth(y, m);
    StampIsLexicographic(MonthStart(y, m), t);
    StampIsLexicographic(t, MonthStart(ny, nm));
  }
}
