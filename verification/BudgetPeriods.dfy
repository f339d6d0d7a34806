/** Budget periods (hy2panel/budgets.py): from one monthly reset to the next, in UTC. */
module BudgetPeriods {
  import opened Wrappers

  const DAY_SECONDS: int := 86400

  /** Days from 0001-01-01 to 1970-01-01, where timestamps count from. */
  const EPOCH_DAY: int := 719162

  const FIRST_MONTH: int := 12
  const LAST_MONTH: int := 9999 * 12 + 11

  predicate Leap(year: int) {
    year % 4 == 0 && (year % 100 != 0 || year % 400 == 0)
  }

  function MonthLength(year: int, month: int): (days: int)
    ensures 28 <= days <= 31
  {
    if month == 2 then (if Leap(year) then 29 else 28)
    else if month == 4 || month == 6 || month == 9 || month == 11 then 30
    else 31
  }

  /** Days before month i, where month i is month i % 12 + 1 of year i / 12. */
  function MonthStart(i: int): int
    requires i >= FIRST_MONTH
  {
    if i == FIRST_MONTH then 0 else MonthStart(i - 1) + MonthLength((i - 1) / 12, (i - 1) % 12 + 1)
  }

  /** Python's datetime, with the time of day in seconds. */
  datatype DateTime = DateTime(year: int, month: int, day: int, second: int)

  predicate Valid(d: DateTime) {
    && 1 <= d.year <= 9999 && 1 <= d.month <= 12
    && 1 <= d.day <= MonthLength(d.year, d.month) && 0 <= d.second < DAY_SECONDS
  }

  function Index(d: DateTime): int {
    d.year * 12 + d.month - 1
  }

  /** datetimes compare field by field. */
  predicate AtLeast(a: DateTime, b: DateTime) {
    if a.year != b.year then a.year > b.year
    else if a.month != b.month then a.month > b.month
    else if a.day != b.day then a.day > b.day
    else a.second >= b.second
  }

  function DayNumber(d: DateTime): int
    requires Valid(d)
  {
    MonthStart(Index(d)) + d.day - 1
  }

  function Timestamp(d: DateTime): int
    requires Valid(d)
  {
    (DayNumber(d) - EPOCH_DAY) * DAY_SECONDS + d.second
  }

  /** The month that holds a day, searching from month i on. */
  function MonthOf(day: int, i: int): (m: int)
    requires i >= FIRST_MONTH && MonthStart(i) <= day
    ensures m >= i && MonthStart(m) <= day < MonthStart(m + 1)
    decreases day - MonthStart(i)
  {
    if day < MonthStart(i + 1) then i else MonthOf(day, i + 1)
  }

  /** datetime.fromtimestamp in UTC; years outside 1..9999 are refused. */
  function FromTimestamp(now: int): Option<DateTime> {
    var day := now / DAY_SECONDS + EPOCH_DAY;
    if day < 0 then None
    else
      var m := MonthOf(day, FIRST_MONTH);
      if m > LAST_MONTH then None
      else Some(DateTime(m / 12, m % 12 + 1, day - MonthStart(m) + 1, now % DAY_SECONDS))
  }

  function ResetAt(year: int, month: int, resetDay: int): Option<DateTime> {
    if 1 <= year <= 9999
    then Some(DateTime(year, month, if resetDay < MonthLength(year, month) then resetDay else MonthLength(year, month), 0))
    else None
  }

  datatype Period = Period(start: DateTime, end: DateTime)

  /** budget_period; None where the source raises. */
  function BudgetPeriod(now: int, resetDay: int): Option<Period> {
    var current := FromTimestamp(now);
    if current.None? then None
    else
      var c := current.value;
      var thisReset := ResetAt(c.year, c.month, resetDay);
      var monthIndex := c.year * 12 + c.month - 1;
      if thisReset.None? then None
      else if AtLeast(c, thisReset.value) then
        var end := ResetAt((monthIndex + 1) / 12, (monthIndex + 1) % 12 + 1, resetDay);
        if end.None? then None else Some(Period(thisReset.value, end.value))
      else
        var start := ResetAt((monthIndex - 1) / 12, (monthIndex - 1) % 12 + 1, resetDay);
        if start.None? then None else Some(Period(start.value, thisReset.value))
  }

  lemma {:induction false} MonthsGrow(i: int, j: int)
    requires FIRST_MONTH <= i < j
    ensures MonthStart(i) + 28 * (j - i) <= MonthStart(j)
    ensures MonthStart(i) + MonthLength(i / 12, i % 12 + 1) <= MonthStart(j)
    decreases j - i
  {
    if i + 1 < j { MonthsGrow(i + 1, j); }
  }

  lemma MonthSplit(year: int, k: int)
    requires 0 <= k < 12
    ensures (year * 12 + k) / 12 == year && (year * 12 + k) % 12 == k
  {
  }

  lemma MonthStep(year: int, k: int)
    requires year >= 1 && 0 <= k < 12
    ensures MonthStart(year * 12 + k + 1) == MonthStart(year * 12 + k) + MonthLength(year, k + 1)
  {
    MonthSplit(year, k);
  }

  lemma YearLength(year: int)
    requires year >= 1
    ensures MonthStart(year * 12 + 12) == MonthStart(year * 12) + (if Leap(year) then 366 else 365)
  {
    hide MonthStart, Leap;
    MonthStep(year, 0);
    MonthStep(year, 1);
    MonthStep(year, 2);
    MonthStep(year, 3);
    MonthStep(year, 4);
    MonthStep(year, 5);
    MonthStep(year, 6);
    MonthStep(year, 7);
    MonthStep(year, 8);
    MonthStep(year, 9);
    MonthStep(year, 10);
    MonthStep(year, 11);
  }

  function LeapDays(years: int): int {
    years / 4 - years / 100 + years / 400
  }

  lemma DivideStep(n: int, d: int)
    requires d == 4 || d == 100 || d == 400
    ensures n / d == (n - 1) / d + (if n % d == 0 then 1 else 0)
  {
    if d == 4 {
    } else if d == 100 {
    } else {
    }
  }

  lemma Hundreds(q: int)
    ensures (400 * q) % 100 == 0
  {
    assert 400 * q == 100 * (4 * q);
  }

  lemma Fours(q: int)
    ensures (100 * q) % 4 == 0
  {
    assert 100 * q == 4 * (25 * q);
  }

  lemma Multiples(n: int)
    ensures n % 400 == 0 ==> n % 100 == 0
    ensures n % 100 == 0 ==> n % 4 == 0
  {
    Hundreds(n / 400);
    Fours(n / 100);
  }

  lemma LeapDaysStep(year: int)
    ensures LeapDays(year) == LeapDays(year - 1) + (if Leap(year) then 1 else 0)
  {
    DivideStep(year, 4);
    DivideStep(year, 100);
    DivideStep(year, 400);
    Multiples(year);
  }

  /** The month lengths add up to the calendar's closed form. */
  lemma {:induction false} YearStart(year: int)
    requires year >= 1
    ensures MonthStart(year * 12) == 365 * (year - 1) + LeapDays(year - 1)
  {
    if year > 1 {
      hide MonthStart, Leap, LeapDays;
      YearStart(year - 1);
      YearLength(year - 1);
      LeapDaysStep(year - 1);
      assert (year - 1) * 12 + 12 == year * 12;
    }
  }

  lemma EpochDay()
    ensures MonthStart(1970 * 12) == EPOCH_DAY
  {
    YearStart(1970);
  }

  /** A month's days follow its start, which is not before the first day of all. */
  lemma InMonth(m: int)
    requires m >= FIRST_MONTH
    ensures MonthStart(FIRST_MONTH) == 0 <= MonthStart(m)
    ensures MonthStart(m + 1) == MonthStart(m) + MonthLength(m / 12, m % 12 + 1)
  {
    hide MonthLength;
    if m > FIRST_MONTH { MonthsGrow(FIRST_MONTH, m); }
  }

  lemma DayInMonth(d: DateTime)
    requires Valid(d)
    ensures FIRST_MONTH <= Index(d) <= LAST_MONTH
    ensures MonthStart(FIRST_MONTH) == 0 <= MonthStart(Index(d)) <= DayNumber(d) < MonthStart(Index(d) + 1)
  {
    hide MonthStart, MonthLength;
    InMonth(Index(d));
    MonthSplit(d.year, d.month - 1);
  }

  /** Comparing datetimes field by field compares the instants. */
  lemma ComparesInstants(a: DateTime, b: DateTime)
    requires Valid(a) && Valid(b)
    ensures AtLeast(a, b) <==> Timestamp(a) >= Timestamp(b)
  {
    if Index(a) < Index(b) {
      MonthBefore(a, b);
    } else if Index(b) < Index(a) {
      MonthBefore(b, a);
    } else {
      assert a.year == b.year && a.month == b.month;
    }
  }

  lemma MonthBefore(a: DateTime, b: DateTime)
    requires Valid(a) && Valid(b) && Index(a) < Index(b)
    ensures !AtLeast(a, b) && AtLeast(b, a) && DayNumber(a) < DayNumber(b) && Timestamp(a) < Timestamp(b)
  {
    hide MonthStart, MonthLength, DayNumber;
    DayInMonth(a);
    DayInMonth(b);
    if Index(a) + 1 < Index(b) { MonthsGrow(Index(a) + 1, Index(b)); }
  }

  lemma MonthUnique(day: int, m: int, n: int)
    requires m >= FIRST_MONTH && n >= FIRST_MONTH
    requires MonthStart(m) <= day < MonthStart(m + 1) && MonthStart(n) <= day < MonthStart(n + 1)
    ensures m == n
  {
    hide MonthLength;
    if m + 1 < n { MonthsGrow(m + 1, n); }
    if n + 1 < m { MonthsGrow(n + 1, m); }
  }

  lemma DayOf(days: int, second: int)
    requires 0 <= second < DAY_SECONDS
    ensures (days * DAY_SECONDS + second) / DAY_SECONDS == days && (days * DAY_SECONDS + second) % DAY_SECONDS == second
  {
  }

  /** Timestamps and datetimes correspond one to one. */
  lemma DateTimeRoundTrip(d: DateTime)
    requires Valid(d)
    ensures FromTimestamp(Timestamp(d)) == Some(d)
  {
    hide MonthStart, MonthLength, MonthOf;
    DayInMonth(d);
    MonthSplit(d.year, d.month - 1);
    DayOf(DayNumber(d) - EPOCH_DAY, d.second);
    MonthUnique(DayNumber(d), MonthOf(DayNumber(d), FIRST_MONTH), Index(d));
  }

  lemma TimestampRoundTrip(now: int)
    requires FromTimestamp(now).Some?
    ensures Valid(FromTimestamp(now).value) && Timestamp(FromTimestamp(now).value) == now
  {
    var day := now / DAY_SECONDS + EPOCH_DAY;
    var m := MonthOf(day, FIRST_MONTH);
    InMonth(m);
    hide MonthStart, MonthLength, MonthOf;
    MonthSplit(m / 12, m % 12);
    assert m / 12 * 12 + m % 12 == m;
  }

  lemma DaysGrow(a: int, b: int)
    requires a <= b
    ensures a / DAY_SECONDS <= b / DAY_SECONDS
  {
  }

  /** Exactly the instants from year 1 to year 9999 have a datetime. */
  lemma Representable(now: int, a: DateTime, b: DateTime)
    requires Valid(a) && Valid(b) && Timestamp(a) <= now <= Timestamp(b)
    ensures FromTimestamp(now).Some?
  {
    hide MonthStart, MonthLength, MonthOf, DayNumber;
    DayInMonth(a);
    DayInMonth(b);
    DayOf(DayNumber(a) - EPOCH_DAY, a.second);
    DayOf(DayNumber(b) - EPOCH_DAY, b.second);
    DaysGrow(Timestamp(a), now);
    DaysGrow(now, Timestamp(b));
    var day := now / DAY_SECONDS + EPOCH_DAY;
    var m := MonthOf(day, FIRST_MONTH);
    if Index(b) + 1 < m { MonthsGrow(Index(b) + 1, m); }
  }

  /** The reset of month i. */
  function Reset(i: int, resetDay: int): DateTime {
    var n := MonthLength(i / 12, i % 12 + 1);
    DateTime(i / 12, i % 12 + 1, if resetDay < n then resetDay else n, 0)
  }

  lemma ResetInMonth(i: int, resetDay: int)
    requires FIRST_MONTH <= i <= LAST_MONTH && 1 <= resetDay <= 31
    ensures Valid(Reset(i, resetDay)) && Index(Reset(i, resetDay)) == i
  {
  }

  /** In month year * 12 + month - 1 the source computes that month's reset, if the year exists. */
  lemma ResetAtMonth(i: int, resetDay: int)
    ensures ResetAt(i / 12, i % 12 + 1, resetDay) == if FIRST_MONTH <= i <= LAST_MONTH then Some(Reset(i, resetDay)) else None
  {
  }

  /** Month i's reset is the last one at or before the instant. */
  ghost predicate Opens(i: int, now: int, resetDay: int)
    requires 1 <= resetDay <= 31
  {
    && FIRST_MONTH <= i < LAST_MONTH
    && Valid(Reset(i, resetDay)) && Valid(Reset(i + 1, resetDay))
    && Timestamp(Reset(i, resetDay)) <= now < Timestamp(Reset(i + 1, resetDay))
  }

  function Between(i: int, resetDay: int): Period {
    Period(Reset(i, resetDay), Reset(i + 1, resetDay))
  }

  /** Every period runs from one month's reset to the next month's and contains its instant. */
  lemma PeriodOpens(now: int, resetDay: int) returns (i: int)
    requires 1 <= resetDay <= 31 && BudgetPeriod(now, resetDay).Some?
    ensures Opens(i, now, resetDay) && BudgetPeriod(now, resetDay) == Some(Between(i, resetDay))
  {
    hide FromTimestamp, Timestamp, MonthLength, Reset, ResetAt;
    TimestampRoundTrip(now);
    var c := FromTimestamp(now).value;
    var m := Index(c);
    MonthSplit(c.year, c.month - 1);
    ResetAtMonth(m, resetDay);
    ResetInMonth(m, resetDay);
    ComparesInstants(c, Reset(m, resetDay));
    i := if AtLeast(c, Reset(m, resetDay)) then m else m - 1;
    ResetAtMonth(m + 1, resetDay);
    ResetAtMonth(m - 1, resetDay);
    ResetInMonth(i, resetDay);
    ResetInMonth(i + 1, resetDay);
    ComparesInstants(c, Reset(i, resetDay));
    ComparesInstants(c, Reset(i + 1, resetDay));
  }

  /** And conversely: all instants between two resets get exactly that period. */
  lemma OpensPeriod(now: int, resetDay: int, i: int)
    requires 1 <= resetDay <= 31 && Opens(i, now, resetDay)
    ensures BudgetPeriod(now, resetDay) == Some(Between(i, resetDay))
  {
    hide FromTimestamp, Timestamp, MonthLength, Reset, ResetAt;
    var a, b := Reset(i, resetDay), Reset(i + 1, resetDay);
    Representable(now, a, b);
    TimestampRoundTrip(now);
    var c := FromTimestamp(now).value;
    ComparesInstants(c, a);
    ComparesInstants(c, b);
    ResetInMonth(i, resetDay);
    ResetInMonth(i + 1, resetDay);
    var m := Index(c);
    assert m == i || m == i + 1;
    MonthSplit(c.year, c.month - 1);
    ResetAtMonth(m, resetDay);
    ResetAtMonth(m + 1, resetDay);
    ResetAtMonth(m - 1, resetDay);
  }

  /** Budget periods tile time: the instant lies in its period, every instant of the period gets
      the same period, and where it ends the next one starts. */
  lemma PeriodsTile(now: int, resetDay: int, t: int)
    requires 1 <= resetDay <= 31 && BudgetPeriod(now, resetDay).Some?
    ensures var p := BudgetPeriod(now, resetDay).value;
            && Valid(p.start) && Valid(p.end)
            && Timestamp(p.start) <= now < Timestamp(p.end)
            && (Timestamp(p.start) <= t < Timestamp(p.end) ==> BudgetPeriod(t, resetDay) == Some(p))
            && (Index(p.end) < LAST_MONTH ==>
                  && BudgetPeriod(Timestamp(p.end), resetDay).Some?
                  && BudgetPeriod(Timestamp(p.end), resetDay).value.start == p.end)
  {
    hide Timestamp, Reset, BudgetPeriod;
    var i := PeriodOpens(now, resetDay);
    var p := Between(i, resetDay);
    ResetInMonth(i, resetDay);
    ResetInMonth(i + 1, resetDay);
    if Timestamp(p.start) <= t < Timestamp(p.end) { OpensPeriod(t, resetDay, i); }
    if i + 1 < LAST_MONTH {
      ResetInMonth(i + 2, resetDay);
      ComparesInstants(p.end, Reset(i + 2, resetDay));
      OpensPeriod(Timestamp(p.end), resetDay, i + 1);
    }
  }

  /** There is no period only before the first reset of year 1 and from the last of year 9999. */
  lemma PeriodExists(now: int, resetDay: int)
    requires 1 <= resetDay <= 31
    ensures Valid(Reset(FIRST_MONTH, resetDay)) && Valid(Reset(LAST_MONTH, resetDay))
    ensures BudgetPeriod(now, resetDay).Some? <==>
              Timestamp(Reset(FIRST_MONTH, resetDay)) <= now < Timestamp(Reset(LAST_MONTH, resetDay))
  {
    hide FromTimestamp, Timestamp, Reset, ResetAt, BudgetPeriod;
    var a, b := Reset(FIRST_MONTH, resetDay), Reset(LAST_MONTH, resetDay);
    ResetInMonth(FIRST_MONTH, resetDay);
    ResetInMonth(LAST_MONTH, resetDay);
    if BudgetPeriod(now, resetDay).Some? {
      var i := PeriodOpens(now, resetDay);
      ResetInMonth(i, resetDay);
      ResetInMonth(i + 1, resetDay);
      ComparesInstants(Reset(i, resetDay), a);
      ComparesInstants(b, Reset(i + 1, resetDay));
    }
    if Timestamp(a) <= now < Timestamp(b) {
      var i := LastReset(now, resetDay, FIRST_MONTH);
      OpensPeriod(now, resetDay, i);
    }
  }

  lemma {:induction false} LastReset(now: int, resetDay: int, from: int) returns (i: int)
    requires 1 <= resetDay <= 31 && FIRST_MONTH <= from < LAST_MONTH
    requires Valid(Reset(from, resetDay)) && Valid(Reset(LAST_MONTH, resetDay))
    requires Timestamp(Reset(from, resetDay)) <= now < Timestamp(Reset(LAST_MONTH, resetDay))
    ensures Opens(i, now, resetDay)
    decreases LAST_MONTH - from
  {
    hide Timestamp, Reset;
    ResetInMonth(from + 1, resetDay);
    if now < Timestamp(Reset(from + 1, resetDay)) {
      i := from;
    } else {
      i := LastReset(now, resetDay, from + 1);
    }
  }
}
