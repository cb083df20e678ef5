/** The monthly report: the daily summary rows of one UTC month, and what they add up to. */
module Report {
  import opened Ordering
  import opened Rows
  import opened Orders
  import opened Pipeline
  import opened DerivedData

  predicate LeapYear(y: int) {
    y % 4 == 0 && (y % 100 != 0 || y % 400 == 0)
  }

  /** Days of month `m`, counted from January 1970 = 0; earlier months are negative. */
  function DaysInMonth(m: int): nat {
    var month := m % 12;
    if month == 1 then (if LeapYear(1970 + m / 12) then 29 else 28)
    else if month in {3, 5, 8, 10} then 30 else 31
  }

  /**
   The day number of the first day of month `m`, 1 January 1970 being day 0; AddDate(0, 1, 0) moves it to the first
   of the next month.
   */
  function MonthStart(m: int): int
    decreases if m < 0 then -m else m
  {
    if m == 0 then 0
    else if m > 0 then MonthStart(m - 1) + DaysInMonth(m - 1)
    else MonthStart(m + 1) - DaysInMonth(m)
  }

  lemma NextMonth(m: int)
    ensures MonthStart(m + 1) == MonthStart(m) + DaysInMonth(m)
  {
  }

  // ----- The Gregorian calendar, counted without months -----

  /** Days before the March that begins year `y`, counted from March of year 0. */
  function YearDays(y: int): int { 365 * y + y / 4 - y / 100 + y / 400 }

  /** Days from the first of March to the first of the month `p` months later. */
  function SinceMarch(p: nat): nat { (153 * p + 2) / 5 }

  /**
   Days from 1 January 1970 to the first of a month (1 = January): years begin in March, so that the leap day is the
   last of its year and the lengths of the months before it repeat every five.
   */
  function CivilDay(year: int, month: nat): int {
    YearDays(if month <= 2 then year - 1 else year) + SinceMarch((month + 9) % 12) - 719_468
  }

  lemma NextMultiple(y: int)
    ensures y / 4 - (y - 1) / 4 == (if y % 4 == 0 then 1 else 0)
    ensures y / 100 - (y - 1) / 100 == (if y % 100 == 0 then 1 else 0)
    ensures y / 400 - (y - 1) / 400 == (if y % 400 == 0 then 1 else 0)
  {
  }

  lemma YearLength(y: int)
    ensures YearDays(y) - YearDays(y - 1) == if LeapYear(y) then 366 else 365
  {
    NextMultiple(y);
    assert (y % 100 == 0 ==> y % 4 == 0) && (y % 400 == 0 ==> y % 100 == 0);
  }

  lemma PatternOfFive(p: nat)
    requires p < 11
    ensures SinceMarch(p + 1) - SinceMarch(p) == if p in {1, 3, 6, 8} then 30 else 31
  {
  }

  lemma CivilStep(year: int, month: nat)
    requires 1 <= month <= 12
    ensures (if month == 12 then CivilDay(year + 1, 1) else CivilDay(year, month + 1)) - CivilDay(year, month)
         == if month == 2 then (if LeapYear(year) then 29 else 28) else if month in {4, 6, 9, 11} then 30 else 31
  {
    if month == 2 {
      YearLength(year);
      assert SinceMarch(0) == 0 && SinceMarch(11) == 337;
    } else {
      var p := (month + 9) % 12;
      assert (month + 10) % 12 == p + 1;
      PatternOfFive(p);
    }
  }

  lemma MonthCarry(m: int)
    ensures if m % 12 == 11 then (m + 1) / 12 == m / 12 + 1 && (m + 1) % 12 == 0
            else (m + 1) / 12 == m / 12 && (m + 1) % 12 == m % 12 + 1
  {
  }

  /** Month `m`, counted from January 1970, by year and month. */
  function CivilStart(m: int): int { CivilDay(1970 + m / 12, m % 12 + 1) }

  lemma NextCivil(m: int, next: int)
    requires next == m + 1
    ensures CivilStart(next) == CivilStart(m) + DaysInMonth(m)
  {
    MonthCarry(m);
    CivilStep(1970 + m / 12, m % 12 + 1);
  }

  lemma CivilOrigin()
    ensures CivilStart(0) == 0
  {
    assert 1969 / 4 == 492 && 1969 / 100 == 19 && 1969 / 400 == 4;
    assert YearDays(1969) == 719_162;
    assert (1 + 9) % 12 == 10 && SinceMarch(10) == 306;
  }

  /** Months start where the Gregorian calendar has them start. */
  lemma {:induction false} MonthStartIsCivil(m: int)
    ensures MonthStart(m) == CivilStart(m)
    decreases if m < 0 then -m else m
  {
    if m > 0 {
      MonthStartIsCivil(m - 1);
      NextCivil(m - 1, m);
    } else if m < 0 {
      MonthStartIsCivil(m + 1);
      NextCivil(m, m + 1);
    } else {
      CivilOrigin();
    }
  }

  lemma {:induction false} MonthsGrow(m: int, n: int)
    requires m <= n
    ensures MonthStart(m) <= MonthStart(n)
    decreases n - m
  {
    if m < n {
      NextMonth(n - 1);
      MonthsGrow(m, n - 1);
    }
  }

  lemma {:induction false} MonthOf(d: int) returns (m: int)
    ensures MonthStart(m) <= d < MonthStart(m + 1)
    decreases if d < 0 then -d else d
  {
    if d == 0 {
      m := 0;
      NextMonth(0);
    } else if d > 0 {
      m := MonthOf(d - 1);
      NextMonth(m);
      NextMonth(m + 1);
      if d == MonthStart(m + 1) {
        m := m + 1;
      }
    } else {
      m := MonthOf(d + 1);
      NextMonth(m - 1);
      if d < MonthStart(m) {
        m := m - 1;
      }
    }
  }

  /** Every day lies in exactly one month. */
  lemma {:induction false} MonthsPartition(d: int)
    ensures exists m :: MonthStart(m) <= d < MonthStart(m + 1)
    ensures forall m, n | MonthStart(m) <= d < MonthStart(m + 1) && MonthStart(n) <= d < MonthStart(n + 1) :: m == n
  {
    var k := MonthOf(d);
    forall m, n | MonthStart(m) <= d < MonthStart(m + 1) && MonthStart(n) <= d < MonthStart(n + 1) ensures m == n {
      if m < n {
        MonthsGrow(m + 1, n);
      } else if n < m {
        MonthsGrow(n + 1, m);
      }
    }
  }

  datatype DayRow = DayRow(day: nat, orders: int, amount: int, updatedAt: nat)

  predicate HasRow(t: Table, day: int) {
    day >= 0 && KDay(day) in t && t[KDay(day)].RDay?
  }

  function RowOf(t: Table, day: int): DayRow
    requires HasRow(t, day)
  {
    var row := t[KDay(day)];
    DayRow(day, row.orders, row.amount, row.updatedAt)
  }

  /** The row of one day, if it has one. */
  function RowsOn(t: Table, day: int): seq<DayRow> {
    if HasRow(t, day) then [RowOf(t, day)] else []
  }

  /** WHERE sales_date >= from AND sales_date < to ORDER BY sales_date ASC. */
  function RowsBetween(t: Table, from: int, to: int): seq<DayRow>
    decreases if from < to then to - from else 0
  {
    if from >= to then [] else RowsOn(t, from) + RowsBetween(t, from + 1, to)
  }

  lemma FirstDayFirst(t: Table, from: int, to: int)
    requires from < to
    ensures RowsBetween(t, from, to) == RowsOn(t, from) + RowsBetween(t, from + 1, to)
  {
  }

  lemma Append(a: seq<DayRow>, b: seq<DayRow>, c: seq<DayRow>)
    ensures a + (b + c) == (a + b) + c
  {
  }

  /** The query's rows, appended one by one. */
  method ReadRows(t: Table, from: int, to: int) returns (out: seq<DayRow>)
    ensures out == RowsBetween(t, from, to)
  {
    out := [];
    var day := from;
    while day < to
      invariant out + RowsBetween(t, day, to) == RowsBetween(t, from, to)
    {
      ghost var rest := RowsBetween(t, day + 1, to);
      FirstDayFirst(t, day, to);
      Append(out, RowsOn(t, day), rest);
      var rows := RowsOn(t, day);
      out := out + rows;
      day := day + 1;
    }
  }

  /** The rows of a range are exactly the table's rows of those days, in date order. */
  lemma {:induction false} RowsAreTheTables(t: Table, from: int, to: int)
    ensures var rows := RowsBetween(t, from, to);
      && (forall r :: r in rows <==>
            from <= r.day < to && Get(t, KDay(r.day)) == Some(RDay(r.orders, r.amount, r.updatedAt)))
      && (forall i, j | 0 <= i < j < |rows| :: rows[i].day < rows[j].day)
    decreases if from < to then to - from else 0
  {
    if from < to {
      RowsAreTheTables(t, from + 1, to);
      FirstDayFirst(t, from, to);
      var rest := RowsBetween(t, from + 1, to);
      assert forall r | r in rest :: from < r.day;
    }
  }

  /** Exactly the summary rows of the month's days, oldest first. */
  method Monthly(t: Table, month: int) returns (out: seq<DayRow>)
    ensures out == RowsBetween(t, MonthStart(month), MonthStart(month + 1))
    ensures forall r :: r in out <==>
      && MonthStart(month) <= r.day < MonthStart(month + 1)
      && Get(t, KDay(r.day)) == Some(RDay(r.orders, r.amount, r.updatedAt))
    ensures forall i, j | 0 <= i < j < |out| :: out[i].day < out[j].day
  {
    RowsAreTheTables(t, MonthStart(month), MonthStart(month + 1));
    out := ReadRows(t, MonthStart(month), MonthStart(month + 1));
  }

  function SumOrders(rows: seq<DayRow>): int {
    if rows == [] then 0 else rows[0].orders + SumOrders(rows[1..])
  }

  function SumAmounts(rows: seq<DayRow>): int {
    if rows == [] then 0 else rows[0].amount + SumAmounts(rows[1..])
  }

  predicate PlacedBetween(t: Table, from: int, to: int, o: nat) {
    KOrder(o) in t && t[KOrder(o)].ROrder?
    && from * 86_400_000_000 <= t[KOrder(o)].createdAt < to * 86_400_000_000
  }

  /** How many rows of the orders table with ids below `n` were created on a day in [from, to). */
  function OrdersBetween(t: Table, from: int, to: int, n: nat): int {
    if n == 0 then 0 else OrdersBetween(t, from, to, n - 1) + if PlacedBetween(t, from, to, n - 1) then 1 else 0
  }

  function AmountBetween(t: Table, from: int, to: int, n: nat): int {
    if n == 0 then 0 else
      AmountBetween(t, from, to, n - 1) + if PlacedBetween(t, from, to, n - 1) then t[KOrder(n - 1)].total else 0
  }

  lemma {:induction false} FirstDayApart(t: Table, from: int, to: int, n: nat)
    requires from < to
    ensures OrdersBetween(t, from, to, n) ==
        (if from >= 0 then OrdersOn(t, from, n) else 0) + OrdersBetween(t, from + 1, to, n)
    ensures AmountBetween(t, from, to, n) ==
        (if from >= 0 then AmountOn(t, from, n) else 0) + AmountBetween(t, from + 1, to, n)
  {
    if n > 0 {
      FirstDayApart(t, from, to, n - 1);
    }
  }

  lemma {:induction false} NoDays(t: Table, from: int, to: int, n: nat)
    requires from >= to
    ensures OrdersBetween(t, from, to, n) == 0 && AmountBetween(t, from, to, n) == 0
  {
    if n > 0 {
      NoDays(t, from, to, n - 1);
    }
  }

  /** Summing summary rows over a range of days is counting and adding up the orders of those days. */
  lemma {:induction false} RangeAddsUp(t: Table, from: int, to: int, n: nat)
    requires forall d: nat :: SummaryMatches(t, d, n)
    ensures SumOrders(RowsBetween(t, from, to)) == OrdersBetween(t, from, to, n)
    ensures SumAmounts(RowsBetween(t, from, to)) == AmountBetween(t, from, to, n)
    decreases if from < to then to - from else 0
  {
    if from >= to {
      NoDays(t, from, to, n);
    } else {
      RangeAddsUp(t, from + 1, to, n);
      FirstDayApart(t, from, to, n);
      assert from >= 0 ==> SummaryMatches(t, from, n);
      var rest := RowsBetween(t, from + 1, to);
      if HasRow(t, from) {
        assert RowsBetween(t, from, to)[1..] == rest;
      } else {
        assert RowsBetween(t, from, to) == rest;
      }
    }
  }

  /**
   On the primary and on any replica prefix of any run, a month's report adds up to exactly the orders that prefix
   holds for the month, by number and by amount.
   */
  lemma MonthlyAddsUp(stock: Table, actions: seq<Action>, k: nat, month: int)
    requires Fresh(stock) && k <= |Behave(Opened(stock), actions).committed|
    ensures var s := Behave(Opened(stock), actions);
      && After(stock, s.committed[..k]).Some?
      && var t := After(stock, s.committed[..k]).value;
         var rows := RowsBetween(t, MonthStart(month), MonthStart(month + 1));
         && SumOrders(rows) == OrdersBetween(t, MonthStart(month), MonthStart(month + 1), s.nextOrder)
         && SumAmounts(rows) == AmountBetween(t, MonthStart(month), MonthStart(month + 1), s.nextOrder)
  {
    DerivedDataAgrees(stock, actions, k);
    var s := Behave(Opened(stock), actions);
    RangeAddsUp(After(stock, s.committed[..k]).value, MonthStart(month), MonthStart(month + 1), s.nextOrder);
  }
}
