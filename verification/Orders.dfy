/**
 The transaction of `CreateOrder` as a statement list, and what statement lists do to the figures the shop derives
 from its tables: stock, units sold, orders per day.
 */
module Orders {
  import opened Ordering
  import opened Rows

  /** One order: the ids the primary assigned, the row snapshot taken from the cart, and the clock readings. */
  datatype Order = Order(id: nat, event: nat, user: nat, lines: seq<Line>, now: nat, eventAt: nat)

  function Total(lines: seq<Line>): int {
    if lines == [] then 0 else lines[0].quantity * lines[0].unitPrice + Total(lines[1..])
  }

  lemma {:induction false} TotalSplit(a: seq<Line>, b: seq<Line>)
    ensures Total(a + b) == Total(a) + Total(b)
  {
    if a == [] {
      assert a + b == b;
    } else {
      assert (a + b)[1..] == a[1..] + b;
      TotalSplit(a[1..], b);
    }
  }

  function Reserves(lines: seq<Line>): seq<Stmt> {
    seq(|lines|, i requires 0 <= i < |lines| => Reserve(lines[i].product, lines[i].quantity))
  }

  function Head(o: Order): seq<Stmt> {
    [InsertOrder(o.id, o.user, Total(o.lines), o.now), InsertItems(o.id, o.lines)]
  }

  function Tail(o: Order): seq<Stmt> {
    [ClearCart(o.user), InsertEvent(o.event, o.id, o.user, Total(o.lines), o.eventAt),
     UpsertDay(DayOf(o.now), Total(o.lines), o.now)]
  }

  function Program(o: Order): (stmts: seq<Stmt>)
    ensures |stmts| == |o.lines| + 5
  {
    Head(o) + Reserves(o.lines) + Tail(o)
  }

  predicate DistinctProducts(lines: seq<Line>) {
    forall i, j | 0 <= i < j < |lines| :: lines[i].product != lines[j].product
  }

  /** Units of product `p` on an order's lines. */
  function LinesQty(lines: seq<Line>, p: nat): int {
    if lines == [] then 0 else (if lines[0].product == p then lines[0].quantity else 0) + LinesQty(lines[1..], p)
  }

  // ----- Figures read off the tables -----

  function StockOf(t: Table, p: nat): int {
    if KStock(p) in t && t[KStock(p)].RStock? then t[KStock(p)].stock else 0
  }

  /** Units of `p` in the order_items rows of the orders with ids below `n`. */
  function Sold(t: Table, p: nat, n: nat): int {
    if n == 0 then 0 else
      Sold(t, p, n - 1)
      + (if KItem(n - 1, p) in t && t[KItem(n - 1, p)].RItem? then t[KItem(n - 1, p)].quantity else 0)
  }

  /** The instant, in microseconds since the start of 1970, lies in UTC day `d`. */
  predicate OnDay(now: nat, d: nat) {
    d * 86_400_000_000 <= now < (d + 1) * 86_400_000_000
  }

  lemma DayOfIs(now: nat, d: nat)
    ensures DayOf(now) == d <==> OnDay(now, d)
  {
  }

  predicate OrderedOn(t: Table, d: nat, o: nat) {
    KOrder(o) in t && t[KOrder(o)].ROrder? && OnDay(t[KOrder(o)].createdAt, d)
  }

  /** How many rows of the orders table with ids below `n` were created on day `d`. */
  function OrdersOn(t: Table, d: nat, n: nat): int {
    if n == 0 then 0 else OrdersOn(t, d, n - 1) + (if OrderedOn(t, d, n - 1) then 1 else 0)
  }

  function AmountOn(t: Table, d: nat, n: nat): int {
    if n == 0 then 0 else AmountOn(t, d, n - 1) + (if OrderedOn(t, d, n - 1) then t[KOrder(n - 1)].total else 0)
  }

  function SummaryOrders(t: Table, d: nat): int {
    if KDay(d) in t && t[KDay(d)].RDay? then t[KDay(d)].orders else 0
  }

  function SummaryAmount(t: Table, d: nat): int {
    if KDay(d) in t && t[KDay(d)].RDay? then t[KDay(d)].amount else 0
  }

  // ----- What a statement list adds to them -----

  function Last(stmts: seq<Stmt>): Stmt
    requires stmts != []
  {
    stmts[|stmts| - 1]
  }

  function Reserved(stmts: seq<Stmt>, p: nat): int {
    if stmts == [] then 0 else
      Reserved(stmts[..|stmts| - 1], p)
      + (if Last(stmts).Reserve? && Last(stmts).product == p then Last(stmts).quantity else 0)
  }

  function Itemised(stmts: seq<Stmt>, p: nat): int {
    if stmts == [] then 0 else
      Itemised(stmts[..|stmts| - 1], p)
      + (if Last(stmts).InsertItems? then LinesQty(Last(stmts).lines, p) else 0)
  }

  function Placed(stmts: seq<Stmt>, d: nat): (int, int) {
    if stmts == [] then (0, 0) else
      var (n, a) := Placed(stmts[..|stmts| - 1], d);
      if Last(stmts).InsertOrder? && OnDay(Last(stmts).now, d) then (n + 1, a + Last(stmts).total) else (n, a)
  }

  function Summed(stmts: seq<Stmt>, d: nat): (int, int) {
    if stmts == [] then (0, 0) else
      var (n, a) := Summed(stmts[..|stmts| - 1], d);
      if Last(stmts).UpsertDay? && Last(stmts).day == d then (n + 1, a + Last(stmts).total) else (n, a)
  }

  /** All order ids a statement list writes are below `n`. */
  predicate IdsBelow(stmts: seq<Stmt>, n: nat) {
    forall s | s in stmts :: (s.InsertOrder? || s.InsertItems?) ==> s.order < n
  }

  // ----- Frames of the figures -----

  lemma {:induction false} SoldFrame(a: Table, b: Table, p: nat, n: nat)
    requires forall o: nat | o < n :: Get(a, KItem(o, p)) == Get(b, KItem(o, p))
    ensures Sold(a, p, n) == Sold(b, p, n)
  {
    if n > 0 {
      SoldFrame(a, b, p, n - 1);
      assert Get(a, KItem(n - 1, p)) == Get(b, KItem(n - 1, p));
    }
  }

  lemma {:induction false} SoldInsert(t: Table, o: nat, q: nat, row: Row, p: nat, n: nat)
    requires KItem(o, q) !in t && row.RItem?
    ensures Sold(t[KItem(o, q) := row], p, n) == Sold(t, p, n) + if p == q && o < n then row.quantity else 0
  {
    if n > 0 {
      SoldInsert(t, o, q, row, p, n - 1);
    }
  }

  lemma {:induction false} AddItemsSold(t: Table, o: nat, lines: seq<Line>, p: nat, n: nat)
    requires o < n && AddItems(t, o, lines).Some?
    ensures Sold(AddItems(t, o, lines).value, p, n) == Sold(t, p, n) + LinesQty(lines, p)
    decreases |lines|
  {
    if lines != [] {
      var row := RItem(lines[0].quantity, lines[0].unitPrice);
      SoldInsert(t, o, lines[0].product, row, p, n);
      AddItemsSold(t[KItem(o, lines[0].product) := row], o, lines[1..], p, n);
    }
  }

  lemma {:induction false} OrdersFrame(a: Table, b: Table, d: nat, n: nat)
    requires forall o: nat | o < n :: Get(a, KOrder(o)) == Get(b, KOrder(o))
    ensures OrdersOn(a, d, n) == OrdersOn(b, d, n) && AmountOn(a, d, n) == AmountOn(b, d, n)
  {
    if n > 0 {
      OrdersFrame(a, b, d, n - 1);
      assert Get(a, KOrder(n - 1)) == Get(b, KOrder(n - 1));
    }
  }

  lemma {:induction false} OrdersInsert(t: Table, o: nat, row: Row, d: nat, n: nat)
    requires KOrder(o) !in t && row.ROrder?
    ensures var hit := o < n && OnDay(row.createdAt, d);
            && OrdersOn(t[KOrder(o) := row], d, n) == OrdersOn(t, d, n) + (if hit then 1 else 0)
            && AmountOn(t[KOrder(o) := row], d, n) == AmountOn(t, d, n) + if hit then row.total else 0
  {
    if n > 0 {
      OrdersInsert(t, o, row, d, n - 1);
    }
  }

  // ----- The figures move exactly by what the statements add -----

  /** Stock falls by what was reserved, and only by that. */
  lemma {:induction false} RunStock(t: Table, stmts: seq<Stmt>, p: nat)
    requires Run(t, stmts).Some?
    ensures StockOf(Run(t, stmts).value, p) == StockOf(t, p) - Reserved(stmts, p)
  {
    if stmts != [] {
      var r := Run(t, stmts[..|stmts| - 1]).value;
      RunStock(t, stmts[..|stmts| - 1], p);
      ExecLocal(Last(stmts), r, r);
      assert Get(Exec(Last(stmts), r).value, KStock(p)) ==
        if Last(stmts).Reserve? && Last(stmts).product == p then Some(RStock(StockOf(r, p) - Last(stmts).quantity))
        else Get(r, KStock(p));
    }
  }

  /** A reservation never takes stock below zero. */
  lemma {:induction false} RunKeepsStock(t: Table, stmts: seq<Stmt>, p: nat)
    requires Run(t, stmts).Some? && StockOf(t, p) >= 0
    ensures StockOf(Run(t, stmts).value, p) >= 0
    ensures Reserved(stmts, p) >= 0
  {
    if stmts != [] {
      var r := Run(t, stmts[..|stmts| - 1]).value;
      RunKeepsStock(t, stmts[..|stmts| - 1], p);
      RunStock(t, stmts, p);
      RunStock(t, stmts[..|stmts| - 1], p);
    }
  }

  lemma {:induction false} RunSold(t: Table, stmts: seq<Stmt>, p: nat, n: nat)
    requires Run(t, stmts).Some? && IdsBelow(stmts, n)
    ensures Sold(Run(t, stmts).value, p, n) == Sold(t, p, n) + Itemised(stmts, p)
  {
    if stmts != [] {
      var front := stmts[..|stmts| - 1];
      var r := Run(t, front).value;
      RunSold(t, front, p, n);
      assert Last(stmts) in stmts;
      if Last(stmts).InsertItems? {
        AddItemsSold(r, Last(stmts).order, Last(stmts).lines, p, n);
      } else {
        ExecLocal(Last(stmts), r, r);
        SoldFrame(Exec(Last(stmts), r).value, r, p, n);
      }
    }
  }

  lemma {:induction false} RunPlaced(t: Table, stmts: seq<Stmt>, d: nat, n: nat)
    requires Run(t, stmts).Some? && IdsBelow(stmts, n)
    ensures OrdersOn(Run(t, stmts).value, d, n) == OrdersOn(t, d, n) + Placed(stmts, d).0
    ensures AmountOn(Run(t, stmts).value, d, n) == AmountOn(t, d, n) + Placed(stmts, d).1
  {
    if stmts != [] {
      var front, last := stmts[..|stmts| - 1], Last(stmts);
      var r := Run(t, front).value;
      RunPlaced(t, front, d, n);
      assert last in stmts;
      if last.InsertOrder? {
        OrdersInsert(r, last.order, ROrder(last.user, last.total, last.now), d, n);
      } else {
        ExecLocal(last, r, r);
        OrdersFrame(Exec(last, r).value, r, d, n);
      }
    }
  }

  lemma {:induction false} RunSummed(t: Table, stmts: seq<Stmt>, d: nat)
    requires Run(t, stmts).Some?
    ensures SummaryOrders(Run(t, stmts).value, d) == SummaryOrders(t, d) + Summed(stmts, d).0
    ensures SummaryAmount(Run(t, stmts).value, d) == SummaryAmount(t, d) + Summed(stmts, d).1
  {
    if stmts != [] {
      var front, last := stmts[..|stmts| - 1], Last(stmts);
      var r := Run(t, front).value;
      RunSummed(t, front, d);
      ExecLocal(last, r, r);
      assert !(last.UpsertDay? && last.day == d) ==> Get(Exec(last, r).value, KDay(d)) == Get(r, KDay(d));
    }
  }

  // ----- An order's own statements balance -----

  lemma {:induction false} LinesQtySnoc(front: seq<Line>, last: Line, p: nat)
    ensures LinesQty(front + [last], p) == LinesQty(front, p) + if last.product == p then last.quantity else 0
  {
    if front != [] {
      assert (front + [last])[1..] == front[1..] + [last];
      LinesQtySnoc(front[1..], last, p);
    }
  }

  lemma {:induction false} ReservesQty(lines: seq<Line>, p: nat)
    ensures Reserved(Reserves(lines), p) == LinesQty(lines, p)
  {
    if lines != [] {
      var front, last := lines[..|lines| - 1], lines[|lines| - 1];
      assert Reserves(lines)[..|lines| - 1] == Reserves(front);
      ReservesQty(front, p);
      LinesQtySnoc(front, last, p);
      assert lines == front + [last];
    }
  }

  lemma {:induction false} DeltasConcat(a: seq<Stmt>, b: seq<Stmt>, p: nat, d: nat)
    ensures Reserved(a + b, p) == Reserved(a, p) + Reserved(b, p)
    ensures Itemised(a + b, p) == Itemised(a, p) + Itemised(b, p)
    ensures Placed(a + b, d).0 == Placed(a, d).0 + Placed(b, d).0
    ensures Placed(a + b, d).1 == Placed(a, d).1 + Placed(b, d).1
    ensures Summed(a + b, d).0 == Summed(a, d).0 + Summed(b, d).0
    ensures Summed(a + b, d).1 == Summed(a, d).1 + Summed(b, d).1
  {
    if b == [] {
      assert a + b == a;
    } else {
      var front := b[..|b| - 1];
      assert (a + b)[..|a + b| - 1] == a + front;
      DeltasConcat(a, front, p, d);
    }
  }

  lemma {:induction false} ReservesOnly(lines: seq<Line>, p: nat, d: nat)
    ensures Itemised(Reserves(lines), p) == 0
    ensures Placed(Reserves(lines), d) == (0, 0) && Summed(Reserves(lines), d) == (0, 0)
  {
    if lines != [] {
      assert Reserves(lines)[..|lines| - 1] == Reserves(lines[..|lines| - 1]);
      ReservesOnly(lines[..|lines| - 1], p, d);
    }
  }

  lemma HeadTailDeltas(o: Order, p: nat, d: nat)
    ensures Reserved(Head(o), p) == 0 && Reserved(Tail(o), p) == 0
    ensures Itemised(Head(o), p) == LinesQty(o.lines, p) && Itemised(Tail(o), p) == 0
    ensures Placed(Head(o), d) == (if OnDay(o.now, d) then (1, Total(o.lines)) else (0, 0))
        && Placed(Tail(o), d) == (0, 0)
    ensures Summed(Tail(o), d) == (if OnDay(o.now, d) then (1, Total(o.lines)) else (0, 0))
        && Summed(Head(o), d) == (0, 0)
  {
    var h, t := Head(o), Tail(o);
    DayOfIs(o.now, d);
    assert h == [h[0]] + [h[1]] && t == [t[0]] + [t[1]] + [t[2]];
    DeltasConcat([h[0]], [h[1]], p, d);
    DeltasConcat([t[0]], [t[1]], p, d);
    DeltasConcat([t[0]] + [t[1]], [t[2]], p, d);
    assert [h[0]][..0] == [] && [h[1]][..0] == [];
    assert [t[0]][..0] == [] && [t[1]][..0] == [] && [t[2]][..0] == [];
  }

  /** A whole order reserves the units it itemises, and adds to its day's summary what it adds to the orders table. */
  lemma ProgramBalances(o: Order, p: nat, d: nat)
    ensures Reserved(Program(o), p) == Itemised(Program(o), p) == LinesQty(o.lines, p)
    ensures Placed(Program(o), d) == Summed(Program(o), d)
  {
    DeltasConcat(Head(o) + Reserves(o.lines), Tail(o), p, d);
    DeltasConcat(Head(o), Reserves(o.lines), p, d);
    HeadTailDeltas(o, p, d);
    ReservesQty(o.lines, p);
    ReservesOnly(o.lines, p, d);
  }

  // ----- The rows an order leaves behind -----

  lemma {:induction false} AddItemsEffect(t: Table, o: nat, lines: seq<Line>)
    requires AddItems(t, o, lines).Some?
    ensures DistinctProducts(lines)
    ensures forall l | l in lines ::
      && KItem(o, l.product) !in t
      && Get(AddItems(t, o, lines).value, KItem(o, l.product)) == Some(RItem(l.quantity, l.unitPrice))
    decreases |lines|
  {
    if lines != [] {
      var k := KItem(o, lines[0].product);
      var t' := t[k := RItem(lines[0].quantity, lines[0].unitPrice)];
      AddItemsEffect(t', o, lines[1..]);
      assert lines == [lines[0]] + lines[1..];
      forall l | l in lines[1..] ensures l.product != lines[0].product {
        assert KItem(o, l.product) !in t';
      }
      AddItemsLocal(t', t', o, lines[1..], set l | l in lines[1..] :: KItem(o, l.product));
    }
  }

  lemma {:induction false} KeysOfMember(stmts: seq<Stmt>, k: Key)
    requires k in KeysOf(stmts)
    ensures exists i | 0 <= i < |stmts| :: k in Keys(stmts[i])
  {
    if k !in Keys(Last(stmts)) {
      KeysOfMember(stmts[..|stmts| - 1], k);
      var i :| 0 <= i < |stmts| - 1 && k in Keys(stmts[..|stmts| - 1][i]);
      assert k in Keys(stmts[i]);
    }
  }

  /** Rows no statement of the list names are left alone. */
  lemma RunFrame(t: Table, stmts: seq<Stmt>, k: Key)
    requires Run(t, stmts).Some? && forall i | 0 <= i < |stmts| :: k !in Keys(stmts[i])
    ensures Get(Run(t, stmts).value, k) == Get(t, k)
  {
    RunLocal(stmts, t, t);
    if k in KeysOf(stmts) {
      KeysOfMember(stmts, k);
    }
  }

  lemma RunOne(t: Table, s: Stmt)
    ensures Run(t, [s]) == Exec(s, t)
  {
    assert [s][..0] == [];
  }

  lemma {:induction false} RestKeepsItems(t: Table, o: Order, rest: seq<Stmt>)
    requires rest == Reserves(o.lines) + Tail(o) && Run(t, rest).Some?
    ensures forall p: nat :: Get(Run(t, rest).value, KItem(o.id, p)) == Get(t, KItem(o.id, p))
  {
    forall p: nat ensures Get(Run(t, rest).value, KItem(o.id, p)) == Get(t, KItem(o.id, p)) {
      RunFrame(t, rest, KItem(o.id, p));
    }
  }

  /** A committed order inserted a new order row and exactly its lines, all of distinct products. */
  lemma {:induction false} OrderRows(t: Table, o: Order)
    requires Run(t, Program(o)).Some?
    ensures var r := Run(t, Program(o)).value;
      && KOrder(o.id) !in t && Get(r, KOrder(o.id)) == Some(ROrder(o.user, Total(o.lines), o.now))
      && DistinctProducts(o.lines)
      && (forall l | l in o.lines ::
            KItem(o.id, l.product) !in t && Get(r, KItem(o.id, l.product)) == Some(RItem(l.quantity, l.unitPrice)))
      && (forall p: nat | (forall l | l in o.lines :: l.product != p) ::
             Get(r, KItem(o.id, p)) == Get(t, KItem(o.id, p)))
  {
    var h := Head(o);
    var rest := Reserves(o.lines) + Tail(o);
    assert Program(o) == [h[0]] + ([h[1]] + rest);
    RunConcat(t, [h[0]], [h[1]] + rest);
    RunOne(t, h[0]);
    var t1 := Exec(h[0], t).value;
    RunConcat(t1, [h[1]], rest);
    RunOne(t1, h[1]);
    var t2 := Exec(h[1], t1).value;
    AddItemsEffect(t1, o.id, o.lines);
    ExecLocal(h[1], t1, t1);
    RunFrame(t2, rest, KOrder(o.id));
    RestKeepsItems(t2, o, rest);
  }

  /** A committed order inserted exactly one new unprocessed event carrying its id, user and total. */
  lemma {:induction false} EventRow(t: Table, o: Order)
    requires Run(t, Program(o)).Some?
    ensures KEvent(o.event) !in t
    ensures Get(Run(t, Program(o)).value, KEvent(o.event)) ==
      Some(REvent(o.id, o.user, Total(o.lines), o.eventAt, None))
  {
    var tail := Tail(o);
    var front := Head(o) + Reserves(o.lines) + [tail[0]];
    assert Program(o) == front + ([tail[1]] + [tail[2]]);
    RunConcat(t, front, [tail[1]] + [tail[2]]);
    var t1 := Run(t, front).value;
    RunFrame(t, front, KEvent(o.event));
    RunConcat(t1, [tail[1]], [tail[2]]);
    RunOne(t1, tail[1]);
    var t2 := Exec(tail[1], t1).value;
    RunFrame(t2, [tail[2]], KEvent(o.event));
  }

  /** The rows an order can touch: its own, its products' stock, its buyer's cart and its day. */
  lemma OrderTouches(t: Table, o: Order, k: Key)
    requires Run(t, Program(o)).Some?
    requires k.KOrder? ==> k.order != o.id
    requires k.KItem? ==> k.itemOrder != o.id
    requires k.KEvent? ==> k.event != o.event
    requires k.KStock? ==> forall l | l in o.lines :: l.product != k.stockOf
    requires k.KCart? ==> k.cartUser != o.user
    requires k.KDay? ==> k.day != DayOf(o.now)
    ensures Get(Run(t, Program(o)).value, k) == Get(t, k)
  {
    RunFrame(t, Program(o), k);
  }

  lemma {:induction false} DayRowAfterTail(t: Table, o: Order, d: nat)
    requires Run(t, Tail(o)).Some? && DayOf(o.now) == d
    ensures var r := Run(t, Tail(o)).value;
      && KDay(d) in r && r[KDay(d)].RDay? && r[KDay(d)].updatedAt == o.now
      && SummaryOrders(r, d) == SummaryOrders(t, d) + 1 && SummaryAmount(r, d) == SummaryAmount(t, d) + Total(o.lines)
  {
    var tail := Tail(o);
    assert tail == [tail[0], tail[1]] + [tail[2]];
    RunConcat(t, [tail[0], tail[1]], [tail[2]]);
    var m := Run(t, [tail[0], tail[1]]).value;
    RunFrame(t, [tail[0], tail[1]], KDay(d));
    RunOne(m, tail[2]);
  }

  /**
   An order counts on the UTC day of its creation time and on no other: that day's summary row gains one order and its
   total and carries its time, and every other day's row is as it was.
   */
  lemma {:induction false} OrderCountsOnItsDay(t: Table, o: Order, d: nat)
    requires Run(t, Program(o)).Some?
    ensures var r := Run(t, Program(o)).value;
      if d * 86_400_000_000 <= o.now < (d + 1) * 86_400_000_000 then
        && KDay(d) in r && r[KDay(d)].RDay? && r[KDay(d)].updatedAt == o.now
        && SummaryOrders(r, d) == SummaryOrders(t, d) + 1 && SummaryAmount(r, d) == SummaryAmount(t, d) + Total(o.lines)
      else Get(r, KDay(d)) == Get(t, KDay(d))
  {
    DayOfIs(o.now, d);
    if DayOf(o.now) == d {
      var front := Head(o) + Reserves(o.lines);
      RunConcat(t, front, Tail(o));
      RunFrame(t, front, KDay(d));
      DayRowAfterTail(Run(t, front).value, o, d);
    } else {
      OrderTouches(t, o, KDay(d));
    }
  }
}
