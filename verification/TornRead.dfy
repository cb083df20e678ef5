/** Runs of the shop that end in a torn read, so that the exclusion in `UntornReads` cannot be dropped. */
module TornRead {
  import opened Ordering
  import opened Rows
  import opened Orders
  import opened Pipeline
  import opened Routing
  import opened OrderReads
  import opened SerialRuns
  import TP = TwoPhase

  /** Once committed and not yet applied, the order reads torn inside and then outside the window. */
  lemma TornOnceCommitted(stock: Table, actions: seq<Action>, done: seq<Job>, o: Order, ctx: Context, now1: nat,
        now2: nat)
    requires Fresh(stock)
    requires Reader(ctx, now1, false) == Primary && Reader(ctx, now2, false) == Replica
    requires var s := Behave(Opened(stock), actions); s.committed == done + [OrderJob(o)] && s.applied <= |done|
    ensures var s := Behave(Opened(stock), actions);
      && View(stock, s, Reader(ctx, now1, false)).Some? && View(stock, s, Reader(ctx, now2, false)).Some?
      && FindOrder(View(stock, s, Reader(ctx, now1, false)).value,
                   View(stock, s, Reader(ctx, now2, false)).value, o.id, o.user)
         == Found(o.id, o.user, Total(o.lines), o.now, [])
  {
    assert actions + [] == actions;
    PrimaryThenReplica(stock, actions, [], |done|, o);
  }

  /**
   Every order that the shop lets through, at any moment when no transaction is open, can be read torn by its own
   buyer: the run goes on to a state in which it is committed, and a `FindOrder` whose first routing decision falls
   inside the read-after-write window and whose second falls after it gives the head without any item.
   */
  lemma {:induction false} TornReadReachable(stock: Table, before: seq<Action>, o: Order,
      window: int, committedAt: nat, now1: nat, now2: nat)
    returns (actions: seq<Action>)
    requires Fresh(stock) && window > 0 && now1 < committedAt + window <= now2
    requires var s0 := Behave(Opened(stock), before);
      s0.jobs == map[] && IsNext(s0, o) && GoesThrough(s0, o)
    ensures before <= actions
    ensures var ctx := WithReadAfterWrite(Context(None), window, committedAt);
      var s := Behave(Opened(stock), actions);
      && OrderJob(o) in s.committed && s.applied <= |s.committed|
      && View(stock, s, Reader(ctx, now1, false)).Some? && View(stock, s, Reader(ctx, now2, false)).Some?
      && FindOrder(View(stock, s, Reader(ctx, now1, false)).value,
                   View(stock, s, Reader(ctx, now2, false)).value, o.id, o.user)
         == Found(o.id, o.user, Total(o.lines), o.now, [])
  {
    var s0 := Behave(Opened(stock), before);
    BehaveInv(stock, before);
    assert s0.store.txns.Keys == {};
    actions := OrderRuns(stock, before, s0, o);
    TornOnceCommitted(stock, actions, s0.committed, o, WithReadAfterWrite(Context(None), window, committedAt), now1,
        now2);
  }

  lemma RunSnoc(t: Table, stmts: seq<Stmt>, stmt: Stmt)
    requires Run(t, stmts).Some?
    ensures Run(t, stmts + [stmt]) == Exec(stmt, Run(t, stmts).value)
  {
    assert (stmts + [stmt])[..|stmts + [stmt]| - 1] == stmts;
  }

  lemma HeadRuns(stock: Table, total: int, l: Line)
    requires stock == map[KStock(1) := RStock(5)] && l == Line(1, 2, 100)
    ensures var r := Run(stock, [InsertOrder(0, 7, total, 0)] + [InsertItems(0, [l])] + [Reserve(1, 2)]);
      r.Some? && KEvent(0) !in r.value && KDay(0) !in r.value
  {
    var a, b, c := InsertOrder(0, 7, total, 0), InsertItems(0, [l]), Reserve(1, 2);
    RunSnoc(stock, [], a);
    assert [] + [a] == [a];
    var t1 := Exec(a, stock).value;
    assert [l][1..] == [] && KItem(0, 1) !in t1;
    var t2 := t1[KItem(0, 1) := RItem(2, 100)];
    assert AddItems(t2, 0, [l][1..]) == Some(t2);
    assert AddItems(t1, 0, [l]) == Some(t2);
    RunSnoc(stock, [a], b);
    assert KStock(1) in t2 && t2[KStock(1)] == RStock(5);
    RunSnoc(stock, [a] + [b], c);
  }

  lemma TailRuns(t: Table, o: Order)
    requires KEvent(o.event) !in t && KDay(DayOf(o.now)) !in t
    ensures Run(t, Tail(o)).Some?
  {
    var d, e, f := Tail(o)[0], Tail(o)[1], Tail(o)[2];
    assert Tail(o) == [d] + [e] + [f];
    RunSnoc(t, [], d);
    assert [] + [d] == [d];
    RunSnoc(t, [d], e);
    RunSnoc(t, [d] + [e], f);
  }

  /** Such an order exists: two of product 1 at 100 yen, out of a stock of five. */
  lemma SomeOrderGoesThrough() returns (stock: Table, o: Order)
    ensures Fresh(stock) && IsNext(Behave(Opened(stock), []), o) && Behave(Opened(stock), []).jobs == map[]
    ensures GoesThrough(Behave(Opened(stock), []), o)
  {
    var l := Line(1, 2, 100);
    stock, o := map[KStock(1) := RStock(5)], Order(0, 0, 7, [l], 0, 0);
    var a, b, c := InsertOrder(0, 7, Total(o.lines), 0), InsertItems(0, [l]), Reserve(1, 2);
    assert Reserves(o.lines) == [c];
    assert Program(o) == ([a] + [b] + [c]) + Tail(o);
    HeadRuns(stock, Total(o.lines), l);
    var t := Run(stock, [a] + [b] + [c]).value;
    TailRuns(t, o);
    RunConcat(stock, [a] + [b] + [c], Tail(o));
  }
}
