/**
 `FindOrder` against a primary and a lagging replica. It routes twice - once for the order row, once for its items -
 and the two reads see two prefixes of the commit log.
 */
module OrderReads {
  import opened Ordering
  import opened Rows
  import opened Orders
  import opened Pipeline
  import opened DerivedData
  import opened Routing

  datatype Found = NotFound | Found(id: nat, user: nat, total: int, createdAt: nat, items: seq<Line>)

  function ItemProducts(t: Table, o: nat): set<nat> {
    set k | k in t && k.KItem? && k.itemOrder == o :: k.product
  }

  function ItemLine(t: Table, o: nat, p: nat): Line {
    if KItem(o, p) in t && t[KItem(o, p)].RItem? then Line(p, t[KItem(o, p)].quantity, t[KItem(o, p)].unitPrice)
    else Line(p, 0, 0)
  }

  /** The order's item rows in ascending product order. */
  function ItemsOf(t: Table, o: nat): seq<Line> {
    NatsTotal(ItemProducts(t, o));
    var ps := SortBy(ItemProducts(t, o), NatLess);
    seq(|ps|, i requires 0 <= i < |ps| => ItemLine(t, o, ps[i]))
  }

  function FindOrder(head: Table, body: Table, id: nat, user: nat): Found {
    if KOrder(id) in head && head[KOrder(id)].ROrder? && head[KOrder(id)].user == user
    then Found(id, user, head[KOrder(id)].total, head[KOrder(id)].createdAt, ItemsOf(body, id))
    else NotFound
  }

  predicate ByProduct(items: seq<Line>) {
    forall i, j | 0 <= i < j < |items| :: items[i].product < items[j].product
  }

  /** The result is order `o` in full: its head, and exactly its lines, sorted by product and adding up to the total. */
  ghost predicate Whole(r: Found, o: Order) {
    && r.Found? && r.id == o.id && r.user == o.user && r.total == Total(o.lines) && r.createdAt == o.now
    && ByProduct(r.items) && multiset(r.items) == multiset(o.lines) && Total(r.items) == r.total
  }

  lemma {:induction false} TotalOfPermutation(a: seq<Line>, b: seq<Line>)
    requires multiset(a) == multiset(b)
    ensures Total(a) == Total(b)
  {
    if a == [] {
      assert |multiset(b)| == 0;
    } else {
      assert a[0] in multiset(b);
      var i :| 0 <= i < |b| && b[i] == a[0];
      var rest := b[..i] + b[i + 1..];
      assert a == [a[0]] + a[1..];
      assert b == b[..i] + ([b[i]] + b[i + 1..]);
      assert multiset(b) == multiset(b[..i]) + (multiset{b[i]} + multiset(b[i + 1..]));
      assert multiset(rest) == multiset(b) - multiset{b[i]};
      assert multiset(a[1..]) == multiset(a) - multiset{a[0]};
      TotalOfPermutation(a[1..], rest);
      TotalSplit(b[..i], b[i + 1..]);
      TotalSplit(b[..i], [b[i]] + b[i + 1..]);
      TotalSplit([b[i]], b[i + 1..]);
    }
  }

  /** An order's rows as they stand once it is committed: its head, its lines, and no other item of that order. */
  ghost predicate Stands(t: Table, o: Order) {
    && Get(t, KOrder(o.id)) == Some(ROrder(o.user, Total(o.lines), o.now))
    && DistinctProducts(o.lines)
    && (forall l | l in o.lines :: Get(t, KItem(o.id, l.product)) == Some(RItem(l.quantity, l.unitPrice)))
    && (forall p: nat | KItem(o.id, p) in t :: exists l | l in o.lines :: l.product == p)
  }

  lemma {:induction false} StandsKept(t: Table, r: Table, o: Order)
    requires Stands(t, o)
    requires Get(r, KOrder(o.id)) == Get(t, KOrder(o.id)) && forall p: nat ::
        Get(r, KItem(o.id, p)) == Get(t, KItem(o.id, p))
    ensures Stands(r, o)
  {
    forall p: nat | KItem(o.id, p) in r ensures KItem(o.id, p) in t {
      assert Get(r, KItem(o.id, p)) == Get(t, KItem(o.id, p));
    }
  }

  /** A later job never disturbs a committed order. */
  lemma {:induction false} JobKeepsOrder(t: Table, j: Job, o: Order, n: nat, e: nat)
    requires Stands(t, o) && JobOk(j, |Planned(j)|, n, e) && Run(t, Planned(j)).Some?
    ensures Stands(Run(t, Planned(j)).value, o)
  {
    var r := Run(t, Planned(j)).value;
    match j
    case OrderJob(q) =>
      OrderRows(t, q);
      assert q.id != o.id;
      OrderTouches(t, q, KOrder(o.id));
      forall p: nat ensures Get(r, KItem(o.id, p)) == Get(t, KItem(o.id, p)) {
        OrderTouches(t, q, KItem(o.id, p));
      }
      StandsKept(t, r, o);
    case _ =>
      SideJobsKeepStory(t, Planned(j));
      StandsKept(t, r, o);
  }

  lemma {:induction false} OrderStands(stock: Table, jobs: seq<Job>, x: nat, o: Order, n: nat, e: nat)
    requires Fresh(stock) && After(stock, jobs).Some? && JobsBelow(jobs, n, e)
    requires x < |jobs| && jobs[x] == OrderJob(o)
    ensures Stands(After(stock, jobs).value, o)
  {
    var front, last := jobs[..|jobs| - 1], jobs[|jobs| - 1];
    var c := After(stock, front).value;
    assert last in jobs;
    if x == |jobs| - 1 {
      AfterRowwise(stock, front, n, e);
      OrderRows(c, o);
      forall p: nat | KItem(o.id, p) in Run(c, Program(o)).value ensures exists l | l in o.lines :: l.product == p {
        if forall l | l in o.lines :: l.product != p {
          assert Get(Run(c, Program(o)).value, KItem(o.id, p)) == Get(c, KItem(o.id, p));
        }
      }
    } else {
      OrderStands(stock, front, x, o, n, e);
      JobKeepsOrder(c, last, o, n, e);
    }
  }

  /** Every order row comes from a committed order job. */
  lemma {:induction false} OrderFromJob(stock: Table, jobs: seq<Job>, id: nat, n: nat, e: nat)
    returns (x: nat, o: Order)
    requires Fresh(stock) && After(stock, jobs).Some? && JobsBelow(jobs, n, e)
    requires KOrder(id) in After(stock, jobs).value
    ensures x < |jobs| && jobs[x] == OrderJob(o) && o.id == id
  {
    if jobs == [] {
      assert false;
    } else {
      var front, last := jobs[..|jobs| - 1], jobs[|jobs| - 1];
      var c := After(stock, front).value;
      assert last in jobs;
      if last.OrderJob? && last.order.id == id {
        x, o := |jobs| - 1, last.order;
      } else {
        if last.OrderJob? {
          OrderTouches(c, last.order, KOrder(id));
        } else {
          SideJobsKeepStory(c, Planned(last));
        }
        assert Get(Run(c, Planned(last)).value, KOrder(id)) == Get(c, KOrder(id));
        x, o := OrderFromJob(stock, front, id, n, e);
      }
    }
  }

  lemma {:induction false} OrderRowStays(stock: Table, jobs: seq<Job>, k: nat, id: nat, n: nat, e: nat)
    requires Fresh(stock) && After(stock, jobs).Some? && JobsBelow(jobs, n, e) && k <= |jobs|
    requires After(stock, jobs[..k]).Some? && KOrder(id) in After(stock, jobs[..k]).value
    ensures KOrder(id) in After(stock, jobs).value
  {
    var x, o := OrderFromJob(stock, jobs[..k], id, n, e);
    assert jobs[x] == OrderJob(o);
    OrderStands(stock, jobs, x, o, n, e);
    assert Get(After(stock, jobs).value, KOrder(id)).Some?;
  }

  lemma AfterSnoc(stock: Table, jobs: seq<Job>, j: Job)
    requires After(stock, jobs + [j]).Some?
    ensures After(stock, jobs).Some? && Run(After(stock, jobs).value, Planned(j)) == After(stock, jobs + [j])
  {
    assert (jobs + [j])[..|jobs + [j]| - 1] == jobs;
  }

  /** The insert of an order finds its id unused. */
  lemma {:induction false} OrderWasNew(stock: Table, jobs: seq<Job>, x: nat, o: Order)
    requires After(stock, jobs).Some? && x < |jobs| && jobs[x] == OrderJob(o)
    ensures After(stock, jobs[..x]).Some? && KOrder(o.id) !in After(stock, jobs[..x]).value
  {
    AfterPrefix(stock, jobs, x + 1);
    assert jobs[..x + 1] == jobs[..x] + [jobs[x]];
    AfterSnoc(stock, jobs[..x], jobs[x]);
    OrderRows(After(stock, jobs[..x]).value, o);
  }

  lemma {:induction false} OrderAbsent(stock: Table, jobs: seq<Job>, k: nat, x: nat, o: Order, n: nat, e: nat)
    requires Fresh(stock) && After(stock, jobs).Some? && JobsBelow(jobs, n, e)
    requires k <= x < |jobs| && jobs[x] == OrderJob(o)
    ensures After(stock, jobs[..k]).Some?
    ensures KOrder(o.id) !in After(stock, jobs[..k]).value
    ensures forall p: nat :: KItem(o.id, p) !in After(stock, jobs[..k]).value
  {
    OrderWasNew(stock, jobs, x, o);
    AfterPrefix(stock, jobs, k);
    assert jobs[..x][..k] == jobs[..k];
    var t := After(stock, jobs[..k]).value;
    if KOrder(o.id) in t {
      OrderRowStays(stock, jobs[..x], k, o.id, n, e);
    }
    AfterRowwise(stock, jobs[..k], n, e);
    assert ItemsHaveOrders(t);
  }

  lemma {:induction false} ItemsAreLines(t: Table, o: Order)
    requires Stands(t, o)
    ensures forall l :: l in ItemsOf(t, o.id) <==> l in o.lines
  {
    var items := ItemsOf(t, o.id);
    NatsTotal(ItemProducts(t, o.id));
    var ps := SortBy(ItemProducts(t, o.id), NatLess);
    forall l ensures l in items <==> l in o.lines {
      if l in items {
        var i :| 0 <= i < |items| && items[i] == l;
        assert ps[i] in ItemProducts(t, o.id);
        assert KItem(o.id, ps[i]) in t;
        var m :| m in o.lines && m.product == ps[i];
        assert Get(t, KItem(o.id, m.product)) == Some(RItem(m.quantity, m.unitPrice));
        assert l == m;
      }
      if l in o.lines {
        assert Get(t, KItem(o.id, l.product)) == Some(RItem(l.quantity, l.unitPrice));
        assert l.product in ItemProducts(t, o.id);
        var i :| 0 <= i < |ps| && ps[i] == l.product;
        assert items[i] == l;
      }
    }
  }

  lemma {:induction false} ItemsOfStanding(t: Table, o: Order)
    requires Stands(t, o)
    ensures ByProduct(ItemsOf(t, o.id)) && multiset(ItemsOf(t, o.id)) == multiset(o.lines)
    ensures Total(ItemsOf(t, o.id)) == Total(o.lines)
  {
    var items := ItemsOf(t, o.id);
    NatsTotal(ItemProducts(t, o.id));
    var ps := SortBy(ItemProducts(t, o.id), NatLess);
    ItemsAreLines(t, o);
    forall i, j | 0 <= i < j < |items| ensures items[i].product < items[j].product {
      assert NatLess(ps[i], ps[j]);
    }
    SameElements(items, o.lines);
    TotalOfPermutation(items, o.lines);
  }

  /**
   Exactly what the two reads return for the order committed at log position `x`, when the first sees a prefix of
   length `i` and the second one of length `j`: nothing before it is committed, the whole order once both prefixes
   hold it, and the head without any item when only the first does.
   */
  lemma {:induction false} FindExact(stock: Table, jobs: seq<Job>, i: nat, j: nat, x: nat, o: Order, user: nat, n: nat,
        e: nat)
    requires Fresh(stock) && After(stock, jobs).Some? && JobsBelow(jobs, n, e)
    requires i <= |jobs| && j <= |jobs| && x < |jobs| && jobs[x] == OrderJob(o)
    ensures After(stock, jobs[..i]).Some? && After(stock, jobs[..j]).Some?
    ensures var r := FindOrder(After(stock, jobs[..i]).value, After(stock, jobs[..j]).value, o.id, user);
      && (r.NotFound? <==> i <= x || user != o.user)
      && (r.Found? && x < j ==> Whole(r, o))
      && (r.Found? && j <= x ==> r.items == [] && r.total == Total(o.lines))
  {
    AfterPrefix(stock, jobs, i);
    AfterPrefix(stock, jobs, j);
    var head, body := After(stock, jobs[..i]).value, After(stock, jobs[..j]).value;
    if i <= x {
      OrderAbsent(stock, jobs, i, x, o, n, e);
    } else {
      OrderStands(stock, jobs[..i], x, o, n, e);
      assert Get(head, KOrder(o.id)) == Some(ROrder(o.user, Total(o.lines), o.now));
    }
    if j <= x {
      OrderAbsent(stock, jobs, j, x, o, n, e);
      assert ItemProducts(body, o.id) == {};
    } else {
      OrderStands(stock, jobs[..j], x, o, n, e);
      ItemsOfStanding(body, o);
    }
  }

  // ----- Reads inside a run -----

  /** How much of the commit log a side shows. */
  function Shown(s: Shop, side: Side): nat {
    if side == Primary then |s.committed| else s.applied
  }

  function View(stock: Table, s: Shop, side: Side): Option<Table>
    requires s.applied <= |s.committed|
  {
    After(stock, s.committed[..Shown(s, side)])
  }

  ghost predicate Grows(a: Shop, b: Shop) {
    a.committed <= b.committed && a.applied <= b.applied
  }

  lemma NextGrows(s: Shop, a: Action)
    ensures Grows(s, Next(s, a))
  {
  }

  lemma {:induction false} BehaveGrows(s: Shop, before: seq<Action>, more: seq<Action>)
    ensures Grows(Behave(s, before), Behave(s, before + more))
  {
    if more == [] {
      assert before + more == before;
    } else {
      var front, last := more[..|more| - 1], more[|more| - 1];
      BehaveGrows(s, before, front);
      assert before + more == (before + front) + [last];
      BehaveSnoc(s, before + front, last);
      NextGrows(Behave(s, before + front), last);
    }
  }

  /** The log only grows, the replica never steps back and never overtakes the primary. */
  lemma {:induction false} RunsGrow(stock: Table, before: seq<Action>, more: seq<Action>)
    ensures var s1, s2 := Behave(Opened(stock), before), Behave(Opened(stock), before + more);
      && s1.committed <= s2.committed && s1.applied <= s2.applied <= |s2.committed| && s1.applied <= |s1.committed|
  {
    BehaveInv(stock, before);
    BehaveInv(stock, before + more);
    BehaveGrows(Opened(stock), before, more);
  }

  /** What a side shows is a prefix of any later log. */
  lemma ViewOfLater(stock: Table, s: Shop, later: Shop, side: Side)
    requires s.applied <= |s.committed| && s.committed <= later.committed
    ensures View(stock, s, side) == After(stock, later.committed[..Shown(s, side)])
  {
    assert s.committed[..Shown(s, side)] == later.committed[..Shown(s, side)];
  }

  lemma CommittedJobsOk(stock: Table, s: Shop)
    requires Inv(stock, s)
    ensures JobsBelow(s.committed, s.nextOrder, s.nextEvent)
    ensures forall o | OrderJob(o) in s.committed :: o.lines != []
  {
  }

  /** The two reads of a request, as two prefixes of the log the second one sees. */
  lemma {:induction false} TwoReads(stock: Table, before: seq<Action>, between: seq<Action>, side1: Side, side2: Side)
    requires Fresh(stock)
    ensures var s1, s2 := Behave(Opened(stock), before), Behave(Opened(stock), before + between);
      && s1.applied <= |s1.committed| && s2.applied <= |s2.committed| && s1.committed <= s2.committed
      && s1.applied <= s2.applied
      && View(stock, s1, side1) == After(stock, s2.committed[..Shown(s1, side1)])
      && View(stock, s2, side2) == After(stock, s2.committed[..Shown(s2, side2)])
      && After(stock, s2.committed).Some? && JobsBelow(s2.committed, s2.nextOrder, s2.nextEvent)
      && (forall o | OrderJob(o) in s2.committed :: o.lines != [])
  {
    RunsGrow(stock, before, between);
    BehaveInv(stock, before + between);
    SerialEquivalence(stock, before + between);
    var s1, s2 := Behave(Opened(stock), before), Behave(Opened(stock), before + between);
    ViewOfLater(stock, s1, s2, side1);
    ViewOfLater(stock, s2, s2, side2);
    CommittedJobsOk(stock, s2);
  }

  /** Two reads of growing prefixes return not-found or one committed order in full. */
  lemma {:induction false} FindAny(stock: Table, jobs: seq<Job>, i: nat, j: nat, id: nat, user: nat, n: nat, e: nat)
    requires Fresh(stock) && After(stock, jobs).Some? && JobsBelow(jobs, n, e) && i <= j <= |jobs|
    ensures After(stock, jobs[..i]).Some? && After(stock, jobs[..j]).Some?
    ensures var r := FindOrder(After(stock, jobs[..i]).value, After(stock, jobs[..j]).value, id, user);
      r.NotFound? || exists o :: OrderJob(o) in jobs && o.id == id && Whole(r, o)
  {
    AfterPrefix(stock, jobs, i);
    AfterPrefix(stock, jobs, j);
    if KOrder(id) in After(stock, jobs[..i]).value {
      var x, o := OrderFromJob(stock, jobs[..i], id, n, e);
      assert jobs[x] == OrderJob(o);
      FindExact(stock, jobs, i, j, x, o, user, n, e);
      assert OrderJob(o) in jobs;
    }
  }

  /**
   Untorn reads: unless the first read went to the primary and the second to the replica, `FindOrder` answers
   not-found or one committed order with all its items, adding up to its total - for any lag and anything that
   happens between the two reads.
   */
  lemma {:induction false} UntornReads(stock: Table, before: seq<Action>, between: seq<Action>, side1: Side,
        side2: Side, id: nat, user: nat)
    requires Fresh(stock) && !(side1 == Primary && side2 == Replica)
    ensures var s1, s2 := Behave(Opened(stock), before), Behave(Opened(stock), before + between);
      && s1.applied <= |s1.committed| && s2.applied <= |s2.committed|
      && View(stock, s1, side1).Some? && View(stock, s2, side2).Some?
      && var r := FindOrder(View(stock, s1, side1).value, View(stock, s2, side2).value, id, user);
         r.NotFound? || exists o :: OrderJob(o) in s2.committed && o.id == id && Whole(r, o)
  {
    TwoReads(stock, before, between, side1, side2);
    var s1, s2 := Behave(Opened(stock), before), Behave(Opened(stock), before + between);
    FindAny(stock, s2.committed, Shown(s1, side1), Shown(s2, side2), id, user, s2.nextOrder, s2.nextEvent);
  }

  lemma {:induction false} TornExactly(stock: Table, jobs: seq<Job>, i: nat, j: nat, x: nat, o: Order, n: nat, e: nat)
    requires Fresh(stock) && After(stock, jobs).Some? && JobsBelow(jobs, n, e) && o.lines != []
    requires x < i <= |jobs| && j <= |jobs| && jobs[x] == OrderJob(o)
    ensures After(stock, jobs[..i]).Some? && After(stock, jobs[..j]).Some?
    ensures var r := FindOrder(After(stock, jobs[..i]).value, After(stock, jobs[..j]).value, o.id, o.user);
      && (Whole(r, o) <==> x < j)
      && (!Whole(r, o) <==> r == Found(o.id, o.user, Total(o.lines), o.now, []))
  {
    FindExact(stock, jobs, i, j, x, o, o.user, n, e);
    AfterPrefix(stock, jobs, i);
    OrderStands(stock, jobs[..i], x, o, n, e);
    assert |multiset(o.lines)| == |o.lines|;
  }

  /**
   The excluded pair, exactly: with head from the primary and items from the replica the answer is torn - a head
   with no items - if and only if the replica has not yet applied the order at the second read.
   */
  lemma {:induction false} PrimaryThenReplica(stock: Table, before: seq<Action>, between: seq<Action>, x: nat, o: Order)
    requires Fresh(stock)
    requires x < |Behave(Opened(stock), before).committed| && Behave(Opened(stock), before).committed[x] == OrderJob(o)
    ensures var s1, s2 := Behave(Opened(stock), before), Behave(Opened(stock), before + between);
      && s1.applied <= |s1.committed| && s2.applied <= |s2.committed|
      && View(stock, s1, Primary).Some? && View(stock, s2, Replica).Some?
      && var r := FindOrder(View(stock, s1, Primary).value, View(stock, s2, Replica).value, o.id, o.user);
         && (Whole(r, o) <==> x < s2.applied)
         && (!Whole(r, o) <==> r == Found(o.id, o.user, Total(o.lines), o.now, []))
  {
    TwoReads(stock, before, between, Primary, Replica);
    var s1, s2 := Behave(Opened(stock), before), Behave(Opened(stock), before + between);
    var jobs := s2.committed;
    assert jobs[x] == OrderJob(o) && jobs[x] in jobs;
    TornExactly(stock, jobs, |s1.committed|, s2.applied, x, o, s2.nextOrder, s2.nextEvent);
  }

  /** Both reads on the primary, the first after the commit: the whole order. */
  lemma {:induction false} PrimaryTwice(stock: Table, before: seq<Action>, between: seq<Action>, x: nat, o: Order)
    requires Fresh(stock)
    requires x < |Behave(Opened(stock), before).committed| && Behave(Opened(stock), before).committed[x] == OrderJob(o)
    ensures var s1, s2 := Behave(Opened(stock), before), Behave(Opened(stock), before + between);
      && s1.applied <= |s1.committed| && s2.applied <= |s2.committed|
      && View(stock, s1, Primary).Some? && View(stock, s2, Primary).Some?
      && Whole(FindOrder(View(stock, s1, Primary).value, View(stock, s2, Primary).value, o.id, o.user), o)
  {
    TwoReads(stock, before, between, Primary, Primary);
    var s1, s2 := Behave(Opened(stock), before), Behave(Opened(stock), before + between);
    assert s2.committed[x] == OrderJob(o);
    FindExact(stock, s2.committed, |s1.committed|, |s2.committed|, x, o, o.user, s2.nextOrder, s2.nextEvent);
  }

  /**
   Read-your-writes: once an order is committed, a `FindOrder` whose two routing decisions each fall before the
   read-after-write deadline or while the replica is marked down returns that order in full, however far the
   replica lags.
   */
  lemma {:induction false} ReadYourWrites(
      stock: Table, before: seq<Action>, between: seq<Action>, x: nat, o: Order,
      window: int, committedAt: nat, now1: nat, down1: bool, now2: nat, down2: bool)
    requires Fresh(stock)
    requires x < |Behave(Opened(stock), before).committed| && Behave(Opened(stock), before).committed[x] == OrderJob(o)
    requires (window > 0 && now1 < committedAt + window) || down1
    requires (window > 0 && now2 < committedAt + window) || down2
    ensures var ctx := WithReadAfterWrite(Context(None), window, committedAt);
      var s1, s2 := Behave(Opened(stock), before), Behave(Opened(stock), before + between);
      && s1.applied <= |s1.committed| && s2.applied <= |s2.committed|
      && View(stock, s1, Reader(ctx, now1, down1)).Some? && View(stock, s2, Reader(ctx, now2, down2)).Some?
      && Whole(FindOrder(View(stock, s1, Reader(ctx, now1, down1)).value,
                         View(stock, s2, Reader(ctx, now2, down2)).value, o.id, o.user), o)
  {
    var ctx := WithReadAfterWrite(Context(None), window, committedAt);
    assert Reader(ctx, now1, down1) == Primary && Reader(ctx, now2, down2) == Primary;
    PrimaryTwice(stock, before, between, x, o);
  }
}
