/**
 The tables written beside `orders` in the same transaction - order_items, outbox_events, daily_sales_summary -
 always tell the same story as `orders` itself, on the primary and on every prefix of the commit log a replica
 may have applied.
 */
module DerivedData {
  import opened Ordering
  import opened Rows
  import opened Orders
  import opened Pipeline

  ghost predicate Typed(t: Table) {
    forall k | k in t ::
      && (k.KOrder? ==> t[k].ROrder?)
      && (k.KItem? ==> t[k].RItem?)
      && (k.KEvent? ==> t[k].REvent?)
      && (k.KDay? ==> t[k].RDay? && t[k].orders >= 1)
  }

  /** Every order row id is below `n`. */
  ghost predicate Bounded(t: Table, n: nat) {
    forall o: nat | KOrder(o) in t :: o < n
  }

  /** order_items.order_id references orders. */
  ghost predicate ItemsHaveOrders(t: Table) {
    forall o: nat, p: nat | KItem(o, p) in t :: KOrder(o) in t
  }

  ghost predicate Announces(t: Table, e: nat, o: nat) {
    && KEvent(e) in t && t[KEvent(e)].REvent? && t[KEvent(e)].forOrder == o
    && KOrder(o) in t && t[KOrder(o)].ROrder?
    && t[KEvent(e)].forUser == t[KOrder(o)].user && t[KEvent(e)].forTotal == t[KOrder(o)].total
  }

  ghost predicate Announced(t: Table, o: nat) {
    exists e :: Announces(t, e, o)
  }

  /** Events and orders are in bijection by order id, with equal user and total. */
  ghost predicate EventsMatch(t: Table) {
    && (forall e: nat | KEvent(e) in t :: t[KEvent(e)].REvent? && Announces(t, e, t[KEvent(e)].forOrder))
    && (forall e: nat, f: nat | KEvent(e) in t && KEvent(f) in t && e != f ::
           t[KEvent(e)].forOrder != t[KEvent(f)].forOrder)
    && (forall o: nat | KOrder(o) in t :: Announced(t, o))
  }

  /** The day's summary row is there exactly when the day has orders, and counts and adds them up exactly. */
  ghost predicate SummaryMatches(t: Table, d: nat, n: nat) {
    && (KDay(d) in t <==> OrdersOn(t, d, n) > 0)
    && SummaryOrders(t, d) == OrdersOn(t, d, n)
    && SummaryAmount(t, d) == AmountOn(t, d, n)
  }

  ghost predicate Rowwise(t: Table, n: nat) {
    Typed(t) && Bounded(t, n) && ItemsHaveOrders(t) && EventsMatch(t)
  }

  lemma {:induction false} TypedAddItems(t: Table, o: nat, lines: seq<Line>)
    requires Typed(t) && AddItems(t, o, lines).Some?
    ensures Typed(AddItems(t, o, lines).value)
    decreases |lines|
  {
    if lines != [] {
      TypedAddItems(t[KItem(o, lines[0].product) := RItem(lines[0].quantity, lines[0].unitPrice)], o, lines[1..]);
    }
  }

  lemma {:induction false} TypedKept(t: Table, stmts: seq<Stmt>)
    requires Typed(t) && Run(t, stmts).Some?
    ensures Typed(Run(t, stmts).value)
  {
    if stmts != [] {
      var r := Run(t, stmts[..|stmts| - 1]).value;
      TypedKept(t, stmts[..|stmts| - 1]);
      if Last(stmts).InsertItems? {
        TypedAddItems(r, Last(stmts).order, Last(stmts).lines);
      }
    }
  }

  lemma {:induction false} EventsMatchAfterOrder(t: Table, r: Table, o: Order)
    requires EventsMatch(t)
    requires KOrder(o.id) !in t && Get(r, KOrder(o.id)) == Some(ROrder(o.user, Total(o.lines), o.now))
    requires KEvent(o.event) !in t
        && Get(r, KEvent(o.event)) == Some(REvent(o.id, o.user, Total(o.lines), o.eventAt, None))
    requires forall k: Key | (k.KOrder? && k.order != o.id) || (k.KEvent? && k.event != o.event) ::
        Get(r, k) == Get(t, k)
    ensures EventsMatch(r)
  {
    assert Announces(r, o.event, o.id);
    forall e: nat | KEvent(e) in r && e != o.event
      ensures KEvent(e) in t && r[KEvent(e)] == t[KEvent(e)] && r[KEvent(e)].REvent?
      ensures Announces(r, e, r[KEvent(e)].forOrder) && r[KEvent(e)].forOrder != o.id
    {
      assert Get(r, KEvent(e)) == Get(t, KEvent(e));
      var x := t[KEvent(e)].forOrder;
      assert Announces(t, e, x);
      assert Get(r, KOrder(x)) == Get(t, KOrder(x));
    }
    forall x: nat | KOrder(x) in r ensures Announced(r, x) {
      if x != o.id {
        assert Get(r, KOrder(x)) == Get(t, KOrder(x));
        assert Announced(t, x);
        var e :| Announces(t, e, x);
        assert Get(r, KEvent(e)) == Get(t, KEvent(e));
        assert Announces(r, e, x);
      }
    }
  }

  /** One order, seen row by row: which order, item and event rows exist afterwards. */
  lemma {:induction false} OrderRowwise(t: Table, o: Order, n: nat)
    requires Rowwise(t, n) && o.id < n && Run(t, Program(o)).Some?
    ensures Rowwise(Run(t, Program(o)).value, n)
  {
    var r := Run(t, Program(o)).value;
    TypedKept(t, Program(o));
    OrderRows(t, o);
    EventRow(t, o);
    forall k: Key | (k.KOrder? && k.order != o.id) || (k.KItem? && k.itemOrder != o.id)
        || (k.KEvent? && k.event != o.event)
      ensures Get(r, k) == Get(t, k)
    {
      OrderTouches(t, o, k);
    }
    forall x: nat | KOrder(x) in r && x != o.id ensures KOrder(x) in t {
      assert Get(r, KOrder(x)) == Get(t, KOrder(x));
    }
    forall x: nat, p: nat | KItem(x, p) in r ensures KOrder(x) in r {
      if x != o.id {
        assert Get(r, KItem(x, p)) == Get(t, KItem(x, p));
        assert Get(r, KOrder(x)) == Get(t, KOrder(x));
      } else {
        assert Get(r, KOrder(o.id)).Some?;
      }
    }
    EventsMatchAfterOrder(t, r, o);
  }

  /** `b` differs from `a` at most in the carts and in the processed marks of events. */
  ghost predicate SameStory(a: Table, b: Table) {
    && (forall k: Key | !k.KCart? && !k.KEvent? :: Get(a, k) == Get(b, k))
    && (forall e: nat :: KEvent(e) in a <==> KEvent(e) in b)
    && (forall e: nat | KEvent(e) in a ::
          b[KEvent(e)] == a[KEvent(e)]
          || (a[KEvent(e)].REvent? && b[KEvent(e)].REvent?
              && b[KEvent(e)].(processedAt := None) == a[KEvent(e)].(processedAt := None)))
  }

  lemma {:induction false} SideJobsKeepStory(t: Table, stmts: seq<Stmt>)
    requires Run(t, stmts).Some?
    requires forall s | s in stmts :: s.LockEvent? || s.MarkEvent? || s.PutCart?
    ensures SameStory(t, Run(t, stmts).value)
  {
    if stmts != [] {
      var front := stmts[..|stmts| - 1];
      SideJobsKeepStory(t, front);
      assert Last(stmts) in stmts;
      var m, r := Run(t, front).value, Run(t, stmts).value;
      ExecLocal(Last(stmts), m, m);
      forall e: nat ensures KEvent(e) in r <==> KEvent(e) in m {
        if !Last(stmts).MarkEvent? || Last(stmts).event != e {
          assert Get(r, KEvent(e)) == Get(m, KEvent(e));
        }
      }
      forall e: nat | KEvent(e) in m && !(Last(stmts).MarkEvent? && Last(stmts).event == e)
        ensures r[KEvent(e)] == m[KEvent(e)]
      {
        assert Get(r, KEvent(e)) == Get(m, KEvent(e));
      }
    }
  }

  lemma {:induction false} SameStoryRowwise(a: Table, b: Table, n: nat)
    requires Rowwise(a, n) && SameStory(a, b) && Typed(b)
    ensures Rowwise(b, n)
  {
    forall o: nat ensures KOrder(o) in b <==> KOrder(o) in a ensures KOrder(o) in a ==> a[KOrder(o)] == b[KOrder(o)] {
      assert Get(a, KOrder(o)) == Get(b, KOrder(o));
    }
    forall o: nat, p: nat | KItem(o, p) in b ensures KOrder(o) in b {
      assert Get(a, KItem(o, p)) == Get(b, KItem(o, p));
    }
    forall e: nat, o: nat | Announces(a, e, o) ensures Announces(b, e, o) {
    }
    forall o: nat | KOrder(o) in b ensures Announced(b, o) {
      assert Announced(a, o);
      var e :| Announces(a, e, o);
      assert Announces(b, e, o);
    }
  }

  lemma {:induction false} AfterRowwise(stock: Table, jobs: seq<Job>, n: nat, e: nat)
    requires Fresh(stock) && After(stock, jobs).Some? && JobsBelow(jobs, n, e)
    ensures Rowwise(After(stock, jobs).value, n)
  {
    if jobs != [] {
      var front, last := jobs[..|jobs| - 1], jobs[|jobs| - 1];
      AfterRowwise(stock, front, n, e);
      var c := After(stock, front).value;
      assert last in jobs;
      match last
      case OrderJob(o) => OrderRowwise(c, o, n);
      case _ =>
        SideJobsKeepStory(c, Planned(last));
        TypedKept(c, Planned(last));
        SameStoryRowwise(c, Run(c, Planned(last)).value, n);
    }
  }

  lemma {:induction false} AfterSummary(stock: Table, jobs: seq<Job>, n: nat, e: nat, d: nat)
    requires Fresh(stock) && After(stock, jobs).Some? && JobsBelow(jobs, n, e)
    ensures SummaryMatches(After(stock, jobs).value, d, n)
  {
    AfterRowwise(stock, jobs, n, e);
    if jobs == [] {
      FreshFigures(stock, 0, d, n);
    } else {
      var front, last := jobs[..|jobs| - 1], jobs[|jobs| - 1];
      AfterSummary(stock, front, n, e, d);
      var c := After(stock, front).value;
      assert last in jobs;
      PlannedIds(last, n, e);
      RunPlaced(c, Planned(last), d, n);
      RunSummed(c, Planned(last), d);
      JobBalances(last, n, e, 0, d);
    }
  }

  lemma {:induction false} AfterPrefix(stock: Table, jobs: seq<Job>, k: nat)
    requires k <= |jobs| && After(stock, jobs).Some?
    ensures After(stock, jobs[..k]).Some?
  {
    if k < |jobs| {
      AfterPrefix(stock, jobs[..|jobs| - 1], k);
      assert jobs[..|jobs| - 1][..k] == jobs[..k];
    } else {
      assert jobs[..k] == jobs;
    }
  }

  /**
   In every run, on the primary's committed tables (k = everything) and on every prefix a replica may stand at:
   summaries equal the fold over the orders in that same prefix, events and orders are in bijection, and items
   belong to orders.
   */
  lemma DerivedDataAgrees(stock: Table, actions: seq<Action>, k: nat)
    requires Fresh(stock) && k <= |Behave(Opened(stock), actions).committed|
    ensures var s := Behave(Opened(stock), actions);
      && After(stock, s.committed[..k]).Some?
      && var t := After(stock, s.committed[..k]).value;
      && (forall d: nat :: SummaryMatches(t, d, s.nextOrder))
      && EventsMatch(t) && ItemsHaveOrders(t) && Bounded(t, s.nextOrder)
  {
    SerialEquivalence(stock, actions);
    BehaveInv(stock, actions);
    var s := Behave(Opened(stock), actions);
    AfterPrefix(stock, s.committed, k);
    assert JobsBelow(s.committed[..k], s.nextOrder, s.nextEvent);
    AfterRowwise(stock, s.committed[..k], s.nextOrder, s.nextEvent);
    forall d: nat ensures SummaryMatches(After(stock, s.committed[..k]).value, d, s.nextOrder) {
      AfterSummary(stock, s.committed[..k], s.nextOrder, s.nextEvent, d);
    }
  }

  // ----- Processed events -----

  /** The worker's transaction marks event `e`. */
  ghost predicate Marks(stmts: seq<Stmt>, e: nat) {
    exists now :: MarkEvent(e, now) in stmts
  }

  ghost predicate Processed(t: Table, e: nat) {
    KEvent(e) in t && t[KEvent(e)].REvent? && t[KEvent(e)].processedAt.Some?
  }

  lemma MarksSnoc(front: seq<Stmt>, last: Stmt, e: nat)
    ensures Marks(front + [last], e) <==> Marks(front, e) || (last.MarkEvent? && last.event == e)
  {
    if last.MarkEvent? && last.event == e {
      assert MarkEvent(e, last.now) in front + [last];
    }
    if now :| MarkEvent(e, now) in front {
      assert MarkEvent(e, now) in front + [last];
    }
  }

  /** One statement of a worker processes the event it marks and no other. */
  lemma TouchProcesses(t: Table, stmt: Stmt, e: nat)
    requires Typed(t) && KEvent(e) in t && (stmt.LockEvent? || stmt.MarkEvent?)
    ensures Exec(stmt, t).Some? && KEvent(e) in Exec(stmt, t).value
    ensures Processed(Exec(stmt, t).value, e) <==> Processed(t, e) || (stmt.MarkEvent? && stmt.event == e)
  {
  }

  lemma {:induction false} WorkerProcesses(t: Table, sent: seq<Stmt>, e: nat)
    requires Typed(t) && KEvent(e) in t && Touching(sent) && Run(t, sent).Some?
    ensures KEvent(e) in Run(t, sent).value
    ensures Processed(Run(t, sent).value, e) <==> Processed(t, e) || Marks(sent, e)
  {
    if sent != [] {
      var front, last := sent[..|sent| - 1], sent[|sent| - 1];
      assert last in sent && forall stmt | stmt in front :: stmt in sent;
      WorkerProcesses(t, front, e);
      TypedKept(t, front);
      TouchProcesses(Run(t, front).value, last, e);
      assert sent == front + [last];
      MarksSnoc(front, last, e);
    }
  }

  /** Job `x` of the log is a worker that marks event `e` while the event is there. */
  ghost predicate MarkedAt(stock: Table, jobs: seq<Job>, x: nat, e: nat) {
    && x < |jobs| && jobs[x].WorkerJob? && Marks(jobs[x].sent, e)
    && After(stock, jobs[..x]).Some? && KEvent(e) in After(stock, jobs[..x]).value
  }

  lemma MarkedAtLater(stock: Table, front: seq<Job>, last: Job, x: nat, e: nat)
    requires x < |front|
    ensures MarkedAt(stock, front, x, e) <==> MarkedAt(stock, front + [last], x, e)
  {
    assert (front + [last])[..x] == front[..x];
  }

  /** What one more job does to the processed mark of an event. */
  lemma {:induction false} JobProcesses(t: Table, j: Job, e: nat, n: nat, next: nat)
    requires Typed(t) && Run(t, Planned(j)).Some? && JobOk(j, |Planned(j)|, n, next)
    ensures Processed(Run(t, Planned(j)).value, e) <==>
      Processed(t, e) || (j.WorkerJob? && Marks(j.sent, e) && KEvent(e) in t)
  {
    var r := Run(t, Planned(j)).value;
    match j
    case WorkerJob(sent) =>
      if KEvent(e) in t {
        WorkerProcesses(t, sent, e);
      } else {
        SideJobsKeepStory(t, sent);
        assert KEvent(e) !in r;
      }
    case CartJob(user, _, _) =>
      RunFrame(t, Planned(j), KEvent(e));
      assert Get(r, KEvent(e)) == Get(t, KEvent(e));
    case OrderJob(o) =>
      EventRow(t, o);
      if e == o.event {
        assert Get(r, KEvent(e)) == Some(REvent(o.id, o.user, Total(o.lines), o.eventAt, None));
      } else {
        OrderTouches(t, o, KEvent(e));
        assert Get(r, KEvent(e)) == Get(t, KEvent(e));
      }
  }

  /** Some committed worker marked event `e` after it had been inserted. */
  ghost predicate EverMarked(stock: Table, jobs: seq<Job>, e: nat) {
    exists x: nat :: MarkedAt(stock, jobs, x, e)
  }

  lemma {:induction false} EverMarkedSnoc(stock: Table, front: seq<Job>, last: Job, e: nat)
    requires After(stock, front).Some?
    ensures EverMarked(stock, front + [last], e) <==>
      EverMarked(stock, front, e)
      || (last.WorkerJob? && Marks(last.sent, e) && KEvent(e) in After(stock, front).value)
  {
    var jobs, k := front + [last], |front|;
    assert jobs[..k] == front && jobs[k] == last;
    assert MarkedAt(stock, jobs, k, e) <==>
      last.WorkerJob? && Marks(last.sent, e) && KEvent(e) in After(stock, front).value;
    if EverMarked(stock, front, e) {
      var x: nat :| MarkedAt(stock, front, x, e);
      MarkedAtLater(stock, front, last, x, e);
    }
    if EverMarked(stock, jobs, e) {
      var x: nat :| MarkedAt(stock, jobs, x, e);
      if x < k {
        MarkedAtLater(stock, front, last, x, e);
      }
    }
  }

  /** An event stands as processed if and only if some committed worker marked it after it had been inserted. */
  lemma {:induction false} ProcessedIffMarked(stock: Table, jobs: seq<Job>, e: nat, n: nat, next: nat)
    requires Fresh(stock) && After(stock, jobs).Some? && JobsBelow(jobs, n, next)
    ensures Processed(After(stock, jobs).value, e) <==> EverMarked(stock, jobs, e)
  {
    if jobs == [] {
      assert KEvent(e) !in stock;
    } else {
      var front, last := jobs[..|jobs| - 1], jobs[|jobs| - 1];
      assert jobs == front + [last] && last in jobs;
      ProcessedIffMarked(stock, front, e, n, next);
      AfterRowwise(stock, front, n, next);
      JobProcesses(After(stock, front).value, last, e, n, next);
      EverMarkedSnoc(stock, front, last, e);
    }
  }
}
