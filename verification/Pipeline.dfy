/**
 The running shop: any number of order requests, cart statements and outbox workers interleave statement by
 statement on the primary, any transaction may be rolled back at any point, and a replica applies the commit log
 from the front. A blocked or failing statement does not advance; its transaction can only wait or be rolled back.
 */
module Pipeline {
  import opened Ordering
  import opened Rows
  import opened Orders
  import TP = TwoPhase

  datatype Job =
    | OrderJob(order: Order)
    | CartJob(user: nat, product: nat, line: Option<CartLine>)
    | WorkerJob(sent: seq<Stmt>)

  datatype Shop = Shop(
    store: TP.Store,
    jobs: map<nat, Job>,
    committed: seq<Job>,
    applied: nat,
    nextTxn: nat,
    nextOrder: nat,
    nextEvent: nat)

  datatype Action =
    | BeginOrder(user: nat, lines: seq<Line>, now: nat)
    | BeginCart(user: nat, product: nat, line: Option<CartLine>)
    | BeginWorker
    | Advance(txn: nat, clock: nat)
    | Touch(txn: nat, event: nat, mark: Option<nat>)
    | CommitTxn(txn: nat)
    | AbortTxn(txn: nat)
    | Replicate

  /** The statements a job sends, in order. */
  function Planned(j: Job): seq<Stmt> {
    match j
    case OrderJob(o) => Program(o)
    case CartJob(user, product, line) => [PutCart(user, product, line)]
    case WorkerJob(sent) => sent
  }

  /** AUTO_INCREMENT: the primary picks the order id at the first statement and the event id at the outbox insert. */
  function Assign(j: Job, at: nat, order: nat, event: nat, clock: nat): Job {
    if j.OrderJob? && at == 0 then j.(order := j.order.(id := order))
    else if j.OrderJob? && at == |j.order.lines| + 3 then j.(order := j.order.(event := event, eventAt := clock))
    else j
  }

  function Opened(stock: Table): Shop {
    Shop(TP.Opened(stock), map[], [], 0, 0, 0, 0)
  }

  function Start(s: Shop, j: Job): Shop {
    if s.nextTxn in s.store.txns then s else
      s.(store := TP.Begin(s.store, s.nextTxn), jobs := s.jobs[s.nextTxn := j], nextTxn := s.nextTxn + 1)
  }

  function Step(s: Shop, t: nat, clock: nat): Shop
    requires t in s.jobs && t in s.store.txns
  {
    var at := |s.store.txns[t].done|;
    var j := Assign(s.jobs[t], at, s.nextOrder, s.nextEvent, clock);
    if j.WorkerJob? || at >= |Planned(j)| || !TP.CanExec(s.store, t, Planned(j)[at]) then s else
      s.(store := TP.ExecIn(s.store, t, Planned(j)[at]), jobs := s.jobs[t := j],
         nextOrder := s.nextOrder + (if j.OrderJob? && at == 0 then 1 else 0),
         nextEvent := s.nextEvent + if j.OrderJob? && at == |j.order.lines| + 3 then 1 else 0)
  }

  function Committed(s: Shop, t: nat): Shop
    requires t in s.jobs && t in s.store.txns
  {
    s.(store := TP.Commit(s.store, t), jobs := s.jobs - {t}, committed := s.committed + [s.jobs[t]])
  }

  function Aborted(s: Shop, t: nat): Shop
    requires t in s.jobs && t in s.store.txns
  {
    s.(store := TP.Rollback(s.store, t), jobs := s.jobs - {t})
  }

  function Next(s: Shop, a: Action): Shop {
    match a
    case BeginOrder(user, lines, now) => if lines == [] then s else Start(s, OrderJob(Order(0, 0, user, lines, now, 0)))
    case BeginCart(user, product, line) => Start(s, CartJob(user, product, line))
    case BeginWorker => Start(s, WorkerJob([]))
    case Advance(t, clock) => if t in s.jobs && t in s.store.txns then Step(s, t, clock) else s
    case Touch(t, event, mark) =>
      var stmt := if mark.Some? then MarkEvent(event, mark.value) else LockEvent(event);
      if t in s.jobs && s.jobs[t].WorkerJob? && TP.CanExec(s.store, t, stmt)
      then s.(store := TP.ExecIn(s.store, t, stmt), jobs := s.jobs[t := WorkerJob(s.jobs[t].sent + [stmt])])
      else s
    case CommitTxn(t) =>
      if t in s.jobs && t in s.store.txns && |s.store.txns[t].done| == |Planned(s.jobs[t])| then Committed(s, t) else s
    case AbortTxn(t) => if t in s.jobs && t in s.store.txns then Aborted(s, t) else s
    case Replicate => if s.applied < |s.committed| then s.(applied := s.applied + 1) else s
  }

  function Behave(s: Shop, actions: seq<Action>): Shop {
    if actions == [] then s else Next(Behave(s, actions[..|actions| - 1]), actions[|actions| - 1])
  }

  lemma BehaveSnoc(s: Shop, actions: seq<Action>, a: Action)
    ensures Behave(s, actions + [a]) == Next(Behave(s, actions), a)
  {
    assert (actions + [a])[..|actions + [a]| - 1] == actions;
  }

  /** The tables after a list of committed jobs, each run alone on what the ones before it left. */
  function After(stock: Table, jobs: seq<Job>): Option<Table> {
    if jobs == [] then Some(stock) else
      match After(stock, jobs[..|jobs| - 1])
      case None => None
      case Some(t) => Run(t, Planned(jobs[|jobs| - 1]))
  }

  // ----- The invariant of every run -----

  predicate Touching(stmts: seq<Stmt>) {
    forall s | s in stmts :: s.LockEvent? || s.MarkEvent?
  }

  /** `at` statements of the job have run. */
  predicate JobOk(j: Job, at: nat, nextOrder: nat, nextEvent: nat) {
    && at <= |Planned(j)|
    && (j.OrderJob? ==> j.order.lines != [])
    && (j.OrderJob? && at > 0 ==> j.order.id < nextOrder)
    && (j.OrderJob? && at > |j.order.lines| + 3 ==> j.order.event < nextEvent)
    && (j.WorkerJob? ==> at == |j.sent| && Touching(j.sent))
  }

  ghost predicate History(s: Shop) {
    && |s.committed| == |s.store.log|
    && forall i | 0 <= i < |s.committed| ::
        && s.store.log[i] == Planned(s.committed[i])
        && JobOk(s.committed[i], |Planned(s.committed[i])|, s.nextOrder, s.nextEvent)
  }

  ghost predicate Running(s: Shop) {
    && s.jobs.Keys == s.store.txns.Keys
    && forall t | t in s.jobs ::
        && JobOk(s.jobs[t], |s.store.txns[t].done|, s.nextOrder, s.nextEvent)
        && s.store.txns[t].done == Planned(s.jobs[t])[..|s.store.txns[t].done|]
        && t < s.nextTxn
  }

  ghost predicate Inv(stock: Table, s: Shop) {
    && TP.Valid(stock, s.store)
    && Running(s)
    && History(s)
    && s.applied <= |s.committed|
  }

  lemma AssignKeepsDone(j: Job, at: nat, order: nat, event: nat, clock: nat)
    requires at < |Planned(j)|
    ensures |Planned(Assign(j, at, order, event, clock))| == |Planned(j)|
    ensures Planned(Assign(j, at, order, event, clock))[..at] == Planned(j)[..at]
  {
    if j.OrderJob? && at == |j.order.lines| + 3 {
      var p, q := Program(j.order), Program(Assign(j, at, order, event, clock).order);
      forall i | 0 <= i < at ensures p[i] == q[i] {
        if i >= |j.order.lines| + 2 {
          assert p[i] == Tail(j.order)[i - |j.order.lines| - 2];
        }
      }
    }
  }

  lemma JobOkLater(j: Job, at: nat, n: nat, e: nat, n': nat, e': nat)
    requires JobOk(j, at, n, e) && n <= n' && e <= e'
    ensures JobOk(j, at, n', e')
  {
  }

  /** Replacing one running job, with counters that only grow, keeps the job bookkeeping. */
  lemma {:induction false} ReplaceJob(s: Shop, r: Shop, t: nat)
    requires Running(s) && History(s) && t in r.jobs && t < r.nextTxn
    requires r.jobs == s.jobs[t := r.jobs[t]] && r.committed == s.committed && r.store.log == s.store.log
    requires t in r.store.txns && r.store.txns == s.store.txns[t := r.store.txns[t]]
    requires s.nextOrder <= r.nextOrder && s.nextEvent <= r.nextEvent && s.nextTxn <= r.nextTxn
    requires JobOk(r.jobs[t], |r.store.txns[t].done|, r.nextOrder, r.nextEvent)
    requires r.store.txns[t].done == Planned(r.jobs[t])[..|r.store.txns[t].done|]
    ensures Running(r) && History(r)
  {
    forall u | u in r.jobs ensures JobOk(r.jobs[u], |r.store.txns[u].done|, r.nextOrder, r.nextEvent) {
      if u != t {
        JobOkLater(s.jobs[u], |s.store.txns[u].done|, s.nextOrder, s.nextEvent, r.nextOrder, r.nextEvent);
      }
    }
    forall i | 0 <= i < |r.committed|
      ensures JobOk(r.committed[i], |Planned(r.committed[i])|, r.nextOrder, r.nextEvent)
    {
      JobOkLater(s.committed[i], |Planned(s.committed[i])|, s.nextOrder, s.nextEvent, r.nextOrder, r.nextEvent);
    }
  }

  /** The next statement of a job, once its ids are assigned, keeps what is known of the job. */
  lemma AssignedJobOk(j0: Job, at: nat, n: nat, e: nat, clock: nat)
    requires JobOk(j0, at, n, e) && at < |Planned(j0)| && !j0.WorkerJob?
    ensures var j := Assign(j0, at, n, e, clock);
      JobOk(j, at + 1, n + (if j.OrderJob? && at == 0 then 1 else 0),
                       e + if j.OrderJob? && at == |j.order.lines| + 3 then 1 else 0)
  {
    AssignKeepsDone(j0, at, n, e, clock);
  }

  lemma PrefixGrows(stmts: seq<Stmt>, at: nat)
    requires at < |stmts|
    ensures stmts[..at] + [stmts[at]] == stmts[..at + 1] && |stmts[..at + 1]| == at + 1
  {
  }

  /** `r` is `s` after transaction `t` has run statement `at` of job `j`. */
  lemma {:induction false} StepWith(s: Shop, t: nat, j: Job, at: nat, r: Shop)
    requires Running(s) && History(s) && t in s.jobs
    requires at < |Planned(j)| && s.store.txns[t].done == Planned(j)[..at]
    requires t in r.store.txns && r.store.txns == s.store.txns[t := r.store.txns[t]] && r.store.log == s.store.log
    requires r.store.txns[t].done == s.store.txns[t].done + [Planned(j)[at]] && r.jobs == s.jobs[t := j]
    requires r.committed == s.committed && r.nextTxn == s.nextTxn
    requires s.nextOrder <= r.nextOrder && s.nextEvent <= r.nextEvent
    requires JobOk(j, at + 1, r.nextOrder, r.nextEvent)
    ensures Running(r) && History(r)
  {
    PrefixGrows(Planned(j), at);
    ReplaceJob(s, r, t);
  }

  lemma {:induction false} StepKeepsJobs(s: Shop, t: nat, clock: nat)
    requires Running(s) && History(s) && t in s.jobs
    ensures Running(Step(s, t, clock)) && History(Step(s, t, clock))
  {
    var at := |s.store.txns[t].done|;
    var j := Assign(s.jobs[t], at, s.nextOrder, s.nextEvent, clock);
    if !j.WorkerJob? && at < |Planned(j)| && TP.CanExec(s.store, t, Planned(j)[at]) {
      assert JobOk(s.jobs[t], at, s.nextOrder, s.nextEvent);
      AssignedJobOk(s.jobs[t], at, s.nextOrder, s.nextEvent, clock);
      AssignKeepsDone(s.jobs[t], at, s.nextOrder, s.nextEvent, clock);
      TP.ExecShape(s.store, t, Planned(j)[at]);
      StepWith(s, t, j, at, Step(s, t, clock));
    }
  }

  /** What a step can do to a shop besides the job bookkeeping: one statement, or nothing. */
  lemma StepFrame(s: Shop, t: nat, clock: nat, r: Shop)
    requires t in s.jobs && t in s.store.txns && r == Step(s, t, clock)
    ensures r.committed == s.committed && r.applied == s.applied
    ensures r.store == s.store || exists stmt :: TP.CanExec(s.store, t, stmt) && r.store == TP.ExecIn(s.store, t, stmt)
  {
  }

  lemma StoreStaysValid(stock: Table, s: TP.Store, t: nat, r: TP.Store)
    requires TP.Valid(stock, s)
    requires r == s || exists stmt :: TP.CanExec(s, t, stmt) && r == TP.ExecIn(s, t, stmt)
    ensures TP.Valid(stock, r)
  {
    if r != s {
      var stmt :| TP.CanExec(s, t, stmt) && r == TP.ExecIn(s, t, stmt);
      TP.ExecValid(stock, s, t, stmt);
    }
  }

  lemma {:induction false} StepInv(stock: Table, s: Shop, t: nat, clock: nat, r: Shop)
    requires Inv(stock, s) && t in s.jobs && r == Step(s, t, clock)
    ensures Inv(stock, r)
  {
    StepKeepsJobs(s, t, clock);
    StepFrame(s, t, clock, r);
    StoreStaysValid(stock, s.store, t, r.store);
  }

  lemma {:induction false} StartInv(stock: Table, s: Shop, j: Job)
    requires Inv(stock, s) && JobOk(j, 0, s.nextOrder, s.nextEvent)
    ensures Inv(stock, Start(s, j))
  {
    if s.nextTxn !in s.store.txns {
      TP.BeginValid(stock, s.store, s.nextTxn);
      ReplaceJob(s, Start(s, j), s.nextTxn);
    }
  }

  lemma {:induction false} TouchKeepsJobs(s: Shop, t: nat, stmt: Stmt, store: TP.Store)
    requires Running(s) && History(s) && t in s.jobs && s.jobs[t].WorkerJob? && (stmt.LockEvent? || stmt.MarkEvent?)
    requires t in store.txns && store.txns == s.store.txns[t := store.txns[t]] && store.log == s.store.log
    requires store.txns[t].done == s.store.txns[t].done + [stmt]
    ensures var r := s.(store := store, jobs := s.jobs[t := WorkerJob(s.jobs[t].sent + [stmt])]);
      Running(r) && History(r)
  {
    var sent := s.jobs[t].sent;
    assert JobOk(s.jobs[t], |s.store.txns[t].done|, s.nextOrder, s.nextEvent);
    assert (sent + [stmt])[..|sent|] == sent == sent[..|sent|];
    StepWith(s, t, WorkerJob(sent + [stmt]), |sent|,
      s.(store := store, jobs := s.jobs[t := WorkerJob(sent + [stmt])]));
  }

  lemma {:induction false} TouchInv(stock: Table, s: Shop, t: nat, stmt: Stmt, r: Shop)
    requires Inv(stock, s) && t in s.jobs && s.jobs[t].WorkerJob? && (stmt.LockEvent? || stmt.MarkEvent?)
    requires TP.CanExec(s.store, t, stmt)
    requires r == s.(store := TP.ExecIn(s.store, t, stmt), jobs := s.jobs[t := WorkerJob(s.jobs[t].sent + [stmt])])
    ensures Inv(stock, r)
  {
    StoreStaysValid(stock, s.store, t, r.store);
    TP.ExecShape(s.store, t, stmt);
    assert JobOk(s.jobs[t], |s.store.txns[t].done|, s.nextOrder, s.nextEvent);
    TouchKeepsJobs(s, t, stmt, r.store);
  }

  lemma {:induction false} AbortInv(stock: Table, s: Shop, t: nat)
    requires Inv(stock, s) && t in s.jobs
    ensures Inv(stock, Aborted(s, t))
  {
    var r := Aborted(s, t);
    assert Running(r) && History(r);
    TP.RollbackValid(stock, s.store, t);
  }

  lemma {:induction false} CommitKeepsJobs(s: Shop, t: nat)
    requires Running(s) && History(s) && t in s.jobs && |s.store.txns[t].done| == |Planned(s.jobs[t])|
    ensures Running(Committed(s, t)) && History(Committed(s, t))
  {
    var j, c := s.jobs[t], Committed(s, t);
    assert Planned(j)[..|Planned(j)|] == Planned(j);
    assert JobOk(j, |s.store.txns[t].done|, s.nextOrder, s.nextEvent);
    forall i | 0 <= i < |c.committed|
      ensures JobOk(c.committed[i], |Planned(c.committed[i])|, c.nextOrder, c.nextEvent)
      ensures c.store.log[i] == Planned(c.committed[i])
    {
      if i < |s.committed| {
        assert JobOk(s.committed[i], |Planned(s.committed[i])|, s.nextOrder, s.nextEvent);
      }
    }
  }

  lemma {:induction false} CommitInv(stock: Table, s: Shop, t: nat)
    requires Inv(stock, s) && t in s.jobs && |s.store.txns[t].done| == |Planned(s.jobs[t])|
    ensures Inv(stock, Committed(s, t))
  {
    CommitKeepsJobs(s, t);
    TP.CommitValid(stock, s.store, t);
  }

  lemma BeginNext(stock: Table, s: Shop, a: Action)
    requires Inv(stock, s) && (a.BeginOrder? || a.BeginCart? || a.BeginWorker?)
    ensures Inv(stock, Next(s, a))
  {
    match a
    case BeginOrder(user, lines, now) =>
      if lines != [] {
        StartInv(stock, s, OrderJob(Order(0, 0, user, lines, now, 0)));
      }
    case BeginCart(user, product, line) => StartInv(stock, s, CartJob(user, product, line));
    case BeginWorker => StartInv(stock, s, WorkerJob([]));
  }

  lemma AdvanceNext(stock: Table, s: Shop, t: nat, clock: nat)
    requires Inv(stock, s)
    ensures Inv(stock, Next(s, Advance(t, clock)))
  {
    if t in s.jobs {
      StepInv(stock, s, t, clock, Next(s, Advance(t, clock)));
    }
  }

  lemma TouchNext(stock: Table, s: Shop, t: nat, event: nat, mark: Option<nat>)
    requires Inv(stock, s)
    ensures Inv(stock, Next(s, Touch(t, event, mark)))
  {
    var stmt := if mark.Some? then MarkEvent(event, mark.value) else LockEvent(event);
    if t in s.jobs && s.jobs[t].WorkerJob? && TP.CanExec(s.store, t, stmt) {
      TouchInv(stock, s, t, stmt, Next(s, Touch(t, event, mark)));
    }
  }

  lemma EndNext(stock: Table, s: Shop, a: Action)
    requires Inv(stock, s) && (a.CommitTxn? || a.AbortTxn?)
    ensures Inv(stock, Next(s, a))
  {
    if a.txn in s.jobs {
      if a.AbortTxn? {
        AbortInv(stock, s, a.txn);
      } else if |s.store.txns[a.txn].done| == |Planned(s.jobs[a.txn])| {
        CommitInv(stock, s, a.txn);
      }
    }
  }

  lemma ReplicateNext(stock: Table, s: Shop)
    requires Inv(stock, s)
    ensures Inv(stock, Next(s, Replicate))
  {
  }

  /** Every action keeps the invariant. */
  lemma {:induction false} NextInv(stock: Table, s: Shop, a: Action)
    requires Inv(stock, s)
    ensures Inv(stock, Next(s, a))
  {
    match a
    case BeginOrder(_, _, _) => BeginNext(stock, s, a);
    case BeginCart(_, _, _) => BeginNext(stock, s, a);
    case BeginWorker => BeginNext(stock, s, a);
    case Advance(t, clock) => AdvanceNext(stock, s, t, clock);
    case Touch(t, event, mark) => TouchNext(stock, s, t, event, mark);
    case CommitTxn(_) => EndNext(stock, s, a);
    case AbortTxn(_) => EndNext(stock, s, a);
    case Replicate => ReplicateNext(stock, s);
  }

  lemma {:induction false} BehaveInv(stock: Table, actions: seq<Action>)
    ensures Inv(stock, Behave(Opened(stock), actions))
  {
    if actions == [] {
      assert forall k :: !TP.Held(TP.Opened(stock), k);
    } else {
      BehaveInv(stock, actions[..|actions| - 1]);
      NextInv(stock, Behave(Opened(stock), actions[..|actions| - 1]), actions[|actions| - 1]);
    }
  }

  lemma {:induction false} AfterIsReplay(stock: Table, log: seq<seq<Stmt>>, jobs: seq<Job>)
    requires |log| == |jobs| && forall i | 0 <= i < |jobs| :: log[i] == Planned(jobs[i])
    ensures After(stock, jobs) == TP.Replay(stock, log)
  {
    if jobs != [] {
      AfterIsReplay(stock, log[..|log| - 1], jobs[..|jobs| - 1]);
    }
  }

  /**
   Serial equivalence of whole runs: whatever the interleaving and the aborts, the committed tables are those of
   the committed jobs run one at a time in commit order, and in that serial run no statement - no stock check in
   particular - fails.
   */
  lemma SerialEquivalence(stock: Table, actions: seq<Action>)
    ensures var s := Behave(Opened(stock), actions);
      && After(stock, s.committed).Some?
      && TP.IsCommitted(s.store, After(stock, s.committed).value)
      && (s.jobs == map[] ==> s.store.live == After(stock, s.committed).value)
  {
    BehaveInv(stock, actions);
    var s := Behave(Opened(stock), actions);
    AfterIsReplay(stock, s.store.log, s.committed);
    TP.Serializable(stock, s.store);
    if s.jobs == map[] {
      assert s.store.txns.Keys == {};
    }
  }

  // ----- Stock conservation -----

  /** Units of `p` reserved by the in-flight transactions with numbers below `n`. */
  function InFlight(s: TP.Store, p: nat, n: nat): int {
    if n == 0 then 0 else
      InFlight(s, p, n - 1) + if n - 1 in s.txns then Reserved(s.txns[n - 1].done, p) else 0
  }

  lemma {:induction false} UnlockedReservesNothing(stmts: seq<Stmt>, p: nat)
    requires KStock(p) !in KeysOf(stmts)
    ensures Reserved(stmts, p) == 0
  {
    if stmts != [] {
      UnlockedReservesNothing(stmts[..|stmts| - 1], p);
    }
  }

  /** A product's stock row has at most one lock holder, so at most one transaction has reserved from it. */
  lemma {:induction false} InFlightIsOwner(c: Table, s: TP.Store, p: nat, n: nat, owner: Option<nat>)
    requires forall t | t in s.txns :: TP.TxnOk(c, s.live, s.txns[t])
    requires forall t | t in s.txns && Some(t) != owner :: KStock(p) !in s.txns[t].undo
    ensures InFlight(s, p, n) ==
      if owner.Some? && owner.value in s.txns && owner.value < n then Reserved(s.txns[owner.value].done, p) else 0
  {
    if n > 0 {
      InFlightIsOwner(c, s, p, n - 1, owner);
      if n - 1 in s.txns && Some(n - 1) != owner {
        UnlockedReservesNothing(s.txns[n - 1].done, p);
      }
    }
  }

  /** Stock in the live tables, mid-transaction states included, is committed stock less what is in flight. */
  lemma {:induction false} LiveStock(stock: Table, s: TP.Store, p: nat, n: nat)
    requires TP.Valid(stock, s) && forall t | t in s.txns :: t < n
    requires StockOf(TP.Replay(stock, s.log).value, p) >= 0
    ensures StockOf(s.live, p) == StockOf(TP.Replay(stock, s.log).value, p) - InFlight(s, p, n)
    ensures StockOf(s.live, p) >= 0
  {
    var c := TP.Replay(stock, s.log).value;
    if TP.Held(s, KStock(p)) {
      var t :| t in s.txns && KStock(p) in s.txns[t].undo;
      InFlightIsOwner(c, s, p, n, Some(t));
      var r := Run(c, s.txns[t].done).value;
      assert Get(s.live, KStock(p)) == Get(r, KStock(p));
      RunStock(c, s.txns[t].done, p);
      RunKeepsStock(c, s.txns[t].done, p);
    } else {
      InFlightIsOwner(c, s, p, n, None);
      assert Get(s.live, KStock(p)) == Get(c, KStock(p));
    }
  }

  /** A new shop: stock and carts only, no negative stock. */
  predicate Fresh(stock: Table) {
    forall k | k in stock :: (k.KStock? && stock[k].RStock? && stock[k].stock >= 0) || (k.KCart? && stock[k].RCart?)
  }

  ghost predicate JobsBelow(jobs: seq<Job>, nextOrder: nat, nextEvent: nat) {
    forall j | j in jobs :: JobOk(j, |Planned(j)|, nextOrder, nextEvent)
  }

  lemma PlannedIds(j: Job, n: nat, e: nat)
    requires JobOk(j, |Planned(j)|, n, e)
    ensures IdsBelow(Planned(j), n)
  {
  }

  lemma {:induction false} TouchesNothing(stmts: seq<Stmt>, p: nat, d: nat)
    requires Touching(stmts)
    ensures Reserved(stmts, p) == 0 && Itemised(stmts, p) == 0
    ensures Placed(stmts, d) == (0, 0) && Summed(stmts, d) == (0, 0)
  {
    if stmts != [] {
      assert Touching(stmts[..|stmts| - 1]);
      assert Last(stmts) in stmts;
      TouchesNothing(stmts[..|stmts| - 1], p, d);
    }
  }

  /** Every figure moves in step over one whole job. */
  lemma JobBalances(j: Job, n: nat, e: nat, p: nat, d: nat)
    requires JobOk(j, |Planned(j)|, n, e)
    ensures Reserved(Planned(j), p) == Itemised(Planned(j), p)
    ensures Placed(Planned(j), d) == Summed(Planned(j), d)
  {
    match j
    case OrderJob(o) => ProgramBalances(o, p, d);
    case CartJob(_, _, _) => assert Planned(j)[..0] == [];
    case WorkerJob(sent) => TouchesNothing(sent, p, d);
  }

  lemma {:induction false} FreshFigures(stock: Table, p: nat, d: nat, n: nat)
    requires Fresh(stock)
    ensures Sold(stock, p, n) == 0 && OrdersOn(stock, d, n) == 0 && AmountOn(stock, d, n) == 0
    ensures SummaryOrders(stock, d) == 0 && SummaryAmount(stock, d) == 0 && StockOf(stock, p) >= 0
  {
    if n > 0 {
      FreshFigures(stock, p, d, n - 1);
    }
  }

  /** On the committed tables: units sold plus stock is what the shop opened with. */
  lemma {:induction false} CommittedStock(stock: Table, jobs: seq<Job>, p: nat, n: nat, e: nat)
    requires Fresh(stock) && After(stock, jobs).Some? && JobsBelow(jobs, n, e)
    ensures var c := After(stock, jobs).value;
      StockOf(c, p) + Sold(c, p, n) == StockOf(stock, p) && StockOf(c, p) >= 0
  {
    if jobs == [] {
      FreshFigures(stock, p, 0, n);
    } else {
      var front, last := jobs[..|jobs| - 1], jobs[|jobs| - 1];
      CommittedStock(stock, front, p, n, e);
      var c := After(stock, front).value;
      PlannedIds(last, n, e);
      RunStock(c, Planned(last), p);
      RunSold(c, Planned(last), p, n);
      RunKeepsStock(c, Planned(last), p);
      JobBalances(last, n, e, p, 0);
    }
  }

  /**
   Stock conservation in every reachable state: what the live tables hold, plus the units in committed order items,
   plus the units reserved by transactions still in flight, is the stock the shop opened with; stock is never negative.
   */
  lemma {:induction false} StockConservation(stock: Table, actions: seq<Action>, p: nat)
    requires Fresh(stock)
    ensures var s := Behave(Opened(stock), actions);
      && After(stock, s.committed).Some?
      && StockOf(s.store.live, p) + Sold(After(stock, s.committed).value, p, s.nextOrder)
          + InFlight(s.store, p, s.nextTxn)
         == StockOf(stock, p)
      && StockOf(s.store.live, p) >= 0
  {
    BehaveInv(stock, actions);
    var s := Behave(Opened(stock), actions);
    AfterIsReplay(stock, s.store.log, s.committed);
    CommittedStock(stock, s.committed, p, s.nextOrder, s.nextEvent);
    LiveStock(stock, s.store, p, s.nextTxn);
  }

  // ----- Stock, row by row -----

  predicate HasStock(t: Table, p: nat) { KStock(p) in t && t[KStock(p)].RStock? }

  /** Stock rows neither come nor go. */
  lemma {:induction false} RunKeepsStockRow(t: Table, stmts: seq<Stmt>, p: nat)
    requires Run(t, stmts).Some?
    ensures HasStock(Run(t, stmts).value, p) <==> HasStock(t, p)
    ensures KStock(p) in Run(t, stmts).value <==> KStock(p) in t
  {
    if stmts != [] {
      var m := Run(t, stmts[..|stmts| - 1]).value;
      RunKeepsStockRow(t, stmts[..|stmts| - 1], p);
      ExecLocal(Last(stmts), m, m);
      assert KStock(p) !in Keys(Last(stmts)) ==> Get(Run(t, stmts).value, KStock(p)) == Get(m, KStock(p));
    }
  }

  lemma {:induction false} AfterKeepsStockRow(stock: Table, jobs: seq<Job>, p: nat)
    requires After(stock, jobs).Some?
    ensures HasStock(After(stock, jobs).value, p) <==> HasStock(stock, p)
    ensures KStock(p) in After(stock, jobs).value <==> KStock(p) in stock
  {
    if jobs != [] {
      var front := jobs[..|jobs| - 1];
      AfterKeepsStockRow(stock, front, p);
      RunKeepsStockRow(After(stock, front).value, Planned(jobs[|jobs| - 1]), p);
    }
  }

  lemma {:induction false} LiveKeepsStockRow(stock: Table, s: TP.Store, p: nat)
    requires TP.Valid(stock, s)
    ensures HasStock(s.live, p) <==> HasStock(TP.Replay(stock, s.log).value, p)
    ensures KStock(p) in s.live <==> KStock(p) in TP.Replay(stock, s.log).value
  {
    var c := TP.Replay(stock, s.log).value;
    if TP.Held(s, KStock(p)) {
      var t :| t in s.txns && KStock(p) in s.txns[t].undo;
      assert TP.TxnOk(c, s.live, s.txns[t]);
      assert Get(s.live, KStock(p)) == Get(Run(c, s.txns[t].done).value, KStock(p));
      RunKeepsStockRow(c, s.txns[t].done, p);
    } else {
      assert Get(s.live, KStock(p)) == Get(c, KStock(p));
    }
  }

  /**
   The same balance on the rows themselves: a product's stock row is there throughout and holds what the shop opened
   with, less what is sold and what is reserved in flight; of a product without a row nothing is ever sold or reserved.
   */
  lemma {:induction false} StockRowsBalance(stock: Table, actions: seq<Action>, p: nat)
    requires Fresh(stock)
    ensures var s := Behave(Opened(stock), actions);
      && After(stock, s.committed).Some?
      && var gone := Sold(After(stock, s.committed).value, p, s.nextOrder) + InFlight(s.store, p, s.nextTxn);
         if KStock(p) in stock then
           && KStock(p) in s.store.live && s.store.live[KStock(p)].RStock?
           && s.store.live[KStock(p)].stock == stock[KStock(p)].stock - gone && s.store.live[KStock(p)].stock >= 0
         else KStock(p) !in s.store.live && gone == 0
  {
    StockConservation(stock, actions, p);
    BehaveInv(stock, actions);
    var s := Behave(Opened(stock), actions);
    AfterIsReplay(stock, s.store.log, s.committed);
    AfterKeepsStockRow(stock, s.committed, p);
    LiveKeepsStockRow(stock, s.store, p);
  }

  // ----- Workers -----

  predicate Handles(sent: seq<Stmt>, event: nat) {
    exists s | s in sent :: (s.LockEvent? || s.MarkEvent?) && s.event == event
  }

  lemma {:induction false} HandledIsLocked(sent: seq<Stmt>, event: nat)
    requires Handles(sent, event)
    ensures KEvent(event) in KeysOf(sent)
  {
    var front, last := sent[..|sent| - 1], sent[|sent| - 1];
    if !((last.LockEvent? || last.MarkEvent?) && last.event == event) {
      var s :| s in sent && (s.LockEvent? || s.MarkEvent?) && s.event == event;
      assert sent == front + [last];
      assert s in front;
      HandledIsLocked(front, event);
    }
  }

  lemma WorkerLocks(stock: Table, s: Shop, t: nat, event: nat)
    requires Inv(stock, s) && t in s.jobs && s.jobs[t].WorkerJob? && Handles(s.jobs[t].sent, event)
    ensures KEvent(event) in s.store.txns[t].undo.Keys
  {
    var x := s.store.txns[t];
    assert JobOk(s.jobs[t], |x.done|, s.nextOrder, s.nextEvent);
    assert x.done == s.jobs[t].sent;
    HandledIsLocked(s.jobs[t].sent, event);
    assert TP.TxnOk(TP.Replay(stock, s.store.log).value, s.store.live, x);
  }

  /** Two workers in progress never hold the same event: claiming it locks its row until the tick is over. */
  lemma {:induction false} WorkersHoldEventsAlone(stock: Table, actions: seq<Action>, t: nat, u: nat, event: nat)
    requires var s := Behave(Opened(stock), actions);
      && t in s.jobs && u in s.jobs && t != u && s.jobs[t].WorkerJob? && s.jobs[u].WorkerJob?
      && Handles(s.jobs[t].sent, event)
    ensures !Handles(Behave(Opened(stock), actions).jobs[u].sent, event)
  {
    BehaveInv(stock, actions);
    var s := Behave(Opened(stock), actions);
    WorkerLocks(stock, s, t, event);
    if Handles(s.jobs[u].sent, event) {
      WorkerLocks(stock, s, u, event);
    }
  }
}
