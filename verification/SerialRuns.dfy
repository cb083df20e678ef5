/**
 The shop can do what it should: every serial list of jobs whose statements go through is a run of the machine, a
 replica that goes on applying catches up, and an abort gives back what it had locked.
 */
module SerialRuns {
  import opened Ordering
  import opened Rows
  import opened Orders
  import opened Pipeline
  import TP = TwoPhase

  lemma {:induction false} RunPrefix(t: Table, stmts: seq<Stmt>, k: nat)
    requires Run(t, stmts).Some? && k < |stmts|
    ensures Run(t, stmts[..k]).Some? && Run(t, stmts[..k + 1]).Some?
    ensures Exec(stmts[k], Run(t, stmts[..k]).value) == Run(t, stmts[..k + 1])
    decreases |stmts|
  {
    assert stmts[..k + 1][..k] == stmts[..k];
    if k + 1 < |stmts| {
      assert stmts[..|stmts| - 1][..k + 1] == stmts[..k + 1];
      assert stmts[..|stmts| - 1][..k] == stmts[..k];
      RunPrefix(t, stmts[..|stmts| - 1], k);
    } else {
      assert stmts[..k + 1] == stmts;
    }
  }

  /** An order as its request carries it before its first `k` statements are through: ids come with the inserts. */
  function Carried(o: Order, k: nat): Order {
    if k == 0 then o.(id := 0, event := 0, eventAt := 0)
    else if k < |o.lines| + 4 then o.(event := 0, eventAt := 0)
    else o
  }

  /** The ids of `o` are the ones the shop hands out next. */
  predicate IsNext(s: Shop, o: Order) {
    o.lines != [] && o.id == s.nextOrder && o.event == s.nextEvent
  }

  /** Run alone on the live tables, every statement of `o` succeeds. */
  predicate GoesThrough(s: Shop, o: Order) { Run(s.store.live, Program(o)).Some? }

  function LiveAfter(s0: Shop, o: Order, k: nat): Option<Table>
    requires k <= |Program(o)|
  {
    Run(s0.store.live, Program(o)[..k])
  }

  /** From `s0` on only the request for `o` has moved, and it has run its first `k` statements. */
  ghost predicate LoneAt(s0: Shop, s: Shop, o: Order, k: nat)
    requires k <= |Program(o)|
  {
    var t := s0.nextTxn;
    && s.jobs == map[t := OrderJob(Carried(o, k))]
    && s.store.txns.Keys == {t} && s.store.txns[t].done == Program(o)[..k] && s.store.log == s0.store.log
    && Some(s.store.live) == LiveAfter(s0, o, k)
    && s.committed == s0.committed && s.applied == s0.applied
    && s.nextOrder == s0.nextOrder + (if k == 0 then 0 else 1)
    && s.nextEvent == s0.nextEvent + if k < |o.lines| + 4 then 0 else 1
  }

  lemma LoneOpens(s0: Shop, o: Order)
    requires IsNext(s0, o) && s0.jobs == map[] && s0.store.txns == map[]
    ensures LoneAt(s0, Next(s0, BeginOrder(o.user, o.lines, o.now)), o, 0)
  {
    assert Program(o)[..0] == [];
  }

  lemma {:induction false} CarriedOn(s0: Shop, s: Shop, o: Order, k: nat)
    requires IsNext(s0, o) && k < |Program(o)| && LoneAt(s0, s, o, k)
    ensures Assign(s.jobs[s0.nextTxn], k, s.nextOrder, s.nextEvent, o.eventAt) == OrderJob(Carried(o, k + 1))
    ensures Program(Carried(o, k + 1))[k] == Program(o)[k]
  {
    if k < |o.lines| + 3 {
      assert Program(o)[k] == (Head(o) + Reserves(o.lines) + [Tail(o)[0]])[k];
    }
  }

  /** `r` is `s` with the next statement executed, `store` the store it leaves. */
  lemma {:induction false} StepDone(s0: Shop, s: Shop, o: Order, k: nat, stmt: Stmt, store: TP.Store, r: Shop)
    requires k < |Program(o)| && LoneAt(s0, s, o, k)
    requires Program(o)[..k] + [stmt] == Program(o)[..k + 1]
    requires Some(store.live) == Run(s0.store.live, Program(o)[..k + 1]) && store.log == s.store.log
    requires store.txns.Keys == {s0.nextTxn} && store.txns[s0.nextTxn].done == s.store.txns[s0.nextTxn].done + [stmt]
    requires r == s.(store := store, jobs := s.jobs[s0.nextTxn := OrderJob(Carried(o, k + 1))],
                     nextOrder := s.nextOrder + (if k == 0 then 1 else 0),
                     nextEvent := s.nextEvent + if k == |o.lines| + 3 then 1 else 0)
    ensures LoneAt(s0, r, o, k + 1)
  {
  }

  lemma {:induction false} LoneStep(s0: Shop, s: Shop, o: Order, k: nat)
    requires IsNext(s0, o) && k < |Program(o)| && LoneAt(s0, s, o, k)
    requires Run(s0.store.live, Program(o)[..k]).Some? && Run(s0.store.live, Program(o)[..k + 1]).Some?
    requires Exec(Program(o)[k], Run(s0.store.live, Program(o)[..k]).value) == Run(s0.store.live, Program(o)[..k + 1])
    ensures LoneAt(s0, Next(s, Advance(s0.nextTxn, o.eventAt)), o, k + 1)
  {
    var t, stmt := s0.nextTxn, Program(o)[k];
    CarriedOn(s0, s, o, k);
    assert TP.CanExec(s.store, t, stmt);
    TP.ExecShape(s.store, t, stmt);
    PrefixGrows(Program(o), k);
    StepDone(s0, s, o, k, stmt, TP.ExecIn(s.store, t, stmt), Next(s, Advance(t, o.eventAt)));
  }

  /** The request for `o`, statement by statement, after the actions `before`. */
  function Lone(before: seq<Action>, t: nat, o: Order, k: nat): seq<Action> {
    if k == 0 then before + [BeginOrder(o.user, o.lines, o.now)]
        else Lone(before, t, o, k - 1) + [Advance(t, o.eventAt)]
  }

  lemma {:induction false} LoneGoesOn(stock: Table, s0: Shop, actions: seq<Action>, o: Order, k: nat)
    requires IsNext(s0, o) && Run(s0.store.live, Program(o)).Some? && k < |Program(o)|
    requires LoneAt(s0, Behave(Opened(stock), actions), o, k)
    ensures LoneAt(s0, Behave(Opened(stock), actions + [Advance(s0.nextTxn, o.eventAt)]), o, k + 1)
  {
    BehaveSnoc(Opened(stock), actions, Advance(s0.nextTxn, o.eventAt));
    RunPrefix(s0.store.live, Program(o), k);
    LoneStep(s0, Behave(Opened(stock), actions), o, k);
  }

  function LoneState(stock: Table, before: seq<Action>, s0: Shop, o: Order, k: nat): Shop {
    Behave(Opened(stock), Lone(before, s0.nextTxn, o, k))
  }

  ghost predicate Reaches(stock: Table, before: seq<Action>, s0: Shop, o: Order, k: nat)
    requires k <= |Program(o)|
  {
    LoneAt(s0, LoneState(stock, before, s0, o, k), o, k)
  }

  lemma ReachesStart(stock: Table, before: seq<Action>, s0: Shop, o: Order)
    requires s0 == Behave(Opened(stock), before) && s0.jobs == map[] && s0.store.txns == map[] && IsNext(s0, o)
    ensures Reaches(stock, before, s0, o, 0)
  {
    BehaveSnoc(Opened(stock), before, BeginOrder(o.user, o.lines, o.now));
    LoneOpens(s0, o);
  }

  lemma ReachesNext(stock: Table, before: seq<Action>, s0: Shop, o: Order, k: nat, next: nat)
    requires IsNext(s0, o) && GoesThrough(s0, o) && next == k + 1 <= |Program(o)|
    ensures Reaches(stock, before, s0, o, k) ==> Reaches(stock, before, s0, o, next)
  {
    if Reaches(stock, before, s0, o, k) {
      LoneGoesOn(stock, s0, Lone(before, s0.nextTxn, o, k), o, k);
    }
  }

  lemma {:induction false} LoneReaches(stock: Table, before: seq<Action>, s0: Shop, o: Order, k: nat)
    requires IsNext(s0, o) && GoesThrough(s0, o) && k <= |Program(o)|
    requires Reaches(stock, before, s0, o, 0)
    ensures Reaches(stock, before, s0, o, k)
  {
    if k > 0 {
      LoneReaches(stock, before, s0, o, k - 1);
      ReachesNext(stock, before, s0, o, k - 1, k);
    }
  }

  /** `r` is `s0` with `j` begun, run and committed, and nothing else. */
  ghost predicate Completed(s0: Shop, r: Shop, j: Job) {
    && r.jobs == map[] && r.store.txns == map[]
    && r.committed == s0.committed + [j] && r.applied == s0.applied
    && Some(r.store.live) == Run(s0.store.live, Planned(j))
    && r.nextOrder == s0.nextOrder + (if j.OrderJob? then 1 else 0)
    && r.nextEvent == s0.nextEvent + if j.OrderJob? then 1 else 0
  }

  lemma LoneCommits(s0: Shop, s: Shop, o: Order)
    requires LoneAt(s0, s, o, |Program(o)|)
    ensures Completed(s0, Next(s, CommitTxn(s0.nextTxn)), OrderJob(o))
  {
    assert Planned(s.jobs[s0.nextTxn]) == Program(o) == Program(o)[..|Program(o)|];
    assert (s.store.txns - {s0.nextTxn}).Keys == {};
  }

  lemma {:induction false} LoneExtends(before: seq<Action>, t: nat, o: Order, k: nat)
    ensures before <= Lone(before, t, o, k)
  {
    if k > 0 {
      LoneExtends(before, t, o, k - 1);
    }
  }

  lemma OrderRuns(stock: Table, before: seq<Action>, s0: Shop, o: Order) returns (actions: seq<Action>)
    requires s0 == Behave(Opened(stock), before) && s0.jobs == map[] && s0.store.txns == map[]
    requires IsNext(s0, o) && GoesThrough(s0, o)
    ensures before <= actions && Completed(s0, Behave(Opened(stock), actions), OrderJob(o))
  {
    var n := |Program(o)|;
    ReachesStart(stock, before, s0, o);
    LoneReaches(stock, before, s0, o, n);
    var lone := Lone(before, s0.nextTxn, o, n);
    LoneCommits(s0, Behave(Opened(stock), lone), o);
    BehaveSnoc(Opened(stock), lone, CommitTxn(s0.nextTxn));
    actions := lone + [CommitTxn(s0.nextTxn)];
    LoneExtends(before, s0.nextTxn, o, n);
  }

  // ----- Cart statements and workers -----

  /** From `s0` on only job `j` has moved, and it has run `done`. */
  ghost predicate Alone(s0: Shop, s: Shop, j: Job, done: seq<Stmt>) {
    var t := s0.nextTxn;
    && s.jobs == map[t := j] && s.store.txns.Keys == {t} && s.store.txns[t].done == done && s.store.log == s0.store.log
    && Some(s.store.live) == Run(s0.store.live, done)
    && s.committed == s0.committed && s.applied == s0.applied
    && s.nextOrder == s0.nextOrder && s.nextEvent == s0.nextEvent
  }

  lemma AloneOpens(s0: Shop, j: Job)
    requires s0.jobs == map[] && s0.store.txns == map[]
    ensures Alone(s0, Start(s0, j), j, [])
  {
  }

  lemma AloneExecs(s0: Shop, s: Shop, j: Job, done: seq<Stmt>, stmt: Stmt, k: Job, r: Shop)
    requires Alone(s0, s, j, done) && Exec(stmt, s.store.live).Some?
    requires TP.CanExec(s.store, s0.nextTxn, stmt)
    requires r == s.(store := TP.ExecIn(s.store, s0.nextTxn, stmt), jobs := s.jobs[s0.nextTxn := k])
    ensures Alone(s0, r, k, done + [stmt])
  {
    TP.ExecShape(s.store, s0.nextTxn, stmt);
    assert (done + [stmt])[..|done + [stmt]| - 1] == done;
  }

  lemma AloneCommits(s0: Shop, s: Shop, j: Job)
    requires Alone(s0, s, j, Planned(j)) && !j.OrderJob?
    ensures Completed(s0, Next(s, CommitTxn(s0.nextTxn)), j)
  {
    assert (s.store.txns - {s0.nextTxn}).Keys == {};
  }

  lemma CartRuns(stock: Table, before: seq<Action>, s0: Shop, j: Job) returns (actions: seq<Action>)
    requires s0 == Behave(Opened(stock), before) && s0.jobs == map[] && s0.store.txns == map[] && j.CartJob?
    ensures before <= actions && Completed(s0, Behave(Opened(stock), actions), j)
  {
    var t, stmt := s0.nextTxn, Planned(j)[0];
    var begin := BeginCart(j.user, j.product, j.line);
    var s1 := Next(s0, begin);
    var s2 := Next(s1, Advance(t, 0));
    AloneOpens(s0, j);
    AloneExecs(s0, s1, j, [], stmt, j, s2);
    assert [] + [stmt] == Planned(j);
    AloneCommits(s0, s2, j);
    BehaveSnoc(Opened(stock), before, begin);
    BehaveSnoc(Opened(stock), before + [begin], Advance(t, 0));
    BehaveSnoc(Opened(stock), before + [begin] + [Advance(t, 0)], CommitTxn(t));
    actions := before + [begin] + [Advance(t, 0)] + [CommitTxn(t)];
  }

  function TouchOf(t: nat, stmt: Stmt): Action
    requires stmt.LockEvent? || stmt.MarkEvent?
  {
    if stmt.LockEvent? then Touch(t, stmt.event, None) else Touch(t, stmt.event, Some(stmt.now))
  }

  lemma AloneTouches(s0: Shop, s: Shop, sent: seq<Stmt>, stmt: Stmt)
    requires Alone(s0, s, WorkerJob(sent), sent) && (stmt.LockEvent? || stmt.MarkEvent?)
    ensures Alone(s0, Next(s, TouchOf(s0.nextTxn, stmt)), WorkerJob(sent + [stmt]), sent + [stmt])
  {
    assert TP.CanExec(s.store, s0.nextTxn, stmt);
    AloneExecs(s0, s, WorkerJob(sent), sent, stmt, WorkerJob(sent + [stmt]), Next(s, TouchOf(s0.nextTxn, stmt)));
  }

  lemma {:induction false} WorkerReaches(stock: Table, before: seq<Action>, s0: Shop, sent: seq<Stmt>)
    returns (actions: seq<Action>)
    requires s0 == Behave(Opened(stock), before) && s0.jobs == map[] && s0.store.txns == map[] && Touching(sent)
    ensures before <= actions && Alone(s0, Behave(Opened(stock), actions), WorkerJob(sent), sent)
  {
    if sent == [] {
      AloneOpens(s0, WorkerJob([]));
      BehaveSnoc(Opened(stock), before, BeginWorker);
      actions := before + [BeginWorker];
    } else {
      var front, last := sent[..|sent| - 1], sent[|sent| - 1];
      assert last in sent && forall stmt | stmt in front :: stmt in sent;
      var reached := WorkerReaches(stock, before, s0, front);
      AloneTouches(s0, Behave(Opened(stock), reached), front, last);
      BehaveSnoc(Opened(stock), reached, TouchOf(s0.nextTxn, last));
      actions := reached + [TouchOf(s0.nextTxn, last)];
      assert front + [last] == sent;
    }
  }

  lemma WorkerRuns(stock: Table, before: seq<Action>, s0: Shop, j: Job) returns (actions: seq<Action>)
    requires s0 == Behave(Opened(stock), before) && s0.jobs == map[] && s0.store.txns == map[]
    requires j.WorkerJob? && Touching(j.sent)
    ensures before <= actions && Completed(s0, Behave(Opened(stock), actions), j)
  {
    var reached := WorkerReaches(stock, before, s0, j.sent);
    AloneCommits(s0, Behave(Opened(stock), reached), j);
    BehaveSnoc(Opened(stock), reached, CommitTxn(s0.nextTxn));
    actions := reached + [CommitTxn(s0.nextTxn)];
  }

  // ----- Whole serial runs -----

  function OrdersIn(jobs: seq<Job>): nat {
    if jobs == [] then 0 else OrdersIn(jobs[..|jobs| - 1]) + if jobs[|jobs| - 1].OrderJob? then 1 else 0
  }

  /** Orders are not empty and carry the ids the primary hands out; workers only lock and mark events. */
  predicate Numbered(jobs: seq<Job>) {
    jobs == [] || (
      var front, last := jobs[..|jobs| - 1], jobs[|jobs| - 1];
      && Numbered(front)
      && (last.OrderJob? ==>
            last.order.lines != [] && last.order.id == OrdersIn(front) && last.order.event == OrdersIn(front))
      && (last.WorkerJob? ==> Touching(last.sent)))
  }

  lemma JobRuns(stock: Table, before: seq<Action>, s0: Shop, j: Job) returns (actions: seq<Action>)
    requires s0 == Behave(Opened(stock), before) && s0.jobs == map[] && s0.store.txns == map[]
    requires Run(s0.store.live, Planned(j)).Some?
    requires j.OrderJob? ==> IsNext(s0, j.order)
    requires j.WorkerJob? ==> Touching(j.sent)
    ensures before <= actions && Completed(s0, Behave(Opened(stock), actions), j)
  {
    match j
    case OrderJob(o) => actions := OrderRuns(stock, before, s0, o);
    case CartJob(_, _, _) => actions := CartRuns(stock, before, s0, j);
    case WorkerJob(_) => actions := WorkerRuns(stock, before, s0, j);
  }

  /** The jobs have run one after the other, and nothing else. */
  ghost predicate Served(stock: Table, jobs: seq<Job>, s: Shop) {
    && s.committed == jobs && s.jobs == map[] && s.store.txns == map[] && s.applied == 0
    && Some(s.store.live) == After(stock, jobs) && s.nextOrder == s.nextEvent == OrdersIn(jobs)
  }

  lemma ServedSnoc(stock: Table, jobs: seq<Job>, s0: Shop, s: Shop)
    requires jobs != [] && Served(stock, jobs[..|jobs| - 1], s0) && Completed(s0, s, jobs[|jobs| - 1])
    ensures Served(stock, jobs, s)
  {
    assert jobs == jobs[..|jobs| - 1] + [jobs[|jobs| - 1]];
  }

  /**
   The converse of serial equivalence: every list of jobs that goes through one after the other is the commit log of
   a run, which ends with no transaction open and the tables the jobs give.
   */
  lemma {:induction false} EverySerialRunHappens(stock: Table, jobs: seq<Job>) returns (actions: seq<Action>)
    requires Numbered(jobs) && After(stock, jobs).Some?
    ensures Served(stock, jobs, Behave(Opened(stock), actions))
  {
    if jobs == [] {
      actions := [];
    } else {
      var before := EverySerialRunHappens(stock, jobs[..|jobs| - 1]);
      var s0 := Behave(Opened(stock), before);
      actions := JobRuns(stock, before, s0, jobs[|jobs| - 1]);
      ServedSnoc(stock, jobs, s0, Behave(Opened(stock), actions));
    }
  }

  // ----- Replication and aborts -----

  function Replicates(n: nat): seq<Action> { seq(n, _ => Replicate) }

  /** `s` with the replica `n` transactions further on, or at the end of the log. */
  function Caught(s: Shop, n: nat): Shop {
    if s.applied + n <= |s.committed| then s.(applied := s.applied + n)
    else if s.applied <= |s.committed| then s.(applied := |s.committed|)
    else s
  }

  lemma CaughtNext(s: Shop, k: nat, next: nat)
    requires next == k + 1
    ensures Next(Caught(s, k), Replicate) == Caught(s, next)
  {
  }

  lemma ReplicatesSnoc(s: Shop, k: nat, next: nat)
    requires next == k + 1
    ensures Behave(s, Replicates(next)) == Next(Behave(s, Replicates(k)), Replicate)
  {
    assert Replicates(next) == Replicates(k) + [Replicate];
    BehaveSnoc(s, Replicates(k), Replicate);
  }

  /** Left to apply, the replica catches up with the log and nothing else moves. */
  lemma {:induction false} ReplicaCatchesUp(s: Shop, n: nat)
    ensures Behave(s, Replicates(n)) == Caught(s, n)
  {
    if n == 0 {
      assert Replicates(0) == [];
    } else {
      ReplicaCatchesUp(s, n - 1);
      ReplicatesSnoc(s, n - 1, n);
      CaughtNext(s, n - 1, n);
    }
  }

  lemma RollbackGivesBack(s: TP.Store, t: nat, c: Table)
    requires TP.IsCommitted(s, c) && t in s.txns
    ensures forall k :: Get(TP.Rollback(s, t).live, k) == if k in s.txns[t].undo then Get(c, k) else Get(s.live, k)
  {
    forall k ensures Get(TP.Rollback(s, t).live, k) == if k in s.txns[t].undo then Get(c, k) else Get(s.live, k) {
      TP.RestoreGet(s.live, s.txns[t].undo, k);
    }
  }

  lemma AbortedShop(s: Shop, t: nat, r: Shop)
    requires t in s.jobs && t in s.store.txns && r == Next(s, AbortTxn(t))
    ensures r.jobs == s.jobs - {t} && r.committed == s.committed && r.applied == s.applied
    ensures r.store == TP.Rollback(s.store, t) && r.store.txns == s.store.txns - {t}
  {
  }

  /**
   An abort gives everything back: the transaction is gone, every row it had locked has its committed value again, and
   no other row, job or commit is touched.
   */
  lemma {:induction false} AbortGivesBack(stock: Table, actions: seq<Action>, t: nat)
    requires t in Behave(Opened(stock), actions).jobs
    ensures var s, r := Behave(Opened(stock), actions), Behave(Opened(stock), actions + [AbortTxn(t)]);
      && r.jobs == s.jobs - {t} && r.committed == s.committed && r.applied == s.applied
      && t in s.store.txns && r.store.txns == s.store.txns - {t} && After(stock, s.committed).Some?
      && (forall k :: Get(r.store.live, k) ==
            if k in s.store.txns[t].undo then Get(After(stock, s.committed).value, k) else Get(s.store.live, k))
  {
    BehaveInv(stock, actions);
    BehaveSnoc(Opened(stock), actions, AbortTxn(t));
    SerialEquivalence(stock, actions);
    var s := Behave(Opened(stock), actions);
    AbortedShop(s, t, Next(s, AbortTxn(t)));
    RollbackGivesBack(s.store, t, After(stock, s.committed).value);
  }
}
