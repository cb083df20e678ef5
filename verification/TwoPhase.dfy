/**
 A transactional store as the order code relies on it: statements update rows in place, every touched row stays
 locked and its before-image stays recorded until commit or rollback. Many transactions interleave statement by
 statement. `Serializable` is the payoff: what has been committed is what the committed transactions give when
 run one after the other in commit order.
 */
module TwoPhase {
  import opened Ordering
  import opened Rows

  /** An in-flight transaction: its executed statements and the before-image of every row it has locked. */
  datatype Txn = Txn(done: seq<Stmt>, undo: map<Key, Option<Row>>)

  datatype Store = Store(live: Table, txns: map<nat, Txn>, log: seq<seq<Stmt>>)

  function Opened(init: Table): Store { Store(init, map[], []) }

  /** No other transaction holds a row lock on `ks`. */
  predicate Unlocked(s: Store, t: nat, ks: set<Key>) {
    forall u | u in s.txns && u != t :: ks !! s.txns[u].undo.Keys
  }

  /** The statement is not blocked and succeeds. */
  predicate CanExec(s: Store, t: nat, stmt: Stmt) {
    t in s.txns && Unlocked(s, t, Keys(stmt)) && Exec(stmt, s.live).Some?
  }

  function Begin(s: Store, t: nat): Store
    requires t !in s.txns
  {
    s.(txns := s.txns[t := Txn([], map[])])
  }

  function ExecIn(s: Store, t: nat, stmt: Stmt): Store
    requires CanExec(s, t, stmt)
  {
    var x := s.txns[t];
    var images := map k | k in Keys(stmt) && k !in x.undo :: Get(s.live, k);
    Store(Exec(stmt, s.live).value, s.txns[t := Txn(x.done + [stmt], x.undo + images)], s.log)
  }

  lemma ExecShape(s: Store, t: nat, stmt: Stmt)
    requires CanExec(s, t, stmt)
    ensures var r := ExecIn(s, t, stmt);
      && t in r.txns && r.txns == s.txns[t := r.txns[t]] && r.log == s.log
      && r.txns[t].done == s.txns[t].done + [stmt]
  {
  }

  function Commit(s: Store, t: nat): Store
    requires t in s.txns
  {
    Store(s.live, s.txns - {t}, s.log + [s.txns[t].done])
  }

  function Restore(live: Table, undo: map<Key, Option<Row>>): Table {
    map k | k in live.Keys + undo.Keys && (k in undo ==> undo[k].Some?) :: if k in undo then undo[k].value else live[k]
  }

  function Rollback(s: Store, t: nat): Store
    requires t in s.txns
  {
    Store(Restore(s.live, s.txns[t].undo), s.txns - {t}, s.log)
  }

  /** The committed transactions run one at a time, in commit order. */
  function Replay(init: Table, log: seq<seq<Stmt>>): Option<Table> {
    if log == [] then Some(init) else
      match Replay(init, log[..|log| - 1])
      case None => None
      case Some(t) => Run(t, log[|log| - 1])
  }

  /** How the rows of one in-flight transaction stand against the committed tables `c`. */
  ghost predicate TxnOk(c: Table, live: Table, x: Txn) {
    && x.undo.Keys == KeysOf(x.done)
    && (forall k | k in x.undo :: x.undo[k] == Get(c, k))
    && Run(c, x.done).Some?
    && Agree(live, Run(c, x.done).value, x.undo.Keys)
  }

  ghost predicate Held(s: Store, k: Key) {
    exists t | t in s.txns :: k in s.txns[t].undo
  }

  ghost predicate Valid(init: Table, s: Store) {
    && Replay(init, s.log).Some?
    && var c := Replay(init, s.log).value;
    && (forall t, u | t in s.txns && u in s.txns && t != u :: s.txns[t].undo.Keys !! s.txns[u].undo.Keys)
    && (forall t | t in s.txns :: TxnOk(c, s.live, s.txns[t]))
    && (forall k | !Held(s, k) :: Get(s.live, k) == Get(c, k))
  }

  lemma {:induction false} BeginValid(init: Table, s: Store, t: nat)
    requires Valid(init, s) && t !in s.txns
    ensures Valid(init, Begin(s, t))
  {
    var r := Begin(s, t);
    var c := Replay(init, s.log).value;
    assert TxnOk(c, r.live, r.txns[t]);
    forall k | !Held(r, k) ensures Get(r.live, k) == Get(c, k) {
      assert forall u | u in s.txns :: r.txns[u] == s.txns[u];
      assert !Held(s, k);
    }
  }

  /** Before the statement runs, the rows it names are what the transaction's own serial run would see. */
  lemma {:induction false} SeesOwnRun(init: Table, s: Store, t: nat, stmt: Stmt)
    requires Valid(init, s) && t in s.txns && Unlocked(s, t, Keys(stmt))
    ensures Agree(s.live, Run(Replay(init, s.log).value, s.txns[t].done).value, Keys(stmt))
    ensures forall k | k in Keys(stmt) && k !in s.txns[t].undo :: Get(s.live, k) == Get(Replay(init, s.log).value, k)
  {
    var c := Replay(init, s.log).value;
    var x := s.txns[t];
    RunLocal(x.done, c, c);
    forall k | k in Keys(stmt) ensures Get(s.live, k) == Get(Run(c, x.done).value, k)
      ensures k !in x.undo ==> Get(s.live, k) == Get(c, k)
    {
      if k !in x.undo {
        assert !Held(s, k);
      }
    }
  }

  /** `y` is the transaction `x` after one more statement, which changed the live tables to `after`. */
  lemma {:induction false} TxnGrows(c: Table, live: Table, x: Txn, stmt: Stmt, after: Table, y: Txn)
    requires TxnOk(c, live, x) && Exec(stmt, live) == Some(after)
    requires Agree(live, Run(c, x.done).value, Keys(stmt))
    requires forall k | k in Keys(stmt) && k !in x.undo :: Get(live, k) == Get(c, k)
    requires y.done == x.done + [stmt]
    requires y.undo == x.undo + map k | k in Keys(stmt) && k !in x.undo :: Get(live, k)
    ensures TxnOk(c, after, y)
  {
    var before := Run(c, x.done).value;
    ExecLocal(stmt, live, before);
    ExecLocal(stmt, before, live);
    assert y.done[..|y.done| - 1] == x.done;
    assert y.undo.Keys == x.undo.Keys + Keys(stmt);
    assert Agree(after, Run(c, y.done).value, y.undo.Keys);
  }

  lemma {:induction false} ExecKeepsOwn(init: Table, s: Store, t: nat, stmt: Stmt)
    requires Valid(init, s) && CanExec(s, t, stmt)
    ensures TxnOk(Replay(init, s.log).value, ExecIn(s, t, stmt).live, ExecIn(s, t, stmt).txns[t])
  {
    var c := Replay(init, s.log).value;
    SeesOwnRun(init, s, t, stmt);
    TxnGrows(c, s.live, s.txns[t], stmt, Exec(stmt, s.live).value, ExecIn(s, t, stmt).txns[t]);
  }

  lemma {:induction false} ExecKeepsOthers(init: Table, s: Store, t: nat, stmt: Stmt, u: nat)
    requires Valid(init, s) && CanExec(s, t, stmt) && u in s.txns && u != t
    ensures TxnOk(Replay(init, s.log).value, ExecIn(s, t, stmt).live, s.txns[u])
    ensures ExecIn(s, t, stmt).txns[t].undo.Keys !! s.txns[u].undo.Keys
  {
    var c := Replay(init, s.log).value;
    ExecLocal(stmt, s.live, s.live);
    assert Agree(ExecIn(s, t, stmt).live, s.live, s.txns[u].undo.Keys);
    assert ExecIn(s, t, stmt).txns[t].undo.Keys == s.txns[t].undo.Keys + Keys(stmt);
  }

  lemma {:induction false} ExecKeepsUnheld(init: Table, s: Store, t: nat, stmt: Stmt, k: Key)
    requires Valid(init, s) && CanExec(s, t, stmt) && !Held(ExecIn(s, t, stmt), k)
    ensures Get(ExecIn(s, t, stmt).live, k) == Get(Replay(init, s.log).value, k)
  {
    var r := ExecIn(s, t, stmt);
    ExecLocal(stmt, s.live, s.live);
    assert r.txns[t].undo.Keys == s.txns[t].undo.Keys + Keys(stmt);
    forall u | u in s.txns ensures k !in s.txns[u].undo {
      assert u != t ==> r.txns[u] == s.txns[u];
    }
    assert !Held(s, k);
  }

  lemma {:induction false} ExecValid(init: Table, s: Store, t: nat, stmt: Stmt)
    requires Valid(init, s) && CanExec(s, t, stmt)
    ensures Valid(init, ExecIn(s, t, stmt))
  {
    var r := ExecIn(s, t, stmt);
    ExecKeepsOwn(init, s, t, stmt);
    forall u | u in s.txns && u != t
      ensures TxnOk(Replay(init, s.log).value, r.live, r.txns[u]) && r.txns[t].undo.Keys !! r.txns[u].undo.Keys
    {
      ExecKeepsOthers(init, s, t, stmt, u);
    }
    forall k | !Held(r, k) ensures Get(r.live, k) == Get(Replay(init, s.log).value, k) {
      ExecKeepsUnheld(init, s, t, stmt, k);
    }
  }

  /** Ending a transaction frees exactly its own rows. */
  lemma {:induction false} HeldAfterEnd(s: Store, r: Store, t: nat, k: Key)
    requires t in s.txns && r.txns == s.txns - {t} && !Held(r, k)
    ensures k in s.txns[t].undo || !Held(s, k)
  {
    forall u | u in s.txns && u != t ensures k !in s.txns[u].undo {
      assert u in r.txns && r.txns[u] == s.txns[u];
    }
  }

  lemma {:induction false} CommitValid(init: Table, s: Store, t: nat)
    requires Valid(init, s) && t in s.txns
    ensures Valid(init, Commit(s, t))
  {
    var c := Replay(init, s.log).value;
    var x, r := s.txns[t], Commit(s, t);
    assert r.log[..|r.log| - 1] == s.log;
    var c' := Run(c, x.done).value;
    assert Replay(init, r.log) == Some(c');
    RunLocal(x.done, c, c);
    forall u | u in r.txns ensures TxnOk(c', r.live, r.txns[u]) {
      assert Agree(c, c', s.txns[u].undo.Keys);
      RunLocal(s.txns[u].done, c, c');
    }
    forall k | !Held(r, k) ensures Get(r.live, k) == Get(c', k) {
      HeldAfterEnd(s, r, t, k);
    }
  }

  lemma RestoreGet(live: Table, undo: map<Key, Option<Row>>, k: Key)
    ensures Get(Restore(live, undo), k) == if k in undo then undo[k] else Get(live, k)
  {
  }

  lemma {:induction false} RollbackValid(init: Table, s: Store, t: nat)
    requires Valid(init, s) && t in s.txns
    ensures Valid(init, Rollback(s, t))
  {
    var c := Replay(init, s.log).value;
    var x, r := s.txns[t], Rollback(s, t);
    forall u | u in r.txns ensures TxnOk(c, r.live, r.txns[u]) {
      assert r.txns[u] == s.txns[u] && TxnOk(c, s.live, s.txns[u]);
      forall k | k in s.txns[u].undo ensures Get(r.live, k) == Get(s.live, k) {
        RestoreGet(s.live, x.undo, k);
      }
    }
    forall k | !Held(r, k) ensures Get(r.live, k) == Get(c, k) {
      RestoreGet(s.live, x.undo, k);
      HeldAfterEnd(s, r, t, k);
    }
  }

  /** Rolling back after one more statement undoes that statement too. */
  lemma {:induction false} RollbackUndoes(s: Store, t: nat, stmt: Stmt)
    requires CanExec(s, t, stmt)
    ensures Rollback(ExecIn(s, t, stmt), t) == Rollback(s, t)
  {
    var r := ExecIn(s, t, stmt);
    ExecLocal(stmt, s.live, s.live);
    forall k ensures Get(Restore(r.live, r.txns[t].undo), k) == Get(Restore(s.live, s.txns[t].undo), k) {
      RestoreGet(r.live, r.txns[t].undo, k);
      RestoreGet(s.live, s.txns[t].undo, k);
    }
    SameTable(Restore(r.live, r.txns[t].undo), Restore(s.live, s.txns[t].undo));
    assert r.txns - {t} == s.txns - {t};
  }

  lemma RollbackOfNothing(s: Store, t: nat)
    requires t !in s.txns
    ensures Rollback(Begin(s, t), t) == s
  {
    assert Restore(s.live, map[]) == s.live;
    assert Begin(s, t).txns - {t} == s.txns;
  }

  /** The version of a row a plain read sees: the before-image while someone has it locked. */
  function Seen(s: Store, k: Key): Option<Row> {
    var holders := set t: nat | t in s.txns && k in s.txns[t].undo;
    if holders == {} then Get(s.live, k) else
      NatsTotal(holders);
      s.txns[First(holders, NatLess)].undo[k]
  }

  /** The committed tables `c` of a store: the live ones with the before-images of everything in flight put back. */
  ghost predicate IsCommitted(s: Store, c: Table) {
    && (forall t, k | t in s.txns && k in s.txns[t].undo :: Get(c, k) == s.txns[t].undo[k])
    && (forall k | !Held(s, k) :: Get(c, k) == Get(s.live, k))
  }

  /** Serial equivalence: undoing what is in flight leaves exactly the serial replay of the commit log. */
  lemma {:induction false} Serializable(init: Table, s: Store)
    requires Valid(init, s)
    ensures Replay(init, s.log).Some?
    ensures IsCommitted(s, Replay(init, s.log).value)
    ensures s.txns == map[] ==> s.live == Replay(init, s.log).value
  {
    var c := Replay(init, s.log).value;
    if s.txns == map[] {
      forall k ensures Get(s.live, k) == Get(c, k) {
        assert !Held(s, k);
      }
      SameTable(s.live, c);
    }
  }

  /** Plain reads see committed rows only. */
  lemma {:induction false} SeenIsCommitted(init: Table, s: Store, k: Key)
    requires Valid(init, s)
    ensures Seen(s, k) == Get(Replay(init, s.log).value, k)
  {
    var holders := set t: nat | t in s.txns && k in s.txns[t].undo;
    if holders == {} {
      assert forall t | t in s.txns && k in s.txns[t].undo :: t in holders;
      assert !Held(s, k);
    } else {
      NatsTotal(holders);
      assert TxnOk(Replay(init, s.log).value, s.live, s.txns[First(holders, NatLess)]);
    }
  }
}
