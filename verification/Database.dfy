/**
 The primary as the repositories use it: one shared store, transactions that are begun, fed statements, and
 committed or rolled back. Any call may fail for reasons of the database's own (connection, lock wait, deadlock):
 `fails` says which of the calls, counted from the first, do.
 */
module Database {
  import opened Rows
  import TP = TwoPhase

  /** What came back from one statement: it ran, it was refused by the data, or the database failed. */
  datatype Outcome = Done | Refused | Faulted

  ghost predicate CartsInRange(t: Table) {
    forall user: nat, p: nat | p in CartOf(t, user) :: 1 <= CartOf(t, user)[p].quantity <= 99
  }

  ghost predicate Sound(t: Table, nextOrder: nat, nextEvent: nat) {
    && (forall o: nat | KOrder(o) in t :: o < nextOrder)
    && (forall o: nat, p: nat | KItem(o, p) in t :: o < nextOrder)
    && (forall e: nat | KEvent(e) in t :: e < nextEvent)
    && (forall d: nat | KDay(d) in t :: t[KDay(d)].RDay?)
    && CartsInRange(t)
  }

  class Primary {
    var store: TP.Store
    var nextTxn: nat
    var nextOrder: nat
    var nextEvent: nat
    /** Calls made so far. */
    var calls: nat
    const fails: set<nat>
    /** The products table: id to price. */
    const prices: map<nat, int>

    constructor (prices: map<nat, int>, stock: map<nat, nat>, fails: set<nat>)
      ensures Valid() && this.prices == prices && this.fails == fails && calls == 0
      ensures Healthy() <==> fails == {}
      ensures store == TP.Opened(map k | k in (set p | p in stock :: KStock(p)) :: RStock(stock[k.stockOf]))
    {
      this.prices, this.fails, calls := prices, fails, 0;
      store := TP.Opened(map k | k in (set p | p in stock :: KStock(p)) :: RStock(stock[k.stockOf]));
      nextTxn, nextOrder, nextEvent := 0, 0, 0;
    }

    /** Ids still to be assigned are unused, summary rows are well-formed, cart quantities stay within 1..99. */
    ghost predicate Valid()
      reads this
    {
      && (forall t | t in store.txns :: t < nextTxn)
      && Sound(store.live, nextOrder, nextEvent)
    }

    /** From here on no call fails of the database's own accord. */
    ghost predicate Healthy()
      reads this
    {
      forall k: nat | calls <= k :: k !in fails
    }

    /** Counts one call and says whether it fails. */
    method Call() returns (fault: bool)
      modifies this`calls
      ensures fault == (old(calls) in fails) && calls == old(calls) + 1
    {
      fault := calls in fails;
      calls := calls + 1;
    }

    method Begin() returns (t: nat, ok: bool)
      requires Valid()
      modifies this`store, this`nextTxn, this`calls
      ensures calls == old(calls) + 1 && ok == (old(calls) !in fails)
      ensures !ok ==> store == old(store)
      ensures ok ==> t !in old(store).txns && store == TP.Begin(old(store), t)
      ensures Valid()
    {
      var fault := Call();
      t, ok := nextTxn, !fault;
      if ok {
        store, nextTxn := TP.Begin(store, t), nextTxn + 1;
      }
    }

    method Exec(t: nat, stmt: Stmt) returns (r: Outcome)
      requires t in store.txns
      modifies this`store, this`calls
      ensures calls == old(calls) + 1
      ensures r.Faulted? <==> old(calls) in fails || !TP.Unlocked(old(store), t, Keys(stmt))
      ensures r.Done? ==> TP.CanExec(old(store), t, stmt) && store == TP.ExecIn(old(store), t, stmt)
      ensures !r.Done? ==> store == old(store)
      ensures r.Refused? ==> TP.Unlocked(store, t, Keys(stmt)) && Rows.Exec(stmt, store.live).None?
    {
      var fault := Call();
      if fault || !TP.Unlocked(store, t, Keys(stmt)) {
        r := Faulted;
      } else if Rows.Exec(stmt, store.live).None? {
        r := Refused;
      } else {
        store := TP.ExecIn(store, t, stmt);
        r := Done;
      }
    }

    /** A failed commit leaves the transaction rolled back by the server. */
    method Commit(t: nat) returns (ok: bool)
      requires t in store.txns
      modifies this`store, this`calls
      ensures calls == old(calls) + 1 && ok == (old(calls) !in fails)
      ensures ok ==> store == TP.Commit(old(store), t)
      ensures !ok ==> store == TP.Rollback(old(store), t)
    {
      var fault := Call();
      ok := !fault;
      store := if ok then TP.Commit(store, t) else TP.Rollback(store, t);
    }

    /** Rolling back a transaction that is already over does nothing. */
    method Rollback(t: nat)
      modifies this`store
      ensures store == if t in old(store).txns then TP.Rollback(old(store), t) else old(store)
    {
      if t in store.txns {
        store := TP.Rollback(store, t);
      }
    }
  }

  /** Another transaction holds a row the statement needs. */
  ghost predicate Blocked(s: TP.Store, stmt: Stmt) {
    exists u | u in s.txns :: !(Keys(stmt) !! s.txns[u].undo.Keys)
  }

  lemma UnlockedUnlessBlocked(s0: TP.Store, s: TP.Store, t: nat, stmt: Stmt)
    requires s.txns - {t} == s0.txns
    ensures Blocked(s0, stmt) <==> !TP.Unlocked(s, t, Keys(stmt))
  {
    assert forall u | u in s0.txns :: u in s.txns && s.txns[u] == s0.txns[u];
    assert forall u | u in s.txns && u != t :: u in s0.txns && s.txns[u] == s0.txns[u];
  }
}
