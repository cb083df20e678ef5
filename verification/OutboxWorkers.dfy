/**
 Any number of workers drain the outbox at once. A tick is one transaction: claim the first unlocked pending events,
 call the handler for each, mark those it accepted, commit or roll back. The history records what happened.
 */
module OutboxWorkers {
  import opened Ordering

  datatype Fact =
    | Claimed(tick: nat, event: nat)
    | Accepted(tick: nat, event: nat)
    | Declined(tick: nat, event: nat)
    | Marked(tick: nat, event: nat)
    | RolledBack(tick: nat, event: nat)

  /** A live tick. `broken`: marking failed after the handler accepted, so only rollback is left. */
  datatype Tick = Tick(claimed: seq<nat>, next: nat, accepted: seq<nat>, broken: bool)

  datatype Outbox = Outbox(
    inserting: set<nat>,
    visible: set<nat>,
    processed: set<nat>,
    ticks: map<nat, Tick>,
    nextTick: nat,
    history: seq<Fact>)

  datatype Action =
    | BeginInsert(event: nat)
    | CommitInsert(event: nat)
    | AbortInsert(event: nat)
    | Claim(limit: int)
    | Handle(tick: nat, accepts: bool, marks: bool)
    | Commit(tick: nat)
    | Rollback(tick: nat)

  function Empty(): Outbox { Outbox({}, {}, {}, map[], 0, []) }

  const DEFAULT_BATCH := 50

  function Limit(n: int): nat { if n <= 0 then DEFAULT_BATCH else n }

  function Locked(s: Outbox): set<nat> {
    set t, e | t in s.ticks && e in s.ticks[t].claimed :: e
  }

  /** Visible, not yet processed, not locked. */
  function Available(s: Outbox): set<nat> { s.visible - s.processed - Locked(s) }

  function Take(ids: seq<nat>, n: nat): seq<nat> { if |ids| <= n then ids else ids[..n] }

  /** The first `limit` rows, by id, that are visible, not yet processed and not locked by anyone. */
  function Pending(available: set<nat>, limit: int): seq<nat> {
    NatsTotal(available);
    Take(SortBy(available, NatLess), Limit(limit))
  }

  datatype Kind = Claims | Accepts | Marks | Rollbacks

  function Record(kind: Kind, t: nat, e: nat): Fact {
    match kind
    case Claims => Claimed(t, e)
    case Accepts => Accepted(t, e)
    case Marks => Marked(t, e)
    case Rollbacks => RolledBack(t, e)
  }

  function FactsOf(kind: Kind, t: nat, ids: seq<nat>): seq<Fact> {
    seq(|ids|, i requires 0 <= i < |ids| => Record(kind, t, ids[i]))
  }

  function Next(s: Outbox, a: Action): Outbox {
    match a
    case BeginInsert(e) => if e in s.visible then s else s.(inserting := s.inserting + {e})
    case CommitInsert(e) =>
      if e in s.inserting then s.(inserting := s.inserting - {e}, visible := s.visible + {e}) else s
    case AbortInsert(e) => s.(inserting := s.inserting - {e})
    case Claim(limit) =>
      var ids := Pending(Available(s), limit);
      s.(ticks := s.ticks[s.nextTick := Tick(ids, 0, [], false)], nextTick := s.nextTick + 1,
         history := s.history + FactsOf(Claims, s.nextTick, ids))
    case Handle(t, accepts, marks) =>
      if t !in s.ticks || s.ticks[t].broken || s.ticks[t].next >= |s.ticks[t].claimed| then s else
        var x := s.ticks[t];
        var e := x.claimed[x.next];
        if !accepts then
          s.(ticks := s.ticks[t := x.(next := x.next + 1)], history := s.history + [Declined(t, e)])
        else
          s.(ticks := s.ticks[t := Tick(x.claimed, x.next + 1, x.accepted + [e], !marks)],
             history := s.history + [Accepted(t, e)])
    case Commit(t) =>
      if t !in s.ticks || s.ticks[t].broken || s.ticks[t].next < |s.ticks[t].claimed| then s else
        s.(ticks := s.ticks - {t}, processed := s.processed + (set e | e in s.ticks[t].accepted),
           history := s.history + FactsOf(Marks, t, s.ticks[t].accepted))
    case Rollback(t) =>
      if t !in s.ticks then s else
        s.(ticks := s.ticks - {t}, history := s.history + FactsOf(Rollbacks, t, s.ticks[t].claimed))
  }

  function Behave(s: Outbox, actions: seq<Action>): Outbox {
    if actions == [] then s else Next(Behave(s, actions[..|actions| - 1]), actions[|actions| - 1])
  }

  // ----- Counting facts -----

  predicate Is(f: Fact, kind: Kind, e: nat) {
    f.event == e
    && match kind
       case Claims => f.Claimed?
       case Accepts => f.Accepted?
       case Marks => f.Marked?
       case Rollbacks => f.RolledBack?
  }

  /** How often something happened to event `e`. */
  function Count(h: seq<Fact>, kind: Kind, e: nat): nat {
    if h == [] then 0 else (if Is(h[0], kind, e) then 1 else 0) + Count(h[1..], kind, e)
  }

  lemma {:induction false} CountConcat(a: seq<Fact>, b: seq<Fact>, kind: Kind, e: nat)
    ensures Count(a + b, kind, e) == Count(a, kind, e) + Count(b, kind, e)
  {
    if a == [] {
      assert a + b == b;
    } else {
      assert (a + b)[1..] == a[1..] + b;
      CountConcat(a[1..], b, kind, e);
    }
  }

  lemma {:induction false} CountNone(h: seq<Fact>, kind: Kind, e: nat)
    requires forall i | 0 <= i < |h| :: !Is(h[i], kind, e)
    ensures Count(h, kind, e) == 0
  {
    if h != [] {
      CountNone(h[1..], kind, e);
    }
  }

  lemma {:induction false} CountOnce(h: seq<Fact>, kind: Kind, e: nat, at: nat)
    requires at < |h| && Is(h[at], kind, e)
    requires forall i | 0 <= i < |h| && i != at :: !Is(h[i], kind, e)
    ensures Count(h, kind, e) == 1
  {
    if at == 0 {
      CountNone(h[1..], kind, e);
    } else {
      CountOnce(h[1..], kind, e, at - 1);
    }
  }

  predicate Distinct(ids: seq<nat>) {
    forall i, j | 0 <= i < j < |ids| :: ids[i] != ids[j]
  }

  /** One fact of one kind per id: the count goes up by one for those ids and for nothing else. */
  lemma CountFacts(h: seq<Fact>, of: Kind, t: nat, ids: seq<nat>, kind: Kind, e: nat)
    requires Distinct(ids)
    ensures Count(h + FactsOf(of, t, ids), kind, e) == Count(h, kind, e) + if kind == of && e in ids then 1 else 0
  {
    var f := FactsOf(of, t, ids);
    CountConcat(h, f, kind, e);
    if kind == of && e in ids {
      var i :| 0 <= i < |ids| && ids[i] == e;
      CountOnce(f, kind, e, i);
    } else {
      CountNone(f, kind, e);
    }
  }

  lemma CountOne(h: seq<Fact>, f: Fact, kind: Kind, e: nat)
    ensures Count(h + [f], kind, e) == Count(h, kind, e) + if Is(f, kind, e) then 1 else 0
  {
    CountConcat(h, [f], kind, e);
  }

  // ----- The invariant -----

  ghost predicate Apart(a: seq<nat>, b: seq<nat>) {
    forall e | e in a :: e !in b
  }

  ghost predicate HoldsPending(s: Outbox, ids: seq<nat>) {
    forall e | e in ids :: e in s.visible && e !in s.processed
  }

  /** No two live ticks hold the same event, and none holds a processed one. */
  ghost predicate Exclusive(s: Outbox) {
    && (forall t, u | t in s.ticks && u in s.ticks && t != u :: Apart(s.ticks[t].claimed, s.ticks[u].claimed))
    && (forall t | t in s.ticks :: t < s.nextTick && HoldsPending(s, s.ticks[t].claimed))
  }

  ghost predicate TickOk(h: seq<Fact>, t: nat, x: Tick) {
    && Distinct(x.claimed) && Distinct(x.accepted) && x.next <= |x.claimed|
    && (forall e | e in x.accepted :: e in x.claimed[..x.next] && Accepted(t, e) in h)
  }

  ghost predicate LiveAccepted(s: Outbox, e: nat) {
    exists t | t in s.ticks :: e in s.ticks[t].accepted
  }

  ghost predicate Tallied(s: Outbox, e: nat) {
    && Count(s.history, Marks, e) == (if e in s.processed then 1 else 0)
    && Count(s.history, Accepts, e) <= Count(s.history, Rollbacks, e)
        + (if e in s.processed || LiveAccepted(s, e) then 1 else 0)
  }

  /** A committed mark has an accepting handler call in its own tick, and no claim after it. */
  ghost predicate MarksEarned(s: Outbox) {
    && (forall t, e | Marked(t, e) in s.history :: Accepted(t, e) in s.history && e in s.processed)
    && (forall i, j | 0 <= i < j < |s.history| && s.history[i].Marked? && s.history[j].Claimed? ::
          s.history[i].event != s.history[j].event)
  }

  ghost predicate Inv(s: Outbox) {
    && Exclusive(s)
    && (forall t | t in s.ticks :: TickOk(s.history, t, s.ticks[t]))
    && (forall e :: Tallied(s, e))
    && MarksEarned(s)
  }

  lemma PendingOk(available: set<nat>, limit: int)
    ensures Distinct(Pending(available, limit))
    ensures forall e | e in Pending(available, limit) :: e in available
  {
    NatsTotal(available);
    var ids := SortBy(available, NatLess);
    assert forall i, j | 0 <= i < j < |ids| :: NatLess(ids[i], ids[j]);
  }

  /** A tick claims a full batch, 50 by default, or all there is. */
  lemma PendingSize(available: set<nat>, limit: int)
    ensures var batch := if limit <= 0 then 50 else limit;
      |Pending(available, limit)| == if |available| < batch then |available| else batch
  {
    NatsTotal(available);
  }

  lemma TickOkLater(h: seq<Fact>, more: seq<Fact>, t: nat, x: Tick)
    requires TickOk(h, t, x)
    ensures TickOk(h + more, t, x)
  {
  }

  /** Facts of one kind, other than claims and marks, leave the record of marks in order. */
  lemma {:induction false} MarksStayEarned(h: seq<Fact>, r: seq<Fact>, more: seq<Fact>)
    requires r == h + more && forall i | 0 <= i < |more| :: !more[i].Claimed?
    requires forall i, j | 0 <= i < j < |h| && h[i].Marked? && h[j].Claimed? :: h[i].event != h[j].event
    ensures forall i, j | 0 <= i < j < |r| && r[i].Marked? && r[j].Claimed? :: r[i].event != r[j].event
  {
    forall i, j | 0 <= i < j < |r| && r[i].Marked? && r[j].Claimed? ensures r[i].event != r[j].event {
      assert j < |h|;
    }
  }

  lemma {:induction false} ClaimTallies(s: Outbox, limit: int, e: nat)
    requires Tallied(s, e) && forall t | t in s.ticks :: t < s.nextTick
    ensures Tallied(Next(s, Claim(limit)), e)
  {
    var r := Next(s, Claim(limit));
    var ids := Pending(Available(s), limit);
    PendingOk(Available(s), limit);
    assert r.history == s.history + FactsOf(Claims, s.nextTick, ids);
    CountFacts(s.history, Claims, s.nextTick, ids, Marks, e);
    CountFacts(s.history, Claims, s.nextTick, ids, Accepts, e);
    CountFacts(s.history, Claims, s.nextTick, ids, Rollbacks, e);
    if LiveAccepted(s, e) {
      var u :| u in s.ticks && e in s.ticks[u].accepted;
      assert u in r.ticks && e in r.ticks[u].accepted;
      assert LiveAccepted(r, e);
    }
  }

  lemma {:induction false} NewClaims(h: seq<Fact>, more: seq<Fact>, processed: set<nat>)
    requires forall i, j | 0 <= i < j < |h| && h[i].Marked? && h[j].Claimed? :: h[i].event != h[j].event
    requires forall i | 0 <= i < |h| && h[i].Marked? :: h[i].event in processed
    requires forall i | 0 <= i < |more| :: more[i].Claimed? && more[i].event !in processed
    ensures var r := h + more;
      forall i, j | 0 <= i < j < |r| && r[i].Marked? && r[j].Claimed? :: r[i].event != r[j].event
  {
  }

  /** What is claimed was neither processed nor held, so no earlier mark is contradicted. */
  lemma {:induction false} ClaimMarks(s: Outbox, limit: int)
    requires Inv(s)
    ensures MarksEarned(Next(s, Claim(limit)))
  {
    var r := Next(s, Claim(limit));
    var ids := Pending(Available(s), limit);
    PendingOk(Available(s), limit);
    var facts := FactsOf(Claims, s.nextTick, ids);
    assert r.history == s.history + facts;
    forall i | 0 <= i < |s.history| && s.history[i].Marked? ensures s.history[i].event in s.processed {
      assert s.history[i] == Marked(s.history[i].tick, s.history[i].event);
      assert s.history[i] in s.history;
    }
    forall i | 0 <= i < |facts| ensures facts[i].Claimed? && facts[i].event !in s.processed {
      assert ids[i] in ids;
    }
    NewClaims(s.history, facts, s.processed);
  }

  lemma ClaimApart(s: Outbox, limit: int, u: nat)
    requires u in s.ticks
    ensures Apart(Pending(Available(s), limit), s.ticks[u].claimed)
        && Apart(s.ticks[u].claimed, Pending(Available(s), limit))
  {
    PendingOk(Available(s), limit);
    assert forall e | e in s.ticks[u].claimed :: e in Locked(s);
  }

  lemma HoldsPendingKept(s: Outbox, r: Outbox, ids: seq<nat>)
    requires HoldsPending(s, ids) && r.visible == s.visible && r.processed == s.processed
    ensures HoldsPending(r, ids)
  {
  }

  lemma {:induction false} AddTick(s: Outbox, r: Outbox, x: Tick)
    requires Exclusive(s) && HoldsPending(s, x.claimed)
    requires forall u | u in s.ticks :: Apart(x.claimed, s.ticks[u].claimed) && Apart(s.ticks[u].claimed, x.claimed)
    requires r.ticks == s.ticks[s.nextTick := x] && r.nextTick == s.nextTick + 1
    requires r.visible == s.visible && r.processed == s.processed
    ensures Exclusive(r)
  {
    forall t | t in r.ticks ensures t < r.nextTick && HoldsPending(r, r.ticks[t].claimed) {
      HoldsPendingKept(s, r, r.ticks[t].claimed);
    }
  }

  lemma {:induction false} ClaimExclusive(s: Outbox, limit: int)
    requires Exclusive(s)
    ensures Exclusive(Next(s, Claim(limit)))
  {
    var ids := Pending(Available(s), limit);
    PendingOk(Available(s), limit);
    assert HoldsPending(s, ids);
    forall u | u in s.ticks ensures Apart(ids, s.ticks[u].claimed) && Apart(s.ticks[u].claimed, ids) {
      ClaimApart(s, limit, u);
    }
    AddTick(s, Next(s, Claim(limit)), Tick(ids, 0, [], false));
  }

  lemma {:induction false} ClaimInv(s: Outbox, limit: int)
    requires Inv(s)
    ensures Inv(Next(s, Claim(limit)))
  {
    var r := Next(s, Claim(limit));
    PendingOk(Available(s), limit);
    ClaimExclusive(s, limit);
    ClaimMarks(s, limit);
    forall u | u in r.ticks ensures TickOk(r.history, u, r.ticks[u]) {
      if u in s.ticks && u != s.nextTick {
        TickOkLater(s.history, r.history[|s.history|..], u, s.ticks[u]);
      }
    }
    forall e ensures Tallied(r, e) {
      ClaimTallies(s, limit, e);
    }
  }

  /** The event being handled was not accepted before, in this tick or any other live one. */
  lemma {:induction false} NotYetAccepted(s: Outbox, t: nat)
    requires Inv(s) && t in s.ticks && s.ticks[t].next < |s.ticks[t].claimed|
    ensures var e := s.ticks[t].claimed[s.ticks[t].next]; !LiveAccepted(s, e) && e !in s.processed
  {
    var x := s.ticks[t];
    var e := x.claimed[x.next];
    assert e in x.claimed && TickOk(s.history, t, x);
    forall u | u in s.ticks ensures e !in s.ticks[u].accepted {
      if u != t {
        assert TickOk(s.history, u, s.ticks[u]);
        assert e !in s.ticks[u].claimed;
      }
    }
  }

  lemma {:induction false} HandleTallies(s: Outbox, t: nat, accepts: bool, marks: bool, e: nat)
    requires Inv(s) && t in s.ticks && !s.ticks[t].broken && s.ticks[t].next < |s.ticks[t].claimed|
    ensures Tallied(Next(s, Handle(t, accepts, marks)), e)
  {
    var r := Next(s, Handle(t, accepts, marks));
    var x := s.ticks[t];
    var now := x.claimed[x.next];
    var fact := if accepts then Accepted(t, now) else Declined(t, now);
    assert r.history == s.history + [fact];
    CountOne(s.history, fact, Marks, e);
    CountOne(s.history, fact, Accepts, e);
    CountOne(s.history, fact, Rollbacks, e);
    NotYetAccepted(s, t);
    assert Tallied(s, e);
    if LiveAccepted(s, e) {
      var u :| u in s.ticks && e in s.ticks[u].accepted;
      assert u in r.ticks && e in r.ticks[u].accepted;
    }
    if accepts && e == now {
      assert e in r.ticks[t].accepted;
    }
  }

  lemma {:induction false} HandleTick(s: Outbox, t: nat, accepts: bool, marks: bool)
    requires Inv(s) && t in s.ticks && !s.ticks[t].broken && s.ticks[t].next < |s.ticks[t].claimed|
    ensures var r := Next(s, Handle(t, accepts, marks)); TickOk(r.history, t, r.ticks[t])
  {
    var r := Next(s, Handle(t, accepts, marks));
    var x := s.ticks[t];
    var now := x.claimed[x.next];
    NotYetAccepted(s, t);
    assert TickOk(s.history, t, x);
    assert now !in x.accepted;
    assert x.claimed[..x.next + 1] == x.claimed[..x.next] + [now];
  }

  lemma {:induction false} HandleInv(s: Outbox, t: nat, accepts: bool, marks: bool)
    requires Inv(s) && t in s.ticks && !s.ticks[t].broken && s.ticks[t].next < |s.ticks[t].claimed|
    ensures Inv(Next(s, Handle(t, accepts, marks)))
  {
    var r := Next(s, Handle(t, accepts, marks));
    HandleTick(s, t, accepts, marks);
    forall u | u in r.ticks && u != t ensures TickOk(r.history, u, r.ticks[u]) {
      TickOkLater(s.history, r.history[|s.history|..], u, s.ticks[u]);
    }
    forall e ensures Tallied(r, e) {
      HandleTallies(s, t, accepts, marks, e);
    }
    MarksStayEarned(s.history, r.history, r.history[|s.history|..]);
    assert r.ticks[t].claimed == s.ticks[t].claimed;
    assert forall u | u in s.ticks && u != t :: r.ticks[u] == s.ticks[u];
  }

  lemma {:induction false} CommitTallies(s: Outbox, t: nat, e: nat)
    requires Inv(s) && t in s.ticks && !s.ticks[t].broken && s.ticks[t].next == |s.ticks[t].claimed|
    ensures Tallied(Next(s, Commit(t)), e)
  {
    var r := Next(s, Commit(t));
    var ids := s.ticks[t].accepted;
    assert TickOk(s.history, t, s.ticks[t]);
    assert r.history == s.history + FactsOf(Marks, t, ids);
    CountFacts(s.history, Marks, t, ids, Marks, e);
    CountFacts(s.history, Marks, t, ids, Accepts, e);
    CountFacts(s.history, Marks, t, ids, Rollbacks, e);
    assert Tallied(s, e);
    if LiveAccepted(s, e) {
      var u :| u in s.ticks && e in s.ticks[u].accepted;
      assert u != t ==> u in r.ticks && r.ticks[u] == s.ticks[u];
    }
  }

  lemma {:induction false} CommitMarks(s: Outbox, t: nat)
    requires Inv(s) && t in s.ticks && !s.ticks[t].broken && s.ticks[t].next == |s.ticks[t].claimed|
    ensures MarksEarned(Next(s, Commit(t)))
  {
    var r := Next(s, Commit(t));
    var ids := s.ticks[t].accepted;
    var facts := FactsOf(Marks, t, ids);
    assert TickOk(s.history, t, s.ticks[t]);
    assert r.history == s.history + facts;
    forall u, e | Marked(u, e) in r.history ensures Accepted(u, e) in r.history && e in r.processed {
      if Marked(u, e) !in s.history {
        var i :| 0 <= i < |facts| && facts[i] == Marked(u, e);
        assert ids[i] in ids;
      }
    }
    MarksStayEarned(s.history, r.history, facts);
  }

  lemma {:induction false} CommitInv(s: Outbox, t: nat)
    requires Inv(s) && t in s.ticks && !s.ticks[t].broken && s.ticks[t].next == |s.ticks[t].claimed|
    ensures Inv(Next(s, Commit(t)))
  {
    var r := Next(s, Commit(t));
    CommitMarks(s, t);
    forall u | u in r.ticks ensures r.ticks[u] == s.ticks[u] && TickOk(r.history, u, r.ticks[u]) {
      TickOkLater(s.history, r.history[|s.history|..], u, s.ticks[u]);
    }
    forall e ensures Tallied(r, e) {
      CommitTallies(s, t, e);
    }
    assert TickOk(s.history, t, s.ticks[t]);
    assert forall e | e in s.ticks[t].accepted :: e in s.ticks[t].claimed;
    assert Exclusive(r);
  }

  lemma {:induction false} RollbackInv(s: Outbox, t: nat)
    requires Inv(s) && t in s.ticks
    ensures Inv(Next(s, Rollback(t)))
  {
    var r := Next(s, Rollback(t));
    var ids := s.ticks[t].claimed;
    var facts := FactsOf(Rollbacks, t, ids);
    assert r.history == s.history + facts;
    forall e ensures Tallied(r, e) {
      CountFacts(s.history, Rollbacks, t, ids, Marks, e);
      CountFacts(s.history, Rollbacks, t, ids, Accepts, e);
      CountFacts(s.history, Rollbacks, t, ids, Rollbacks, e);
      assert Tallied(s, e);
      if LiveAccepted(s, e) {
        var u :| u in s.ticks && e in s.ticks[u].accepted;
        assert u != t ==> u in r.ticks && r.ticks[u] == s.ticks[u];
      }
    }
    forall i, j | 0 <= i < j < |r.history| && r.history[i].Marked? && r.history[j].Claimed?
      ensures r.history[i].event != r.history[j].event
    {
      assert j < |s.history|;
    }
  }

  lemma {:induction false} InsertInv(s: Outbox, r: Outbox)
    requires Inv(s) && s.visible <= r.visible
    requires r == s.(inserting := r.inserting, visible := r.visible)
    ensures Inv(r)
  {
    forall e ensures Tallied(r, e) {
      assert Tallied(s, e);
      if LiveAccepted(s, e) {
        var u :| u in s.ticks && e in s.ticks[u].accepted;
        assert e in r.ticks[u].accepted;
      }
    }
  }

  lemma {:induction false} NextInv(s: Outbox, a: Action)
    requires Inv(s)
    ensures Inv(Next(s, a))
  {
    match a
    case Claim(limit) => ClaimInv(s, limit);
    case Handle(t, accepts, marks) =>
      if t in s.ticks && !s.ticks[t].broken && s.ticks[t].next < |s.ticks[t].claimed| {
        HandleInv(s, t, accepts, marks);
      }
    case Commit(t) =>
      if t in s.ticks && !s.ticks[t].broken && s.ticks[t].next >= |s.ticks[t].claimed| {
        assert TickOk(s.history, t, s.ticks[t]);
        CommitInv(s, t);
      }
    case Rollback(t) =>
      if t in s.ticks {
        RollbackInv(s, t);
      }
    case _ => InsertInv(s, Next(s, a));
  }

  lemma {:induction false} BehaveInv(actions: seq<Action>)
    ensures Inv(Behave(Empty(), actions))
  {
    if actions == [] {
      assert forall e :: Tallied(Empty(), e);
    } else {
      BehaveInv(actions[..|actions| - 1]);
      NextInv(Behave(Empty(), actions[..|actions| - 1]), actions[|actions| - 1]);
    }
  }

  lemma {:induction false} SomeFact(h: seq<Fact>, kind: Kind, e: nat)
    requires Count(h, kind, e) > 0
    ensures exists f :: f in h && Is(f, kind, e)
  {
    if Is(h[0], kind, e) {
      assert h[0] in h;
    } else {
      SomeFact(h[1..], kind, e);
      var f :| f in h[1..] && Is(f, kind, e);
      assert f in h;
    }
  }

  lemma {:induction false} NoFact(h: seq<Fact>, kind: Kind, e: nat, f: Fact)
    requires Count(h, kind, e) == 0 && Is(f, kind, e)
    ensures f !in h
  {
    if h != [] {
      NoFact(h[1..], kind, e, f);
    }
  }

  /**
   Safety of every run of any number of workers: live ticks never share an event; an event is marked at most once,
   only by a tick whose own handler call accepted it, and is never claimed again afterwards; a marked event was
   handled at least once, and it is handled successfully at most once more than ticks holding it rolled back.
   */
  lemma {:induction false} OutboxSafety(actions: seq<Action>, event: nat)
    ensures var s := Behave(Empty(), actions);
      && Exclusive(s)
      && Count(s.history, Marks, event) <= 1
      && (forall t | Marked(t, event) in s.history :: Accepted(t, event) in s.history)
      && (forall i, j | 0 <= i < j < |s.history| && s.history[i].Marked? && s.history[j].Claimed? ::
            s.history[i].event != s.history[j].event)
      && Count(s.history, Accepts, event) <= 1 + Count(s.history, Rollbacks, event)
      && (event in s.processed <==> Count(s.history, Marks, event) == 1)
      && (event in s.processed ==> Count(s.history, Accepts, event) >= 1)
  {
    BehaveInv(actions);
    var s := Behave(Empty(), actions);
    assert Tallied(s, event);
    if event in s.processed {
      SomeFact(s.history, Marks, event);
      var f :| f in s.history && Is(f, Marks, event);
      assert Marked(f.tick, event) in s.history;
      if Count(s.history, Accepts, event) == 0 {
        NoFact(s.history, Accepts, event, Accepted(f.tick, event));
      }
    }
  }

  // ----- Inserts -----

  /** The last action about the insert of `e` began it. */
  predicate InsertOpen(actions: seq<Action>, e: nat) {
    actions != [] && (
      var front, last := actions[..|actions| - 1], actions[|actions| - 1];
      if last == BeginInsert(e) then true
      else if last == CommitInsert(e) || last == AbortInsert(e) then false
      else InsertOpen(front, e))
  }

  /** Action `i` commits the insert of `e` while it is open. */
  predicate CommitsInsert(actions: seq<Action>, i: nat, e: nat) {
    i < |actions| && actions[i] == CommitInsert(e) && InsertOpen(actions[..i], e)
  }

  ghost predicate InsertCommitted(actions: seq<Action>, e: nat) {
    exists i: nat :: CommitsInsert(actions, i, e)
  }

  lemma {:induction false} InsertCommittedSnoc(front: seq<Action>, last: Action, e: nat)
    ensures InsertCommitted(front + [last], e) <==>
      InsertCommitted(front, e) || (last == CommitInsert(e) && InsertOpen(front, e))
  {
    var actions, k := front + [last], |front|;
    assert actions[..k] == front;
    assert CommitsInsert(actions, k, e) <==> last == CommitInsert(e) && InsertOpen(front, e);
    if InsertCommitted(front, e) {
      var i: nat :| CommitsInsert(front, i, e);
      assert actions[..i] == front[..i] && CommitsInsert(actions, i, e);
    }
    if InsertCommitted(actions, e) {
      var i: nat :| CommitsInsert(actions, i, e);
      if i < k {
        assert actions[..i] == front[..i] && CommitsInsert(front, i, e);
      }
    }
  }

  /** One action on one event's insert. */
  lemma InsertStep(s: Outbox, a: Action, e: nat)
    ensures var r := Next(s, a);
      && (e in r.visible <==> e in s.visible || (a == CommitInsert(e) && e in s.inserting))
      && (e in r.inserting <==>
            if a == BeginInsert(e) then e in s.inserting || e !in s.visible
            else e in s.inserting && a != CommitInsert(e) && a != AbortInsert(e))
  {
  }

  /**
   An event shows exactly when its insert has been committed: begun, and committed before it was given up. An insert
   that is aborted never shows, and one that is still open does not show yet.
   */
  lemma {:induction false} VisibleIffCommitted(actions: seq<Action>, e: nat)
    ensures var s := Behave(Empty(), actions);
      && (e in s.visible <==> InsertCommitted(actions, e))
      && (e in s.inserting <==> InsertOpen(actions, e) && !InsertCommitted(actions, e))
  {
    if actions != [] {
      var front, last := actions[..|actions| - 1], actions[|actions| - 1];
      assert actions == front + [last];
      VisibleIffCommitted(front, e);
      InsertStep(Behave(Empty(), front), last, e);
      InsertCommittedSnoc(front, last, e);
    }
  }
}
