/**
 A single worker in the machine of `OutboxWorkers`, whose ticks may fail at any point, with inserts beginning,
 committing and being given up in between: its committed ticks are the rounds of `OutboxProgress`, so the progress
 bound holds in the machine.
 */
module OneWorker {
  import opened OutboxWorkers
  import opened OutboxProgress

  function QueueOf(s: Outbox): Queue { Queue(s.visible, s.processed) }

  /** One tick at a time, and the handler fails exactly on `bad`; marking may fail, and any tick may be rolled back. */
  predicate SoloStep(s: Outbox, a: Action, limit: int, bad: set<nat>) {
    match a
    case Claim(n) => s.ticks == map[] && n == limit
    case Handle(t, accepts, _) =>
      t in s.ticks && s.ticks[t].next < |s.ticks[t].claimed| ==>
        accepts == (s.ticks[t].claimed[s.ticks[t].next] !in bad)
    case _ => true
  }

  predicate Solo(s: Outbox, actions: seq<Action>, limit: int, bad: set<nat>) {
    actions == [] || (
      var front := actions[..|actions| - 1];
      Solo(s, front, limit, bad) && SoloStep(Behave(s, front), actions[|actions| - 1], limit, bad))
  }

  /** The action commits a tick that has gone through all it claimed. */
  predicate Commits(s: Outbox, a: Action) {
    a.Commit? && a.tick in s.ticks && !s.ticks[a.tick].broken && s.ticks[a.tick].next >= |s.ticks[a.tick].claimed|
  }

  /** How many ticks were committed. */
  function Committed(s: Outbox, actions: seq<Action>): nat {
    if actions == [] then 0 else
      var front := actions[..|actions| - 1];
      Committed(s, front) + if Commits(Behave(s, front), actions[|actions| - 1]) then 1 else 0
  }

  /** Between two ticks, or in one that leads to `next` if it commits. */
  datatype Phase = Between | During(tick: nat, next: Queue)

  /** Tick `t` is under way from `m` to `next`: unless broken, it has accepted what is good so far. */
  ghost predicate Midway(s: Outbox, m: Queue, next: Queue, bad: set<nat>, t: nat) {
    && s.ticks.Keys == {t} && m.visible <= next.visible <= s.visible
    && var x := s.ticks[t];
    && next.processed == m.processed + Handled(x.claimed, Refusing(bad)) && x.next <= |x.claimed|
    && (!x.broken ==> Elements(x.accepted) == Handled(x.claimed[..x.next], Refusing(bad)))
  }

  /** The ticks committed so far end in `m`, and at most one further tick is under way. */
  ghost predicate Follows(s: Outbox, m: Queue, phase: Phase, bad: set<nat>) {
    && m.visible <= s.visible && s.processed == m.processed
    && match phase
       case Between => s.ticks == map[]
       case During(t, next) => Midway(s, m, next, bad, t)
  }

  lemma NothingLocked(s: Outbox)
    requires s.ticks == map[]
    ensures Available(s) == s.visible - s.processed
  {
    assert Locked(s) == {};
  }

  /** `r` is `s` with tick `t` begun on `ids`. */
  lemma {:induction false} ClaimFollows(s: Outbox, r: Outbox, m: Queue, bad: set<nat>, t: nat, ids: seq<nat>,
        next: Queue)
    requires Follows(s, m, Between, bad)
    requires r.ticks == map[t := Tick(ids, 0, [], false)] && r.visible == s.visible && r.processed == s.processed
    requires next.visible == s.visible && next.processed == m.processed + Handled(ids, Refusing(bad))
    ensures Follows(r, m, During(t, next), bad)
  {
    assert Elements([]) == Handled(ids[..0], Refusing(bad));
  }

  lemma {:induction false} HandleFollows(s: Outbox, m: Queue, next: Queue, limit: int, bad: set<nat>, t: nat,
        accepts: bool, marks: bool)
    requires Midway(s, m, next, bad, t) && SoloStep(s, Handle(t, accepts, marks), limit, bad)
    ensures Midway(Next(s, Handle(t, accepts, marks)), m, next, bad, t)
  {
    var x := s.ticks[t];
    if !x.broken && x.next < |x.claimed| {
      var e := x.claimed[x.next];
      assert x.claimed[..x.next + 1] == x.claimed[..x.next] + [e];
      HandledSnoc(x.claimed[..x.next], e, Refusing(bad));
      assert Elements(x.accepted + [e]) == Elements(x.accepted) + {e};
    }
  }

  /** The commit of a tick completes its round. */
  lemma {:induction false} CommitFollows(s: Outbox, m: Queue, next: Queue, bad: set<nat>, t: nat)
    requires s.processed == m.processed && Midway(s, m, next, bad, t) && Commits(s, Commit(t))
    ensures Follows(Next(s, Commit(t)), next, Between, bad)
  {
    var x := s.ticks[t];
    assert x.claimed[..x.next] == x.claimed;
    assert (set e | e in x.accepted) == Elements(x.accepted);
    assert (s.ticks - {t}).Keys == {};
  }

  lemma {:induction false} RollbackFollows(s: Outbox, m: Queue, phase: Phase, bad: set<nat>, t: nat)
    requires Follows(s, m, phase, bad) && t in s.ticks
    ensures Follows(Next(s, Rollback(t)), m, Between, bad)
  {
    assert (s.ticks - {t}).Keys == {};
  }

  /** Other steps, and steps that do nothing, only let inserts come and go. */
  lemma {:induction false} InsertFollows(s: Outbox, r: Outbox, m: Queue, phase: Phase, bad: set<nat>)
    requires Follows(s, m, phase, bad)
    requires r.ticks == s.ticks && r.processed == s.processed && s.visible <= r.visible
    ensures Follows(r, m, phase, bad)
  {
  }

  /** Short of a claim or a commit a tick stays under way or comes to nothing. */
  lemma {:induction false} StepFollows(s: Outbox, a: Action, m: Queue, phase: Phase, limit: int, bad: set<nat>)
    returns (after: Phase)
    requires Follows(s, m, phase, bad) && SoloStep(s, a, limit, bad) && !a.Claim? && !Commits(s, a)
    ensures Follows(Next(s, a), m, after, bad) && after in {phase, Between}
  {
    after := phase;
    if a.Handle? && a.tick in s.ticks {
      HandleFollows(s, m, phase.next, limit, bad, a.tick, a.accepts, a.marks);
    } else if a.Rollback? && a.tick in s.ticks {
      RollbackFollows(s, m, phase, bad, a.tick);
      after := Between;
    } else {
      InsertFollows(s, Next(s, a), m, phase, bad);
    }
  }

  /** Nothing below `e` is inserted but what was already under way in `s0`. */
  ghost predicate OnlyLater(s0: Outbox, s: Outbox, e: nat) {
    Below(s.visible + s.inserting, e) <= s0.visible + s0.inserting
  }

  lemma OnlyLaterStep(s0: Outbox, s: Outbox, a: Action, e: nat)
    requires OnlyLater(s0, s, e) && (a.BeginInsert? ==> a.event >= e)
    ensures OnlyLater(s0, Next(s, a), e)
  {
  }

  lemma RoundsSnoc(q: Queue, arrivals: seq<set<nat>>, arrive: set<nat>, limit: int, bad: set<nat>)
    ensures Rounds(q, arrivals + [arrive], limit, bad) == Round(Rounds(q, arrivals, limit, bad), arrive, limit, bad)
  {
    assert (arrivals + [arrive])[..|arrivals + [arrive]| - 1] == arrivals;
  }

  /** What is visible in `s` and not in a queue that started out with all that `s0` shows arrived after `s0`. */
  lemma LateArrival(s0: Outbox, s: Outbox, m: Queue, seen: set<nat>, e: nat)
    requires OnlyLater(s0, s, e) && s0.visible <= m.visible && seen <= s.visible
    ensures Below(seen - m.visible, e) <= s0.inserting
  {
    forall x | x in Below(seen - m.visible, e) ensures x in s0.inserting {
      assert x in Below(s.visible + s.inserting, e);
    }
  }

  /** The tick under way leads to a round of its own. */
  ghost predicate NextRound(m: Queue, phase: Phase, limit: int, bad: set<nat>) {
    phase.During? ==> phase.next == Round(m, phase.next.visible - m.visible, limit, bad)
  }

  /** What the claim takes is what the round takes when all that is visible now has arrived. */
  lemma ClaimIsRound(s: Outbox, m: Queue, limit: int, bad: set<nat>, ids: seq<nat>)
    requires s.ticks == map[] && s.processed == m.processed && m.visible <= s.visible
    requires ids == Pending(Available(s), limit)
    ensures Round(m, s.visible - m.visible, limit, bad) == Queue(s.visible, m.processed + Handled(ids, Refusing(bad)))
  {
    NothingLocked(s);
    assert m.visible + (s.visible - m.visible) == s.visible;
  }

  lemma ClaimBegins(s: Outbox, limit: int, ids: seq<nat>)
    requires s.ticks == map[] && ids == Pending(Available(s), limit)
    ensures var r := Next(s, Claim(limit));
      && r.ticks == map[s.nextTick := Tick(ids, 0, [], false)]
      && r.visible == s.visible && r.processed == s.processed
  {
  }

  lemma ClaimOpensRound(s: Outbox, m: Queue, limit: int, bad: set<nat>) returns (phase: Phase)
    requires Follows(s, m, Between, bad)
    ensures Follows(Next(s, Claim(limit)), m, phase, bad) && NextRound(m, phase, limit, bad)
  {
    var ids := Pending(Available(s), limit);
    var next := Queue(s.visible, m.processed + Handled(ids, Refusing(bad)));
    phase := During(s.nextTick, next);
    ClaimIsRound(s, m, limit, bad, ids);
    ClaimBegins(s, limit, ids);
    ClaimFollows(s, Next(s, Claim(limit)), m, bad, s.nextTick, ids, next);
  }

  /** A commit adds one round; what arrived in it is what became visible since the committed tick before. */
  lemma {:induction false} CommitAddsRound(s0: Outbox, s: Outbox, a: Action, arrivals: seq<set<nat>>, phase: Phase,
        limit: int, bad: set<nat>, e: nat) returns (arrive: set<nat>)
    requires var m := Rounds(QueueOf(s0), arrivals, limit, bad);
      Follows(s, m, phase, bad) && NextRound(m, phase, limit, bad) && s0.visible <= m.visible
    requires Commits(s, a) && OnlyLater(s0, s, e)
    ensures Follows(Next(s, a), Rounds(QueueOf(s0), arrivals + [arrive], limit, bad), Between, bad)
    ensures s0.visible <= Rounds(QueueOf(s0), arrivals + [arrive], limit, bad).visible
    ensures Below(arrive, e) <= s0.inserting
  {
    var m := Rounds(QueueOf(s0), arrivals, limit, bad);
    CommitFollows(s, m, phase.next, bad, a.tick);
    arrive := phase.next.visible - m.visible;
    LateArrival(s0, s, m, phase.next.visible, e);
    RoundsSnoc(QueueOf(s0), arrivals, arrive, limit, bad);
  }

  /**
   A run of one worker follows the rounds: there is one round for every committed tick, its new arrivals are what
   became visible since the committed tick before, and the processed events are always the same.
   */
  lemma {:induction false} WorkerFollowsRounds(s0: Outbox, actions: seq<Action>, limit: int, bad: set<nat>, e: nat)
    returns (arrivals: seq<set<nat>>, phase: Phase)
    requires s0.ticks == map[] && Solo(s0, actions, limit, bad)
    requires forall a | a in actions && a.BeginInsert? :: a.event >= e
    ensures var m := Rounds(QueueOf(s0), arrivals, limit, bad);
      Follows(Behave(s0, actions), m, phase, bad) && NextRound(m, phase, limit, bad) && s0.visible <= m.visible
    ensures |arrivals| == Committed(s0, actions)
    ensures LateArrivals(arrivals, s0.inserting, e) && OnlyLater(s0, Behave(s0, actions), e)
  {
    if actions == [] {
      arrivals, phase := [], Between;
    } else {
      var front, a := actions[..|actions| - 1], actions[|actions| - 1];
      assert a in actions && forall x | x in front :: x in actions;
      arrivals, phase := WorkerFollowsRounds(s0, front, limit, bad, e);
      var s, m := Behave(s0, front), Rounds(QueueOf(s0), arrivals, limit, bad);
      OnlyLaterStep(s0, s, a, e);
      if Commits(s, a) {
        var arrive := CommitAddsRound(s0, s, a, arrivals, phase, limit, bad, e);
        arrivals, phase := arrivals + [arrive], Between;
      } else if a.Claim? {
        phase := ClaimOpensRound(s, m, limit, bad);
      } else {
        phase := StepFollows(s, a, m, phase, limit, bad);
      }
    }
  }

  /**
   The progress bound in the machine: with nothing but larger ids inserted from `s0` on, a visible good event with at
   most f unprocessed failing ones before it, f below the batch size, is processed once the worker has committed
   r / (batch - f) + 1 ticks, where r counts the good unprocessed events of smaller id, in-flight inserts included.
   Ticks that fail in between do not matter.
   */
  lemma {:induction false} ReachedByWorker(s0: Outbox, actions: seq<Action>, limit: int, bad: set<nat>, e: nat, f: nat)
    requires s0.ticks == map[] && Solo(s0, actions, limit, bad)
    requires forall a | a in actions && a.BeginInsert? :: a.event >= e
    requires e in s0.visible && e !in bad && |Crowd(QueueOf(s0), s0.inserting, bad, e)| <= f < Limit(limit)
    requires Committed(s0, actions) >= |Ahead(QueueOf(s0), s0.inserting, bad, e)| / (Limit(limit) - f) + 1
    ensures e in Behave(s0, actions).processed
  {
    var arrivals, phase := WorkerFollowsRounds(s0, actions, limit, bad, e);
    ReachedInTime(QueueOf(s0), s0.inserting, arrivals, limit, bad, e, f);
  }

  /** The bound for an event whose insert was committed in the run itself. */
  lemma {:induction false} ReachedAfterInsert(before: seq<Action>, actions: seq<Action>, limit: int, bad: set<nat>,
        e: nat, f: nat)
    requires InsertCommitted(before, e) && Behave(Empty(), before).ticks == map[]
    requires Solo(Behave(Empty(), before), actions, limit, bad)
    requires forall a | a in actions && a.BeginInsert? :: a.event >= e
    requires var s := Behave(Empty(), before);
      && e !in bad && |Crowd(QueueOf(s), s.inserting, bad, e)| <= f < Limit(limit)
      && Committed(s, actions) >= |Ahead(QueueOf(s), s.inserting, bad, e)| / (Limit(limit) - f) + 1
    ensures e in Behave(Behave(Empty(), before), actions).processed
  {
    VisibleIffCommitted(before, e);
    ReachedByWorker(Behave(Empty(), before), actions, limit, bad, e, f);
  }

  // ----- A claim takes what is free, and a tick can always be finished -----

  lemma FreeIsAvailable(s: Outbox, e: nat)
    ensures e in Available(s) <==>
      e in s.visible && e !in s.processed && forall t | t in s.ticks :: e !in s.ticks[t].claimed
  {
  }

  /** A claim takes exactly the free events with fewer than a batch of smaller free ids. */
  lemma {:induction false} ClaimTakes(s: Outbox, limit: int, e: nat)
    ensures s.nextTick in Next(s, Claim(limit)).ticks
    ensures e in Next(s, Claim(limit)).ticks[s.nextTick].claimed <==>
      && e in s.visible && e !in s.processed && (forall t | t in s.ticks :: e !in s.ticks[t].claimed)
      && |Below(Available(s), e)| < if limit <= 0 then 50 else limit
  {
    assert Next(s, Claim(limit)).ticks[s.nextTick].claimed == Pending(Available(s), limit);
    FreeIsAvailable(s, e);
    PendingOk(Available(s), limit);
    if e in Available(s) {
      if |Below(Available(s), e)| >= Limit(limit) {
        CrowdedOut(Available(s), limit, e);
      } else if e !in Pending(Available(s), limit) {
        PassedOver(Available(s), limit, e);
        SubsetSize(Elements(Pending(Available(s), limit)), Below(Available(s), e));
      }
    }
  }

  lemma BehaveSnoc(s: Outbox, actions: seq<Action>, a: Action)
    ensures Behave(s, actions + [a]) == Next(Behave(s, actions), a)
  {
    assert (actions + [a])[..|actions + [a]| - 1] == actions;
  }

  lemma SoloSnoc(s: Outbox, actions: seq<Action>, a: Action, limit: int, bad: set<nat>)
    requires Solo(s, actions, limit, bad) && SoloStep(Behave(s, actions), a, limit, bad)
    ensures Solo(s, actions + [a], limit, bad)
    ensures Committed(s, actions + [a]) == Committed(s, actions) + if Commits(Behave(s, actions), a) then 1 else 0
  {
    assert (actions + [a])[..|actions + [a]| - 1] == actions;
  }

  /** After `actions` from `s0` one tick is under way and has handled its first `n` events without a failing mark. */
  ghost predicate UnderWay(s0: Outbox, actions: seq<Action>, limit: int, bad: set<nat>, t: nat, n: nat, done: nat) {
    && Solo(s0, actions, limit, bad) && Committed(s0, actions) == done
    && (forall a | a in actions :: !a.BeginInsert?)
    && var s := Behave(s0, actions);
    && s.ticks.Keys == {t} && !s.ticks[t].broken && s.ticks[t].next == n <= |s.ticks[t].claimed|
  }

  lemma {:induction false} HandlesAll(s0: Outbox, actions: seq<Action>, limit: int, bad: set<nat>, t: nat, n: nat,
        done: nat) returns (more: seq<Action>)
    requires UnderWay(s0, actions, limit, bad, t, n, done)
    ensures exists m: nat :: UnderWay(s0, more, limit, bad, t, m, done) && m == |Behave(s0, more).ticks[t].claimed|
    decreases |Behave(s0, actions).ticks[t].claimed| - n
  {
    var s := Behave(s0, actions);
    var x := s.ticks[t];
    if n == |x.claimed| {
      more := actions;
    } else {
      var a := Handle(t, x.claimed[n] !in bad, true);
      SoloSnoc(s0, actions, a, limit, bad);
      BehaveSnoc(s0, actions, a);
      assert UnderWay(s0, actions + [a], limit, bad, t, n + 1, done);
      more := HandlesAll(s0, actions + [a], limit, bad, t, n + 1, done);
    }
  }

  /** From any state between ticks, a worker whose calls do not fail gets a further tick committed. */
  lemma {:induction false} TickGoesThrough(s0: Outbox, actions: seq<Action>, limit: int, bad: set<nat>)
    returns (more: seq<Action>)
    requires Solo(s0, actions, limit, bad) && Behave(s0, actions).ticks == map[]
    requires forall a | a in actions :: !a.BeginInsert?
    ensures Solo(s0, more, limit, bad) && Behave(s0, more).ticks == map[]
    ensures Committed(s0, more) == Committed(s0, actions) + 1 && forall a | a in more :: !a.BeginInsert?
  {
    var s, done := Behave(s0, actions), Committed(s0, actions);
    var t := s.nextTick;
    SoloSnoc(s0, actions, Claim(limit), limit, bad);
    BehaveSnoc(s0, actions, Claim(limit));
    assert UnderWay(s0, actions + [Claim(limit)], limit, bad, t, 0, done);
    var handled := HandlesAll(s0, actions + [Claim(limit)], limit, bad, t, 0, done);
    SoloSnoc(s0, handled, Commit(t), limit, bad);
    BehaveSnoc(s0, handled, Commit(t));
    more := handled + [Commit(t)];
    assert (Behave(s0, handled).ticks - {t}).Keys == {};
  }

  lemma {:induction false} TicksGoThrough(s0: Outbox, limit: int, bad: set<nat>, n: nat) returns (actions: seq<Action>)
    requires s0.ticks == map[]
    ensures Solo(s0, actions, limit, bad) && Behave(s0, actions).ticks == map[] && Committed(s0, actions) == n
    ensures forall a | a in actions :: !a.BeginInsert?
  {
    if n == 0 {
      actions := [];
    } else {
      actions := TicksGoThrough(s0, limit, bad, n - 1);
      actions := TickGoesThrough(s0, actions, limit, bad);
    }
  }

  /**
   Every good event gets through: once its insert is committed and no tick is open, and with fewer than a batch of
   unprocessed failing events before it, the worker alone goes on to a state in which it is processed.
   */
  lemma {:induction false} InsertedIsReachable(before: seq<Action>, limit: int, bad: set<nat>, e: nat)
    returns (actions: seq<Action>)
    requires InsertCommitted(before, e) && Behave(Empty(), before).ticks == map[] && e !in bad
    requires var s := Behave(Empty(), before); |Crowd(QueueOf(s), s.inserting, bad, e)| < Limit(limit)
    ensures Solo(Behave(Empty(), before), actions, limit, bad)
    ensures e in Behave(Behave(Empty(), before), actions).processed
  {
    var s := Behave(Empty(), before);
    var f := |Crowd(QueueOf(s), s.inserting, bad, e)|;
    var n := |Ahead(QueueOf(s), s.inserting, bad, e)| / (Limit(limit) - f) + 1;
    actions := TicksGoThrough(s, limit, bad, n);
    ReachedAfterInsert(before, actions, limit, bad, e, f);
  }
}
