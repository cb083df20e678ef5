/**
 The category cache under any number of concurrent callers: double-checked locking on a read-write mutex, with the
 caller's clock reading taken before any lock and reused for both checks and for the new expiry. Each shared access is
 a step of its own. Times count from Go's zero time, so a zero `expiresAt` lies before every clock reading.
 */
module CategoryCache {
  import opened Ordering
  import opened Arithmetic

  datatype Category = Category(id: nat, name: string)

  type Items = seq<Category>

  const DEFAULT_TTL: nat := 30_000_000_000

  /** Thirty seconds unless a positive ttl is given. */
  function Ttl(ttl: int): (r: nat)
    ensures ttl > 0 ==> r == ttl
    ensures ttl <= 0 ==> r == 30_000_000_000
  {
    if ttl <= 0 then DEFAULT_TTL else ttl
  }

  /** Where a caller stands inside `Get`. */
  datatype Pc =
    | Called
    | ReadHeld
    | ReadHit
    | ReadCopied(items: Items)
    | ReadMiss
    | WantWrite
    | WriteHeld
    | WriteHit
    | WriteCopied(items: Items)
    | Fetching
    | FetchFailed
    | Fetched(items: Items)
    | ItemsStored(items: Items)
    | Stored(items: Items)
    | Returned(items: Items)
    | Errored

  datatype Thread = Thread(now: nat, pc: Pc)

  /** A successful fetch: its caller's clock reading and what it brought. */
  datatype Fetch = Fetch(start: nat, items: Items)

  datatype State = State(
    clock: nat,
    ttl: nat,
    items: Items,
    expiresAt: nat,
    readers: set<nat>,
    writer: Option<nat>,
    threads: map<nat, Thread>,
    fetches: seq<Fetch>)

  datatype Action =
    | Elapse(time: nat)
    | Call(thread: nat)
    | Step(thread: nat, answer: Option<Items>)

  function Opened(ttl: int): State {
    State(0, Ttl(ttl), [], 0, {}, None, map[], [])
  }

  predicate Reads(pc: Pc) { pc.ReadHeld? || pc.ReadHit? || pc.ReadCopied? || pc.ReadMiss? }

  predicate Writes(pc: Pc) {
    pc.WriteHeld? || pc.WriteHit? || pc.WriteCopied? || pc.Fetching? || pc.FetchFailed? || pc.Fetched?
    || pc.ItemsStored? || pc.Stored?
  }

  predicate Finished(pc: Pc) { pc.Returned? || pc.Errored? }

  /** The thread is not waiting for the mutex and has not returned. */
  predicate Enabled(s: State, t: nat) {
    && t in s.threads
    && var pc := s.threads[t].pc;
       if pc.Called? then s.writer.None?
       else if pc.WantWrite? then s.writer.None? && s.readers == {}
       else !Finished(pc)
  }

  function At(s: State, t: nat, pc: Pc): State
    requires t in s.threads
  {
    s.(threads := s.threads[t := s.threads[t].(pc := pc)])
  }

  function StepOf(s: State, t: nat, answer: Option<Items>): State
    requires Enabled(s, t)
  {
    var now := s.threads[t].now;
    match s.threads[t].pc
    case Called => At(s, t, ReadHeld).(readers := s.readers + {t})
    case ReadHeld => At(s, t, if now < s.expiresAt then ReadHit else ReadMiss)
    case ReadHit => At(s, t, ReadCopied(s.items))
    case ReadCopied(v) => At(s, t, Returned(v)).(readers := s.readers - {t})
    case ReadMiss => At(s, t, WantWrite).(readers := s.readers - {t})
    case WantWrite => At(s, t, WriteHeld).(writer := Some(t))
    case WriteHeld => At(s, t, if now < s.expiresAt then WriteHit else Fetching)
    case WriteHit => At(s, t, WriteCopied(s.items))
    case WriteCopied(v) => At(s, t, Returned(v)).(writer := None)
    case Fetching =>
      if answer.None? then At(s, t, FetchFailed)
      else At(s, t, Fetched(answer.value)).(fetches := s.fetches + [Fetch(now, answer.value)])
    case FetchFailed => At(s, t, Errored).(writer := None)
    case Fetched(v) => At(s, t, ItemsStored(v)).(items := v)
    case ItemsStored(v) => At(s, t, Stored(v)).(expiresAt := now + s.ttl)
    case Stored(v) => At(s, t, Returned(v)).(writer := None)
    case Returned(_) => s
    case Errored => s
  }

  function Next(s: State, a: Action): State {
    match a
    case Elapse(time) => s.(clock := s.clock + time)
    case Call(t) => if t in s.threads then s else s.(threads := s.threads[t := Thread(s.clock, Called)])
    case Step(t, answer) => if Enabled(s, t) then StepOf(s, t, answer) else s
  }

  function Behave(s: State, actions: seq<Action>): State {
    if actions == [] then s else Next(Behave(s, actions[..|actions| - 1]), actions[|actions| - 1])
  }

  // ----- Invariants -----

  /** The mutex and the program counters agree, and the mutex is held by readers or by one writer. */
  ghost predicate Locking(s: State) {
    && (forall t | t in s.threads ::
           (t in s.readers <==> Reads(s.threads[t].pc)) && (s.writer == Some(t) <==> Writes(s.threads[t].pc)))
    && s.readers <= s.threads.Keys
    && (s.writer.Some? ==> s.writer.value in s.threads && s.readers == {})
  }

  /** Starts of successive successful fetches lie at least a ttl apart. */
  ghost predicate Spaced(fetches: seq<Fetch>, ttl: nat) {
    forall i | 0 <= i < |fetches| - 1 :: fetches[i].start + ttl <= fetches[i + 1].start
  }

  /** The fields hold the last fetch of `fetches`. */
  ghost predicate Holds(s: State, fetches: seq<Fetch>) {
    if fetches == [] then s.expiresAt == 0
    else s.expiresAt == fetches[|fetches| - 1].start + s.ttl && s.items == fetches[|fetches| - 1].items
  }

  /** The last fetch is `now`'s own and the fields do not show it completely yet. */
  ghost predicate Pending(s: State, now: nat, v: Items) {
    s.fetches != [] && s.fetches[|s.fetches| - 1] == Fetch(now, v) && s.expiresAt <= now
  }

  /** What the fields hold, given what the writer, if any, is about to do. */
  ghost predicate Contents(s: State) {
    if s.writer.Some? && s.writer.value in s.threads && s.threads[s.writer.value].pc.Fetched? then
      Pending(s, s.threads[s.writer.value].now, s.threads[s.writer.value].pc.items)
    else if s.writer.Some? && s.writer.value in s.threads && s.threads[s.writer.value].pc.ItemsStored? then
      var x := s.threads[s.writer.value];
      Pending(s, x.now, x.pc.items) && s.items == x.pc.items
    else Holds(s, s.fetches)
  }

  /** `v` is the result of one successful fetch whose caller started after now - ttl. */
  ghost predicate FreshAt(s: State, now: nat, v: Items) {
    exists k | 0 <= k < |s.fetches| :: s.fetches[k].items == v && now < s.fetches[k].start + s.ttl
  }

  ghost predicate ThreadOk(s: State, x: Thread) {
    && (x.pc.ReadHit? || x.pc.WriteHit? ==> x.now < s.expiresAt)
    && (x.pc.Fetching? ==> s.expiresAt <= x.now)
    && (x.pc.ReadCopied? || x.pc.WriteCopied? || x.pc.Fetched? || x.pc.ItemsStored? || x.pc.Stored?
           || x.pc.Returned? ==>
          FreshAt(s, x.now, x.pc.items))
  }

  ghost predicate Inv(s: State) {
    && s.ttl > 0
    && Locking(s)
    && Spaced(s.fetches, s.ttl)
    && Contents(s)
    && forall t | t in s.threads :: ThreadOk(s, s.threads[t])
  }

  lemma {:induction false} StepLocking(s: State, t: nat, answer: Option<Items>)
    requires Locking(s) && Enabled(s, t)
    ensures Locking(StepOf(s, t, answer))
  {
  }

  lemma FreshKept(s: State, r: State, now: nat, v: Items)
    requires FreshAt(s, now, v) && s.fetches <= r.fetches && r.ttl == s.ttl
    ensures FreshAt(r, now, v)
  {
    var k :| 0 <= k < |s.fetches| && s.fetches[k].items == v && now < s.fetches[k].start + s.ttl;
    assert r.fetches[k] == s.fetches[k];
  }

  /** While one thread moves, another holding the mutex sees unchanged fields, and freshness is never lost. */
  lemma {:induction false} StepOthers(s: State, t: nat, answer: Option<Items>, u: nat)
    requires Inv(s) && Enabled(s, t) && u in s.threads && u != t
    ensures ThreadOk(StepOf(s, t, answer), s.threads[u])
  {
    var r := StepOf(s, t, answer);
    var x := s.threads[u];
    assert Reads(x.pc) || Writes(x.pc) ==> !Writes(s.threads[t].pc);
    forall now, v | FreshAt(s, now, v) ensures FreshAt(r, now, v) {
      FreshKept(s, r, now, v);
    }
  }

  lemma {:induction false} StepSelf(s: State, t: nat, answer: Option<Items>)
    requires Inv(s) && Enabled(s, t)
    ensures ThreadOk(StepOf(s, t, answer), StepOf(s, t, answer).threads[t])
  {
    var r := StepOf(s, t, answer);
    var x := s.threads[t];
    match x.pc
    case ReadHit => assert r.fetches[|r.fetches| - 1].items == s.items;
    case WriteHit => assert r.fetches[|r.fetches| - 1].items == s.items;
    case Fetching => if answer.Some? { assert r.fetches[|r.fetches| - 1] == Fetch(x.now, answer.value); }
    case ReadCopied(v) => assert FreshAt(s, x.now, v);
    case WriteCopied(v) => assert FreshAt(s, x.now, v);
    case Fetched(v) => assert FreshAt(s, x.now, v);
    case ItemsStored(v) => assert FreshAt(s, x.now, v);
    case Stored(v) => assert FreshAt(s, x.now, v);
    case _ =>
  }

  lemma {:induction false} StepSpaced(s: State, t: nat, answer: Option<Items>)
    requires Inv(s) && Enabled(s, t)
    ensures Spaced(StepOf(s, t, answer).fetches, s.ttl)
  {
    assert Writes(s.threads[t].pc) <==> s.writer == Some(t);
    assert ThreadOk(s, s.threads[t]);
  }

  lemma {:induction false} WriterContents(s: State, t: nat, answer: Option<Items>)
    requires Inv(s) && Enabled(s, t) && Writes(s.threads[t].pc)
    ensures Contents(StepOf(s, t, answer))
  {
    assert s.writer == Some(t);
    assert ThreadOk(s, s.threads[t]);
  }

  lemma {:induction false} StepContents(s: State, t: nat, answer: Option<Items>)
    requires Inv(s) && Enabled(s, t)
    ensures Contents(StepOf(s, t, answer))
  {
    if Writes(s.threads[t].pc) {
      WriterContents(s, t, answer);
    } else {
      assert s.writer.None?;
    }
  }

  lemma StepFrame(s: State, t: nat, answer: Option<Items>)
    requires Enabled(s, t)
    ensures var r := StepOf(s, t, answer);
      && r.threads.Keys == s.threads.Keys && r.ttl == s.ttl && s.fetches <= r.fetches
      && forall u | u in s.threads && u != t :: r.threads[u] == s.threads[u]
  {
  }

  lemma {:induction false} StepThreads(s: State, t: nat, answer: Option<Items>, r: State)
    requires Inv(s) && Enabled(s, t) && r == StepOf(s, t, answer)
    ensures forall u | u in r.threads :: ThreadOk(r, r.threads[u])
  {
    StepFrame(s, t, answer);
    forall u | u in r.threads ensures ThreadOk(r, r.threads[u]) {
      if u == t { StepSelf(s, t, answer); } else { StepOthers(s, t, answer, u); }
    }
  }

  lemma {:induction false} StepInv(s: State, t: nat, answer: Option<Items>)
    requires Inv(s) && Enabled(s, t)
    ensures Inv(StepOf(s, t, answer))
  {
    var r := StepOf(s, t, answer);
    StepFrame(s, t, answer);
    StepLocking(s, t, answer);
    StepSpaced(s, t, answer);
    StepContents(s, t, answer);
    StepThreads(s, t, answer, r);
  }

  lemma SameFresh(s: State, r: State, x: Thread)
    requires ThreadOk(s, x) && r.fetches == s.fetches && r.expiresAt == s.expiresAt && r.ttl == s.ttl
    ensures ThreadOk(r, x)
  {
  }

  lemma {:induction false} CallInv(s: State, t: nat)
    requires Inv(s)
    ensures Inv(Next(s, Call(t)))
  {
    var r := Next(s, Call(t));
    forall u | u in s.threads ensures ThreadOk(r, s.threads[u]) && r.threads[u] == s.threads[u] {
      SameFresh(s, r, s.threads[u]);
    }
  }

  lemma {:induction false} ElapseInv(s: State, time: nat)
    requires Inv(s)
    ensures Inv(Next(s, Elapse(time)))
  {
    var r := Next(s, Elapse(time));
    forall u | u in s.threads ensures ThreadOk(r, s.threads[u]) {
      SameFresh(s, r, s.threads[u]);
    }
  }

  lemma {:induction false} NextInv(s: State, a: Action)
    requires Inv(s)
    ensures Inv(Next(s, a))
  {
    match a
    case Elapse(time) => ElapseInv(s, time);
    case Call(t) => CallInv(s, t);
    case Step(t, answer) => if Enabled(s, t) { StepInv(s, t, answer); }
  }

  lemma {:induction false} BehaveInv(ttl: int, actions: seq<Action>)
    ensures Inv(Behave(Opened(ttl), actions)) && Behave(Opened(ttl), actions).ttl == Ttl(ttl)
  {
    if actions != [] {
      BehaveInv(ttl, actions[..|actions| - 1]);
      NextInv(Behave(Opened(ttl), actions[..|actions| - 1]), actions[|actions| - 1]);
    }
  }

  // ----- Theorems -----

  /**
   Freshness: whatever the interleaving, a caller that started at `now` and returned got exactly the result of one
   successful fetch whose own caller started after now - ttl.
   */
  lemma CacheIsFresh(ttl: int, actions: seq<Action>, t: nat)
    requires t in Behave(Opened(ttl), actions).threads && Behave(Opened(ttl), actions).threads[t].pc.Returned?
    ensures var s := Behave(Opened(ttl), actions);
      exists k | 0 <= k < |s.fetches| ::
        s.fetches[k].items == s.threads[t].pc.items && s.fetches[k].start > s.threads[t].now - Ttl(ttl)
  {
    BehaveInv(ttl, actions);
    var s := Behave(Opened(ttl), actions);
    assert ThreadOk(s, s.threads[t]);
    var k :| 0 <= k < |s.fetches| && s.fetches[k].items == s.threads[t].pc.items
        && s.threads[t].now < s.fetches[k].start + s.ttl;
    assert s.fetches[k].start > s.threads[t].now - Ttl(ttl);
  }

  predicate Touches(pc: Pc) { Reads(pc) || Writes(pc) }

  /** Lock safety: a thread about to write `items` or `expiresAt` is the only one with any access to the fields. */
  lemma WritesAreExclusive(ttl: int, actions: seq<Action>, t: nat, u: nat)
    requires t in Behave(Opened(ttl), actions).threads && u in Behave(Opened(ttl), actions).threads && t != u
    requires var pc := Behave(Opened(ttl), actions).threads[t].pc; pc.Fetched? || pc.ItemsStored?
    ensures !Touches(Behave(Opened(ttl), actions).threads[u].pc)
  {
    BehaveInv(ttl, actions);
    var s := Behave(Opened(ttl), actions);
    assert s.writer == Some(t);
  }

  /** As `Enabled`, but a reader also waits while a writer is waiting, as Go's RWMutex makes it. */
  predicate EnabledWriterFirst(s: State, t: nat) {
    Enabled(s, t) && (s.threads[t].pc.Called? ==> forall u | u in s.threads :: !s.threads[u].pc.WantWrite?)
  }

  /**
   No deadlock: while some caller has not returned, some caller can move, even when waiting writers bar new
   readers.
   */
  lemma SomeoneCanMove(ttl: int, actions: seq<Action>, t: nat)
    requires t in Behave(Opened(ttl), actions).threads && !Finished(Behave(Opened(ttl), actions).threads[t].pc)
    ensures exists u :: EnabledWriterFirst(Behave(Opened(ttl), actions), u)
  {
    BehaveInv(ttl, actions);
    var s := Behave(Opened(ttl), actions);
    if s.writer.Some? {
      assert Writes(s.threads[s.writer.value].pc);
      assert EnabledWriterFirst(s, s.writer.value);
    } else if s.readers != {} {
      var u :| u in s.readers;
      assert Reads(s.threads[u].pc);
      assert EnabledWriterFirst(s, u);
    } else if u :| u in s.threads && s.threads[u].pc.WantWrite? {
      assert EnabledWriterFirst(s, u);
    } else {
      assert !Reads(s.threads[t].pc) && !Writes(s.threads[t].pc);
      assert EnabledWriterFirst(s, t);
    }
  }

  /** Steps a caller has left at most. */
  function Left(pc: Pc): nat {
    match pc
    case Called => 10
    case ReadHeld => 9
    case ReadHit => 8
    case ReadCopied(_) => 7
    case ReadMiss => 8
    case WantWrite => 7
    case WriteHeld => 6
    case WriteHit => 5
    case WriteCopied(_) => 4
    case Fetching => 5
    case FetchFailed => 4
    case Fetched(_) => 3
    case ItemsStored(_) => 2
    case Stored(_) => 1
    case Returned(_) => 0
    case Errored => 0
  }

  /** Every move brings its caller strictly closer to returning and takes nobody else back. */
  lemma MovesAreProgress(s: State, t: nat, answer: Option<Items>)
    requires Enabled(s, t)
    ensures Left(StepOf(s, t, answer).threads[t].pc) < Left(s.threads[t].pc)
    ensures forall u | u in s.threads && u != t :: StepOf(s, t, answer).threads[u] == s.threads[u]
  {
  }

  /** How many fetches started in [from, to]. */
  function StartedIn(fetches: seq<Fetch>, from: nat, to: nat): nat {
    if fetches == [] then 0 else
      StartedIn(fetches[..|fetches| - 1], from, to)
      + if from <= fetches[|fetches| - 1].start <= to then 1 else 0
  }

  function StartsIn(fetches: seq<Fetch>, from: nat, to: nat): set<nat> {
    set k: nat | k < |fetches| && from <= fetches[k].start <= to
  }

  lemma {:induction false} StartedInCounts(fetches: seq<Fetch>, from: nat, to: nat)
    ensures StartedIn(fetches, from, to) == |StartsIn(fetches, from, to)|
  {
    if fetches == [] {
      assert StartsIn(fetches, from, to) == {};
    } else {
      var k := |fetches| - 1;
      StartedInCounts(fetches[..k], from, to);
      assert StartsIn(fetches, from, to) ==
        StartsIn(fetches[..k], from, to) + if from <= fetches[k].start <= to then {k} else {};
    }
  }

  /** The latest start not after `to`. */
  function LastUpTo(fetches: seq<Fetch>, to: nat): nat {
    if fetches == [] then 0
    else if fetches[|fetches| - 1].start <= to then fetches[|fetches| - 1].start
    else LastUpTo(fetches[..|fetches| - 1], to)
  }

  lemma {:induction false} LastIsBefore(fetches: seq<Fetch>, ttl: nat, to: nat)
    requires fetches != [] && Spaced(fetches, ttl) && fetches[|fetches| - 1].start <= to
    ensures |fetches| > 1 ==> LastUpTo(fetches[..|fetches| - 1], to) + ttl <= fetches[|fetches| - 1].start
  {
  }

  lemma {:induction false} SpacedCount(fetches: seq<Fetch>, ttl: nat, from: nat, to: nat)
    requires ttl > 0 && Spaced(fetches, ttl)
    ensures StartedIn(fetches, from, to) > 0 ==>
      fetches != [] && (StartedIn(fetches, from, to) - 1) * ttl <= LastUpTo(fetches, to) - from
          && LastUpTo(fetches, to) <= to
  {
    if fetches != [] {
      var front := fetches[..|fetches| - 1];
      SpacedCount(front, ttl, from, to);
      var start := fetches[|fetches| - 1].start;
      if from <= start <= to && StartedIn(front, from, to) > 0 {
        LastIsBefore(fetches, ttl, to);
        OneMore(StartedIn(front, from, to) - 1, ttl);
      }
    }
  }

  lemma SpacedBound(fetches: seq<Fetch>, ttl: nat, from: nat, length: nat)
    requires ttl > 0 && Spaced(fetches, ttl)
    ensures StartedIn(fetches, from, from + length) <= length / ttl + 1
  {
    SpacedCount(fetches, ttl, from, from + length);
    var n := StartedIn(fetches, from, from + length);
    if n > length / ttl + 1 {
      AboveQuotient(n - 1, ttl, length);
    }
  }

  /**
   Stampede bound: successful fetches start at least a ttl apart, so the callers of any interval of length `length`
   cause at most length / ttl + 1 of them, however many callers there are and however they interleave.
   */
  lemma StampedeBound(ttl: int, actions: seq<Action>, from: nat, length: nat)
    ensures var fetches := Behave(Opened(ttl), actions).fetches;
      && Spaced(fetches, Ttl(ttl))
      && |StartsIn(fetches, from, from + length)| <= length / Ttl(ttl) + 1
  {
    BehaveInv(ttl, actions);
    var fetches := Behave(Opened(ttl), actions).fetches;
    SpacedBound(fetches, Ttl(ttl), from, length);
    StartedInCounts(fetches, from, from + length);
  }

  /** The expiry never moves back, and every store of a fetch moves it strictly forward. */
  lemma ExpiryIncreases(ttl: int, actions: seq<Action>, a: Action)
    ensures var s := Behave(Opened(ttl), actions);
      && s.expiresAt <= Next(s, a).expiresAt
      && (a.Step? && a.thread in s.threads && s.threads[a.thread].pc.ItemsStored? ==>
             s.expiresAt < Next(s, a).expiresAt)
  {
    BehaveInv(ttl, actions);
    var s := Behave(Opened(ttl), actions);
    if a.Step? && a.thread in s.threads && s.threads[a.thread].pc.ItemsStored? {
      assert s.writer == Some(a.thread);
    }
  }

  // ----- What one caller gets -----

  lemma BehaveSnoc(s: State, actions: seq<Action>, a: Action)
    ensures Behave(s, actions + [a]) == Next(Behave(s, actions), a)
  {
    assert (actions + [a])[..|actions + [a]| - 1] == actions;
  }

  /** Action `i` is the answer to the fetch of caller `t`. */
  ghost predicate AnswersFetch(s: State, actions: seq<Action>, i: nat, t: nat, answer: Option<Items>) {
    && i < |actions| && actions[i] == Step(t, answer)
    && t in Behave(s, actions[..i]).threads && Behave(s, actions[..i]).threads[t].pc.Fetching?
  }

  lemma AnswersFetchLater(s: State, front: seq<Action>, a: Action, i: nat, t: nat, answer: Option<Items>)
    requires i < |front|
    ensures AnswersFetch(s, front, i, t, answer) <==> AnswersFetch(s, front + [a], i, t, answer)
  {
    assert (front + [a])[..i] == front[..i];
  }

  /** `Get` fails only because the caller's own fetch failed. */
  lemma {:induction false} FailsOnlyIfFetchFailed(ttl: int, actions: seq<Action>, t: nat)
    requires t in Behave(Opened(ttl), actions).threads
    requires Behave(Opened(ttl), actions).threads[t].pc in {FetchFailed, Errored}
    ensures exists i :: AnswersFetch(Opened(ttl), actions, i, t, None)
  {
    if actions != [] {
      var n := |actions| - 1;
      var front, a := actions[..n], actions[n];
      var s := Behave(Opened(ttl), front);
      assert actions == front + [a];
      if t in s.threads && s.threads[t].pc in {FetchFailed, Errored} {
        FailsOnlyIfFetchFailed(ttl, front, t);
        var i: nat :| AnswersFetch(Opened(ttl), front, i, t, None);
        AnswersFetchLater(Opened(ttl), front, a, i, t, None);
      } else {
        assert AnswersFetch(Opened(ttl), actions, n, t, None);
      }
    }
  }

  predicate Brings(pc: Pc, v: Items) {
    pc in {Fetched(v), ItemsStored(v), Stored(v), Returned(v)}
  }

  lemma BringsOn(s: State, a: Action, t: nat, v: Items)
    requires t in s.threads && Brings(s.threads[t].pc, v)
    ensures t in Next(s, a).threads && Brings(Next(s, a).threads[t].pc, v)
  {
  }

  /** A caller whose own fetch brought `v` returns `v`. */
  lemma {:induction false} ReturnsWhatItFetched(ttl: int, actions: seq<Action>, t: nat, v: Items, i: nat)
    requires AnswersFetch(Opened(ttl), actions, i, t, Some(v))
    ensures t in Behave(Opened(ttl), actions).threads && Brings(Behave(Opened(ttl), actions).threads[t].pc, v)
  {
    var n := |actions| - 1;
    var front, a := actions[..n], actions[n];
    assert actions == front + [a];
    if i < n {
      AnswersFetchLater(Opened(ttl), front, a, i, t, Some(v));
      ReturnsWhatItFetched(ttl, front, t, v, i);
      BringsOn(Behave(Opened(ttl), front), a, t, v);
    }
  }

  lemma FourSteps(s: State, a: Action, s1: State, s2: State, s3: State, s4: State)
    requires Next(s, a) == s1 && Next(s1, a) == s2 && Next(s2, a) == s3 && Next(s3, a) == s4
    ensures Behave(s, [a] + [a] + [a] + [a]) == s4
  {
    BehaveSnoc(s, [], a);
    assert [] + [a] == [a];
    BehaveSnoc(s, [a], a);
    BehaveSnoc(s, [a] + [a], a);
    BehaveSnoc(s, [a] + [a] + [a], a);
  }

  /** `s` with caller `t` at `pc`. */
  function With(s: State, t: nat, x: Thread, pc: Pc): State {
    s.(threads := s.threads[t := x.(pc := pc)])
  }

  lemma AtWith(s: State, t: nat, x: Thread, before: Pc, after: Pc)
    ensures At(With(s, t, x, before), t, after) == With(s, t, x, after)
  {
  }

  /**
   While nobody writes, a caller that comes to a live cache is done in four steps, whoever else is reading, and without
   asking for the write lock.
   */
  lemma LiveCacheIsRead(s: State, t: nat, answer: Option<Items>)
    requires t in s.threads && s.threads[t].pc == Called && s.threads[t].now < s.expiresAt
    requires s.writer == None && t !in s.readers
    ensures Behave(s, [Step(t, answer)] + [Step(t, answer)] + [Step(t, answer)] + [Step(t, answer)]) ==
      s.(threads := s.threads[t := Thread(s.threads[t].now, Returned(s.items))])
  {
    var step, x, held := Step(t, answer), s.threads[t], s.(readers := s.readers + {t});
    var s1, s2 := With(held, t, x, ReadHeld), With(held, t, x, ReadHit);
    var s3, s4 := With(held, t, x, ReadCopied(s.items)), With(s, t, x, Returned(s.items));
    assert Next(s, step) == s1;
    AtWith(held, t, x, ReadHeld, ReadHit);
    assert Next(s1, step) == s2;
    AtWith(held, t, x, ReadHit, ReadCopied(s.items));
    assert Next(s2, step) == s3;
    AtWith(held, t, x, ReadCopied(s.items), Returned(s.items));
    assert s.readers + {t} - {t} == s.readers;
    assert Next(s3, step) == s4;
    FourSteps(s, step, s1, s2, s3, s4);
  }

  // ----- One caller at a time -----

  predicate Idle(s: State) { s.readers == {} && s.writer == None }

  /** Caller `t` calls `time` later and takes `n` steps, `answer` being what a fetch would bring. */
  function CallAlone(time: nat, t: nat, answer: Option<Items>, n: nat): seq<Action> {
    if n == 0 then [Elapse(time)] + [Call(t)] else CallAlone(time, t, answer, n - 1) + [Step(t, answer)]
  }

  /** What `Get` leaves behind when nobody else is about. */
  function GetAlone(s: State, t: nat, answer: Option<Items>): State {
    var now := s.clock;
    if now < s.expiresAt then s.(threads := s.threads[t := Thread(now, Returned(s.items))])
    else if answer.None? then s.(threads := s.threads[t := Thread(now, Errored)])
    else s.(threads := s.threads[t := Thread(now, Returned(answer.value))], items := answer.value,
            expiresAt := now + s.ttl, fetches := s.fetches + [Fetch(now, answer.value)])
  }

  /** A call that finds the cache live, after `k` of its steps. */
  function HitAt(s: State, t: nat, x: Thread, k: nat): State {
    var held := s.(readers := {t});
    if k == 0 then With(s, t, x, Called)
    else if k == 1 then With(held, t, x, ReadHeld)
    else if k == 2 then With(held, t, x, ReadHit)
    else if k == 3 then With(held, t, x, ReadCopied(s.items))
    else With(s, t, x, Returned(s.items))
  }

  lemma HitStep(s: State, t: nat, x: Thread, answer: Option<Items>, k: nat)
    requires Idle(s) && x.now < s.expiresAt
    ensures Next(HitAt(s, t, x, k), Step(t, answer)) == HitAt(s, t, x, k + 1)
  {
    var held := s.(readers := {t});
    if k == 0 {
      AtWith(s, t, x, Called, ReadHeld);
    } else if k == 1 {
      AtWith(held, t, x, ReadHeld, ReadHit);
    } else if k == 2 {
      AtWith(held, t, x, ReadHit, ReadCopied(s.items));
    } else if k == 3 {
      AtWith(held, t, x, ReadCopied(s.items), Returned(s.items));
    }
  }

  /** The same for a call that finds the cache expired, up to its fetch. */
  function MissAt(s: State, t: nat, x: Thread, k: nat): State
    requires k <= 5
  {
    var held, locked := s.(readers := {t}), s.(writer := Some(t));
    if k == 0 then With(s, t, x, Called)
    else if k == 1 then With(held, t, x, ReadHeld)
    else if k == 2 then With(held, t, x, ReadMiss)
    else if k == 3 then With(s, t, x, WantWrite)
    else if k == 4 then With(locked, t, x, WriteHeld)
    else With(locked, t, x, Fetching)
  }

  lemma MissStep(s: State, t: nat, x: Thread, answer: Option<Items>, k: nat)
    requires Idle(s) && x.now >= s.expiresAt && k < 5
    ensures Next(MissAt(s, t, x, k), Step(t, answer)) == MissAt(s, t, x, k + 1)
  {
    var held, locked := s.(readers := {t}), s.(writer := Some(t));
    if k == 0 {
      AtWith(s, t, x, Called, ReadHeld);
    } else if k == 1 {
      AtWith(held, t, x, ReadHeld, ReadMiss);
    } else if k == 2 {
      AtWith(held, t, x, ReadMiss, WantWrite);
    } else if k == 3 {
      AtWith(s, t, x, WantWrite, WriteHeld);
    } else {
      AtWith(locked, t, x, WriteHeld, Fetching);
    }
  }

  /** And from its fetch on, five steps in. */
  function FetchAt(s: State, t: nat, x: Thread, answer: Option<Items>, k: nat): State
    requires k >= 5
  {
    var locked := s.(writer := Some(t));
    if k == 5 then With(locked, t, x, Fetching)
    else if answer.None? then (if k == 6 then With(locked, t, x, FetchFailed) else With(s, t, x, Errored))
    else
      var v := answer.value;
      var fetched := locked.(fetches := s.fetches + [Fetch(x.now, v)]);
      if k == 6 then With(fetched, t, x, Fetched(v))
      else if k == 7 then With(fetched.(items := v), t, x, ItemsStored(v))
      else if k == 8 then With(fetched.(items := v, expiresAt := x.now + s.ttl), t, x, Stored(v))
      else With(fetched.(items := v, expiresAt := x.now + s.ttl, writer := None), t, x, Returned(v))
  }

  lemma FailStep(s: State, t: nat, x: Thread, k: nat)
    requires Idle(s) && k >= 5
    ensures Next(FetchAt(s, t, x, None, k), Step(t, None)) == FetchAt(s, t, x, None, k + 1)
  {
    var locked := s.(writer := Some(t));
    if k == 5 {
      AtWith(locked, t, x, Fetching, FetchFailed);
    } else if k == 6 {
      AtWith(locked, t, x, FetchFailed, Errored);
    }
  }

  lemma BringStep(s: State, t: nat, x: Thread, v: Items, k: nat)
    requires Idle(s) && k >= 5
    ensures Next(FetchAt(s, t, x, Some(v), k), Step(t, Some(v))) == FetchAt(s, t, x, Some(v), k + 1)
  {
    var fetched := s.(writer := Some(t), fetches := s.fetches + [Fetch(x.now, v)]);
    if k == 5 {
      AtWith(s.(writer := Some(t)), t, x, Fetching, Fetched(v));
    } else if k == 6 {
      AtWith(fetched, t, x, Fetched(v), ItemsStored(v));
    } else if k == 7 {
      AtWith(fetched.(items := v), t, x, ItemsStored(v), Stored(v));
    } else if k == 8 {
      AtWith(fetched.(items := v, expiresAt := x.now + s.ttl), t, x, Stored(v), Returned(v));
    }
  }

  function PhaseAt(s: State, t: nat, x: Thread, answer: Option<Items>, k: nat): State {
    if x.now < s.expiresAt then HitAt(s, t, x, k)
    else if k < 5 then MissAt(s, t, x, k)
    else FetchAt(s, t, x, answer, k)
  }

  lemma PhaseStep(s: State, t: nat, x: Thread, answer: Option<Items>, k: nat, next: nat)
    requires Idle(s) && next == k + 1
    ensures Next(PhaseAt(s, t, x, answer, k), Step(t, answer)) == PhaseAt(s, t, x, answer, next)
  {
    if x.now < s.expiresAt {
      HitStep(s, t, x, answer, k);
    } else if k < 5 {
      MissStep(s, t, x, answer, k);
      assert MissAt(s, t, x, 5) == FetchAt(s, t, x, answer, 5);
    } else {
      if answer.None? { FailStep(s, t, x, k); } else { BringStep(s, t, x, answer.value, k); }
    }
  }

  lemma AloneOpens(s: State, time: nat, t: nat, answer: Option<Items>)
    requires Idle(s) && t !in s.threads
    ensures var now := s.clock + time;
      Behave(s, CallAlone(time, t, answer, 0)) == s.(clock := now, threads := s.threads[t := Thread(now, Called)])
  {
    BehaveSnoc(s, [], Elapse(time));
    assert [] + [Elapse(time)] == [Elapse(time)];
    BehaveSnoc(s, [Elapse(time)], Call(t));
  }

  /** The states of a trace in which caller `t` makes every step. */
  ghost predicate StepsOf(trace: seq<State>, t: nat, answer: Option<Items>) {
    forall k: nat | k + 1 < |trace| :: Next(trace[k], Step(t, answer)) == trace[k + 1]
  }

  lemma {:induction false} FollowsTrace(s: State, time: nat, t: nat, answer: Option<Items>, trace: seq<State>, n: nat)
    requires n < |trace| && StepsOf(trace, t, answer) && trace[0] == Behave(s, CallAlone(time, t, answer, 0))
    ensures Behave(s, CallAlone(time, t, answer, n)) == trace[n]
  {
    if n > 0 {
      FollowsTrace(s, time, t, answer, trace, n - 1);
      BehaveSnoc(s, CallAlone(time, t, answer, n - 1), Step(t, answer));
      assert Next(trace[n - 1], Step(t, answer)) == trace[n - 1 + 1];
    }
  }

  function Phases(s: State, t: nat, x: Thread, answer: Option<Items>, n: nat): (trace: seq<State>)
    ensures |trace| == n + 1
  {
    seq(n + 1, k requires 0 <= k < n + 1 => PhaseAt(s, t, x, answer, k))
  }

  lemma FirstPhase(s: State, t: nat, x: Thread, answer: Option<Items>, n: nat)
    requires x.pc == Called
    ensures Phases(s, t, x, answer, n)[0] == s.(threads := s.threads[t := x])
  {
  }

  lemma LastPhase(s: State, t: nat, x: Thread, answer: Option<Items>, n: nat)
    requires Idle(s) && x == Thread(s.clock, Called) && n >= 9
    ensures Phases(s, t, x, answer, n)[n] == GetAlone(s, t, answer)
  {
  }

  lemma PhasesAreSteps(s: State, t: nat, x: Thread, answer: Option<Items>, n: nat)
    requires Idle(s)
    ensures StepsOf(Phases(s, t, x, answer, n), t, answer)
  {
    var trace := Phases(s, t, x, answer, n);
    forall k: nat | k + 1 < |trace| ensures Next(trace[k], Step(t, answer)) == trace[k + 1] {
      PhaseStep(s, t, x, answer, k, k + 1);
    }
  }

  /**
   With nobody else about, a call gets through by itself, in nine steps at most: a live cache answers from memory, an
   expired one asks the fetch once and returns and keeps what it brings, or fails with it and keeps nothing.
   */
  lemma AloneGets(s: State, time: nat, t: nat, answer: Option<Items>, n: nat)
    requires Idle(s) && t !in s.threads && n >= 9
    ensures Behave(s, CallAlone(time, t, answer, n)) == GetAlone(s.(clock := s.clock + time), t, answer)
  {
    var r := s.(clock := s.clock + time);
    var x := Thread(r.clock, Called);
    AloneOpens(s, time, t, answer);
    FirstPhase(r, t, x, answer, n);
    PhasesAreSteps(r, t, x, answer, n);
    FollowsTrace(s, time, t, answer, Phases(r, t, x, answer, n), n);
    LastPhase(r, t, x, answer, n);
  }
}
