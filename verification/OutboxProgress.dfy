/**
 One worker's ticks in sequence: what a tick does, how soon an event is reached although failing events stay at the
 head of the id order, and when it is never reached.
 */
module OutboxProgress {
  import opened Ordering
  import opened OutboxWorkers
  import opened Arithmetic

  /** No call numbered from .. to-1 fails. */
  ghost predicate AllWell(fails: set<nat>, from: nat, to: nat) {
    forall k: nat | from <= k < to :: k !in fails
  }

  lemma AllWellTo(fails: set<nat>, from: nat, mid: nat, to: nat)
    requires from <= mid <= to
    ensures AllWell(fails, from, to) <==> AllWell(fails, from, mid) && AllWell(fails, mid, to)
  {
  }

  /** The events the handler accepts. */
  function Handled(events: seq<nat>, handler: nat -> bool): set<nat> {
    set e | e in events && handler(e)
  }

  lemma HandledSnoc(events: seq<nat>, e: nat, handler: nat -> bool)
    ensures Handled(events + [e], handler) == Handled(events, handler) + if handler(e) then {e} else {}
  {
  }

  /** The processed set after a committed tick. */
  function Served(visible: set<nat>, processed: set<nat>, limit: int, handler: nat -> bool): set<nat> {
    processed + Handled(Pending(visible - processed, limit), handler)
  }

  /** outbox_events, the rows other transactions have locked, and which calls to the database fail. */
  class Store {
    var visible: set<nat>
    var processed: set<nat>
    var locked: set<nat>
    var calls: nat
    const fails: set<nat>

    constructor (fails: set<nat>)
      ensures visible == processed == locked == {} && calls == 0 && this.fails == fails
    {
      visible, processed, locked := {}, {}, {};
      calls, this.fails := 0, fails;
    }

    method Call() returns (fault: bool)
      modifies this`calls
      ensures calls == old(calls) + 1
      ensures fault <==> !AllWell(fails, old(calls), calls)
    {
      fault := calls in fails;
      calls := calls + 1;
    }

    /** Hands every claimed event to the handler and marks those it accepts, up to the first mark that fails. */
    method HandleAll(events: seq<nat>, handler: nat -> bool) returns (marks: set<nat>, ok: bool)
      modifies this`calls
      ensures calls >= old(calls) && (ok <==> AllWell(fails, old(calls), calls))
      ensures ok ==> marks == Handled(events, handler)
    {
      marks := {};
      for i := 0 to |events|
        invariant marks == Handled(events[..i], handler)
        invariant calls >= old(calls) && AllWell(fails, old(calls), calls)
      {
        HandledSnoc(events[..i], events[i], handler);
        assert events[..i + 1] == events[..i] + [events[i]];
        if !handler(events[i]) {
          continue;
        }
        var fault := Call();
        if fault {
          return marks, false;
        }
        marks := marks + {events[i]};
      }
      assert events[..|events|] == events;
      ok := true;
    }

    /**
     One poll: exactly the claimed events the handler accepts become processed, or, when one of its calls to the
     database fails and only then, none.
     */
    method Tick(limit: int, handler: nat -> bool) returns (ok: bool)
      modifies this`processed, this`calls
      ensures calls >= old(calls) && (ok <==> AllWell(fails, old(calls), calls))
      ensures ok ==> processed == Served(visible - locked, old(processed), limit, handler)
      ensures !ok ==> processed == old(processed)
    {
      ghost var from := calls;
      var fault := Call();
      if fault {
        return false;
      }
      fault := Call();
      if fault {
        return false;
      }
      var events := Pending(visible - locked - processed, limit);
      if |events| == 0 {
        fault := Call();
        return !fault;
      }
      ghost var claimed := calls;
      var marks, marked := HandleAll(events, handler);
      AllWellTo(fails, from, claimed, calls);
      if !marked {
        return false;
      }
      ghost var handled := calls;
      fault := Call();
      AllWellTo(fails, from, handled, calls);
      if !fault {
        processed := processed + marks;
      }
      ok := !fault;
    }
  }

  datatype Queue = Queue(visible: set<nat>, processed: set<nat>)

  function Refusing(bad: set<nat>): nat -> bool { (e: nat) => e !in bad }

  /** New events become visible, then one tick commits; the handler fails exactly on `bad`. */
  function Round(q: Queue, arrive: set<nat>, limit: int, bad: set<nat>): Queue {
    Queue(q.visible + arrive, Served(q.visible + arrive, q.processed, limit, Refusing(bad)))
  }

  function Rounds(q: Queue, arrivals: seq<set<nat>>, limit: int, bad: set<nat>): Queue {
    if arrivals == [] then q else
      Round(Rounds(q, arrivals[..|arrivals| - 1], limit, bad), arrivals[|arrivals| - 1], limit, bad)
  }

  function Below(s: set<nat>, e: nat): set<nat> { set x | x in s && x < e }

  function Elements(ids: seq<nat>): set<nat> { set x | x in ids }

  lemma {:induction false} DistinctSize(ids: seq<nat>)
    requires Distinct(ids)
    ensures |Elements(ids)| == |ids|
  {
    if ids == [] {
      assert Elements(ids) == {};
    } else {
      var front, last := ids[..|ids| - 1], ids[|ids| - 1];
      DistinctSize(front);
      assert last !in front;
      assert Elements(ids) == Elements(front) + {last};
    }
  }

  /** The claimed ids in order: a prefix of the sorted available ones. */
  lemma PendingPrefix(available: set<nat>, limit: int) returns (ids: seq<nat>)
    ensures Pending(available, limit) == Take(ids, Limit(limit))
    ensures forall x :: x in ids <==> x in available
    ensures forall i, j | 0 <= i < j < |ids| :: ids[i] < ids[j]
  {
    NatsTotal(available);
    ids := SortBy(available, NatLess);
    assert forall i, j | 0 <= i < j < |ids| :: NatLess(ids[i], ids[j]);
  }

  /** An available event that is not claimed has a full batch of smaller ids claimed before it. */
  lemma {:induction false} PassedOver(available: set<nat>, limit: int, e: nat)
    requires e in available && e !in Pending(available, limit)
    ensures |Elements(Pending(available, limit))| == Limit(limit)
    ensures forall x | x in Pending(available, limit) :: x in available && x < e
  {
    var ids := PendingPrefix(available, limit);
    var n := Limit(limit);
    var at :| 0 <= at < |ids| && ids[at] == e;
    assert |ids| > n && Pending(available, limit) == ids[..n];
    assert forall i | 0 <= i < n :: ids[..n][i] == ids[i];
    DistinctSize(ids[..n]);
  }

  lemma SubsetSize(a: set<nat>, b: set<nat>)
    requires a <= b
    ensures |a| <= |b|
  {
    assert b == a + (b - a);
  }

  lemma RoundProcesses(q: Queue, arrive: set<nat>, limit: int, bad: set<nat>)
    ensures Round(q, arrive, limit, bad).processed ==
        q.processed + (Elements(Pending(q.visible + arrive - q.processed, limit)) - bad)
  {
    var events := Pending(q.visible + arrive - q.processed, limit);
    assert forall x :: Refusing(bad)(x) <==> x !in bad;
    assert Handled(events, Refusing(bad)) == Elements(events) - bad;
  }

  lemma SizeOfParts(a: set<nat>, b: set<nat>, whole: set<nat>)
    requires whole == a + b && a !! b
    ensures |whole| == |a| + |b|
  {
  }

  lemma BatchAdvances(ahead: set<nat>, crowd: set<nat>, processed: set<nat>, claimed: set<nat>, bad: set<nat>, f: nat)
    requires claimed !! processed && claimed - bad <= ahead && claimed * bad <= crowd && |crowd| <= f
    ensures |ahead - (processed + (claimed - bad))| <= |ahead - processed| - (|claimed| - f)
  {
    var good, left := claimed - bad, ahead - (processed + (claimed - bad));
    assert claimed == good + claimed * bad;
    SizeOfParts(good, claimed * bad, claimed);
    SubsetSize(claimed * bad, crowd);
    assert ahead - processed == left + good;
    SizeOfParts(left, good, ahead - processed);
  }

  /** A tick that does not reach `e` processes at least limit - f good events ahead of it. */
  lemma {:induction false} RoundAdvances(q: Queue, arrive: set<nat>, limit: int, bad: set<nat>, e: nat, f: nat,
        ahead: set<nat>, crowd: set<nat>)
    requires e in q.visible && e !in bad && |crowd| <= f
    requires Below(bad * (q.visible + arrive) - q.processed, e) <= crowd
    requires e !in Round(q, arrive, limit, bad).processed && e !in q.processed
    requires Below(q.visible + arrive, e) - bad - q.processed <= ahead
    ensures |ahead - Round(q, arrive, limit, bad).processed| <= |ahead - q.processed| - (Limit(limit) - f)
  {
    var available := q.visible + arrive - q.processed;
    RoundProcesses(q, arrive, limit, bad);
    var claimed := Elements(Pending(available, limit));
    assert e !in claimed;
    PassedOver(available, limit, e);
    assert claimed <= Below(available, e);
    BatchAdvances(ahead, crowd, q.processed, claimed, bad, f);
  }

  /** The good unprocessed events of smaller id, in-flight inserts counted. */
  function Ahead(q: Queue, inserting: set<nat>, bad: set<nat>, e: nat): set<nat> {
    Below(q.visible + inserting, e) - bad - q.processed
  }

  /** The failing unprocessed events of smaller id, in-flight inserts counted. */
  function Crowd(q: Queue, inserting: set<nat>, bad: set<nat>, e: nat): set<nat> {
    Below(bad * (q.visible + inserting) - q.processed, e)
  }

  predicate LateArrivals(arrivals: seq<set<nat>>, inserting: set<nat>, e: nat) {
    forall a | a in arrivals :: Below(a, e) <= inserting
  }

  lemma {:induction false} RoundsOnlyGrow(q: Queue, arrivals: seq<set<nat>>, limit: int, bad: set<nat>,
        inserting: set<nat>, e: nat)
    requires LateArrivals(arrivals, inserting, e)
    ensures var r := Rounds(q, arrivals, limit, bad);
      q.visible <= r.visible && q.processed <= r.processed && Below(r.visible, e) <= q.visible + inserting
  {
    if arrivals != [] {
      assert arrivals[|arrivals| - 1] in arrivals;
      RoundsOnlyGrow(q, arrivals[..|arrivals| - 1], limit, bad, inserting, e);
    }
  }

  lemma StillAhead(q: Queue, m: Queue, arrive: set<nat>, inserting: set<nat>, bad: set<nat>, e: nat)
    requires q.processed <= m.processed && Below(m.visible, e) <= q.visible + inserting && Below(arrive, e) <= inserting
    ensures Below(m.visible + arrive, e) - bad - m.processed <= Ahead(q, inserting, bad, e)
    ensures Below(bad * (m.visible + arrive) - m.processed, e) <= Crowd(q, inserting, bad, e)
  {
    forall x | x in Below(m.visible + arrive, e) ensures x in Below(q.visible + inserting, e) {
      assert x in Below(m.visible, e) || x in Below(arrive, e);
    }
  }

  lemma {:induction false} WaitingCosts(q: Queue, inserting: set<nat>, arrivals: seq<set<nat>>, limit: int,
        bad: set<nat>, e: nat, f: nat)
    requires e in q.visible && e !in bad && |Crowd(q, inserting, bad, e)| <= f < Limit(limit)
    requires LateArrivals(arrivals, inserting, e)
    requires e !in Rounds(q, arrivals, limit, bad).processed
    ensures |arrivals| * (Limit(limit) - f) <=
      |Ahead(q, inserting, bad, e)| - |Ahead(q, inserting, bad, e) - Rounds(q, arrivals, limit, bad).processed|
  {
    var ahead := Ahead(q, inserting, bad, e);
    if arrivals == [] {
      assert ahead - q.processed == ahead;
    } else {
      var front, last := arrivals[..|arrivals| - 1], arrivals[|arrivals| - 1];
      var m := Rounds(q, front, limit, bad);
      assert last in arrivals;
      RoundsOnlyGrow(q, front, limit, bad, inserting, e);
      WaitingCosts(q, inserting, front, limit, bad, e, f);
      StillAhead(q, m, last, inserting, bad, e);
      RoundAdvances(m, last, limit, bad, e, f, ahead, Crowd(q, inserting, bad, e));
      OneMore(|front|, Limit(limit) - f);
    }
  }

  /**
   The progress bound: a visible good event with r good unprocessed events of smaller id ahead of it (in-flight
   inserts counted), and at most f unprocessed failing ones, f below the batch size, is processed within
   r / (batch - f) + 1 committed ticks, whatever larger ids arrive.
   */
  lemma {:induction false} ReachedInTime(q: Queue, inserting: set<nat>, arrivals: seq<set<nat>>, limit: int,
        bad: set<nat>, e: nat, f: nat)
    requires e in q.visible && e !in bad && |Crowd(q, inserting, bad, e)| <= f < Limit(limit)
    requires LateArrivals(arrivals, inserting, e)
    requires |arrivals| >= |Ahead(q, inserting, bad, e)| / (Limit(limit) - f) + 1
    ensures e in Rounds(q, arrivals, limit, bad).processed
  {
    AboveQuotient(|arrivals|, Limit(limit) - f, |Ahead(q, inserting, bad, e)|);
    if e !in Rounds(q, arrivals, limit, bad).processed {
      WaitingCosts(q, inserting, arrivals, limit, bad, e, f);
    }
  }

  /** In an ascending list of a set at most `at` elements are smaller than the one at position `at`. */
  lemma {:induction false} RankBelow(ids: seq<nat>, available: set<nat>, at: nat)
    requires at < |ids| && (forall i, j | 0 <= i < j < |ids| :: ids[i] < ids[j])
    requires forall x :: x in ids <==> x in available
    ensures |Below(available, ids[at])| <= at
  {
    forall x | x in Below(available, ids[at]) ensures x in Elements(ids[..at]) {
      var i :| 0 <= i < |ids| && ids[i] == x;
      assert i < at;
    }
    DistinctSize(ids[..at]);
    SubsetSize(Below(available, ids[at]), Elements(ids[..at]));
  }

  /** An available event with a full batch of smaller available ids is not claimed. */
  lemma {:induction false} CrowdedOut(available: set<nat>, limit: int, e: nat)
    requires |Below(available, e)| >= Limit(limit)
    ensures e !in Pending(available, limit)
  {
    var ids := PendingPrefix(available, limit);
    if e in Pending(available, limit) {
      var at :| 0 <= at < |Pending(available, limit)| && Pending(available, limit)[at] == e;
      assert ids[at] == e && at < Limit(limit);
      RankBelow(ids, available, at);
    }
  }

  lemma StillCrowded(q: Queue, m: Queue, arrive: set<nat>, bad: set<nat>, e: nat)
    requires bad * m.processed == bad * q.processed && q.visible <= m.visible
    ensures |Below(m.visible + arrive - m.processed, e)| >= |Below(bad * q.visible - q.processed, e)|
  {
    forall x | x in Below(bad * q.visible - q.processed, e) ensures x in Below(m.visible + arrive - m.processed, e) {
      assert x in bad * m.processed <==> x in bad * q.processed;
    }
    SubsetSize(Below(bad * q.visible - q.processed, e), Below(m.visible + arrive - m.processed, e));
  }

  /** With a whole batch of failing events of smaller id at the head, an event is never processed. */
  lemma {:induction false} Starved(q: Queue, arrivals: seq<set<nat>>, limit: int, bad: set<nat>, e: nat)
    requires e !in q.processed && |Below(bad * q.visible - q.processed, e)| >= Limit(limit)
    ensures e !in Rounds(q, arrivals, limit, bad).processed
    ensures bad * Rounds(q, arrivals, limit, bad).processed == bad * q.processed
    ensures q.visible <= Rounds(q, arrivals, limit, bad).visible
  {
    if arrivals != [] {
      var front, last := arrivals[..|arrivals| - 1], arrivals[|arrivals| - 1];
      Starved(q, front, limit, bad, e);
      var m := Rounds(q, front, limit, bad);
      StillCrowded(q, m, last, bad, e);
      CrowdedOut(m.visible + last - m.processed, limit, e);
      RoundProcesses(m, last, limit, bad);
    }
  }

  /** The first `n` ticks of a worker before whose tick `k` the events `arriving(k)` become visible. */
  function Ticks(arriving: nat -> set<nat>, n: nat): (r: seq<set<nat>>)
    ensures |r| == n && forall k | 0 <= k < n :: r[k] == arriving(k)
  {
    seq(n, k requires 0 <= k < n => arriving(k))
  }

  /** After some number of committed ticks `e` is processed. */
  ghost predicate Reached(q: Queue, arriving: nat -> set<nat>, limit: int, bad: set<nat>, e: nat) {
    exists n: nat :: e in Rounds(q, Ticks(arriving, n), limit, bad).processed
  }

  /**
   Which good events are ever reached, whatever larger ids keep arriving: exactly those with fewer than a batch of
   unprocessed failing events of smaller id.
   */
  lemma ReachedIffUncrowded(q: Queue, arriving: nat -> set<nat>, limit: int, bad: set<nat>, e: nat)
    requires e in q.visible && e !in q.processed && e !in bad
    requires forall k: nat :: Below(arriving(k), e) == {}
    ensures Reached(q, arriving, limit, bad, e) <==> |Crowd(q, {}, bad, e)| < Limit(limit)
  {
    assert bad * (q.visible + {}) == bad * q.visible;
    if |Crowd(q, {}, bad, e)| < Limit(limit) {
      var f := |Crowd(q, {}, bad, e)|;
      var n := |Ahead(q, {}, bad, e)| / (Limit(limit) - f) + 1;
      ReachedInTime(q, {}, Ticks(arriving, n), limit, bad, e, f);
    } else {
      forall n: nat ensures e !in Rounds(q, Ticks(arriving, n), limit, bad).processed {
        Starved(q, Ticks(arriving, n), limit, bad, e);
      }
    }
  }

  // ----- The bound is attained -----

  /** Ticks between which nothing arrives. */
  function Idle(n: nat): seq<set<nat>> { seq(n, _ => {}) }

  /** `s` holds exactly the ids from .. to-1. */
  ghost predicate IsSpan(s: set<nat>, from: nat, to: nat) {
    forall x: nat :: x in s <==> from <= x < to
  }

  function Gapped(f: nat, from: nat, to: nat): (ids: seq<nat>)
    requires f <= from <= to
    ensures |ids| == f + (to - from) && forall i | 0 <= i < |ids| :: ids[i] == if i < f then i else from + (i - f)
  {
    seq(f + (to - from), i requires 0 <= i < f + (to - from) => if i < f then i else from + (i - f))
  }

  lemma {:induction false} GappedElements(f: nat, from: nat, to: nat, n: nat)
    requires f <= from <= to && f <= n <= f + (to - from)
    ensures forall x: nat :: x in Gapped(f, from, to)[..n] <==> x < f || from <= x < from + (n - f)
  {
    var ids := Gapped(f, from, to)[..n];
    forall x: nat ensures x in ids <==> x < f || from <= x < from + (n - f) {
      if x < f {
        assert ids[x] == x;
      } else if from <= x < from + (n - f) {
        assert ids[f + (x - from)] == x;
      }
    }
  }

  /** The first ids of a gapped range: all of the head, then the start of the rest. */
  lemma {:induction false} FirstOfGapped(s: set<nat>, f: nat, from: nat, to: nat, batch: nat)
    requires f <= from && f < batch && from + (batch - f) < to
    requires forall x: nat :: x in s <==> x < f || from <= x < to
    ensures forall x: nat :: x in Pending(s, batch) <==> x < f || from <= x < from + (batch - f)
  {
    var ids := Gapped(f, from, to);
    GappedElements(f, from, to, |ids|);
    assert ids[..|ids|] == ids;
    NatsTotal(s);
    SortByUnique(ids, s, NatLess);
    assert Pending(s, batch) == ids[..batch];
    GappedElements(f, from, to, batch);
  }

  lemma SpanLeft(visible: set<nat>, processed: set<nat>, f: nat, from: nat, to: nat)
    requires f <= from <= to && IsSpan(visible, 0, to) && IsSpan(processed, f, from)
    ensures forall x: nat :: x in visible - processed <==> x < f || from <= x < to
  {
  }

  lemma SpanGrows(claimed: seq<nat>, bad: set<nat>, processed: set<nat>, f: nat, from: nat, d: nat)
    requires f <= from && IsSpan(bad, 0, f) && IsSpan(processed, f, from)
    requires forall x: nat :: x in claimed <==> x < f || from <= x < from + d
    ensures IsSpan(processed + (Elements(claimed) - bad), f, from + d)
  {
  }

  lemma {:induction false} AttainStep(m: Queue, bad: set<nat>, r: nat, f: nat, batch: nat, from: nat, next: Queue)
    requires f < batch && f <= from && from + (batch - f) <= f + r
    requires IsSpan(m.visible, 0, f + r + 1) && IsSpan(m.processed, f, from) && IsSpan(bad, 0, f)
    requires next == Round(m, {}, batch, bad)
    ensures next.visible == m.visible && IsSpan(next.processed, f, from + (batch - f))
  {
    RoundProcesses(m, {}, batch, bad);
    assert m.visible + {} == m.visible;
    SpanLeft(m.visible, m.processed, f, from, f + r + 1);
    FirstOfGapped(m.visible - m.processed, f, from, f + r + 1, batch);
    SpanGrows(Pending(m.visible - m.processed, batch), bad, m.processed, f, from, batch - f);
  }

  /** `k` ticks at `d` events each. */
  function Paid(k: nat, d: nat): nat {
    if k == 0 then 0 else Paid(k - 1, d) + d
  }

  lemma {:induction false} PaidIsProduct(k: nat, d: nat)
    ensures Paid(k, d) == k * d
  {
    if k > 0 {
      PaidIsProduct(k - 1, d);
      OneMore(k - 1, d);
    }
  }

  /** f failing events at the head, then r good ones and the event itself, nothing processed yet. */
  ghost predicate Queued(q: Queue, bad: set<nat>, r: nat, f: nat) {
    IsSpan(q.visible, 0, f + r + 1) && q.processed == {} && IsSpan(bad, 0, f)
  }

  lemma OneMoreRound(q: Queue, k: nat, limit: int, bad: set<nat>, m: Queue)
    requires k > 0 && m == Rounds(q, Idle(k - 1), limit, bad)
    ensures Rounds(q, Idle(k), limit, bad) == Round(m, {}, limit, bad)
  {
    assert Idle(k)[..k - 1] == Idle(k - 1);
  }

  /** After `k` ticks exactly the first k * (batch - f) good events are processed. */
  ghost predicate Attained(q: Queue, bad: set<nat>, f: nat, batch: nat, k: nat)
    requires f < batch
  {
    var m := Rounds(q, Idle(k), batch, bad);
    m.visible == q.visible && IsSpan(m.processed, f, f + Paid(k, batch - f))
  }

  lemma AttainedAtFirst(q: Queue, bad: set<nat>, r: nat, f: nat, batch: nat)
    requires Queued(q, bad, r, f) && f < batch
    ensures Attained(q, bad, f, batch, 0)
  {
    assert Idle(0) == [];
  }

  lemma AttainedNext(q: Queue, bad: set<nat>, r: nat, f: nat, batch: nat, k: nat)
    requires Queued(q, bad, r, f) && f < batch && k > 0 && Paid(k, batch - f) <= r && Attained(q, bad, f, batch, k - 1)
    ensures Attained(q, bad, f, batch, k)
  {
    var m := Rounds(q, Idle(k - 1), batch, bad);
    OneMoreRound(q, k, batch, bad, m);
    AttainStep(m, bad, r, f, batch, f + Paid(k - 1, batch - f), Rounds(q, Idle(k), batch, bad));
  }

  lemma {:induction false} AttainRun(q: Queue, bad: set<nat>, r: nat, f: nat, batch: nat, k: nat)
    requires Queued(q, bad, r, f) && f < batch && Paid(k, batch - f) <= r
    ensures Attained(q, bad, f, batch, k)
  {
    if k == 0 {
      AttainedAtFirst(q, bad, r, f, batch);
    } else {
      AttainRun(q, bad, r, f, batch, k - 1);
      AttainedNext(q, bad, r, f, batch, k);
    }
  }

  lemma {:induction false} SpanSize(s: set<nat>, from: nat, to: nat)
    requires from <= to && IsSpan(s, from, to)
    ensures |s| == to - from
  {
    if from == to {
      assert s == {};
    } else {
      var last: nat := to - 1;
      SpanSize(s - {last}, from, last);
      assert s == (s - {last}) + {last};
    }
  }

  lemma GoodAhead(q: Queue, bad: set<nat>, r: nat, f: nat)
    requires Queued(q, bad, r, f)
    ensures |Ahead(q, {}, bad, f + r)| == r
  {
    SpanSize(Ahead(q, {}, bad, f + r), f, f + r);
  }

  lemma FailingAhead(q: Queue, bad: set<nat>, r: nat, f: nat)
    requires Queued(q, bad, r, f)
    ensures |Crowd(q, {}, bad, f + r)| == f
  {
    SpanSize(Crowd(q, {}, bad, f + r), 0, f);
  }

  /**
   Sharpness: with f failing events at the head and r good ones before e, which is what `ReachedInTime` counts, e is
   still waiting after every number of ticks k with k * (batch - f) <= r.
   */
  lemma {:induction false} BoundAttained(q: Queue, bad: set<nat>, r: nat, f: nat, batch: nat, k: nat)
    requires Queued(q, bad, r, f) && f < batch && k * (batch - f) <= r
    ensures |Ahead(q, {}, bad, f + r)| == r && |Crowd(q, {}, bad, f + r)| == f
    ensures f + r !in Rounds(q, Idle(k), batch, bad).processed
  {
    GoodAhead(q, bad, r, f);
    FailingAhead(q, bad, r, f);
    PaidIsProduct(k, batch - f);
    AttainRun(q, bad, r, f, batch, k);
  }
}
