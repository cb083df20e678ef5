/** The sessions table: create, find, delete, and the sweep that removes what has expired. */
module Sessions {
  import opened Ordering

  datatype Session = Session(id: string, user: nat, csrf: string, expiresAt: int, createdAt: int)

  type Table = map<string, Session>

  /** The session, unless it is missing or no longer valid at `now`. */
  function Lookup(t: Table, id: string, now: int): Option<Session> {
    if id in t && t[id].expiresAt > now then Some(t[id]) else None
  }

  function Expired(t: Table, now: int): set<string> {
    set id | id in t && t[id].expiresAt <= now
  }

  datatype Op =
    | Create(id: string, user: nat, ttl: int, csrf: string, now: int)
    | Find(id: string, now: int)
    | Delete(id: string)
    | Sweep(upTo: int, now: int)

  function Apply(t: Table, op: Op): Table {
    match op
    case Create(id, user, ttl, csrf, now) => if id in t then t else t[id := Session(id, user, csrf, now + ttl, now)]
    case Find(_, _) => t
    case Delete(id) => t - {id}
    case Sweep(upTo, _) => t - Expired(t, upTo)
  }

  class SessionStore {
    var rows: Table

    constructor ()
      ensures rows == map[]
    {
      rows := map[];
    }

    /** `id` is the random session id; the primary key rejects one already in use. */
    method Create(id: string, user: nat, ttl: int, csrf: string, now: int) returns (r: Option<Session>)
      modifies this
      ensures r.Some? <==> id !in old(rows)
      ensures r.Some? ==> r.value == Session(id, user, csrf, now + ttl, now) && rows == old(rows)[id := r.value]
      ensures r.None? ==> rows == old(rows)
      ensures rows == Apply(old(rows), Op.Create(id, user, ttl, csrf, now))
    {
      if id in rows {
        return None;
      }
      var s := Session(id, user, csrf, now + ttl, now);
      rows := rows[id := s];
      r := Some(s);
    }

    method Find(id: string, now: int) returns (r: Option<Session>)
      ensures r == Lookup(rows, id, now)
    {
      if id !in rows {
        return None;
      }
      if rows[id].expiresAt <= now {
        return None;
      }
      r := Some(rows[id]);
    }

    method Delete(id: string)
      modifies this
      ensures rows == Apply(old(rows), Op.Delete(id))
    {
      rows := rows - {id};
    }

    method DeleteExpired(now: int) returns (n: nat)
      modifies this
      ensures rows == Apply(old(rows), Sweep(now, now))
      ensures n == |old(rows)| - |rows|
    {
      var gone := Expired(rows, now);
      var left := rows - gone;
      assert left.Keys == rows.Keys - gone;
      assert |rows.Keys| == |left.Keys| + |gone| by {
        assert rows.Keys == left.Keys + gone;
      }
      rows := left;
      n := |gone|;
    }
  }

  // ----- Runs -----

  /** The answers of the `Find` calls of a run, in order. */
  function Answers(t: Table, ops: seq<Op>): seq<Option<Session>>
    decreases |ops|
  {
    if ops == [] then [] else
      (if ops[0].Find? then [Lookup(t, ops[0].id, ops[0].now)] else []) + Answers(Apply(t, ops[0]), ops[1..])
  }

  function WithoutSweeps(ops: seq<Op>): seq<Op> {
    if ops == [] then [] else (if ops[0].Sweep? then [] else [ops[0]]) + WithoutSweeps(ops[1..])
  }

  predicate Timed(op: Op) { !op.Delete? }

  /** Clock readings do not decrease, from `now` on, and no sweep goes past the clock. */
  predicate ClockOk(ops: seq<Op>, now: int) {
    if ops == [] then true
    else if Timed(ops[0]) then now <= ops[0].now && (ops[0].Sweep? ==> ops[0].upTo <= ops[0].now)
        && ClockOk(ops[1..], ops[0].now)
    else ClockOk(ops[1..], now)
  }

  /** No `Find` of `id` before `until` comes before the next `Delete` of it. */
  predicate Unsought(ops: seq<Op>, id: string, until: int)
    decreases |ops|
  {
    ops == [] || ops[0] == Op.Delete(id)
    || (!(ops[0].Find? && ops[0].id == id && ops[0].now < until) && Unsought(ops[1..], id, until))
  }

  /**
   No `Create` over an expired row - expired, and still there when nothing is swept - is followed by a `Find` of that
   id before the new session's expiry and before a `Delete` of the id.
   */
  predicate NoneRevived(full: Table, ops: seq<Op>)
    decreases |ops|
  {
    ops == [] || (
      var op, rest := ops[0], ops[1..];
      && (op.Create? && op.id in full && full[op.id].expiresAt <= op.now ==> Unsought(rest, op.id, op.now + op.ttl))
      && NoneRevived(if op.Sweep? then full else Apply(full, op), rest))
  }

  /**
   `swept` against `full`, the table had nothing been swept: rows may be missing that are expired at `now`, and in
   place of an expired row there may be a later session that no `Find` still to come can return.
   */
  ghost predicate Swept(full: Table, swept: Table, now: int, ops: seq<Op>) {
    && (forall id | id in swept :: id in full
          && (swept[id] == full[id] || (full[id].expiresAt <= now && Unsought(ops, id, swept[id].expiresAt))))
    && (forall id | id in full && id !in swept :: full[id].expiresAt <= now)
  }

  lemma {:induction false} StepStaysSwept(full: Table, swept: Table, ops: seq<Op>, now: int, later: int)
    requires ops != [] && later == (if Timed(ops[0]) then ops[0].now else now)
    requires Swept(full, swept, now, ops) && ClockOk(ops, now) && NoneRevived(full, ops)
    ensures Swept(if ops[0].Sweep? then full else Apply(full, ops[0]), Apply(swept, ops[0]), later, ops[1..])
  {
  }

  lemma {:induction false} SameAnswers(full: Table, swept: Table, ops: seq<Op>, now: int)
    requires Swept(full, swept, now, ops) && ClockOk(ops, now) && NoneRevived(full, ops)
    ensures Answers(swept, ops) == Answers(full, WithoutSweeps(ops))
    decreases |ops|
  {
    if ops != [] {
      var op, rest := ops[0], ops[1..];
      var later := if Timed(op) then op.now else now;
      StepStaysSwept(full, swept, ops, now, later);
      SameAnswers(if op.Sweep? then full else Apply(full, op), Apply(swept, op), rest, later);
      if !op.Sweep? {
        assert WithoutSweeps(ops)[1..] == WithoutSweeps(rest);
      } else {
        assert WithoutSweeps(ops) == WithoutSweeps(rest);
      }
    }
  }

  lemma {:induction false} UnsoughtWithoutSweeps(ops: seq<Op>, id: string, until: int)
    ensures Unsought(ops, id, until) <==> Unsought(WithoutSweeps(ops), id, until)
    decreases |ops|
  {
    if ops != [] {
      UnsoughtWithoutSweeps(ops[1..], id, until);
      if ops[0].Sweep? {
        assert WithoutSweeps(ops) == WithoutSweeps(ops[1..]);
      } else {
        assert WithoutSweeps(ops)[1..] == WithoutSweeps(ops[1..]);
      }
    }
  }

  lemma {:induction false} SweepsDoNotMatter(full: Table, ops: seq<Op>)
    ensures NoneRevived(full, ops) <==> NoneRevived(full, WithoutSweeps(ops))
    decreases |ops|
  {
    if ops != [] {
      var op, rest := ops[0], ops[1..];
      SweepsDoNotMatter(if op.Sweep? then full else Apply(full, op), rest);
      if op.Sweep? {
        assert WithoutSweeps(ops) == WithoutSweeps(rest);
      } else {
        assert WithoutSweeps(ops)[1..] == WithoutSweeps(rest);
        if op.Create? {
          UnsoughtWithoutSweeps(rest, op.id, op.now + op.ttl);
        }
      }
    }
  }

  /** A run without sweeps in it. */
  predicate Unswept(ops: seq<Op>) { forall op | op in ops :: !op.Sweep? }

  lemma {:induction false} WithoutSweepsOf(ops: seq<Op>)
    requires Unswept(ops)
    ensures WithoutSweeps(ops) == ops
    decreases |ops|
  {
    if ops != [] {
      assert ops[0] in ops && forall op | op in ops[1..] :: op in ops;
      WithoutSweepsOf(ops[1..]);
    }
  }

  lemma {:induction false} SameLength(a: Table, b: Table, ops: seq<Op>)
    ensures |Answers(a, ops)| == |Answers(b, ops)|
    decreases |ops|
  {
    if ops != [] {
      SameLength(Apply(a, ops[0]), Apply(b, ops[0]), ops[1..]);
    }
  }

  /** A live session standing in for an expired row is found out by the next `Find` that seeks it. */
  lemma {:induction false} FoundOut(full: Table, swept: Table, ops: seq<Op>, id: string, now: int)
    requires Unswept(ops) && ClockOk(ops, now)
    requires id in full && full[id].expiresAt <= now && id in swept && !Unsought(ops, id, swept[id].expiresAt)
    ensures |Answers(swept, ops)| == |Answers(full, ops)| && Answers(swept, ops) != Answers(full, ops)
    decreases |ops|
  {
    var op, rest := ops[0], ops[1..];
    assert op in ops && forall r | r in rest :: r in ops;
    if op.Find? && op.id == id && op.now < swept[id].expiresAt {
      SameLength(full, swept, rest);
      assert Answers(swept, ops)[0] == Some(swept[id]) && Answers(full, ops)[0] == None;
    } else {
      var later := if Timed(op) then op.now else now;
      FoundOut(Apply(full, op), Apply(swept, op), rest, id, later);
      var n := if op.Find? then 1 else 0;
      assert Answers(swept, ops)[n..] == Answers(Apply(swept, op), rest);
      assert Answers(full, ops)[n..] == Answers(Apply(full, op), rest);
    }
  }

  lemma SweepFirst(t: Table, ops: seq<Op>, sweep: Op)
    requires sweep.Sweep? && Unswept(ops)
    ensures WithoutSweeps([sweep] + ops) == ops && Answers(t, [sweep] + ops) == Answers(Apply(t, sweep), ops)
  {
    assert ([sweep] + ops)[1..] == ops;
    WithoutSweepsOf(ops);
  }

  /** `u` is `t` after a sweep just before the run: its first `Create` goes through, and is found out. */
  lemma {:induction false} RevivedDiffers(t: Table, u: Table, create: Op, rest: seq<Op>)
    requires Unswept(rest) && create.Create? && ClockOk(rest, create.now)
    requires create.id in t && t[create.id].expiresAt <= create.now && u == t - Expired(t, create.now)
    requires !Unsought(rest, create.id, create.now + create.ttl)
    ensures Answers(u, [create] + rest) != Answers(t, [create] + rest)
  {
    var ops := [create] + rest;
    assert ops[0] == create && ops[1..] == rest && Apply(t, create) == t;
    assert Answers(t, ops) == [] + Answers(t, rest) == Answers(t, rest);
    assert Answers(u, ops) == [] + Answers(Apply(u, create), rest) == Answers(Apply(u, create), rest);
    FoundOut(t, Apply(u, create), rest, create.id, create.now);
  }

  lemma {:induction false} SweepHere(t: Table, ops: seq<Op>, now: int, swept: seq<Op>)
    requires Unswept(ops) && ClockOk(ops, now) && ops != [] && ops[0].Create?
    requires ops[0].id in t && t[ops[0].id].expiresAt <= ops[0].now
    requires !Unsought(ops[1..], ops[0].id, ops[0].now + ops[0].ttl)
    requires swept == [Sweep(ops[0].now, ops[0].now)] + ops
    ensures ClockOk(swept, now) && WithoutSweeps(swept) == ops && Answers(t, swept) != Answers(t, ops)
  {
    var op, rest, sweep := ops[0], ops[1..], swept[0];
    assert swept[1..] == ops && ops == [op] + rest && forall r | r in rest :: r in ops;
    SweepFirst(t, ops, sweep);
    RevivedDiffers(t, Apply(t, sweep), op, rest);
  }

  lemma ShowsLater(t: Table, op: Op, rest: seq<Op>, tail: seq<Op>)
    requires !op.Sweep? && WithoutSweeps(tail) == rest && Answers(Apply(t, op), tail) != Answers(Apply(t, op), rest)
    ensures WithoutSweeps([op] + tail) == [op] + rest && Answers(t, [op] + tail) != Answers(t, [op] + rest)
  {
    assert ([op] + tail)[1..] == tail && ([op] + rest)[1..] == rest;
    var n := if op.Find? then 1 else 0;
    assert Answers(t, [op] + tail)[n..] == Answers(Apply(t, op), tail);
    assert Answers(t, [op] + rest)[n..] == Answers(Apply(t, op), rest);
  }

  /** Where a `Create` over an expired row can be found out, one sweep right before it shows. */
  lemma {:induction false} OneSweepShows(t: Table, ops: seq<Op>, now: int) returns (swept: seq<Op>)
    requires Unswept(ops) && ClockOk(ops, now) && !NoneRevived(t, ops)
    ensures ClockOk(swept, now) && WithoutSweeps(swept) == ops && Answers(t, swept) != Answers(t, ops)
    decreases |ops|
  {
    var op, rest := ops[0], ops[1..];
    assert op in ops && forall r | r in rest :: r in ops;
    if op.Create? && op.id in t && t[op.id].expiresAt <= op.now && !Unsought(rest, op.id, op.now + op.ttl) {
      swept := [Sweep(op.now, op.now)] + ops;
      SweepHere(t, ops, now, swept);
    } else {
      var tail := OneSweepShows(Apply(t, op), rest, if Timed(op) then op.now else now);
      swept := [op] + tail;
      assert swept[1..] == tail && ops == [op] + rest;
      ShowsLater(t, op, rest, tail);
    }
  }

  /** However sweeps are put into the run, none of them past the clock, every `Find` answers as without them. */
  ghost predicate SweepsHidden(t: Table, ops: seq<Op>, now: int) {
    forall swept | ClockOk(swept, now) && WithoutSweeps(swept) == ops :: Answers(t, swept) == Answers(t, ops)
  }

  /**
   When the sweep is unobservable, exactly: sweeps put anywhere into a run whose clock does not go back leave the answer
   of every `Find` as it was if and only if no `Create` over an expired row is followed by a `Find` of that id before
   the new session's expiry and before a `Delete` of it. Fresh random ids meet the condition in every run.
   */
  lemma SweepsAreUnobservable(t: Table, ops: seq<Op>, now: int)
    requires Unswept(ops) && ClockOk(ops, now)
    ensures SweepsHidden(t, ops, now) <==> NoneRevived(t, ops)
  {
    if NoneRevived(t, ops) {
      forall swept | ClockOk(swept, now) && WithoutSweeps(swept) == ops ensures Answers(t, swept) == Answers(t, ops) {
        SweepsDoNotMatter(t, swept);
        SameAnswers(t, t, swept, now);
      }
    } else {
      var swept := OneSweepShows(t, ops, now);
      assert !(Answers(t, swept) == Answers(t, ops));
    }
  }

  /** Session ids are never drawn twice, nor over one in `used`. */
  predicate FreshIds(ops: seq<Op>, used: set<string>)
    decreases |ops|
  {
    ops == [] || (
      && (ops[0].Create? ==> ops[0].id !in used)
      && FreshIds(ops[1..], used + if ops[0].Create? then {ops[0].id} else {}))
  }

  lemma {:induction false} FreshIdsReviveNone(t: Table, ops: seq<Op>, used: set<string>)
    requires FreshIds(ops, used) && t.Keys <= used
    ensures NoneRevived(t, ops)
    decreases |ops|
  {
    if ops != [] {
      var op := ops[0];
      FreshIdsReviveNone(if op.Sweep? then t else Apply(t, op), ops[1..], used + if op.Create? then {op.id} else {});
    }
  }
}
