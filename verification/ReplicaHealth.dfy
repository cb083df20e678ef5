/** The replica health checker: three bad checks in a row trip the replica, one good check resets it. */
module ReplicaHealth {
  import opened Ordering
  import opened Routing
  import opened Decimal

  const TRIP_AFTER := 3
  const DEFAULT_TRIP_AT: int := 2_000_000_000
  const SECOND: int := 1_000_000_000

  // ----- From the status row to a lag -----

  lemma ModShift(m: int)
    requires 0 <= m < TWO64
    ensures (m - TWO64) % TWO64 == m
  {
  }

  lemma {:induction false} WrapMod(x: int)
    ensures Wrap(x) % TWO64 == x % TWO64 && -TWO63 <= Wrap(x) < TWO63
  {
    var m := x % TWO64;
    if m >= TWO63 {
      ModShift(m);
    }
  }

  lemma SameMod(a: int, b: int, q: int)
    requires b - a == TWO64 * q
    ensures a % TWO64 == b % TWO64
  {
    var n := b / TWO64 - q;
    assert b == TWO64 * (b / TWO64) + b % TWO64;
    assert a == TWO64 * n + b % TWO64;
  }

  lemma ModLinear(x: int, y: int, d: int)
    requires x % TWO64 == y % TWO64
    ensures (x * 10 + d) % TWO64 == (y * 10 + d) % TWO64
  {
    var q := x / TWO64 - y / TWO64;
    assert x == TWO64 * (x / TWO64) + x % TWO64;
    assert y == TWO64 * (y / TWO64) + y % TWO64;
    assert x - y == TWO64 * q;
    SameMod(y * 10 + d, x * 10 + d, 10 * q);
  }

  lemma {:induction false} WrapStep(x: int, d: int)
    ensures Wrap(Wrap(x) * 10 + d) == Wrap(x * 10 + d)
  {
    WrapMod(x);
    ModLinear(Wrap(x), x, d);
  }

  /** A digit string parses to its value wrapped to 64 bits; anything else is refused; the empty string is zero. */
  method AsInt64(s: string) returns (out: int, ok: bool)
    ensures ok <==> AllDigits(s)
    ensures ok ==> out == Wrap(Value(s))
    ensures !ok ==> out == 0
  {
    out := 0;
    for i := 0 to |s|
      invariant AllDigits(s[..i]) && out == Wrap(Value(s[..i]))
    {
      if s[i] < '0' || s[i] > '9' {
        assert s[i] in s;
        return 0, false;
      }
      assert s[..i + 1][..i] == s[..i];
      WrapStep(Value(s[..i]), DigitValue(s[i]));
      out := Wrap(out * 10 + DigitValue(s[i]));
    }
    assert s[..|s|] == s;
    ok := true;
  }

  /** time.Duration(secs) * time.Second on the parsed value. */
  function Lag(secs: int): int { Wrap(Wrap(secs) * SECOND) }

  const LONGEST: int := 9_223_372_036

  /** The lag in nanoseconds is exact if and only if the seconds fit a duration; past that it wraps. */
  lemma LagExactIff(secs: nat)
    ensures Lag(secs) == secs * SECOND <==> secs <= LONGEST
  {
    if secs <= LONGEST {
      assert 0 <= secs * SECOND < TWO63;
      assert secs % TWO64 == secs && (secs * SECOND) % TWO64 == secs * SECOND;
    } else {
      WrapMod(Wrap(secs) * SECOND);
      assert secs * SECOND >= (LONGEST + 1) * SECOND > TWO63;
    }
  }

  /** A replica reported 2^63 ns or a little more behind reads as far ahead, and so as healthy. */
  lemma WrappedLagLooksHealthy()
    ensures Lag(LONGEST + 1) < 0
  {
  }

  /** One check: the measurement failed, or reported a lag. */
  datatype Check = Failed | Measured(lag: int)

  /** A column of the status row as the driver hands it over; a missing column reads as null. */
  datatype Cell = Null | Str(text: string) | Bytes(text: string) | Number(value: int)

  datatype Status = Unreadable | Row(ioRunning: Cell, sqlRunning: Cell, behind: Cell)

  function AsString(c: Cell): string {
    if c.Str? || c.Bytes? then c.text else ""
  }

  /** A stopped thread fails the check; seconds that cannot be read, NULL or not, count as no lag. */
  method CheckLag(status: Status) returns (c: Check)
    ensures c.Failed? <==>
      || status.Unreadable?
      || status.ioRunning !in {Str("Yes"), Bytes("Yes")} || status.sqlRunning !in {Str("Yes"), Bytes("Yes")}
    ensures c.Measured? && status.behind.Number? ==> c.lag == Lag(status.behind.value)
    ensures c.Measured? && status.behind.Bytes? ==>
      c.lag == if AllDigits(status.behind.text) then Lag(Value(status.behind.text)) else 0
    ensures c.Measured? && (status.behind.Null? || status.behind.Str?) ==> c.lag == 0
  {
    if status.Unreadable? {
      return Failed;
    }
    if AsString(status.ioRunning) != "Yes" || AsString(status.sqlRunning) != "Yes" {
      return Failed;
    }
    var secs, ok := 0, false;
    match status.behind {
      case Number(n) => secs, ok := Wrap(n), true;
      case Bytes(s) => secs, ok := AsInt64(s);
      case _ =>
    }
    if !ok {
      return Measured(0);
    }
    c := Measured(Wrap(secs * SECOND));
  }

  // ----- Hysteresis -----

  predicate Bad(c: Check, tripAt: int) { c.Failed? || c.lag > tripAt }

  class ReplicaState {
    var down: bool

    constructor ()
      ensures !down
    {
      down := false;
    }

    method Trip()
      modifies this
      ensures down
    {
      down := true;
    }

    method Reset()
      modifies this
      ensures !down
    {
      down := false;
    }
  }

  /** The length of the run of bad checks at the end. */
  function BadSuffix(checks: seq<Check>, tripAt: int): nat {
    if checks == [] || !Bad(checks[|checks| - 1], tripAt) then 0 else 1 + BadSuffix(checks[..|checks| - 1], tripAt)
  }

  /** The last three checks were all bad. */
  predicate LastThreeBad(checks: seq<Check>, tripAt: int) {
    |checks| >= 3 && forall i | |checks| - 3 <= i < |checks| :: checks[i].Failed? || checks[i].lag > tripAt
  }

  lemma {:induction false} SuffixIsThree(checks: seq<Check>, tripAt: int)
    ensures LastThreeBad(checks, tripAt) <==> BadSuffix(checks, tripAt) >= TRIP_AFTER
  {
    var n := |checks|;
    if n >= 1 && Bad(checks[n - 1], tripAt) {
      var one := checks[..n - 1];
      if n >= 2 && Bad(checks[n - 2], tripAt) {
        var two := one[..n - 2];
        assert one[n - 2] == checks[n - 2];
        assert BadSuffix(checks, tripAt) == 2 + BadSuffix(two, tripAt);
        if n >= 3 {
          assert two[n - 3] == checks[n - 3];
          assert BadSuffix(two, tripAt) > 0 <==> Bad(checks[n - 3], tripAt);
        }
      }
    }
  }

  /** How often the flag went from up to down over a sequence of checks. */
  function Trips(checks: seq<Check>, tripAt: int): nat {
    if checks == [] then 0 else
      Trips(checks[..|checks| - 1], tripAt)
      + if LastThreeBad(checks, tripAt) && !LastThreeBad(checks[..|checks| - 1], tripAt) then 1 else 0
  }

  class Health {
    const tripAt: int
    const state: ReplicaState
    var consecutiveNG: nat
    /** Every check evaluated so far, and how often the flag has gone from up to down. */
    ghost var seen: seq<Check>
    ghost var trips: nat

    constructor (state: ReplicaState, tripAt: int)
      requires !state.down
      ensures Valid() && seen == [] && this.state == state
      ensures this.tripAt == if tripAt <= 0 then 2_000_000_000 else tripAt
      ensures trips == 0
    {
      this.state := state;
      this.tripAt := if tripAt <= 0 then DEFAULT_TRIP_AT else tripAt;
      consecutiveNG := 0;
      seen, trips := [], 0;
    }

    /** The counter is the length of the bad suffix; the flag is up exactly when the last three checks were bad. */
    ghost predicate Valid()
      reads this, state
    {
      && consecutiveNG == BadSuffix(seen, tripAt)
      && state.down == LastThreeBad(seen, tripAt)
      && trips == Trips(seen, tripAt)
    }

    method Evaluate(check: Check)
      requires Valid()
      modifies this, state
      ensures Valid() && seen == old(seen) + [check]
      ensures trips == old(trips) + if !old(state.down) && state.down then 1 else 0
    {
      trips := trips + if LastThreeBad(seen + [check], tripAt) && !state.down then 1 else 0;
      seen := seen + [check];
      assert seen[..|seen| - 1] == old(seen);
      SuffixIsThree(seen, tripAt);
      SuffixIsThree(old(seen), tripAt);
      if check.Failed? {
        consecutiveNG := consecutiveNG + 1;
        if consecutiveNG >= TRIP_AFTER {
          state.Trip();
        }
        return;
      }
      if check.lag > tripAt {
        consecutiveNG := consecutiveNG + 1;
        if consecutiveNG >= TRIP_AFTER {
          state.Trip();
        }
        return;
      }
      consecutiveNG := 0;
      state.Reset();
    }
  }

  /** Each trip uses up three bad checks, and between two trips lies a good one. */
  lemma {:induction false} TripsCost(checks: seq<Check>, tripAt: int)
    ensures 4 * Trips(checks, tripAt) <=
      if LastThreeBad(checks, tripAt) then |checks| + 1 else |checks| - BadSuffix(checks, tripAt)
  {
    SuffixIsThree(checks, tripAt);
    if checks != [] {
      var front := checks[..|checks| - 1];
      SuffixIsThree(front, tripAt);
      TripsCost(front, tripAt);
    }
  }

  /** Flapping is rare: over n checks the replica is tripped at most (n + 1) / 4 times. */
  lemma TripsAreRare(checks: seq<Check>, tripAt: int)
    ensures Trips(checks, tripAt) <= (|checks| + 1) / 4
  {
    TripsCost(checks, tripAt);
  }

  /**
   An unforced read goes to the primary exactly when the last three checks were all bad, which is when the checker's
   counter stands at three or more.
   */
  lemma UnforcedReads(h: Health, ctx: Context, now: nat)
    requires h.Valid() && !ForcePrimary(ctx, now)
    ensures Reader(ctx, now, h.state.down) == Primary <==> LastThreeBad(h.seen, h.tripAt)
    ensures Reader(ctx, now, h.state.down) == Primary <==> h.consecutiveNG >= TRIP_AFTER
  {
    SuffixIsThree(h.seen, h.tripAt);
  }
}
