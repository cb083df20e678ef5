/** Which side a read goes to: the primary inside a read-after-write window or while the replica is down. */
module Routing {
  import opened Ordering

  datatype Side = Primary | Replica

  /** The request context, reduced to the read-after-write deadline it may carry. */
  datatype Context = Context(until: Option<nat>)

  function WithReadAfterWrite(ctx: Context, window: int, now: nat): Context {
    if window <= 0 then ctx else Context(Some(now + window))
  }

  predicate ForcePrimary(ctx: Context, now: nat) {
    ctx.until.Some? && now < ctx.until.value
  }

  function Reader(ctx: Context, now: nat, down: bool): Side {
    if ForcePrimary(ctx, now) || down then Primary else Replica
  }

  /**
   What a window does to the reads after it: a positive one sends them to the primary until it has passed, any other
   leaves a deadline the context may already carry as it was.
   */
  lemma WindowForces(ctx: Context, window: int, now: nat, at: nat)
    ensures ForcePrimary(WithReadAfterWrite(ctx, window, now), at) <==>
      if window > 0 then at < now + window else ctx.until.Some? && at < ctx.until.value
  {
  }
}
