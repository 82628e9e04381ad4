/** The middleware the counting limiter ships with: it limits per client IP,
    using the limiter's own route policy table. */
module Gear {
  import opened Storage
  import opened Policy
  import opened Http
  import Limiter

  /** The middleware `NewLimiter(limiter)` returns, applied to one request: no
      matching route passes through without a round trip; a failed `Get`
      passes through untouched; otherwise the verdict for the client IP is
      written into the response. */
  method Handle(limiter: Limiter.Limiter, ctx: Context, now: int, clockNs: int, net: Limiter.Faults)
    requires limiter.Valid()
    modifies ctx`header, ctx`status, ctx`body
    modifies limiter.rc`counters, limiter.rc`pointers, limiter.rc`scriptCached, limiter.rc`trace
    ensures limiter.Valid()
    ensures match Lookup(limiter.opts.policy, ctx.req.verb, ctx.req.path)
            case None =>
              && ctx.header == old(ctx.header) && ctx.status == old(ctx.status) && ctx.body == old(ctx.body)
              && limiter.rc.State() == old(limiter.rc.State()) && limiter.rc.trace == old(limiter.rc.trace)
            case Some(m) =>
              var g := Limiter.GetSpec(limiter.config, limiter.sha1, old(limiter.rc.State()), ctx.req.ip, m.tiers, now, net);
              && limiter.rc.State() == g.after && limiter.rc.trace == old(limiter.rc.trace) + g.calls
              && Applied(ctx, old(ctx.header), old(ctx.status), old(ctx.body), Decide(g.result, clockNs))
  {
    var m := Lookup(limiter.opts.policy, ctx.req.verb, ctx.req.path);
    if m.None? {
      return;
    }
    var res := limiter.Get(ctx.req.ip, m.value.tiers, now, net);
    if res.Err? {
      assert ctx.header == ctx.header + map[];
      return;
    }
    Respond(ctx, res.value, clockNs);
  }
}
