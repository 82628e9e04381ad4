/** The route-aware middleware built over the counting limiter: it derives a
    counter key from a caller-supplied identity and the matched route. */
module RateLimiterMw {
  import opened Wrappers
  import opened Storage
  import opened Policy
  import opened Http
  import Limiter

  const GetIDRequired: string := "getId function required"

  /** Middleware options; `getID` may be missing, which `New` refuses. */
  datatype Options = Options(
    getID: Option<Request -> string>,
    prefix: string,
    max: int,
    durationNs: int,
    policy: map<string, seq<int>>)

  /** The counter key and tier list for one request; an empty tier list stands
      for Go's nil slice. */
  datatype Args = Args(key: string, tiers: seq<int>)

  /** `getArgs`: an empty identity yields no key; otherwise the first route
      candidate present in the table gives key `id + route` and that route's
      tiers, and when none is present the key is the bare method with no tiers. */
  function GetArgs(policy: map<string, seq<int>>, id: string, req: Request): (a: Args)
    ensures id == "" ==> a == Args("", [])
    ensures id != "" && (forall j :: 0 <= j < 3 ==> Candidates(req.verb, req.path)[j] !in policy) ==>
              a == Args(req.verb, [])
    ensures forall j :: id != "" && 0 <= j < 3 && Candidates(req.verb, req.path)[j] in policy &&
                        (forall i :: 0 <= i < j ==> Candidates(req.verb, req.path)[i] !in policy) ==>
              a == Args(id + Candidates(req.verb, req.path)[j], policy[Candidates(req.verb, req.path)[j]])
  {
    if id == "" then Args("", [])
    else
      match Lookup(policy, req.verb, req.path)
      case Some(m) => Args(id + m.route, m.tiers)
      case None => Args(req.verb, [])
  }

  /** `Serve` asks the limiter only for a non-empty key with at least one tier value. */
  predicate Consults(a: Args) {
    a.key != "" && |a.tiers| >= 1
  }

  /** The limiter is consulted exactly when the identity is non-empty and the
      first route candidate present in the table has a non-empty tier list. */
  lemma {:induction false} ConsultsIff(policy: map<string, seq<int>>, id: string, req: Request)
    ensures Consults(GetArgs(policy, id, req)) <==>
              id != "" &&
              exists j :: 0 <= j < 3 && Candidates(req.verb, req.path)[j] in policy &&
                |policy[Candidates(req.verb, req.path)[j]]| >= 1 &&
                forall i :: 0 <= i < j ==> Candidates(req.verb, req.path)[i] !in policy
  {
    var c := Candidates(req.verb, req.path);
    var m := Lookup(policy, req.verb, req.path);
    if id != "" && m.Some? {
      var j :| 0 <= j < 3 && m.value.route == c[j] && forall i :: 0 <= i < j ==> c[i] !in policy;
      forall k | 0 <= k < 3 && c[k] in policy && forall i :: 0 <= i < k ==> c[i] !in policy
        ensures c[k] == m.value.route
      {
        assert !(k < j) && !(j < k);
      }
    }
  }

  class RateLimiter {
    const options: Options
    const limiter: Limiter.Limiter

    ghost predicate Valid()
      reads limiter.rc
    {
      options.getID.Some? && limiter.Valid()
    }

    constructor (options: Options, limiter: Limiter.Limiter)
      ensures this.options == options && this.limiter == limiter
    {
      this.options, this.limiter := options, limiter;
    }

    /** `New`: a missing `getID` is refused before anything else (the source
        panics); so is a failed script registration. The inner limiter is
        given the prefix, maximum and duration and no policy table. */
    static method New(opts: Options, rc: Store, fault: Option<string>) returns (r: Result<RateLimiter>)
      modifies rc`scriptCached, rc`trace
      ensures opts.getID.None? ==>
                r == Err(GetIDRequired) && rc.State() == old(rc.State()) && rc.trace == old(rc.trace)
      ensures opts.getID.Some? ==>
                && rc.State() == ScriptLoadSpec(old(rc.State()), fault).1
                && rc.trace == old(rc.trace) + [ScriptLoadCmd]
                && (r.Err? <==> fault.Some?)
                && (r.Err? ==> r.error == fault.value)
      ensures r.Ok? ==>
                && fresh(r.value) && fresh(r.value.limiter)
                && r.value.options == opts && r.value.limiter.rc == rc
                && r.value.limiter.sha1 == ScriptSha
                && r.value.limiter.config == Limiter.Resolve(Limiter.Options(opts.prefix, opts.max, opts.durationNs, map[]))
                && (old(rc.Valid()) ==> r.value.Valid())
    {
      if opts.getID.None? {
        return Err(GetIDRequired);
      }
      var base := Limiter.Limiter.New(rc, Limiter.Options(opts.prefix, opts.max, opts.durationNs, map[]), fault);
      if base.Err? {
        return Err(base.error);
      }
      var l := new RateLimiter(opts, base.value);
      r := Ok(l);
    }

    /** `Serve`: requests without a key or without tiers, and requests whose
        `Get` fails, pass through untouched; otherwise the limiter's verdict
        is written into the response. */
    method Serve(ctx: Context, now: int, clockNs: int, net: Limiter.Faults)
      requires Valid()
      modifies ctx`header, ctx`status, ctx`body
      modifies limiter.rc`counters, limiter.rc`pointers, limiter.rc`scriptCached, limiter.rc`trace
      ensures Valid()
      ensures var a := GetArgs(options.policy, options.getID.value(ctx.req), ctx.req);
              if !Consults(a) then
                && ctx.header == old(ctx.header) && ctx.status == old(ctx.status) && ctx.body == old(ctx.body)
                && limiter.rc.State() == old(limiter.rc.State()) && limiter.rc.trace == old(limiter.rc.trace)
              else
                var g := Limiter.GetSpec(limiter.config, limiter.sha1, old(limiter.rc.State()), a.key, a.tiers, now, net);
                && limiter.rc.State() == g.after && limiter.rc.trace == old(limiter.rc.trace) + g.calls
                && Applied(ctx, old(ctx.header), old(ctx.status), old(ctx.body), Decide(g.result, clockNs))
    {
      var a := GetArgs(options.policy, options.getID.value(ctx.req), ctx.req);
      if a.key == "" {
        return;
      }
      if |a.tiers| < 1 {
        return;
      }
      var res := limiter.Get(a.key, a.tiers, now, net);
      if res.Err? {
        assert ctx.header == ctx.header + map[];
        return;
      }
      Respond(ctx, res.value, clockNs);
    }
  }
}
