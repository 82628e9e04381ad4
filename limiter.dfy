/** The limiter façade: configuration defaults, policy validation and the
    argument vector, the single script-reload retry, and the conversion of the
    script's reply into a typed result. */
module Limiter {
  import opened Wrappers
  import opened Numeric
  import opened Engine
  import opened Storage

  const DefaultPrefix: string := "LIMIT:"
  const DefaultMax: int := 100
  const DefaultDuration: int := 60000

  const PairedError: string := "ratelimiter: must be paired values"
  const PositiveError: string := "ratelimiter: must be positive integer"

  /** Construction options; `durationNs` is a Go `time.Duration` in nanoseconds
      and `policy` is the route table read by the middleware. */
  datatype Options = Options(prefix: string, max: int, durationNs: int, policy: map<string, seq<int>>)

  /** The resolved default single tier and key prefix; `duration` is in ms. */
  datatype Config = Config(prefix: string, max: int, duration: int)

  /** Defaults apply exactly to options left empty or non-positive. */
  function Resolve(o: Options): (c: Config)
    ensures c.prefix != [] && c.max > 0 && c.duration >= 0
    ensures c.prefix == (if o.prefix != "" then o.prefix else DefaultPrefix)
    ensures c.max == (if o.max > 0 then o.max else DefaultMax)
    ensures o.durationNs <= 0 ==> c.duration == DefaultDuration
    ensures o.durationNs > 0 ==> c.duration * 1_000_000 <= o.durationNs < (c.duration + 1) * 1_000_000
  {
    Config(
      if o.prefix == "" then DefaultPrefix else o.prefix,
      if o.max > 0 then o.max else DefaultMax,
      if o.durationNs > 0 then Quot(o.durationNs, 1_000_000) else DefaultDuration)
  }

  predicate AllPositive(policy: seq<int>) {
    forall i :: 0 <= i < |policy| ==> policy[i] > 0
  }

  /** The argument vector `Get` sends, or its validation error. */
  function Arguments(now: int, policy: seq<int>, c: Config): (r: Result<seq<int>>)
    ensures r.Err? <==> |policy| % 2 == 1 || !AllPositive(policy)
    ensures r.Err? ==> r.error == (if |policy| % 2 == 1 then PairedError else PositiveError)
    ensures r.Ok? ==> WellFormedArgv(r.value) && r.value[0] == now
    ensures r.Ok? ==> r.value[1..] == if policy == [] then [c.max, c.duration] else policy
    ensures r.Ok? && c.max > 0 ==> PositiveLimits(r.value)
  {
    if |policy| % 2 == 1 then Err(PairedError)
    else if policy == [] then Ok([now, c.max, c.duration])
    else if !AllPositive(policy) then Err(PositiveError)
    else
      var argv := [now] + policy;
      assert forall i :: 1 <= i <= PolicyCount(argv) ==> TierLimit(argv, i) == policy[2 * i - 2];
      Ok(argv)
  }

  /** The script reads the caller's tiers from the vector `Get` builds: one tier
      per pair of the policy, in order, or the default tier when none is given. */
  lemma ScriptReadsCallersTiers(now: int, policy: seq<int>, c: Config)
    requires Arguments(now, policy, c).Ok?
    ensures var argv := Arguments(now, policy, c).value;
            && PolicyCount(argv) == (if policy == [] then 1 else |policy| / 2)
            && (policy == [] ==> TierLimit(argv, 1) == c.max && TierWindow(argv, 1) == c.duration)
            && (forall i :: 1 <= i <= |policy| / 2 ==>
                  TierLimit(argv, i) == policy[2 * i - 2] && TierWindow(argv, i) == policy[2 * i - 1])
  {
  }

  /** A Go `time.Time`: whole seconds and a nanosecond part in [0, 1e9). */
  datatype Time = Time(sec: int, nsec: int)

  /** `time.Unix(sec, nsec)`, which normalises `nsec` into [0, 1e9). */
  function UnixTime(sec: int, nsec: int): (t: Time)
    ensures 0 <= t.nsec < 1_000_000_000
    ensures t.sec * 1_000_000_000 + t.nsec == sec * 1_000_000_000 + nsec
  {
    if 0 <= nsec < 1_000_000_000 then Time(sec, nsec)
    else
      var n := Quot(nsec, 1_000_000_000);
      var s, ns := sec + n, nsec - n * 1_000_000_000;
      if ns < 0 then Time(s - 1, ns + 1_000_000_000) else Time(s, ns)
  }

  /** The typed result of `Get`; `durationNs` is a `time.Duration`. */
  datatype RateResult = RateResult(total: int, remaining: int, durationNs: int, reset: Time)

  /** The reply converted as `buildResult` does: the reset instant is exactly
      `resetAt` milliseconds after the epoch, whole seconds being its floor. */
  function ResultOf(reply: Reply): (r: RateResult)
    ensures r.total == reply.total && r.remaining == reply.remaining
    ensures r.durationNs == reply.window * 1_000_000
    ensures r.reset.sec * 1_000_000_000 + r.reset.nsec == reply.resetAt * 1_000_000
    ensures 0 <= r.reset.nsec < 1_000_000_000
    ensures r.reset.sec == reply.resetAt / 1000
  {
    var ts := reply.resetAt;
    var sec := Quot(ts, 1000);
    var nsec := (ts - sec * 1000) * 1_000_000;
    var t := UnixTime(sec, nsec);
    FloorSeconds(ts, t);
    RateResult(reply.total, reply.remaining, reply.window * 1_000_000, t)
  }

  lemma FloorSeconds(ts: int, t: Time)
    requires 0 <= t.nsec < 1_000_000_000
    requires t.sec * 1_000_000_000 + t.nsec == ts * 1_000_000
    ensures t.sec == ts / 1000
  {
    var q, m := ts / 1000, ts % 1000;
    assert ts * 1_000_000 == q * 1_000_000_000 + m * 1_000_000;
    assert 0 <= m * 1_000_000 < 1_000_000_000;
  }

  /** `IsNoScriptErr`: the error text starts with "NOSCRIPT ". */
  predicate IsNoScriptErr(msg: string)
    ensures IsNoScriptErr(msg) <==> |msg| >= 9 && msg == "NOSCRIPT " + msg[9..]
  {
    "NOSCRIPT " <= msg
  }

  /** The transport's error for each round trip `getLimit` may make, if any. */
  datatype Faults = Faults(eval: Option<string>, reload: Option<string>, retry: Option<string>)

  /** An outcome, the store it leaves behind, and the round trips it took. */
  datatype Attempt<T> = Attempt(result: Result<T>, after: StoreState, calls: seq<Command>)

  /** `getLimit`: evaluate by handle; on a NOSCRIPT error reload the script and,
      if that worked, evaluate exactly once more. */
  function GetLimitSpec(s: StoreState, sha: string, key: string, argv: seq<int>, net: Faults): (a: Attempt<Reply>)
    requires WellFormedArgv(argv) && PointersValid(s.tables)
    ensures PointersValid(a.after.tables)
    ensures var first := EvalShaSpec(s, sha, key, argv, net.eval).0;
            && (!(first.Err? && IsNoScriptErr(first.error)) ==>
                  a.calls == [EvalShaCmd(sha, key, argv)] && a.result == first)
            && (first.Err? && IsNoScriptErr(first.error) && net.reload.Some? ==>
                  a == Attempt(Err(net.reload.value), s, [EvalShaCmd(sha, key, argv), ScriptLoadCmd]))
            && (first.Err? && IsNoScriptErr(first.error) && net.reload.None? ==>
                  && a.calls == [EvalShaCmd(sha, key, argv), ScriptLoadCmd, EvalShaCmd(sha, key, argv)]
                  && a.after.cached
                  && a.result == EvalShaSpec(s.(cached := true), sha, key, argv, net.retry).0)
    ensures a.result.Ok? ==> Evaluation(a.after.tables, a.result.value) == Evaluate(s.tables, key, argv)
    ensures a.result.Err? ==> a.after.tables == s.tables
  {
    var (first, s1) := EvalShaSpec(s, sha, key, argv, net.eval);
    if first.Err? && IsNoScriptErr(first.error) then
      var (loaded, s2) := ScriptLoadSpec(s1, net.reload);
      if loaded.Err? then Attempt(Err(loaded.error), s2, [EvalShaCmd(sha, key, argv), ScriptLoadCmd])
      else
        var (second, s3) := EvalShaSpec(s2, sha, key, argv, net.retry);
        Attempt(second, s3, [EvalShaCmd(sha, key, argv), ScriptLoadCmd, EvalShaCmd(sha, key, argv)])
    else Attempt(first, s1, [EvalShaCmd(sha, key, argv)])
  }

  /** After the store has lost its script cache, a call whose round trips all
      succeed still runs the counting script exactly once. */
  lemma CacheMissRecovers(s: StoreState, key: string, argv: seq<int>)
    requires WellFormedArgv(argv) && PointersValid(s.tables)
    ensures var a := GetLimitSpec(s, ScriptSha, key, argv, Faults(None, None, None));
            && a.result.Ok?
            && Evaluation(a.after.tables, a.result.value) == Evaluate(s.tables, key, argv)
            && a.after.cached
            && |a.calls| == if s.cached then 1 else 3
  {
    if !s.cached {
      assert IsNoScriptErr(NoScriptError);
    }
  }

  /** `Get`: validate, assemble ARGV, evaluate on key `prefix + id`, convert. */
  function GetSpec(c: Config, sha: string, s: StoreState, id: string, policy: seq<int>, now: int, net: Faults)
    : (g: Attempt<RateResult>)
    requires PointersValid(s.tables)
    ensures PointersValid(g.after.tables)
    ensures Arguments(now, policy, c).Err? ==> g == Attempt(Err(Arguments(now, policy, c).error), s, [])
    ensures Arguments(now, policy, c).Ok? ==>
              |g.calls| >= 1 && g.calls[0] == EvalShaCmd(sha, c.prefix + id, Arguments(now, policy, c).value)
  {
    match Arguments(now, policy, c)
    case Err(m) => Attempt(Err(m), s, [])
    case Ok(argv) =>
      var a := GetLimitSpec(s, sha, c.prefix + id, argv, net);
      Attempt(if a.result.Ok? then Ok(ResultOf(a.result.value)) else Err(a.result.error), a.after, a.calls)
  }

  /** With a positive default limit every counter stays within [0, limit),
      and a successful `Get` reports remaining budget in [-1, total - 1]. */
  lemma GetKeepsCountersValid(c: Config, sha: string, s: StoreState, id: string, policy: seq<int>, now: int, net: Faults)
    requires PointersValid(s.tables) && CountersValid(s.tables) && c.max > 0
    ensures var g := GetSpec(c, sha, s, id, policy, now, net);
            && CountersValid(g.after.tables)
            && (g.result.Ok? ==> -1 <= g.result.value.remaining < g.result.value.total)
  {
    var args := Arguments(now, policy, c);
    if args.Ok? {
      CountersStayValid(s.tables, c.prefix + id, args.value);
    }
  }

  class Limiter {
    const sha1: string
    const config: Config
    const rc: Store
    const opts: Options

    ghost predicate Valid()
      reads rc
    {
      rc.Valid()
    }

    constructor (rc: Store, sha1: string, config: Config, opts: Options)
      ensures this.rc == rc && this.sha1 == sha1 && this.config == config && this.opts == opts
    {
      this.rc, this.sha1, this.config, this.opts := rc, sha1, config, opts;
    }

    /** `New`: registers the script first and fails if that fails, then
        resolves the defaults. */
    static method New(rc: Store, o: Options, fault: Option<string>) returns (r: Result<Limiter>)
      modifies rc`scriptCached, rc`trace
      ensures (r.Err?, rc.State()) == (fault.Some?, ScriptLoadSpec(old(rc.State()), fault).1)
      ensures rc.trace == old(rc.trace) + [ScriptLoadCmd]
      ensures r.Err? ==> r.error == fault.value
      ensures r.Ok? ==> fresh(r.value) && r.value.rc == rc && r.value.sha1 == ScriptSha
                        && r.value.config == Resolve(o) && r.value.opts == o
    {
      var sha := rc.ScriptLoad(fault);
      if sha.Err? {
        return Err(sha.error);
      }
      var l := new Limiter(rc, sha.value, Resolve(o), o);
      r := Ok(l);
    }

    /** The `args` vector of `Get`, filled in place; validation stops at the
        first non-positive value. */
    static method BuildArgs(now: int, policy: seq<int>, c: Config) returns (r: Result<seq<int>>)
      ensures r == Arguments(now, policy, c)
    {
      var length := |policy|;
      if length % 2 == 1 {
        return Err(PairedError);
      }
      var capacity := if length > 2 then length + 1 else 3;
      var args := new int[capacity];
      args[0] := now;
      if length == 0 {
        args[1], args[2] := c.max, c.duration;
        assert args[..] == [now, c.max, c.duration];
      } else {
        var i := 0;
        while i < length
          invariant 0 <= i <= length
          invariant args[0] == now
          invariant forall k :: 0 <= k < i ==> policy[k] > 0 && args[k + 1] == policy[k]
        {
          if policy[i] <= 0 {
            return Err(PositiveError);
          }
          args[i + 1] := policy[i];
          i := i + 1;
        }
        assert args[..] == [now] + policy;
      }
      r := Ok(args[..]);
    }

    /** `getLimit`. */
    method GetLimit(key: string, argv: seq<int>, net: Faults) returns (r: Result<Reply>)
      requires rc.Valid() && WellFormedArgv(argv)
      modifies rc`counters, rc`pointers, rc`scriptCached, rc`trace
      ensures rc.Valid()
      ensures var a := GetLimitSpec(old(rc.State()), sha1, key, argv, net);
              r == a.result && rc.State() == a.after && rc.trace == old(rc.trace) + a.calls
    {
      r := rc.EvalSha(sha1, key, argv, net.eval);
      if r.Err? && IsNoScriptErr(r.error) {
        var loaded := rc.ScriptLoad(net.reload);
        if loaded.Ok? {
          r := rc.EvalSha(sha1, key, argv, net.retry);
        } else {
          r := Err(loaded.error);
        }
      }
    }

    /** `buildResult`: evaluate on the counter key `prefix + id` and convert. */
    method BuildResult(id: string, argv: seq<int>, net: Faults) returns (r: Result<RateResult>)
      requires rc.Valid() && WellFormedArgv(argv)
      modifies rc`counters, rc`pointers, rc`scriptCached, rc`trace
      ensures rc.Valid()
      ensures var a := GetLimitSpec(old(rc.State()), sha1, config.prefix + id, argv, net);
              && r == (if a.result.Ok? then Ok(ResultOf(a.result.value)) else Err(a.result.error))
              && rc.State() == a.after && rc.trace == old(rc.trace) + a.calls
    {
      var res := GetLimit(config.prefix + id, argv, net);
      if res.Err? {
        return Err(res.error);
      }
      r := Ok(ResultOf(res.value));
    }

    /** `Get`: an invalid policy is refused before any round trip. */
    method Get(id: string, policy: seq<int>, now: int, net: Faults) returns (r: Result<RateResult>)
      requires Valid()
      modifies rc`counters, rc`pointers, rc`scriptCached, rc`trace
      ensures Valid()
      ensures var g := GetSpec(config, sha1, old(rc.State()), id, policy, now, net);
              r == g.result && rc.State() == g.after && rc.trace == old(rc.trace) + g.calls
    {
      var args := BuildArgs(now, policy, config);
      if args.Err? {
        return Err(args.error);
      }
      r := BuildResult(id, args.value, net);
    }

    /** `Remove`: deletes the counter record only; the escalation pointer stays. */
    method Remove(id: string, fault: Option<string>) returns (err: Option<string>)
      requires Valid()
      modifies rc`counters, rc`trace
      ensures Valid() && err == fault
      ensures rc.counters == if fault.None? then old(rc.counters) - {config.prefix + id} else old(rc.counters)
      ensures rc.trace == old(rc.trace) + [DelCmd(config.prefix + id)]
    {
      err := rc.Del(config.prefix + id, fault);
    }
  }
}
