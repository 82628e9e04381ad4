/** The response surface both middlewares produce from a limiter result. */
module Http {
  import opened Wrappers
  import opened Numeric
  import opened Limiter

  /** An inbound request, reduced to what the middlewares read. */
  datatype Request = Request(verb: string, path: string, ip: string)

  const LimitHeader: string := "X-Ratelimit-Limit"
  const RemainingHeader: string := "X-Ratelimit-Remaining"
  const ResetHeader: string := "X-Ratelimit-Reset"
  const RetryAfterHeader: string := "Retry-After"
  const TooManyRequests: int := 429

  /** `int64(res.Reset.Sub(time.Now())) / 1e9`, with the clock reading `clockNs`
      in nanoseconds since the epoch. */
  function RetryAfter(reset: Time, clockNs: int): (after: int)
    ensures var wait := reset.sec * 1_000_000_000 + reset.nsec - clockNs;
            && (wait >= 0 ==> 0 <= after * 1_000_000_000 <= wait < (after + 1) * 1_000_000_000)
            && (wait < 0 ==> (after - 1) * 1_000_000_000 < wait <= after * 1_000_000_000 <= 0)
  {
    Quot(reset.sec * 1_000_000_000 + reset.nsec - clockNs, 1_000_000_000)
  }

  /** The 429 body; the number in it reads back as the seconds to wait. */
  function RejectionBody(after: int): (b: string)
    ensures |b| > 40 && b[..30] == "Rate limit exceeded, retry in " && b[|b| - 10..] == " seconds.\n"
    ensures ParseInt(b[30..|b| - 10]) == Some(after)
  {
    var digits := FormatInt(after);
    var b := "Rate limit exceeded, retry in " + digits + " seconds.\n";
    assert b[30..|b| - 10] == digits;
    ParseFormatInt(after);
    b
  }

  /** How a response is ended: its status and body. */
  datatype Ending = Ending(status: int, body: string)

  /** The headers a middleware sets and how it ends the response, if it does. */
  datatype Response = Response(headers: map<string, string>, end: Option<Ending>)

  /** The three headers every successful `Get` sets. */
  function RateHeaders(res: RateResult): (h: map<string, string>)
    ensures h.Keys == {LimitHeader, RemainingHeader, ResetHeader}
    ensures h[LimitHeader] == FormatInt(res.total) && h[RemainingHeader] == FormatInt(res.remaining)
    ensures h[ResetHeader] == FormatInt(res.reset.sec)
  {
    map[LimitHeader := FormatInt(res.total),
        RemainingHeader := FormatInt(res.remaining),
        ResetHeader := FormatInt(res.reset.sec)]
  }

  /** The decision on one limiter result: a failed `Get` lets the request
      through untouched; a successful one sets Limit, Remaining and Reset, and
      only an exhausted quota adds Retry-After and ends with 429. */
  function Decide(r: Result<RateResult>, clockNs: int): (resp: Response)
    ensures r.Err? ==> resp == Response(map[], None)
    ensures r.Ok? ==>
              && resp.headers.Keys == {LimitHeader, RemainingHeader, ResetHeader} +
                                      (if r.value.remaining < 0 then {RetryAfterHeader} else {})
              && (resp.end.Some? <==> r.value.remaining < 0)
    ensures r.Ok? && r.value.remaining < 0 ==>
              resp.end == Some(Ending(TooManyRequests, RejectionBody(RetryAfter(r.value.reset, clockNs))))
  {
    match r
    case Err(_) => Response(map[], None)
    case Ok(res) =>
      var h := RateHeaders(res);
      if res.remaining < 0 then
        var after := RetryAfter(res.reset, clockNs);
        Response(h[RetryAfterHeader := FormatInt(after)], Some(Ending(TooManyRequests, RejectionBody(after))))
      else
        Response(h, None)
  }

  /** Every header value reads back as the number it reports: the limit, the
      remaining budget, the reset second and, on rejection, the seconds to wait. */
  lemma DecideHeadersParse(res: RateResult, clockNs: int)
    ensures var h := Decide(Ok(res), clockNs).headers;
            && ParseInt(h[LimitHeader]) == Some(res.total)
            && ParseInt(h[RemainingHeader]) == Some(res.remaining)
            && ParseInt(h[ResetHeader]) == Some(res.reset.sec)
            && (res.remaining < 0 ==> ParseInt(h[RetryAfterHeader]) == Some(RetryAfter(res.reset, clockNs)))
  {
    ParseFormatInt(res.total);
    ParseFormatInt(res.remaining);
    ParseFormatInt(res.reset.sec);
    ParseFormatInt(RetryAfter(res.reset, clockNs));
  }

  /** The request context: the request and the response being built. A status
      of 0 means the response has not been ended. */
  class Context {
    const req: Request
    var header: map<string, string>
    var status: int
    var body: string

    constructor (req: Request)
      ensures this.req == req && header == map[] && status == 0 && body == ""
    {
      this.req := req;
      header, status, body := map[], 0, "";
    }

    method Set(key: string, value: string)
      modifies this`header
      ensures header == old(header)[key := value]
    {
      header := header[key := value];
    }

    method End(code: int, body: string)
      modifies this`status, this`body
      ensures status == code && this.body == body
    {
      status, this.body := code, body;
    }
  }

  /** `ctx` now carries `resp` on top of a response that had header map `h`,
      status `status` and body `body`. */
  ghost predicate Applied(ctx: Context, h: map<string, string>, status: int, body: string, resp: Response)
    reads ctx
  {
    && ctx.header == h + resp.headers
    && (resp.end.Some? ==> ctx.status == resp.end.value.status && ctx.body == resp.end.value.body)
    && (resp.end.None? ==> ctx.status == status && ctx.body == body)
  }

  /** Writes the rate-limit headers for a successful `Get` into the response,
      and ends it with 429 when the quota is exhausted. */
  method Respond(ctx: Context, res: RateResult, clockNs: int)
    modifies ctx`header, ctx`status, ctx`body
    ensures Applied(ctx, old(ctx.header), old(ctx.status), old(ctx.body), Decide(Ok(res), clockNs))
  {
    ghost var h := ctx.header;
    ctx.Set(LimitHeader, FormatInt(res.total));
    ctx.Set(RemainingHeader, FormatInt(res.remaining));
    ctx.Set(ResetHeader, FormatInt(res.reset.sec));
    UpdatesAreUnion(h, LimitHeader, FormatInt(res.total), RemainingHeader, FormatInt(res.remaining),
                    ResetHeader, FormatInt(res.reset.sec));
    if res.remaining < 0 {
      var after := RetryAfter(res.reset, clockNs);
      ctx.Set(RetryAfterHeader, FormatInt(after));
      ctx.End(TooManyRequests, RejectionBody(after));
      UpdateOfUnion(h, RateHeaders(res), RetryAfterHeader, FormatInt(after));
    }
  }

  lemma UpdatesAreUnion<K, V>(h: map<K, V>, a: K, x: V, b: K, y: V, c: K, z: V)
    ensures h[a := x][b := y][c := z] == h + map[a := x, b := y, c := z]
  {
  }

  lemma UpdateOfUnion<K, V>(h: map<K, V>, m: map<K, V>, k: K, v: V)
    ensures (h + m)[k := v] == h + m[k := v]
  {
  }
}
