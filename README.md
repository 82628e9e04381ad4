# gear-ratelimiter, modelled in Dafny

gear-ratelimiter is a distributed rate limiter for the Gear web framework.
Its counting runs as one server-side Lua script inside Redis. That script is a
fixed window that escalates. Each subject, such as a user id or a client IP,
has a counter record with four fields:

- `ct`: the budget left
- `lt`: the limit
- `dn`: the window in ms
- `rt`: the reset time

When a subject exhausts the budget of a window, the script advances an
"escalation pointer" under the key `{key}:S`. The next window then opens at the
next, usually stricter, tier of the policy. Once the subject has been quiet for
two windows, the pointer lapses and the subject is back at tier 1.

The Go side of the system has three parts:

- A façade, `smartlimiter.Limiter`, which does these things:
  - resolves default settings
  - validates a tier list
  - assembles the script's argument vector
  - evaluates the script by its SHA1 handle, reloading it once when the store answers `NOSCRIPT`
  - converts the reply into a typed `Result`
- A middleware, `ratelimiter.RateLimiter`. It keys counters by a caller-supplied id plus the matched route.
- A second middleware, `smartlimiter.NewLimiter`. It keys counters by client IP.

Both middlewares set the `X-Ratelimit-*` headers. On a rejection they also set
`Retry-After` and end the response with 429.

## Structure

| module | file | flavour | models |
|---|---|---|---|
| `Wrappers` | wrappers.dfy | pure | `Option`, `Result` |
| `Numeric` | numeric.dfy | pure | Go truncating division; `strconv.FormatInt` and its inverse |
| `Engine` | engine.dfy | pure | the Lua script as a function `Evaluate` on two keyed tables with deadlines, plus its properties |
| `Storage` | store.dfy | imperative | the store as a class: one method per Redis command the script issues; `Eval` runs the script step by step and is proved equal to `Evaluate`; the round trips EVALSHA, SCRIPT LOAD and DEL |
| `Limiter` | limiter.dfy | mixed | `New`, `Get` (argument vector filled in an array), `getLimit`, `buildResult`, `Remove`, `isNoScriptErr`; each method is tied to a pure specification function |
| `Policy` | policy.dfy | pure | route lookup: `"METHOD PATH"`, then `PATH`, then `METHOD` |
| `Http` | http.dfy | mixed | the request context as a class; the pure response decision `Decide`; the header-writing code both middlewares share |
| `RateLimiterMw` | ratelimiter.dfy | mixed | `getArgs`, `Serve`, `New` of ratelimiter.go |
| `Gear` | gear.dfy | imperative | the middleware closure of gearlimiter.go |

### Modelling choices

- Time has a single clock. The script's `ARGV[1]` is the client's millisecond timestamp. The model also uses it as the store's clock when deciding whether a key has expired.
- A counter or pointer entry has expiry `Persist` (no TTL) or `At(deadline)`. An entry is live iff it is `Persist` or its deadline is later than now. `Persist` only appears between `HMSET`/`SET` and the `PEXPIRE` that follows, or after `INCR` on a missing key.
- Transport failures are parameters. `Faults` gives, for each round trip `getLimit` may make, the error the transport raises, if any. A fault means the command had no effect. The `NOSCRIPT` reply is not a fault. It follows from the store's script cache (`scriptCached`), which `FlushScripts` clears.
- `Storage.Store` keeps a ghost `trace` of the round trips made to it. The contracts of the limiter and of both middlewares state how they extend `rc.trace`, which says how many times the script ran.
- `New` in ratelimiter.go panics when `GetID` is nil or the script fails to load. The model returns `Err` in both cases.

### Behaviour of the code worth knowing

- The pointer is capped from above at the number of tiers (smartlimiter.go:184-186). It is not clamped below. The lower bound 1 holds because every stored pointer is at least 1 (`Engine.PointersValid`, preserved by `Evaluate`).
- ratelimiter.go passes a request through when its route matches with an empty tier list (ratelimiter.go:57-59). gearlimiter.go calls `Get` with no tiers, i.e. with the default tier (gearlimiter.go:26).
- gearlimiter.go keys counters by IP alone (gearlimiter.go:26). One client therefore shares one counter across all routes of the policy table.
- A positive `Duration` below 1 ms truncates to a window of 0 ms (smartlimiter.go:133-135).
- Redis Cluster hashes only the text between the first `{` and the next `}` of a key. So `{key}:S` hashes `key` itself, and shares the slot of `key`, when `key` contains no `}`. The model has no slots. `Engine.CounterKeyIsNoStatusKey` proves that the two key families never alias, given a prefix that does not start with `{`.

## Model

| member | source | states |
|---|---|---|
| Numeric.Quot | smartlimiter.go:134 | Go's `/` for a positive divisor rounds toward zero: bounds on `q*b` for non-negative and negative dividends |
| Numeric.FormatInt | ratelimiter.go:64-66 | `strconv.FormatInt(n, 10)`: a leading `-` exactly for negative `n` |
| Numeric.ParseFormatInt | ratelimiter.go:64-66 | the decimal text of every integer parses back to that integer |
| Engine.StatusKey | smartlimiter.go:158 | the pointer of `key` is stored under `{`, then `key`, then `}:S` |
| Engine.PolicyCount | smartlimiter.go:157 | `(#ARGV-1)/2` is at least 1 and ARGV holds exactly one timestamp and two values per tier |
| Engine.TierLimit | smartlimiter.go:189 | `ARGV[2i]` in Lua's 1-based indexing, the limit of tier i; with `Limiter.ScriptReadsCallersTiers` |
| Engine.TierWindow | smartlimiter.go:192 | `ARGV[2i+1]` in Lua's 1-based indexing, the window of tier i; with `Limiter.ScriptReadsCallersTiers` |
| Engine.LiveRecord | smartlimiter.go:159 | HMGET sees the counter record exactly when it exists and has not expired |
| Engine.LiveIndex | smartlimiter.go:183 | GET sees the pointer under `{key}:S` exactly when it exists and has not expired |
| Engine.StartIndex | smartlimiter.go:181-187 | the starting tier: 1 for one tier; the stored pointer or 1 when absent, capped at the tier count; at least 1 when the pointer is |
| Engine.Evaluate | smartlimiter.go:155-206 | one script run keeps every stored pointer at least 1 |
| Engine.EvaluateFrame | smartlimiter.go:155-206 | a script run changes no counter but `key` and no pointer but `{key}:S` |
| Engine.LiveWindow | smartlimiter.go:161-172 | in a live window the budget drops by exactly one while positive, then the reply is -1 and the counter is untouched; limit, window and reset come from the record |
| Engine.FreshWindow | smartlimiter.go:179-196 | a fresh window takes its tier from `StartIndex`; it replies `total-1` and `now+window`, and stores a record that expires after one window |
| Engine.EscalationPointer | smartlimiter.go:174-177 | a pointer changes only with several tiers; a fresh window stores its tier for two windows; a rejection increments the pointer (to 1 if absent) and renews it for twice the stored window; any other call leaves it alone |
| Engine.SingleTierIgnoresPointers | smartlimiter.go:182 | with one tier, the pointer table affects neither the reply nor the counters and is left unchanged |
| Engine.CountersStayValid | smartlimiter.go:163-172 | with positive limits, every stored `ct` stays in `[0, lt)` and the reply's remaining lies in `[-1, total-1]` |
| Engine.RemoveKeepsTier | smartlimiter.go:73-75 | after the counter record is deleted, the next call opens a fresh window at the tier the pointer still selects |
| Engine.StatusKeyInjective | smartlimiter.go:158 | distinct subjects have distinct status keys |
| Engine.CounterKeyIsNoStatusKey | smartlimiter.go:80 | a prefixed counter key never equals a status key when the prefix does not start with `{` |
| Engine.ReplayFollows | smartlimiter.go:155-206 | repeated calls on one subject pass through exactly the states and replies of any chain whose every step is a script run |
| Engine.SingleTierState | smartlimiter.go:161-196 | after n calls within one single-tier window: the stored budget is `max(limit-n, 0)` and the n-th reply is `limit-n`, or -1 once spent |
| Engine.SingleTierRun | smartlimiter.go:161-196 | calls within one window on a fresh subject reply limit-1, ..., 0, then -1 for good, each with the same total and reset |
| Engine.EscalationScenario | smartlimiter.go:155-206 | a concrete two-tier run: exhaustion moves the next window to tier 2; a second rejection is capped to tier 2; after a quiet stretch the subject is back at tier 1 |
| Storage.EvalShaSpec | smartlimiter.go:100 | EVALSHA: a fault returns the fault's error and an unknown or evicted handle returns the NOSCRIPT error, both leaving the store unchanged; otherwise the call succeeds with exactly one script run |
| Storage.ScriptLoadSpec | smartlimiter.go:117 | SCRIPT LOAD succeeds iff no fault, returns the script's handle and caches the script; a failure changes nothing |
| Storage.Store.HMGet | smartlimiter.go:159 | returns the counter record iff it is live |
| Storage.Store.HIncrByCt | smartlimiter.go:169 | adds `delta` to `ct` of the live record, keeping its other fields and deadline |
| Storage.Store.HMSet | smartlimiter.go:195 | writes all four fields; a live key keeps its deadline, a new one has none |
| Storage.Store.PExpireCounter | smartlimiter.go:196 | gives a live record the deadline `now+ttl`; a missing key is left alone |
| Storage.Store.OpenWindow | smartlimiter.go:195-196 | HMSET then PEXPIRE leave a record with budget `total-1` that expires one window from now |
| Storage.Store.GetPointer | smartlimiter.go:183 | returns the pointer iff it is live |
| Storage.Store.SetPointer | smartlimiter.go:199 | stores the value and drops any deadline |
| Storage.Store.Incr | smartlimiter.go:175 | a live pointer grows by one and keeps its deadline; a missing one becomes 1 |
| Storage.Store.PExpirePointer | smartlimiter.go:200 | gives a live pointer the deadline `now+ttl`; a missing key is left alone |
| Storage.Store.PinTier | smartlimiter.go:199-200 | SET then PEXPIRE leave the pointer at the given tier, expiring `ttl` from now |
| Storage.Store.Eval | smartlimiter.go:155-206 | the script run command by command ends in exactly the tables and reply of `Evaluate`, keeping pointers valid |
| Storage.Store.EvalLive | smartlimiter.go:161-177 | the live branch run command by command equals `Evaluate` |
| Storage.Store.StartTier | smartlimiter.go:181-187 | the tier chosen by reading the pointer equals `StartIndex` and lies in `[1, policyCount]` |
| Storage.Store.EvalFresh | smartlimiter.go:179-201 | the fresh branch run command by command equals `Evaluate` |
| Storage.Store.EvalSha | smartlimiter.go:100 | result and new state are those of `EvalShaSpec`; one round trip is recorded |
| Storage.Store.ScriptLoad | smartlimiter.go:102 | result and new state are those of `ScriptLoadSpec`; one round trip is recorded |
| Storage.Store.Del | smartlimiter.go:74 | removes the counter record only, leaves the pointers, and reports the transport's error |
| Storage.Store.FlushScripts | smartlimiter.go:101-106 | the store forgets the script, which makes the next EVALSHA answer NOSCRIPT |
| Limiter.Resolve | smartlimiter.go:122-135 | prefix `LIMIT:`, max 100 and 60000 ms apply exactly to empty or non-positive options; a positive duration becomes whole ms, truncated |
| Limiter.Arguments | smartlimiter.go:47-68 | an error iff the tier list has odd length or a non-positive value, with the exact messages; otherwise `[now]` followed by the tiers, or by `[max, duration]` when none are given |
| Limiter.ScriptReadsCallersTiers | smartlimiter.go:56-68 | the script sees one tier per pair of the caller's policy, in order, with that pair's limit and window, or the single default tier `(max, duration)` when the policy is empty |
| Limiter.UnixTime | smartlimiter.go:94 | `time.Unix` normalises nanoseconds into `[0, 1e9)` and keeps the instant |
| Limiter.ResultOf | smartlimiter.go:86-95 | the reset instant is exactly `rt` ms after the epoch, seconds being the floor; window in ns is `dn*1e6`; total and remaining are copied |
| Limiter.FloorSeconds | smartlimiter.go:88-89 | the seconds of a normalised instant are the floor of the millisecond timestamp divided by 1000 |
| Limiter.IsNoScriptErr | smartlimiter.go:145-152 | true exactly for error texts beginning with `NOSCRIPT ` |
| Limiter.GetLimitSpec | smartlimiter.go:99-108 | one EVALSHA; only on NOSCRIPT one SCRIPT LOAD and, if that worked, exactly one more EVALSHA whose own result is returned; the script runs at most once; a failure leaves the tables unchanged |
| Limiter.CacheMissRecovers | smartlimiter.go:99-108 | with a responsive store and an evicted script cache, a call still succeeds with exactly one script run, in three round trips, and re-caches the script |
| Limiter.GetSpec | smartlimiter.go:44-70 | a validation error makes no round trip; otherwise the first round trip evaluates `prefix+id` with the assembled arguments |
| Limiter.GetKeepsCountersValid | smartlimiter.go:44-97 | with a positive default maximum, `Get` keeps every counter in `[0, limit)` and reports remaining in `[-1, total-1]` |
| Limiter.Limiter.New | smartlimiter.go:110-140 | loads the script first and fails iff that fails; on success the handle is the script's and the configuration is `Resolve` of the options |
| Limiter.Limiter.BuildArgs | smartlimiter.go:47-68 | the array-filling loop yields exactly `Arguments` |
| Limiter.Limiter.GetLimit | smartlimiter.go:99-108 | result, new store state and round trips are those of `GetLimitSpec` |
| Limiter.Limiter.BuildResult | smartlimiter.go:77-97 | evaluates on `prefix+id` and converts by `ResultOf`; errors are passed through |
| Limiter.Limiter.Get | smartlimiter.go:43-70 | result, new store state and round trips are those of `GetSpec` |
| Limiter.Limiter.Remove | smartlimiter.go:72-75 | deletes `prefix+id` from the counters only, returning the transport's error |
| Policy.Lookup | ratelimiter.go:35-46 | the first of `"METHOD PATH"`, `PATH`, `METHOD` present in the table wins, with its tiers; the result is none iff no candidate is in the table (same order in gearlimiter.go:15-25) |
| Http.RetryAfter | ratelimiter.go:68 | whole seconds until the reset instant, truncated toward zero |
| Http.RateHeaders | ratelimiter.go:64-66 | exactly the Limit, Remaining and Reset headers, rendering total, remaining and reset seconds in decimal (the same writes as gearlimiter.go:31-33) |
| Http.RejectionBody | ratelimiter.go:70 | the body starts `Rate limit exceeded, retry in `, ends ` seconds.` and a newline, and the number between reads back as the seconds to wait (the same text as gearlimiter.go:37) |
| Http.Context.Set | ratelimiter.go:64-69 | `ctx.Set` replaces the value of one header and leaves the others |
| Http.Context.End | ratelimiter.go:70 | `ctx.End` records the status and the body of the response |
| Http.Decide | ratelimiter.go:60-72 | a failed `Get` sets nothing; otherwise exactly Limit, Remaining and Reset are set, plus Retry-After iff remaining < 0; the response ends iff remaining < 0, with 429 and the seconds until reset in the body |
| Http.DecideHeadersParse | ratelimiter.go:64-69 | each header value parses back to the number it reports: total, remaining, reset second and, on rejection, the seconds to wait |
| Http.Respond | ratelimiter.go:64-71 | setting the headers and ending the response leaves the context as `Decide` prescribes |
| RateLimiterMw.GetArgs | ratelimiter.go:30-49 | an empty id gives no key; otherwise the first of `"METHOD PATH"`, `PATH`, `METHOD` present in the table gives key `id` + that route and its tiers; when none is present the key is the bare method and there are no tiers |
| RateLimiterMw.ConsultsIff | ratelimiter.go:52-60 | `Serve` calls `Get` iff the id is non-empty and the first route present has a non-empty tier list |
| RateLimiterMw.RateLimiter.New | ratelimiter.go:76-96 | missing `GetID` is refused with `getId function required` before any round trip; a failed script load is refused; the inner limiter gets prefix, max and duration and no policy |
| RateLimiterMw.RateLimiter.Serve | ratelimiter.go:52-73 | without a key or tiers nothing changes; otherwise the store evolves as `GetSpec` on `id+route` and the response as `Decide` |
| Gear.Handle | gearlimiter.go:12-42 | without a matching route nothing changes; otherwise the store evolves as `GetSpec` on the client IP and the response as `Decide` |

## Left out

- Real time: `genTimestamp` and `time.Now()` are parameters (`now` in ms, `clockNs` in ns). The store's own clock is taken to equal the client timestamp.
- Redis key expiry as a background process: expiry is judged lazily by comparing deadlines with `now`.
- Concurrency: the script's atomicity is modelled by running `Eval` as one method call. Concurrent middleware calls are not modelled.
- Reflection in `buildResult`: the reply is a typed `Reply`, so the `int64` type assertions cannot fail.
- Lua's numbers are doubles and Go's are `int64`/`int`: overflow and rounding are not modelled; integers are unbounded.
- The `or ARGV[3]` fallback for a record without `dn` (smartlimiter.go:165): records always carry all four fields in the model.
- SHA1 of the script: the handle is the constant `ScriptSha`.
- Redis client construction (`redis.NewClient`, `RedisAddr`), the `RedisClient` interface implementations in limiterredisclient.go and redis/redis.go, and the cluster fan-out of script loading: the store is one `Store` object.
- `Options.GetID` of smartlimiter.go: nothing in the core reads it.
- ratelimiter/main.go: example program, not part of this model.
- Gear's routing, response writing and `ctx.IP()` parsing: the context holds method, path and IP as strings, and `End` records status and body.
- Storage.EvalShaSpec: a transport fault is taken to strike before the command runs. A reply lost after the store ran the script, which leaves the counter decremented while the call fails, is not modelled.
- Limiter.GetLimitSpec: "a failure leaves the tables unchanged" holds only under that assumption about faults.
- One keyspace: counters and pointers are two separate tables, so the model assumes the two key families are disjoint. A prefix starting with `{` can make a counter key equal another subject's status key; for example, prefix `{` and id `{x}:S` give `{{x}:S`, which is also the status key of id `x` (counter key `{x`). In Redis that case yields a WRONGTYPE error, or lets `Remove` delete another subject's pointer. Such prefixes are not modelled.
- Storage.Store.HIncrByCt, Storage.Store.HMSet: fields are held as integers, so Redis's string-to-integer conversion errors cannot occur.
