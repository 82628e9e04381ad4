/** The fixed-window-with-escalation counting algorithm, as a function of the
    store's two tables. Storage.Store.Eval runs the same algorithm command by
    command and is proved to agree with Evaluate below. */
module Engine {
  import opened Wrappers

  /** How long a store entry lives: a key without a time to live (the state
      between SET/HMSET and the PEXPIRE that follows), or an absolute deadline. */
  datatype Expiry = Persist | At(deadline: int)

  /** An entry is visible at `now` while its deadline lies in the future. */
  predicate Live(e: Expiry, now: int) {
    e.Persist? || e.deadline > now
  }

  /** The counter hash at the subject key: `ct` (remaining budget), `lt` (limit),
      `dn` (window in ms) and `rt` (reset time in ms). */
  datatype Record = Record(ct: int, lt: int, dn: int, rt: int, expiry: Expiry)

  /** The escalation pointer: the tier index stored at the status key. */
  datatype Pointer = Pointer(index: int, expiry: Expiry)

  /** The two keyed tables of the store. */
  datatype Tables = Tables(counters: map<string, Record>, pointers: map<string, Pointer>)

  /** The script's reply `{remaining, total, window, resetAt}`. */
  datatype Reply = Reply(remaining: int, total: int, window: int, resetAt: int)

  /** The new tables together with the reply. */
  datatype Evaluation = Evaluation(after: Tables, reply: Reply)

  /** The status key `'{' .. key .. '}:S'`. */
  function StatusKey(key: string): (k: string)
    ensures |k| == |key| + 4 && k[0] == '{' && k[1..|key| + 1] == key && k[|key| + 1..] == "}:S"
  {
    "{" + key + "}:S"
  }

  lemma StatusKeyInjective(a: string, b: string)
    requires StatusKey(a) == StatusKey(b)
    ensures a == b
  {
    var s := StatusKey(a);
    assert |a| == |b|;
    assert s[1..|s| - 3] == a;
    assert StatusKey(b)[1..|s| - 3] == b;
  }

  /** A counter key that starts with a prefix whose first character is not `{`
      is never a status key, so the two tables cannot alias one key of the store. */
  lemma CounterKeyIsNoStatusKey(prefix: string, id: string, key: string)
    requires prefix != [] && prefix[0] != '{'
    ensures prefix + id != StatusKey(key)
  {
    assert (prefix + id)[0] == prefix[0];
    assert StatusKey(key)[0] == '{';
  }

  /** ARGV as the façade assembles it: a millisecond timestamp, then one
      `(limit, window)` pair per tier. */
  predicate WellFormedArgv(argv: seq<int>) {
    |argv| >= 3 && |argv| % 2 == 1
  }

  /** `(#ARGV - 1) / 2`: the number of tiers. */
  function PolicyCount(argv: seq<int>): (n: nat)
    requires WellFormedArgv(argv)
    ensures n >= 1 && |argv| == 2 * n + 1
  {
    (|argv| - 1) / 2
  }

  /** `ARGV[2 * i]`, the limit of tier i (tiers count from 1). */
  function TierLimit(argv: seq<int>, i: int): int
    requires WellFormedArgv(argv) && 1 <= i <= PolicyCount(argv)
  {
    argv[2 * i - 1]
  }

  /** `ARGV[2 * i + 1]`, the window of tier i in milliseconds. */
  function TierWindow(argv: seq<int>, i: int): int
    requires WellFormedArgv(argv) && 1 <= i <= PolicyCount(argv)
  {
    argv[2 * i]
  }

  /** Every tier's limit is positive, as the façade guarantees. */
  predicate PositiveLimits(argv: seq<int>)
    requires WellFormedArgv(argv)
  {
    forall i :: 1 <= i <= PolicyCount(argv) ==> TierLimit(argv, i) > 0
  }

  /** `HMGET key ct lt dn rt` for a key that may have expired. The contract is
      the definition of a read under lazy expiry, stated as an iff. */
  function LiveRecord(t: Tables, key: string, now: int): (r: Option<Record>)
    ensures r.Some? <==> key in t.counters && Live(t.counters[key].expiry, now)
    ensures r.Some? ==> r.value == t.counters[key]
  {
    if key in t.counters && Live(t.counters[key].expiry, now) then Some(t.counters[key]) else None
  }

  /** `GET statusKey` for the escalation pointer of `key`; the contract is the
      same lazy-expiry read on the pointer table. */
  function LiveIndex(t: Tables, key: string, now: int): (r: Option<int>)
    ensures r.Some? <==> StatusKey(key) in t.pointers && Live(t.pointers[StatusKey(key)].expiry, now)
    ensures r.Some? ==> r.value == t.pointers[StatusKey(key)].index
  {
    var sk := StatusKey(key);
    if sk in t.pointers && Live(t.pointers[sk].expiry, now) then Some(t.pointers[sk].index) else None
  }

  /** Store invariant: every escalation pointer holds a tier index of at least 1
      (the script writes only the chosen index, or INCR's result). */
  predicate PointersValid(t: Tables) {
    forall k :: k in t.pointers ==> t.pointers[k].index >= 1
  }

  /** Store invariant: every counter's remaining budget lies in [0, limit). */
  predicate CountersValid(t: Tables) {
    forall k :: k in t.counters ==> 0 <= t.counters[k].ct < t.counters[k].lt
  }

  /** The starting tier of a fresh window: 1 for a single tier; otherwise the
      stored pointer (1 when absent), capped at the number of tiers. The script
      has no lower clamp: the bound 1 comes from PointersValid. */
  function StartIndex(policyCount: nat, stored: Option<int>): (i: int)
    requires policyCount >= 1
    ensures (stored.None? || stored.value >= 1) ==> 1 <= i
    ensures i <= policyCount
    ensures policyCount == 1 ==> i == 1
    ensures policyCount > 1 && stored.None? ==> i == 1
    ensures policyCount > 1 && stored.Some? && stored.value <= policyCount ==> i == stored.value
    ensures policyCount > 1 && stored.Some? && stored.value > policyCount ==> i == policyCount
  {
    if policyCount <= 1 then 1
    else
      var index := stored.GetOr(1);
      if index > policyCount then policyCount else index
  }

  /** One evaluation of the counting script for subject `key` with `ARGV = argv`;
      `argv[0]` is the timestamp, which the model also takes as the store's clock. */
  function Evaluate(t: Tables, key: string, argv: seq<int>): (e: Evaluation)
    requires WellFormedArgv(argv) && PointersValid(t)
    ensures PointersValid(e.after)
  {
    var now := argv[0];
    var policyCount := PolicyCount(argv);
    var statusKey := StatusKey(key);
    match LiveRecord(t, key, now)
    case Some(r) =>
      var remaining := if r.ct - 1 >= 0 then r.ct - 1 else -1;
      var counters := if r.ct - 1 >= 0 then t.counters[key := r.(ct := r.ct - 1)] else t.counters;
      var pointers :=
        if policyCount > 1 && remaining == -1
        then t.pointers[statusKey := Pointer(LiveIndex(t, key, now).GetOr(0) + 1, At(now + 2 * r.dn))]
        else t.pointers;
      Evaluation(Tables(counters, pointers), Reply(remaining, r.lt, r.dn, r.rt))
    case None =>
      var index := StartIndex(policyCount, LiveIndex(t, key, now));
      var total := TierLimit(argv, index);
      var window := TierWindow(argv, index);
      var record := Record(total - 1, total, window, now + window, At(now + window));
      var pointers :=
        if policyCount > 1 then t.pointers[statusKey := Pointer(index, At(now + 2 * window))] else t.pointers;
      Evaluation(Tables(t.counters[key := record], pointers), Reply(total - 1, total, window, now + window))
  }

  /** A run touches no counter but `key` and no pointer but `{key}:S`. */
  lemma EvaluateFrame(t: Tables, key: string, argv: seq<int>)
    requires WellFormedArgv(argv) && PointersValid(t)
    ensures var e := Evaluate(t, key, argv);
            && (forall k :: k != key ==>
                  (k in e.after.counters <==> k in t.counters) &&
                  (k in t.counters ==> e.after.counters[k] == t.counters[k]))
            && (forall k :: k != StatusKey(key) ==>
                  (k in e.after.pointers <==> k in t.pointers) &&
                  (k in t.pointers ==> e.after.pointers[k] == t.pointers[k]))
  {
  }

  /** Live window: the budget is decremented by exactly one while it lasts;
      once spent the reply is -1 and the counter is left alone. Limit, window
      and reset time are reported as stored. */
  lemma LiveWindow(t: Tables, key: string, argv: seq<int>)
    requires WellFormedArgv(argv) && PointersValid(t)
    requires LiveRecord(t, key, argv[0]).Some?
    ensures var r := t.counters[key];
            var e := Evaluate(t, key, argv);
            && e.reply == Reply(if r.ct >= 1 then r.ct - 1 else -1, r.lt, r.dn, r.rt)
            && key in e.after.counters
            && e.after.counters[key] == (if r.ct >= 1 then r.(ct := r.ct - 1) else r)
  {
  }

  /** Fresh window: the tier comes from the pointer, capped and defaulted to 1;
      the reply and the new record follow from that tier; the record lives for
      exactly one window. */
  lemma FreshWindow(t: Tables, key: string, argv: seq<int>)
    requires WellFormedArgv(argv) && PointersValid(t)
    requires LiveRecord(t, key, argv[0]).None?
    ensures var i := StartIndex(PolicyCount(argv), LiveIndex(t, key, argv[0]));
            var e := Evaluate(t, key, argv);
            var total, window := TierLimit(argv, i), TierWindow(argv, i);
            && 1 <= i <= PolicyCount(argv)
            && e.reply == Reply(total - 1, total, window, argv[0] + window)
            && key in e.after.counters
            && e.after.counters[key] == Record(total - 1, total, window, argv[0] + window, At(argv[0] + window))
  {
  }

  /** The escalation pointer changes only with several tiers. A fresh window
      stores its tier for two windows; a rejection in a live window advances the
      pointer (an absent one becomes 1) and renews it for twice the stored window. */
  lemma EscalationPointer(t: Tables, key: string, argv: seq<int>)
    requires WellFormedArgv(argv) && PointersValid(t)
    ensures var e := Evaluate(t, key, argv);
            var now, sk := argv[0], StatusKey(key);
            && (PolicyCount(argv) == 1 ==> e.after.pointers == t.pointers)
            && (e.after.pointers != t.pointers ==> PolicyCount(argv) > 1)
            && (PolicyCount(argv) > 1 && LiveRecord(t, key, now).None? ==>
                  sk in e.after.pointers &&
                  e.after.pointers[sk] == Pointer(StartIndex(PolicyCount(argv), LiveIndex(t, key, now)),
                                                  At(now + 2 * TierWindow(argv, StartIndex(PolicyCount(argv), LiveIndex(t, key, now))))))
            && (PolicyCount(argv) > 1 && LiveRecord(t, key, now).Some? && e.reply.remaining == -1 ==>
                  sk in e.after.pointers &&
                  e.after.pointers[sk] == Pointer(LiveIndex(t, key, now).GetOr(0) + 1, At(now + 2 * t.counters[key].dn)))
            && (LiveRecord(t, key, now).Some? && e.reply.remaining != -1 ==> e.after.pointers == t.pointers)
  {
  }

  /** With a single tier the script neither reads nor writes the pointer:
      replacing the pointer table changes neither the reply nor the counters. */
  lemma SingleTierIgnoresPointers(t: Tables, other: map<string, Pointer>, key: string, argv: seq<int>)
    requires WellFormedArgv(argv) && PolicyCount(argv) == 1
    requires PointersValid(t) && PointersValid(t.(pointers := other))
    ensures var e, e' := Evaluate(t, key, argv), Evaluate(t.(pointers := other), key, argv);
            e'.reply == e.reply && e'.after.counters == e.after.counters && e'.after.pointers == other
  {
  }

  /** With positive limits every stored counter stays in [0, limit), so the
      reply's remaining budget lies in [-1, total - 1]. */
  lemma CountersStayValid(t: Tables, key: string, argv: seq<int>)
    requires WellFormedArgv(argv) && PointersValid(t) && PositiveLimits(argv)
    requires CountersValid(t)
    ensures var e := Evaluate(t, key, argv);
            CountersValid(e.after) && -1 <= e.reply.remaining < e.reply.total
  {
    var now := argv[0];
    var e := Evaluate(t, key, argv);
    if LiveRecord(t, key, now).None? {
      var i := StartIndex(PolicyCount(argv), LiveIndex(t, key, now));
      assert TierLimit(argv, i) > 0;
    }
    EvaluateFrame(t, key, argv);
    forall k | k in e.after.counters ensures 0 <= e.after.counters[k].ct < e.after.counters[k].lt {
      if k != key {
        assert e.after.counters[k] == t.counters[k];
      }
    }
  }

  /** Deleting the counter record (Limiter.Remove) keeps the pointer, so the
      next call opens a fresh window at the tier the pointer still selects. */
  lemma RemoveKeepsTier(t: Tables, key: string, argv: seq<int>)
    requires WellFormedArgv(argv) && PointersValid(t)
    ensures var t' := Tables(t.counters - {key}, t.pointers);
            var i := StartIndex(PolicyCount(argv), LiveIndex(t, key, argv[0]));
            && PointersValid(t')
            && Evaluate(t', key, argv).reply.total == TierLimit(argv, i)
            && Evaluate(t', key, argv).reply.remaining == TierLimit(argv, i) - 1
  {
    var t' := Tables(t.counters - {key}, t.pointers);
    assert LiveRecord(t', key, argv[0]).None?;
    assert LiveIndex(t', key, argv[0]) == LiveIndex(t, key, argv[0]);
  }

  /** Tier lists of a repeated policy: `[time] + tiers` must be well formed. */
  predicate WellFormedTiers(tiers: seq<int>) {
    |tiers| >= 2 && |tiers| % 2 == 0
  }

  /** A subject evaluated with the same tier list at the given instants, in order. */
  function Replay(t: Tables, key: string, tiers: seq<int>, times: seq<int>): (r: (Tables, seq<Reply>))
    requires PointersValid(t) && WellFormedTiers(tiers)
    ensures PointersValid(r.0) && |r.1| == |times|
    decreases |times|
  {
    if times == [] then (t, [])
    else
      var (t1, replies) := Replay(t, key, tiers, times[..|times| - 1]);
      var e := Evaluate(t1, key, [times[|times| - 1]] + tiers);
      (e.after, replies + [e.reply])
  }

  /** Unfolds one step of Replay on a prefix of the instants. */
  lemma ReplayStep(t: Tables, key: string, tiers: seq<int>, times: seq<int>, n: nat)
    requires PointersValid(t) && WellFormedTiers(tiers) && 1 <= n <= |times|
    ensures var p := Replay(t, key, tiers, times[..n - 1]);
            var e := Evaluate(p.0, key, [times[n - 1]] + tiers);
            Replay(t, key, tiers, times[..n]) == (e.after, p.1 + [e.reply])
  {
    assert times[..n][..n - 1] == times[..n - 1];
    assert times[..n][n - 1] == times[n - 1];
  }

  /** A replay follows any sequence of states whose consecutive pairs are
      script evaluations at the given instants. */
  lemma {:induction false} ReplayFollows(t: Tables, key: string, tiers: seq<int>, times: seq<int>,
                                         states: seq<Tables>, replies: seq<Reply>, n: nat)
    requires PointersValid(t) && WellFormedTiers(tiers)
    requires |states| == |times| + 1 && |replies| == |times| && states[0] == t && n <= |times|
    requires forall i :: 0 <= i < |times| ==>
               PointersValid(states[i]) &&
               Evaluate(states[i], key, [times[i]] + tiers) == Evaluation(states[i + 1], replies[i])
    ensures Replay(t, key, tiers, times[..n]) == (states[n], replies[..n])
  {
    if n == 0 {
      assert times[..0] == [];
    } else {
      ReplayFollows(t, key, tiers, times, states, replies, n - 1);
      ReplayStep(t, key, tiers, times, n);
      assert replies[..n] == replies[..n - 1] + [replies[n - 1]];
    }
  }

  /** State and last reply after n >= 1 calls of one single-tier window. */
  lemma {:induction false} SingleTierState(t: Tables, key: string, limit: int, window: int, times: seq<int>, n: nat)
    requires PointersValid(t) && limit >= 1 && 1 <= n <= |times|
    requires LiveRecord(t, key, times[0]).None?
    requires forall i :: 0 <= i < |times| ==> times[0] <= times[i] < times[0] + window
    ensures var r := Replay(t, key, [limit, window], times[..n]);
            && key in r.0.counters
            && r.0.counters[key] == Record(if n <= limit then limit - n else 0, limit, window,
                                           times[0] + window, At(times[0] + window))
            && r.1[n - 1] == Reply(if n <= limit then limit - n else -1, limit, window, times[0] + window)
  {
    var tiers := [limit, window];
    ReplayStep(t, key, tiers, times, n);
    var p := Replay(t, key, tiers, times[..n - 1]);
    var argv := [times[n - 1]] + tiers;
    if n == 1 {
      assert times[..0] == [];
      FreshWindow(t, key, argv);
    } else {
      SingleTierState(t, key, limit, window, times, n - 1);
      assert LiveRecord(p.0, key, times[n - 1]).Some?;
      LiveWindow(p.0, key, argv);
    }
  }

  /** Single tier `(limit, window)` on a fresh subject: within one window the calls
      return limit-1, limit-2, ..., 0 and then -1 for good, all with total `limit`. */
  lemma SingleTierRun(t: Tables, key: string, limit: int, window: int, times: seq<int>)
    requires PointersValid(t) && limit >= 1 && |times| >= 1
    requires LiveRecord(t, key, times[0]).None?
    requires forall i :: 0 <= i < |times| ==> times[0] <= times[i] < times[0] + window
    ensures var replies := Replay(t, key, [limit, window], times).1;
            forall i :: 0 <= i < |times| ==>
              replies[i] == Reply(if i < limit then limit - 1 - i else -1, limit, window, times[0] + window)
  {
    var replies := Replay(t, key, [limit, window], times).1;
    assert times[..|times|] == times;
    forall i | 0 <= i < |times|
      ensures replies[i] == Reply(if i < limit then limit - 1 - i else -1, limit, window, times[0] + window)
    {
      SingleTierPrefix(t, key, limit, window, times, i + 1, |times|);
    }
  }

  /** The reply of call n within a run of m >= n calls is the last reply of the first n. */
  lemma {:induction false} SingleTierPrefix(t: Tables, key: string, limit: int, window: int, times: seq<int>, n: nat, m: nat)
    requires PointersValid(t) && limit >= 1 && 1 <= n <= m <= |times|
    requires LiveRecord(t, key, times[0]).None?
    requires forall i :: 0 <= i < |times| ==> times[0] <= times[i] < times[0] + window
    ensures Replay(t, key, [limit, window], times[..m]).1[n - 1]
            == Reply(if n <= limit then limit - n else -1, limit, window, times[0] + window)
  {
    if m == n {
      SingleTierState(t, key, limit, window, times, n);
    } else {
      SingleTierPrefix(t, key, limit, window, times, n, m - 1);
      ReplayStep(t, key, [limit, window], times, m);
    }
  }

  /** The tables of the escalation example after its i-th call. */
  function ExampleState(key: string, i: nat): Tables {
    var sk := StatusKey(key);
    match i
    case 0 => Tables(map[], map[])
    case 1 => Tables(map[key := Record(1, 2, 300, 300, At(300))], map[sk := Pointer(1, At(600))])
    case 2 => Tables(map[key := Record(0, 2, 300, 300, At(300))], map[sk := Pointer(1, At(600))])
    case 3 => Tables(map[key := Record(0, 2, 300, 300, At(300))], map[sk := Pointer(2, At(620))])
    case 4 => Tables(map[key := Record(0, 1, 200, 500, At(500))], map[sk := Pointer(2, At(700))])
    case 5 => Tables(map[key := Record(0, 1, 200, 500, At(500))], map[sk := Pointer(3, At(710))])
    case 6 => Tables(map[key := Record(0, 1, 200, 720, At(720))], map[sk := Pointer(2, At(920))])
    case _ => Tables(map[key := Record(1, 2, 300, 1600, At(1600))], map[sk := Pointer(1, At(1900))])
  }

  const ExampleTiers: seq<int> := [2, 300, 1, 200]
  const ExampleTimes: seq<int> := [0, 10, 20, 300, 310, 520, 1300]
  const ExampleReplies: seq<Reply> :=
    [Reply(1, 2, 300, 300), Reply(0, 2, 300, 300), Reply(-1, 2, 300, 300),
     Reply(0, 1, 200, 500), Reply(-1, 1, 200, 500),
     Reply(0, 1, 200, 720), Reply(1, 2, 300, 1600)]

  /** Call i + 1 of the escalation example, taken on its own. */
  lemma ExampleStep(key: string, i: nat)
    requires i < 7
    ensures PointersValid(ExampleState(key, i))
    ensures Evaluate(ExampleState(key, i), key, [ExampleTimes[i]] + ExampleTiers)
            == Evaluation(ExampleState(key, i + 1), ExampleReplies[i])
  {
    assert |StatusKey(key)| == |key| + 4;
  }

  /** An escalation run with tiers (2 per 300 ms) then (1 per 200 ms), the
      tiers of the two-tier middleware tests. Tier 1 is spent by the third
      call, so the window that opens at 300 ms uses tier 2; a second rejection
      pushes the pointer to 3, which is capped at 2 at 520 ms; after more than
      two quiet windows the pointer has lapsed and the subject is back at tier 1. */
  lemma EscalationScenario(key: string)
    ensures Replay(Tables(map[], map[]), key, [2, 300, 1, 200], [0, 10, 20, 300, 310, 520, 1300]).1
            == [Reply(1, 2, 300, 300), Reply(0, 2, 300, 300), Reply(-1, 2, 300, 300),
                Reply(0, 1, 200, 500), Reply(-1, 1, 200, 500),
                Reply(0, 1, 200, 720), Reply(1, 2, 300, 1600)]
  {
    var states := seq(8, i requires 0 <= i < 8 => ExampleState(key, i));
    forall i | 0 <= i < 7
      ensures PointersValid(states[i])
      ensures Evaluate(states[i], key, [ExampleTimes[i]] + ExampleTiers) == Evaluation(states[i + 1], ExampleReplies[i])
    {
      ExampleStep(key, i);
    }
    ReplayFollows(states[0], key, ExampleTiers, ExampleTimes, states, ExampleReplies, 7);
    assert ExampleTimes[..7] == ExampleTimes;
    assert ExampleReplies[..7] == ExampleReplies;
  }
}
