/** The key-value store as the limiter sees it: two keyed tables with deadlines,
    a script cache, the commands the counting script issues, and the three
    round trips the façade makes (DEL, SCRIPT LOAD, EVALSHA). */
module Storage {
  import opened Wrappers
  import opened Engine

  /** The error text the store returns for a script handle it does not know. */
  const NoScriptError: string := "NOSCRIPT No matching script. Please use EVAL."

  /** The content hash of the counting script. One body, one handle: loading
      it again returns the same value; the hash function itself is not modelled. */
  const ScriptSha: string := "sha1(ratelimiter.lua)"

  /** A round trip from the client to the store. */
  datatype Command = DelCmd(key: string) | ScriptLoadCmd | EvalShaCmd(sha: string, key: string, argv: seq<int>)

  /** What the client can tell apart: the tables and whether the script is cached. */
  datatype StoreState = StoreState(tables: Tables, cached: bool)

  /** EVALSHA: a transport fault or a cache miss leaves the store as it was;
      otherwise the script runs once. */
  function EvalShaSpec(s: StoreState, sha: string, key: string, argv: seq<int>, fault: Option<string>)
    : (r: (Result<Reply>, StoreState))
    requires WellFormedArgv(argv) && PointersValid(s.tables)
    ensures PointersValid(r.1.tables) && r.1.cached == s.cached
    ensures r.0.Err? ==> r.1 == s
    ensures r.0.Ok? ==> fault.None? && s.cached && sha == ScriptSha
    ensures r.0.Ok? ==> Evaluation(r.1.tables, r.0.value) == Evaluate(s.tables, key, argv)
    ensures fault.Some? ==> r.0 == Err(fault.value)
    ensures fault.None? && !(s.cached && sha == ScriptSha) ==> r.0 == Err(NoScriptError)
    ensures fault.None? && s.cached && sha == ScriptSha ==> r.0.Ok?
  {
    if fault.Some? then (Err(fault.value), s)
    else if !s.cached || sha != ScriptSha then (Err(NoScriptError), s)
    else
      var e := Evaluate(s.tables, key, argv);
      (Ok(e.reply), s.(tables := e.after))
  }

  /** SCRIPT LOAD of the counting script. */
  function ScriptLoadSpec(s: StoreState, fault: Option<string>): (r: (Result<string>, StoreState))
    ensures r.0.Ok? <==> fault.None?
    ensures r.0.Ok? ==> r.0.value == ScriptSha && r.1 == s.(cached := true)
    ensures r.0.Err? ==> r.0.error == fault.value && r.1 == s
  {
    if fault.Some? then (Err(fault.value), s) else (Ok(ScriptSha), s.(cached := true))
  }

  class Store {
    var counters: map<string, Record>
    var pointers: map<string, Pointer>
    var scriptCached: bool
    /** The round trips clients have made, oldest first. */
    ghost var trace: seq<Command>

    function State(): StoreState
      reads this
    {
      StoreState(Tables(counters, pointers), scriptCached)
    }

    ghost predicate Valid()
      reads this
    {
      PointersValid(Tables(counters, pointers))
    }

    constructor ()
      ensures Valid() && counters == map[] && pointers == map[] && !scriptCached && trace == []
    {
      counters, pointers, scriptCached := map[], map[], false;
      trace := [];
    }

    // ---- commands issued by the counting script, on the store's clock `now` ----

    /** `HMGET key ct lt dn rt`: the record, if it has not expired. */
    method HMGet(key: string, now: int) returns (r: Option<Record>)
      ensures r == LiveRecord(Tables(counters, pointers), key, now)
    {
      if key in counters && Live(counters[key].expiry, now) {
        r := Some(counters[key]);
      } else {
        r := None;
      }
    }

    /** `HINCRBY key ct delta` on a live record; its deadline is kept. */
    method HIncrByCt(key: string, delta: int, now: int)
      requires LiveRecord(Tables(counters, pointers), key, now).Some?
      modifies this`counters
      ensures counters == old(counters)[key := old(counters)[key].(ct := old(counters)[key].ct + delta)]
    {
      counters := counters[key := counters[key].(ct := counters[key].ct + delta)];
    }

    /** `HMSET key ct … rt`: a live record keeps its deadline, a new one has none. */
    method HMSet(key: string, ct: int, lt: int, dn: int, rt: int, now: int)
      modifies this`counters
      ensures counters == old(counters)[key := Record(ct, lt, dn, rt,
                 if LiveRecord(old(Tables(counters, pointers)), key, now).Some? then old(counters)[key].expiry else Persist)]
    {
      var expiry := if key in counters && Live(counters[key].expiry, now) then counters[key].expiry else Persist;
      counters := counters[key := Record(ct, lt, dn, rt, expiry)];
    }

    /** `PEXPIRE key ttl` on the counter table; a missing or expired key is left alone. */
    method PExpireCounter(key: string, ttl: int, now: int)
      modifies this`counters
      ensures LiveRecord(old(Tables(counters, pointers)), key, now).Some? ==>
                counters == old(counters)[key := old(counters)[key].(expiry := At(now + ttl))]
      ensures LiveRecord(old(Tables(counters, pointers)), key, now).None? ==> counters == old(counters)
    {
      if key in counters && Live(counters[key].expiry, now) {
        counters := counters[key := counters[key].(expiry := At(now + ttl))];
      }
    }

    /** `GET key` on the pointer table. The contract is the definition of a
        read under lazy expiry: a lapsed pointer reads as absent. */
    method GetPointer(key: string, now: int) returns (r: Option<int>)
      ensures r == if key in pointers && Live(pointers[key].expiry, now) then Some(pointers[key].index) else None
    {
      if key in pointers && Live(pointers[key].expiry, now) {
        r := Some(pointers[key].index);
      } else {
        r := None;
      }
    }

    /** `SET key value`: stores the value and drops any deadline. */
    method SetPointer(key: string, value: int)
      modifies this`pointers
      ensures pointers == old(pointers)[key := Pointer(value, Persist)]
    {
      pointers := pointers[key := Pointer(value, Persist)];
    }

    /** `INCR key`: a live value grows by one and keeps its deadline; a missing
        or expired key becomes 1 without a deadline. */
    method Incr(key: string, now: int)
      modifies this`pointers
      ensures pointers == old(pointers)[key :=
                if key in old(pointers) && Live(old(pointers)[key].expiry, now)
                then old(pointers)[key].(index := old(pointers)[key].index + 1)
                else Pointer(1, Persist)]
    {
      if key in pointers && Live(pointers[key].expiry, now) {
        pointers := pointers[key := pointers[key].(index := pointers[key].index + 1)];
      } else {
        pointers := pointers[key := Pointer(1, Persist)];
      }
    }

    /** `PEXPIRE key ttl` on the pointer table. */
    method PExpirePointer(key: string, ttl: int, now: int)
      modifies this`pointers
      ensures key in old(pointers) && Live(old(pointers)[key].expiry, now) ==>
                pointers == old(pointers)[key := old(pointers)[key].(expiry := At(now + ttl))]
      ensures !(key in old(pointers) && Live(old(pointers)[key].expiry, now)) ==> pointers == old(pointers)
    {
      if key in pointers && Live(pointers[key].expiry, now) {
        pointers := pointers[key := pointers[key].(expiry := At(now + ttl))];
      }
    }

    // ---- the counting script ----

    /** The counting script, run atomically: `argv[0]` is the caller's
        timestamp, which the model also takes as the store's clock. */
    method Eval(key: string, argv: seq<int>) returns (res: Reply)
      requires Valid() && WellFormedArgv(argv)
      modifies this`counters, this`pointers
      ensures Valid()
      ensures Evaluation(Tables(counters, pointers), res) == Evaluate(old(Tables(counters, pointers)), key, argv)
    {
      var limit := HMGet(key, argv[0]);
      if limit.Some? {
        res := EvalLive(key, argv, limit.value);
      } else {
        res := EvalFresh(key, argv);
      }
    }

    /** The script's branch for a live counter record `limit`. */
    method EvalLive(key: string, argv: seq<int>, limit: Record) returns (res: Reply)
      requires Valid() && WellFormedArgv(argv)
      requires LiveRecord(Tables(counters, pointers), key, argv[0]) == Some(limit)
      modifies this`counters, this`pointers
      ensures Valid()
      ensures Evaluation(Tables(counters, pointers), res) == Evaluate(old(Tables(counters, pointers)), key, argv)
    {
      var now := argv[0];
      var policyCount := (|argv| - 1) / 2;
      var statusKey := StatusKey(key);
      var remaining := limit.ct - 1;
      if remaining >= 0 {
        HIncrByCt(key, -1, now);
      } else {
        remaining := -1;
      }
      if policyCount > 1 && remaining == -1 {
        Incr(statusKey, now);
        PExpirePointer(statusKey, limit.dn * 2, now);
      }
      res := Reply(remaining, limit.lt, limit.dn, limit.rt);
    }

    /** The script's choice of tier for a fresh window. */
    method StartTier(key: string, argv: seq<int>) returns (index: int)
      requires Valid() && WellFormedArgv(argv)
      ensures index == StartIndex(PolicyCount(argv), LiveIndex(Tables(counters, pointers), key, argv[0]))
      ensures 1 <= index <= PolicyCount(argv)
    {
      var policyCount := (|argv| - 1) / 2;
      index := 1;
      if policyCount > 1 {
        var stored := GetPointer(StatusKey(key), argv[0]);
        index := stored.GetOr(1);
        if index > policyCount {
          index := policyCount;
        }
      }
    }

    /** The script's branch for a missing or expired counter record. */
    method EvalFresh(key: string, argv: seq<int>) returns (res: Reply)
      requires Valid() && WellFormedArgv(argv)
      requires LiveRecord(Tables(counters, pointers), key, argv[0]).None?
      modifies this`counters, this`pointers
      ensures Valid()
      ensures Evaluation(Tables(counters, pointers), res) == Evaluate(old(Tables(counters, pointers)), key, argv)
    {
      ghost var e := Evaluate(Tables(counters, pointers), key, argv);
      var now := argv[0];
      var index := StartTier(key, argv);
      var total := argv[index * 2 - 1];
      res := Reply(total - 1, total, argv[index * 2], now + argv[index * 2]);
      OpenWindow(key, total, argv[index * 2], now);
      if (|argv| - 1) / 2 > 1 {
        PinTier(StatusKey(key), index, res.window * 2, now);
      }
      assert Tables(counters, pointers) == e.after;
    }

    /** `HMSET` then `PEXPIRE` on a counter key: a record that lives for one window. */
    method OpenWindow(key: string, total: int, window: int, now: int)
      modifies this`counters
      ensures counters == old(counters)[key := Record(total - 1, total, window, now + window, At(now + window))]
    {
      HMSet(key, total - 1, total, window, now + window, now);
      PExpireCounter(key, window, now);
    }

    /** `SET` then `PEXPIRE` on a status key: the tier, stored for `ttl` ms. */
    method PinTier(statusKey: string, index: int, ttl: int, now: int)
      modifies this`pointers
      ensures pointers == old(pointers)[statusKey := Pointer(index, At(now + ttl))]
    {
      SetPointer(statusKey, index);
      PExpirePointer(statusKey, ttl, now);
    }

    // ---- round trips ----

    /** Evaluates the script by its handle. `fault` is the transport's error for
        this round trip, if any. */
    method EvalSha(sha: string, key: string, argv: seq<int>, fault: Option<string>) returns (r: Result<Reply>)
      requires Valid() && WellFormedArgv(argv)
      modifies this`counters, this`pointers, this`trace
      ensures Valid()
      ensures (r, State()) == EvalShaSpec(old(State()), sha, key, argv, fault)
      ensures trace == old(trace) + [EvalShaCmd(sha, key, argv)]
    {
      trace := trace + [EvalShaCmd(sha, key, argv)];
      if fault.Some? {
        r := Err(fault.value);
      } else if !scriptCached || sha != ScriptSha {
        r := Err(NoScriptError);
      } else {
        var reply := Eval(key, argv);
        r := Ok(reply);
      }
    }

    /** Registers the counting script and returns its handle. */
    method ScriptLoad(fault: Option<string>) returns (r: Result<string>)
      modifies this`scriptCached, this`trace
      ensures (r, State()) == ScriptLoadSpec(old(State()), fault)
      ensures trace == old(trace) + [ScriptLoadCmd]
    {
      trace := trace + [ScriptLoadCmd];
      if fault.Some? {
        r := Err(fault.value);
      } else {
        scriptCached := true;
        r := Ok(ScriptSha);
      }
    }

    /** `DEL key` on the counter table; the escalation pointers are untouched. */
    method Del(key: string, fault: Option<string>) returns (err: Option<string>)
      requires Valid()
      modifies this`counters, this`trace
      ensures Valid()
      ensures err == fault
      ensures counters == if fault.None? then old(counters) - {key} else old(counters)
      ensures trace == old(trace) + [DelCmd(key)]
    {
      trace := trace + [DelCmd(key)];
      err := fault;
      if fault.None? {
        counters := counters - {key};
      }
    }

    /** The store forgets its cached scripts (a restart or `SCRIPT FLUSH`). */
    method FlushScripts()
      modifies this`scriptCached
      ensures !scriptCached
    {
      scriptCached := false;
    }
  }
}
