/** What the rate limiter promises over whole runs with a clock that never goes backwards:
    forgetting idle keys is invisible exactly when an idle key refills before it is forgotten,
    rejected calls leave no trace, and no window admits more than its burst and its rate allow. */
module RateLimiterRuns {
  import opened TokenBuckets
  import opened RateLimiter

  /** Rates and the idle period are not negative. */
  predicate Sane(cfg: Config) {
    0.0 <= cfg.perKeyRate && 0.0 <= cfg.globalRate && 0.0 < cfg.staleAfter
  }

  /** A bucket idle long enough to be forgotten has had time to fill up. */
  predicate RefillsBeforeStale(cfg: Config) {
    Earned(cfg.staleAfter, cfg.perKeyRate) >= cfg.perKeyBurst as real
  }

  predicate BucketOk(b: BucketState, rate: real, burst: int, t: real) {
    Sound(b) && b.rate == rate && b.burst == burst && b.lastFill <= t
  }

  predicate ValidAt(cfg: Config, s: State, t: real) {
    && BucketOk(s.global, cfg.globalRate, cfg.globalBurst, t)
    && forall k :: k in s.buckets ==> BucketOk(s.buckets[k], cfg.perKeyRate, cfg.perKeyBurst, t)
  }

  function Level(cfg: Config, s: State, key: string, t: real): BucketState {
    Refill(KeyBucket(cfg, s, key, t), t)
  }

  /** Two limiters no later call can tell apart: equal buckets once both are brought up to date. */
  ghost predicate SameAt(cfg: Config, s1: State, s2: State, t: real) {
    && Refill(s1.global, t) == Refill(s2.global, t)
    && forall key :: Level(cfg, s1, key, t) == Level(cfg, s2, key, t)
  }

  predicate Ordered(calls: seq<Call>, t: real) {
    calls != [] ==> t <= calls[0].now && Ordered(calls[1..], calls[0].now)
  }

  function Verdicts(cfg: Config, evict: bool, s: State, calls: seq<Call>): (vs: seq<Verdict>)
    ensures |vs| == |calls|
    decreases calls
  {
    if calls == [] then []
    else
      var (s', v) := Step(cfg, evict, s, calls[0]);
      [v] + Verdicts(cfg, evict, s', calls[1..])
  }

  function After(cfg: Config, evict: bool, s: State, calls: seq<Call>): State
    decreases calls
  {
    if calls == [] then s else After(cfg, evict, Step(cfg, evict, s, calls[0]).0, calls[1..])
  }

  // ---- What a call does --------------------------------------------------------------------

  /** A new limiter: a full shared bucket and no keys. */
  lemma NewIs(cfg: Config, now: real)
    ensures New(cfg, now).global == BucketState(cfg.globalBurst as real, now, cfg.globalRate, cfg.globalBurst)
    ensures New(cfg, now).buckets == map[] && New(cfg, now).lastClean == now
  {
  }

  /** The sweep comes after half the idle period and forgets exactly the keys idle for longer than it. */
  lemma SweepExactly(cfg: Config, s: State, now: real, key: string)
    ensures var swept := now >= s.lastClean + cfg.staleAfter / 2.0;
      && (key in Clean(cfg, s, now).buckets <==>
            key in s.buckets && (swept ==> s.buckets[key].lastFill >= now - cfg.staleAfter))
      && (key in Clean(cfg, s, now).buckets ==> Clean(cfg, s, now).buckets[key] == s.buckets[key])
      && Clean(cfg, s, now).global == s.global && Clean(cfg, s, now).lastClean == (if swept then now else s.lastClean)
  {
  }

  /** A call passes exactly when the shared bucket, unless only the key is asked, and the key's bucket each hold
      a token; a key without a bucket has a full one. */
  lemma PassesExactly(cfg: Config, evict: bool, s: State, call: Call)
    ensures var c := if evict then Clean(cfg, s, call.now) else s;
      var bucket := if call.key in c.buckets then c.buckets[call.key]
                    else BucketState(cfg.perKeyBurst as real, call.now, cfg.perKeyRate, cfg.perKeyBurst);
      Step(cfg, evict, s, call).1.allowed <==>
        && (call.Allow? ==> Refill(s.global, call.now).tokens >= 1.0)
        && (call.key != "" ==> Refill(bucket, call.now).tokens >= 1.0)
  {
    hide Earned, Refill;
  }

  /** A call that passes takes one token from each bucket it asks, and says to wait no time. */
  lemma PassingTakesOne(cfg: Config, evict: bool, s: State, call: Call)
    requires Step(cfg, evict, s, call).1.allowed
    ensures var (s', v) := Step(cfg, evict, s, call);
      var c := if evict && !(call.AllowKey? && call.key == "") then Clean(cfg, s, call.now) else s;
      var bucket := if call.key in c.buckets then c.buckets[call.key]
                    else BucketState(cfg.perKeyBurst as real, call.now, cfg.perKeyRate, cfg.perKeyBurst);
      && v.retryAfter == 0
      && s'.global == (if call.Allow? then Refill(s.global, call.now).(tokens := Refill(s.global, call.now).tokens - 1.0) else s.global)
      && s'.buckets == (if call.key == "" then c.buckets
                        else c.buckets[call.key := Refill(bucket, call.now).(tokens := Refill(bucket, call.now).tokens - 1.0)])
  {
    hide Earned, Refill;
  }

  // ---- One step -------------------------------------------------------------------------

  lemma RefillSettles(b: BucketState, t: real)
    requires b.lastFill <= t
    ensures Refill(b, t).lastFill == t && Refill(Refill(b, t), t) == Refill(b, t)
    ensures Take(b, t).0.lastFill == t && Refill(Take(b, t).0, t) == Take(b, t).0
  {
    hide Earned;
  }

  lemma KeyBucketOk(cfg: Config, s: State, key: string, t: real)
    requires Sane(cfg) && ValidAt(cfg, s, t)
    ensures BucketOk(KeyBucket(cfg, s, key, t), cfg.perKeyRate, cfg.perKeyBurst, t)
  {
    hide Earned;
  }

  lemma StepKeepsValid(cfg: Config, evict: bool, s: State, call: Call)
    requires Sane(cfg) && ValidAt(cfg, s, call.now)
    ensures ValidAt(cfg, Step(cfg, evict, s, call).0, call.now)
  {
    hide Earned;
    var swept := if evict && !(call.AllowKey? && call.key == "") then Clean(cfg, s, call.now) else s;
    assert ValidAt(cfg, swept, call.now);
    KeyBucketOk(cfg, swept, call.key, call.now);
    var b := KeyBucket(cfg, swept, call.key, call.now);
    OperationsKeepSound(b, call.now);
    OperationsKeepSound(swept.global, call.now);
    RefillSettles(b, call.now);
    RefillSettles(swept.global, call.now);
    if Take(swept.global, call.now).1 {
      RefundUndoesTake(swept.global, call.now);
    }
  }

  lemma LevelLater(cfg: Config, s: State, key: string, t: real, u: real)
    requires Sane(cfg) && ValidAt(cfg, s, t) && t <= u
    ensures Level(cfg, s, key, u) == Refill(Level(cfg, s, key, t), u)
  {
    hide Earned;
    KeyBucketOk(cfg, s, key, t);
    RefillComposes(KeyBucket(cfg, s, key, t), t, u);
    if key !in s.buckets {
      var full := Full(cfg.perKeyRate, cfg.perKeyBurst, t);
      if t < u {
        EarnedNonnegative(u - t, cfg.perKeyRate);
      }
      assert Refill(full, u) == Full(cfg.perKeyRate, cfg.perKeyBurst, u);
    }
  }

  lemma SameLater(cfg: Config, s1: State, s2: State, t: real, u: real)
    requires Sane(cfg) && ValidAt(cfg, s1, t) && ValidAt(cfg, s2, t) && t <= u
    requires SameAt(cfg, s1, s2, t)
    ensures SameAt(cfg, s1, s2, u)
  {
    hide Earned;
    RefillComposes(s1.global, t, u);
    RefillComposes(s2.global, t, u);
    forall key ensures Level(cfg, s1, key, u) == Level(cfg, s2, key, u) {
      LevelLater(cfg, s1, key, t, u);
      LevelLater(cfg, s2, key, t, u);
    }
  }

  /** The sweep only forgets buckets that are full again. */
  lemma CleanSame(cfg: Config, s: State, now: real)
    requires Sane(cfg) && RefillsBeforeStale(cfg) && ValidAt(cfg, s, now)
    ensures ValidAt(cfg, Clean(cfg, s, now), now) && SameAt(cfg, Clean(cfg, s, now), s, now)
  {
    hide Earned;
    forall key ensures Level(cfg, Clean(cfg, s, now), key, now) == Level(cfg, s, key, now) {
      if key in s.buckets && key !in Clean(cfg, s, now).buckets {
        FullAfterIdle(s.buckets[key], cfg.staleAfter, now);
      }
    }
  }

  lemma DecideSame(cfg: Config, s1: State, s2: State, call: Call)
    requires Sane(cfg) && ValidAt(cfg, s1, call.now) && ValidAt(cfg, s2, call.now)
    requires SameAt(cfg, s1, s2, call.now)
    ensures Decide(cfg, s1, call).1 == Decide(cfg, s2, call).1
    ensures SameAt(cfg, Decide(cfg, s1, call).0, Decide(cfg, s2, call).0, call.now)
  {
    hide Earned, RetryAfter;
    var now, key := call.now, call.key;
    var b1, b2 := KeyBucket(cfg, s1, key, now), KeyBucket(cfg, s2, key, now);
    assert Level(cfg, s1, key, now) == Level(cfg, s2, key, now);
    assert Take(b1, now) == Take(b2, now);
    assert Take(s1.global, now) == Take(s2.global, now);
    var r1, r2 := Decide(cfg, s1, call).0, Decide(cfg, s2, call).0;
    assert Refill(r1.global, now) == Refill(r2.global, now);
    forall k ensures Level(cfg, r1, k, now) == Level(cfg, r2, k, now) {
      assert Level(cfg, s1, k, now) == Level(cfg, s2, k, now);
    }
  }

  lemma StepSame(cfg: Config, e1: bool, e2: bool, s1: State, s2: State, call: Call)
    requires Sane(cfg) && (e1 || e2 ==> RefillsBeforeStale(cfg))
    requires ValidAt(cfg, s1, call.now) && ValidAt(cfg, s2, call.now) && SameAt(cfg, s1, s2, call.now)
    ensures Step(cfg, e1, s1, call).1 == Step(cfg, e2, s2, call).1
    ensures SameAt(cfg, Step(cfg, e1, s1, call).0, Step(cfg, e2, s2, call).0, call.now)
  {
    hide Earned;
    if e1 || e2 {
      CleanSame(cfg, s1, call.now);
      CleanSame(cfg, s2, call.now);
    }
    var sweeps := !(call.AllowKey? && call.key == "");
    var c1 := if e1 && sweeps then Clean(cfg, s1, call.now) else s1;
    var c2 := if e2 && sweeps then Clean(cfg, s2, call.now) else s2;
    forall key ensures Level(cfg, c1, key, call.now) == Level(cfg, c2, key, call.now) {
      assert Level(cfg, c1, key, call.now) == Level(cfg, s1, key, call.now);
      assert Level(cfg, c2, key, call.now) == Level(cfg, s2, key, call.now);
    }
    DecideSame(cfg, c1, c2, call);
  }

  /** A rejected call leaves the limiter as if it had never been made: the key's bucket was only
      refilled, and the shared token was handed back in full. */
  lemma RejectionLeavesNoTrace(cfg: Config, evict: bool, s: State, call: Call)
    requires Sane(cfg) && (evict ==> RefillsBeforeStale(cfg)) && ValidAt(cfg, s, call.now)
    requires !Step(cfg, evict, s, call).1.allowed
    ensures SameAt(cfg, Step(cfg, evict, s, call).0, s, call.now)
  {
    hide Earned;
    if evict {
      CleanSame(cfg, s, call.now);
    }
    var now := call.now;
    var c := if evict then Clean(cfg, s, now) else s;
    assert call.AllowKey? ==> call.key != "";
    var b := KeyBucket(cfg, c, call.key, now);
    KeyBucketOk(cfg, c, call.key, now);
    RefillSettles(b, now);
    RefillSettles(c.global, now);
    if Take(c.global, now).1 {
      RefundUndoesTake(c.global, now);
    }
    var r := Step(cfg, evict, s, call).0;
    assert r == Decide(cfg, c, call).0;
    assert Refill(r.global, now) == Refill(c.global, now) == Refill(s.global, now);
    forall key ensures Level(cfg, r, key, now) == Level(cfg, s, key, now) {
      assert Level(cfg, c, key, now) == Level(cfg, s, key, now);
      assert Level(cfg, r, key, now) == Level(cfg, c, key, now);
    }
  }

  // ---- Whole runs -----------------------------------------------------------------------

  lemma {:induction false} RunsAgree(
    cfg: Config, e1: bool, e2: bool, s1: State, s2: State, t: real, calls: seq<Call>)
    requires Sane(cfg) && (e1 || e2 ==> RefillsBeforeStale(cfg)) && Ordered(calls, t)
    requires ValidAt(cfg, s1, t) && ValidAt(cfg, s2, t) && SameAt(cfg, s1, s2, t)
    ensures Verdicts(cfg, e1, s1, calls) == Verdicts(cfg, e2, s2, calls)
    decreases calls
  {
    hide Earned, Step, Refill;
    if calls != [] {
      var call := calls[0];
      SameLater(cfg, s1, s2, t, call.now);
      StepSame(cfg, e1, e2, s1, s2, call);
      StepKeepsValid(cfg, e1, s1, call);
      StepKeepsValid(cfg, e2, s2, call);
      RunsAgree(cfg, e1, e2, Step(cfg, e1, s1, call).0, Step(cfg, e2, s2, call).0, call.now, calls[1..]);
    }
  }

  lemma NewIsValid(cfg: Config, t: real)
    requires Sane(cfg)
    ensures ValidAt(cfg, New(cfg, t), t)
  {
    hide Earned;
  }

  function Select<T>(xs: seq<T>, keep: seq<bool>): seq<T>
    requires |xs| == |keep|
  {
    if xs == [] then []
    else (if keep[0] then [xs[0]] else []) + Select(xs[1..], keep[1..])
  }

  /** Dropping any of the rejected calls changes no other verdict. `s2` is the limiter of the
      shortened run, which never saw the calls dropped so far. */
  lemma {:induction false} DroppedRejectionsAgree(
    cfg: Config, evict: bool, s1: State, s2: State, t: real, calls: seq<Call>, keep: seq<bool>)
    requires Sane(cfg) && (evict ==> RefillsBeforeStale(cfg)) && Ordered(calls, t)
    requires ValidAt(cfg, s1, t) && ValidAt(cfg, s2, t) && SameAt(cfg, s1, s2, t)
    requires |keep| == |calls|
    requires forall i :: 0 <= i < |calls| && !keep[i] ==> !Verdicts(cfg, evict, s1, calls)[i].allowed
    ensures Verdicts(cfg, evict, s2, Select(calls, keep)) == Select(Verdicts(cfg, evict, s1, calls), keep)
    decreases calls
  {
    hide Earned, Step, Refill;
    if calls != [] {
      var call := calls[0];
      var (s1', v) := Step(cfg, evict, s1, call);
      var (s2', _) := Step(cfg, evict, s2, call);
      var rest, restKeep := calls[1..], keep[1..];
      var vs, vsRest := Verdicts(cfg, evict, s1, calls), Verdicts(cfg, evict, s1', rest);
      assert vs == [v] + vsRest;
      forall i | 0 <= i < |rest| && !restKeep[i] ensures !vsRest[i].allowed {
        assert vsRest[i] == vs[i + 1] && restKeep[i] == keep[i + 1];
      }
      SameLater(cfg, s1, s2, t, call.now);
      StepKeepsValid(cfg, evict, s1, call);
      StepKeepsValid(cfg, evict, s2, call);
      assert vs[1..] == vsRest;
      if keep[0] {
        StepSame(cfg, evict, evict, s1, s2, call);
        DroppedRejectionsAgree(cfg, evict, s1', s2', call.now, rest, restKeep);
        assert Select(calls, keep) == [call] + Select(rest, restKeep);
        assert Select(calls, keep)[1..] == Select(rest, restKeep);
      } else {
        assert !vs[0].allowed;
        RejectionLeavesNoTrace(cfg, evict, s1, call);
        DroppedRejectionsAgree(cfg, evict, s1', s2, call.now, rest, restKeep);
        assert Select(calls, keep) == Select(rest, restKeep);
      }
    }
  }

  // ---- How much a window can admit --------------------------------------------------------

  function Positive(x: real): real {
    if x < 0.0 then 0.0 else x
  }

  function End(calls: seq<Call>, t: real): real {
    if calls == [] then t else calls[|calls| - 1].now
  }

  function AllowedFor(key: string, calls: seq<Call>, vs: seq<Verdict>): nat
    requires |calls| == |vs|
  {
    if calls == [] then 0
    else (if calls[0].key == key && vs[0].allowed then 1 else 0) + AllowedFor(key, calls[1..], vs[1..])
  }

  function AllowedGlobally(calls: seq<Call>, vs: seq<Verdict>): nat
    requires |calls| == |vs|
  {
    if calls == [] then 0
    else (if calls[0].Allow? && vs[0].allowed then 1 else 0) + AllowedGlobally(calls[1..], vs[1..])
  }

  lemma EndOfTail(calls: seq<Call>, t: real)
    requires calls != []
    ensures End(calls, t) == End(calls[1..], calls[0].now)
  {
    hide Earned;
  }

  /** One link of the accounting: the bucket earned while waiting, then paid for this call. */
  lemma BudgetLink(level: real, arrived: real, left: real, cost: real, spentAfter: real,
                   wait: real, rest: real, total: real, rate: real)
    requires arrived <= level + Earned(wait, rate) && 0.0 <= wait && 0.0 <= rate
    requires left + cost == arrived && (cost == 0.0 || (cost == 1.0 && 1.0 <= arrived))
    requires spentAfter <= Positive(left) + Earned(rest, rate) && total == wait + rest
    ensures cost + spentAfter <= Positive(level) + Earned(total, rate)
  {
    hide Earned;
    EarnedAdds(wait, rest, rate);
    EarnedNonnegative(wait, rate);
  }

  lemma KeyLevelGrows(cfg: Config, s: State, key: string, t: real, now: real)
    requires Sane(cfg) && ValidAt(cfg, s, t) && t <= now
    ensures Level(cfg, s, key, now).tokens <= Level(cfg, s, key, t).tokens + Earned(now - t, cfg.perKeyRate)
  {
    hide Earned;
    LevelLater(cfg, s, key, t, now);
    KeyBucketOk(cfg, s, key, t);
    var b := KeyBucket(cfg, s, key, t);
    RefillComposes(b, t, now);
    LevelGrowth(b, t, now);
  }

  function KeyCost(call: Call, v: Verdict, key: string): real {
    if call.key == key && v.allowed then 1.0 else 0.0
  }

  lemma KeyStepSpends(cfg: Config, s: State, call: Call, key: string)
    requires Sane(cfg) && ValidAt(cfg, s, call.now) && key != ""
    ensures var (s', v) := Step(cfg, false, s, call);
            var cost := KeyCost(call, v, key);
            && Level(cfg, s', key, call.now).tokens + cost == Level(cfg, s, key, call.now).tokens
            && (cost == 1.0 ==> 1.0 <= Level(cfg, s, key, call.now).tokens)
  {
    hide Earned;
    RefillSettles(KeyBucket(cfg, s, call.key, call.now), call.now);
  }

  lemma KeyBudgetLink(cfg: Config, s: State, t: real, calls: seq<Call>, key: string)
    requires Sane(cfg) && ValidAt(cfg, s, t) && key != "" && calls != [] && t <= calls[0].now
    requires var s' := Step(cfg, false, s, calls[0]).0;
             AllowedFor(key, calls[1..], Verdicts(cfg, false, s', calls[1..])) as real
             <= Positive(Level(cfg, s', key, calls[0].now).tokens)
                + Earned(End(calls[1..], calls[0].now) - calls[0].now, cfg.perKeyRate)
    ensures AllowedFor(key, calls, Verdicts(cfg, false, s, calls)) as real
         <= Positive(Level(cfg, s, key, t).tokens) + Earned(End(calls, t) - t, cfg.perKeyRate)
  {
    hide Earned, Step, Refill, KeyBucket, Verdicts;
    var call := calls[0];
    var (s', v) := Step(cfg, false, s, call);
    KeyLevelGrows(cfg, s, key, t, call.now);
    KeyStepSpends(cfg, s, call, key);
    EndOfTail(calls, t);
    CountUnfolds(cfg, false, s, calls, key);
    BudgetLink(Level(cfg, s, key, t).tokens, Level(cfg, s, key, call.now).tokens,
               Level(cfg, s', key, call.now).tokens, KeyCost(call, v, key),
               AllowedFor(key, calls[1..], Verdicts(cfg, false, s', calls[1..])) as real,
               call.now - t, End(calls, t) - call.now, End(calls, t) - t, cfg.perKeyRate);
  }

  lemma {:induction false} KeyBudget(cfg: Config, s: State, t: real, calls: seq<Call>, key: string)
    requires Sane(cfg) && ValidAt(cfg, s, t) && Ordered(calls, t) && key != ""
    ensures AllowedFor(key, calls, Verdicts(cfg, false, s, calls)) as real
         <= Positive(Level(cfg, s, key, t).tokens) + Earned(End(calls, t) - t, cfg.perKeyRate)
    decreases calls
  {
    hide Earned;
    if calls == [] {
      EarnedNothing(cfg.perKeyRate);
    } else {
      var s' := Step(cfg, false, s, calls[0]).0;
      StepKeepsValid(cfg, false, s, calls[0]);
      KeyBudget(cfg, s', calls[0].now, calls[1..], key);
      KeyBudgetLink(cfg, s, t, calls, key);
    }
  }

  lemma CountUnfolds(cfg: Config, evict: bool, s: State, calls: seq<Call>, key: string)
    requires calls != []
    ensures var (s', v) := Step(cfg, evict, s, calls[0]);
            && AllowedFor(key, calls, Verdicts(cfg, evict, s, calls)) as real ==
               KeyCost(calls[0], v, key) + AllowedFor(key, calls[1..], Verdicts(cfg, evict, s', calls[1..])) as real
            && AllowedGlobally(calls, Verdicts(cfg, evict, s, calls)) as real ==
               GlobalCost(calls[0], v) + AllowedGlobally(calls[1..], Verdicts(cfg, evict, s', calls[1..])) as real
  {
    hide Earned;
    var (s', v) := Step(cfg, evict, s, calls[0]);
    var vs := Verdicts(cfg, evict, s, calls);
    assert vs == [v] + Verdicts(cfg, evict, s', calls[1..]);
    assert vs[1..] == Verdicts(cfg, evict, s', calls[1..]);
  }

  function GlobalCost(call: Call, v: Verdict): real {
    if call.Allow? && v.allowed then 1.0 else 0.0
  }

  lemma GlobalStepSpends(cfg: Config, evict: bool, s: State, call: Call)
    requires Sane(cfg) && ValidAt(cfg, s, call.now)
    ensures var (s', v) := Step(cfg, evict, s, call);
            var cost := GlobalCost(call, v);
            && Refill(s'.global, call.now).tokens + cost == Refill(s.global, call.now).tokens
            && (cost == 1.0 ==> 1.0 <= Refill(s.global, call.now).tokens)
  {
    hide Earned;
    RefillSettles(s.global, call.now);
    if Take(s.global, call.now).1 {
      RefundUndoesTake(s.global, call.now);
    }
  }

  lemma {:induction false} GlobalBudget(cfg: Config, evict: bool, s: State, t: real, calls: seq<Call>)
    requires Sane(cfg) && ValidAt(cfg, s, t) && Ordered(calls, t)
    ensures AllowedGlobally(calls, Verdicts(cfg, evict, s, calls)) as real
         <= Positive(Refill(s.global, t).tokens) + Earned(End(calls, t) - t, cfg.globalRate)
    decreases calls
  {
    hide Earned, Step, Refill;
    if calls == [] {
      EarnedNothing(cfg.globalRate);
    } else {
      var call := calls[0];
      var (s', v) := Step(cfg, evict, s, call);
      LevelGrowth(s.global, t, call.now);
      GlobalStepSpends(cfg, evict, s, call);
      StepKeepsValid(cfg, evict, s, call);
      GlobalBudget(cfg, evict, s', call.now, calls[1..]);
      EndOfTail(calls, t);
      CountUnfolds(cfg, evict, s, calls, "");
      BudgetLink(Refill(s.global, t).tokens, Refill(s.global, call.now).tokens,
                 Refill(s'.global, call.now).tokens, GlobalCost(call, v),
                 AllowedGlobally(calls[1..], Verdicts(cfg, evict, s', calls[1..])) as real,
                 call.now - t, End(calls, t) - call.now, End(calls, t) - t, cfg.globalRate);
    }
  }

  // ---- The exact condition ----------------------------------------------------------------

  predicate AllAllowed(vs: seq<Verdict>) {
    forall i :: 0 <= i < |vs| ==> vs[i].allowed
  }

  function Probe(n: nat, now: real): (calls: seq<Call>)
    ensures |calls| == n
  {
    if n == 0 then [] else [AllowKey("k", now)] + Probe(n - 1, now)
  }

  lemma {:induction false} ProbeIsOrdered(n: nat, now: real, t: real)
    requires t <= now
    ensures Ordered(Probe(n, now), t)
  {
    if n > 0 {
      ProbeIsOrdered(n - 1, now, now);
    }
  }

  /** `n` calls for one key at one instant: exactly the first `floor(tokens)` are admitted. */
  lemma {:induction false} ProbeVerdicts(cfg: Config, evict: bool, s: State, n: nat, now: real, tokens: real)
    requires Sane(cfg) && ValidAt(cfg, s, now) && (evict ==> now - s.lastClean < cfg.staleAfter / 2.0)
    requires Level(cfg, s, "k", now).tokens == tokens
    ensures forall i :: 0 <= i < n ==> (Verdicts(cfg, evict, s, Probe(n, now))[i].allowed <==> (i + 1) as real <= tokens)
    ensures var s' := After(cfg, evict, s, Probe(n, now));
            && ValidAt(cfg, s', now) && s'.lastClean == s.lastClean
            && (n as real <= tokens ==> Level(cfg, s', "k", now).tokens == tokens - n as real)
            && (0 < n ==> "k" in s'.buckets && s'.buckets["k"].lastFill == now)
    decreases n
  {
    hide Earned;
    if n > 0 {
      var call := AllowKey("k", now);
      var (s', v) := Step(cfg, evict, s, call);
      KeyBucketOk(cfg, s, "k", now);
      RefillSettles(KeyBucket(cfg, s, "k", now), now);
      StepKeepsValid(cfg, evict, s, call);
      var left := Level(cfg, s', "k", now).tokens;
      assert v.allowed <==> 1.0 <= tokens;
      assert left == if v.allowed then tokens - 1.0 else tokens;
      ProbeVerdicts(cfg, evict, s', n - 1, now, left);
      assert Probe(n, now)[1..] == Probe(n - 1, now);
    }
  }

  /** When a bucket is forgotten before it has refilled, some instant just past `staleAfter` sees it
      still short of its capacity. */
  lemma TooSlow(cfg: Config) returns (extra: real)
    requires Sane(cfg) && !RefillsBeforeStale(cfg)
    ensures 0.0 < extra < cfg.staleAfter / 2.0
    ensures Earned(cfg.staleAfter + extra, cfg.perKeyRate) < cfg.perKeyBurst as real
    ensures Earned(extra, cfg.perKeyRate) < 1.0
  {
    hide Earned;
    var rate, stale := cfg.perKeyRate, cfg.staleAfter;
    var gap := cfg.perKeyBurst as real - Earned(stale, rate);
    var room := if gap < 1.0 then gap else 1.0;
    extra := stale / 4.0;
    if rate > 0.0 {
      var half := (room / 2.0) / rate;
      EarnedInQuotient(room / 2.0, rate);
      EarnedNothing(rate);
      if half <= 0.0 {
        EarnedMonotone(half, 0.0, rate);
      }
      if half < extra {
        extra := half;
      } else {
        EarnedMonotone(extra, half, rate);
      }
    } else {
      NoRateEarnsNothing(extra);
      NoRateEarnsNothing(stale);
    }
    EarnedAdds(stale, extra, rate);
  }

  lemma NoRateEarnsNothing(wait: real)
    ensures Earned(wait, 0.0) == 0.0
  {
  }

  lemma {:induction false} VerdictsAppend(cfg: Config, evict: bool, s: State, a: seq<Call>, b: seq<Call>)
    ensures Verdicts(cfg, evict, s, a + b) ==
            Verdicts(cfg, evict, s, a) + Verdicts(cfg, evict, After(cfg, evict, s, a), b)
    decreases a
  {
    hide Earned, Step, Refill;
    if a == [] {
      assert a + b == b;
    } else {
      assert (a + b)[1..] == a[1..] + b;
      VerdictsAppend(cfg, evict, Step(cfg, evict, s, a[0]).0, a[1..], b);
    }
  }

  lemma {:induction false} OrderedAppend(a: seq<Call>, b: seq<Call>, t: real)
    requires Ordered(a, t) && Ordered(b, End(a, t))
    ensures Ordered(a + b, t)
    decreases a
  {
    if a == [] {
      assert a + b == b;
    } else {
      EndOfTail(a, t);
      OrderedAppend(a[1..], b, a[0].now);
      assert (a + b)[1..] == a[1..] + b;
    }
  }

  lemma {:induction false} ProbeEnds(n: nat, now: real)
    ensures forall i :: 0 <= i < n ==> Probe(n, now)[i] == AllowKey("k", now)
  {
    if n > 0 {
      ProbeEnds(n - 1, now);
    }
  }

  /** Sweeping before the first call of a probe changes nothing: the call would have swept anyway. */
  lemma SweepFirst(cfg: Config, s: State, n: nat, now: real)
    requires Sane(cfg) && 0 < n
    ensures Verdicts(cfg, true, s, Probe(n, now)) == Verdicts(cfg, true, Clean(cfg, s, now), Probe(n, now))
  {
    hide Earned;
    assert Clean(cfg, Clean(cfg, s, now), now) == Clean(cfg, s, now);
    assert Probe(n, now)[0] == AllowKey("k", now);
  }

  /** The limiter at time 0 after the key "k" has used up its whole burst. */
  function Spent(cfg: Config, evict: bool): State
    requires 0 < cfg.perKeyBurst
  {
    After(cfg, evict, New(cfg, 0.0), Probe(cfg.perKeyBurst, 0.0))
  }

  lemma SpendAll(cfg: Config, evict: bool)
    requires Sane(cfg) && 0 < cfg.perKeyBurst
    ensures AllAllowed(Verdicts(cfg, evict, New(cfg, 0.0), Probe(cfg.perKeyBurst, 0.0)))
    ensures ValidAt(cfg, Spent(cfg, evict), 0.0) && Spent(cfg, evict).lastClean == 0.0
    ensures "k" in Spent(cfg, evict).buckets
    ensures Spent(cfg, evict).buckets["k"] == BucketState(0.0, 0.0, cfg.perKeyRate, cfg.perKeyBurst)
  {
    hide Earned;
    ProbeVerdicts(cfg, evict, New(cfg, 0.0), cfg.perKeyBurst, 0.0, cfg.perKeyBurst as real);
  }

  lemma ValidLater(cfg: Config, s: State, t: real, u: real)
    requires ValidAt(cfg, s, t) && t <= u
    ensures ValidAt(cfg, s, u)
  {
    hide Earned;
  }

  /** Without the sweep the key is still short of its burst at `staleAfter + extra`. */
  lemma StillShort(cfg: Config, extra: real)
    requires Sane(cfg) && 0 < cfg.perKeyBurst && 0.0 < extra
    requires Earned(cfg.staleAfter + extra, cfg.perKeyRate) < cfg.perKeyBurst as real
    ensures !Verdicts(cfg, false, Spent(cfg, false), Probe(cfg.perKeyBurst, cfg.staleAfter + extra))[cfg.perKeyBurst - 1].allowed
  {
    hide Earned;
    var later := cfg.staleAfter + extra;
    SpendAll(cfg, false);
    var s := Spent(cfg, false);
    ValidLater(cfg, s, 0.0, later);
    assert later - 0.0 == later;
    ProbeVerdicts(cfg, false, s, cfg.perKeyBurst, later, Level(cfg, s, "k", later).tokens);
  }

  /** With the sweep the key has been forgotten by then and gets its whole burst again. */
  lemma WholeBurstAgain(cfg: Config, extra: real)
    requires Sane(cfg) && 0 < cfg.perKeyBurst && 0.0 < extra
    ensures AllAllowed(Verdicts(cfg, true, Spent(cfg, true), Probe(cfg.perKeyBurst, cfg.staleAfter + extra)))
  {
    hide Earned;
    var later := cfg.staleAfter + extra;
    SpendAll(cfg, true);
    var s := Spent(cfg, true);
    ValidLater(cfg, s, 0.0, later);
    SweepFirst(cfg, s, cfg.perKeyBurst, later);
    ProbeVerdicts(cfg, true, Clean(cfg, s, later), cfg.perKeyBurst, later, cfg.perKeyBurst as real);
  }

  function TwoBursts(cfg: Config, extra: real): (calls: seq<Call>)
    requires 0 < cfg.perKeyBurst
    ensures |calls| == 2 * cfg.perKeyBurst
  {
    Probe(cfg.perKeyBurst, 0.0) + Probe(cfg.perKeyBurst, cfg.staleAfter + extra)
  }

  lemma TwoBurstsVerdicts(cfg: Config, extra: real)
    requires Sane(cfg) && 0 < cfg.perKeyBurst && 0.0 < extra
    requires Earned(cfg.staleAfter + extra, cfg.perKeyRate) < cfg.perKeyBurst as real
    ensures Ordered(TwoBursts(cfg, extra), 0.0)
    ensures AllAllowed(Verdicts(cfg, true, New(cfg, 0.0), TwoBursts(cfg, extra)))
    ensures !Verdicts(cfg, false, New(cfg, 0.0), TwoBursts(cfg, extra))[2 * cfg.perKeyBurst - 1].allowed
  {
    hide Earned, Step, Refill, Verdicts, After;
    var n, later := cfg.perKeyBurst, cfg.staleAfter + extra;
    ProbeIsOrdered(n, 0.0, 0.0);
    ProbeEnds(n, 0.0);
    ProbeIsOrdered(n, later, 0.0);
    OrderedAppend(Probe(n, 0.0), Probe(n, later), 0.0);
    VerdictsAppend(cfg, true, New(cfg, 0.0), Probe(n, 0.0), Probe(n, later));
    VerdictsAppend(cfg, false, New(cfg, 0.0), Probe(n, 0.0), Probe(n, later));
    SpendAll(cfg, true);
    WholeBurstAgain(cfg, extra);
    StillShort(cfg, extra);
  }

  // ---- Main results -----------------------------------------------------------------------

  ghost predicate EvictionIsUnobservable(cfg: Config) {
    forall calls: seq<Call>, t: real :: Ordered(calls, t) ==>
      Verdicts(cfg, true, New(cfg, t), calls) == Verdicts(cfg, false, New(cfg, t), calls)
  }

  /** Forgetting stale keys is invisible to every caller exactly when an idle key has refilled by
      the time it may be forgotten. */
  lemma EvictionIsUnobservableExactly(cfg: Config)
    requires Sane(cfg)
    ensures EvictionIsUnobservable(cfg) <==> RefillsBeforeStale(cfg)
  {
    hide Earned;
    if RefillsBeforeStale(cfg) {
      forall calls: seq<Call>, t: real | Ordered(calls, t)
        ensures Verdicts(cfg, true, New(cfg, t), calls) == Verdicts(cfg, false, New(cfg, t), calls)
      {
        NewIsValid(cfg, t);
        RunsAgree(cfg, true, false, New(cfg, t), New(cfg, t), t, calls);
      }
    } else {
      var extra := TooSlow(cfg);
      EarnedNonnegative(cfg.staleAfter + extra, cfg.perKeyRate);
      TwoBurstsVerdicts(cfg, extra);
    }
  }

  /** The calls from the i-th to the j-th admit the key at most its burst plus what it earns meanwhile. */
  ghost predicate WindowIsBounded(cfg: Config, t: real, calls: seq<Call>, i: nat, j: nat, key: string)
    requires i <= j < |calls|
  {
    AllowedFor(key, calls[i..j + 1], Verdicts(cfg, true, New(cfg, t), calls)[i..j + 1]) as real
      <= Positive(cfg.perKeyBurst as real) + Earned(calls[j].now - calls[i].now, cfg.perKeyRate)
  }

  ghost predicate KeyWindowsAreBounded(cfg: Config) {
    forall calls: seq<Call>, t: real, i: nat, j: nat, key: string ::
      i <= j < |calls| && Ordered(calls, t) && key != "" ==> WindowIsBounded(cfg, t, calls, i, j, key)
  }

  lemma {:induction false} RunSuffix(cfg: Config, evict: bool, t: real, s: State, calls: seq<Call>, i: nat)
    requires Sane(cfg) && ValidAt(cfg, s, t) && Ordered(calls, t) && i < |calls|
    ensures Ordered(calls[i..], calls[i].now)
    ensures ValidAt(cfg, After(cfg, evict, s, calls[..i]), calls[i].now)
    ensures Verdicts(cfg, evict, s, calls)[i..] == Verdicts(cfg, evict, After(cfg, evict, s, calls[..i]), calls[i..])
    decreases i
  {
    hide Earned, Step, Refill;
    if i == 0 {
      ValidLater(cfg, s, t, calls[0].now);
      assert calls[0..] == calls;
      assert Ordered([calls[0]] + calls[1..], calls[0].now);
    } else {
      StepKeepsValid(cfg, evict, s, calls[0]) by { ValidLater(cfg, s, t, calls[0].now); }
      var s' := Step(cfg, evict, s, calls[0]).0;
      RunSuffix(cfg, evict, calls[0].now, s', calls[1..], i - 1);
      assert calls[1..][i - 1..] == calls[i..];
      assert calls[..i][1..] == calls[1..][..i - 1];
    }
  }

  lemma {:induction false} RunPrefix(cfg: Config, evict: bool, s: State, calls: seq<Call>, n: nat, t: real)
    requires n <= |calls| && Ordered(calls, t)
    ensures Ordered(calls[..n], t)
    ensures Verdicts(cfg, evict, s, calls)[..n] == Verdicts(cfg, evict, s, calls[..n])
    decreases n
  {
    hide Earned, Step, Refill;
    if n > 0 {
      RunPrefix(cfg, evict, Step(cfg, evict, s, calls[0]).0, calls[1..], n - 1, calls[0].now);
      assert calls[..n][1..] == calls[1..][..n - 1];
    }
  }

  /** A window of a run is itself a run, from the state the limiter had reached. */
  lemma WindowIsRun(cfg: Config, evict: bool, t: real, calls: seq<Call>, i: nat, j: nat) returns (s: State)
    requires Sane(cfg) && Ordered(calls, t) && i <= j < |calls|
    ensures ValidAt(cfg, s, calls[i].now) && Ordered(calls[i..j + 1], calls[i].now)
    ensures Verdicts(cfg, evict, New(cfg, t), calls)[i..j + 1] == Verdicts(cfg, evict, s, calls[i..j + 1])
  {
    hide Earned;
    NewIsValid(cfg, t);
    RunSuffix(cfg, evict, t, New(cfg, t), calls, i);
    s := After(cfg, evict, New(cfg, t), calls[..i]);
    RunPrefix(cfg, evict, s, calls[i..], j + 1 - i, calls[i].now);
    assert calls[i..][..j + 1 - i] == calls[i..j + 1];
    var vs := Verdicts(cfg, evict, New(cfg, t), calls);
    assert vs[i..][..j + 1 - i] == vs[i..j + 1];
  }

  lemma {:induction false} EveryProbeCounts(calls: seq<Call>, vs: seq<Verdict>)
    requires |calls| == |vs|
    requires AllAllowed(vs) && forall i :: 0 <= i < |calls| ==> calls[i].key == "k"
    ensures AllowedFor("k", calls, vs) == |calls|
    decreases calls
  {
    if calls != [] {
      EveryProbeCounts(calls[1..], vs[1..]);
    }
  }

  lemma KeyWindowIsBounded(cfg: Config, t: real, calls: seq<Call>, i: nat, j: nat, key: string)
    requires Sane(cfg) && RefillsBeforeStale(cfg)
    requires i <= j < |calls| && Ordered(calls, t) && key != ""
    ensures WindowIsBounded(cfg, t, calls, i, j, key)
  {
    hide Earned, Step;
    NewIsValid(cfg, t);
    RunsAgree(cfg, true, false, New(cfg, t), New(cfg, t), t, calls);
    var s := WindowIsRun(cfg, false, t, calls, i, j);
    KeyBudget(cfg, s, calls[i].now, calls[i..j + 1], key);
    assert Level(cfg, s, key, calls[i].now).tokens <= cfg.perKeyBurst as real by {
      KeyBucketOk(cfg, s, key, calls[i].now);
      OperationsKeepSound(KeyBucket(cfg, s, key, calls[i].now), calls[i].now);
    }
  }

  lemma TwoBurstsBreakTheBound(cfg: Config)
    requires Sane(cfg) && !RefillsBeforeStale(cfg)
    ensures !KeyWindowsAreBounded(cfg)
  {
    hide Earned, Step;
    var extra := TooSlow(cfg);
    EarnedNonnegative(cfg.staleAfter + extra, cfg.perKeyRate);
    TwoBurstsVerdicts(cfg, extra);
    var n, later := cfg.perKeyBurst, cfg.staleAfter + extra;
    var calls := TwoBursts(cfg, extra);
    var vs := Verdicts(cfg, true, New(cfg, 0.0), calls);
    ProbeEnds(n, 0.0);
    ProbeEnds(n, later);
    EveryProbeCounts(calls, vs);
    assert calls[0..2 * n - 1 + 1] == calls && vs[0..2 * n - 1 + 1] == vs;
    assert calls[2 * n - 1].now - calls[0].now == later;
    assert !WindowIsBounded(cfg, 0.0, calls, 0, 2 * n - 1, "k");
  }

  /** In any window of any run one key is admitted at most its burst plus what the window earns,
      exactly when an idle key has refilled by the time it may be forgotten. */
  lemma KeyWindowsAreBoundedExactly(cfg: Config)
    requires Sane(cfg)
    ensures KeyWindowsAreBounded(cfg) <==> RefillsBeforeStale(cfg)
  {
    hide Earned, WindowIsBounded;
    if RefillsBeforeStale(cfg) {
      forall calls: seq<Call>, t: real, i: nat, j: nat, key: string
        | i <= j < |calls| && Ordered(calls, t) && key != ""
        ensures WindowIsBounded(cfg, t, calls, i, j, key)
      {
        KeyWindowIsBounded(cfg, t, calls, i, j, key);
      }
    } else {
      TwoBurstsBreakTheBound(cfg);
    }
  }

  /** Whatever the configuration, the shared bucket bounds the calls admitted through `Allow`. */
  lemma GlobalWindowsAreBounded(cfg: Config, evict: bool, t: real, calls: seq<Call>, i: nat, j: nat)
    requires Sane(cfg) && Ordered(calls, t) && i <= j < |calls|
    ensures AllowedGlobally(calls[i..j + 1], Verdicts(cfg, evict, New(cfg, t), calls)[i..j + 1]) as real
         <= Positive(cfg.globalBurst as real) + Earned(calls[j].now - calls[i].now, cfg.globalRate)
  {
    hide Earned;
    var s := WindowIsRun(cfg, evict, t, calls, i, j);
    GlobalBudget(cfg, evict, s, calls[i].now, calls[i..j + 1]);
    OperationsKeepSound(s.global, calls[i].now);
  }

  ghost predicate DropsOnlyRejections(cfg: Config, t: real, calls: seq<Call>, keep: seq<bool>) {
    && |keep| == |calls|
    && forall i :: 0 <= i < |calls| && !keep[i] ==> !Verdicts(cfg, true, New(cfg, t), calls)[i].allowed
  }

  ghost predicate RejectionsAreUnobservable(cfg: Config) {
    forall calls: seq<Call>, t: real, keep: seq<bool> ::
      Ordered(calls, t) && DropsOnlyRejections(cfg, t, calls, keep) ==>
        Verdicts(cfg, true, New(cfg, t), Select(calls, keep)) ==
        Select(Verdicts(cfg, true, New(cfg, t), calls), keep)
  }

  lemma {:induction false} SelectAround<T>(a: seq<T>, x: T, b: seq<T>, keep: seq<bool>)
    requires |keep| == |a| + 1 + |b|
    requires forall i :: 0 <= i < |keep| ==> (keep[i] <==> i != |a|)
    ensures Select(a + [x] + b, keep) == a + b
    decreases |a| + |b|
  {
    var xs := a + [x] + b;
    if a != [] {
      assert xs[1..] == a[1..] + [x] + b;
      SelectAround(a[1..], x, b, keep[1..]);
    } else {
      assert xs[1..] == b;
      SelectAll(b, keep[1..]);
    }
  }

  lemma {:induction false} SelectAll<T>(xs: seq<T>, keep: seq<bool>)
    requires |xs| == |keep| && forall i :: 0 <= i < |keep| ==> keep[i]
    ensures Select(xs, keep) == xs
  {
    if xs != [] {
      SelectAll(xs[1..], keep[1..]);
    }
  }

  /** One rejected call at `extra` keeps the key from being forgotten at `staleAfter + extra`. */
  lemma RejectionKeepsKeyAlive(cfg: Config, extra: real)
    requires Sane(cfg) && 0 < cfg.perKeyBurst && 0.0 < extra < cfg.staleAfter / 2.0
    requires Earned(cfg.staleAfter + extra, cfg.perKeyRate) < cfg.perKeyBurst as real
    requires Earned(extra, cfg.perKeyRate) < 1.0
    ensures var (s, v) := Step(cfg, true, Spent(cfg, true), AllowKey("k", extra));
            && !v.allowed
            && !Verdicts(cfg, true, s, Probe(cfg.perKeyBurst, cfg.staleAfter + extra))[cfg.perKeyBurst - 1].allowed
  {
    hide Earned;
    var later := cfg.staleAfter + extra;
    SpendAll(cfg, true);
    var s0 := Spent(cfg, true);
    var b := s0.buckets["k"];
    assert extra - 0.0 == extra;
    var (s, v) := Step(cfg, true, s0, AllowKey("k", extra));
    ValidLater(cfg, s0, 0.0, extra);
    StepKeepsValid(cfg, true, s0, AllowKey("k", extra));
    assert s.buckets["k"] == Refill(b, extra);
    ValidLater(cfg, s, extra, later);
    RefillComposes(b, extra, later);
    assert later - 0.0 == later;
    SweepFirst(cfg, s, cfg.perKeyBurst, later);
    var swept := Clean(cfg, s, later);
    assert "k" in swept.buckets;
    ProbeVerdicts(cfg, true, swept, cfg.perKeyBurst, later, Level(cfg, swept, "k", later).tokens);
  }

  lemma DroppedRejectionShows(cfg: Config)
    requires Sane(cfg) && !RefillsBeforeStale(cfg)
    ensures !RejectionsAreUnobservable(cfg)
  {
    hide Earned, Step, Refill, ValidAt, Clean, RetryAfter;
    var extra := TooSlow(cfg);
    EarnedNonnegative(cfg.staleAfter + extra, cfg.perKeyRate);
    var n, later := cfg.perKeyBurst, cfg.staleAfter + extra;
    var first, call, second := Probe(n, 0.0), AllowKey("k", extra), Probe(n, later);
    var calls := first + [call] + second;
    var keep := seq(2 * n + 1, i => i != n);
    var s0 := New(cfg, 0.0);
    ProbeIsOrdered(n, 0.0, 0.0);
    ProbeIsOrdered(n, later, extra);
    ProbeEnds(n, 0.0);
    assert Ordered([call] + second, 0.0);
    OrderedAppend(first, [call] + second, 0.0);
    assert first + ([call] + second) == calls;
    VerdictsAppend(cfg, true, s0, first, [call] + second);
    VerdictsAppend(cfg, true, s0, first, second);
    RejectionKeepsKeyAlive(cfg, extra);
    WholeBurstAgain(cfg, extra);
    SpendAll(cfg, true);
    SelectAround(first, call, second, keep);
    var (s, v) := Step(cfg, true, Spent(cfg, true), call);
    var vs := Verdicts(cfg, true, s0, calls);
    var tail := Verdicts(cfg, true, s, second);
    assert ([call] + second)[1..] == second;
    assert vs == Verdicts(cfg, true, s0, first) + [v] + tail;
    SelectAround(Verdicts(cfg, true, s0, first), v, tail, keep);
    assert DropsOnlyRejections(cfg, 0.0, calls, keep);
    assert Select(vs, keep)[2 * n - 1] == tail[n - 1];
    assert Verdicts(cfg, true, s0, first + second)[2 * n - 1].allowed;
  }

  /** Deleting any set of rejected calls from a run leaves every other verdict as it was, exactly
      when an idle key has refilled by the time it may be forgotten. */
  lemma RejectionsAreUnobservableExactly(cfg: Config)
    requires Sane(cfg)
    ensures RejectionsAreUnobservable(cfg) <==> RefillsBeforeStale(cfg)
  {
    hide Earned, Step;
    if RefillsBeforeStale(cfg) {
      forall calls: seq<Call>, t: real, keep: seq<bool>
        | Ordered(calls, t) && DropsOnlyRejections(cfg, t, calls, keep)
        ensures Verdicts(cfg, true, New(cfg, t), Select(calls, keep)) ==
                Select(Verdicts(cfg, true, New(cfg, t), calls), keep)
      {
        NewIsValid(cfg, t);
        DroppedRejectionsAgree(cfg, true, New(cfg, t), New(cfg, t), t, calls, keep);
      }
    } else {
      DroppedRejectionShows(cfg);
    }
  }

  /** Along every run each bucket holds between nothing and its capacity. */
  lemma TokensStayInRange(cfg: Config, evict: bool, t: real, calls: seq<Call>, n: nat)
    requires Sane(cfg) && 0 <= cfg.perKeyBurst && 0 <= cfg.globalBurst
    requires Ordered(calls, t) && n < |calls|
    ensures var s := After(cfg, evict, New(cfg, t), calls[..n]);
            && 0.0 <= s.global.tokens <= cfg.globalBurst as real
            && forall k :: k in s.buckets ==> 0.0 <= s.buckets[k].tokens <= cfg.perKeyBurst as real
  {
    hide Earned, Step;
    NewIsValid(cfg, t);
    RunSuffix(cfg, evict, t, New(cfg, t), calls, n);
  }

  // ---- The advertised retry time ------------------------------------------------------------

  /** The bucket of the key after a call it rejected, and why the shared bucket is not in the way. */
  lemma AfterKeyRejection(cfg: Config, evict: bool, s: State, call: Call) returns (b: BucketState)
    requires Sane(cfg) && ValidAt(cfg, s, call.now)
    requires !Step(cfg, evict, s, call).1.allowed && (call.Allow? ==> Take(s.global, call.now).1)
    ensures BucketOk(b, cfg.perKeyRate, cfg.perKeyBurst, call.now) && !Take(b, call.now).1 && call.key != ""
    ensures BucketOk(Take(b, call.now).0, cfg.perKeyRate, cfg.perKeyBurst, call.now)
    ensures var (s', v) := Step(cfg, evict, s, call);
            && call.key in s'.buckets && s'.buckets[call.key] == Take(b, call.now).0
            && v.retryAfter == RetryAfter(b, call.now)
            && (call.Allow? ==> s'.global == Refill(s.global, call.now) && 1.0 <= s'.global.tokens)
  {
    hide Earned;
    var c := if evict then Clean(cfg, s, call.now) else s;
    b := KeyBucket(cfg, c, call.key, call.now);
    KeyBucketOk(cfg, c, call.key, call.now);
    SecondRefillIsIdle(b, call.now);
    OperationsKeepSound(b, call.now);
    if call.Allow? {
      RefundUndoesTake(s.global, call.now);
    }
  }

  /** With the shared bucket out of the way the key decides, unless the sweep of this very call
      forgets it: a new bucket admits the call. */
  lemma KeyDecides(cfg: Config, evict: bool, s: State, call: Call)
    requires Sane(cfg) && 1 <= cfg.perKeyBurst && call.key != "" && call.key in s.buckets
    requires call.Allow? ==> Take(s.global, call.now).1
    requires s.lastClean <= s.buckets[call.key].lastFill
    ensures Step(cfg, evict, s, call).1.allowed <==>
      Take(s.buckets[call.key], call.now).1 || (evict && call.now - s.buckets[call.key].lastFill > cfg.staleAfter)
  {
    hide Earned;
    var key, now := call.key, call.now;
    var c := if evict then Clean(cfg, s, now) else s;
    assert c.global == s.global;
    if key in c.buckets {
      assert c.buckets[key] == s.buckets[key];
    }
    assert Step(cfg, evict, s, call).1.allowed <==> Take(KeyBucket(cfg, c, key, now), now).1;
  }

  /** After a call rejected by its key, the same call `retryAfter` seconds later with nothing in
      between is admitted; one second earlier it is still rejected, exactly unless that is so late
      that the key has been forgotten. */
  lemma RetryTimeForKey(cfg: Config, evict: bool, s: State, call: Call)
    requires Sane(cfg) && 0.0 < cfg.perKeyRate && 1 <= cfg.perKeyBurst
    requires ValidAt(cfg, s, call.now) && s.lastClean <= call.now
    requires !Step(cfg, evict, s, call).1.allowed
    requires call.Allow? ==> Take(s.global, call.now).1
    ensures var (s', v) := Step(cfg, evict, s, call);
            && 1 <= v.retryAfter
            && Step(cfg, evict, s', call.(now := call.now + v.retryAfter as real)).1.allowed
            && (Step(cfg, evict, s', call.(now := call.now + (v.retryAfter - 1) as real)).1.allowed <==>
                evict && (v.retryAfter - 1) as real > cfg.staleAfter)
  {
    hide Earned, Step, Refill, RetryAfter, Take;
    var now := call.now;
    var b := AfterKeyRejection(cfg, evict, s, call);
    var (s', v) := Step(cfg, evict, s, call);
    RetryAfterExact(b, now);
    RejectedJustFilled(b, now);
    SweptBy(cfg, evict, s, call);
    var later, early := now + v.retryAfter as real, now + (v.retryAfter - 1) as real;
    if call.Allow? {
      OperationsKeepSound(s.global, now);
      RefillSettles(s.global, now);
      GlobalStillHolds(s'.global, now, later);
      GlobalStillHolds(s'.global, now, early);
    }
    KeyDecides(cfg, evict, s', call.(now := later));
    KeyDecides(cfg, evict, s', call.(now := early));
  }

  lemma RejectedJustFilled(b: BucketState, now: real)
    requires b.lastFill <= now && !Take(b, now).1
    ensures Take(b, now).0.lastFill == now && !Take(Take(b, now).0, now).1
  {
    hide Earned;
    SecondRefillIsIdle(b, now);
  }

  lemma SweptBy(cfg: Config, evict: bool, s: State, call: Call)
    requires s.lastClean <= call.now
    ensures Step(cfg, evict, s, call).0.lastClean <= call.now
  {
    hide Earned;
  }

  lemma GlobalStillHolds(b: BucketState, now: real, later: real)
    requires Sound(b) && b.lastFill == now <= later && 1.0 <= b.tokens
    ensures Take(b, later).1
  {
    hide Earned;
    if now < later {
      EarnedNonnegative(later - now, b.rate);
    }
  }

  /** A rejection by the key in the state a run has led to. */
  predicate RejectedByKey(cfg: Config, s: State, call: Call) {
    !Step(cfg, true, s, call).1.allowed && (call.Allow? ==> Take(s.global, call.now).1)
  }

  ghost predicate TightAfter(cfg: Config, t: real, calls: seq<Call>, call: Call) {
    var s := After(cfg, true, New(cfg, t), calls);
    Ordered(calls + [call], t) && RejectedByKey(cfg, s, call) ==>
      var (s', v) := Step(cfg, true, s, call);
      !Step(cfg, true, s', call.(now := call.now + (v.retryAfter - 1) as real)).1.allowed
  }

  /** Whatever came before, a key that was rejected is still rejected one second before its advertised
      time. */
  ghost predicate RetryTimesAreTight(cfg: Config) {
    forall calls: seq<Call>, t: real, call: Call :: TightAfter(cfg, t, calls, call)
  }

  /** The longest wait a key is ever told, less a second, passes before an idle key is forgotten. */
  predicate LongestWaitBeforeStale(cfg: Config)
    requires 0.0 < cfg.perKeyRate
  {
    (Ceil(1.0 / cfg.perKeyRate) - 1) as real <= cfg.staleAfter
  }

  lemma {:induction false} RunSweptBy(cfg: Config, evict: bool, t: real, s: State, calls: seq<Call>, i: nat)
    requires s.lastClean <= t && Ordered(calls, t) && i < |calls|
    ensures After(cfg, evict, s, calls[..i]).lastClean <= calls[i].now
    decreases i
  {
    hide Earned, Step;
    if i > 0 {
      SweptBy(cfg, evict, s, calls[0]);
      RunSweptBy(cfg, evict, calls[0].now, Step(cfg, evict, s, calls[0]).0, calls[1..], i - 1);
      assert calls[..i][1..] == calls[1..][..i - 1];
    }
  }

  /** No wait is longer than the time an empty bucket takes to earn one token. */
  lemma LongestWait(b: BucketState, now: real)
    requires Sound(b) && 0.0 < b.rate && 1 <= b.burst
    ensures RetryAfter(b, now) <= Ceil(1.0 / b.rate) && 1 <= Ceil(1.0 / b.rate)
  {
    hide Earned;
    OperationsKeepSound(b, now);
    var d := 1.0 - Refill(b, now).tokens;
    CeilDivides(1.0, b.rate);
    if 0.0 < d {
      CeilDivides(d, b.rate);
      EarnedInQuotient(1.0, b.rate);
      var wait := (Ceil(d / b.rate) - 1) as real;
      if 1.0 / b.rate <= wait {
        EarnedMonotone(1.0 / b.rate, wait, b.rate);
      }
      CeilBounds(1.0 / b.rate);
    }
  }

  lemma TightWhenWaitsAreShort(cfg: Config, t: real, calls: seq<Call>, call: Call)
    requires Sane(cfg) && 0.0 < cfg.perKeyRate && 1 <= cfg.perKeyBurst && LongestWaitBeforeStale(cfg)
    ensures TightAfter(cfg, t, calls, call)
  {
    hide Earned, Step, Take, Refill, RetryAfter;
    var s := After(cfg, true, New(cfg, t), calls);
    if Ordered(calls + [call], t) && RejectedByKey(cfg, s, call) {
      var all := calls + [call];
      NewIsValid(cfg, t);
      RunSuffix(cfg, true, t, New(cfg, t), all, |calls|);
      RunSweptBy(cfg, true, t, New(cfg, t), all, |calls|);
      assert all[..|calls|] == calls;
      RetryTimeForKey(cfg, true, s, call);
      var b := AfterKeyRejection(cfg, true, s, call);
      LongestWait(b, call.now);
    }
  }

  /** A key with an empty bucket, rejected and forgotten more than a second before its time. */
  lemma ForgottenBeforeItsTime(cfg: Config)
    requires Sane(cfg) && 0.0 < cfg.perKeyRate && 1 <= cfg.perKeyBurst && !LongestWaitBeforeStale(cfg)
    ensures var (s', v) := Step(cfg, true, Spent(cfg, true), AllowKey("k", 0.0));
      && !v.allowed && v.retryAfter == Ceil(1.0 / cfg.perKeyRate)
      && Step(cfg, true, s', AllowKey("k", (v.retryAfter - 1) as real)).1.allowed
    ensures !RetryTimesAreTight(cfg)
  {
    hide Earned;
    SpendAll(cfg, true);
    var s, call := Spent(cfg, true), AllowKey("k", 0.0);
    CeilDivides(1.0, cfg.perKeyRate);
    var (s', v) := Step(cfg, true, s, call);
    assert Clean(cfg, s, 0.0) == s;
    assert v == Verdict(false, Ceil(1.0 / cfg.perKeyRate));
    RetryTimeForKey(cfg, true, s, call);
    assert call.(now := 0.0 + (v.retryAfter - 1) as real) == AllowKey("k", (v.retryAfter - 1) as real);
    var calls := Probe(cfg.perKeyBurst, 0.0);
    ProbeIsOrdered(cfg.perKeyBurst, 0.0, 0.0);
    ProbeEnds(cfg.perKeyBurst, 0.0);
    assert calls + [call] == Probe(cfg.perKeyBurst, 0.0) + [call];
    OrderedAppend(calls, [call], 0.0);
    assert !TightAfter(cfg, 0.0, calls, call);
  }

  /** One request in a thousand seconds, forgotten after ten minutes: the key is told 1000 seconds and
      admitted after 999. */
  lemma SlowKeyIsAdmittedEarly()
    ensures var cfg := Config(0.001, 1, 1.0, 1, STALE_AFTER);
      var (s', v) := Step(cfg, true, Spent(cfg, true), AllowKey("k", 0.0));
      v == Verdict(false, 1000) && Step(cfg, true, s', AllowKey("k", 999.0)).1.allowed
  {
    hide Earned;
    var cfg := Config(0.001, 1, 1.0, 1, STALE_AFTER);
    assert Ceil(1.0 / 0.001) == 1000;
    ForgottenBeforeItsTime(cfg);
  }

  /** The advertised wait is tight in every run exactly when the longest wait, less a second, is over
      before an idle key is forgotten. */
  lemma RetryTimesAreTightExactly(cfg: Config)
    requires Sane(cfg) && 0.0 < cfg.perKeyRate && 1 <= cfg.perKeyBurst
    ensures RetryTimesAreTight(cfg) <==> LongestWaitBeforeStale(cfg)
  {
    hide Earned, TightAfter;
    if LongestWaitBeforeStale(cfg) {
      forall calls: seq<Call>, t: real, call: Call ensures TightAfter(cfg, t, calls, call) {
        TightWhenWaitsAreShort(cfg, t, calls, call);
      }
    } else {
      ForgottenBeforeItsTime(cfg);
    }
  }

  /** After a call rejected by the shared bucket, that bucket holds a token `retryAfter` seconds
      later and held none one second before. */
  lemma RetryTimeForGlobal(cfg: Config, evict: bool, s: State, call: Call)
    requires Sane(cfg) && 0.0 < cfg.globalRate && 1 <= cfg.globalBurst && ValidAt(cfg, s, call.now)
    requires call.Allow? && !Take(s.global, call.now).1
    ensures var (s', v) := Step(cfg, evict, s, call);
            && !v.allowed && 1 <= v.retryAfter
            && Take(s'.global, call.now + v.retryAfter as real).1
            && (1 < v.retryAfter ==> !Take(s'.global, call.now + (v.retryAfter - 1) as real).1)
  {
    hide Earned;
    RetryAfterExact(s.global, call.now);
    SecondRefillIsIdle(s.global, call.now);
  }

  // ---- The configurations of the server -----------------------------------------------------

  /** The limits the server starts with: sign-in, client address, agent and verification attempts. */
  const SHIPPED: set<Config> := {
    Config(1.0 / 30.0, 8, 50.0, 200, STALE_AFTER),
    Config(50.0, 100, 200.0, 400, STALE_AFTER),
    Config(20.0, 40, 10000.0, 10000, STALE_AFTER),
    Config(0.5, 10, 10000.0, 10000, STALE_AFTER)
  }

  lemma ShippedLimitsMeetTheCondition(cfg: Config)
    requires cfg in SHIPPED
    ensures EvictionIsUnobservable(cfg) && RejectionsAreUnobservable(cfg) && KeyWindowsAreBounded(cfg) && RetryTimesAreTight(cfg)
  {
    hide EvictionIsUnobservable, RejectionsAreUnobservable, KeyWindowsAreBounded, RetryTimesAreTight;
    EvictionIsUnobservableExactly(cfg);
    RejectionsAreUnobservableExactly(cfg);
    KeyWindowsAreBoundedExactly(cfg);
    RetryTimesAreTightExactly(cfg);
  }
}
