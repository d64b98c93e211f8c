/** The rate limiter of api/rate_limiter.go: one shared bucket, one bucket per key created on
    demand, and a periodic sweep that forgets keys unused for `staleAfter` seconds. `Step` is
    the specification; the class at the end is the object whose fields are updated in place. */
module RateLimiter {
  import opened TokenBuckets

  datatype Config = Config(
    perKeyRate: real, perKeyBurst: int, globalRate: real, globalBurst: int, staleAfter: real)

  datatype State = State(global: BucketState, buckets: map<string, BucketState>, lastClean: real)

  datatype Call =
    | Allow(key: string, now: real)
    | AllowKey(key: string, now: real)

  datatype Verdict = Verdict(allowed: bool, retryAfter: int)

  const STALE_AFTER := 600.0

  function New(cfg: Config, now: real): State {
    State(Full(cfg.globalRate, cfg.globalBurst, now), map[], now)
  }

  function KeyBucket(cfg: Config, s: State, key: string, now: real): BucketState {
    if key in s.buckets then s.buckets[key] else Full(cfg.perKeyRate, cfg.perKeyBurst, now)
  }

  /** The sweep: at most every half `staleAfter`, forget each bucket last filled before the cutoff. */
  function Clean(cfg: Config, s: State, now: real): State {
    if now - s.lastClean < cfg.staleAfter / 2.0 then s
    else
      var cutoff := now - cfg.staleAfter;
      s.(buckets := map k | k in s.buckets && !(s.buckets[k].lastFill < cutoff) :: s.buckets[k],
         lastClean := now)
  }

  function CheckKey(cfg: Config, s: State, key: string, now: real): (State, Verdict) {
    var b := KeyBucket(cfg, s, key, now);
    var (taken, ok) := Take(b, now);
    (s.(buckets := s.buckets[key := taken]), if ok then Verdict(true, 0) else Verdict(false, RetryAfter(taken, now)))
  }

  /** A call once the sweep is over. */
  function Decide(cfg: Config, s: State, call: Call): (State, Verdict) {
    match call
    case Allow(key, now) =>
      var (g, ok) := Take(s.global, now);
      if !ok then (s.(global := g), Verdict(false, RetryAfter(g, now)))
      else if key == "" then (s.(global := g), Verdict(true, 0))
      else
        var (s', v) := CheckKey(cfg, s.(global := g), key, now);
        (if v.allowed then s' else s'.(global := Refund(g)), v)
    case AllowKey(key, now) =>
      if key == "" then (s, Verdict(true, 0)) else CheckKey(cfg, s, key, now)
  }

  /** One call. With `evict` off this is the limiter that never forgets a key. An `AllowKey` with
      the empty key returns before the clock is read, so it does not sweep. */
  function Step(cfg: Config, evict: bool, s: State, call: Call): (State, Verdict) {
    var swept := if evict && !(call.AllowKey? && call.key == "") then Clean(cfg, s, call.now) else s;
    Decide(cfg, swept, call)
  }

  /** The limiter as the source keeps it. The clock reading is a parameter of every call. */
  class Limiter {
    const cfg: Config
    const global: Bucket
    var buckets: map<string, Bucket>
    var lastClean: real

    ghost predicate Valid()
      reads this
    {
      && global !in buckets.Values
      && (forall j, k :: j in buckets && k in buckets && j != k ==> buckets[j] != buckets[k])
    }

    ghost function View(): State
      reads this, global, buckets.Values
    {
      State(global.View(), map k | k in buckets :: buckets[k].View(), lastClean)
    }

    constructor (perKeyRate: real, perKeyBurst: int, globalRate: real, globalBurst: int, now: real)
      ensures cfg == Config(perKeyRate, perKeyBurst, globalRate, globalBurst, 600.0)
      ensures Valid() && fresh(global) && View() == New(cfg, now)
    {
      cfg := Config(perKeyRate, perKeyBurst, globalRate, globalBurst, STALE_AFTER);
      buckets := map[];
      global := new Bucket(globalRate, globalBurst, now);
      lastClean := now;
    }

    method MaybeClean(now: real)
      requires Valid()
      modifies this
      ensures Valid() && buckets.Values <= old(buckets.Values)
      ensures View() == Clean(cfg, old(View()), now)
    {
      hide Earned, Refill, Take, RetryAfter, KeyBucket;
      if now - lastClean < cfg.staleAfter / 2.0 {
        return;
      }
      var cutoff := now - cfg.staleAfter;
      var pending := buckets.Keys;
      while pending != {}
        invariant pending <= old(buckets).Keys && buckets.Keys <= old(buckets).Keys
        invariant forall k :: k in buckets ==> buckets[k] == old(buckets)[k]
        invariant forall k :: k in old(buckets) ==>
          (k in buckets <==> k in pending || !(old(buckets)[k].lastFill < cutoff))
        invariant lastClean == old(lastClean)
        decreases pending
      {
        var key :| key in pending;
        if buckets[key].lastFill < cutoff {
          buckets := buckets - {key};
        }
        pending := pending - {key};
      }
      lastClean := now;
      assert View().buckets == Clean(cfg, old(View()), now).buckets;
    }

    method FindOrCreate(key: string, now: real) returns (b: Bucket)
      requires Valid()
      modifies this`buckets
      ensures Valid() && key in buckets && b == buckets[key]
      ensures fresh(buckets.Values - old(buckets.Values))
      ensures b.View() == KeyBucket(cfg, old(View()), key, now)
      ensures View() == old(View()).(buckets := old(View()).buckets[key := b.View()])
    {
      hide Earned;
      if key in buckets {
        b := buckets[key];
      } else {
        b := new Bucket(cfg.perKeyRate, cfg.perKeyBurst, now);
        buckets := buckets[key := b];
      }
      assert View().buckets == old(View()).buckets[key := b.View()];
    }

    method Consume(b: Bucket, now: real) returns (allowed: bool, retryAfter: int)
      modifies b
      ensures (b.View(), allowed) == Take(old(b.View()), now)
      ensures retryAfter == if allowed then 0 else RetryAfter(b.View(), now)
    {
      hide Earned;
      ghost var before := b.View();
      allowed := b.Allow(now);
      retryAfter := 0;
      if !allowed {
        retryAfter := b.SecondsToNextToken(now);
        SecondRefillIsIdle(before, now);
      }
    }

    /** Takes from the bucket the key has. */
    method ConsumeFrom(key: string, now: real) returns (allowed: bool, retryAfter: int)
      requires Valid() && key in buckets
      modifies buckets.Values
      ensures View().buckets == old(View()).buckets[key := buckets[key].View()] && global.View() == old(global.View())
      ensures (buckets[key].View(), allowed) == Take(old(buckets[key].View()), now)
      ensures retryAfter == if allowed then 0 else RetryAfter(buckets[key].View(), now)
    {
      hide Earned, Refill, Take, RetryAfter;
      var b := buckets[key];
      allowed, retryAfter := Consume(b, now);
      forall k | k in buckets && k != key ensures buckets[k].View() == old(buckets[k].View()) {
        assert buckets[k] != b;
      }
    }

    method ConsumeKey(key: string, now: real) returns (allowed: bool, retryAfter: int)
      requires Valid()
      modifies this`buckets, buckets.Values
      ensures Valid() && fresh(buckets.Values - old(buckets.Values))
      ensures global.View() == old(global.View()) && lastClean == old(lastClean)
      ensures (View(), Verdict(allowed, retryAfter)) == CheckKey(cfg, old(View()), key, now)
    {
      hide Earned, Refill, Take, RetryAfter, KeyBucket;
      ghost var before := View();
      var b := FindOrCreate(key, now);
      ghost var full := b.View();
      assert full == KeyBucket(cfg, before, key, now);
      allowed, retryAfter := ConsumeFrom(key, now);
      assert View() == before.(buckets := before.buckets[key := Take(full, now).0]) by {
        assert View().buckets == before.buckets[key := full][key := Take(full, now).0];
      }
    }

    method Allow(key: string, now: real) returns (allowed: bool, retryAfter: int)
      requires Valid()
      modifies this, global, buckets.Values
      ensures Valid() && fresh(buckets.Values - old(buckets.Values))
      ensures (View(), Verdict(allowed, retryAfter)) == Step(cfg, true, old(View()), Call.Allow(key, now))
    {
      hide Earned, Refill, Take, Refund, RetryAfter, KeyBucket, Clean;
      MaybeClean(now);
      label swept:
      allowed, retryAfter := Consume(global, now);
      assert View().buckets == old@swept(View()).buckets;
      if !allowed {
        return false, retryAfter;
      }
      if key != "" {
        allowed, retryAfter := ConsumeKey(key, now);
        if !allowed {
          label rejected:
          global.GiveBack();
          assert View().buckets == old@rejected(View()).buckets;
          return false, retryAfter;
        }
      }
      return true, 0;
    }

    method AllowKey(key: string, now: real) returns (allowed: bool, retryAfter: int)
      requires Valid()
      modifies this, buckets.Values
      ensures Valid() && fresh(buckets.Values - old(buckets.Values))
      ensures (View(), Verdict(allowed, retryAfter)) == Step(cfg, true, old(View()), Call.AllowKey(key, now))
    {
      hide Earned;
      if key == "" {
        return true, 0;
      }
      MaybeClean(now);
      allowed, retryAfter := ConsumeKey(key, now);
    }
  }
}
