/** A single token bucket: the lazily refilled bucket of api/rate_limiter.go, as a value
    with its operations, and the class whose methods update the same fields in place.
    Time is measured in seconds and, like the tokens, is a real number. */
module TokenBuckets {

  datatype BucketState = BucketState(tokens: real, lastFill: real, rate: real, burst: int)

  function Full(rate: real, burst: int, now: real): BucketState {
    BucketState(burst as real, now, rate, burst)
  }

  function Earned(elapsed: real, rate: real): real {
    elapsed * rate
  }

  /** Adds the tokens earned since the last fill, never beyond the capacity.
      A clock that has not moved, or has moved backwards, adds nothing. */
  function Refill(b: BucketState, now: real): BucketState {
    var elapsed := now - b.lastFill;
    if elapsed <= 0.0 then b
    else
      var earned := b.tokens + Earned(elapsed, b.rate);
      b.(tokens := if earned > b.burst as real then b.burst as real else earned, lastFill := now)
  }

  function Take(b: BucketState, now: real): (BucketState, bool) {
    var f := Refill(b, now);
    if f.tokens < 1.0 then (f, false) else (f.(tokens := f.tokens - 1.0), true)
  }

  function Refund(b: BucketState): BucketState {
    if b.tokens < b.burst as real then b.(tokens := b.tokens + 1.0) else b
  }

  function Ceil(x: real): int {
    -((-x).Floor)
  }

  /** Seconds until the next token, rounded up and at least one. */
  function RetryAfter(b: BucketState, now: real): int {
    var f := Refill(b, now);
    if f.rate <= 0.0 then 1
    else
      var deficit := 1.0 - f.tokens;
      if deficit <= 0.0 then 1
      else
        var seconds := Ceil(deficit / f.rate);
        if seconds < 1 then 1 else seconds
  }

  /** What every operation keeps: never above capacity, and never below zero. A bucket with a
      negative capacity stays at that capacity and admits nothing. */
  predicate Sound(b: BucketState) {
    && 0.0 <= b.rate
    && b.tokens <= b.burst as real
    && (0.0 <= b.tokens || b.tokens == b.burst as real)
  }

  // The product of two reals is looked at only in the four lemmas below; every other proof
  // hides it, so that the solver reasons about linear facts alone.

  lemma EarnedAdds(a: real, b: real, rate: real)
    ensures Earned(a + b, rate) == Earned(a, rate) + Earned(b, rate)
  {
  }

  lemma EarnedMonotone(a: real, b: real, rate: real)
    requires a <= b && 0.0 <= rate
    ensures Earned(a, rate) <= Earned(b, rate)
    ensures a < b && 0.0 < rate ==> Earned(a, rate) < Earned(b, rate)
  {
    EarnedAdds(a, b - a, rate);
    ProductOfNonnegatives(b - a, rate);
  }

  lemma ProductOfNonnegatives(a: real, b: real)
    requires 0.0 <= a && 0.0 <= b
    ensures 0.0 <= Earned(a, b)
    ensures 0.0 < a && 0.0 < b ==> 0.0 < Earned(a, b)
  {
  }

  lemma EarnedNothing(rate: real)
    ensures Earned(0.0, rate) == 0.0
  {
  }

  lemma EarnedInQuotient(d: real, rate: real)
    requires 0.0 < rate
    ensures Earned(d / rate, rate) == d
  {
  }

  lemma EarnedNonnegative(elapsed: real, rate: real)
    requires 0.0 <= elapsed && 0.0 <= rate
    ensures 0.0 <= Earned(elapsed, rate)
  {
    hide Earned;
    EarnedMonotone(0.0, elapsed, rate);
    EarnedNothing(rate);
  }

  lemma OperationsKeepSound(b: BucketState, now: real)
    requires Sound(b)
    ensures Sound(Refill(b, now)) && Sound(Take(b, now).0)
  {
    hide Earned;
    if 0.0 < now - b.lastFill {
      EarnedNonnegative(now - b.lastFill, b.rate);
    }
  }

  /** Refilling composes over time: stopping on the way loses and gains nothing, although
      the capacity is enforced at every stop. */
  lemma RefillComposes(b: BucketState, t: real, u: real)
    requires Sound(b) && t <= u
    ensures Refill(Refill(b, t), u) == Refill(b, u)
  {
    hide Earned;
    if b.lastFill < t < u {
      EarnedAdds(t - b.lastFill, u - t, b.rate);
      assert (t - b.lastFill) + (u - t) == u - b.lastFill;
      EarnedNonnegative(t - b.lastFill, b.rate);
      EarnedNonnegative(u - t, b.rate);
    }
  }

  /** Reading the retry time refills once more, which changes nothing. */
  lemma SecondRefillIsIdle(b: BucketState, now: real)
    ensures Refill(Take(b, now).0, now) == Take(b, now).0
  {
    hide Earned;
  }

  /** A token taken and handed back leaves the bucket exactly as if it had only been refilled. */
  lemma RefundUndoesTake(b: BucketState, now: real)
    requires Sound(b) && Take(b, now).1
    ensures Refund(Take(b, now).0) == Refill(b, now)
  {
    hide Earned;
    OperationsKeepSound(b, now);
  }

  /** A bucket untouched for `idle` seconds is full once it could have earned its capacity. */
  lemma FullAfterIdle(b: BucketState, idle: real, now: real)
    requires Sound(b) && 0.0 <= idle < now - b.lastFill
    requires Earned(idle, b.rate) >= b.burst as real
    ensures Refill(b, now) == Full(b.rate, b.burst, now)
  {
    hide Earned;
    EarnedMonotone(idle, now - b.lastFill, b.rate);
    EarnedNonnegative(now - b.lastFill, b.rate);
  }

  /** Waiting earns at most `rate` a second. */
  lemma LevelGrowth(b: BucketState, t: real, now: real)
    requires Sound(b) && b.lastFill <= t <= now
    ensures Refill(b, now).tokens <= Refill(b, t).tokens + Earned(now - t, b.rate)
  {
    hide Earned;
    RefillComposes(b, t, now);
    OperationsKeepSound(b, t);
    EarnedNonnegative(now - t, b.rate);
  }

  lemma CeilBounds(x: real)
    ensures x <= Ceil(x) as real < x + 1.0
  {
  }

  /** `Ceil(d / rate)` is the least whole number of seconds that earns `d`. */
  lemma CeilDivides(d: real, rate: real)
    requires 0.0 < d && 0.0 < rate
    ensures 1 <= Ceil(d / rate)
    ensures Earned(Ceil(d / rate) as real, rate) >= d
    ensures Earned((Ceil(d / rate) - 1) as real, rate) < d
  {
    hide Earned;
    var q := d / rate;
    EarnedInQuotient(d, rate);
    EarnedNothing(rate);
    CeilBounds(q);
    if q <= 0.0 {
      EarnedMonotone(q, 0.0, rate);
    }
    EarnedMonotone(q, Ceil(q) as real, rate);
    EarnedMonotone((Ceil(q) - 1) as real, q, rate);
  }

  lemma HoldsTokenAfter(f: BucketState, wait: real)
    requires Sound(f) && 1 <= f.burst && 0.0 < wait
    ensures Take(f, f.lastFill + wait).1 <==> f.tokens + Earned(wait, f.rate) >= 1.0
  {
    hide Earned;
    assert (f.lastFill + wait) - f.lastFill == wait;
  }

  /** The advertised wait, both ways: after it the bucket holds a token, and one second
      less would not have been enough. */
  lemma RetryAfterExact(b: BucketState, now: real)
    requires Sound(b) && 0.0 < b.rate && 1 <= b.burst && b.lastFill <= now
    requires !Take(b, now).1
    ensures 1 <= RetryAfter(b, now)
    ensures Take(Take(b, now).0, now + RetryAfter(b, now) as real).1
    ensures 1 < RetryAfter(b, now) ==> !Take(Take(b, now).0, now + (RetryAfter(b, now) - 1) as real).1
  {
    hide Earned;
    OperationsKeepSound(b, now);
    var f := Refill(b, now);
    var r := RetryAfter(b, now);
    CeilDivides(1.0 - f.tokens, f.rate);
    HoldsTokenAfter(f, r as real);
    if 1 < r {
      HoldsTokenAfter(f, (r - 1) as real);
    }
  }

  /** A refill adds the seconds gone by times the rate, up to the capacity, and moves the fill time; a clock that
      has not moved on changes nothing. */
  lemma RefillIs(b: BucketState, now: real)
    ensures now > b.lastFill ==>
      var earned := b.tokens + (now - b.lastFill) * b.rate;
      Refill(b, now) == BucketState(if earned > b.burst as real then b.burst as real else earned, now, b.rate, b.burst)
    ensures now <= b.lastFill ==> Refill(b, now) == b
  {
  }

  /** A call takes one whole token or none, after the refill. */
  lemma TakeIs(b: BucketState, now: real)
    ensures var f := Refill(b, now);
      && (Take(b, now).1 <==> f.tokens >= 1.0)
      && Take(b, now).0 == if f.tokens >= 1.0 then BucketState(f.tokens - 1.0, f.lastFill, f.rate, f.burst) else f
    ensures Refund(b) == if b.tokens >= b.burst as real then b else BucketState(b.tokens + 1.0, b.lastFill, b.rate, b.burst)
  {
    hide Refill;
  }

  /** Without a rate, or with a token there, the advertised wait is one second. */
  lemma ShortestWait(b: BucketState, now: real)
    requires b.rate <= 0.0 || Refill(b, now).tokens >= 1.0
    ensures RetryAfter(b, now) == 1
  {
  }

  /** The bucket as the source keeps it: an object whose fields its methods overwrite. */
  class Bucket {
    var tokens: real
    var lastFill: real
    const rate: real
    const burst: int

    ghost function View(): BucketState
      reads this
    {
      BucketState(tokens, lastFill, rate, burst)
    }

    constructor (rate: real, burst: int, now: real)
      ensures View() == Full(rate, burst, now)
    {
      this.tokens := burst as real;
      this.lastFill := now;
      this.rate := rate;
      this.burst := burst;
    }

    method AddEarned(now: real)
      modifies this
      ensures View() == Refill(old(View()), now)
    {
      hide Earned;
      var elapsed := now - lastFill;
      if elapsed <= 0.0 {
        return;
      }
      tokens := tokens + Earned(elapsed, rate);
      if tokens > burst as real {
        tokens := burst as real;
      }
      lastFill := now;
    }

    method Allow(now: real) returns (ok: bool)
      modifies this
      ensures (View(), ok) == Take(old(View()), now)
    {
      hide Earned;
      AddEarned(now);
      if tokens < 1.0 {
        return false;
      }
      tokens := tokens - 1.0;
      return true;
    }

    method GiveBack()
      modifies this
      ensures View() == Refund(old(View()))
    {
      if tokens < burst as real {
        tokens := tokens + 1.0;
      }
    }

    method SecondsToNextToken(now: real) returns (seconds: int)
      modifies this
      ensures View() == Refill(old(View()), now)
      ensures seconds == RetryAfter(old(View()), now)
    {
      hide Earned;
      AddEarned(now);
      if rate <= 0.0 {
        return 1;
      }
      var deficit := 1.0 - tokens;
      if deficit <= 0.0 {
        return 1;
      }
      seconds := Ceil(deficit / rate);
      if seconds < 1 {
        seconds := 1;
      }
    }
  }
}
