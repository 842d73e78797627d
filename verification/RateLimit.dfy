/** The token-bucket rate limiter, with Go's `float64` seconds and tokens read as reals. */
module RateLimit {

  datatype Limits = Limits(rate: real, capacity: real)

  datatype Bucket = Bucket(tokens: real, lastRefilled: real)

  predicate LimitsOk(lim: Limits)
  {
    lim.rate >= 0.0 && lim.capacity >= 0.0
  }

  /** The tokens that drip in during `elapsed` seconds. */
  function Drip(elapsed: real, lim: Limits): real
  {
    elapsed * lim.rate
  }

  lemma DripNonNegative(elapsed: real, lim: Limits)
    requires LimitsOk(lim) && elapsed >= 0.0
    ensures Drip(elapsed, lim) >= 0.0
  {
  }

  lemma DripAdds(a: real, b: real, lim: Limits)
    ensures Drip(a + b, lim) == Drip(a, lim) + Drip(b, lim)
  {
  }

  /** The tokens in the bucket at `now`, before the call takes one. */
  function Refill(lim: Limits, b: Bucket, now: real): real
  {
    var filled := b.tokens + Drip(now - b.lastRefilled, lim);
    if filled > lim.capacity then lim.capacity else filled
  }

  function Call(lim: Limits, b: Bucket, now: real): (Bucket, bool)
  {
    var filled := Refill(lim, b, now);
    if filled >= 1.0 then (Bucket(filled - 1.0, now), true) else (Bucket(filled, now), false)
  }

  class TokenBucket {
    const lim: Limits
    var tokens: real
    var lastRefilled: real

    constructor (rate: real, capacity: real, now: real)
      ensures lim == Limits(rate, capacity) && Contents() == Bucket(capacity, now)
    {
      lim, tokens, lastRefilled := Limits(rate, capacity), capacity, now;
    }

    function Contents(): Bucket
      reads this
    {
      Bucket(tokens, lastRefilled)
    }

    method Allow(now: real) returns (ok: bool)
      modifies this
      ensures (Contents(), ok) == Call(lim, old(Contents()), now)
    {
      var elapsed := now - lastRefilled;
      lastRefilled := now;
      tokens := tokens + Drip(elapsed, lim);
      if tokens > lim.capacity {
        tokens := lim.capacity;
      }
      ok := tokens >= 1.0;
      if ok {
        tokens := tokens - 1.0;
      }
    }
  }

  // ---- Any sequence of calls ----

  /** The bucket after calls at the given times, from a full bucket created at `start`. */
  function After(lim: Limits, start: real, times: seq<real>): Bucket
  {
    if |times| == 0 then Bucket(lim.capacity, start)
    else Call(lim, After(lim, start, times[..|times| - 1]), times[|times| - 1]).0
  }

  /** How many of the calls made between `from` and `until` were allowed. */
  function Allowed(lim: Limits, start: real, times: seq<real>, from: real, until: real): nat
  {
    if |times| == 0 then 0
    else
      var front, now := times[..|times| - 1], times[|times| - 1];
      Allowed(lim, start, front, from, until) +
      if from <= now <= until && Call(lim, After(lim, start, front), now).1 then 1 else 0
  }

  predicate Chronological(start: real, times: seq<real>)
  {
    && (forall i :: 0 <= i < |times| ==> start <= times[i])
    && (forall i, j :: 0 <= i <= j < |times| ==> times[i] <= times[j])
  }

  function Latest(start: real, times: seq<real>): real
  {
    if |times| == 0 then start else times[|times| - 1]
  }

  lemma {:induction false} BucketStaysInBounds(lim: Limits, start: real, times: seq<real>)
    requires LimitsOk(lim) && Chronological(start, times)
    ensures var b := After(lim, start, times);
            0.0 <= b.tokens <= lim.capacity && b.lastRefilled == Latest(start, times)
  {
    hide Drip;
    if |times| != 0 {
      var front, now := times[..|times| - 1], times[|times| - 1];
      BucketStaysInBounds(lim, start, front);
      DripNonNegative(now - Latest(start, front), lim);
    }
  }

  /** Every allowed call in the window is paid for by the capacity or by the time since `from`. */
  lemma {:induction false} Potential(lim: Limits, start: real, times: seq<real>, from: real, until: real)
    requires LimitsOk(lim) && Chronological(start, times) && from <= until
    ensures var n, last := Allowed(lim, start, times, from, until), Latest(start, times);
            && (|times| == 0 || last < from ==> n == 0)
            && (|times| != 0 && from <= last <= until ==>
                  After(lim, start, times).tokens + n as real <= lim.capacity + Drip(last - from, lim))
            && n as real <= lim.capacity + Drip(until - from, lim)
  {
    hide Drip;
    DripNonNegative(until - from, lim);
    if |times| != 0 {
      var front, now := times[..|times| - 1], times[|times| - 1];
      Potential(lim, start, front, from, until);
      BucketStaysInBounds(lim, start, front);
      BucketStaysInBounds(lim, start, times);
      var last := Latest(start, front);
      if from <= now <= until {
        DripNonNegative(now - from, lim);
        DripNonNegative(until - now, lim);
        DripAdds(now - from, until - now, lim);
        if |front| != 0 && from <= last {
          DripAdds(last - from, now - last, lim);
        }
      }
    }
  }

  /**
   * Between any two times the limiter allows at most `capacity + rate * (until - from)` calls,
   * however many are made and however they are spaced.
   */
  lemma RateBound(lim: Limits, start: real, times: seq<real>, from: real, until: real)
    requires LimitsOk(lim) && Chronological(start, times) && from <= until
    ensures Allowed(lim, start, times, from, until) as real <= lim.capacity + (until - from) * lim.rate
  {
    hide Allowed, After, Chronological, LimitsOk, Latest;
    Potential(lim, start, times, from, until);
  }

  /** The bound is attained: `n` simultaneous calls on a fresh bucket of capacity `n` are all allowed. */
  lemma {:induction false} BurstIsAllowed(rate: real, n: nat, start: real, times: seq<real>)
    requires |times| <= n && forall i :: 0 <= i < |times| ==> times[i] == start
    ensures var lim := Limits(rate, n as real);
            && After(lim, start, times) == Bucket((n - |times|) as real, start)
            && Allowed(lim, start, times, start, start) == |times|
  {
    if |times| != 0 {
      BurstIsAllowed(rate, n, start, times[..|times| - 1]);
      assert Drip(start - start, Limits(rate, n as real)) == 0.0;
    }
  }

  // ---- And no fewer ----

  /** What the bucket holds at `now`: what was left and what has dripped in since, up to the capacity. */
  function Available(lim: Limits, b: Bucket, now: real): real
  {
    var all := b.tokens + (now - b.lastRefilled) * lim.rate;
    if all <= lim.capacity then all else lim.capacity
  }

  /** The bucket after `n` calls at the same time, and how many of them were allowed. */
  function Burst(lim: Limits, b: Bucket, now: real, n: nat): (Bucket, nat)
  {
    if n == 0 then (b, 0)
    else
      var (before, allowed) := Burst(lim, b, now, n - 1);
      var (after, ok) := Call(lim, before, now);
      (after, allowed + if ok then 1 else 0)
  }

  function Served(available: real, n: nat): nat
    requires available >= 0.0
  {
    if n as real <= available then n else available.Floor
  }

  lemma CallAgain(lim: Limits, tokens: real, now: real)
    requires tokens <= lim.capacity
    ensures Call(lim, Bucket(tokens, now), now) ==
            if tokens >= 1.0 then (Bucket(tokens - 1.0, now), true) else (Bucket(tokens, now), false)
  {
    hide Drip;
    NoDrip(lim);
    assert now - now == 0.0;
  }

  lemma NoDrip(lim: Limits)
    ensures Drip(0.0, lim) == 0.0
  {
  }

  lemma RefillIsAvailable(lim: Limits, b: Bucket, now: real)
    ensures Refill(lim, b, now) == Available(lim, b, now)
  {
  }

  lemma CallFirst(lim: Limits, b: Bucket, now: real)
    ensures var available := Available(lim, b, now);
            Call(lim, b, now) ==
            if available >= 1.0 then (Bucket(available - 1.0, now), true) else (Bucket(available, now), false)
  {
    hide Refill, Available;
    RefillIsAvailable(lim, b, now);
  }

  /**
   * Of any number of simultaneous calls the limiter allows exactly as many as there are whole
   * tokens: what was left and what dripped in since the last call, up to the capacity.
   */
  lemma {:induction false} BurstExactly(lim: Limits, b: Bucket, now: real, n: nat)
    requires LimitsOk(lim) && Available(lim, b, now) >= 0.0
    ensures var available := Available(lim, b, now);
            && Burst(lim, b, now, n).1 == Served(available, n)
            && (n > 0 ==> Burst(lim, b, now, n).0 == Bucket(available - Served(available, n) as real, now))
  {
    hide Call, Available;
    if n == 1 {
      CallFirst(lim, b, now);
    } else if n > 1 {
      var available := Available(lim, b, now);
      BurstExactly(lim, b, now, n - 1);
      AvailableFits(lim, b, now);
      CallAgain(lim, available - Served(available, n - 1) as real, now);
    }
  }

  lemma AvailableFits(lim: Limits, b: Bucket, now: real)
    ensures Available(lim, b, now) <= lim.capacity
  {
  }

  /** `rate * idle`, up to the capacity. */
  function Refilled(idle: real, lim: Limits): (r: real)
    requires LimitsOk(lim) && idle >= 0.0
    ensures r >= 0.0
  {
    DripNonNegative(idle, lim);
    if idle * lim.rate <= lim.capacity then idle * lim.rate else lim.capacity
  }

  lemma AvailableAfterIdle(lim: Limits, start: real, idle: real)
    requires LimitsOk(lim) && idle >= 0.0
    ensures Available(lim, Bucket(0.0, start), start + idle) == Refilled(idle, lim)
  {
    assert start + idle - start == idle;
  }

  /** An empty bucket left alone for `idle` seconds serves the whole part of `rate * idle`, up to the capacity. */
  lemma IdleRefills(lim: Limits, start: real, idle: real, n: nat)
    requires LimitsOk(lim) && idle >= 0.0
    ensures Burst(lim, Bucket(0.0, start), start + idle, n).1 == Served(Refilled(idle, lim), n)
  {
    hide Available, Refilled, Burst;
    AvailableAfterIdle(lim, start, idle);
    BurstExactly(lim, Bucket(0.0, start), start + idle, n);
  }
}
