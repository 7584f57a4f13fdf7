/** The token bucket: one atomic script per call. Times are whole milliseconds, tokens are reals. */
module RateLimit {
  import opened Common

  datatype Limit = Limit(capacity: real, refill: real)

  predicate IsLimit(l: Limit) { l.capacity >= 0.0 && l.refill > 0.0 }

  datatype Bucket = Bucket(tokens: real, updated: int)

  datatype Answer = Answer(allowed: bool, remaining: int, retryAfterMs: int)

  function MinReal(a: real, b: real): real { if a <= b then a else b }

  function Ceil(x: real): int { -((-x).Floor) }

  /** Tokens gained over a number of milliseconds. */
  function Gain(l: Limit, ms: int): real { (ms as real / 1000.0) * l.refill }

  /** Tokens available to a call at `now`; a missing bucket is a full one. */
  function Level(l: Limit, b: Option<Bucket>, now: int): real {
    if b.None? then MinReal(l.capacity, l.capacity + Gain(l, 0))
    else MinReal(l.capacity, b.value.tokens + Gain(l, Max(0, now - b.value.updated)))
  }

  predicate Allows(l: Limit, b: Option<Bucket>, now: int, cost: nat) { Level(l, b, now) >= cost as real }

  function After(l: Limit, b: Option<Bucket>, now: int, cost: nat): Bucket {
    Bucket(Level(l, b, now) - (if Allows(l, b, now, cost) then cost as real else 0.0), now)
  }

  function RetryAfter(l: Limit, b: Option<Bucket>, now: int, cost: nat): int
    requires l.refill > 0.0
  {
    if Allows(l, b, now, cost) then 0 else Ceil((cost as real - Level(l, b, now)) / l.refill * 1000.0)
  }

  /** How long an untouched bucket is kept. */
  function IdleMs(l: Limit): int
    requires l.refill > 0.0
  {
    Ceil(l.capacity / l.refill * 1000.0) + 1000
  }

  class Limiter {
    var bucket: Option<Bucket>
    var expiresAt: int

    /** The script, with its own bucket already read as missing if it had expired. */
    method Check(l: Limit, now: int, cost: nat) returns (a: Answer)
      requires IsLimit(l)
      modifies this
      ensures a.allowed <==> Allows(l, old(bucket), now, cost)
      ensures bucket == Some(After(l, old(bucket), now, cost)) && expiresAt == now + IdleMs(l)
      ensures expiresAt - now == 1000 - ((-(l.capacity / l.refill * 1000.0)).Floor)
      ensures a.remaining == bucket.value.tokens.Floor && a.retryAfterMs == RetryAfter(l, old(bucket), now, cost)
    {
      var tokens, updated := l.capacity, now;
      if bucket.Some? { tokens, updated := bucket.value.tokens, bucket.value.updated; }
      tokens := MinReal(l.capacity, tokens + Gain(l, Max(0, now - updated)));
      var allowed := tokens >= cost as real;
      if allowed { tokens := tokens - cost as real; }
      bucket := Some(Bucket(tokens, now));
      expiresAt := now + IdleMs(l);
      var retryAfter := if allowed then 0 else Ceil((cost as real - tokens) / l.refill * 1000.0);
      a := Answer(allowed, tokens.Floor, retryAfter);
    }
  }

  // --- arithmetic ---

  lemma CeilIs(x: real, n: int)
    ensures n >= Ceil(x) <==> n as real >= x
  {
  }

  lemma GainGrows(l: Limit, a: int, b: int)
    requires IsLimit(l) && a <= b
    ensures Gain(l, a) <= Gain(l, b) && Gain(l, 0) == 0.0
  {
    var x, y := a as real / 1000.0, b as real / 1000.0;
    assert (y - x) * l.refill >= 0.0;
  }

  lemma GainAdds(l: Limit, a: int, b: int)
    ensures Gain(l, a + b) == Gain(l, a) + Gain(l, b)
  {
    var x, y := a as real / 1000.0, b as real / 1000.0;
    assert (a + b) as real / 1000.0 == x + y;
    assert (x + y) * l.refill == x * l.refill + y * l.refill;
  }

  /** The milliseconds that bring in `need` tokens are the scaled quotient the script computes. */
  lemma GainReaches(l: Limit, ms: int, need: real)
    requires IsLimit(l)
    ensures Gain(l, ms) >= need <==> ms as real >= need / l.refill * 1000.0
  {
    var x, q := ms as real / 1000.0, need / l.refill;
    assert q * l.refill == need;
    if x >= q { assert (x - q) * l.refill >= 0.0; } else { assert (q - x) * l.refill > 0.0; }
  }

  // --- every run ---

  datatype Call = Call(now: int, cost: nat)

  function State(l: Limit, b: Option<Bucket>, calls: seq<Call>): Option<Bucket> {
    if calls == [] then b
    else
      var last := calls[|calls| - 1];
      Some(After(l, State(l, b, calls[..|calls| - 1]), last.now, last.cost))
  }

  /** Total cost let through. */
  function Admitted(l: Limit, b: Option<Bucket>, calls: seq<Call>): real {
    if calls == [] then 0.0
    else
      var init, last := calls[..|calls| - 1], calls[|calls| - 1];
      Admitted(l, b, init) + (if Allows(l, State(l, b, init), last.now, last.cost) then last.cost as real else 0.0)
  }

  /** How far the callers' clock has moved forward, counting every forward move. */
  function Forward(calls: seq<Call>): int {
    if |calls| <= 1 then 0
    else Forward(calls[..|calls| - 1]) + Max(0, calls[|calls| - 1].now - calls[|calls| - 2].now)
  }

  predicate IsBucket(l: Limit, b: Option<Bucket>) { b.Some? ==> 0.0 <= b.value.tokens <= l.capacity }

  lemma {:induction false} StaysABucket(l: Limit, b: Option<Bucket>, calls: seq<Call>)
    requires IsLimit(l) && IsBucket(l, b)
    ensures IsBucket(l, State(l, b, calls))
  {
    if calls != [] {
      var init, last := calls[..|calls| - 1], calls[|calls| - 1];
      StaysABucket(l, b, init);
      var s := State(l, b, init);
      GainGrows(l, 0, if s.Some? then Max(0, last.now - s.value.updated) else 0);
    }
  }

  /**
    Whatever the clock does, admitted cost plus what is left is at most one full bucket and the refill of its
    forward moves.
   */
  lemma {:induction false} AdmittedBound(l: Limit, b: Option<Bucket>, calls: seq<Call>)
    requires IsLimit(l) && calls != []
    ensures Admitted(l, b, calls) + State(l, b, calls).value.tokens <= l.capacity + Gain(l, Forward(calls))
  {
    var n := |calls| - 1;
    var init, last := calls[..n], calls[n];
    if n == 0 {
      GainGrows(l, 0, 0);
    } else {
      AdmittedBound(l, b, init);
      assert init[n - 1] == calls[n - 1] && State(l, b, init).value.updated == calls[n - 1].now;
      GainAdds(l, Forward(init), Max(0, last.now - calls[n - 1].now));
    }
  }

  predicate NonDecreasing(calls: seq<Call>) { forall i | 0 < i < |calls| :: calls[i - 1].now <= calls[i].now }

  lemma {:induction false} ForwardIsElapsed(calls: seq<Call>)
    requires calls != [] && NonDecreasing(calls)
    ensures Forward(calls) == calls[|calls| - 1].now - calls[0].now
  {
    if |calls| > 1 {
      var init := calls[..|calls| - 1];
      assert forall i | 0 <= i < |init| :: init[i] == calls[i];
      ForwardIsElapsed(init);
    }
  }

  /**
    With a clock that never steps back, the cost admitted in any stretch of any run is at most
    capacity plus the refill of the time it spans.
   */
  lemma IntervalBound(l: Limit, before: seq<Call>, window: seq<Call>)
    requires IsLimit(l) && window != [] && NonDecreasing(window)
    ensures Admitted(l, State(l, None, before), window)
            <= l.capacity + Gain(l, window[|window| - 1].now - window[0].now)
  {
    var b := State(l, None, before);
    StaysABucket(l, None, before);
    StaysABucket(l, b, window);
    AdmittedBound(l, b, window);
    ForwardIsElapsed(window);
  }

  /** A clock that steps back refills the same second twice: three admitted where two is the bound. */
  lemma SteppingBackRefillsTwice()
    ensures var l, calls := Limit(1.0, 1.0), [Call(0, 1), Call(1000, 1), Call(0, 1), Call(1000, 1)];
            Admitted(l, None, calls) == 3.0 && 3.0 > l.capacity + Gain(l, 1000)
  {
    var l := Limit(1.0, 1.0);
    var c1 := [Call(0, 1)];
    var c2 := c1 + [Call(1000, 1)];
    var c3 := c2 + [Call(0, 1)];
    var c4 := c3 + [Call(1000, 1)];
    assert c1[..0] == [] && c2[..1] == c1 && c3[..2] == c2 && c4[..3] == c3;
    assert State(l, None, c1) == Some(Bucket(0.0, 0)) && Admitted(l, None, c1) == 1.0;
    assert State(l, None, c2) == Some(Bucket(0.0, 1000)) && Admitted(l, None, c2) == 2.0;
    assert State(l, None, c3) == Some(Bucket(0.0, 0)) && Admitted(l, None, c3) == 2.0;
    assert c4 == [Call(0, 1), Call(1000, 1), Call(0, 1), Call(1000, 1)];
  }

  // --- forgetting idle buckets ---

  lemma IdleIsFull(l: Limit, b: Bucket, now: int)
    requires IsLimit(l) && b.tokens >= 0.0 && now >= b.updated + IdleMs(l)
    ensures Level(l, Some(b), now) == l.capacity == Level(l, None, now)
  {
    var need := l.capacity / l.refill * 1000.0;
    CeilIs(need, IdleMs(l) - 1000);
    var ms := now - b.updated;
    QuotientSign(l);
    GainReaches(l, ms, l.capacity);
    GainGrows(l, 0, 0);
  }

  lemma QuotientSign(l: Limit)
    requires IsLimit(l)
    ensures l.capacity / l.refill * 1000.0 >= 0.0
  {
  }

  /** A run in which, before a call, the bucket may have been forgotten. */
  function StateForgetting(l: Limit, calls: seq<Call>, forgotten: seq<bool>): Option<Bucket>
    requires |forgotten| == |calls|
    decreases |calls|, 0
  {
    if calls == [] then None
    else
      var n := |calls| - 1;
      Some(After(l, Read(l, calls, forgotten, n), calls[n].now, calls[n].cost))
  }

  function Read(l: Limit, calls: seq<Call>, forgotten: seq<bool>, n: nat): Option<Bucket>
    requires n < |calls| == |forgotten|
    decreases n, 1
  {
    if forgotten[n] then None else StateForgetting(l, calls[..n], forgotten[..n])
  }

  /** Buckets are forgotten only once they have been idle for their whole lifetime. */
  ghost predicate OnlyIdle(l: Limit, calls: seq<Call>, forgotten: seq<bool>)
    requires IsLimit(l) && |forgotten| == |calls|
  {
    forall i | 0 < i < |calls| && forgotten[i] :: calls[i].now >= calls[i - 1].now + IdleMs(l)
  }

  /** Forgetting idle buckets changes no answer and no later bucket, in any run. */
  lemma {:induction false} ForgettingIsInvisible(l: Limit, calls: seq<Call>, forgotten: seq<bool>)
    requires IsLimit(l) && |forgotten| == |calls| && OnlyIdle(l, calls, forgotten)
    ensures StateForgetting(l, calls, forgotten) == State(l, None, calls)
    ensures calls != [] ==>
              var n := |calls| - 1;
              Level(l, Read(l, calls, forgotten, n), calls[n].now) == Level(l, State(l, None, calls[..n]), calls[n].now)
  {
    if calls != [] {
      var n := |calls| - 1;
      var init := calls[..n];
      assert forall i | 0 <= i < n :: init[i] == calls[i] && forgotten[..n][i] == forgotten[i];
      ForgettingIsInvisible(l, init, forgotten[..n]);
      if forgotten[n] && n > 0 {
        StaysABucket(l, None, init);
        IdleIsFull(l, State(l, None, init).value, calls[n].now);
      }
    }
  }

  // --- waiting ---

  /**
    Left alone, a refused call is let through from `retryAfter` on and not a millisecond sooner, if it costs
    no more than the capacity; if it costs more, never.
   */
  lemma RetryAfterIsExact(l: Limit, b: Option<Bucket>, now: int, later: int, cost: nat)
    requires IsLimit(l) && !Allows(l, b, now, cost) && later >= now
    ensures Allows(l, Some(After(l, b, now, cost)), later, cost)
            <==> cost as real <= l.capacity && later >= now + RetryAfter(l, b, now, cost)
  {
    var need := cost as real - Level(l, b, now);
    GainReaches(l, later - now, need);
    CeilIs(need / l.refill * 1000.0, later - now);
  }
}
