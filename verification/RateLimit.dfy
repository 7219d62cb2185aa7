// The token bucket of engine/transform/transform.go:68-98, over real time in seconds.
module RateLimiting {
  import opened Prelude

  datatype Bucket = Bucket(max: real, tokens: real, last: real)

  // One sequential call: when it starts, whether the context is cancelled after some time instead
  // of the wait ending, and how late the timer fires.
  datatype Call = Call(now: real, cancel: Option<real>, late: real) {
    predicate Sane() { late >= 0.0 && (cancel.Some? ==> cancel.value >= 0.0) }
  }

  // What a call leaves behind, whether the event passed, when the call returned, how long it waited.
  datatype Admission = Admission(bucket: Bucket, passed: bool, leave: real, waited: real)

  predicate WellFormed(b: Bucket) {
    b.max >= 1.0 && 0.0 <= b.tokens <= b.max
  }

  function NewBucket(eventsPerSecond: nat, now: real): Bucket {
    Bucket(eventsPerSecond as real, eventsPerSecond as real, now)
  }

  function Refill(b: Bucket, now: real): real {
    var t := b.tokens + (now - b.last) * b.max;
    if t > b.max then b.max else t
  }

  function Admit(b: Bucket, c: Call): Admission
    requires b.max != 0.0
  {
    var t := Refill(b, c.now);
    if t < 1.0 then
      var wait := WaitFor(t, b.max);
      if c.cancel.Some? && c.cancel.value < wait then
        Admission(b.(tokens := t, last := c.now), false, c.now + c.cancel.value, c.cancel.value)
      else Admission(b.(tokens := 0.0, last := c.now), true, c.now + wait + c.late, wait + c.late)
    else Admission(b.(tokens := t - 1.0, last := c.now), true, c.now, 0.0)
  }

  class RateLimiter {
    var tokens: real
    var last: real
    const max: real

    constructor (eventsPerSecond: nat, now: real)
      requires eventsPerSecond >= 1
      ensures View() == NewBucket(eventsPerSecond, now) && WellFormed(View())
    {
      tokens, last, max := eventsPerSecond as real, now, eventsPerSecond as real;
    }

    function View(): Bucket
      reads this
    {
      Bucket(max, tokens, last)
    }

    // The clock does not run backwards; the tokens stay within [0, max].
    method Transform(c: Call) returns (keep: bool, leave: real, waited: real)
      requires WellFormed(View()) && last <= c.now && c.Sane()
      modifies this
      ensures Admission(View(), keep, leave, waited) == Admit(old(View()), c)
      ensures WellFormed(View()) && last <= leave
    {
      RefillBounds(View(), c.now);
      tokens := tokens + (c.now - last) * max;
      if tokens > max {
        tokens := max;
      }
      assert tokens == Refill(old(View()), c.now);
      last := c.now;
      if tokens < 1.0 {
        var wait := WaitFor(tokens, max);
        if c.cancel.Some? && c.cancel.value < wait {
          return false, c.now + c.cancel.value, c.cancel.value;
        }
        leave, waited := c.now + wait + c.late, wait + c.late;
        tokens := 0.0;
      } else {
        leave, waited := c.now, 0.0;
        tokens := tokens - 1.0;
      }
      keep := true;
    }
  }

  // The time in which the missing part of a token is earned.
  function WaitFor(tokens: real, max: real): (w: real)
    requires max != 0.0
    ensures w * max == 1.0 - tokens
    ensures tokens < 1.0 && max > 0.0 ==> w > 0.0
  {
    (1.0 - tokens) / max
  }

  lemma RefillBounds(b: Bucket, now: real)
    requires WellFormed(b) && b.last <= now
    ensures 0.0 <= Refill(b, now) <= b.max
    ensures Refill(b, now) <= b.tokens + (now - b.last) * b.max
  {
    assert (now - b.last) * b.max >= 0.0;
  }

  // ---------------------------------------------------------------- Sequences of calls

  // Each call starts after the previous one returned.
  ghost predicate Sequential(b: Bucket, clock: real, calls: seq<Call>)
    decreases |calls|
  {
    calls != [] ==>
      && b.max != 0.0 && clock <= calls[0].now && calls[0].Sane()
      && Sequential(Admit(b, calls[0]).bucket, Admit(b, calls[0]).leave, calls[1..])
  }

  function Passes(b: Bucket, calls: seq<Call>): nat
    requires b.max != 0.0
    decreases |calls|
  {
    if calls == [] then 0
    else (if Admit(b, calls[0]).passed then 1 else 0) + Passes(Admit(b, calls[0]).bucket, calls[1..])
  }

  function EndTime(b: Bucket, clock: real, calls: seq<Call>): real
    requires b.max != 0.0
    decreases |calls|
  {
    if calls == [] then clock
    else EndTime(Admit(b, calls[0]).bucket, Admit(b, calls[0]).leave, calls[1..])
  }

  function TotalWait(b: Bucket, calls: seq<Call>): real
    requires b.max != 0.0
    decreases |calls|
  {
    if calls == [] then 0.0
    else Admit(b, calls[0]).waited + TotalWait(Admit(b, calls[0]).bucket, calls[1..])
  }

  // One call: a pass is paid for by tokens, by refill, or by waiting.
  lemma OneCall(b: Bucket, clock: real, c: Call)
    requires WellFormed(b) && b.last <= clock <= c.now && c.Sane()
    ensures var a := Admit(b, c);
            && WellFormed(a.bucket) && a.bucket.max == b.max && a.bucket.last == c.now <= a.leave
            && a.waited == a.leave - c.now
            && (if a.passed then 1.0 else 0.0) + a.bucket.tokens <=
               b.tokens + (c.now - b.last) * b.max + a.waited * b.max
  {
    RefillBounds(b, c.now);
    var t := Refill(b, c.now);
    if t < 1.0 {
      var wait := WaitFor(t, b.max);
      var a := Admit(b, c);
      if a.passed {
        assert (wait + c.late) * b.max == wait * b.max + c.late * b.max;
        assert c.late * b.max >= 0.0;
      } else {
        assert a.waited * b.max >= 0.0;
      }
    }
  }

  lemma AddUp(pass: real, rest: real, tokens: real, tokens': real, m: real, last: real, now: real, end: real,
              waited: real, restWait: real)
    requires pass + tokens' <= tokens + (now - last) * m + waited * m
    requires rest <= tokens' + (end - now) * m + restWait * m
    ensures pass + rest <= tokens + (end - last) * m + (waited + restWait) * m
  {
    assert (end - last) * m == (end - now) * m + (now - last) * m;
    assert (waited + restWait) * m == waited * m + restWait * m;
  }

  ghost predicate PaidFor(passes: nat, b: Bucket, end: real, wait: real) {
    passes as real <= b.tokens + (end - b.last) * b.max + wait * b.max
  }

  lemma NothingPaid(b: Bucket, clock: real)
    requires WellFormed(b) && b.last <= clock
    ensures PaidFor(0, b, clock, 0.0)
  {
    assert (clock - b.last) * b.max >= 0.0;
  }

  lemma OneMorePaid(b: Bucket, clock: real, c: Call, passes: nat, end: real, wait: real)
    requires WellFormed(b) && b.last <= clock <= c.now && c.Sane()
    requires var a := Admit(b, c); PaidFor(passes, a.bucket, end, wait)
    ensures var a := Admit(b, c); PaidFor((if a.passed then 1 else 0) + passes, b, end, a.waited + wait)
  {
    var a := Admit(b, c);
    OneCall(b, clock, c);
    AddUp(if a.passed then 1.0 else 0.0, passes as real, b.tokens, a.bucket.tokens, b.max, b.last, c.now, end,
          a.waited, wait);
  }

  lemma {:induction false} PassesPaidFor(b: Bucket, clock: real, calls: seq<Call>)
    requires WellFormed(b) && b.last <= clock && Sequential(b, clock, calls)
    ensures clock <= EndTime(b, clock, calls)
    ensures 0.0 <= TotalWait(b, calls) <= EndTime(b, clock, calls) - clock
    ensures PaidFor(Passes(b, calls), b, EndTime(b, clock, calls), TotalWait(b, calls))
    decreases |calls|
  {
    if calls == [] {
      NothingPaid(b, clock);
    } else {
      var c := calls[0];
      var a := Admit(b, c);
      OneCall(b, clock, c);
      PassesPaidFor(a.bucket, a.leave, calls[1..]);
      OneMorePaid(b, clock, c, Passes(a.bucket, calls[1..]), EndTime(a.bucket, a.leave, calls[1..]),
                  TotalWait(a.bucket, calls[1..]));
    }
  }

  ghost predicate WithinBound(passes: nat, rate: real, elapsed: real, wait: real) {
    && passes as real <= rate + rate * elapsed + rate * wait
    && passes as real <= rate + 2.0 * rate * elapsed
  }

  lemma FactorTwo(passes: nat, b: Bucket, end: real, wait: real)
    requires b.tokens == b.max >= 0.0 && wait <= end - b.last && PaidFor(passes, b, end, wait)
    ensures WithinBound(passes, b.max, end - b.last, wait)
  {
    var elapsed := end - b.last;
    assert (elapsed - wait) * b.max >= 0.0;
  }

  // Over an elapsed time T, at most r + r*T events pass, plus r for every second spent waiting; so
  // never more than r + 2*r*T.
  lemma TokenBucketBound(r: nat, t0: real, calls: seq<Call>)
    requires r >= 1 && Sequential(NewBucket(r, t0), t0, calls)
    ensures var b := NewBucket(r, t0);
            WithinBound(Passes(b, calls), r as real, EndTime(b, t0, calls) - t0, TotalWait(b, calls))
  {
    var b := NewBucket(r, t0);
    PassesPaidFor(b, t0, calls);
    FactorTwo(Passes(b, calls), b, EndTime(b, t0, calls), TotalWait(b, calls));
  }

  // ---------------------------------------------------------------- It does not throttle too much

  // The tokens that a bucket holds at an instant: what is left, plus max per second, up to max.
  ghost predicate Holds(b: Bucket, now: real, available: real) {
    var earned := b.tokens + (now - b.last) * b.max;
    available <= earned && available <= b.max && (available == earned || available == b.max)
  }

  // One call, by the tokens there are: with a whole one it passes at once and uses it up; otherwise
  // it waits exactly until one is earned and leaves the bucket empty, or is cancelled before that
  // and uses nothing.
  lemma OneCallExact(b: Bucket, c: Call, available: real)
    requires WellFormed(b) && b.last <= c.now && c.Sane() && Holds(b, c.now, available)
    ensures var a := Admit(b, c);
            && a.leave == c.now + a.waited && a.bucket.last == c.now && a.bucket.max == b.max
            && (available >= 1.0 ==> a.passed && a.waited == 0.0 && a.bucket.tokens == available - 1.0)
            && (available < 1.0 && a.passed ==>
                  (a.waited - c.late) * b.max == 1.0 - available && a.bucket.tokens == 0.0)
            && (!a.passed ==> available < 1.0 && c.cancel == Some(a.waited) && a.waited * b.max < 1.0 - available
                              && a.bucket.tokens == available)
            && (available < 1.0 && c.cancel.Some? && c.cancel.value * b.max < 1.0 - available ==> !a.passed)
  {
    RefillBounds(b, c.now);
    var t := Refill(b, c.now);
    assert t == available;
    if t < 1.0 {
      var wait := WaitFor(t, b.max);
      if c.cancel.Some? {
        CancelledExactly(c.cancel.value, t, b.max);
      }
      assert Admit(b, c).waited - c.late == wait || Admit(b, c).waited == c.cancel.value;
    }
  }

  lemma Scaled(x: real, y: real, m: real)
    requires m > 0.0
    ensures x < y <==> x * m < y * m
  {
    if x < y { assert (y - x) * m > 0.0; }
    if y <= x { assert (x - y) * m >= 0.0; }
  }

  // A cancellation comes before the end of the wait exactly if the token is not yet earned by then.
  lemma CancelledExactly(after: real, tokens: real, max: real)
    requires max > 0.0
    ensures after < WaitFor(tokens, max) <==> after * max < 1.0 - tokens
  {
    Scaled(after, WaitFor(tokens, max), max);
  }

  // What is available to the next call at the same instant.
  lemma HoldsNext(b: Bucket, now: real)
    requires 0.0 <= b.tokens <= b.max && b.last == now
    ensures Holds(b, now, b.tokens)
  {
    assert (now - b.last) * b.max == 0.0;
  }

  lemma OneOfBurst(b: Bucket, t: real, k: nat, available: real)
    requires WellFormed(b) && b.last <= t && Holds(b, t, available) && k > 0
    ensures var a := Admit(b, Call(t, None, 0.0));
            && a.passed && 0.0 <= a.waited && WellFormed(a.bucket) && a.bucket.last == t
            && (available >= 1.0 <==> a.waited == 0.0)
            && (available >= 1.0 ==> Holds(a.bucket, t, available - 1.0))
            && Passes(b, Burst(t, k)) == 1 + Passes(a.bucket, Burst(t, k - 1))
            && TotalWait(b, Burst(t, k)) == a.waited + TotalWait(a.bucket, Burst(t, k - 1))
  {
    var c := Call(t, None, 0.0);
    RefillBounds(b, t);
    OneCallExact(b, c, available);
    HoldsNext(Admit(b, c).bucket, t);
    assert Burst(t, k)[0] == c && Burst(t, k)[1..] == Burst(t, k - 1);
  }

  // k calls at one instant all pass, and they pass without waiting exactly if at least k tokens are
  // there at that instant.
  lemma {:induction false} BurstExact(b: Bucket, t: real, k: nat, available: real)
    requires WellFormed(b) && b.last <= t && Holds(b, t, available)
    ensures Passes(b, Burst(t, k)) == k && TotalWait(b, Burst(t, k)) >= 0.0
    ensures TotalWait(b, Burst(t, k)) == 0.0 <==> k as real <= available || k == 0
    decreases k
  {
    if k > 0 {
      var next := Admit(b, Call(t, None, 0.0)).bucket;
      OneOfBurst(b, t, k, available);
      HoldsNext(next, t);
      BurstExact(next, t, k - 1, next.tokens);
    }
  }

  // After an idle second the bucket is full again: r calls at one instant pass without waiting, and
  // one more does not.
  lemma FullAfterASecond(b: Bucket, t: real, r: nat)
    requires WellFormed(b) && b.max == r as real && t >= b.last + 1.0
    ensures Passes(b, Burst(t, r)) == r && TotalWait(b, Burst(t, r)) == 0.0
    ensures TotalWait(b, Burst(t, r + 1)) > 0.0
  {
    var idle := t - b.last - 1.0;
    assert idle * b.max >= 0.0;
    assert (idle + 1.0) * b.max == idle * b.max + b.max;
    assert t - b.last == idle + 1.0;
    BurstExact(b, t, r, b.max);
    BurstExact(b, t, r + 1, b.max);
  }

  // ---------------------------------------------------------------- The bound is attained

  // k calls at the same instant, as long as tokens last.
  function Burst(t: real, k: nat): seq<Call> {
    if k == 0 then [] else [Call(t, None, 0.0)] + Burst(t, k - 1)
  }

  // Pairs of calls back to back: one waits for a token, the next finds the same interval refilled.
  function Pairs(r: nat, t: real, n: nat): seq<Call>
    requires r >= 1
    decreases n
  {
    if n == 0 then []
    else [Call(t, None, 0.0), Call(t + 1.0 / (r as real), None, 0.0)] + Pairs(r, t + 1.0 / (r as real), n - 1)
  }

  lemma OnePair(r: nat, t: real)
    requires r >= 1
    ensures var b := Bucket(r as real, 0.0, t);
            var later := t + 1.0 / (r as real);
            && Admit(b, Call(t, None, 0.0)) == Admission(b, true, later, 1.0 / (r as real))
            && Admit(b, Call(later, None, 0.0)) == Admission(Bucket(r as real, 0.0, later), true, later, 0.0)
            && t <= later
  {
    var m := r as real;
    assert (t - t) * m == 0.0;
    assert 1.0 / m * m == 1.0;
    assert (t + 1.0 / m - t) * m == 1.0;
  }

  lemma {:induction false} PairsPass(r: nat, t: real, n: nat)
    requires r >= 1
    ensures var b := Bucket(r as real, 0.0, t);
            && Sequential(b, t, Pairs(r, t, n))
            && Passes(b, Pairs(r, t, n)) == 2 * n
            && EndTime(b, t, Pairs(r, t, n)) == t + n as real / r as real
    decreases n
  {
    if n > 0 {
      var m := r as real;
      var later := t + 1.0 / m;
      OnePair(r, t);
      PairsPass(r, later, n - 1);
      TwoCalls(Bucket(m, 0.0, t), t, Call(t, None, 0.0), Call(later, None, 0.0), Pairs(r, later, n - 1));
      AddShares(m, n - 1);
    } else {
      assert 0.0 / (r as real) == 0.0;
    }
  }

  lemma AddShares(m: real, k: nat)
    requires m > 0.0
    ensures 1.0 / m + k as real / m == (k + 1) as real / m
  {
  }

  // Two waitless or waiting passes in a row, then the rest.
  lemma TwoCalls(b: Bucket, clock: real, x: Call, y: Call, rest: seq<Call>)
    requires b.max != 0.0 && clock <= x.now && x.Sane() && y.Sane()
    requires var a := Admit(b, x); a.passed && a.leave <= y.now && a.bucket.max != 0.0
    requires var z := Admit(Admit(b, x).bucket, y);
             z.passed && z.bucket.max != 0.0 && Sequential(z.bucket, z.leave, rest)
    ensures var z := Admit(Admit(b, x).bucket, y);
            && Sequential(b, clock, [x, y] + rest)
            && Passes(b, [x, y] + rest) == 2 + Passes(z.bucket, rest)
            && EndTime(b, clock, [x, y] + rest) == EndTime(z.bucket, z.leave, rest)
  {
    var calls := [x, y] + rest;
    assert calls[1..] == [y] + rest && calls[1..][1..] == rest;
  }

  lemma {:induction false} BurstThenPairs(r: nat, t: real, k: nat, n: nat)
    requires r >= 1 && k <= r
    ensures var b := Bucket(r as real, k as real, t);
            && Sequential(b, t, Burst(t, k) + Pairs(r, t, n))
            && Passes(b, Burst(t, k) + Pairs(r, t, n)) == k + 2 * n
            && EndTime(b, t, Burst(t, k) + Pairs(r, t, n)) == t + n as real / r as real
    decreases k
  {
    var calls := Burst(t, k) + Pairs(r, t, n);
    if k == 0 {
      assert calls == Pairs(r, t, n);
      PairsPass(r, t, n);
    } else {
      var b := Bucket(r as real, k as real, t);
      assert (t - t) * b.max == 0.0;
      assert Refill(b, t) == k as real;
      assert calls[0] == Call(t, None, 0.0) && calls[1..] == Burst(t, k - 1) + Pairs(r, t, n);
      assert Admit(b, calls[0]) == Admission(Bucket(r as real, (k - 1) as real, t), true, t, 0.0);
      BurstThenPairs(r, t, k - 1, n);
    }
  }

  // For every rate r and every n, a legal sequence of calls passes r + 2n events in n/r seconds:
  // the factor 2 is really reached, and r + r*T is not a bound.
  lemma BoundIsAttained(r: nat, t0: real, n: nat)
    requires r >= 1
    ensures var b := NewBucket(r, t0);
            var calls := Burst(t0, r) + Pairs(r, t0, n);
            && Sequential(b, t0, calls)
            && EndTime(b, t0, calls) - t0 == n as real / r as real
            && Passes(b, calls) as real == r as real + 2.0 * r as real * (EndTime(b, t0, calls) - t0)
  {
    BurstThenPairs(r, t0, r, n);
    assert r as real * (n as real / r as real) == n as real;
  }
}
