/**
 What the rate limits owe to a caller: when a refused cost is allowed again, when a key is as new, and that
 nothing is refused without need, for one attempt and over whole runs.
*/
module RateProgress {
  import opened Arithmetic
  import opened RateAlgorithms
  import opened RateBounds
  import opened Wrappers

  // ---------- Whole intervals ----------

  /** `k` times `x`. */
  function Gain(k: int, x: real): real {
    k as real * x
  }

  lemma GainAdds(a: int, b: int, x: real)
    ensures Gain(a + b, x) == Gain(a, x) + Gain(b, x)
  {
    assert (a + b) as real == a as real + b as real;
  }

  lemma GainGrows(a: int, b: int, x: real)
    requires a <= b && x > 0.0
    ensures Gain(a, x) <= Gain(b, x)
  {
    MulMonotone(a as real, b as real, x);
  }

  /** `k` whole intervals have passed since `last`. */
  predicate Due(last: real, intervalMs: real, k: nat, now: int) {
    last + Gain(k, intervalMs) <= now as real
  }

  lemma IntervalsAreDue(last: real, intervalMs: real, now: int) returns (n: nat)
    requires intervalMs > 0.0 && last <= now as real
    ensures n == Intervals(last, intervalMs, now) && Due(last, intervalMs, n, now) && !Due(last, intervalMs, n + 1, now)
  {
    var q := (now as real - last) / intervalMs;
    assert q * intervalMs == now as real - last;
    IntervalsNotNegative(last, intervalMs, now);
    n := q.Floor;
    WholePart(q, n, intervalMs);
    WholePart(q, n + 1, intervalMs);
  }

  lemma WholePart(q: real, n: int, intervalMs: real)
    requires intervalMs > 0.0
    ensures n as real <= q ==> Gain(n, intervalMs) <= q * intervalMs
    ensures q < n as real ==> q * intervalMs < Gain(n, intervalMs)
  {
    if n as real <= q {
      MulMonotone(n as real, q, intervalMs);
    } else {
      RealProduct(q, n as real, intervalMs);
    }
  }

  /** The intervals that are due are those up to the last one that is. */
  lemma DueUpTo(last: real, intervalMs: real, n: nat, k: nat, now: int)
    requires intervalMs > 0.0 && Due(last, intervalMs, n, now) && !Due(last, intervalMs, n + 1, now)
    ensures Due(last, intervalMs, k, now) <==> k <= n
  {
    if k <= n {
      GainGrows(k, n, intervalMs);
    } else {
      GainGrows(n + 1, k, intervalMs);
    }
  }

  // ---------- One attempt on a bucket ----------

  function AtMost(a: real, max: int): real {
    if a <= max as real then a else max as real
  }

  /** The bucket after `n` intervals. */
  lemma RefilledBy(tokens: real, last: real, rate: real, intervalMs: real, max: int, now: int) returns (n: nat)
    requires rate > 0.0 && intervalMs > 0.0 && last <= now as real
    ensures Due(last, intervalMs, n, now) && !Due(last, intervalMs, n + 1, now)
    ensures Refilled(Some(Bucket(tokens, last)), rate, intervalMs, max, now)
            == (AtMost(tokens + Gain(n, rate), max), last + Gain(n, intervalMs))
  {
    n := IntervalsAreDue(last, intervalMs, now);
    RefilledOnce(tokens, last, rate, intervalMs, max, now, n);
  }

  lemma RefilledOnce(tokens: real, last: real, rate: real, intervalMs: real, max: int, now: int, n: nat)
    requires rate > 0.0 && intervalMs > 0.0 && n == Intervals(last, intervalMs, now)
    ensures Refilled(Some(Bucket(tokens, last)), rate, intervalMs, max, now)
            == (AtMost(tokens + Gain(n, rate), max), last + Gain(n, intervalMs))
  {
    var refill := Gain(n, rate);
    assert Refilled(Some(Bucket(tokens, last)), rate, intervalMs, max, now)
        == (Filled(max as real, tokens, refill), if refill > 0.0 then last + Gain(n, intervalMs) else last);
    GainIsPositive(n, rate);
    assert Gain(0, intervalMs) == 0.0;
  }

  lemma GainIsPositive(n: nat, x: real)
    requires x > 0.0
    ensures Gain(n, x) > 0.0 <==> n > 0
  {
    assert Gain(0, x) == 0.0 && Gain(1, x) == x;
    if n > 0 {
      GainGrows(1, n, x);
    }
  }

  /**
   A stored bucket allows a cost at `now` if and only if the cost fits the maximum and, after some number of
   intervals that have passed since its last refill, its tokens and their refill cover it.
  */
  lemma BucketAllowsIff(rate: real, intervalMs: real, max: int, windowMs: int, tokens: real, last: real,
                        cost: nat, now: int)
    requires rate > 0.0 && intervalMs > 0.0 && windowMs > 0 && last <= now as real
    ensures Consume(TokenBucket(rate, intervalMs), Some(Bucket(tokens, last)), max, windowMs, cost, now).allowed <==>
              cost <= max && exists k: nat :: Due(last, intervalMs, k, now) && cost as real <= tokens + Gain(k, rate)
  {
    var n := RefilledBy(tokens, last, rate, intervalMs, max, now);
    forall k: nat | Due(last, intervalMs, k, now)
      ensures Gain(k, rate) <= Gain(n, rate)
    {
      DueUpTo(last, intervalMs, n, k, now);
      GainGrows(k, n, rate);
    }
  }

  /** An allowed cost is taken from the refilled bucket, whose last refill is its last whole interval. */
  lemma SavedBucket(rate: real, intervalMs: real, max: int, windowMs: int, tokens: real, last: real,
                    cost: nat, now: int) returns (n: nat)
    requires rate > 0.0 && intervalMs > 0.0 && windowMs > 0 && last <= now as real
    requires Consume(TokenBucket(rate, intervalMs), Some(Bucket(tokens, last)), max, windowMs, cost, now).allowed
    ensures Due(last, intervalMs, n, now) && !Due(last, intervalMs, n + 1, now)
    ensures Consume(TokenBucket(rate, intervalMs), Some(Bucket(tokens, last)), max, windowMs, cost, now).saved
            == Some(Bucket(AtMost(tokens + Gain(n, rate), max) - cost as real, last + Gain(n, intervalMs)))
  {
    n := RefilledBy(tokens, last, rate, intervalMs, max, now);
  }

  /** A refused cost within the maximum is allowed at every time from the interval on whose refill covers it. */
  lemma RefusedIsAllowedLater(rate: real, intervalMs: real, max: int, windowMs: int, tokens: real, last: real,
                              cost: nat, k: nat, late: int)
    requires rate > 0.0 && intervalMs > 0.0 && windowMs > 0 && last <= late as real
    requires cost <= max && cost as real <= tokens + Gain(k, rate) && Due(last, intervalMs, k, late)
    ensures Consume(TokenBucket(rate, intervalMs), Some(Bucket(tokens, last)), max, windowMs, cost, late).allowed
  {
    BucketAllowsIff(rate, intervalMs, max, windowMs, tokens, last, cost, late);
  }

  /** After enough idle intervals the bucket is full again. */
  lemma IdleBucketIsFull(rate: real, intervalMs: real, max: int, windowMs: int, tokens: real, last: real,
                         k: nat, late: int)
    requires rate > 0.0 && intervalMs > 0.0 && windowMs > 0 && last <= late as real
    requires max as real <= tokens + Gain(k, rate) && Due(last, intervalMs, k, late)
    ensures Peek(TokenBucket(rate, intervalMs), Some(Bucket(tokens, last)), max, windowMs, late) == 0.0
  {
    var n := RefilledBy(tokens, last, rate, intervalMs, max, late);
    DueUpTo(last, intervalMs, n, k, late);
    GainGrows(k, n, rate);
  }

  /** A key that was never used has nothing used, and allows exactly what fits the maximum. */
  lemma NewKeyAllowsIff(alg: Algorithm, max: int, windowMs: int, cost: nat, now: int)
    requires ValidAlgorithm(alg) && windowMs > 0
    ensures Peek(alg, None, max, windowMs, now) == 0.0
    ensures Consume(alg, None, max, windowMs, cost, now).allowed <==> cost <= max
  {
  }

  // ---------- Runs of a bucket ----------

  function Allowed(alg: Algorithm, max: nat, windowMs: int, l: Ledger, a: Attempt): bool
    requires ValidAlgorithm(alg) && windowMs > 0
  {
    Consume(alg, l.rec, max, windowMs, a.cost, a.at).allowed
  }

  /** The units granted between two moments of a run. */
  function Between(early: Ledger, late: Ledger): int {
    |late.grants| - |early.grants|
  }

  /** A bucket that was full at `full`, of which `granted` units were taken, refilled by `n` intervals since. */
  predicate Since(rec: Option<Stored>, rate: real, intervalMs: real, max: nat, full: real, granted: int, n: nat) {
    && rec.Some? && rec.value.Bucket?
    && rec.value.tokens == max as real - granted as real + Gain(n, rate)
    && rec.value.lastRefillAt == full + Gain(n, intervalMs)
  }

  /** Since some attempt before the `n`th, at which the bucket was full, only grants and whole intervals count. */
  ghost predicate FullAt(rate: real, intervalMs: real, max: nat, attempts: seq<Attempt>, run: seq<Ledger>,
                         m: nat, n: nat, full: real, k: nat)
    requires |run| == |attempts| + 1 && n <= |attempts|
  {
    && m < n && full <= attempts[m].at as real
    && Since(run[n].rec, rate, intervalMs, max, full, Between(run[m], run[n]), k)
  }

  /** What one attempt does to a bucket that has been used. */
  lemma AttemptSince(rate: real, intervalMs: real, max: nat, windowMs: int, l: Ledger, a: Attempt,
                     full: real, granted: int, n: nat) returns (k: nat)
    requires rate > 0.0 && intervalMs > 0.0 && windowMs > 0
    requires Since(l.rec, rate, intervalMs, max, full, granted, n) && l.rec.value.lastRefillAt <= a.at as real
    ensures var alg := TokenBucket(rate, intervalMs);
            var after := Step(alg, max, windowMs, l, a);
            if !Allowed(alg, max, windowMs, l, a) then after == l
            else
              && |after.grants| == |l.grants| + a.cost
              && (Since(after.rec, rate, intervalMs, max, full, granted + a.cost, n + k)
                  || (full + Gain(n + k, intervalMs) <= a.at as real
                      && Since(after.rec, rate, intervalMs, max, full + Gain(n + k, intervalMs), a.cost, 0)))
  {
    k := 0;
    var rec := l.rec.value;
    if Allowed(TokenBucket(rate, intervalMs), max, windowMs, l, a) {
      k := SavedBucket(rate, intervalMs, max, windowMs, rec.tokens, rec.lastRefillAt, a.cost, a.at);
      GainAdds(n, k, rate);
      GainAdds(n, k, intervalMs);
      assert Gain(0, rate) == 0.0 && Gain(0, intervalMs) == 0.0;
    } else {
      BucketKeepsRecord(rate, intervalMs, max, windowMs, l, a);
    }
  }

  lemma BucketKeepsRecord(rate: real, intervalMs: real, max: nat, windowMs: int, l: Ledger, a: Attempt)
    requires rate > 0.0 && intervalMs > 0.0 && windowMs > 0
    requires !Allowed(TokenBucket(rate, intervalMs), max, windowMs, l, a)
    ensures Step(TokenBucket(rate, intervalMs), max, windowMs, l, a) == l
  {
  }

  /** The first grant takes from a full bucket. */
  lemma FirstGrant(rate: real, intervalMs: real, max: nat, windowMs: int, l: Ledger, a: Attempt)
    requires rate > 0.0 && intervalMs > 0.0 && windowMs > 0 && l.rec.None?
    requires Allowed(TokenBucket(rate, intervalMs), max, windowMs, l, a)
    ensures var after := Step(TokenBucket(rate, intervalMs), max, windowMs, l, a);
            |after.grants| == |l.grants| + a.cost && Since(after.rec, rate, intervalMs, max, a.at as real, a.cost, 0)
  {
    assert Gain(0, rate) == 0.0 && Gain(0, intervalMs) == 0.0;
  }

  /** A bucket that was used was full at some attempt. */
  lemma {:induction false} WasFull(rate: real, intervalMs: real, max: nat, windowMs: int, attempts: seq<Attempt>,
                                   run: seq<Ledger>, n: nat) returns (m: nat, full: real, k: nat)
    requires rate > 0.0 && intervalMs > 0.0 && windowMs > 0 && n <= |attempts|
    requires IsRun(TokenBucket(rate, intervalMs), max, windowMs, attempts, run)
    ensures run[n].rec.None? || FullAt(rate, intervalMs, max, attempts, run, m, n, full, k)
  {
    m, full, k := 0, 0.0, 0;
    if n > 0 {
      m, full, k := WasFull(rate, intervalMs, max, windowMs, attempts, run, n - 1);
      var l, a := run[n - 1], attempts[n - 1];
      assert run[n] == Step(TokenBucket(rate, intervalMs), max, windowMs, l, a);
      if !Allowed(TokenBucket(rate, intervalMs), max, windowMs, l, a) {
        BucketKeepsRecord(rate, intervalMs, max, windowMs, l, a);
      } else if l.rec.None? {
        FirstGrant(rate, intervalMs, max, windowMs, l, a);
        m, full, k := n - 1, a.at as real, 0;
      } else {
        BucketRunIsOk(rate, intervalMs, max, windowMs, attempts, run, n - 1, a.at);
        var more := AttemptSince(rate, intervalMs, max, windowMs, l, a, full, Between(run[m], l), k);
        if Since(run[n].rec, rate, intervalMs, max, full, Between(run[m], l) + a.cost, k + more) {
          k := k + more;
        } else {
          m, full, k := n - 1, full + Gain(k + more, intervalMs), 0;
        }
      }
    }
  }

  lemma {:induction false} BucketRunIsOk(rate: real, intervalMs: real, max: nat, windowMs: int, attempts: seq<Attempt>,
                                         run: seq<Ledger>, n: nat, t: int)
    requires rate > 0.0 && intervalMs > 0.0 && windowMs > 0 && Reached(attempts, n, t)
    requires IsRun(TokenBucket(rate, intervalMs), max, windowMs, attempts, run)
    ensures BucketOk(run[n].rec, t)
  {
    if n > 0 {
      var a := attempts[n - 1];
      BucketRunIsOk(rate, intervalMs, max, windowMs, attempts, run, n - 1, a.at);
      BucketStepIsOk(rate, intervalMs, max, windowMs, run[n - 1], a);
    }
  }

  /** From the attempt `m` on, the grants and the cost exceed the maximum and what whole intervals refill. */
  ghost predicate Overdrawn(rate: real, intervalMs: real, max: nat, attempts: seq<Attempt>, run: seq<Ledger>,
                            m: nat, n: nat)
    requires |run| == |attempts| + 1 && n < |attempts|
  {
    m < n && forall w: nat :: Due(attempts[m].at as real, intervalMs, w, attempts[n].at) ==>
      max as real + Gain(w, rate) < (Between(run[m], run[n]) + attempts[n].cost) as real
  }

  /** A refusal means that every refill that is due leaves the cost uncovered. */
  lemma RefusedIsUncovered(rate: real, intervalMs: real, max: nat, windowMs: int, l: Ledger, a: Attempt, full: real,
                           start: real, granted: int, n: nat, w: nat)
    requires rate > 0.0 && intervalMs > 0.0 && windowMs > 0 && a.cost <= max && full <= start
    requires Since(l.rec, rate, intervalMs, max, full, granted, n) && l.rec.value.lastRefillAt <= a.at as real
    requires !Allowed(TokenBucket(rate, intervalMs), max, windowMs, l, a) && Due(start, intervalMs, w, a.at)
    ensures max as real + Gain(w, rate) < (granted + a.cost) as real
  {
    var rec := l.rec.value;
    BucketAllowsIff(rate, intervalMs, max, windowMs, rec.tokens, rec.lastRefillAt, a.cost, a.at);
    var k := if w >= n then w - n else 0;
    assert Gain(0, rate) == 0.0 && Gain(0, intervalMs) == 0.0;
    if w >= n {
      GainAdds(n, k, rate);
      GainAdds(n, k, intervalMs);
    } else {
      GainGrows(w, n, rate);
    }
    assert Due(rec.lastRefillAt, intervalMs, k, a.at);
  }

  /**
   Over every run, an attempt within the maximum is refused only if, since some earlier attempt, the grants and
   its cost exceed the bucket and the refill of the whole intervals since then.
  */
  lemma RefusalIsOwed(rate: real, intervalMs: real, max: nat, windowMs: int, attempts: seq<Attempt>,
                      run: seq<Ledger>, n: nat) returns (m: nat)
    requires rate > 0.0 && intervalMs > 0.0 && windowMs > 0 && n < |attempts| && attempts[n].cost <= max
    requires IsRun(TokenBucket(rate, intervalMs), max, windowMs, attempts, run)
    requires !Allowed(TokenBucket(rate, intervalMs), max, windowMs, run[n], attempts[n])
    ensures Overdrawn(rate, intervalMs, max, attempts, run, m, n)
  {
    var full, k;
    m, full, k := WasFull(rate, intervalMs, max, windowMs, attempts, run, n);
    NewKeyAllowsIff(TokenBucket(rate, intervalMs), max, windowMs, attempts[n].cost, attempts[n].at);
    BucketRunIsOk(rate, intervalMs, max, windowMs, attempts, run, n, attempts[n].at);
    forall w: nat | Due(attempts[m].at as real, intervalMs, w, attempts[n].at)
      ensures max as real + Gain(w, rate) < (Between(run[m], run[n]) + attempts[n].cost) as real
    {
      RefusedIsUncovered(rate, intervalMs, max, windowMs, run[n], attempts[n], full, attempts[m].at as real,
                         Between(run[m], run[n]), k, w);
    }
  }

  // ---------- Runs of the windows ----------

  /** No unit is granted at a later time than the last attempt. */
  lemma {:induction false} GrantsArePast(alg: Algorithm, max: nat, windowMs: int, attempts: seq<Attempt>,
                                         run: seq<Ledger>, n: nat, t: int)
    requires ValidAlgorithm(alg) && windowMs > 0 && IsRun(alg, max, windowMs, attempts, run) && Reached(attempts, n, t)
    ensures forall x :: x in run[n].grants ==> x <= t
  {
    if n > 0 {
      var a := attempts[n - 1];
      GrantsArePast(alg, max, windowMs, attempts, run, n - 1, a.at);
      RepeatMembers(a.at, a.cost);
    }
  }

  /** The entries after the cutoff are those of the window that ends now. */
  lemma {:induction false} AfterIsInterval(ts: seq<int>, windowMs: int, now: int)
    requires forall x :: x in ts ==> x <= now
    ensures |After(ts, now - windowMs)| == InInterval(ts, windowMs, now - windowMs + 1)
  {
    if ts != [] {
      assert ts[0] in ts;
      assert forall x :: x in ts[1..] ==> x in ts;
      AfterIsInterval(ts[1..], windowMs, now);
    }
  }

  /** Over every run, an attempt is allowed exactly when the grants of the window that ends with it leave room. */
  lemma SlidingAllowsIff(max: nat, windowMs: int, attempts: seq<Attempt>, run: seq<Ledger>, n: nat)
    requires windowMs > 0 && IsRun(SlidingWindow, max, windowMs, attempts, run) && n < |attempts|
    ensures var a := attempts[n];
            Allowed(SlidingWindow, max, windowMs, run[n], a) <==>
              InInterval(run[n].grants, windowMs, a.at - windowMs + 1) + a.cost <= max
  {
    var a := attempts[n];
    SlidingRun(max, windowMs, attempts, run, n, a.at);
    GrantsArePast(SlidingWindow, max, windowMs, attempts, run, n, a.at);
    AfterIsInterval(run[n].grants, windowMs, a.at);
  }

  /** With fixed windows, exactly when the grants of its own window leave room. */
  lemma FixedAllowsIff(max: nat, windowMs: int, attempts: seq<Attempt>, run: seq<Ledger>, n: nat)
    requires windowMs > 0 && IsRun(FixedWindow, max, windowMs, attempts, run) && n < |attempts|
    ensures var a := attempts[n];
            Allowed(FixedWindow, max, windowMs, run[n], a) <==>
              InWindow(run[n].grants, windowMs, a.at / windowMs) + a.cost <= max
  {
    FixedRun(max, windowMs, attempts, run, n, attempts[n].at);
  }
}
