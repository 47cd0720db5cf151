/**
 The three rate-limit algorithms, as functions of what is stored under one key. Token counts and the
 refill settings are exact reals; every other quantity is an integer.
*/
module RateAlgorithms {
  import opened Wrappers

  datatype Algorithm =
    | SlidingWindow
    | FixedWindow
    | TokenBucket(refillRate: real, refillIntervalMs: real)

  /** What each algorithm stores under a key. */
  datatype Stored =
    | Entries(timestamps: seq<int>)
    | Window(windowId: int, count: nat)
    | Bucket(tokens: real, lastRefillAt: real)

  /** `consume`: whether it was allowed, the usage it reports, and what it saved. */
  datatype Consumption = Consumption(allowed: bool, current: real, saved: Option<Stored>)

  /** The refill settings were validated when the limiter was built. */
  predicate ValidAlgorithm(alg: Algorithm) {
    alg.TokenBucket? ==> alg.refillRate > 0.0 && alg.refillIntervalMs > 0.0
  }

  /** The record under a key was saved by this algorithm, at a time that has passed. */
  predicate Fits(alg: Algorithm, rec: Option<Stored>, windowMs: int, now: int)
    requires windowMs > 0
  {
    rec.Some? ==>
      match alg
      case SlidingWindow => rec.value.Entries?
      case FixedWindow => rec.value.Window? && rec.value.windowId <= now / windowMs
      case TokenBucket(_, _) => rec.value.Bucket? && rec.value.lastRefillAt <= now as real
  }

  // ---------- Sliding window ----------

  /** `entries.filter(e => e.ts > cutoff)` */
  function After(ts: seq<int>, cutoff: int): seq<int> {
    if ts == [] then []
    else (if ts[0] > cutoff then [ts[0]] else []) + After(ts[1..], cutoff)
  }

  function Repeat(t: int, n: nat): (r: seq<int>)
    ensures |r| == n
  {
    if n == 0 then [] else [t] + Repeat(t, n - 1)
  }

  function Timestamps(rec: Option<Stored>): seq<int> {
    if rec.Some? && rec.value.Entries? then rec.value.timestamps else []
  }

  // ---------- Fixed window ----------

  function Count(rec: Option<Stored>, windowId: int): nat {
    if rec.Some? && rec.value.Window? && rec.value.windowId == windowId then rec.value.count else 0
  }

  // ---------- Token bucket ----------

  function Intervals(lastRefillAt: real, intervalMs: real, now: int): int
    requires intervalMs > 0.0
  {
    ((now as real - lastRefillAt) / intervalMs).Floor
  }

  function Min(a: real, b: real): real {
    if a <= b then a else b
  }

  /** The tokens after a refill; a bucket never overflows. */
  function Filled(max: real, tokens: real, refill: real): real {
    Min(max, tokens + refill)
  }

  /** The bucket after the lazy refill. */
  function Refilled(rec: Option<Stored>, rate: real, intervalMs: real, max: int, now: int): (real, real)
    requires intervalMs > 0.0
  {
    if rec.None? || !rec.value.Bucket? then (max as real, now as real)
    else
      var n := Intervals(rec.value.lastRefillAt, intervalMs, now);
      var refill := n as real * rate;
      (Filled(max as real, rec.value.tokens, refill),
       if refill > 0.0 then rec.value.lastRefillAt + n as real * intervalMs else rec.value.lastRefillAt)
  }

  // ---------- The interface ----------

  /** The usage that `peek` reports. */
  function Peek(alg: Algorithm, rec: Option<Stored>, max: int, windowMs: int, now: int): real
    requires ValidAlgorithm(alg) && windowMs > 0
  {
    match alg
    case SlidingWindow => |After(Timestamps(rec), now - windowMs)| as real
    case FixedWindow => Count(rec, now / windowMs) as real
    case TokenBucket(rate, intervalMs) => max as real - Refilled(rec, rate, intervalMs, max, now).0
  }

  function Consume(alg: Algorithm, rec: Option<Stored>, max: int, windowMs: int, cost: nat, now: int): Consumption
    requires ValidAlgorithm(alg) && windowMs > 0
  {
    match alg
    case SlidingWindow =>
      var entries := After(Timestamps(rec), now - windowMs);
      if |entries| + cost > max then Consumption(false, |entries| as real, rec)
      else Consumption(true, (|entries| + cost) as real, Some(Entries(entries + Repeat(now, cost))))
    case FixedWindow =>
      var count := Count(rec, now / windowMs);
      if count + cost > max then Consumption(false, count as real, rec)
      else Consumption(true, (count + cost) as real, Some(Window(now / windowMs, count + cost)))
    case TokenBucket(rate, intervalMs) =>
      var (tokens, lastRefillAt) := Refilled(rec, rate, intervalMs, max, now);
      if tokens < cost as real then Consumption(false, max as real - tokens, rec)
      else Consumption(true, max as real - (tokens - cost as real),
                       Some(Bucket(tokens - cost as real, lastRefillAt)))
  }

  // ---------- What every algorithm guarantees ----------

  lemma {:induction false} AfterMembers(ts: seq<int>, cutoff: int)
    ensures forall t :: t in After(ts, cutoff) ==> t > cutoff
    ensures (forall t :: t in ts ==> t > cutoff) ==> After(ts, cutoff) == ts
  {
    if ts != [] {
      AfterMembers(ts[1..], cutoff);
      assert ts == [ts[0]] + ts[1..];
      assert ts[0] in ts && forall t :: t in ts[1..] ==> t in ts;
    }
  }

  /** Filtering twice is filtering by the later cutoff. */
  lemma {:induction false} AfterAfter(ts: seq<int>, early: int, late: int)
    requires early <= late
    ensures After(After(ts, early), late) == After(ts, late)
    ensures |After(ts, late)| <= |After(ts, early)|
  {
    if ts != [] {
      AfterAfter(ts[1..], early, late);
      var rest := After(ts[1..], early);
      if ts[0] > early {
        assert ([ts[0]] + rest)[1..] == rest;
      } else {
        assert [] + rest == rest;
        assert [] + After(ts[1..], late) == After(ts[1..], late);
      }
    }
  }

  lemma Associative(a: seq<int>, b: seq<int>, c: seq<int>)
    ensures a + (b + c) == a + b + c
  {
  }

  lemma {:induction false} AfterAppend(ts: seq<int>, us: seq<int>, cutoff: int)
    ensures After(ts + us, cutoff) == After(ts, cutoff) + After(us, cutoff)
  {
    if ts == [] {
      assert ts + us == us;
    } else {
      AfterAppend(ts[1..], us, cutoff);
      assert (ts + us)[0] == ts[0] && (ts + us)[1..] == ts[1..] + us;
      Associative(if ts[0] > cutoff then [ts[0]] else [], After(ts[1..], cutoff), After(us, cutoff));
    }
  }

  lemma {:induction false} RepeatMembers(t: int, n: nat)
    ensures forall x :: x in Repeat(t, n) ==> x == t
  {
    if n > 0 {
      RepeatMembers(t, n - 1);
    }
  }

  lemma DivMonotone(a: real, b: real, d: real)
    requires a <= b && d > 0.0
    ensures a / d <= b / d
  {
    assert b / d - a / d == (b - a) / d;
    assert (b - a) / d >= 0.0;
  }

  lemma IntervalsGrow(lastRefillAt: real, intervalMs: real, early: int, late: int)
    requires intervalMs > 0.0 && early <= late
    ensures Intervals(lastRefillAt, intervalMs, early) <= Intervals(lastRefillAt, intervalMs, late)
  {
    DivMonotone(early as real - lastRefillAt, late as real - lastRefillAt, intervalMs);
  }

  lemma BucketUsageNeverRises(rec: Option<Stored>, rate: real, intervalMs: real, max: int, early: int, late: int)
    requires rate > 0.0 && intervalMs > 0.0 && early <= late
    ensures Refilled(rec, rate, intervalMs, max, early).0 <= Refilled(rec, rate, intervalMs, max, late).0
  {
    if rec.Some? && rec.value.Bucket? {
      var a := Intervals(rec.value.lastRefillAt, intervalMs, early);
      var b := Intervals(rec.value.lastRefillAt, intervalMs, late);
      IntervalsGrow(rec.value.lastRefillAt, intervalMs, early, late);
      MulMonotone(a as real, b as real, rate);
      FilledGrows(max as real, rec.value.tokens, a as real * rate, b as real * rate);
    }
  }

  lemma FilledGrows(max: real, tokens: real, few: real, many: real)
    requires few <= many
    ensures Filled(max, tokens, few) <= Filled(max, tokens, many)
  {
  }

  lemma WindowUsageNeverRises(rec: Option<Stored>, windowMs: int, early: int, late: int)
    requires windowMs > 0 && early <= late && Fits(FixedWindow, rec, windowMs, early)
    ensures Count(rec, late / windowMs) <= Count(rec, early / windowMs)
  {
    FloorMonotone(early, late, windowMs);
  }

  /** Usage cannot rise while nothing is consumed. */
  lemma UsageNeverRises(alg: Algorithm, rec: Option<Stored>, max: int, windowMs: int, early: int, late: int)
    requires ValidAlgorithm(alg) && windowMs > 0 && early <= late && Fits(alg, rec, windowMs, early)
    ensures Peek(alg, rec, max, windowMs, late) <= Peek(alg, rec, max, windowMs, early)
  {
    match alg
    case SlidingWindow => AfterAfter(Timestamps(rec), early - windowMs, late - windowMs);
    case FixedWindow => WindowUsageNeverRises(rec, windowMs, early, late);
    case TokenBucket(rate, intervalMs) => BucketUsageNeverRises(rec, rate, intervalMs, max, early, late);
  }

  lemma FactorSmaller(d: int, x: int, y: int)
    requires d > 0 && d * x < d * y
    ensures x < y
  {
    assert d * (y - x) == d * y - d * x;
  }

  lemma FloorMonotone(a: int, b: int, d: int)
    requires a <= b && d > 0
    ensures a / d <= b / d
  {
    FactorSmaller(d, a / d, b / d + 1);
  }

  lemma MulMonotone(a: real, b: real, c: real)
    requires a <= b && c >= 0.0
    ensures a * c <= b * c
  {
  }

  /** `consume` is allowed exactly when the usage plus the cost fits, and then adds exactly the cost. */
  lemma ConsumeAddsCost(alg: Algorithm, rec: Option<Stored>, max: int, windowMs: int, cost: nat, now: int)
    requires ValidAlgorithm(alg) && windowMs > 0 && Fits(alg, rec, windowMs, now)
    ensures var c := Consume(alg, rec, max, windowMs, cost, now);
      && (c.allowed <==> Peek(alg, rec, max, windowMs, now) + cost as real <= max as real)
      && (c.allowed ==> Peek(alg, c.saved, max, windowMs, now) == Peek(alg, rec, max, windowMs, now) + cost as real)
      && (!c.allowed ==> c.saved == rec)
      && c.current == Peek(alg, c.saved, max, windowMs, now)
      && Fits(alg, c.saved, windowMs, now)
  {
    match alg
    case SlidingWindow =>
      var cutoff := now - windowMs;
      var entries := After(Timestamps(rec), cutoff);
      AfterAppend(entries, Repeat(now, cost), cutoff);
      AfterAfter(Timestamps(rec), cutoff, cutoff);
      RepeatMembers(now, cost);
      AfterMembers(Repeat(now, cost), cutoff);
    case FixedWindow =>
    case TokenBucket(rate, intervalMs) => BucketSettles(rec, rate, intervalMs, max, now);
  }

  /** Whatever the record is, `consume` allows exactly what fits beside the usage that `peek` reports. */
  lemma AllowedIffRoom(alg: Algorithm, rec: Option<Stored>, max: int, windowMs: int, cost: nat, now: int)
    requires ValidAlgorithm(alg) && windowMs > 0
    ensures Consume(alg, rec, max, windowMs, cost, now).allowed <==>
              Peek(alg, rec, max, windowMs, now) + cost as real <= max as real
  {
  }

  /** A refill leaves nothing to refill at the same time. */
  lemma BucketSettles(rec: Option<Stored>, rate: real, intervalMs: real, max: int, now: int)
    requires rate > 0.0 && intervalMs > 0.0
    requires rec.Some? ==> rec.value.Bucket? && rec.value.lastRefillAt <= now as real
    ensures var (tokens, last) := Refilled(rec, rate, intervalMs, max, now);
      last <= now as real && Intervals(last, intervalMs, now) == 0 && tokens <= max as real
  {
    var (tokens, last) := Refilled(rec, rate, intervalMs, max, now);
    if rec.None? {
      assert 0.0 / intervalMs == 0.0;
    } else {
      var before := rec.value.lastRefillAt;
      var elapsed := now as real - before;
      var q := elapsed / intervalMs;
      assert q >= 0.0 && q * intervalMs == elapsed;
      var n := q.Floor;
      if n == 0 {
        assert n as real * rate == 0.0;
      } else {
        assert n as real * rate > 0.0;
        assert n as real * intervalMs <= q * intervalMs by { MulMonotone(n as real, q, intervalMs); }
        assert (now as real - last) / intervalMs == q - n as real;
      }
    }
  }
}
