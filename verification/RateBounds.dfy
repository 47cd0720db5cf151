/** How much each algorithm ever grants to one key, over every run of attempts with a fixed maximum. */
module RateBounds {
  import opened Arithmetic
  import opened Wrappers
  import opened RateAlgorithms

  datatype Attempt = Attempt(cost: nat, at: int)

  predicate ClockRuns(attempts: seq<Attempt>) {
    forall i, j :: 0 <= i < j < |attempts| ==> attempts[i].at <= attempts[j].at
  }

  /** What is stored under the key, and the time of every unit ever granted. */
  datatype Ledger = Ledger(rec: Option<Stored>, grants: seq<int>)

  function Step(alg: Algorithm, max: nat, windowMs: int, l: Ledger, a: Attempt): Ledger
    requires ValidAlgorithm(alg) && windowMs > 0
  {
    var c := Consume(alg, l.rec, max, windowMs, a.cost, a.at);
    Ledger(c.saved, if c.allowed then l.grants + Repeat(a.at, a.cost) else l.grants)
  }

  /** The ledgers of a run: empty at first, one step for each attempt. */
  ghost predicate IsRun(alg: Algorithm, max: nat, windowMs: int, attempts: seq<Attempt>, run: seq<Ledger>)
    requires ValidAlgorithm(alg) && windowMs > 0
  {
    && ClockRuns(attempts)
    && |run| == |attempts| + 1
    && run[0] == Ledger(None, [])
    && forall i {:trigger attempts[i]} :: 0 <= i < |attempts| ==>
         run[i + 1] == Step(alg, max, windowMs, run[i], attempts[i])
  }

  /** The clock has reached `t` after the first `n` attempts. */
  predicate Reached(attempts: seq<Attempt>, n: nat, t: int) {
    n <= |attempts| && (n > 0 ==> attempts[n - 1].at <= t)
  }

  // ---------- Sliding window ----------

  /** From `cutoff` on, the stored entries are the grants, and they are no more than the maximum. */
  predicate EntriesAreGrants(l: Ledger, max: nat, cutoff: int) {
    && After(Timestamps(l.rec), cutoff) == After(l.grants, cutoff)
    && |After(l.grants, cutoff)| <= max
  }

  lemma EntriesAge(l: Ledger, max: nat, early: int, late: int)
    requires EntriesAreGrants(l, max, early) && early <= late
    ensures EntriesAreGrants(l, max, late)
  {
    AfterAfter(Timestamps(l.rec), early, late);
    AfterAfter(l.grants, early, late);
  }

  lemma SlidingStep(max: nat, windowMs: int, l: Ledger, a: Attempt)
    requires windowMs > 0 && EntriesAreGrants(l, max, a.at - windowMs)
    ensures EntriesAreGrants(Step(SlidingWindow, max, windowMs, l, a), max, a.at - windowMs)
  {
    var cutoff := a.at - windowMs;
    var entries := After(Timestamps(l.rec), cutoff);
    var added := Repeat(a.at, a.cost);
    AfterAfter(Timestamps(l.rec), cutoff, cutoff);
    AfterAppend(entries, added, cutoff);
    AfterAppend(l.grants, added, cutoff);
    AfterLength(added, cutoff);
  }

  lemma SlidingStepUntil(max: nat, windowMs: int, l: Ledger, a: Attempt, l': Ledger, t: int)
    requires windowMs > 0 && EntriesAreGrants(l, max, a.at - windowMs) && a.at <= t
    requires l' == Step(SlidingWindow, max, windowMs, l, a)
    ensures EntriesAreGrants(l', max, t - windowMs)
  {
    SlidingStep(max, windowMs, l, a);
    EntriesAge(l', max, a.at - windowMs, t - windowMs);
  }

  lemma {:induction false} SlidingRun(max: nat, windowMs: int, attempts: seq<Attempt>, run: seq<Ledger>, n: nat, t: int)
    requires windowMs > 0 && IsRun(SlidingWindow, max, windowMs, attempts, run) && Reached(attempts, n, t)
    ensures EntriesAreGrants(run[n], max, t - windowMs)
  {
    if n > 0 {
      var last := attempts[n - 1];
      SlidingRun(max, windowMs, attempts, run, n - 1, last.at);
      SlidingStepUntil(max, windowMs, run[n - 1], last, run[n], t);
    }
  }

  lemma {:induction false} AfterLength(ts: seq<int>, cutoff: int)
    ensures |After(ts, cutoff)| <= |ts|
  {
    if ts != [] {
      AfterLength(ts[1..], cutoff);
    }
  }

  /** No window of the given length, wherever it ends, ever holds more grants than the maximum. */
  lemma SlidingWindowBound(max: nat, windowMs: int, attempts: seq<Attempt>, run: seq<Ledger>, n: nat, t: int)
    requires windowMs > 0 && IsRun(SlidingWindow, max, windowMs, attempts, run) && Reached(attempts, n, t)
    ensures |After(run[n].grants, t - windowMs)| <= max
  {
    SlidingRun(max, windowMs, attempts, run, n, t);
  }

  // ---------- Fixed window ----------

  /** The grants that fall into one window. */
  function InWindow(ts: seq<int>, windowMs: int, id: int): nat
    requires windowMs > 0
  {
    if ts == [] then 0 else (if ts[0] / windowMs == id then 1 else 0) + InWindow(ts[1..], windowMs, id)
  }

  lemma {:induction false} InWindowAppend(ts: seq<int>, us: seq<int>, windowMs: int, id: int)
    requires windowMs > 0
    ensures InWindow(ts + us, windowMs, id) == InWindow(ts, windowMs, id) + InWindow(us, windowMs, id)
  {
    if ts == [] {
      assert ts + us == us;
    } else {
      InWindowAppend(ts[1..], us, windowMs, id);
      assert (ts + us)[0] == ts[0] && (ts + us)[1..] == ts[1..] + us;
    }
  }

  lemma {:induction false} InWindowRepeat(t: int, n: nat, windowMs: int, id: int)
    requires windowMs > 0
    ensures InWindow(Repeat(t, n), windowMs, id) == if t / windowMs == id then n else 0
  {
    if n > 0 {
      InWindowRepeat(t, n - 1, windowMs, id);
      assert ([t] + Repeat(t, n - 1))[1..] == Repeat(t, n - 1);
    }
  }

  /** No window holds too much, and the count of a window that is not over is its grants. */
  ghost predicate CountsGrants(l: Ledger, max: nat, windowMs: int, current: int)
    requires windowMs > 0
  {
    && (l.rec.Some? ==> l.rec.value.Window? && l.rec.value.windowId <= current)
    && (forall id :: InWindow(l.grants, windowMs, id) <= max)
    && (forall id :: current <= id ==> InWindow(l.grants, windowMs, id) == Count(l.rec, id))
  }

  lemma FixedStep(max: nat, windowMs: int, l: Ledger, a: Attempt)
    requires windowMs > 0 && CountsGrants(l, max, windowMs, a.at / windowMs)
    ensures CountsGrants(Step(FixedWindow, max, windowMs, l, a), max, windowMs, a.at / windowMs)
  {
    forall id: int
      ensures InWindow(l.grants + Repeat(a.at, a.cost), windowMs, id)
           == InWindow(l.grants, windowMs, id) + if a.at / windowMs == id then a.cost else 0
    {
      InWindowAppend(l.grants, Repeat(a.at, a.cost), windowMs, id);
      InWindowRepeat(a.at, a.cost, windowMs, id);
    }
  }

  lemma {:induction false} FixedRun(max: nat, windowMs: int, attempts: seq<Attempt>, run: seq<Ledger>, n: nat, t: int)
    requires windowMs > 0 && IsRun(FixedWindow, max, windowMs, attempts, run) && Reached(attempts, n, t)
    ensures CountsGrants(run[n], max, windowMs, t / windowMs)
  {
    if n > 0 {
      var last := attempts[n - 1];
      FixedRun(max, windowMs, attempts, run, n - 1, last.at);
      FixedStep(max, windowMs, run[n - 1], last);
      FloorMonotone(last.at, t, windowMs);
    }
  }

  /** Each fixed window holds at most the maximum. */
  lemma FixedWindowBound(max: nat, windowMs: int, attempts: seq<Attempt>, run: seq<Ledger>, n: nat, id: int)
    requires windowMs > 0 && IsRun(FixedWindow, max, windowMs, attempts, run) && n <= |attempts|
    ensures InWindow(run[n].grants, windowMs, id) <= max
  {
    FixedRun(max, windowMs, attempts, run, n, if n == 0 then 0 else attempts[n - 1].at);
  }

  /** Across a boundary, twice the maximum is granted within two milliseconds. */
  lemma FixedWindowBoundaryBurst(max: nat, windowMs: int)
    requires windowMs > 1
    ensures var once := Step(FixedWindow, max, windowMs, Ledger(None, []), Attempt(max, windowMs - 1));
            var twice := Step(FixedWindow, max, windowMs, once, Attempt(max, windowMs));
      twice.grants == Repeat(windowMs - 1, max) + Repeat(windowMs, max)
  {
    assert (windowMs - 1) / windowMs == 0;
    assert windowMs / windowMs == 1;
    assert [] + Repeat(windowMs - 1, max) == Repeat(windowMs - 1, max);
  }

  /** The grants of the window's length that starts at `from`. */
  function InInterval(ts: seq<int>, windowMs: int, from: int): nat {
    if ts == [] then 0 else (if from <= ts[0] < from + windowMs then 1 else 0) + InInterval(ts[1..], windowMs, from)
  }

  /** An interval of a window's length meets at most two windows. */
  lemma IntervalMeetsTwo(t: int, windowMs: int, from: int)
    requires windowMs > 0 && from <= t < from + windowMs
    ensures t / windowMs == from / windowMs || t / windowMs == from / windowMs + 1
  {
    FloorMonotone(from, t, windowMs);
    FloorMonotone(t, from + windowMs, windowMs);
    DivisionIsUnique(from + windowMs, windowMs, from / windowMs + 1, from % windowMs);
  }

  lemma {:induction false} IntervalWithinTwo(ts: seq<int>, windowMs: int, from: int)
    requires windowMs > 0
    ensures InInterval(ts, windowMs, from) <=
              InWindow(ts, windowMs, from / windowMs) + InWindow(ts, windowMs, from / windowMs + 1)
  {
    if ts != [] {
      IntervalWithinTwo(ts[1..], windowMs, from);
      if from <= ts[0] < from + windowMs {
        IntervalMeetsTwo(ts[0], windowMs, from);
      }
    }
  }

  /** The burst is as bad as it gets: no interval of a window's length holds more than twice the maximum. */
  lemma FixedWindowIntervalBound(max: nat, windowMs: int, attempts: seq<Attempt>, run: seq<Ledger>, n: nat, from: int)
    requires windowMs > 0 && IsRun(FixedWindow, max, windowMs, attempts, run) && n <= |attempts|
    ensures InInterval(run[n].grants, windowMs, from) <= 2 * max
  {
    IntervalWithinTwo(run[n].grants, windowMs, from);
    FixedWindowBound(max, windowMs, attempts, run, n, from / windowMs);
    FixedWindowBound(max, windowMs, attempts, run, n, from / windowMs + 1);
  }

  // ---------- Token bucket ----------

  /** What a bucket holds was saved by the bucket, at a time that has passed. */
  predicate BucketOk(rec: Option<Stored>, now: int) {
    rec.Some? ==> rec.value.Bucket? && rec.value.tokens >= 0.0 && rec.value.lastRefillAt <= now as real
  }

  /** Granted units and left tokens never exceed one bucketful and what was refilled since `start`. */
  predicate Paid(granted: real, tokens: real, last: real, rate: real, intervalMs: real, max: nat, start: real) {
    (granted + tokens - max as real) * intervalMs <= rate * (last - start)
  }

  predicate Balanced(rec: Option<Stored>, granted: real, rate: real, intervalMs: real, max: nat, start: real) {
    if rec.None? then granted == 0.0
    else rec.value.Bucket? && Paid(granted, rec.value.tokens, rec.value.lastRefillAt, rate, intervalMs, max, start)
  }

  lemma LaterIsPaid(granted: real, tokens: real, early: real, late: real, rate: real, intervalMs: real, max: nat,
                    start: real)
    requires rate > 0.0 && early <= late && Paid(granted, tokens, early, rate, intervalMs, max, start)
    ensures Paid(granted, tokens, late, rate, intervalMs, max, start)
  {
    MulMonotone(early - start, late - start, rate);
  }

  /** A refill by `n` intervals adds what they are worth, or less. */
  lemma RefillIsPaid(granted: real, before: real, tokens: real, last: real, n: real,
                     rate: real, intervalMs: real, max: nat, start: real)
    requires intervalMs > 0.0 && tokens <= before + n * rate
    requires Paid(granted, before, last, rate, intervalMs, max, start)
    ensures Paid(granted, tokens, last + n * intervalMs, rate, intervalMs, max, start)
  {
    var worth := n * rate;
    MulMonotone(granted + tokens - max as real, granted + before + worth - max as real, intervalMs);
    assert (granted + before + worth - max as real) * intervalMs
        == (granted + before - max as real) * intervalMs + worth * intervalMs;
    assert worth * intervalMs == rate * (n * intervalMs);
    assert rate * (last + n * intervalMs - start) == rate * (last - start) + rate * (n * intervalMs);
  }

  lemma IntervalsNotNegative(last: real, intervalMs: real, now: int)
    requires intervalMs > 0.0 && last <= now as real
    ensures Intervals(last, intervalMs, now) >= 0
  {
    DivMonotone(0.0, now as real - last, intervalMs);
    assert 0.0 / intervalMs == 0.0;
  }

  /** A stored bucket is refilled by whole intervals. */
  lemma RefillByIntervals(rec: Option<Stored>, rate: real, intervalMs: real, max: nat, now: int) returns (n: real)
    requires rate > 0.0 && intervalMs > 0.0 && rec.Some? && BucketOk(rec, now)
    ensures var (tokens, last) := Refilled(rec, rate, intervalMs, max, now);
            tokens <= rec.value.tokens + n * rate && last == rec.value.lastRefillAt + n * intervalMs
  {
    var count := Intervals(rec.value.lastRefillAt, intervalMs, now);
    n := count as real;
    IntervalsNotNegative(rec.value.lastRefillAt, intervalMs, now);
    if count == 0 {
      assert n * rate == 0.0 && n * intervalMs == 0.0;
    } else {
      MulMonotone(1.0, n, rate);
    }
  }

  lemma RefillKeepsBalance(rec: Option<Stored>, rate: real, intervalMs: real, max: nat, now: int, granted: real,
                           start: real)
    requires rate > 0.0 && intervalMs > 0.0 && start <= now as real && BucketOk(rec, now)
    requires Balanced(rec, granted, rate, intervalMs, max, start)
    ensures var (tokens, last) := Refilled(rec, rate, intervalMs, max, now);
            Paid(granted, tokens, last, rate, intervalMs, max, start)
  {
    var (tokens, last) := Refilled(rec, rate, intervalMs, max, now);
    if rec.None? {
      MulMonotone(0.0, now as real - start, rate);
    } else {
      var n := RefillByIntervals(rec, rate, intervalMs, max, now);
      RefillIsPaid(granted, rec.value.tokens, tokens, rec.value.lastRefillAt, n, rate, intervalMs, max, start);
    }
  }

  /** With no interval due, less than one has passed. */
  lemma NoIntervalPassed(last: real, intervalMs: real, now: int)
    requires intervalMs > 0.0 && Intervals(last, intervalMs, now) == 0
    ensures now as real - intervalMs < last
  {
    var q := (now as real - last) / intervalMs;
    assert q < 1.0 && q * intervalMs == now as real - last;
    RealProduct(q, 1.0, intervalMs);
  }

  /** After a refill the bucket is not overfull and the last refill is less than an interval old. */
  lemma RefillIsRecent(rec: Option<Stored>, rate: real, intervalMs: real, max: nat, now: int)
    requires rate > 0.0 && intervalMs > 0.0 && BucketOk(rec, now)
    ensures var (tokens, last) := Refilled(rec, rate, intervalMs, max, now);
            tokens <= max as real && now as real - intervalMs < last <= now as real
  {
    var (tokens, last) := Refilled(rec, rate, intervalMs, max, now);
    BucketSettles(rec, rate, intervalMs, max, now);
    NoIntervalPassed(last, intervalMs, now);
  }

  /** A bucket that is not overfull has paid for what it holds. */
  lemma StartsPaid(tokens: real, last: real, rate: real, intervalMs: real, max: nat, start: real)
    requires rate > 0.0 && intervalMs > 0.0 && tokens <= max as real && start <= last
    ensures Paid(0.0, tokens, last, rate, intervalMs, max, start)
  {
    MulMonotone(tokens - max as real, 0.0, intervalMs);
    MulMonotone(0.0, last - start, rate);
  }

  /** So what a first grant takes is paid for by the bucket, and by one refill interval before it. */
  lemma RefillStartsPaid(rec: Option<Stored>, rate: real, intervalMs: real, max: nat, now: int, start: real)
    requires rate > 0.0 && intervalMs > 0.0 && BucketOk(rec, now) && start <= now as real - intervalMs
    ensures var (tokens, last) := Refilled(rec, rate, intervalMs, max, now);
            Paid(0.0, tokens, last, rate, intervalMs, max, start)
  {
    var (tokens, last) := Refilled(rec, rate, intervalMs, max, now);
    RefillIsRecent(rec, rate, intervalMs, max, now);
    StartsPaid(tokens, last, rate, intervalMs, max, start);
  }

  /** Units granted from `from` on. */
  function GrantedSince(l: Ledger, from: int): nat {
    |After(l.grants, from - 1)|
  }

  lemma {:induction false} AfterRepeat(t: int, n: nat, cutoff: int)
    ensures After(Repeat(t, n), cutoff) == if t > cutoff then Repeat(t, n) else []
  {
    if n > 0 {
      AfterRepeat(t, n - 1, cutoff);
      assert Repeat(t, n)[1..] == Repeat(t, n - 1);
    }
  }

  lemma GrantsAdd(l: Ledger, a: Attempt, from: int)
    ensures var granted := l.(grants := l.grants + Repeat(a.at, a.cost));
            GrantedSince(granted, from) == GrantedSince(l, from) + if a.at >= from then a.cost else 0
  {
    AfterAppend(l.grants, Repeat(a.at, a.cost), from - 1);
    AfterRepeat(a.at, a.cost, from - 1);
  }

  /** Nothing was granted since `from`, or all of it is paid for by a bucketful and the refill since `start`. */
  predicate PaidSince(l: Ledger, from: int, rate: real, intervalMs: real, max: nat, start: real) {
    GrantedSince(l, from) == 0 || Balanced(l.rec, GrantedSince(l, from) as real, rate, intervalMs, max, start)
  }

  /** The refilled bucket of a step that grants something. */
  lemma StepStartsPaid(rate: real, intervalMs: real, max: nat, l: Ledger, a: Attempt, from: int, start: real)
    requires rate > 0.0 && intervalMs > 0.0 && BucketOk(l.rec, a.at) && start <= from as real - intervalMs
    requires from <= a.at
    requires PaidSince(l, from, rate, intervalMs, max, start)
    ensures var (tokens, last) := Refilled(l.rec, rate, intervalMs, max, a.at);
            Paid(GrantedSince(l, from) as real, tokens, last, rate, intervalMs, max, start)
  {
    if GrantedSince(l, from) == 0 {
      RefillStartsPaid(l.rec, rate, intervalMs, max, a.at, start);
    } else {
      RefillKeepsBalance(l.rec, rate, intervalMs, max, a.at, GrantedSince(l, from) as real, start);
    }
  }

  /** Moving units from the bucket to the grants leaves the balance as it is. */
  lemma GrantStaysPaid(granted: real, cost: real, tokens: real, last: real, rate: real, intervalMs: real, max: nat,
                       start: real)
    requires Paid(granted, tokens, last, rate, intervalMs, max, start)
    ensures Paid(granted + cost, tokens - cost, last, rate, intervalMs, max, start)
  {
    assert granted + cost + (tokens - cost) - max as real == granted + tokens - max as real;
  }

  /** What a step of the bucket saves. */
  predicate Saves(l: Ledger, a: Attempt, l': Ledger, tokens: real, last: real) {
    if tokens < a.cost as real then l' == l
    else l' == Ledger(Some(Bucket(tokens - a.cost as real, last)), l.grants + Repeat(a.at, a.cost))
  }

  lemma BucketSaves(rate: real, intervalMs: real, max: nat, windowMs: int, l: Ledger, a: Attempt)
    requires rate > 0.0 && intervalMs > 0.0 && windowMs > 0
    ensures var (tokens, last) := Refilled(l.rec, rate, intervalMs, max, a.at);
            Saves(l, a, Step(TokenBucket(rate, intervalMs), max, windowMs, l, a), tokens, last)
  {
  }

  lemma SavedIsPaid(rate: real, intervalMs: real, max: nat, l: Ledger, a: Attempt, l': Ledger, from: int, start: real,
                    tokens: real, last: real)
    requires Saves(l, a, l', tokens, last) && a.at >= from && PaidSince(l, from, rate, intervalMs, max, start)
    requires Paid(GrantedSince(l, from) as real, tokens, last, rate, intervalMs, max, start)
    ensures PaidSince(l', from, rate, intervalMs, max, start)
  {
    GrantsAdd(l, a, from);
    if tokens >= a.cost as real {
      GrantStaysPaid(GrantedSince(l, from) as real, a.cost as real, tokens, last, rate, intervalMs, max, start);
      assert GrantedSince(l', from) == GrantedSince(l, from) + a.cost;
    }
  }

  lemma BucketStep(rate: real, intervalMs: real, max: nat, windowMs: int, l: Ledger, a: Attempt, from: int, start: real)
    requires rate > 0.0 && intervalMs > 0.0 && windowMs > 0 && BucketOk(l.rec, a.at)
    requires start <= from as real - intervalMs
    requires PaidSince(l, from, rate, intervalMs, max, start) && (a.at < from ==> GrantedSince(l, from) == 0)
    ensures PaidSince(Step(TokenBucket(rate, intervalMs), max, windowMs, l, a), from, rate, intervalMs, max, start)
    ensures a.at < from ==> GrantedSince(Step(TokenBucket(rate, intervalMs), max, windowMs, l, a), from) == 0
  {
    var (tokens, last) := Refilled(l.rec, rate, intervalMs, max, a.at);
    BucketSaves(rate, intervalMs, max, windowMs, l, a);
    if a.at >= from {
      StepStartsPaid(rate, intervalMs, max, l, a, from, start);
      var next := Step(TokenBucket(rate, intervalMs), max, windowMs, l, a);
      SavedIsPaid(rate, intervalMs, max, l, a, next, from, start, tokens, last);
    } else {
      GrantsAdd(l, a, from);
    }
  }

  lemma BucketStepIsOk(rate: real, intervalMs: real, max: nat, windowMs: int, l: Ledger, a: Attempt)
    requires rate > 0.0 && intervalMs > 0.0 && windowMs > 0 && BucketOk(l.rec, a.at)
    ensures BucketOk(Step(TokenBucket(rate, intervalMs), max, windowMs, l, a).rec, a.at)
  {
    RefillIsRecent(l.rec, rate, intervalMs, max, a.at);
    BucketSaves(rate, intervalMs, max, windowMs, l, a);
  }

  lemma {:induction false} BucketRun(rate: real, intervalMs: real, max: nat, windowMs: int,
                                     attempts: seq<Attempt>, run: seq<Ledger>, n: nat, from: int)
    requires rate > 0.0 && intervalMs > 0.0 && windowMs > 0 && n <= |attempts|
    requires IsRun(TokenBucket(rate, intervalMs), max, windowMs, attempts, run)
    ensures PaidSince(run[n], from, rate, intervalMs, max, from as real - intervalMs)
    ensures n > 0 ==> BucketOk(run[n].rec, attempts[n - 1].at)
    ensures n == 0 ==> run[n].rec == None
    ensures n > 0 && attempts[n - 1].at < from ==> GrantedSince(run[n], from) == 0
    ensures n == 0 ==> GrantedSince(run[n], from) == 0
  {
    if n > 0 {
      BucketRun(rate, intervalMs, max, windowMs, attempts, run, n - 1, from);
      var a := attempts[n - 1];
      assert n > 1 ==> attempts[n - 2].at <= a.at;
      BucketStep(rate, intervalMs, max, windowMs, run[n - 1], a, from, from as real - intervalMs);
      BucketStepIsOk(rate, intervalMs, max, windowMs, run[n - 1], a);
    }
  }

  lemma DivCancels(x: real, d: real, y: real)
    requires d > 0.0 && x * d <= y
    ensures x <= y / d
  {
    DivMonotone(x * d, y, d);
  }

  /** One bucketful and what `span` refills. */
  function Budget(max: nat, rate: real, intervalMs: real, span: real): real
    requires intervalMs > 0.0
  {
    max as real + rate * span / intervalMs
  }

  lemma PaidIsBounded(rec: Option<Stored>, granted: real, rate: real, intervalMs: real, max: nat, start: real,
                      t: int, span: real)
    requires rate > 0.0 && intervalMs > 0.0 && span == t as real - start >= 0.0 && BucketOk(rec, t)
    requires Balanced(rec, granted, rate, intervalMs, max, start)
    ensures granted <= Budget(max, rate, intervalMs, span)
  {
    if rec.None? {
      MulMonotone(granted - max as real, 0.0, intervalMs);
      MulMonotone(0.0, span, rate);
    } else {
      LaterIsPaid(granted, rec.value.tokens, rec.value.lastRefillAt, t as real, rate, intervalMs, max, start);
      MulMonotone(granted - max as real, granted + rec.value.tokens - max as real, intervalMs);
    }
    DivCancels(granted - max as real, intervalMs, rate * span);
  }

  lemma NothingIsBounded(rate: real, intervalMs: real, max: nat, span: real)
    requires rate > 0.0 && intervalMs > 0.0 && span >= 0.0
    ensures 0.0 <= Budget(max, rate, intervalMs, span)
  {
    MulMonotone(0.0, span, rate);
    DivMonotone(0.0, rate * span, intervalMs);
    assert 0.0 / intervalMs == 0.0;
  }

  lemma PaidSinceIsBounded(l: Ledger, from: int, rate: real, intervalMs: real, max: nat, t: int, span: real)
    requires rate > 0.0 && intervalMs > 0.0 && from <= t && span == (t - from) as real + intervalMs
    requires BucketOk(l.rec, t)
    requires PaidSince(l, from, rate, intervalMs, max, from as real - intervalMs)
    ensures GrantedSince(l, from) as real <= Budget(max, rate, intervalMs, span)
  {
    if GrantedSince(l, from) == 0 {
      NothingIsBounded(rate, intervalMs, max, span);
    } else {
      PaidIsBounded(l.rec, GrantedSince(l, from) as real, rate, intervalMs, max, from as real - intervalMs, t, span);
    }
  }

  /**
   In every interval, wherever it begins, a bucket grants at most its size and what the length of the
   interval and one refill interval more refill.
  */
  lemma TokenBucketBound(rate: real, intervalMs: real, max: nat, windowMs: int,
                         attempts: seq<Attempt>, run: seq<Ledger>, n: nat, from: int, t: int)
    requires rate > 0.0 && intervalMs > 0.0 && windowMs > 0 && from <= t
    requires IsRun(TokenBucket(rate, intervalMs), max, windowMs, attempts, run) && Reached(attempts, n, t)
    ensures GrantedSince(run[n], from) as real <= Budget(max, rate, intervalMs, (t - from) as real + intervalMs)
  {
    BucketRun(rate, intervalMs, max, windowMs, attempts, run, n, from);
    PaidSinceIsBounded(run[n], from, rate, intervalMs, max, t, (t - from) as real + intervalMs);
  }

  // ---------- From before the first attempt ----------

  lemma BucketStepFromStart(rate: real, intervalMs: real, max: nat, windowMs: int, l: Ledger, a: Attempt, start: real)
    requires rate > 0.0 && intervalMs > 0.0 && windowMs > 0 && BucketOk(l.rec, a.at) && start <= a.at as real
    requires Balanced(l.rec, |l.grants| as real, rate, intervalMs, max, start)
    ensures var l' := Step(TokenBucket(rate, intervalMs), max, windowMs, l, a);
            Balanced(l'.rec, |l'.grants| as real, rate, intervalMs, max, start)
  {
    var (tokens, last) := Refilled(l.rec, rate, intervalMs, max, a.at);
    RefillKeepsBalance(l.rec, rate, intervalMs, max, a.at, |l.grants| as real, start);
    BucketSaves(rate, intervalMs, max, windowMs, l, a);
    var next := Step(TokenBucket(rate, intervalMs), max, windowMs, l, a);
    SavedIsBalanced(rate, intervalMs, max, l, a, next, start, tokens, last);
  }

  lemma SavedIsBalanced(rate: real, intervalMs: real, max: nat, l: Ledger, a: Attempt, l': Ledger, start: real,
                        tokens: real, last: real)
    requires Saves(l, a, l', tokens, last) && Balanced(l.rec, |l.grants| as real, rate, intervalMs, max, start)
    requires Paid(|l.grants| as real, tokens, last, rate, intervalMs, max, start)
    ensures Balanced(l'.rec, |l'.grants| as real, rate, intervalMs, max, start)
  {
    if tokens >= a.cost as real {
      GrantStaysPaid(|l.grants| as real, a.cost as real, tokens, last, rate, intervalMs, max, start);
      assert |l'.grants| == |l.grants| + a.cost;
    }
  }

  lemma {:induction false} BucketRunFromStart(rate: real, intervalMs: real, max: nat, windowMs: int,
                                              attempts: seq<Attempt>, run: seq<Ledger>, n: nat, start: int)
    requires rate > 0.0 && intervalMs > 0.0 && windowMs > 0 && n <= |attempts|
    requires IsRun(TokenBucket(rate, intervalMs), max, windowMs, attempts, run)
    requires attempts != [] ==> start <= attempts[0].at
    ensures Balanced(run[n].rec, |run[n].grants| as real, rate, intervalMs, max, start as real)
    ensures n > 0 ==> BucketOk(run[n].rec, attempts[n - 1].at)
    ensures n == 0 ==> run[n].rec == None
  {
    if n > 0 {
      BucketRunFromStart(rate, intervalMs, max, windowMs, attempts, run, n - 1, start);
      var a := attempts[n - 1];
      assert n > 1 ==> attempts[n - 2].at <= a.at && attempts[0].at <= a.at;
      BucketStepFromStart(rate, intervalMs, max, windowMs, run[n - 1], a, start as real);
      BucketStepIsOk(rate, intervalMs, max, windowMs, run[n - 1], a);
    }
  }

  /** From `start`, before the first attempt, to `t` a bucket grants at most its size and the refill of that time. */
  lemma TokenBucketBoundFromStart(rate: real, intervalMs: real, max: nat, windowMs: int,
                                  attempts: seq<Attempt>, run: seq<Ledger>, n: nat, start: int, t: int)
    requires rate > 0.0 && intervalMs > 0.0 && windowMs > 0 && start <= t
    requires IsRun(TokenBucket(rate, intervalMs), max, windowMs, attempts, run) && Reached(attempts, n, t)
    requires attempts != [] ==> start <= attempts[0].at
    ensures |run[n].grants| as real <= Budget(max, rate, intervalMs, (t - start) as real)
  {
    BucketRunFromStart(rate, intervalMs, max, windowMs, attempts, run, n, start);
    PaidIsBounded(run[n].rec, |run[n].grants| as real, rate, intervalMs, max, start as real, t, (t - start) as real);
  }
}
