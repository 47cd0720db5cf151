/**
 The multi-tier rate limiter. `Evaluate` peeks every tier first and consumes only when every tier
 has room; the write lock keeps two enforcing checks apart. The clock is a field that may move
 forward whenever it is read.
*/
module RateLimiter {
  import opened Wrappers
  import opened RateAlgorithms
  import opened PenaltyRuns
  import PenaltyLog
  import opened SharedCounters

  datatype Tier = Tier(name: string, max: int, windowMs: int)

  /** What the instance record says; a disabled instance has a behaviour. */
  datatype Toggle = Enabled | DisabledSkip | DisabledBlock | DisabledPassthrough

  datatype Verdict = Verdict(
    allowed: bool,
    wouldBlock: bool,
    tier: Option<string>,
    banned: bool,
    skipped: bool,
    instanceDisabled: bool,
    passthrough: bool)

  datatype CheckResult = InvalidCost | Checked(verdict: Verdict)

  const SKIPPED := Verdict(true, false, None, false, true, false, false)
  const ALLOWED := Verdict(true, false, None, false, false, false, false)

  function DisabledVerdict(block: bool): Verdict {
    Verdict(!block, block, None, false, !block, true, false)
  }

  /** The key of the counters, bans, violations and overrides of one tier and one caller. */
  function DataKey(limiter: string, tier: string, key: string): string {
    limiter + (":" + (tier + (":" + key)))
  }

  predicate UniqueNames(tiers: seq<Tier>) {
    forall i, j :: 0 <= i < j < |tiers| ==> tiers[i].name != tiers[j].name
  }

  predicate ColonFree(tiers: seq<Tier>) {
    forall i :: 0 <= i < |tiers| ==> ':' !in tiers[i].name
  }

  /** Distinct tier names without a colon keep the counters of distinct tiers apart. */
  lemma KeysApart(limiter: string, a: string, b: string, k: string, l: string)
    requires ':' !in a && ':' !in b
    ensures DataKey(limiter, a, k) == DataKey(limiter, b, l) <==> a == b && k == l
  {
    if DataKey(limiter, a, k) == DataKey(limiter, b, l) {
      var n := |limiter| + 1;
      assert DataKey(limiter, a, k)[n..] == a + (":" + k);
      assert DataKey(limiter, b, l)[n..] == b + (":" + l);
      ColonEnds(a, b, k, l);
    }
  }

  lemma ColonEnds(a: string, b: string, k: string, l: string)
    requires ':' !in a && ':' !in b && a + (":" + k) == b + (":" + l)
    ensures a == b && k == l
  {
    var s := a + (":" + k);
    assert forall n :: 0 <= n < |a| ==> s[n] == a[n] && a[n] in a;
    assert forall n :: 0 <= n < |b| ==> s[n] == b[n] && b[n] in b;
    assert s[|a|] == ':' && s[|b|] == ':';
    assert s[..|a|] == a && s[..|b|] == b;
    assert s[|a| + 1..] == k && s[|b| + 1..] == l;
  }

  /** Limiters with distinct names without a colon share no counter. */
  lemma LimitersApart(one: string, other: string, a: string, b: string, k: string, l: string)
    requires ':' !in one && ':' !in other && one != other
    ensures DataKey(one, a, k) != DataKey(other, b, l)
  {
    if DataKey(one, a, k) == DataKey(other, b, l) {
      ColonEnds(one, other, a + (":" + k), b + (":" + l));
    }
  }

  /** With a colon in a name two tiers can share one counter. */
  lemma ColonsCollide()
    ensures DataKey("api", "user", "a:b") == DataKey("api", "user:a", "b")
  {
  }

  lemma FitsLater(alg: Algorithm, rec: Option<Stored>, windowMs: int, early: int, late: int)
    requires windowMs > 0 && early <= late && Fits(alg, rec, windowMs, early)
    ensures Fits(alg, rec, windowMs, late)
  {
    FloorMonotone(early, late, windowMs);
  }

  /** What the first pass found out about a tier. */
  datatype TierEval = TierEval(storageKey: string, max: int, windowMs: int, skipped: bool, banned: bool)

  class Limiter {
    const name: string
    const tiers: seq<Tier>
    const alg: Algorithm
    const penalty: Option<PenaltyLog.Penalty>

    var usage: map<string, Stored>
    var bans: map<string, int>
    var violations: map<string, seq<int>>
    var overrides: map<string, int>
    var now: int

    ghost predicate Configured()
    {
      && ValidAlgorithm(alg)
      && (forall i :: 0 <= i < |tiers| ==> tiers[i].windowMs > 0)
      && (penalty.Some? ==> penalty.value.windowMs > 0 && penalty.value.banMs > 0)
    }

    /** Distinct names without a colon keep the tiers' counters apart. */
    ghost predicate Apart() {
      UniqueNames(tiers) && ColonFree(tiers)
    }

    /** Every counter was saved by this algorithm, at a time that has passed. */
    ghost predicate AllFit(counters: map<string, Stored>, t: int)
      requires Configured()
    {
      forall i, k :: 0 <= i < |tiers| ==>
        Fits(alg, Lookup(counters, DataKey(name, tiers[i].name, k)), tiers[i].windowMs, t)
    }

    ghost predicate Valid()
      reads this
    {
      Configured() && (Apart() ==> AllFit(usage, now))
    }

    ghost function Stored(): Records
      reads this
    {
      Records(bans, violations, now)
    }

    lemma AllFitLater(counters: map<string, Stored>, early: int, late: int)
      requires Configured() && AllFit(counters, early) && early <= late
      ensures AllFit(counters, late)
    {
      forall i, k | 0 <= i < |tiers|
        ensures Fits(alg, Lookup(counters, DataKey(name, tiers[i].name, k)), tiers[i].windowMs, late)
      {
        FitsLater(alg, Lookup(counters, DataKey(name, tiers[i].name, k)), tiers[i].windowMs, early, late);
      }
    }

    lemma AllFitSave(counters: map<string, Stored>, i: nat, k: string, rec: Stored, t: int)
      requires Configured() && Apart() && AllFit(counters, t) && i < |tiers|
      requires Fits(alg, Some(rec), tiers[i].windowMs, t)
      ensures AllFit(counters[DataKey(name, tiers[i].name, k) := rec], t)
    {
      forall j, l | 0 <= j < |tiers|
        ensures Fits(alg, Lookup(counters[DataKey(name, tiers[i].name, k) := rec], DataKey(name, tiers[j].name, l)),
                     tiers[j].windowMs, t)
      {
        KeysApart(name, tiers[i].name, tiers[j].name, k, l);
      }
    }

    constructor (name: string, tiers: seq<Tier>, alg: Algorithm, penalty: Option<PenaltyLog.Penalty>, start: int)
      requires ValidAlgorithm(alg)
      requires forall i :: 0 <= i < |tiers| ==> tiers[i].windowMs > 0
      requires penalty.Some? ==> penalty.value.windowMs > 0 && penalty.value.banMs > 0
      ensures Valid() && usage == map[] && bans == map[] && violations == map[] && overrides == map[]
      ensures this.name == name && this.tiers == tiers && this.alg == alg && this.penalty == penalty && now == start
      ensures forall keys: seq<Option<string>>, i :: Resolved(keys) && Active(keys, i) ==>
                MaxAt(keys, i) == tiers[i].max
    {
      this.name, this.tiers, this.alg, this.penalty := name, tiers, alg, penalty;
      usage, bans, violations, overrides, now := map[], map[], map[], map[], start;
    }

    // ---------- What a tier looks like to a caller ----------

    /** `keys[i]` is the caller's key for tier `i`, or `None` when the tier does not apply. */
    ghost predicate Resolved(keys: seq<Option<string>>) {
      |keys| == |tiers|
    }

    ghost predicate Active(keys: seq<Option<string>>, i: int)
      requires Resolved(keys)
    {
      0 <= i < |tiers| && keys[i].Some?
    }

    function KeyAt(keys: seq<Option<string>>, i: int): string
      requires |keys| == |tiers| && 0 <= i < |tiers| && keys[i].Some?
    {
      DataKey(name, tiers[i].name, keys[i].value)
    }

    /** The maximum of tier `i` when these are the overrides. */
    function MaxUnder(maxima: map<string, int>, keys: seq<Option<string>>, i: int): int
      requires |keys| == |tiers| && 0 <= i < |tiers| && keys[i].Some?
    {
      Lookup(maxima, KeyAt(keys, i)).GetOr(tiers[i].max)
    }

    function MaxAt(keys: seq<Option<string>>, i: int): int
      requires |keys| == |tiers| && 0 <= i < |tiers| && keys[i].Some?
      reads this`overrides
    {
      MaxUnder(overrides, keys, i)
    }

    /** The counter of tier `i`. */
    function Counter(keys: seq<Option<string>>, i: int, counters: map<string, Stored>): Option<Stored>
      requires |keys| == |tiers| && 0 <= i < |tiers| && keys[i].Some?
    {
      Lookup(counters, KeyAt(keys, i))
    }

    /** At `t` a counter of tier `i` that holds `rec` has room for the cost. */
    ghost predicate HasRoom(keys: seq<Option<string>>, i: int, rec: Option<Stored>, cost: nat, t: int)
      requires Configured() && Resolved(keys) && Active(keys, i)
      reads this`overrides
    {
      Peek(alg, rec, MaxAt(keys, i), tiers[i].windowMs, t) + cost as real <= MaxAt(keys, i) as real
    }

    /** A counter of tier `i` went up by exactly the cost at `t`, when there was room for it. */
    ghost predicate ChargedAt(keys: seq<Option<string>>, i: int, rec: Option<Stored>, after: Option<Stored>,
                              cost: nat, t: int)
      requires Configured() && Resolved(keys) && Active(keys, i)
      reads this`overrides
    {
      && HasRoom(keys, i, rec, cost, t)
      && after == Consume(alg, rec, MaxAt(keys, i), tiers[i].windowMs, cost, t).saved
      && Peek(alg, after, MaxAt(keys, i), tiers[i].windowMs, t)
         == Peek(alg, rec, MaxAt(keys, i), tiers[i].windowMs, t) + cost as real
    }

    ghost predicate Charged(keys: seq<Option<string>>, i: int, rec: Option<Stored>, after: Option<Stored>,
                            cost: nat, from: int, to: int)
      requires Configured() && Resolved(keys) && Active(keys, i)
      reads this`overrides
    {
      exists t :: from <= t <= to && ChargedAt(keys, i, rec, after, cost, t)
    }

    /** The tier has a reason to block: an unexpired ban, or no room at some time of the check. */
    ghost predicate Refuses(keys: seq<Option<string>>, i: int, banned: map<string, int>,
                            rec: Option<Stored>, cost: nat, from: int, to: int)
      requires Configured() && Resolved(keys) && Active(keys, i)
      reads this`overrides
    {
      || (KeyAt(keys, i) in banned && banned[KeyAt(keys, i)] > from)
      || (exists t :: from <= t <= to && !HasRoom(keys, i, rec, cost, t))
    }

    /** The tier lets the request through: no unexpired ban, and room at some time of the check. */
    ghost predicate Passes(keys: seq<Option<string>>, i: int, banned: map<string, int>,
                           rec: Option<Stored>, cost: nat, from: int, to: int)
      requires Configured() && Resolved(keys) && Active(keys, i)
      reads this`overrides
    {
      && (KeyAt(keys, i) in banned ==> banned[KeyAt(keys, i)] <= to)
      && exists t :: from <= t <= to && HasRoom(keys, i, rec, cost, t)
    }

    // ---------- The clock and the bans ----------

    /** `Date.now()` */
    method ReadClock() returns (t: int)
      modifies this`now
      ensures t == now >= old(now)
    {
      var passed: int :| passed >= 0;
      now := now + passed;
      t := now;
    }

    /** `_isBanned`: an expired ban is removed on the way. */
    method IsBanned(key: string) returns (banned: bool)
      modifies this`now, this`bans
      ensures now >= old(now)
      ensures banned <==> key in old(bans) && old(bans)[key] > now
      ensures bans == if key in old(bans) && !banned then old(bans) - {key} else old(bans)
    {
      if key !in bans {
        return false;
      }
      var t := ReadClock();
      if bans[key] <= t {
        bans := bans - {key};
        return false;
      }
      return true;
    }

    /** `_recordViolation` */
    method RecordViolation(key: string) returns (banned: bool)
      requires penalty.Some?
      modifies this`now, this`bans, this`violations
      ensures now >= old(now)
      ensures var r := PenaltyLog.RecordViolation(penalty.value, Lookup(old(violations), key), now);
        && banned == r.banned
        && violations == (if r.log.Some? then old(violations)[key := r.log.value] else old(violations) - {key})
        && bans == (if banned then old(bans)[key := now + penalty.value.banMs] else old(bans))
    {
      var t := ReadClock();
      var timestamps := if key in violations then violations[key] else [];
      timestamps := After(timestamps, t - penalty.value.windowMs);
      timestamps := timestamps + [t];
      violations := violations[key := timestamps];
      if |timestamps| >= penalty.value.threshold {
        bans := bans[key := t + penalty.value.banMs];
        violations := violations - {key};
        return true;
      }
      return false;
    }

    // ---------- Evaluation ----------

    /** One tier of the first pass. */
    method PeekTier(keys: seq<Option<string>>, i: nat, cost: nat, ghost banned: map<string, int>, ghost from: int)
      returns (eval: TierEval, blocks: bool)
      requires Configured() && Resolved(keys) && Active(keys, i) && from <= now
      requires OnlyExpired(banned, bans, now)
      modifies this`now, this`bans
      ensures now >= old(now) && OnlyExpired(banned, bans, now)
      ensures eval == TierEval(KeyAt(keys, i), MaxAt(keys, i), tiers[i].windowMs, false, eval.banned)
      ensures eval.banned ==> blocks && KeyAt(keys, i) in banned && banned[KeyAt(keys, i)] > from
      ensures !eval.banned ==> Unbanned(banned, KeyAt(keys, i), now)
      ensures blocks ==> Refuses(keys, i, banned, Counter(keys, i, usage), cost, from, now)
      ensures !blocks ==> Passes(keys, i, banned, Counter(keys, i, usage), cost, from, now)
    {
      var key := KeyAt(keys, i);
      var max := MaxAt(keys, i);
      var isBanned := IsBanned(key);
      eval := TierEval(key, max, tiers[i].windowMs, false, isBanned);
      if isBanned {
        blocks := true;
      } else {
        var t := ReadClock();
        var current := Peek(alg, Lookup(usage, key), max, tiers[i].windowMs, t);
        blocks := !(current + cost as real <= max as real);
        assert blocks <==> !HasRoom(keys, i, Counter(keys, i, usage), cost, t);
      }
    }

    /** What the first pass notes about tier `i`. */
    ghost predicate PeekedAs(keys: seq<Option<string>>, i: int, eval: TierEval, banned: map<string, int>, from: int,
                             to: int)
      requires Resolved(keys) && 0 <= i < |tiers|
      reads this`overrides
    {
      if keys[i].None? then eval.skipped
      else
        && eval == TierEval(KeyAt(keys, i), MaxAt(keys, i), tiers[i].windowMs, false, eval.banned)
        && if eval.banned then eval.storageKey in banned && banned[eval.storageKey] > from
           else Unbanned(banned, eval.storageKey, to)
    }

    /** Tier `i` is the first that blocks. */
    ghost predicate BlocksFirst(keys: seq<Option<string>>, i: int, banned: map<string, int>,
                                counters: map<string, Stored>, cost: nat, from: int, to: int)
      requires Configured() && Resolved(keys)
      reads this`overrides
    {
      && Active(keys, i)
      && Refuses(keys, i, banned, Counter(keys, i, counters), cost, from, to)
      && PassUpTo(keys, i, banned, counters, cost, from, to)
    }

    /** The active ones of the first `n` tiers let the request through. */
    ghost predicate PassUpTo(keys: seq<Option<string>>, n: int, banned: map<string, int>, counters: map<string, Stored>,
                             cost: nat, from: int, to: int)
      requires Configured() && Resolved(keys)
      reads this`overrides
    {
      forall j :: j < n && Active(keys, j) ==> Passes(keys, j, banned, Counter(keys, j, counters), cost, from, to)
    }

    /** What the first pass knows after `n` tiers; `blocking` is the first of them that blocks. */
    ghost predicate PeekedUpTo(keys: seq<Option<string>>, n: nat, evals: seq<TierEval>, blocking: Option<int>,
                               banned: map<string, int>, counters: map<string, Stored>, cost: nat, from: int, to: int)
      requires Configured() && Resolved(keys) && n <= |tiers|
      reads this`overrides
    {
      && |evals| == n
      && (forall j :: 0 <= j < n ==> PeekedAs(keys, j, evals[j], banned, from, to))
      && (blocking.None? ==>
            && (forall j :: j < n && Active(keys, j) ==> !evals[j].banned)
            && PassUpTo(keys, n, banned, counters, cost, from, to))
      && (blocking.Some? ==> BlocksFirst(keys, blocking.value, banned, counters, cost, from, to))
    }

    /** A tier that does not apply adds nothing. */
    lemma PeekedSkip(keys: seq<Option<string>>, n: nat, evals: seq<TierEval>, eval: TierEval, blocking: Option<int>,
                     banned: map<string, int>, counters: map<string, Stored>, cost: nat, from: int, to: int)
      requires Configured() && Resolved(keys) && n < |tiers| && keys[n].None? && eval.skipped
      requires PeekedUpTo(keys, n, evals, blocking, banned, counters, cost, from, to)
      ensures PeekedUpTo(keys, n + 1, evals + [eval], blocking, banned, counters, cost, from, to)
    {
    }

    lemma PeekedNext(keys: seq<Option<string>>, n: nat, evals: seq<TierEval>, eval: TierEval, blocks: bool,
                     blocking: Option<int>, banned: map<string, int>, counters: map<string, Stored>,
                     cost: nat, from: int, early: int, late: int)
      requires Configured() && Resolved(keys) && n < |tiers| && Active(keys, n) && early <= late
      requires PeekedUpTo(keys, n, evals, blocking, banned, counters, cost, from, early)
      requires PeekedAs(keys, n, eval, banned, from, late) && (eval.banned ==> blocks)
      requires blocks ==> Refuses(keys, n, banned, Counter(keys, n, counters), cost, from, late)
      requires !blocks ==> Passes(keys, n, banned, Counter(keys, n, counters), cost, from, late)
      ensures PeekedUpTo(keys, n + 1, evals + [eval], if blocking.None? && blocks then Some(n) else blocking,
                         banned, counters, cost, from, late)
    {
      LaterPasses(keys, n, banned, counters, cost, from, early, late);
      if blocking.Some? {
        LaterBlocks(keys, blocking.value, banned, counters, cost, from, early, late);
      }
    }

    /** The first pass over all tiers. */
    method PeekTiers(keys: seq<Option<string>>, cost: nat) returns (evals: seq<TierEval>, blocking: Option<int>)
      requires Configured() && Resolved(keys)
      modifies this`now, this`bans
      ensures now >= old(now) && OnlyExpired(old(bans), bans, now)
      ensures PeekedUpTo(keys, |tiers|, evals, blocking, old(bans), usage, cost, old(now), now)
    {
      evals, blocking := [], None;
      var i := 0;
      while i < |tiers|
        invariant 0 <= i <= |tiers|
        invariant now >= old(now) && OnlyExpired(old(bans), bans, now)
        invariant PeekedUpTo(keys, i, evals, blocking, old(bans), usage, cost, old(now), now)
        modifies this`now, this`bans
      {
        if keys[i].None? {
          var skipped := TierEval("", tiers[i].max, 0, true, false);
          PeekedSkip(keys, i, evals, skipped, blocking, old(bans), usage, cost, old(now), now);
          evals := evals + [skipped];
        } else {
          ghost var early := now;
          var eval, blocks := PeekTier(keys, i, cost, old(bans), old(now));
          PeekedNext(keys, i, evals, eval, blocks, blocking, old(bans), usage, cost, old(now), early, now);
          evals := evals + [eval];
          if blocking.None? && blocks {
            blocking := Some(i);
          }
        }
        i := i + 1;
      }
    }

    lemma LaterPasses(keys: seq<Option<string>>, n: int, banned: map<string, int>, counters: map<string, Stored>,
                      cost: nat, from: int, early: int, late: int)
      requires Configured() && Resolved(keys) && early <= late
      ensures PassUpTo(keys, n, banned, counters, cost, from, early) ==>
                PassUpTo(keys, n, banned, counters, cost, from, late)
    {
    }

    lemma LaterBlocks(keys: seq<Option<string>>, i: int, banned: map<string, int>, counters: map<string, Stored>,
                      cost: nat, from: int, early: int, late: int)
      requires Configured() && Resolved(keys) && early <= late
      requires BlocksFirst(keys, i, banned, counters, cost, from, early)
      ensures BlocksFirst(keys, i, banned, counters, cost, from, late)
    {
      LaterPasses(keys, i, banned, counters, cost, from, early, late);
    }

    ghost function ActiveKeys(keys: seq<Option<string>>): set<string>
      requires Resolved(keys)
    {
      set i | 0 <= i < |tiers| && keys[i].Some? :: KeyAt(keys, i)
    }

    /** No counter but those of the caller's tiers differs between two sets of counters. */
    ghost predicate OthersSame(keys: seq<Option<string>>, before: map<string, Stored>, after: map<string, Stored>)
      requires Resolved(keys)
    {
      forall k :: k !in ActiveKeys(keys) ==> Lookup(after, k) == Lookup(before, k)
    }

    lemma KeyAtApart(keys: seq<Option<string>>, i: int, j: int)
      requires Apart() && Resolved(keys) && Active(keys, i) && Active(keys, j) && i != j
      ensures KeyAt(keys, i) != KeyAt(keys, j)
    {
      KeysApart(name, tiers[i].name, tiers[j].name, keys[i].value, keys[j].value);
    }

    lemma OnlyOneChanged(keys: seq<Option<string>>, i: int, before: map<string, Stored>, after: map<string, Stored>)
      requires Apart() && Resolved(keys) && Active(keys, i)
      requires forall k :: k != KeyAt(keys, i) ==> Lookup(after, k) == Lookup(before, k)
      ensures forall j :: Active(keys, j) && j != i ==> Counter(keys, j, after) == Counter(keys, j, before)
    {
      forall j | Active(keys, j) && j != i
        ensures Counter(keys, j, after) == Counter(keys, j, before)
      {
        KeyAtApart(keys, i, j);
      }
    }

    /** One tier of the second pass. With counters apart, room that was seen earlier is still there. */
    method ConsumeTier(keys: seq<Option<string>>, i: nat, eval: TierEval, cost: nat, ghost from: int)
      returns (allowed: bool)
      requires Valid() && Resolved(keys) && Active(keys, i) && from <= now
      requires eval == TierEval(KeyAt(keys, i), MaxAt(keys, i), tiers[i].windowMs, false, false)
      requires Apart() ==>
                Fits(alg, Counter(keys, i, usage), tiers[i].windowMs, from) && SeesRoom(keys, i, usage, cost, from, now)
      modifies this`now, this`usage
      ensures Valid() && now >= old(now)
      ensures var c := ConsumeFor(alg, ChargeOf(keys, i), Counter(keys, i, old(usage)), cost, now);
              && allowed == c.allowed && (allowed ==> c.saved.Some?)
              && usage == if allowed then old(usage)[KeyAt(keys, i) := c.saved.value] else old(usage)
      ensures Apart() ==>
                allowed && Charged(keys, i, Counter(keys, i, old(usage)), Counter(keys, i, usage), cost, from, now)
    {
      ghost var seen := from;
      if Apart() {
        AllFitOverTime();
        seen :| from <= seen <= now && HasRoom(keys, i, Counter(keys, i, usage), cost, seen);
      }
      var t := ReadClock();
      ghost var rec := Lookup(usage, eval.storageKey);
      var c := Consume(alg, Lookup(usage, eval.storageKey), eval.max, eval.windowMs, cost, t);
      AllowedSaves(alg, ChargeOf(keys, i), rec, cost, t);
      if Apart() {
        RoomRemains(keys, i, rec, cost, from, seen, t);
        AllFitSave(usage, i, keys[i].value, c.saved.value, t);
      }
      if c.allowed {
        usage := usage[eval.storageKey := c.saved.value];
      }
      allowed := c.allowed;
    }

    /** At some time of the check there was room in tier `i`. */
    ghost predicate SeesRoom(keys: seq<Option<string>>, i: int, counters: map<string, Stored>, cost: nat, from: int,
                             to: int)
      requires Configured() && Resolved(keys) && Active(keys, i)
      reads this`overrides
    {
      exists t :: from <= t <= to && HasRoom(keys, i, Counter(keys, i, counters), cost, t)
    }

    /** Room that was seen at some time is there at every later time. */
    lemma RoomRemains(keys: seq<Option<string>>, i: int, rec: Option<Stored>, cost: nat, from: int, seen: int, t: int)
      requires Configured() && Resolved(keys) && Active(keys, i) && Fits(alg, rec, tiers[i].windowMs, from)
      requires from <= seen <= t && HasRoom(keys, i, rec, cost, seen)
      ensures var c := ConsumeFor(alg, ChargeOf(keys, i), rec, cost, t);
              c.allowed && c.saved.Some? && Fits(alg, c.saved, tiers[i].windowMs, t)
              && ChargedAt(keys, i, rec, c.saved, cost, t)
    {
      var max, windowMs := MaxAt(keys, i), tiers[i].windowMs;
      FitsLater(alg, rec, windowMs, from, seen);
      FitsLater(alg, rec, windowMs, seen, t);
      UsageNeverRises(alg, rec, max, windowMs, seen, t);
      ConsumeAddsCost(alg, rec, max, windowMs, cost, t);
      AllowedSaves(alg, ChargeOf(keys, i), rec, cost, t);
    }

    /** The counters fit at every later reading of the clock. */
    lemma AllFitOverTime()
      requires Valid() && Apart()
      ensures forall t :: t >= now ==> AllFit(usage, t)
    {
      forall t | t >= now
        ensures AllFit(usage, t)
      {
        AllFitLater(usage, now, t);
      }
    }

    ghost function ChargeOf(keys: seq<Option<string>>, i: int): Charge
      requires Resolved(keys) && Active(keys, i)
      reads this`overrides
    {
      Charge(KeyAt(keys, i), MaxAt(keys, i), tiers[i].windowMs)
    }

    /** The charges of the first `n` tiers that are active. */
    ghost function Charges(keys: seq<Option<string>>, n: nat): seq<Charge>
      requires Resolved(keys) && n <= |tiers|
      reads this`overrides
    {
      if n == 0 then []
      else Charges(keys, n - 1) + if keys[n - 1].Some? then [ChargeOf(keys, n - 1)] else []
    }

    lemma ChargesAreValid(keys: seq<Option<string>>, n: nat)
      requires Configured() && Resolved(keys) && n <= |tiers|
      ensures ValidCharges(Charges(keys, n))
    {
    }

    /** What the second pass comes to at a fixed clock. */
    ghost function Committed(keys: seq<Option<string>>, n: nat, counters: map<string, Stored>, cost: nat, t: int)
      : (map<string, Stored>, Option<nat>)
      requires Configured() && Resolved(keys) && n <= |tiers|
      reads this`overrides
    {
      ChargesAreValid(keys, n);
      Commit(alg, Charges(keys, n), |Charges(keys, n)|, counters, cost, t)
    }

    lemma CommitPrefix(charges: seq<Charge>, more: seq<Charge>, n: nat, counters: map<string, Stored>, cost: nat,
                       t: int)
      requires ValidAlgorithm(alg) && ValidCharges(charges + more) && ValidCharges(charges) && n <= |charges|
      ensures Commit(alg, charges + more, n, counters, cost, t) == Commit(alg, charges, n, counters, cost, t)
    {
      if n > 0 {
        CommitPrefix(charges, more, n - 1, counters, cost, t);
        assert (charges + more)[n - 1] == charges[n - 1];
      }
    }

    /** One tier more of the second pass. */
    lemma CommittedNext(keys: seq<Option<string>>, i: nat, counters: map<string, Stored>, cost: nat, t: int)
      requires Configured() && Resolved(keys) && i < |tiers|
      ensures var (left, refused) := Committed(keys, i, counters, cost, t);
              Committed(keys, i + 1, counters, cost, t) ==
              if keys[i].None? || refused.Some? then (left, refused)
              else
                var c := ConsumeFor(alg, ChargeOf(keys, i), Counter(keys, i, left), cost, t);
                if c.allowed && c.saved.Some? then (left[KeyAt(keys, i) := c.saved.value], None)
                else (left, Some(|Charges(keys, i)|))
    {
      ChargesAreValid(keys, i);
      ChargesAreValid(keys, i + 1);
      if keys[i].Some? {
        CommitPrefix(Charges(keys, i), [ChargeOf(keys, i)], |Charges(keys, i)|, counters, cost, t);
      } else {
        assert Charges(keys, i + 1) == Charges(keys, i);
      }
    }

    /** A refusal ends the second pass. */
    lemma {:induction false} CommittedStops(keys: seq<Option<string>>, i: nat, n: nat, counters: map<string, Stored>,
                                            cost: nat, t: int)
      requires Configured() && Resolved(keys) && i <= n <= |tiers|
      requires Committed(keys, i, counters, cost, t).1.Some?
      ensures Committed(keys, n, counters, cost, t) == Committed(keys, i, counters, cost, t)
      decreases n
    {
      if i < n {
        CommittedStops(keys, i, n - 1, counters, cost, t);
        StaysStopped(keys, n - 1, counters, cost, t);
      }
    }

    lemma StaysStopped(keys: seq<Option<string>>, i: nat, counters: map<string, Stored>, cost: nat, t: int)
      requires Configured() && Resolved(keys) && i < |tiers| && Committed(keys, i, counters, cost, t).1.Some?
      ensures Committed(keys, i + 1, counters, cost, t) == Committed(keys, i, counters, cost, t)
    {
      CommittedNext(keys, i, counters, cost, t);
    }

    /** The name is that of the tier at which the second pass stops. */
    ghost predicate NamesTier(keys: seq<Option<string>>, tier: Option<string>, before: map<string, Stored>,
                              after: map<string, Stored>, cost: nat, from: int, to: int)
      requires Configured() && Resolved(keys)
      reads this`overrides
    {
      exists i :: Active(keys, i) && tier == Some(tiers[i].name) && StopsAt(keys, i, before, after, cost, from, to)
    }

    /** The counter of the tier, as it is left, has no room; at a fixed clock the tier is the first that refuses. */
    ghost predicate StopsAt(keys: seq<Option<string>>, i: int, before: map<string, Stored>,
                            after: map<string, Stored>, cost: nat, from: int, to: int)
      requires Configured() && Resolved(keys) && Active(keys, i)
      reads this`overrides
    {
      && LacksRoom(keys, i, after, cost, from, to)
      && (from == to ==>
            Committed(keys, i, before, cost, to).1.None? && Committed(keys, i + 1, before, cost, to).1.Some?)
    }

    ghost predicate LacksRoom(keys: seq<Option<string>>, i: int, counters: map<string, Stored>, cost: nat, from: int,
                              to: int)
      requires Configured() && Resolved(keys) && Active(keys, i)
      reads this`overrides
    {
      exists t :: from <= t <= to && !HasRoom(keys, i, Counter(keys, i, counters), cost, t)
    }

    lemma StopsEarlier(keys: seq<Option<string>>, tier: Option<string>, before: map<string, Stored>,
                       after: map<string, Stored>, cost: nat, earlier: int, from: int, to: int)
      requires Configured() && Resolved(keys) && earlier <= from <= to
      requires NamesTier(keys, tier, before, after, cost, from, to)
      ensures NamesTier(keys, tier, before, after, cost, earlier, to)
    {
      var i :| Active(keys, i) && tier == Some(tiers[i].name) && StopsAt(keys, i, before, after, cost, from, to);
      assert StopsAt(keys, i, before, after, cost, earlier, to);
    }

    /** The active ones of the first `n` tiers were charged the cost. */
    ghost predicate ChargedUpTo(keys: seq<Option<string>>, n: int, before: map<string, Stored>,
                                after: map<string, Stored>, cost: nat, from: int, to: int)
      requires Configured() && Resolved(keys)
      reads this`overrides
    {
      forall j :: j < n && Active(keys, j) ==>
        Charged(keys, j, Counter(keys, j, before), Counter(keys, j, after), cost, from, to)
    }

    /** The counters of the tiers from `n` on are as before. */
    ghost predicate SameFrom(keys: seq<Option<string>>, n: int, before: map<string, Stored>, after: map<string, Stored>)
      requires Resolved(keys)
    {
      forall j :: j >= n && Active(keys, j) ==> Counter(keys, j, after) == Counter(keys, j, before)
    }

    /** With counters apart, charging tier `i` changes no other counter. */
    lemma ChargedNext(keys: seq<Option<string>>, i: nat, before: map<string, Stored>, mid: map<string, Stored>,
                      after: map<string, Stored>, cost: nat, from: int, early: int, late: int)
      requires Configured() && Apart() && Resolved(keys) && Active(keys, i) && early <= late
      requires ChargedUpTo(keys, i, before, mid, cost, from, early) && SameFrom(keys, i, before, mid)
      requires Charged(keys, i, Counter(keys, i, mid), Counter(keys, i, after), cost, from, late)
      requires forall k :: k != KeyAt(keys, i) ==> Lookup(after, k) == Lookup(mid, k)
      ensures ChargedUpTo(keys, i + 1, before, after, cost, from, late) && SameFrom(keys, i + 1, before, after)
    {
      OnlyOneChanged(keys, i, mid, after);
      ChargedLater(keys, i, before, mid, cost, from, early, late);
    }

    lemma ChargedLater(keys: seq<Option<string>>, n: int, before: map<string, Stored>, after: map<string, Stored>,
                       cost: nat, from: int, early: int, late: int)
      requires Configured() && Resolved(keys) && early <= late
      requires ChargedUpTo(keys, n, before, after, cost, from, early)
      ensures ChargedUpTo(keys, n, before, after, cost, from, late)
    {
    }

    /** The counters and the refusal are what `Committed` says of the first `n` tiers. */
    ghost predicate AsCommitted(keys: seq<Option<string>>, n: nat, before: map<string, Stored>,
                                after: map<string, Stored>, cost: nat, t: int, refused: bool)
      requires Configured() && Resolved(keys) && n <= |tiers|
      reads this`overrides
    {
      var (left, stopped) := Committed(keys, n, before, cost, t);
      after == left && refused == stopped.Some?
    }

    lemma AsCommittedNext(keys: seq<Option<string>>, i: nat, before: map<string, Stored>, mid: map<string, Stored>,
                          after: map<string, Stored>, cost: nat, t: int, allowed: bool)
      requires Configured() && Resolved(keys) && i < |tiers| && Active(keys, i)
      requires AsCommitted(keys, i, before, mid, cost, t, false)
      requires var c := ConsumeFor(alg, ChargeOf(keys, i), Counter(keys, i, mid), cost, t);
               && allowed == c.allowed && (allowed ==> c.saved.Some?)
               && after == if allowed then mid[KeyAt(keys, i) := c.saved.value] else mid
      ensures AsCommitted(keys, i + 1, before, after, cost, t, !allowed)
    {
      CommittedNext(keys, i, before, cost, t);
    }

    /** What the second pass, begun at `began`, has come to after `n` tiers. */
    ghost predicate CommittedUpTo(keys: seq<Option<string>>, n: nat, start: map<string, Stored>,
                                  after: map<string, Stored>, cost: nat, from: int, began: int, to: int, refused: bool)
      requires Configured() && Resolved(keys) && n <= |tiers|
      reads this`overrides
    {
      && OthersSame(keys, start, after)
      && (Apart() ==> !refused && ChargedUpTo(keys, n, start, after, cost, from, to) && SameFrom(keys, n, start, after))
      && (to == began ==> AsCommitted(keys, n, start, after, cost, to, refused))
    }

    /** A tier that does not apply charges nothing. */
    lemma CommitSkips(keys: seq<Option<string>>, n: nat, start: map<string, Stored>, after: map<string, Stored>,
                      cost: nat, from: int, began: int, to: int)
      requires Configured() && Resolved(keys) && n < |tiers| && keys[n].None?
      requires CommittedUpTo(keys, n, start, after, cost, from, began, to, false)
      ensures CommittedUpTo(keys, n + 1, start, after, cost, from, began, to, false)
    {
      CommittedNext(keys, n, start, cost, to);
    }

    lemma CommitStops(keys: seq<Option<string>>, n: nat, start: map<string, Stored>, after: map<string, Stored>,
                      cost: nat, from: int, began: int, to: int)
      requires Configured() && Resolved(keys) && n <= |tiers|
      requires CommittedUpTo(keys, n, start, after, cost, from, began, to, true)
      ensures CommittedUpTo(keys, |tiers|, start, after, cost, from, began, to, true)
    {
      if to == began {
        CommittedStops(keys, n, |tiers|, start, cost, to);
      }
    }

    /** What the first pass noted of an active tier lets the second pass charge it. */
    ghost predicate Ready(keys: seq<Option<string>>, i: int, eval: TierEval, start: map<string, Stored>, cost: nat,
                          from: int, to: int)
      requires Configured() && Resolved(keys) && Active(keys, i)
      reads this`overrides
    {
      && eval == TierEval(KeyAt(keys, i), MaxAt(keys, i), tiers[i].windowMs, false, false)
      && SeesRoom(keys, i, start, cost, from, to)
    }

    /** One more tier of the second pass. */
    method CommitTier(keys: seq<Option<string>>, i: nat, eval: TierEval, cost: nat, ghost from: int,
                      ghost start: map<string, Stored>, ghost began: int)
      returns (refused: Option<string>)
      requires Valid() && Resolved(keys) && Active(keys, i) && from <= began <= now
      requires Apart() ==> Fits(alg, Counter(keys, i, start), tiers[i].windowMs, from)
      requires Ready(keys, i, eval, start, cost, from, began)
      requires CommittedUpTo(keys, i, start, usage, cost, from, began, now, false)
      modifies this`now, this`usage
      ensures Valid() && now >= old(now)
      ensures refused.Some? ==> refused == Some(tiers[i].name) && StopsAt(keys, i, start, usage, cost, began, now)
      ensures CommittedUpTo(keys, i + 1, start, usage, cost, from, began, now, refused.Some?)
    {
      ghost var t, mid := now, usage;
      assert SeesRoom(keys, i, start, cost, from, now);
      var allowed := ConsumeTier(keys, i, eval, cost, from);
      AllowedIffRoom(alg, Counter(keys, i, mid), MaxAt(keys, i), tiers[i].windowMs, cost, now);
      if Apart() {
        ChargedNext(keys, i, start, mid, usage, cost, from, t, now);
      }
      if now == began {
        AsCommittedNext(keys, i, start, mid, usage, cost, now, allowed);
      }
      assert allowed <==> HasRoom(keys, i, Counter(keys, i, mid), cost, now);
      refused := if allowed then None else Some(tiers[i].name);
    }

    /** One more tier of the second pass, which skips what does not apply. */
    method CommitNext(keys: seq<Option<string>>, i: nat, eval: TierEval, cost: nat, ghost from: int,
                      ghost start: map<string, Stored>, ghost began: int)
      returns (refused: Option<string>)
      requires Valid() && Resolved(keys) && i < |tiers| && eval.skipped == keys[i].None? && from <= began <= now
      requires Active(keys, i) ==>
                 && Ready(keys, i, eval, start, cost, from, began)
                 && (Apart() ==> Fits(alg, Counter(keys, i, start), tiers[i].windowMs, from))
      requires CommittedUpTo(keys, i, start, usage, cost, from, began, now, false)
      modifies this`now, this`usage
      ensures Valid() && now >= old(now)
      ensures refused.Some? ==>
                && Active(keys, i) && refused == Some(tiers[i].name)
                && StopsAt(keys, i, start, usage, cost, began, now)
      ensures CommittedUpTo(keys, i + 1, start, usage, cost, from, began, now, refused.Some?)
    {
      refused := None;
      if !eval.skipped && !eval.banned {
        refused := CommitTier(keys, i, eval, cost, from, start, began);
      } else {
        CommitSkips(keys, i, start, usage, cost, from, began, now);
      }
    }

    /**
     The second pass: consume in every active tier, stopping at the first refusal. With counters apart none
     refuses; in any case, at a fixed clock it comes to what `Committed` says.
    */
    method CommitTiers(keys: seq<Option<string>>, evals: seq<TierEval>, cost: nat, ghost from: int)
      returns (refused: Option<string>)
      requires Valid() && Resolved(keys) && |evals| == |tiers| && from <= now && (Apart() ==> AllFit(usage, from))
      requires forall i :: 0 <= i < |tiers| ==> evals[i].skipped == keys[i].None?
      requires forall i :: Active(keys, i) ==> Ready(keys, i, evals[i], usage, cost, from, now)
      modifies this`now, this`usage
      ensures Valid() && now >= old(now)
      ensures refused.Some? ==> NamesTier(keys, refused, old(usage), usage, cost, old(now), now)
      ensures Apart() ==> refused.None? && ChargedUpTo(keys, |tiers|, old(usage), usage, cost, from, now)
      ensures OthersSame(keys, old(usage), usage)
      ensures now == old(now) ==> AsCommitted(keys, |tiers|, old(usage), usage, cost, now, refused.Some?)
    {
      refused := None;
      var i := 0;
      while i < |evals| && refused.None?
        invariant 0 <= i <= |tiers|
        invariant now >= old(now) && Valid()
        invariant refused.Some? ==>
                    && Active(keys, i - 1) && refused == Some(tiers[i - 1].name)
                    && StopsAt(keys, i - 1, old(usage), usage, cost, old(now), now)
        invariant CommittedUpTo(keys, i, old(usage), usage, cost, from, old(now), now, refused.Some?)
        modifies this`now, this`usage
      {
        assert Active(keys, i) ==> old(Ready(keys, i, evals[i], usage, cost, from, now));
        refused := CommitNext(keys, i, evals[i], cost, from, old(usage), old(now));
        i := i + 1;
      }
      if refused.Some? {
        CommitStops(keys, i, old(usage), usage, cost, from, old(now), now);
      }
    }

    /** The tier lets the request through at a fixed clock. */
    ghost predicate PassesNow(keys: seq<Option<string>>, i: int, banned: map<string, int>,
                              counters: map<string, Stored>, cost: nat, t: int)
      requires Configured() && Resolved(keys) && Active(keys, i)
      reads this`overrides
    {
      Unbanned(banned, KeyAt(keys, i), t) && HasRoom(keys, i, Counter(keys, i, counters), cost, t)
    }

    ghost predicate AllPassNow(keys: seq<Option<string>>, banned: map<string, int>, counters: map<string, Stored>,
                               cost: nat, t: int)
      requires Configured() && Resolved(keys)
      reads this`overrides
    {
      forall i :: Active(keys, i) ==> PassesNow(keys, i, banned, counters, cost, t)
    }

    /** At a fixed clock the first pass finds no block if and only if every active tier lets the request through. */
    lemma PassAtFixedClock(keys: seq<Option<string>>, banned: map<string, int>, counters: map<string, Stored>,
                           cost: nat, t: int)
      requires Configured() && Resolved(keys)
      requires PassUpTo(keys, |tiers|, banned, counters, cost, t, t)
      ensures AllPassNow(keys, banned, counters, cost, t)
    {
    }

    lemma BlockAtFixedClock(keys: seq<Option<string>>, i: int, banned: map<string, int>, counters: map<string, Stored>,
                            cost: nat, t: int)
      requires Configured() && Resolved(keys)
      requires BlocksFirst(keys, i, banned, counters, cost, t, t)
      ensures !AllPassNow(keys, banned, counters, cost, t)
    {
      assert !PassesNow(keys, i, banned, counters, cost, t);
    }

    /** The keys of a request that passes are not banned. */
    lemma PassedKeysAreUnbanned(keys: seq<Option<string>>, banned: map<string, int>, counters: map<string, Stored>,
                                cost: nat, from: int, to: int)
      requires Configured() && Resolved(keys)
      requires PassUpTo(keys, |tiers|, banned, counters, cost, from, to)
      ensures forall k :: k in ActiveKeys(keys) ==> Unbanned(banned, k, to)
    {
      forall k | k in ActiveKeys(keys)
        ensures Unbanned(banned, k, to)
      {
        var i :| 0 <= i < |tiers| && keys[i].Some? && KeyAt(keys, i) == k;
        assert Active(keys, i);
      }
    }

    /** What the first pass noted is what the second pass needs. */
    lemma PassedTiersCommit(keys: seq<Option<string>>, i: int, eval: TierEval, banned: map<string, int>,
                            counters: map<string, Stored>, cost: nat, from: int, to: int)
      requires Configured() && Resolved(keys) && Active(keys, i)
      requires PeekedAs(keys, i, eval, banned, from, to) && !eval.banned
      requires PassUpTo(keys, |tiers|, banned, counters, cost, from, to)
      ensures Ready(keys, i, eval, counters, cost, from, to)
    {
    }

    // ---------- Tiers that share a counter ----------

    /** Tiers on one counter read it alike. */
    ghost predicate TiersAgree(keys: seq<Option<string>>)
      requires Resolved(keys)
      reads this`overrides
    {
      forall i, j :: Active(keys, i) && Active(keys, j) && KeyAt(keys, i) == KeyAt(keys, j) ==>
        ReadAlike(alg, ChargeOf(keys, i), ChargeOf(keys, j))
    }

    ghost predicate TiersFit(keys: seq<Option<string>>, counters: map<string, Stored>, t: int)
      requires Configured() && Resolved(keys)
    {
      forall i :: Active(keys, i) ==> Fits(alg, Counter(keys, i, counters), tiers[i].windowMs, t)
    }

    /** How many of the first `n` tiers are active and use the counter. */
    ghost function Sharers(keys: seq<Option<string>>, n: nat, key: string): nat
      requires Resolved(keys) && n <= |tiers|
    {
      if n == 0 then 0
      else Sharers(keys, n - 1, key) + if keys[n - 1].Some? && KeyAt(keys, n - 1) == key then 1 else 0
    }

    /** Usage, with the cost of the tier and of those before it on its counter, is within its maximum. */
    ghost predicate SharedRoom(keys: seq<Option<string>>, i: int, counters: map<string, Stored>, cost: nat, t: int)
      requires Configured() && Resolved(keys) && Active(keys, i)
      reads this`overrides
    {
      Peek(alg, Counter(keys, i, counters), MaxAt(keys, i), tiers[i].windowMs, t)
        + Times(cost, Sharers(keys, i + 1, KeyAt(keys, i))) as real <= MaxAt(keys, i) as real
    }

    ghost predicate AllShareRoom(keys: seq<Option<string>>, n: nat, counters: map<string, Stored>, cost: nat, t: int)
      requires Configured() && Resolved(keys)
      reads this`overrides
    {
      forall i :: i < n && Active(keys, i) ==> SharedRoom(keys, i, counters, cost, t)
    }

    lemma {:induction false} CountIsSharers(keys: seq<Option<string>>, n: nat, key: string)
      requires Resolved(keys) && n <= |tiers|
      ensures CountOn(Charges(keys, n), |Charges(keys, n)|, key) == Sharers(keys, n, key)
    {
      if n > 0 {
        CountIsSharers(keys, n - 1, key);
        var before := Charges(keys, n - 1);
        if keys[n - 1].Some? {
          CountPrefix(before, [ChargeOf(keys, n - 1)], |before|, key);
        } else {
          assert Charges(keys, n) == before;
        }
      }
    }

    /** Every charge is that of an active tier. */
    lemma {:induction false} ChargeHasTier(keys: seq<Option<string>>, n: nat, p: nat) returns (i: nat)
      requires Resolved(keys) && n <= |tiers| && p < |Charges(keys, n)|
      ensures i < n && Active(keys, i) && Charges(keys, n)[p] == ChargeOf(keys, i)
    {
      if p < |Charges(keys, n - 1)| {
        i := ChargeHasTier(keys, n - 1, p);
      } else {
        i := n - 1;
      }
    }

    lemma ChargesAgree(keys: seq<Option<string>>, counters: map<string, Stored>, t: int)
      requires Configured() && Resolved(keys) && TiersAgree(keys) && TiersFit(keys, counters, t)
      ensures ValidCharges(Charges(keys, |tiers|)) && Agree(alg, Charges(keys, |tiers|))
      ensures CountersFit(alg, Charges(keys, |tiers|), counters, t)
    {
      var charges := Charges(keys, |tiers|);
      ChargesAreValid(keys, |tiers|);
      forall p, q | 0 <= p < |charges| && 0 <= q < |charges| && charges[p].key == charges[q].key
        ensures ReadAlike(alg, charges[p], charges[q])
      {
        var i := ChargeHasTier(keys, |tiers|, p);
        var j := ChargeHasTier(keys, |tiers|, q);
        assert KeyAt(keys, i) == KeyAt(keys, j);
      }
      forall p | 0 <= p < |charges|
        ensures Fits(alg, Lookup(counters, charges[p].key), charges[p].windowMs, t)
      {
        var i := ChargeHasTier(keys, |tiers|, p);
        assert charges[p].key == KeyAt(keys, i);
      }
    }

    ghost predicate AllWithin(keys: seq<Option<string>>, n: nat, counters: map<string, Stored>, cost: nat, t: int)
      requires Configured() && Resolved(keys) && n <= |tiers|
      reads this`overrides
    {
      ChargesAreValid(keys, n);
      EachWithin(alg, Charges(keys, n), counters, cost, t)
    }

    /** The charge of tier `n` is within the maximum if and only if the tier has room for itself and its sharers. */
    lemma LastWithin(keys: seq<Option<string>>, n: nat, counters: map<string, Stored>, cost: nat, t: int)
      requires Configured() && Resolved(keys) && n < |tiers| && Active(keys, n)
      ensures Charges(keys, n + 1) == Charges(keys, n) + [ChargeOf(keys, n)]
      ensures ValidCharges(Charges(keys, n + 1))
      ensures WithinMax(alg, Charges(keys, n + 1), |Charges(keys, n)|, counters, cost, t)
              == SharedRoom(keys, n, counters, cost, t)
    {
      ChargesAreValid(keys, n + 1);
      CountIsSharers(keys, n + 1, KeyAt(keys, n));
      assert Charges(keys, n + 1)[|Charges(keys, n)|] == ChargeOf(keys, n);
    }

    /** One tier more. */
    lemma AllWithinNext(keys: seq<Option<string>>, n: nat, counters: map<string, Stored>, cost: nat, t: int)
      requires Configured() && Resolved(keys) && n < |tiers|
      ensures AllWithin(keys, n + 1, counters, cost, t) <==>
                AllWithin(keys, n, counters, cost, t) && (Active(keys, n) ==> SharedRoom(keys, n, counters, cost, t))
    {
      ChargesAreValid(keys, n);
      if keys[n].Some? {
        LastWithin(keys, n, counters, cost, t);
        EachWithinNext(alg, Charges(keys, n), ChargeOf(keys, n), counters, cost, t);
      } else {
        assert Charges(keys, n + 1) == Charges(keys, n);
      }
    }

    lemma {:induction false} AllWithinIff(keys: seq<Option<string>>, n: nat, counters: map<string, Stored>,
                                          cost: nat, t: int)
      requires Configured() && Resolved(keys) && n <= |tiers|
      ensures AllWithin(keys, n, counters, cost, t) <==> AllShareRoom(keys, n, counters, cost, t)
    {
      if n > 0 {
        AllWithinIff(keys, n - 1, counters, cost, t);
        AllWithinNext(keys, n - 1, counters, cost, t);
      }
    }

    /**
     With tiers that read a shared counter alike, the second pass at a fixed clock refuses nothing if and
     only if, for each active tier, its usage and the cost times the number of active tiers up to it on its
     counter are within its maximum.
    */
    lemma CommitsIff(keys: seq<Option<string>>, counters: map<string, Stored>, cost: nat, t: int)
      requires Configured() && Resolved(keys) && TiersAgree(keys) && TiersFit(keys, counters, t)
      ensures Committed(keys, |tiers|, counters, cost, t).1.None? <==> AllShareRoom(keys, |tiers|, counters, cost, t)
    {
      ChargesAgree(keys, counters, t);
      NothingRefusedIff(alg, Charges(keys, |tiers|), counters, cost, t);
      AllWithinIff(keys, |tiers|, counters, cost, t);
    }

    /** Room for all its sharers is room for the tier. */
    lemma SharedRoomIsRoom(keys: seq<Option<string>>, i: int, counters: map<string, Stored>, cost: nat, t: int)
      requires Configured() && Resolved(keys) && Active(keys, i) && SharedRoom(keys, i, counters, cost, t)
      ensures HasRoom(keys, i, Counter(keys, i, counters), cost, t)
    {
      assert Sharers(keys, i + 1, KeyAt(keys, i)) == Sharers(keys, i, KeyAt(keys, i)) + 1;
      assert Times(cost, Sharers(keys, i + 1, KeyAt(keys, i))) >= cost;
    }

    ghost predicate NoneBanned(keys: seq<Option<string>>, banned: map<string, int>, t: int)
      requires Resolved(keys)
    {
      forall i :: Active(keys, i) ==> Unbanned(banned, KeyAt(keys, i), t)
    }

    /** The whole check at a fixed clock. */
    lemma PassesAndCommitsIff(keys: seq<Option<string>>, banned: map<string, int>, counters: map<string, Stored>,
                              cost: nat, t: int)
      requires Configured() && Resolved(keys) && TiersAgree(keys) && TiersFit(keys, counters, t)
      ensures AllPassNow(keys, banned, counters, cost, t) && Committed(keys, |tiers|, counters, cost, t).1.None? <==>
                NoneBanned(keys, banned, t) && AllShareRoom(keys, |tiers|, counters, cost, t)
    {
      CommitsIff(keys, counters, cost, t);
      if AllShareRoom(keys, |tiers|, counters, cost, t) {
        forall i | Active(keys, i)
          ensures HasRoom(keys, i, Counter(keys, i, counters), cost, t)
        {
          SharedRoomIsRoom(keys, i, counters, cost, t);
        }
      }
    }

    // ---------- What a request leads to ----------

    /** The deed of a call that blocks at tier `i`: a violation, unless the tier is banned or there is no penalty. */
    ghost predicate Blames(keys: seq<Option<string>>, i: int, before: Records, deed: Deed, banned: bool)
      requires Configured() && Resolved(keys) && Active(keys, i)
    {
      var key := KeyAt(keys, i);
      match deed
      case Recorded(k, at) =>
        && k == key && penalty.Some? && Unbanned(before.bans, key, at)
        && banned == PenaltyLog.RecordViolation(penalty.value, Lookup(before.violations, key), at).banned
      case Refused(k) =>
        k == key && if banned then key in before.bans && before.bans[key] > before.now else penalty.None?
      case _ => false
    }

    /** What a block at tier `i` leads to: a violation, unless the tier is banned or there is no penalty. */
    method Blame(keys: seq<Option<string>>, i: nat, eval: TierEval, ghost before: Records)
      returns (banned: bool, ghost deed: Deed)
      requires Configured() && Resolved(keys) && Active(keys, i)
      requires PeekedAs(keys, i, eval, before.bans, before.now, now)
      requires before.now <= now && before.violations == violations && OnlyExpired(before.bans, bans, now)
      modifies this`now, this`bans, this`violations
      ensures now >= old(now) && Follows(penalty, before, Stored(), deed)
      ensures Blames(keys, i, before, deed, banned)
    {
      banned := eval.banned;
      deed := Deed.Refused(eval.storageKey);
      if penalty.Some? && !banned {
        banned := RecordViolation(eval.storageKey);
        deed := Recorded(eval.storageKey, now);
        ExpiredBefore(before.bans, old(bans), bans, eval.storageKey, old(now), now);
      }
    }

    /**
     What follows when the first pass found no block: nothing is refused or charged on a peek; otherwise the
     second pass decides. With counters apart it charges every active tier.
    */
    method Pass(keys: seq<Option<string>>, evals: seq<TierEval>, cost: nat, peekOnly: bool, ghost before: Records)
      returns (v: Verdict, ghost deed: Deed)
      requires Valid() && Resolved(keys) && before.now <= now
      requires Apart() ==> AllFit(usage, before.now)
      requires before.violations == violations && OnlyExpired(before.bans, bans, now)
      requires PeekedUpTo(keys, |tiers|, evals, None, before.bans, usage, cost, before.now, now)
      modifies this`now, this`usage
      ensures Valid() && now >= old(now)
      ensures Follows(penalty, before, Stored(), deed)
      ensures !v.skipped && v.allowed == !v.wouldBlock && !v.instanceDisabled && !v.passthrough
      ensures v.allowed ==> v.tier.None? && !v.banned
      ensures v.allowed && !peekOnly ==> deed == Passed(ActiveKeys(keys))
      ensures peekOnly ==> deed == Nothing
      ensures peekOnly || cost == 0 ==> v.allowed && usage == old(usage)
      ensures Apart() ==> v.allowed
      ensures v.wouldBlock ==>
                deed == Nothing && !v.banned && NamesTier(keys, v.tier, old(usage), usage, cost, before.now, now)
      ensures Apart() && !peekOnly && cost > 0 ==> ChargedUpTo(keys, |tiers|, old(usage), usage, cost, before.now, now)
      ensures OthersSame(keys, old(usage), usage)
      ensures !peekOnly && cost > 0 && now == old(now) ==>
                AsCommitted(keys, |tiers|, old(usage), usage, cost, now, v.wouldBlock)
    {
      PassedKeysAreUnbanned(keys, before.bans, usage, cost, before.now, now);
      v, deed := ALLOWED, if peekOnly then Nothing else Passed(ActiveKeys(keys));
      if !peekOnly && cost > 0 {
        forall i | Active(keys, i)
          ensures Ready(keys, i, evals[i], usage, cost, before.now, now)
        {
          PassedTiersCommit(keys, i, evals[i], before.bans, usage, cost, before.now, now);
        }
        var refused := CommitTiers(keys, evals, cost, before.now);
        if refused.Some? {
          StopsEarlier(keys, refused, old(usage), usage, cost, before.now, old(now), now);
          v, deed := Verdict(false, true, refused, false, false, false, false), Nothing;
        }
      }
    }

    /** The verdict when tier `i` blocks. */
    method Block(keys: seq<Option<string>>, i: nat, eval: TierEval, peekOnly: bool, ghost before: Records)
      returns (v: Verdict, ghost deed: Deed)
      requires Configured() && Resolved(keys) && Active(keys, i)
      requires PeekedAs(keys, i, eval, before.bans, before.now, now)
      requires before.now <= now && before.violations == violations && OnlyExpired(before.bans, bans, now)
      modifies this`now, this`bans, this`violations
      ensures now >= old(now) && Follows(penalty, before, Stored(), deed)
      ensures v == Verdict(false, true, Some(tiers[i].name), v.banned, false, false, false)
      ensures if peekOnly then deed == Nothing && v.banned == eval.banned else Blames(keys, i, before, deed, v.banned)
    {
      var banned := eval.banned;
      deed := Nothing;
      if !peekOnly {
        banned, deed := Blame(keys, i, eval, before);
      }
      v := Verdict(false, true, Some(tiers[i].name), banned, false, false, false);
    }

    /**
     `_evaluate`: the request is blocked for a reason, and what follows for bans and violations is recorded,
     or it passes every tier. With counters apart it is then allowed and every active tier is charged the
     cost; the branch for a commit that is refused halfway is never taken.
    */
    method Evaluate(keys: seq<Option<string>>, skip: bool, cost: nat, peekOnly: bool)
      returns (v: Verdict, ghost deed: Deed)
      requires Valid() && Resolved(keys)
      modifies this`now, this`usage, this`bans, this`violations
      ensures Valid() && Follows(penalty, old(Stored()), Stored(), deed)
      ensures skip ==> usage == old(usage) && bans == old(bans) && violations == old(violations)
      ensures v.skipped == skip && v.allowed == !v.wouldBlock && (skip ==> v.allowed)
      ensures !v.instanceDisabled && !v.passthrough
      ensures v.allowed ==> v.tier.None? && !v.banned
      ensures skip || peekOnly ==> deed == Nothing
      ensures peekOnly || cost == 0 ==> usage == old(usage)
      ensures Apart() && v.wouldBlock ==> usage == old(usage)
      ensures Apart() && !skip && v.allowed && !peekOnly && cost > 0 ==>
                ChargedUpTo(keys, |tiers|, old(usage), usage, cost, old(now), now)
      ensures OthersSame(keys, old(usage), usage)
      ensures !skip && v.allowed ==>
                && (peekOnly || deed == Passed(ActiveKeys(keys)))
                && PassUpTo(keys, |tiers|, old(bans), old(usage), cost, old(now), now)
      ensures v.wouldBlock ==>
                || (exists i :: BlocksFirst(keys, i, old(bans), old(usage), cost, old(now), now)
                     && v.tier == Some(tiers[i].name) && (peekOnly || Blames(keys, i, old(Stored()), deed, v.banned)))
                || (!Apart() && !peekOnly && cost > 0 && deed == Nothing && !v.banned
                     && NamesTier(keys, v.tier, old(usage), usage, cost, old(now), now)
                     && PassUpTo(keys, |tiers|, old(bans), old(usage), cost, old(now), now))
      ensures !skip && !peekOnly && cost > 0 && now == old(now) ==>
                if AllPassNow(keys, old(bans), old(usage), cost, now)
                then AsCommitted(keys, |tiers|, old(usage), usage, cost, now, v.wouldBlock)
                else v.wouldBlock && usage == old(usage)
    {
      if skip {
        return SKIPPED, Nothing;
      }
      ghost var before := Stored();
      var evals, blocking := PeekTiers(keys, cost);
      if blocking.None? {
        if now == before.now {
          PassAtFixedClock(keys, before.bans, usage, cost, now);
        }
        if Apart() {
          AllFitLater(usage, before.now, now);
        }
        ghost var peeked := now;
        v, deed := Pass(keys, evals, cost, peekOnly, before);
        LaterPasses(keys, |tiers|, before.bans, old(usage), cost, before.now, peeked, now);
        return;
      }
      var i := blocking.value;
      if now == before.now {
        BlockAtFixedClock(keys, i, before.bans, usage, cost, now);
      }
      ghost var peeked := now;
      v, deed := Block(keys, i, evals[i], peekOnly, before);
      LaterBlocks(keys, i, before.bans, usage, cost, before.now, peeked, now);
      if Apart() {
        AllFitLater(usage, before.now, now);
      }
    }

    /** Expired bans may have gone on the way to a violation. */
    lemma ExpiredBefore(before: map<string, int>, peeked: map<string, int>, after: map<string, int>, key: string,
                        early: int, late: int)
      requires OnlyExpired(before, peeked, early) && early <= late && Unbanned(before, key, late)
      requires after - {key} == peeked - {key}
      ensures OnlyExpired(before, after - {key}, late)
    {
    }

    /**
     `check` under the write lock, without upstream limiters. With counters apart it is all or nothing:
     either the cost is charged in every active tier, or in none; with an enabled instance the first
     happens exactly when the answer is allowed.
    */
    method Check(toggle: Toggle, keys: seq<Option<string>>, skip: bool, cost: int)
      returns (r: CheckResult, ghost deed: Deed)
      requires Valid() && Resolved(keys)
      modifies this`now, this`usage, this`bans, this`violations
      ensures Valid() && Follows(penalty, old(Stored()), Stored(), deed)
      ensures toggle.DisabledSkip? ==> r == Checked(Verdict(true, false, None, false, true, true, false))
      ensures toggle.DisabledBlock? ==> r == Checked(Verdict(false, true, None, false, false, true, false))
      ensures toggle.DisabledSkip? || toggle.DisabledBlock? ==> usage == old(usage)
      ensures toggle.Enabled? || toggle.DisabledPassthrough? ==> (r.InvalidCost? <==> cost < 1)
      ensures r.InvalidCost? ==> usage == old(usage)
      ensures r.InvalidCost? || skip || toggle.DisabledSkip? || toggle.DisabledBlock? ==> deed == Nothing
      ensures OthersSame(keys, old(usage), usage)
      ensures toggle.DisabledPassthrough? && cost >= 1 ==> r.verdict.allowed
      ensures toggle.Enabled? || toggle.DisabledPassthrough? ==> r.Checked? ==>
                && r.verdict.passthrough == r.verdict.instanceDisabled == toggle.DisabledPassthrough?
                && r.verdict.skipped == skip
                && (skip ==> r.verdict.allowed && !r.verdict.wouldBlock)
                && (!r.verdict.wouldBlock ==> r.verdict.tier.None? && !r.verdict.banned)
      ensures toggle.Enabled? && r.Checked? && !skip ==> r.verdict.allowed == !r.verdict.wouldBlock
      ensures Evaluated(toggle, r, skip) && !r.verdict.wouldBlock ==> deed == Passed(ActiveKeys(keys))
      ensures Evaluated(toggle, r, skip) && r.verdict.wouldBlock ==>
                || (exists i :: BlocksFirst(keys, i, old(bans), old(usage), cost, old(now), now)
                     && r.verdict.tier == Some(tiers[i].name) && Blames(keys, i, old(Stored()), deed, r.verdict.banned))
                || (!Apart() && deed == Nothing && !r.verdict.banned
                     && NamesTier(keys, r.verdict.tier, old(usage), usage, cost, old(now), now)
                     && PassUpTo(keys, |tiers|, old(bans), old(usage), cost, old(now), now))
      ensures Apart() && Evaluated(toggle, r, skip) ==>
                if r.verdict.wouldBlock
                then usage == old(usage)
                else ChargedUpTo(keys, |tiers|, old(usage), usage, cost, old(now), now)
      ensures Evaluated(toggle, r, skip) && now == old(now) ==>
                if AllPassNow(keys, old(bans), old(usage), cost, now)
                then AsCommitted(keys, |tiers|, old(usage), usage, cost, now, r.verdict.wouldBlock)
                else r.verdict.wouldBlock && usage == old(usage)
      ensures Evaluated(toggle, r, skip) && now == old(now) && TiersAgree(keys) && TiersFit(keys, old(usage), now) ==>
                (!r.verdict.wouldBlock <==>
                   NoneBanned(keys, old(bans), now) && AllShareRoom(keys, |tiers|, old(usage), cost, now))
    {
      deed := Nothing;
      match toggle {
        case DisabledBlock => return Checked(DisabledVerdict(true)), deed;
        case DisabledSkip => return Checked(DisabledVerdict(false)), deed;
        case _ =>
      }
      if cost < 1 {
        return InvalidCost, deed;
      }
      if TiersAgree(keys) && TiersFit(keys, usage, now) {
        PassesAndCommitsIff(keys, bans, usage, cost, now);
      }
      var v;
      v, deed := Evaluate(keys, skip, cost, false);
      if toggle.DisabledPassthrough? {
        v := v.(passthrough := true, instanceDisabled := true, allowed := true);
      }
      r := Checked(v);
    }

    /** Tier `i` is the first of that name. */
    ghost predicate FirstNamed(i: int, tier: string) {
      0 <= i < |tiers| && tiers[i].name == tier && forall j :: 0 <= j < i ==> tiers[j].name != tier
    }

    /** The counter of tier `i` starts anew. */
    method Empty(i: nat, key: string)
      requires Valid() && i < |tiers|
      modifies this`now, this`usage
      ensures Valid() && now >= old(now)
      ensures var storageKey := DataKey(name, tiers[i].name, key);
              && Peek(alg, Lookup(usage, storageKey), tiers[i].max, tiers[i].windowMs, now) == 0.0
              && forall k :: k != storageKey ==> Lookup(usage, k) == Lookup(old(usage), k)
    {
      var t := ReadClock();
      var rec := EmptyCounter(alg, tiers[i].max, tiers[i].windowMs, t);
      EmptyPeeksNothing(alg, tiers[i].max, tiers[i].windowMs, t);
      if Apart() {
        AllFitLater(usage, old(now), t);
        AllFitSave(usage, i, key, rec, t);
      }
      usage := usage[DataKey(name, tiers[i].name, key) := rec];
    }

    /** `reset` of one tier and caller: an empty counter and an empty violation log; a ban stays. */
    method Reset(tier: string, key: string) returns (ghost deed: Deed)
      requires Valid()
      modifies this`now, this`usage, this`violations
      ensures Valid() && Follows(penalty, old(Stored()), Stored(), deed)
      ensures (forall i :: 0 <= i < |tiers| ==> tiers[i].name != tier) ==> deed == Nothing && usage == old(usage)
      ensures forall i :: FirstNamed(i, tier) ==>
                && deed == Cleared(DataKey(name, tier, key), now)
                && Peek(alg, Lookup(usage, DataKey(name, tier, key)), tiers[i].max, tiers[i].windowMs, now) == 0.0
      ensures forall k :: k != DataKey(name, tier, key) ==> Lookup(usage, k) == Lookup(old(usage), k)
    {
      deed := Nothing;
      var i := 0;
      while i < |tiers| && tiers[i].name != tier
        invariant 0 <= i <= |tiers|
        invariant forall j :: 0 <= j < i ==> tiers[j].name != tier
      {
        i := i + 1;
      }
      if i == |tiers| {
        return;
      }
      Empty(i, key);
      violations := violations - {DataKey(name, tier, key)};
      deed := Cleared(DataKey(name, tier, key), now);
    }

    /** `ban` by hand, for whatever time. */
    method Ban(tier: string, key: string, durationMs: int) returns (ghost deed: Deed)
      requires Valid()
      modifies this`now, this`bans
      ensures Valid() && deed == BanSet(DataKey(name, tier, key), now + durationMs)
      ensures Follows(penalty, old(Stored()), Stored(), deed)
    {
      var t := ReadClock();
      if Apart() {
        AllFitLater(usage, old(now), t);
      }
      bans := bans[DataKey(name, tier, key) := t + durationMs];
      deed := BanSet(DataKey(name, tier, key), t + durationMs);
    }

    /** An override sets the maximum of one tier and caller, and no other. */
    ghost predicate OnlyMaxOf(tier: string, key: string, max: Option<int>, before: map<string, int>,
                              after: map<string, int>)
    {
      forall keys, i :: Resolved(keys) && Active(keys, i) ==>
        MaxUnder(after, keys, i) == if tiers[i].name == tier && keys[i] == Some(key) then max.GetOr(tiers[i].max)
                                    else MaxUnder(before, keys, i)
    }

    lemma OnlyOne(tier: string, key: string, max: Option<int>, before: map<string, int>, after: map<string, int>)
      requires Apart() && ':' !in tier
      requires forall k :: Lookup(after, k) == if k == DataKey(name, tier, key) then max else Lookup(before, k)
      ensures OnlyMaxOf(tier, key, max, before, after)
    {
      forall keys: seq<Option<string>>, i | Resolved(keys) && Active(keys, i)
        ensures MaxUnder(after, keys, i)
                == if tiers[i].name == tier && keys[i] == Some(key) then max.GetOr(tiers[i].max)
                   else MaxUnder(before, keys, i)
      {
        KeysApart(name, tiers[i].name, tier, keys[i].value, key);
      }
    }

    /** `setOverride`: the tier has the given maximum for the caller, and no other maximum changes. */
    method SetOverride(tier: string, key: string, max: int)
      requires Valid()
      modifies this`overrides
      ensures Valid()
      ensures Apart() && ':' !in tier ==> OnlyMaxOf(tier, key, Some(max), old(overrides), overrides)
    {
      overrides := overrides[DataKey(name, tier, key) := max];
      if Apart() && ':' !in tier {
        OnlyOne(tier, key, Some(max), old(overrides), overrides);
      }
    }

    /** `clearOverride`: the tier's own maximum holds for the caller again. */
    method ClearOverride(tier: string, key: string)
      requires Valid()
      modifies this`overrides
      ensures Valid()
      ensures Apart() && ':' !in tier ==> OnlyMaxOf(tier, key, None, old(overrides), overrides)
    {
      overrides := overrides - {DataKey(name, tier, key)};
      if Apart() && ':' !in tier {
        OnlyOne(tier, key, None, old(overrides), overrides);
      }
    }

    /** `unban` */
    method Unban(tier: string, key: string) returns (ghost deed: Deed)
      requires Valid()
      modifies this`bans
      ensures Valid() && deed == BanLifted(DataKey(name, tier, key))
      ensures Follows(penalty, old(Stored()), Stored(), deed)
    {
      bans := bans - {DataKey(name, tier, key)};
      deed := BanLifted(DataKey(name, tier, key));
    }
  }

  /** The check came to an evaluation of the tiers. */
  predicate Evaluated(toggle: Toggle, r: CheckResult, skip: bool) {
    r.Checked? && (toggle.Enabled? || toggle.DisabledPassthrough?) && !skip
  }

  /** The record that a reset saves. */
  function EmptyCounter(alg: Algorithm, max: int, windowMs: int, now: int): Stored
    requires windowMs > 0
  {
    match alg
    case SlidingWindow => Entries([])
    case FixedWindow => Window(now / windowMs, 0)
    case TokenBucket(_, _) => Bucket(max as real, now as real)
  }

  lemma EmptyPeeksNothing(alg: Algorithm, max: int, windowMs: int, now: int)
    requires ValidAlgorithm(alg) && windowMs > 0
    ensures Fits(alg, Some(EmptyCounter(alg, max, windowMs, now)), windowMs, now)
    ensures Peek(alg, Some(EmptyCounter(alg, max, windowMs, now)), max, windowMs, now) == 0.0
  {
    if alg.TokenBucket? {
      assert 0.0 / alg.refillIntervalMs == 0.0;
      assert Intervals(now as real, alg.refillIntervalMs, now) == 0;
      assert 0.0 * alg.refillRate == 0.0;
    }
  }

  // ---------- A check that ends half committed ----------

  const CALLERS: seq<Option<string>> := [Some("a:b"), Some("b")]

  lemma HalfCommitted(now: int)
    ensures var key := DataKey("api", "user", "a:b");
            var charges := [Charge(key, 1, 1000), Charge(key, 1, 1000)];
            Commit(SlidingWindow, charges, 2, map[], 1, now) == (map[key := Entries([now])], Some(1))
  {
    var key := DataKey("api", "user", "a:b");
    var charges := [Charge(key, 1, 1000), Charge(key, 1, 1000)];
    assert Commit(SlidingWindow, charges, 0, map[], 1, now) == (map[], None);
    assert Repeat(now, 1) == [now] + Repeat(now, 0) == [now];
    assert [] + [now] == [now];
    assert Commit(SlidingWindow, charges, 1, map[], 1, now) == (map[key := Entries([now])], None);
    assert [now][1..] == [];
    assert After([now], now - 1000) == [now];
  }

  /** Both tiers of the example charge the same counter. */
  lemma CallersCharge(limiter: Limiter)
    requires limiter.name == "api" && limiter.tiers == [Tier("user", 1, 1000), Tier("user:a", 1, 1000)]
    requires limiter.overrides == map[]
    ensures var charge := Charge(DataKey("api", "user", "a:b"), 1, 1000);
            limiter.Charges(CALLERS, 2) == [charge, charge]
  {
    ColonsCollide();
    var charge := Charge(DataKey("api", "user", "a:b"), 1, 1000);
    assert limiter.ChargeOf(CALLERS, 0) == charge && limiter.ChargeOf(CALLERS, 1) == charge;
    assert limiter.Charges(CALLERS, 1) == [charge];
  }

  lemma CallersPass(limiter: Limiter)
    requires limiter.Configured() && limiter.alg == SlidingWindow
    requires limiter.name == "api" && limiter.tiers == [Tier("user", 1, 1000), Tier("user:a", 1, 1000)]
    requires limiter.overrides == map[]
    ensures limiter.PassesNow(CALLERS, 0, map[], map[], 1, 0) && limiter.PassesNow(CALLERS, 1, map[], map[], 1, 0)
  {
  }

  /** The check of the example finds room in both tiers, and its commit is refused by the second. */
  lemma CallersEndHalfway(limiter: Limiter)
    requires limiter.Configured() && limiter.alg == SlidingWindow
    requires limiter.name == "api" && limiter.tiers == [Tier("user", 1, 1000), Tier("user:a", 1, 1000)]
    requires limiter.overrides == map[]
    ensures limiter.AllPassNow(CALLERS, map[], map[], 1, 0)
    ensures limiter.Committed(CALLERS, 2, map[], 1, 0) == (map[DataKey("api", "user", "a:b") := Entries([0])], Some(1))
  {
    HalfCommitted(0);
    CallersCharge(limiter);
    CallersPass(limiter);
  }

  /**
   Two tiers whose names and callers run together share one counter. A check finds room in both, charges the
   first and is refused by the second: it is blocked, and the cost stays charged.
  */
  method HalfCommittedCheck() returns (limiter: Limiter, r: CheckResult)
    ensures fresh(limiter) && limiter.tiers == [Tier("user", 1, 1000), Tier("user:a", 1, 1000)]
    ensures limiter.now == 0 ==>
              && r.Checked? && r.verdict.wouldBlock && !r.verdict.allowed
              && limiter.usage == map[DataKey("api", "user", "a:b") := Entries([0])]
  {
    limiter := new Limiter("api", [Tier("user", 1, 1000), Tier("user:a", 1, 1000)], SlidingWindow, None, 0);
    ghost var deed;
    CallersEndHalfway(limiter);
    r, deed := limiter.Check(Enabled, CALLERS, false, 1);
  }
}
