/**
 The commit of a multi-tier check when several tiers use one counter. At a fixed clock the tiers consume
 one after the other, each from what the earlier ones have left.
*/
module SharedCounters {
  import opened RateAlgorithms
  import opened Wrappers

  /** What an active tier charges: its counter, its effective maximum and its window. */
  datatype Charge = Charge(key: string, max: int, windowMs: int)

  predicate ValidCharges(charges: seq<Charge>) {
    forall i :: 0 <= i < |charges| ==> charges[i].windowMs > 0
  }

  function ConsumeFor(alg: Algorithm, c: Charge, rec: Option<Stored>, cost: nat, now: int): Consumption
    requires ValidAlgorithm(alg) && c.windowMs > 0
  {
    Consume(alg, rec, c.max, c.windowMs, cost, now)
  }

  function PeekFor(alg: Algorithm, c: Charge, rec: Option<Stored>, now: int): real
    requires ValidAlgorithm(alg) && c.windowMs > 0
  {
    Peek(alg, rec, c.max, c.windowMs, now)
  }

  /** The first `n` charges in order, up to the first that is refused; the counters, and which one that is. */
  function Commit(alg: Algorithm, charges: seq<Charge>, n: nat, counters: map<string, Stored>, cost: nat, now: int)
    : (map<string, Stored>, Option<nat>)
    requires ValidAlgorithm(alg) && ValidCharges(charges) && n <= |charges|
  {
    if n == 0 then (counters, None)
    else
      var (left, refused) := Commit(alg, charges, n - 1, counters, cost, now);
      if refused.Some? then (left, refused)
      else
        var c := charges[n - 1];
        var r := ConsumeFor(alg, c, Lookup(left, c.key), cost, now);
        if r.allowed && r.saved.Some? then (left[c.key := r.saved.value], None) else (left, Some(n - 1))
  }

  // ---------- Only the earlier charges on the same counter matter ----------

  /** What the first `n` charges leave on a counter when each of them is allowed. */
  function Left(alg: Algorithm, charges: seq<Charge>, n: nat, key: string, rec: Option<Stored>, cost: nat, now: int)
    : Option<Stored>
    requires ValidAlgorithm(alg) && ValidCharges(charges) && n <= |charges|
  {
    if n == 0 then rec
    else
      var before := Left(alg, charges, n - 1, key, rec, cost, now);
      if charges[n - 1].key == key then ConsumeFor(alg, charges[n - 1], before, cost, now).saved else before
  }

  predicate AllowedAt(alg: Algorithm, charges: seq<Charge>, i: nat, counters: map<string, Stored>, cost: nat, now: int)
    requires ValidAlgorithm(alg) && ValidCharges(charges) && i < |charges|
  {
    var c := charges[i];
    ConsumeFor(alg, c, Left(alg, charges, i, c.key, Lookup(counters, c.key), cost, now), cost, now).allowed
  }

  lemma AllowedSaves(alg: Algorithm, c: Charge, rec: Option<Stored>, cost: nat, now: int)
    requires ValidAlgorithm(alg) && c.windowMs > 0
    ensures ConsumeFor(alg, c, rec, cost, now).allowed ==> ConsumeFor(alg, c, rec, cost, now).saved.Some?
  {
  }

  /** A commit that refuses nothing leaves on every counter what its own charges leave. */
  lemma {:induction false} CommitLeaves(
    alg: Algorithm, charges: seq<Charge>, n: nat, counters: map<string, Stored>, cost: nat, now: int, key: string)
    requires ValidAlgorithm(alg) && ValidCharges(charges) && n <= |charges|
    requires Commit(alg, charges, n, counters, cost, now).1.None?
    ensures Lookup(Commit(alg, charges, n, counters, cost, now).0, key)
            == Left(alg, charges, n, key, Lookup(counters, key), cost, now)
  {
    if n > 0 {
      CommitLeaves(alg, charges, n - 1, counters, cost, now, key);
    }
  }

  /** One charge more is refused if and only if what the earlier ones leave has no room for it. */
  lemma RefusedNextIff(
    alg: Algorithm, charges: seq<Charge>, n: nat, counters: map<string, Stored>, cost: nat, now: int)
    requires ValidAlgorithm(alg) && ValidCharges(charges) && n < |charges|
    requires Commit(alg, charges, n, counters, cost, now).1.None?
    ensures Commit(alg, charges, n + 1, counters, cost, now).1.None? <==>
              AllowedAt(alg, charges, n, counters, cost, now)
  {
    var left, c := Commit(alg, charges, n, counters, cost, now).0, charges[n];
    CommitLeaves(alg, charges, n, counters, cost, now, c.key);
    AllowedSaves(alg, c, Lookup(left, c.key), cost, now);
  }

  /** Nothing is refused if and only if each charge is allowed on what the earlier ones on its counter leave. */
  lemma {:induction false} NothingRefusedIffEachAllowed(
    alg: Algorithm, charges: seq<Charge>, n: nat, counters: map<string, Stored>, cost: nat, now: int)
    requires ValidAlgorithm(alg) && ValidCharges(charges) && n <= |charges|
    ensures Commit(alg, charges, n, counters, cost, now).1.None? <==>
              forall i :: 0 <= i < n ==> AllowedAt(alg, charges, i, counters, cost, now)
  {
    if n > 0 {
      NothingRefusedIffEachAllowed(alg, charges, n - 1, counters, cost, now);
      if Commit(alg, charges, n - 1, counters, cost, now).1.None? {
        RefusedNextIff(alg, charges, n - 1, counters, cost, now);
      }
    }
  }

  // ---------- Charges that agree ----------

  /** Both read one counter alike: the windows are the same and, for a bucket, the maxima. */
  predicate ReadAlike(alg: Algorithm, c: Charge, d: Charge) {
    c.windowMs == d.windowMs && (alg.TokenBucket? ==> c.max == d.max)
  }

  /** Charges on one counter read it alike. */
  predicate Agree(alg: Algorithm, charges: seq<Charge>) {
    forall i, j :: 0 <= i < |charges| && 0 <= j < |charges| && charges[i].key == charges[j].key ==>
      ReadAlike(alg, charges[i], charges[j])
  }

  /** How many of the first `n` charges are on the counter. */
  function CountOn(charges: seq<Charge>, n: nat, key: string): nat
    requires n <= |charges|
  {
    if n == 0 then 0 else CountOn(charges, n - 1, key) + if charges[n - 1].key == key then 1 else 0
  }

  lemma {:induction false} CountPrefix(charges: seq<Charge>, more: seq<Charge>, n: nat, key: string)
    requires n <= |charges|
    ensures CountOn(charges + more, n, key) == CountOn(charges, n, key)
  {
    if n > 0 {
      CountPrefix(charges, more, n - 1, key);
      assert (charges + more)[n - 1] == charges[n - 1];
    }
  }

  function Times(cost: nat, count: nat): nat {
    if count == 0 then 0 else Times(cost, count - 1) + cost
  }

  lemma {:induction false} TimesIsProduct(cost: nat, count: nat)
    ensures Times(cost, count) == cost * count
  {
    if count > 0 {
      TimesIsProduct(cost, count - 1);
      assert cost * count == cost * (count - 1) + cost;
    }
  }

  predicate CountersFit(alg: Algorithm, charges: seq<Charge>, counters: map<string, Stored>, now: int)
    requires ValidCharges(charges)
  {
    forall i :: 0 <= i < |charges| ==> Fits(alg, Lookup(counters, charges[i].key), charges[i].windowMs, now)
  }

  /** Usage, with the cost of the charge and of those before it on its counter, is within the maximum. */
  predicate WithinMax(alg: Algorithm, charges: seq<Charge>, i: nat, counters: map<string, Stored>, cost: nat, now: int)
    requires ValidAlgorithm(alg) && ValidCharges(charges) && i < |charges|
  {
    var c := charges[i];
    PeekFor(alg, c, Lookup(counters, c.key), now) + Times(cost, CountOn(charges, i + 1, c.key)) as real <= c.max as real
  }

  predicate EachWithin(alg: Algorithm, charges: seq<Charge>, counters: map<string, Stored>, cost: nat, now: int)
    requires ValidAlgorithm(alg) && ValidCharges(charges)
  {
    forall i :: 0 <= i < |charges| ==> WithinMax(alg, charges, i, counters, cost, now)
  }

  lemma WithinPrefix(alg: Algorithm, charges: seq<Charge>, c: Charge, i: nat, counters: map<string, Stored>,
                     cost: nat, now: int)
    requires ValidAlgorithm(alg) && ValidCharges(charges) && c.windowMs > 0 && i < |charges|
    ensures WithinMax(alg, charges + [c], i, counters, cost, now) == WithinMax(alg, charges, i, counters, cost, now)
  {
    CountPrefix(charges, [c], i + 1, charges[i].key);
    assert (charges + [c])[i] == charges[i];
  }

  lemma EachWithinNext(alg: Algorithm, charges: seq<Charge>, c: Charge, counters: map<string, Stored>, cost: nat,
                       now: int)
    requires ValidAlgorithm(alg) && ValidCharges(charges) && c.windowMs > 0
    ensures EachWithin(alg, charges + [c], counters, cost, now) <==>
              EachWithin(alg, charges, counters, cost, now)
              && WithinMax(alg, charges + [c], |charges|, counters, cost, now)
  {
    forall i | 0 <= i < |charges|
      ensures WithinMax(alg, charges + [c], i, counters, cost, now) == WithinMax(alg, charges, i, counters, cost, now)
    {
      WithinPrefix(alg, charges, c, i, counters, cost, now);
    }
  }

  /** What one charge adds for another that reads the counter alike. */
  lemma ChargeAdds(alg: Algorithm, c: Charge, d: Charge, rec: Option<Stored>, cost: nat, now: int)
    requires ValidAlgorithm(alg) && c.windowMs > 0 && ReadAlike(alg, c, d) && Fits(alg, rec, c.windowMs, now)
    ensures var r := ConsumeFor(alg, d, rec, cost, now);
            && Fits(alg, r.saved, c.windowMs, now)
            && (r.allowed ==> PeekFor(alg, c, r.saved, now) == PeekFor(alg, c, rec, now) + cost as real)
  {
    ConsumeAddsCost(alg, rec, d.max, d.windowMs, cost, now);
  }

  /** Each allowed charge adds its cost to what the agreeing charges see. */
  lemma {:induction false} LeftUses(
    alg: Algorithm, charges: seq<Charge>, n: nat, c: Charge, counters: map<string, Stored>, cost: nat, now: int)
    requires ValidAlgorithm(alg) && ValidCharges(charges) && n <= |charges| && c in charges && Agree(alg, charges)
    requires CountersFit(alg, charges, counters, now)
    requires forall i :: 0 <= i < n ==> AllowedAt(alg, charges, i, counters, cost, now)
    ensures var left := Left(alg, charges, n, c.key, Lookup(counters, c.key), cost, now);
            && Fits(alg, left, c.windowMs, now)
            && PeekFor(alg, c, left, now)
               == PeekFor(alg, c, Lookup(counters, c.key), now) + Times(cost, CountOn(charges, n, c.key)) as real
  {
    if n > 0 {
      LeftUses(alg, charges, n - 1, c, counters, cost, now);
      if charges[n - 1].key == c.key {
        var d := charges[n - 1];
        var before := Left(alg, charges, n - 1, c.key, Lookup(counters, c.key), cost, now);
        assert AllowedAt(alg, charges, n - 1, counters, cost, now) && ReadAlike(alg, c, d);
        ChargeAdds(alg, c, d, before, cost, now);
      }
    }
  }

  lemma OneMore(charges: seq<Charge>, i: nat, cost: nat)
    requires i < |charges|
    ensures Times(cost, CountOn(charges, i + 1, charges[i].key))
            == Times(cost, CountOn(charges, i, charges[i].key)) + cost
  {
    assert CountOn(charges, i + 1, charges[i].key) == CountOn(charges, i, charges[i].key) + 1;
  }

  lemma AllowedIffWithinMax(
    alg: Algorithm, charges: seq<Charge>, i: nat, counters: map<string, Stored>, cost: nat, now: int)
    requires ValidAlgorithm(alg) && ValidCharges(charges) && i < |charges| && Agree(alg, charges)
    requires CountersFit(alg, charges, counters, now)
    requires forall j :: 0 <= j < i ==> AllowedAt(alg, charges, j, counters, cost, now)
    ensures AllowedAt(alg, charges, i, counters, cost, now) <==> WithinMax(alg, charges, i, counters, cost, now)
  {
    var c := charges[i];
    OneMore(charges, i, cost);
    LeftUses(alg, charges, i, c, counters, cost, now);
    var left := Left(alg, charges, i, c.key, Lookup(counters, c.key), cost, now);
    ConsumeAddsCost(alg, left, c.max, c.windowMs, cost, now);
  }

  lemma {:induction false} EachAllowedIffWithinMax(
    alg: Algorithm, charges: seq<Charge>, n: nat, counters: map<string, Stored>, cost: nat, now: int)
    requires ValidAlgorithm(alg) && ValidCharges(charges) && n <= |charges| && Agree(alg, charges)
    requires CountersFit(alg, charges, counters, now)
    ensures (forall i :: 0 <= i < n ==> AllowedAt(alg, charges, i, counters, cost, now)) <==>
            (forall i :: 0 <= i < n ==> WithinMax(alg, charges, i, counters, cost, now))
  {
    if n > 0 {
      EachAllowedIffWithinMax(alg, charges, n - 1, counters, cost, now);
      if forall i :: 0 <= i < n - 1 ==> AllowedAt(alg, charges, i, counters, cost, now) {
        AllowedIffWithinMax(alg, charges, n - 1, counters, cost, now);
      }
    }
  }

  /**
   With tiers that agree wherever they share a counter, the commit refuses nothing if and only if, for each
   tier, its usage and the cost times the number of tiers up to it on its counter are within its maximum.
  */
  lemma NothingRefusedIff(alg: Algorithm, charges: seq<Charge>, counters: map<string, Stored>, cost: nat, now: int)
    requires ValidAlgorithm(alg) && ValidCharges(charges) && Agree(alg, charges)
    requires CountersFit(alg, charges, counters, now)
    ensures Commit(alg, charges, |charges|, counters, cost, now).1.None? <==>
              EachWithin(alg, charges, counters, cost, now)
  {
    NothingRefusedIffEachAllowed(alg, charges, |charges|, counters, cost, now);
    EachAllowedIffWithinMax(alg, charges, |charges|, counters, cost, now);
  }

  /**
   With different maxima on one counter the sum does not decide: a bucket of one token is left empty for the
   tier of five, although its own usage and both costs are far below its maximum.
  */
  lemma DifferentMaximaBreakTheSum()
    ensures var (alg, charges) := (TokenBucket(1.0, 1.0), [Charge("k", 1, 1), Charge("k", 5, 1)]);
            && WithinMax(alg, charges, 0, map[], 1, 0) && WithinMax(alg, charges, 1, map[], 1, 0)
            && Commit(alg, charges, 2, map[], 1, 0).1 == Some(1)
  {
    var alg, charges := TokenBucket(1.0, 1.0), [Charge("k", 1, 1), Charge("k", 5, 1)];
    assert Commit(alg, charges, 0, map[], 1, 0) == (map[], None);
    var first := Commit(alg, charges, 1, map[], 1, 0);
    assert first == (map["k" := Bucket(0.0, 0.0)], None);
    assert CountOn(charges, 1, "k") == 1 && CountOn(charges, 2, "k") == 2;
    assert Times(1, 1) == 1 && Times(1, 2) == 2;
  }

  lemma EntriesInWindows()
    ensures After([0, 0], 490) == [] && After([0, 0], -500) == [0, 0] && After([500], -500) == [500]
    ensures Repeat(500, 1) == [500] && Times(1, 2) == 2
  {
    assert [0, 0][1..] == [0] && [0][1..] == [] && [500][1..] == [];
    assert Repeat(500, 1) == [500] + Repeat(500, 0);
    assert Times(1, 2) == Times(1, 1) + 1;
  }

  /** The charge of the short window leaves its own entry alone. */
  lemma ShortWindowDropsEntries()
    ensures var (charges, counters) := ([Charge("k", 3, 10), Charge("k", 3, 1000)], map["k" := Entries([0, 0])]);
            Commit(SlidingWindow, charges, 1, counters, 1, 500) == (counters["k" := Entries([500])], None)
  {
    var charges, counters := [Charge("k", 3, 10), Charge("k", 3, 1000)], map["k" := Entries([0, 0])];
    EntriesInWindows();
    assert [] + [500] == [500];
    assert Commit(SlidingWindow, charges, 0, counters, 1, 500) == (counters, None);
  }

  /** Counted over the long window, usage and both costs exceed the maximum. */
  lemma LongWindowIsFull()
    ensures var (charges, counters) := ([Charge("k", 3, 10), Charge("k", 3, 1000)], map["k" := Entries([0, 0])]);
            !WithinMax(SlidingWindow, charges, 1, counters, 1, 500)
  {
    var charges := [Charge("k", 3, 10), Charge("k", 3, 1000)];
    EntriesInWindows();
    assert CountOn(charges, 1, "k") == 1 && CountOn(charges, 2, "k") == 2;
  }

  /**
   Nor does it with different windows: the tier of the short window drops entries that the tier of the long
   one would count, and both are charged although usage and both costs exceed the maximum.
  */
  lemma DifferentWindowsBreakTheSum()
    ensures var (charges, counters) := ([Charge("k", 3, 10), Charge("k", 3, 1000)], map["k" := Entries([0, 0])]);
            && !WithinMax(SlidingWindow, charges, 1, counters, 1, 500)
            && Commit(SlidingWindow, charges, 2, counters, 1, 500).1 == None
  {
    var charges, counters := [Charge("k", 3, 10), Charge("k", 3, 1000)], map["k" := Entries([0, 0])];
    EntriesInWindows();
    LongWindowIsFull();
    ShortWindowDropsEntries();
  }
}
