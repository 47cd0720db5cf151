/** On one trace of calls a smaller LRU cache holds a part of what a larger one holds. */
module LruInclusion {
  import opened Wrappers
  import opened Lru

  datatype Op<T> = GetOp(key: string) | SetOp(entry: Entry<T>) | DeleteOp(key: string) | ClearOp

  /** The order after one call, as the methods of `LruCache` leave it. */
  function Step<T>(es: seq<Entry<T>>, op: Op<T>, max: nat): seq<Entry<T>> {
    match op
    case GetOp(key) => Touched(es, key)
    case SetOp(entry) => Inserted(es, entry, max)
    case DeleteOp(key) => Drop(es, {key})
    case ClearOp => []
  }

  function Run<T>(ops: seq<Op<T>>, max: nat): seq<Entry<T>> {
    if ops == [] then [] else Step(Run(ops[..|ops| - 1], max), ops[|ops| - 1], max)
  }

  /** `small` is `large` without the entries of some keys: same values, same recency order. */
  ghost predicate PartOf<T>(small: seq<Entry<T>>, large: seq<Entry<T>>) {
    exists gone: set<string> :: small == Drop(large, gone)
  }

  ghost predicate Related<T>(small: seq<Entry<T>>, large: seq<Entry<T>>, m: nat, n: nat) {
    && Distinct(large) && |small| <= m && |large| <= n
    && PartOf(small, large)
    && |large| - |small| <= n - m
  }

  // ---------- Parts ----------

  /** The same entry moved to the end, or added, on both sides. */
  lemma PartOfPush<T>(small: seq<Entry<T>>, large: seq<Entry<T>>, e: Entry<T>)
    requires PartOf(small, large)
    ensures PartOf(Drop(small, {e.key}) + [e], Drop(large, {e.key}) + [e])
  {
    var gone :| small == Drop(large, gone);
    var others := gone - {e.key};
    DropTwice(large, gone, {e.key});
    DropTwice(large, {e.key}, others);
    assert gone + {e.key} == {e.key} + others;
    DropAppend(Drop(large, {e.key}), e, others);
    assert Drop(small, {e.key}) + [e] == Drop(Drop(large, {e.key}) + [e], others);
  }

  lemma PartOfKeys<T>(small: seq<Entry<T>>, large: seq<Entry<T>>)
    requires PartOf(small, large) && Distinct(large)
    ensures Distinct(small) && Keys(small) <= Keys(large)
    ensures forall e :: e in small ==> e in large
  {
    var gone :| small == Drop(large, gone);
    DropFacts(large, gone);
  }

  /** A key has one entry. */
  lemma SameEntry<T>(es: seq<Entry<T>>, e: Entry<T>)
    requires Distinct(es) && e in es
    ensures Find(es, e.key) == Some(e)
  {
  }

  lemma FindInPart<T>(small: seq<Entry<T>>, large: seq<Entry<T>>, key: string)
    requires PartOf(small, large) && Distinct(large)
    ensures Find(small, key).Some? ==> Find(small, key) == Find(large, key)
  {
    if Find(small, key).Some? {
      PartOfKeys(small, large);
      SameEntry(large, Find(small, key).value);
    }
  }

  // ---------- Each call ----------

  lemma GetKeeps<T>(small: seq<Entry<T>>, large: seq<Entry<T>>, m: nat, n: nat, key: string)
    requires m <= n && Related(small, large, m, n)
    ensures Related(Touched(small, key), Touched(large, key), m, n)
  {
    PartOfKeys(small, large);
    FindInPart(small, large, key);
    if Find(large, key).Some? {
      var e := Find(large, key).value;
      PushSizes(large, e);
      if Find(small, key).Some? {
        PushSizes(small, e);
        PartOfPush(small, large, e);
      } else {
        var gone :| small == Drop(large, gone);
        DropAbsent(small, {key});
        DropTwice(large, gone, {key});
        DropTwice(large, {key}, gone + {key});
        assert gone + {key} == {key} + (gone + {key});
        DropAppend(Drop(large, {key}), e, gone + {key});
        assert small == Drop(Touched(large, key), gone + {key});
      }
    }
  }

  lemma OldestStays<T>(es: seq<Entry<T>>, gone: set<string>)
    requires es != []
    ensures es[0].key !in gone ==> Drop(es, gone) != [] && Drop(es, gone)[0] == es[0]
  {
  }

  lemma EvictLarge<T>(small: seq<Entry<T>>, large: seq<Entry<T>>)
    requires PartOf(small, large) && Distinct(large) && large != []
    requires small != [] ==> small[0].key != large[0].key
    ensures PartOf(small, large[1..])
  {
    var gone :| small == Drop(large, gone);
    OldestStays(large, gone);
    assert small == Drop(large[1..], gone);
  }

  lemma EvictSmall<T>(small: seq<Entry<T>>, large: seq<Entry<T>>)
    requires PartOf(small, large) && Distinct(large) && small != []
    ensures PartOf(small[1..], large)
  {
    PartOfKeys(small, large);
    var gone :| small == Drop(large, gone);
    DropHead(small);
    DropTwice(large, gone, {small[0].key});
    assert small[1..] == Drop(large, gone + {small[0].key});
  }

  /** The oldest entry of the large cache, if the small one holds it, is the small one's oldest. */
  lemma OldestOfPart<T>(small: seq<Entry<T>>, large: seq<Entry<T>>)
    requires PartOf(small, large) && Distinct(large) && large != []
    ensures large[0].key in Keys(small) ==> small != [] && small[0] == large[0]
  {
    var gone :| small == Drop(large, gone);
    DropFacts(large, gone);
  }

  lemma SecondIsNotOldest<T>(small: seq<Entry<T>>, large: seq<Entry<T>>)
    requires PartOf(small, large) && Distinct(large) && Distinct(small) && large != []
    ensures |small| > 1 ==> small[1].key != large[0].key
  {
    OldestOfPart(small, large);
    assert |small| > 1 ==> small[1] in small && small[1].key in Keys(small);
  }

  /** After an insertion at most one entry is over on each side; the evicted ones may differ. */
  lemma NewestKeeps<T>(small: seq<Entry<T>>, large: seq<Entry<T>>, m: nat, n: nat)
    requires m <= n && PartOf(small, large) && Distinct(large)
    requires |small| <= m + 1 && |large| <= n + 1 && |large| - |small| <= n - m
    ensures PartOf(Newest(small, m), Newest(large, n))
  {
    PartOfKeys(small, large);
    var small' := Newest(small, m);
    if |small| > m {
      EvictSmall(small, large);
      assert small' == small[1..];
    }
    if |large| > n {
      assert Newest(large, n) == large[1..];
      SecondIsNotOldest(small, large);
      EvictLarge(small', large);
    }
  }

  lemma NewestRelated<T>(small: seq<Entry<T>>, large: seq<Entry<T>>, m: nat, n: nat)
    requires m <= n && PartOf(small, large) && Distinct(large)
    requires |small| <= m + 1 && |large| <= n + 1 && |large| - |small| <= n - m
    ensures Related(Newest(small, m), Newest(large, n), m, n)
  {
    NewestKeeps(small, large, m, n);
  }

  lemma SetKeeps<T>(small: seq<Entry<T>>, large: seq<Entry<T>>, m: nat, n: nat, e: Entry<T>)
    requires m <= n && Related(small, large, m, n)
    ensures Related(Inserted(small, e, m), Inserted(large, e, n), m, n)
  {
    PartOfKeys(small, large);
    PartOfPush(small, large, e);
    PushSizes(small, e);
    PushSizes(large, e);
    NewestRelated(Drop(small, {e.key}) + [e], Drop(large, {e.key}) + [e], m, n);
  }

  lemma DeleteKeeps<T>(small: seq<Entry<T>>, large: seq<Entry<T>>, m: nat, n: nat, key: string)
    requires m <= n && Related(small, large, m, n)
    ensures Related(Drop(small, {key}), Drop(large, {key}), m, n)
  {
    PartOfKeys(small, large);
    var gone :| small == Drop(large, gone);
    DropTwice(large, gone, {key});
    DropTwice(large, {key}, gone);
    assert gone + {key} == {key} + gone;
    assert Drop(small, {key}) == Drop(Drop(large, {key}), gone);
    DropFacts(large, {key});
    DropOne(small, key);
    DropOne(large, key);
  }

  // ---------- Every trace ----------

  lemma {:induction false} RunRelated<T>(ops: seq<Op<T>>, m: nat, n: nat)
    requires m <= n
    ensures Related(Run(ops, m), Run(ops, n), m, n)
  {
    if ops == [] {
      assert Drop<T>([], {}) == [];
    } else {
      var before := ops[..|ops| - 1];
      RunRelated(before, m, n);
      match ops[|ops| - 1]
      case GetOp(key) => GetKeeps(Run(before, m), Run(before, n), m, n, key);
      case SetOp(entry) => SetKeeps(Run(before, m), Run(before, n), m, n, entry);
      case DeleteOp(key) => DeleteKeeps(Run(before, m), Run(before, n), m, n, key);
      case ClearOp => assert Drop<T>([], {}) == [];
    }
  }

  /**
   Inclusion: on the same trace the smaller cache holds only keys of the larger one, with the same
   values, in the same recency order, and no call on it finds a value that the larger one misses.
  */
  lemma Inclusion<T>(ops: seq<Op<T>>, m: nat, n: nat, key: string)
    requires m <= n
    ensures Keys(Run(ops, m)) <= Keys(Run(ops, n))
    ensures PartOf(Run(ops, m), Run(ops, n))
    ensures Find(Run(ops, m), key).Some? ==> Find(Run(ops, m), key) == Find(Run(ops, n), key)
    ensures |Run(ops, m)| <= m
  {
    RunRelated(ops, m, n);
    PartOfKeys(Run(ops, m), Run(ops, n));
    FindInPart(Run(ops, m), Run(ops, n), key);
  }
}
