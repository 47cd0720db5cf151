/**
 The LRU cache over an insertion-ordered map. The map is the sequence of its entries, oldest first,
 with distinct keys: deleting and re-inserting a key moves it to the end.
*/
module Lru {
  import opened Wrappers

  datatype Entry<T> = Entry(key: string, value: T, sizeBytes: int)

  ghost function Keys<T>(es: seq<Entry<T>>): set<string> {
    set e | e in es :: e.key
  }

  predicate Distinct<T>(es: seq<Entry<T>>) {
    forall i, j :: 0 <= i < j < |es| ==> es[i].key != es[j].key
  }

  lemma HeadTail<T>(es: seq<Entry<T>>)
    requires es != []
    ensures forall e :: e in es <==> e == es[0] || e in es[1..]
    ensures Keys(es) == {es[0].key} + Keys(es[1..])
    ensures Distinct(es) <==> es[0].key !in Keys(es[1..]) && Distinct(es[1..])
  {
    assert es == [es[0]] + es[1..];
    assert forall i :: 0 <= i < |es[1..]| ==> es[1..][i] == es[i + 1];
    if es[0].key !in Keys(es[1..]) && Distinct(es[1..]) {
      forall i, j | 0 <= i < j < |es|
        ensures es[i].key != es[j].key
      {
        assert es[j] == es[1..][j - 1];
        assert i > 0 ==> es[i] == es[1..][i - 1];
      }
    }
  }

  /** The entries whose key is not in `ks`, in order. */
  function Drop<T>(es: seq<Entry<T>>, ks: set<string>): seq<Entry<T>> {
    if es == [] then []
    else (if es[0].key in ks then [] else [es[0]]) + Drop(es[1..], ks)
  }

  /** `map.get(key)` */
  function Find<T>(es: seq<Entry<T>>, key: string): (r: Option<Entry<T>>)
    ensures r.Some? ==> r.value in es && r.value.key == key
    ensures r.Some? <==> key in Keys(es)
  {
    if es == [] then None
    else if es[0].key == key then Some(es[0])
    else
      HeadTail(es);
      Find(es[1..], key)
  }

  /** The newest `max` entries. */
  function Newest<T>(es: seq<Entry<T>>, max: nat): seq<Entry<T>> {
    if |es| <= max then es else es[|es| - max..]
  }

  // ---------- What each call does to the order ----------

  function Touched<T>(es: seq<Entry<T>>, key: string): seq<Entry<T>> {
    match Find(es, key)
    case None => es
    case Some(e) => Drop(es, {key}) + [e]
  }

  function Inserted<T>(es: seq<Entry<T>>, e: Entry<T>, max: nat): seq<Entry<T>> {
    Newest(Drop(es, {e.key}) + [e], max)
  }

  class LruCache<T> {
    const maxItems: nat
    var map_: seq<Entry<T>>

    ghost predicate Valid()
      reads this
    {
      Distinct(map_) && |map_| <= maxItems
    }

    constructor (maxItems: nat)
      ensures Valid() && map_ == [] && this.maxItems == maxItems
    {
      this.maxItems := maxItems;
      map_ := [];
    }

    method Get(key: string) returns (value: Option<T>)
      requires Valid()
      modifies this
      ensures Valid() && map_ == Touched(old(map_), key)
      ensures value == match Find(old(map_), key) case None => None case Some(e) => Some(e.value)
      ensures value.None? ==> map_ == old(map_)
      ensures value.Some? ==>
                && |map_| == |old(map_)| && map_[|map_| - 1].key == key && map_[|map_| - 1].value == value.value
                && map_[..|map_| - 1] == Drop(old(map_), {key})
    {
      var entry := Find(map_, key);
      if entry.None? {
        return None;
      }
      DropFacts(map_, {key});
      DropOne(map_, key);
      map_ := Drop(map_, {key});
      map_ := map_ + [entry.value];
      return Some(entry.value.value);
    }

    method Set(key: string, value: T, sizeBytes: int) returns (evicted: seq<string>)
      requires Valid()
      modifies this
      ensures Valid() && map_ == Inserted(old(map_), Entry(key, value, sizeBytes), maxItems)
      ensures var all := Drop(old(map_), {key}) + [Entry(key, value, sizeBytes)];
        && |evicted| + |map_| == |all|
        && forall i :: 0 <= i < |evicted| ==> evicted[i] == all[i].key
    {
      if Find(map_, key).Some? {
        DropFacts(map_, {key});
        map_ := Drop(map_, {key});
      } else {
        DropAbsent(map_, {key});
      }
      map_ := map_ + [Entry(key, value, sizeBytes)];
      evicted := EvictOldest();
    }

    /** The loop of `set`. */
    method EvictOldest() returns (evicted: seq<string>)
      requires Distinct(map_)
      modifies this
      ensures Valid() && map_ == Newest(old(map_), maxItems)
      ensures |evicted| + |map_| == |old(map_)|
      ensures forall i :: 0 <= i < |evicted| ==> evicted[i] == old(map_)[i].key
    {
      ghost var all := map_;
      evicted := [];
      while |map_| > maxItems
        invariant |evicted| <= |all| && map_ == all[|evicted|..]
        invariant |map_| >= maxItems || evicted == []
        invariant forall i :: 0 <= i < |evicted| ==> evicted[i] == all[i].key
        invariant Distinct(map_)
        modifies this
      {
        var oldest := map_[0].key;
        DropHead(map_);
        map_ := Drop(map_, {oldest});
        evicted := evicted + [oldest];
      }
    }

    method Delete(key: string) returns (deleted: bool)
      requires Valid()
      modifies this
      ensures Valid() && map_ == Drop(old(map_), {key})
      ensures deleted <==> key in Keys(old(map_))
    {
      deleted := Find(map_, key).Some?;
      DropFacts(map_, {key});
      map_ := Drop(map_, {key});
    }

    method Clear() returns (count: nat)
      requires Valid()
      modifies this
      ensures Valid() && map_ == [] && count == |old(map_)|
    {
      count := |map_|;
      map_ := [];
    }
  }

  // ---------- Facts about dropping ----------

  lemma {:induction false} DropMembers<T>(es: seq<Entry<T>>, ks: set<string>)
    ensures forall e :: e in Drop(es, ks) <==> e in es && e.key !in ks
    ensures |Drop(es, ks)| <= |es|
  {
    if es != [] {
      HeadTail(es);
      DropMembers(es[1..], ks);
    }
  }

  lemma DropKeys<T>(es: seq<Entry<T>>, ks: set<string>)
    ensures Keys(Drop(es, ks)) == Keys(es) - ks
  {
    DropMembers(es, ks);
    forall k | k in Keys(es) - ks
      ensures k in Keys(Drop(es, ks))
    {
      var e :| e in es && e.key == k;
      assert e in Drop(es, ks);
    }
    forall k | k in Keys(Drop(es, ks))
      ensures k in Keys(es) - ks
    {
      var e :| e in Drop(es, ks) && e.key == k;
      assert e in es;
    }
  }

  lemma {:induction false} DropDistinct<T>(es: seq<Entry<T>>, ks: set<string>)
    requires Distinct(es)
    ensures Distinct(Drop(es, ks))
  {
    if es != [] {
      HeadTail(es);
      DropDistinct(es[1..], ks);
      var rest := Drop(es[1..], ks);
      if es[0].key !in ks {
        DropKeys(es[1..], ks);
        assert ([es[0]] + rest)[1..] == rest;
        HeadTail([es[0]] + rest);
      } else {
        assert Drop(es, ks) == rest;
      }
    }
  }

  lemma DropFacts<T>(es: seq<Entry<T>>, ks: set<string>)
    ensures forall e :: e in Drop(es, ks) <==> e in es && e.key !in ks
    ensures Keys(Drop(es, ks)) == Keys(es) - ks
    ensures Distinct(es) ==> Distinct(Drop(es, ks))
    ensures |Drop(es, ks)| <= |es|
  {
    DropMembers(es, ks);
    DropKeys(es, ks);
    if Distinct(es) {
      DropDistinct(es, ks);
    }
  }

  lemma {:induction false} DropAbsent<T>(es: seq<Entry<T>>, ks: set<string>)
    requires Keys(es) !! ks
    ensures Drop(es, ks) == es
  {
    if es != [] {
      HeadTail(es);
      DropAbsent(es[1..], ks);
    }
  }

  lemma DropHead<T>(es: seq<Entry<T>>)
    requires es != [] && Distinct(es)
    ensures Drop(es, {es[0].key}) == es[1..]
  {
    HeadTail(es);
    DropAbsent(es[1..], {es[0].key});
  }

  lemma {:induction false} DropOne<T>(es: seq<Entry<T>>, key: string)
    requires Distinct(es)
    ensures |Drop(es, {key})| == if key in Keys(es) then |es| - 1 else |es|
  {
    if key !in Keys(es) {
      DropAbsent(es, {key});
    } else {
      HeadTail(es);
      if es[0].key == key {
        DropHead(es);
      } else {
        DropOne(es[1..], key);
      }
    }
  }

  // ---------- Dropping composes ----------

  lemma {:induction false} DropTwice<T>(es: seq<Entry<T>>, a: set<string>, b: set<string>)
    ensures Drop(Drop(es, a), b) == Drop(es, a + b)
  {
    if es != [] {
      DropTwice(es[1..], a, b);
      var rest := Drop(es[1..], a);
      if es[0].key !in a {
        assert ([es[0]] + rest)[1..] == rest;
      } else {
        assert [] + rest == rest;
      }
    }
  }

  lemma Associative<T>(a: seq<Entry<T>>, b: seq<Entry<T>>, c: seq<Entry<T>>)
    ensures a + (b + c) == a + b + c
  {
  }

  lemma {:induction false} DropAppend<T>(es: seq<Entry<T>>, e: Entry<T>, ks: set<string>)
    ensures Drop(es + [e], ks) == Drop(es, ks) + if e.key in ks then [] else [e]
  {
    if es == [] {
      assert es + [e] == [e];
      assert [e][1..] == [];
    } else {
      DropAppend(es[1..], e, ks);
      assert (es + [e])[0] == es[0] && (es + [e])[1..] == es[1..] + [e];
      Associative(if es[0].key in ks then [] else [es[0]], Drop(es[1..], ks), if e.key in ks then [] else [e]);
    }
  }

  lemma PushSizes<T>(es: seq<Entry<T>>, e: Entry<T>)
    requires Distinct(es)
    ensures Distinct(Drop(es, {e.key}) + [e])
    ensures |Drop(es, {e.key}) + [e]| == if e.key in Keys(es) then |es| else |es| + 1
  {
    DropFacts(es, {e.key});
    DropOne(es, e.key);
    var rest := Drop(es, {e.key});
    assert forall i :: 0 <= i < |rest| ==> rest[i] in rest;
    assert forall i :: 0 <= i < |rest| ==> rest[i].key in Keys(rest);
  }
}
