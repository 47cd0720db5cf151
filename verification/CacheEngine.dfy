/** The cache engine: the calls as the program makes them, over an LRU object and stored records. */
module CacheEngine {
  import opened Wrappers
  import opened CacheState
  import L = Lru

  /** The tag records after `key` was taken out of those of `tags`. */
  ghost function WithoutKey(index: map<string, set<string>>, tags: seq<string>, key: string)
    : map<string, set<string>>
  {
    map t | t in index && (t !in tags || index[t] - {key} != {}) ::
      if t in tags then index[t] - {key} else index[t]
  }

  lemma WithoutKeyIsUnlisted(index: map<string, set<string>>, l2: map<string, Record>, key: string)
    ensures Unlisted(index, l2, {key}) == if key in l2 then WithoutKey(index, l2[key].tags, key) else index
  {
    forall t: string
      ensures Carriers(l2, {key}, t) == if key in l2 && t in l2[key].tags then {key} else {}
    {
    }
    assert forall t :: t in index ==> index[t] - {} == index[t];
    assert Unlisted(index, l2, {key}).Keys == (if key in l2 then WithoutKey(index, l2[key].tags, key) else index).Keys;
  }

  lemma WithoutKeyStep(index: map<string, set<string>>, tags: seq<string>, tag: string, key: string)
    ensures WithoutKey(WithoutKey(index, tags, key), [tag], key) == WithoutKey(index, tags + [tag], key)
  {
    assert forall t :: t in tags + [tag] <==> t in tags || t == tag;
    assert forall t :: t in index ==> index[t] - {key} - {key} == index[t] - {key};
  }

  /** Deleting keys one after the other deletes them all. */
  lemma DeleteMore(s: State, done: set<string>, key: string)
    ensures Delete(Delete(s, done), {key}) == Delete(s, done + {key})
  {
    L.DropTwice(s.l1, done, {key});
    UnlistMore(s.index, s.l2, done, key);
    assert s.l2 - done - {key} == s.l2 - (done + {key});
  }

  lemma UnlistMore(index: map<string, set<string>>, l2: map<string, Record>, done: set<string>, key: string)
    ensures Unlisted(Unlisted(index, l2, done), l2 - done, {key}) == Unlisted(index, l2, done + {key})
  {
    var once := Unlisted(index, l2, done);
    var twice := Unlisted(once, l2 - done, {key});
    var both := Unlisted(index, l2, done + {key});
    forall t | t in index
      ensures t in twice <==> t in both
      ensures t in twice ==> twice[t] == both[t]
    {
      var a, b := Carriers(l2, done, t), Carriers(l2 - done, {key}, t);
      assert a + b == Carriers(l2, done + {key}, t);
      assert index[t] - a - b == index[t] - (a + b);
    }
    assert twice.Keys <= index.Keys && both.Keys <= index.Keys;
  }

  lemma DeleteNone(s: State)
    ensures Delete(s, {}) == s
  {
    L.DropAbsent(s.l1, {});
    assert forall t: string :: Carriers(s.l2, {}, t) == {};
    assert forall t :: t in s.index ==> s.index[t] - {} == s.index[t];
    assert Unlisted(s.index, s.l2, {}) == s.index;
    assert s.l2 - {} == s.l2;
  }

  class Engine {
    const cfg: Config
    const l1: L.LruCache<Record>
    var l2: map<string, Record>
    var index: map<string, set<string>>

    ghost predicate Valid()
      reads this, l1
    {
      l1.Valid() && l1.maxItems == cfg.maxItems
    }

    ghost function View(): State
      reads this, l1
    {
      State(l1.map_, l2, index)
    }

    constructor (cfg: Config)
      ensures Valid() && fresh(l1) && View() == EMPTY && this.cfg == cfg
    {
      this.cfg := cfg;
      l1 := new L.LruCache(cfg.maxItems);
      l2 := map[];
      index := map[];
    }

    // ---------- The tag index ----------

    method UpdateTagIndex(key: string, tags: seq<string>)
      modifies this`index
      ensures index == Listed(old(index), tags, key)
    {
      var i := 0;
      while i < |tags|
        invariant 0 <= i <= |tags|
        invariant index == Listed(old(index), tags[..i], key)
      {
        var keys := if tags[i] in index then index[tags[i]] else {};
        index := index[tags[i] := keys + {key}];
        ListedAppend(old(index), tags[..i], tags[i], key);
        assert tags[..i + 1] == tags[..i] + [tags[i]];
        i := i + 1;
      }
      assert tags[..i] == tags;
    }

    method RemoveKeyFromTag(tag: string, key: string)
      modifies this`index
      ensures index == WithoutKey(old(index), [tag], key)
    {
      if tag !in index {
        return;
      }
      var keys := index[tag] - {key};
      if keys == {} {
        index := index - {tag};
      } else {
        index := index[tag := keys];
      }
    }

    // ---------- Deleting ----------

    method DeleteKeyEverywhere(key: string) returns (existed: bool)
      requires Valid()
      modifies this, l1
      ensures Valid() && View() == Delete(old(View()), {key})
      ensures existed <==> key in L.Keys(old(l1.map_)) || key in old(l2)
    {
      WithoutKeyIsUnlisted(index, l2, key);
      var l1Deleted := l1.Delete(key);
      existed := l1Deleted || key in l2;
      if key in l2 {
        var tags := l2[key].tags;
        l2 := l2 - {key};
        var i := 0;
        while i < |tags|
          invariant 0 <= i <= |tags|
          invariant index == WithoutKey(old(index), tags[..i], key)
          modifies this`index
        {
          WithoutKeyStep(old(index), tags[..i], tags[i], key);
          RemoveKeyFromTag(tags[i], key);
          assert tags[..i + 1] == tags[..i] + [tags[i]];
          i := i + 1;
        }
        assert tags[..i] == tags;
      }
    }

    /** `for (const key of keys) await deleteKeyEverywhere(key)` */
    method DeleteKeys(keys: set<string>)
      requires Valid()
      modifies this, l1
      ensures Valid() && View() == Delete(old(View()), keys)
    {
      DeleteNone(View());
      var todo := keys;
      assert keys - todo == {};
      while todo != {}
        invariant Valid() && todo <= keys
        invariant View() == Delete(old(View()), keys - todo)
        modifies this, l1
      {
        var key :| key in todo;
        DeleteMore(old(View()), keys - todo, key);
        var _ := DeleteKeyEverywhere(key);
        assert keys - (todo - {key}) == keys - todo + {key};
        todo := todo - {key};
      }
      assert keys - todo == keys;
    }

    /** The L1 part of a deletion. */
    method EvictLocalKeys(keys: set<string>)
      requires Valid()
      modifies l1
      ensures Valid() && l1.map_ == L.Drop(old(l1.map_), keys)
    {
      L.DropAbsent(l1.map_, {});
      var todo := keys;
      assert keys - todo == {};
      while todo != {}
        invariant Valid() && todo <= keys
        invariant l1.map_ == L.Drop(old(l1.map_), keys - todo)
        modifies l1
      {
        var key :| key in todo;
        L.DropTwice(old(l1.map_), keys - todo, {key});
        var _ := l1.Delete(key);
        assert keys - (todo - {key}) == keys - todo + {key};
        todo := todo - {key};
      }
      assert keys - todo == keys;
    }

    // ---------- The calls ----------

    /** L1 answers with a fresh entry or one within its grace period, and drops an older one. */
    method GetL1(key: string, now: int) returns (entry: Option<Record>)
      requires Valid()
      modifies l1
      ensures Valid() && entry == FromL1(cfg, old(View()), key, now)
      ensures l1.map_ == if entry.Some? then L.Touched(old(l1.map_), key)
                         else if cfg.l1Enabled then L.Drop(old(l1.map_), {key}) else old(l1.map_)
      ensures entry.Some? ==>
                && l1.map_ != [] && l1.map_[|l1.map_| - 1].key == key && l1.map_[|l1.map_| - 1].value == entry.value
                && (entry.value.expiresAt > now || entry.value.staleUntil > now)
    {
      if !cfg.l1Enabled {
        return None;
      }
      entry := l1.Get(key);
      if entry.None? {
        L.DropAbsent(l1.map_, {key});
        return None;
      }
      if entry.value.expiresAt > now {
        return entry;
      }
      if entry.value.staleUntil > now {
        return entry;
      }
      TouchedThenDropped(old(l1.map_), key);
      var _ := l1.Delete(key);
      return None;
    }

    /** L2 answers with a record within its grace period, which goes to L1, and deletes an older one. */
    method GetL2(key: string, now: int) returns (entry: Option<Record>)
      requires Valid()
      modifies this, l1
      ensures Valid()
      ensures entry == if key in old(l2) && old(l2)[key].staleUntil > now then Some(old(l2)[key]) else None
      ensures View() == if entry.Some? then old(View()).(l1 := ToL1(cfg, old(l1.map_), key, entry.value))
                        else if key in old(l2) then Delete(old(View()), {key})
                        else old(View())
    {
      if key !in l2 {
        return None;
      }
      var record := l2[key];
      if record.staleUntil <= now {
        var _ := DeleteKeyEverywhere(key);
        return None;
      }
      if cfg.l1Enabled {
        var _ := l1.Set(key, record, record.sizeBytes);
      }
      return Some(record);
    }

    method Get(enabled: bool, key: string, now: int) returns (value: Value)
      requires Valid()
      modifies this, l1
      ensures Valid() && View() == if enabled then CacheState.Get(cfg, old(View()), key, now) else old(View())
      ensures value == if enabled then GetResult(cfg, old(View()), key, now) else Null
    {
      if !enabled {
        return Null;
      }
      var fromL1 := GetL1(key, now);
      if fromL1.Some? {
        return fromL1.value.value;
      }
      var fromL2 := GetL2(key, now);
      if fromL2.Some? {
        return fromL2.value.value;
      }
      return Null;
    }

    method Set(enabled: bool, key: string, value: Value, tags: seq<string>, ttlMs: int, sizeBytes: int, now: int)
      requires Valid()
      modifies this, l1
      ensures Valid()
      ensures View() == if enabled
                        then CacheState.Set(cfg, old(View()), key, NewRecord(cfg, value, tags, ttlMs, sizeBytes, now))
                        else old(View())
    {
      if !enabled {
        return;
      }
      var expiresAt := now + ttlMs;
      var record := Record(value, tags, now, expiresAt, expiresAt + cfg.graceMs, sizeBytes);
      if cfg.l1Enabled {
        var _ := l1.Set(key, record, sizeBytes);
      }
      l2 := l2[key := record];
      UpdateTagIndex(key, tags);
    }

    method InvalidatePrefix(prefix: string) returns (count: nat)
      requires Valid()
      modifies this, l1
      ensures Valid() && View() == CacheState.InvalidatePrefix(old(View()), prefix)
      ensures count == |WithPrefix(old(l2).Keys, prefix)|
    {
      var doomed := set k | k in l2 && HasPrefix(k, prefix);
      assert doomed == WithPrefix(l2.Keys, prefix);
      DeleteKeys(doomed);
      count := |doomed|;
      var local := set i | 0 <= i < |l1.map_| && HasPrefix(l1.map_[i].key, prefix) :: l1.map_[i].key;
      assert local == WithPrefix(L.Keys(l1.map_), prefix);
      EvictLocalKeys(local);
    }

    method InvalidateAll() returns (count: nat)
      requires Valid()
      modifies this, l1
      ensures Valid() && View() == EMPTY
      ensures count == |old(l2)|
    {
      count := |l2|;
      DeleteKeys(l2.Keys);
      index := map[];
      var _ := l1.Clear();
    }

    method CleanupExpired(now: int) returns (evicted: nat)
      requires Valid()
      modifies this, l1
      ensures Valid() && View() == CacheState.CleanupExpired(old(View()), now)
      ensures evicted == |ExpiredL1(old(l1.map_), now)| + |Expired(old(l2), now)|
    {
      var local := set i | 0 <= i < |l1.map_| && l1.map_[i].value.staleUntil <= now :: l1.map_[i].key;
      EvictLocalKeys(local);
      var doomed := set k | k in l2 && l2[k].staleUntil <= now;
      DeleteKeys(doomed);
      evicted := |local| + |doomed|;
    }

    method InvalidateTags(tags: seq<string>) returns (count: nat)
      requires Valid()
      modifies this, l1
      ensures Valid() && View() == CacheState.InvalidateTags(old(View()), tags)
      ensures count == |ListedUnder(old(index), tags)|
    {
      var keys: set<string> := {};
      var i := 0;
      while i < |tags|
        invariant 0 <= i <= |tags|
        invariant keys == ListedUnder(old(index), tags[..i])
        invariant index == old(index) - (set t | t in old(index) && t in tags[..i])
        modifies this`index
      {
        assert tags[..i + 1] == tags[..i] + [tags[i]];
        if tags[i] in index {
          keys := keys + index[tags[i]];
        }
        index := index - {tags[i]};
        i := i + 1;
      }
      assert tags[..i] == tags;
      ghost var collected := View();
      DeleteKeys(keys);
      L.DropTwice(collected.l1, keys, keys);
      assert keys + keys == keys;
      EvictLocalKeys(keys);
      count := |keys|;
    }
  }

  lemma TouchedThenDropped(l1: seq<L.Entry<Record>>, key: string)
    ensures L.Drop(L.Touched(l1, key), {key}) == L.Drop(l1, {key})
  {
    if L.Find(l1, key).Some? {
      L.DropTwice(l1, {key}, {key});
      L.DropAppend(L.Drop(l1, {key}), L.Find(l1, key).value, {key});
      assert {key} + {key} == {key};
    }
  }

  lemma ListedAppend(index: map<string, set<string>>, tags: seq<string>, tag: string, key: string)
    ensures var before := Listed(index, tags, key);
            Listed(index, tags + [tag], key) == before[tag := KeysOf(before, tag) + {key}]
  {
    var before, longer := Listed(index, tags, key), tags + [tag];
    assert longer[|tags|] == tag && forall i :: 0 <= i < |tags| ==> longer[i] == tags[i];
    assert forall t :: t in longer <==> t in tags || t == tag;
    assert Listed(index, longer, key).Keys == before.Keys + {tag};
  }
}
