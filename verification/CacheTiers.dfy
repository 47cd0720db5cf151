/**
 What each call of the cache leaves in the two tiers and in the tag records, entry by entry.
*/
module CacheTiers {
  import opened Wrappers
  import opened CacheState
  import opened CacheRefinement
  import L = Lru

  /** The newest entry of L1 is that of the key, and holds the record. */
  ghost predicate IsNewest(l1: seq<L.Entry<Record>>, key: string, r: Record) {
    l1 != [] && l1[|l1| - 1].key == key && l1[|l1| - 1].value == r
  }

  ghost predicate InNeither(s: State, key: string) {
    key !in L.Keys(s.l1) && key !in s.l2 && forall t :: t in s.index ==> key !in s.index[t]
  }

  // ---------- Writing ----------

  /** A `set` leaves the value with its times in L2, newest in L1, and listed under each of its tags. */
  lemma SetStores(cfg: Config, s: State, key: string, value: Value, tags: seq<string>, ttlMs: int, size: int, now: int)
    requires Inv(cfg, s)
    ensures var t := CacheRefinement.Step(cfg, s, Call(OpSet(true, key, value, tags, ttlMs, size), now));
            var r := Record(value, tags, now, now + ttlMs, now + ttlMs + cfg.graceMs, size);
            && t.l2 == s.l2[key := r]
            && (cfg.l1Enabled && cfg.maxItems > 0 ==> IsNewest(t.l1, key, r))
            && (!cfg.l1Enabled ==> t.l1 == s.l1)
            && (forall tag :: tag in tags ==> tag in t.index && key in t.index[tag])
            && (forall tag, k :: tag in t.index && k in t.index[tag] && (k != key || tag !in tags) ==>
                  tag in s.index && k in s.index[tag])
            && (forall tag, k :: tag in s.index && k in s.index[tag] ==> tag in t.index && k in t.index[tag])
  {
    var r := Record(value, tags, now, now + ttlMs, now + ttlMs + cfg.graceMs, size);
    PutIsNewest(cfg, s.l1, key, r);
    ListedIsAdded(s.index, tags, key);
  }

  /** A disabled instance writes nothing and answers nothing. */
  lemma DisabledDoesNothing(cfg: Config, s: State, key: string, value: Value, tags: seq<string>, ttlMs: int, size: int,
                            now: int)
    ensures CacheRefinement.Step(cfg, s, Call(OpSet(false, key, value, tags, ttlMs, size), now)) == s
    ensures CacheRefinement.Step(cfg, s, Call(OpGet(false, key), now)) == s
    ensures Answer(cfg, s, Call(OpGet(false, key), now)) == Null
  {
  }

  lemma PutIsNewest(cfg: Config, l1: seq<L.Entry<Record>>, key: string, r: Record)
    requires L.Distinct(l1)
    ensures cfg.l1Enabled && cfg.maxItems > 0 ==> IsNewest(ToL1(cfg, l1, key, r), key, r)
  {
    var entry := L.Entry(key, r, r.sizeBytes);
    var all := L.Drop(l1, {key}) + [entry];
    assert all[|all| - 1] == entry;
  }

  lemma ListedIsAdded(index: map<string, set<string>>, tags: seq<string>, key: string)
    ensures var after := Listed(index, tags, key);
            && (forall tag :: tag in tags ==> tag in after && key in after[tag])
            && (forall tag, k :: tag in after && k in after[tag] && (k != key || tag !in tags) ==>
                  tag in index && k in index[tag])
            && (forall tag, k :: tag in index && k in index[tag] ==> tag in after && k in after[tag])
  {
    forall tag | tag in tags
      ensures tag in Listed(index, tags, key)
    {
      var i :| 0 <= i < |tags| && tags[i] == tag;
    }
  }

  // ---------- Reading ----------

  /** A `get` that answers leaves the record newest in L1 and changes neither L2 nor the tag records. */
  lemma HitIsPromoted(cfg: Config, s: State, key: string, now: int)
    requires Inv(cfg, s) && key in s.l2 && s.l2[key].staleUntil > now
    ensures var t := CacheRefinement.Step(cfg, s, Call(OpGet(true, key), now));
            && t.l2 == s.l2 && t.index == s.index
            && (cfg.l1Enabled && cfg.maxItems > 0 ==> IsNewest(t.l1, key, s.l2[key]))
    ensures Answer(cfg, s, Call(OpGet(true, key), now)) == s.l2[key].value
  {
    if cfg.l1Enabled {
      match L.Find(s.l1, key)
      case None => PromotedIsNewest(cfg, s, key);
      case Some(e) =>
        assert s.l2[key] == e.value;
        TouchedIsNewest(s.l1, key, e);
    }
  }

  lemma PromotedIsNewest(cfg: Config, s: State, key: string)
    requires L.Distinct(s.l1) && key in s.l2
    ensures cfg.l1Enabled && cfg.maxItems > 0 ==>
              IsNewest(ToL1(cfg, L.Drop(s.l1, {key}), key, s.l2[key]), key, s.l2[key])
  {
    L.DropFacts(s.l1, {key});
    PutIsNewest(cfg, L.Drop(s.l1, {key}), key, s.l2[key]);
  }

  lemma TouchedIsNewest(l1: seq<L.Entry<Record>>, key: string, e: L.Entry<Record>)
    requires L.Find(l1, key) == Some(e)
    ensures IsNewest(L.Touched(l1, key), key, e.value)
  {
    var rest := L.Drop(l1, {key});
    assert (rest + [e])[|rest|] == e;
  }

  /** A `get` that finds the record past its `staleUntil` answers nothing, and deletes it everywhere. */
  lemma ExpiredIsDeleted(cfg: Config, s: State, key: string, now: int)
    requires Inv(cfg, s) && key in s.l2 && s.l2[key].staleUntil <= now
    ensures Answer(cfg, s, Call(OpGet(true, key), now)) == Null
    ensures var t := CacheRefinement.Step(cfg, s, Call(OpGet(true, key), now));
            && t.l2 == s.l2 - {key} && key !in L.Keys(t.l1)
            && forall tag :: tag in t.index && tag in s.l2[key].tags ==> key !in t.index[tag]
  {
    NotInL1(cfg, s, key, now);
    var u := if cfg.l1Enabled then s.(l1 := L.Drop(s.l1, {key})) else s;
    L.DropFacts(s.l1, {key});
    L.DropFacts(u.l1, {key});
    assert Carriers(u.l2, {key}, "") <= {key};
  }

  lemma NotInL1(cfg: Config, s: State, key: string, now: int)
    requires Inv(cfg, s) && key in s.l2 && s.l2[key].staleUntil <= now
    ensures FromL1(cfg, s, key, now).None?
  {
    if cfg.l1Enabled && L.Find(s.l1, key).Some? {
      assert s.l2[key] == L.Find(s.l1, key).value.value;
      assert s.l2[key].expiresAt <= s.l2[key].staleUntil;
    }
  }

  // ---------- Deleting ----------

  /** What `delete` removes is in neither tier, and its tags do not list it; nothing else goes. */
  lemma DeleteRemoves(cfg: Config, s: State, key: string, now: int)
    requires Inv(cfg, s)
    ensures var t := CacheRefinement.Step(cfg, s, Call(OpDelete(key), now));
            && t.l2 == s.l2 - {key} && t.l1 == L.Drop(s.l1, {key}) && key !in L.Keys(t.l1)
            && (key in s.l2 ==> forall tag :: tag in s.l2[key].tags && tag in t.index ==> key !in t.index[tag])
            && forall tag, k :: tag in s.index && k in s.index[tag] && k != key ==> tag in t.index && k in t.index[tag]
  {
    L.DropFacts(s.l1, {key});
    forall tag, k | tag in s.index && k in s.index[tag] && k != key
      ensures tag in Unlisted(s.index, s.l2, {key}) && k in Unlisted(s.index, s.l2, {key})[tag]
    {
      assert Carriers(s.l2, {key}, tag) <= {key};
      assert k in s.index[tag] - Carriers(s.l2, {key}, tag);
    }
  }

  /** A prefix invalidation deletes exactly the keys that begin with the prefix, from both tiers. */
  lemma PrefixRemoves(cfg: Config, s: State, prefix: string, key: string, now: int)
    requires Inv(cfg, s)
    ensures var t := CacheRefinement.Step(cfg, s, Call(OpInvalidatePrefix(prefix), now));
            && (BeginsWith(key, prefix) ==> key !in t.l2 && key !in L.Keys(t.l1))
            && (!BeginsWith(key, prefix) ==>
                  && (key in t.l2 <==> key in s.l2) && (key in s.l2 ==> t.l2[key] == s.l2[key])
                  && (key in L.Keys(t.l1) <==> key in L.Keys(s.l1)))
  {
    BeginsWithIff(key, prefix);
    var keys := WithPrefix(s.l2.Keys, prefix);
    var u := Delete(s, keys);
    L.DropFacts(s.l1, keys);
    L.DropFacts(u.l1, WithPrefix(L.Keys(u.l1), prefix));
  }

  /** The key is the prefix followed by something, or by nothing. */
  ghost predicate BeginsWith(key: string, prefix: string) {
    exists rest: string :: key == prefix + rest
  }

  lemma BeginsWithIff(key: string, prefix: string)
    ensures HasPrefix(key, prefix) <==> BeginsWith(key, prefix)
  {
    if HasPrefix(key, prefix) {
      assert key == prefix + key[|prefix|..];
    }
  }

  /**
   A tag invalidation deletes exactly the keys that its tags list, from both tiers. The tags' own records go,
   and any other tag loses the deleted keys that carried it, and no other key.
  */
  lemma TagsRemove(cfg: Config, s: State, tags: seq<string>, key: string, now: int)
    requires Inv(cfg, s)
    ensures var t := CacheRefinement.Step(cfg, s, Call(OpInvalidateTags(tags), now));
            var listed := exists tag :: tag in tags && IsListed(s, tag, key);
            && (listed ==> key !in t.l2 && key !in L.Keys(t.l1))
            && (!listed ==>
                  && (key in t.l2 <==> key in s.l2) && (key in s.l2 ==> t.l2[key] == s.l2[key])
                  && (key in L.Keys(t.l1) <==> key in L.Keys(s.l1)))
            && (forall tag :: tag in tags ==> tag !in t.index)
            && (forall tag :: IsListed(t, tag, key) <==>
                  tag !in tags && IsListed(s, tag, key) && !(listed && key in s.l2 && tag in s.l2[key].tags))
  {
    var keys := ListedUnder(s.index, tags);
    assert key in keys <==> exists tag :: tag in tags && IsListed(s, tag, key);
    L.DropFacts(s.l1, keys);
    var index := s.index - set t | t in s.index && t in tags;
    forall tag
      ensures tag in Unlisted(index, s.l2, keys) && key in Unlisted(index, s.l2, keys)[tag] <==>
                tag in index && key in index[tag] && !(key in keys && key in s.l2 && tag in s.l2[key].tags)
    {
      StaysListed(index, s.l2, keys, tag, key);
    }
  }

  predicate IsListed(s: State, tag: string, key: string) {
    tag in s.index && key in s.index[tag]
  }

  lemma StaysListed(index: map<string, set<string>>, l2: map<string, Record>, keys: set<string>, tag: string,
                    key: string)
    ensures var after := Unlisted(index, l2, keys);
            tag in after && key in after[tag] <==>
              tag in index && key in index[tag] && !(key in keys && key in l2 && tag in l2[key].tags)
  {
    assert key in Carriers(l2, keys, tag) <==> key in keys && key in l2 && tag in l2[key].tags;
    if tag in index && key in index[tag] && key !in Carriers(l2, keys, tag) {
      assert key in index[tag] - Carriers(l2, keys, tag);
    }
  }

  /** Nothing is left. */
  lemma AllRemoves(cfg: Config, s: State, now: int)
    ensures CacheRefinement.Step(cfg, s, Call(OpInvalidateAll, now)) == State([], map[], map[])
  {
  }

  /** A cleanup leaves exactly what is not past its `staleUntil`, in each tier. */
  lemma CleanupRemoves(cfg: Config, s: State, now: int, key: string)
    requires Inv(cfg, s)
    ensures var t := CacheRefinement.Step(cfg, s, Call(OpCleanup, now));
            && (key in t.l2 <==> key in s.l2 && s.l2[key].staleUntil > now)
            && (key in t.l2 ==> t.l2[key] == s.l2[key])
            && (key in L.Keys(t.l1) <==> key in L.Keys(s.l1) && key in s.l2 && s.l2[key].staleUntil > now)
  {
    if key in L.Keys(s.l1) {
      CleanupOfL1(s, now, key);
    }
    L.DropKeys(s.l1, ExpiredL1(s.l1, now));
    L.DropKeys(L.Drop(s.l1, ExpiredL1(s.l1, now)), Expired(s.l2, now));
  }

  lemma CleanupOfL1(s: State, now: int, key: string)
    requires TiersAgree(s) && key in L.Keys(s.l1)
    ensures key in s.l2
    ensures key in ExpiredL1(s.l1, now) ==> s.l2[key].staleUntil <= now
  {
    var i :| 0 <= i < |s.l1| && s.l1[i].key == key;
    assert s.l1[i] in s.l1;
    if key in ExpiredL1(s.l1, now) {
      var j :| 0 <= j < |s.l1| && s.l1[j].value.staleUntil <= now && s.l1[j].key == key;
      assert s.l1[j] in s.l1;
    }
  }
}
