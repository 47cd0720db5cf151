/**
 The two tiers together answer like one flat map of records with an expiry, whatever the size of L1,
 and the tag records list every key that a tag invalidation has to reach.
*/
module CacheRefinement {
  import opened Wrappers
  import opened CacheState
  import L = Lru

  datatype Op =
    | OpGet(enabled: bool, key: string)
    | OpSet(enabled: bool, key: string, value: Value, tags: seq<string>, ttlMs: int, sizeBytes: int)
    | OpDelete(key: string)
    | OpInvalidatePrefix(prefix: string)
    | OpInvalidateAll
    | OpInvalidateTags(tags: seq<string>)
    | OpCleanup

  /** A call and the time at which it is made. */
  datatype Call = Call(op: Op, now: int)

  ghost function Step(cfg: Config, s: State, c: Call): State {
    match c.op
    case OpGet(enabled, key) => if enabled then Get(cfg, s, key, c.now) else s
    case OpSet(enabled, key, value, tags, ttlMs, sizeBytes) =>
      if enabled then Set(cfg, s, key, NewRecord(cfg, value, tags, ttlMs, sizeBytes, c.now)) else s
    case OpDelete(key) => Delete(s, {key})
    case OpInvalidatePrefix(prefix) => InvalidatePrefix(s, prefix)
    case OpInvalidateAll => InvalidateAll(s)
    case OpInvalidateTags(tags) => InvalidateTags(s, tags)
    case OpCleanup => CleanupExpired(s, c.now)
  }

  /** What a call answers; only `get` answers a value. */
  ghost function Answer(cfg: Config, s: State, c: Call): Value {
    match c.op
    case OpGet(enabled, key) => if enabled then GetResult(cfg, s, key, c.now) else Null
    case _ => Null
  }

  ghost function Run(cfg: Config, calls: seq<Call>): State {
    if calls == [] then EMPTY else Step(cfg, Run(cfg, calls[..|calls| - 1]), calls[|calls| - 1])
  }

  ghost function Answers(cfg: Config, calls: seq<Call>): seq<Value> {
    if calls == [] then []
    else
      var before := calls[..|calls| - 1];
      Answers(cfg, before) + [Answer(cfg, Run(cfg, before), calls[|calls| - 1])]
  }

  // ---------- The flat map ----------

  /** One unbounded map without tiers: nothing is ever evicted, and expiry is only looked at by `get`. */
  ghost function FlatStep(graceMs: nat, flat: map<string, Record>, c: Call): map<string, Record> {
    match c.op
    case OpSet(enabled, key, value, tags, ttlMs, sizeBytes) =>
      if enabled
      then flat[key := Record(value, tags, c.now, c.now + ttlMs, c.now + ttlMs + graceMs, sizeBytes)]
      else flat
    case OpDelete(key) => flat - {key}
    case OpInvalidatePrefix(prefix) => flat - WithPrefix(flat.Keys, prefix)
    case OpInvalidateAll => map[]
    case OpInvalidateTags(tags) => flat - CarriersOf(flat, tags)
    case _ => flat
  }

  ghost function FlatAnswer(flat: map<string, Record>, c: Call): Value {
    if c.op.OpGet? && c.op.enabled && c.op.key in flat && flat[c.op.key].staleUntil > c.now
    then flat[c.op.key].value
    else Null
  }

  ghost function FlatRun(graceMs: nat, calls: seq<Call>): map<string, Record> {
    if calls == [] then map[] else FlatStep(graceMs, FlatRun(graceMs, calls[..|calls| - 1]), calls[|calls| - 1])
  }

  ghost function FlatAnswers(graceMs: nat, calls: seq<Call>): seq<Value> {
    if calls == [] then []
    else
      var before := calls[..|calls| - 1];
      FlatAnswers(graceMs, before) + [FlatAnswer(FlatRun(graceMs, before), calls[|calls| - 1])]
  }

  // ---------- Invariant ----------

  /** Every L1 entry equals its L2 record. */
  ghost predicate TiersAgree(s: State) {
    forall e :: e in s.l1 ==> e.key in s.l2 && s.l2[e.key] == e.value
  }

  /** Every key is listed under each tag of its record. */
  ghost predicate TagsComplete(s: State) {
    forall k, t :: k in s.l2 && t in s.l2[k].tags ==> t in s.index && k in s.index[t]
  }

  ghost predicate Inv(cfg: Config, s: State) {
    && TiersAgree(s)
    && TagsComplete(s)
    && L.Distinct(s.l1)
    && (!cfg.l1Enabled ==> s.l1 == [])
    && (forall k :: k in s.l2 ==> s.l2[k].expiresAt <= s.l2[k].staleUntil)
  }

  lemma NewestMembers<T>(es: seq<L.Entry<T>>, max: nat)
    requires L.Distinct(es)
    ensures L.Distinct(L.Newest(es, max))
    ensures forall e :: e in L.Newest(es, max) ==> e in es
  {
  }

  /** What L1 holds after a record was put into it: that record, and older entries of other keys. */
  lemma ToL1Members(cfg: Config, l1: seq<L.Entry<Record>>, key: string, r: Record)
    requires L.Distinct(l1) && cfg.l1Enabled
    ensures L.Distinct(ToL1(cfg, l1, key, r))
    ensures forall e :: e in ToL1(cfg, l1, key, r) ==>
              e == L.Entry(key, r, r.sizeBytes) || (e in l1 && e.key != key)
  {
    var entry := L.Entry(key, r, r.sizeBytes);
    L.PushSizes(l1, entry);
    L.DropFacts(l1, {key});
    NewestMembers(L.Drop(l1, {key}) + [entry], cfg.maxItems);
  }

  lemma DeleteKeeps(cfg: Config, s: State, keys: set<string>)
    requires Inv(cfg, s)
    ensures Inv(cfg, Delete(s, keys))
  {
    L.DropFacts(s.l1, keys);
    var t := Delete(s, keys);
    forall k, tag | k in t.l2 && tag in t.l2[k].tags
      ensures tag in t.index && k in t.index[tag]
    {
      assert k in s.l2 && k !in Carriers(s.l2, keys, tag);
      assert k in s.index[tag] - Carriers(s.l2, keys, tag);
    }
  }

  lemma DropL1Keeps(cfg: Config, s: State, keys: set<string>)
    requires Inv(cfg, s)
    ensures Inv(cfg, s.(l1 := L.Drop(s.l1, keys)))
  {
    L.DropFacts(s.l1, keys);
  }

  lemma TouchKeeps(cfg: Config, s: State, key: string)
    requires Inv(cfg, s)
    ensures Inv(cfg, s.(l1 := L.Touched(s.l1, key)))
  {
    if L.Find(s.l1, key).Some? {
      L.DropFacts(s.l1, {key});
      L.PushSizes(s.l1, L.Find(s.l1, key).value);
    }
  }

  lemma GetKeeps(cfg: Config, s: State, key: string, now: int)
    requires Inv(cfg, s)
    ensures Inv(cfg, Get(cfg, s, key, now))
  {
    if FromL1(cfg, s, key, now).Some? {
      TouchKeeps(cfg, s, key);
    } else {
      DropL1Keeps(cfg, s, {key});
      var t := if cfg.l1Enabled then s.(l1 := L.Drop(s.l1, {key})) else s;
      DeleteKeeps(cfg, t, {key});
      if key in t.l2 && cfg.l1Enabled {
        ToL1Members(cfg, t.l1, key, t.l2[key]);
      }
    }
  }

  lemma SetKeeps(cfg: Config, s: State, key: string, r: Record)
    requires Inv(cfg, s) && r.expiresAt <= r.staleUntil
    ensures Inv(cfg, Set(cfg, s, key, r))
  {
    if cfg.l1Enabled {
      ToL1Members(cfg, s.l1, key, r);
    }
    assert TagsComplete(Set(cfg, s, key, r)) by {
      assert forall i :: 0 <= i < |r.tags| ==> r.tags[i] in r.tags;
    }
  }

  /** Dropping tag records loses completeness for a moment; deleting the keys they listed restores it. */
  lemma InvalidateTagsKeeps(cfg: Config, s: State, tags: seq<string>)
    requires Inv(cfg, s)
    ensures Inv(cfg, InvalidateTags(s, tags))
    ensures forall k, t :: k in InvalidateTags(s, tags).l2 && t in tags ==> t !in InvalidateTags(s, tags).l2[k].tags
  {
    var keys := ListedUnder(s.index, tags);
    var after := InvalidateTags(s, tags);
    L.DropFacts(s.l1, keys);
    forall k, t | k in after.l2 && t in after.l2[k].tags
      ensures t !in tags && t in after.index && k in after.index[t]
    {
      assert k in s.l2 && k !in keys && k in s.index[t];
      assert t !in tags;
      assert k in s.index[t] - Carriers(s.l2, keys, t);
    }
  }

  lemma StepKeeps(cfg: Config, s: State, c: Call)
    requires Inv(cfg, s)
    ensures Inv(cfg, Step(cfg, s, c))
  {
    match c.op
    case OpGet(_, key) => GetKeeps(cfg, s, key, c.now);
    case OpSet(_, key, value, tags, ttlMs, sizeBytes) =>
      SetKeeps(cfg, s, key, NewRecord(cfg, value, tags, ttlMs, sizeBytes, c.now));
    case OpDelete(key) => DeleteKeeps(cfg, s, {key});
    case OpInvalidatePrefix(prefix) =>
      var t := Delete(s, WithPrefix(s.l2.Keys, prefix));
      DeleteKeeps(cfg, s, WithPrefix(s.l2.Keys, prefix));
      DropL1Keeps(cfg, t, WithPrefix(L.Keys(t.l1), prefix));
    case OpInvalidateAll =>
    case OpInvalidateTags(tags) => InvalidateTagsKeeps(cfg, s, tags);
    case OpCleanup =>
      DropL1Keeps(cfg, s, ExpiredL1(s.l1, c.now));
      DeleteKeeps(cfg, s.(l1 := L.Drop(s.l1, ExpiredL1(s.l1, c.now))), Expired(s.l2, c.now));
  }

  lemma {:induction false} RunKeeps(cfg: Config, calls: seq<Call>)
    ensures Inv(cfg, Run(cfg, calls))
  {
    if calls != [] {
      RunKeeps(cfg, calls[..|calls| - 1]);
      StepKeeps(cfg, Run(cfg, calls[..|calls| - 1]), calls[|calls| - 1]);
    }
  }

  // ---------- Tag invalidation reaches every key ----------

  /** After any calls, `invalidateTags` leaves no entry with one of the tags in either tier. */
  lemma InvalidateTagsReachesAll(cfg: Config, calls: seq<Call>, tags: seq<string>)
    ensures var s := InvalidateTags(Run(cfg, calls), tags);
      && (forall k, t :: k in s.l2 && t in tags ==> t !in s.l2[k].tags)
      && (forall e, t :: e in s.l1 && t in tags ==> t !in e.value.tags)
  {
    RunKeeps(cfg, calls);
    InvalidateTagsKeeps(cfg, Run(cfg, calls), tags);
  }

  // ---------- Tag invalidation reaches no other key ----------

  predicate CarriesOne(r: Record, tags: seq<string>) {
    exists t :: t in tags && t in r.tags
  }

  /** The keys whose record carries one of the tags. */
  ghost function CarriersOf(l2: map<string, Record>, tags: seq<string>): set<string> {
    set k | k in l2 && CarriesOne(l2[k], tags)
  }

  /** Every stored key that is listed under one of the tags carries one of them. */
  ghost predicate OnlyCarriersListed(s: State, tags: seq<string>) {
    forall k :: k in ListedUnder(s.index, tags) && k in s.l2 ==> CarriesOne(s.l2[k], tags)
  }

  lemma CarriersAreListed(s: State, tags: seq<string>)
    requires TagsComplete(s)
    ensures CarriersOf(s.l2, tags) <= ListedUnder(s.index, tags)
  {
    forall k | k in CarriersOf(s.l2, tags)
      ensures k in ListedUnder(s.index, tags)
    {
      var t :| t in tags && t in s.l2[k].tags;
      assert t in s.index && k in s.index[t];
    }
  }

  lemma {:induction false} DropSame<T>(es: seq<L.Entry<T>>, a: set<string>, b: set<string>)
    requires forall e :: e in es ==> (e.key in a <==> e.key in b)
    ensures L.Drop(es, a) == L.Drop(es, b)
  {
    if es != [] {
      DropSame(es[1..], a, b);
    }
  }

  /**
   `invalidateTags` deletes exactly the entries that carry one of the tags, if and only if every stored
   key listed under one of them carries one.
  */
  lemma InvalidateTagsIsExactIff(cfg: Config, s: State, tags: seq<string>)
    requires Inv(cfg, s)
    ensures InvalidateTags(s, tags).l2 == s.l2 - CarriersOf(s.l2, tags) <==> OnlyCarriersListed(s, tags)
    ensures OnlyCarriersListed(s, tags) ==> InvalidateTags(s, tags).l1 == L.Drop(s.l1, CarriersOf(s.l2, tags))
  {
    var keys, carriers := ListedUnder(s.index, tags), CarriersOf(s.l2, tags);
    CarriersAreListed(s, tags);
    assert InvalidateTags(s, tags).l2 == s.l2 - keys;
    if OnlyCarriersListed(s, tags) {
      forall e | e in s.l1
        ensures e.key in keys <==> e.key in carriers
      {
        assert e.key in s.l2;
      }
      DropSame(s.l1, keys, carriers);
      assert s.l2 - keys == s.l2 - carriers;
    } else {
      var k :| k in keys && k in s.l2 && !CarriesOne(s.l2[k], tags);
      assert k in s.l2 - carriers && k !in s.l2 - keys;
    }
  }

  /** The tag records list a key under a tag only while the stored record carries it. */
  ghost predicate ExactIndex(s: State) {
    forall k, t :: t in s.index && k in s.index[t] ==> k in s.l2 && t in s.l2[k].tags
  }

  lemma ExactListsCarriers(s: State, tags: seq<string>)
    requires ExactIndex(s)
    ensures OnlyCarriersListed(s, tags)
  {
    forall k | k in ListedUnder(s.index, tags)
      ensures k in s.l2 && CarriesOne(s.l2[k], tags)
    {
      var t :| t in s.index && t in tags && k in s.index[t];
    }
  }

  /** The call replaces a stored record by one that lacks one of its tags. */
  predicate DropsTag(s: State, c: Call) {
    c.op.OpSet? && c.op.enabled && c.op.key in s.l2 && exists t :: t in s.l2[c.op.key].tags && t !in c.op.tags
  }

  lemma DeleteStaysExact(s: State, keys: set<string>)
    requires ExactIndex(s)
    ensures ExactIndex(Delete(s, keys))
  {
    var t := Delete(s, keys);
    forall k, tag | tag in t.index && k in t.index[tag]
      ensures k in t.l2 && tag in t.l2[k].tags
    {
      assert k in s.index[tag] && k !in Carriers(s.l2, keys, tag);
    }
  }

  lemma SetIsExactIff(cfg: Config, s: State, c: Call)
    requires Inv(cfg, s) && ExactIndex(s) && c.op.OpSet? && c.op.enabled
    ensures ExactIndex(Step(cfg, s, c)) <==> !DropsTag(s, c)
  {
    var t := Step(cfg, s, c);
    var key := c.op.key;
    if DropsTag(s, c) {
      var tag :| tag in s.l2[key].tags && tag !in c.op.tags;
      assert tag in s.index && key in s.index[tag];
      assert tag in t.index && key in t.index[tag] && tag !in t.l2[key].tags;
    } else {
      forall k, tag | tag in t.index && k in t.index[tag]
        ensures k in t.l2 && tag in t.l2[k].tags
      {
        assert tag in s.index && k in s.index[tag] ==> k in s.l2 && tag in s.l2[k].tags;
      }
    }
  }

  /** The tag records stay exact in a call if and only if it does not drop a tag of a stored record. */
  lemma StepIsExactIff(cfg: Config, s: State, c: Call)
    requires Inv(cfg, s) && ExactIndex(s)
    ensures ExactIndex(Step(cfg, s, c)) <==> !DropsTag(s, c)
  {
    match c.op
    case OpGet(_, key) =>
      DeleteStaysExact(if cfg.l1Enabled then s.(l1 := L.Drop(s.l1, {key})) else s, {key});
    case OpSet(enabled, _, _, _, _, _) =>
      if enabled {
        SetIsExactIff(cfg, s, c);
      }
    case OpDelete(key) => DeleteStaysExact(s, {key});
    case OpInvalidatePrefix(prefix) => DeleteStaysExact(s, WithPrefix(s.l2.Keys, prefix));
    case OpInvalidateAll =>
    case OpInvalidateTags(tags) =>
      var listed := set t | t in s.index && t in tags;
      DeleteStaysExact(s.(index := s.index - listed), ListedUnder(s.index, tags));
    case OpCleanup =>
      DeleteStaysExact(s.(l1 := L.Drop(s.l1, ExpiredL1(s.l1, c.now))), Expired(s.l2, c.now));
  }

  /** No call of the trace drops a tag of the record that is stored at that moment. */
  ghost predicate NoTagDropped(cfg: Config, calls: seq<Call>) {
    forall i :: 0 <= i < |calls| ==> !DropsTag(Run(cfg, calls[..i]), calls[i])
  }

  lemma NoTagDroppedBefore(cfg: Config, calls: seq<Call>)
    requires NoTagDropped(cfg, calls) && calls != []
    ensures NoTagDropped(cfg, calls[..|calls| - 1])
    ensures !DropsTag(Run(cfg, calls[..|calls| - 1]), calls[|calls| - 1])
  {
    var before := calls[..|calls| - 1];
    forall i | 0 <= i < |before|
      ensures !DropsTag(Run(cfg, before[..i]), before[i])
    {
      assert before[..i] == calls[..i];
    }
  }

  lemma {:induction false} RunStaysExact(cfg: Config, calls: seq<Call>)
    requires NoTagDropped(cfg, calls)
    ensures ExactIndex(Run(cfg, calls))
  {
    if calls != [] {
      var before := calls[..|calls| - 1];
      NoTagDroppedBefore(cfg, calls);
      RunStaysExact(cfg, before);
      RunKeeps(cfg, before);
      StepIsExactIff(cfg, Run(cfg, before), calls[|calls| - 1]);
    }
  }

  /** As long as no `set` drops a tag of a stored record, `invalidateTags` deletes exactly the carriers. */
  lemma InvalidateTagsIsExact(cfg: Config, calls: seq<Call>, tags: seq<string>)
    requires NoTagDropped(cfg, calls)
    ensures var s := Run(cfg, calls);
            && InvalidateTags(s, tags).l2 == s.l2 - CarriersOf(s.l2, tags)
            && InvalidateTags(s, tags).l1 == L.Drop(s.l1, CarriersOf(s.l2, tags))
  {
    var s := Run(cfg, calls);
    RunStaysExact(cfg, calls);
    RunKeeps(cfg, calls);
    ExactListsCarriers(s, tags);
    InvalidateTagsIsExactIff(cfg, s, tags);
  }

  /** The call stores the key with the tag. */
  predicate SetsWith(c: Call, key: string, tag: string) {
    c.op.OpSet? && c.op.enabled && c.op.key == key && tag in c.op.tags
  }

  lemma StepLists(cfg: Config, s: State, c: Call, key: string, tag: string)
    requires tag in Step(cfg, s, c).index && key in Step(cfg, s, c).index[tag]
    ensures SetsWith(c, key, tag) || (tag in s.index && key in s.index[tag])
  {
  }

  /** A key that is listed under a tag was set with that tag at some earlier moment. */
  lemma {:induction false} ListedWasSet(cfg: Config, calls: seq<Call>, key: string, tag: string)
    requires tag in Run(cfg, calls).index && key in Run(cfg, calls).index[tag]
    ensures exists i :: 0 <= i < |calls| && SetsWith(calls[i], key, tag)
  {
    if calls != [] {
      var before, last := calls[..|calls| - 1], calls[|calls| - 1];
      StepLists(cfg, Run(cfg, before), last, key, tag);
      if !SetsWith(last, key, tag) {
        ListedWasSet(cfg, before, key, tag);
        var i :| 0 <= i < |before| && SetsWith(before[i], key, tag);
        assert calls[i] == before[i];
      }
    }
  }

  /** Once a tag was dropped, its invalidation still deletes the key. */
  lemma InvalidateTagsReachesFurther(cfg: Config)
    ensures var old_ := Record(Null, ["t"], 0, 10, 10, 0);
            var new_ := Record(Null, [], 1, 11, 11, 0);
            var s := Set(cfg, Set(cfg, EMPTY, "k", old_), "k", new_);
      && s.l2 == map["k" := new_]
      && InvalidateTags(s, ["t"]).l2 == map[]
  {
    var old_ := Record(Null, ["t"], 0, 10, 10, 0);
    var new_ := Record(Null, [], 1, 11, 11, 0);
    var s := Set(cfg, Set(cfg, EMPTY, "k", old_), "k", new_);
    assert old_.tags[0] == "t";
    assert "t" in s.index && "k" in s.index["t"];
    assert "k" in ListedUnder(s.index, ["t"]);
  }

  // ---------- Refinement ----------

  /** L2 holds exactly the flat map's records, up to records that had expired by `now`. */
  ghost predicate Refines(s: State, flat: map<string, Record>, now: int) {
    && (forall k :: k in s.l2 ==> k in flat && flat[k] == s.l2[k])
    && (forall k :: k in flat && k !in s.l2 ==> flat[k].staleUntil <= now)
  }

  lemma GetRefines(cfg: Config, s: State, flat: map<string, Record>, c: Call, last: int)
    requires Inv(cfg, s) && Refines(s, flat, last) && last <= c.now && c.op.OpGet?
    ensures Refines(Step(cfg, s, c), flat, c.now)
    ensures Answer(cfg, s, c) == FlatAnswer(flat, c)
  {
    var r := L.Find(s.l1, c.op.key);
    assert r.Some? ==> r.value.key in s.l2 && s.l2[r.value.key] == r.value.value;
  }

  /** Every live key that is listed under one of the tags carries one of them. */
  ghost predicate OnlyLiveCarriersListed(s: State, tags: seq<string>, now: int) {
    forall k :: k in ListedUnder(s.index, tags) && k in s.l2 && s.l2[k].staleUntil > now ==> CarriesOne(s.l2[k], tags)
  }

  /** A tag invalidation keeps in step with the flat map if and only if every live key it lists is a carrier. */
  lemma TagsRefineIff(cfg: Config, s: State, flat: map<string, Record>, tags: seq<string>, last: int, now: int)
    requires Inv(cfg, s) && Refines(s, flat, last) && last <= now
    ensures Refines(InvalidateTags(s, tags), flat - CarriersOf(flat, tags), now) <==>
              OnlyLiveCarriersListed(s, tags, now)
  {
    var t, after := InvalidateTags(s, tags), flat - CarriersOf(flat, tags);
    var keys := ListedUnder(s.index, tags);
    assert t.l2 == s.l2 - keys;
    CarriersAreListed(s, tags);
    if OnlyLiveCarriersListed(s, tags, now) {
      forall k | k in t.l2
        ensures k in after && after[k] == t.l2[k]
      {
        assert k !in CarriersOf(s.l2, tags);
      }
    } else {
      var k :| k in keys && k in s.l2 && s.l2[k].staleUntil > now && !CarriesOne(s.l2[k], tags);
      assert k in after && k !in t.l2;
    }
  }

  lemma StepRefines(cfg: Config, s: State, flat: map<string, Record>, c: Call, last: int)
    requires Inv(cfg, s) && Refines(s, flat, last) && last <= c.now
    requires c.op.OpInvalidateTags? ==> OnlyLiveCarriersListed(s, c.op.tags, c.now)
    ensures Refines(Step(cfg, s, c), FlatStep(cfg.graceMs, flat, c), c.now)
    ensures Answer(cfg, s, c) == FlatAnswer(flat, c)
  {
    if c.op.OpGet? {
      GetRefines(cfg, s, flat, c, last);
    } else if c.op.OpInvalidateTags? {
      TagsRefineIff(cfg, s, flat, c.op.tags, last, c.now);
    }
  }

  predicate ClockRuns(calls: seq<Call>) {
    forall i, j :: 0 <= i < j < |calls| ==> calls[i].now <= calls[j].now
  }

  /** Every tag invalidation of the trace finds only carriers among the live keys it lists. */
  ghost predicate TagsTidy(cfg: Config, calls: seq<Call>) {
    forall i :: 0 <= i < |calls| && calls[i].op.OpInvalidateTags? ==>
      OnlyLiveCarriersListed(Run(cfg, calls[..i]), calls[i].op.tags, calls[i].now)
  }

  lemma TagsTidyBefore(cfg: Config, calls: seq<Call>)
    requires TagsTidy(cfg, calls) && calls != []
    ensures TagsTidy(cfg, calls[..|calls| - 1])
    ensures var c := calls[|calls| - 1];
            c.op.OpInvalidateTags? ==> OnlyLiveCarriersListed(Run(cfg, calls[..|calls| - 1]), c.op.tags, c.now)
  {
    var before := calls[..|calls| - 1];
    forall i | 0 <= i < |before| && before[i].op.OpInvalidateTags?
      ensures OnlyLiveCarriersListed(Run(cfg, before[..i]), before[i].op.tags, before[i].now)
    {
      assert before[..i] == calls[..i] && before[i] == calls[i];
    }
  }

  /** Traces without tag invalidations are tidy, and so are those in which no `set` drops a tag. */
  lemma NoTagDroppedIsTidy(cfg: Config, calls: seq<Call>)
    requires NoTagDropped(cfg, calls)
    ensures TagsTidy(cfg, calls)
  {
    forall i | 0 <= i < |calls| && calls[i].op.OpInvalidateTags?
      ensures OnlyLiveCarriersListed(Run(cfg, calls[..i]), calls[i].op.tags, calls[i].now)
    {
      var before, tags := calls[..i], calls[i].op.tags;
      forall j | 0 <= j < |before|
        ensures !DropsTag(Run(cfg, before[..j]), before[j])
      {
        assert before[..j] == calls[..j];
      }
      RunStaysExact(cfg, before);
      var s := Run(cfg, before);
      ExactListsCarriers(s, tags);
    }
  }

  /** On a clock that never falls the answers of any tidy trace are those of the flat map. */
  lemma {:induction false} RunRefines(cfg: Config, calls: seq<Call>)
    requires ClockRuns(calls) && TagsTidy(cfg, calls)
    ensures Answers(cfg, calls) == FlatAnswers(cfg.graceMs, calls)
    ensures calls != [] ==> Refines(Run(cfg, calls), FlatRun(cfg.graceMs, calls), calls[|calls| - 1].now)
  {
    if calls != [] {
      var before := calls[..|calls| - 1];
      TagsTidyBefore(cfg, calls);
      RunRefines(cfg, before);
      RunKeeps(cfg, before);
      var c := calls[|calls| - 1];
      var last := if before == [] then c.now else before[|before| - 1].now;
      StepRefines(cfg, Run(cfg, before), FlatRun(cfg.graceMs, before), c, last);
    }
  }

  // ---------- L1 cannot be observed ----------

  lemma GetHidesL1(a: Config, b: Config, s: State, u: State, c: Call)
    requires Inv(a, s) && Inv(b, u) && s.l2 == u.l2 && s.index == u.index && c.op.OpGet?
    ensures Step(a, s, c).l2 == Step(b, u, c).l2 && Step(a, s, c).index == Step(b, u, c).index
    ensures Answer(a, s, c) == Answer(b, u, c)
  {
    HitIsLive(a, s, c.op.key, c.now);
    HitIsLive(b, u, c.op.key, c.now);
  }

  /** What L1 serves is a live record of L2. */
  lemma HitIsLive(cfg: Config, s: State, key: string, now: int)
    requires Inv(cfg, s)
    ensures FromL1(cfg, s, key, now).Some? ==>
              key in s.l2 && s.l2[key] == FromL1(cfg, s, key, now).value && s.l2[key].staleUntil > now
  {
    var r := L.Find(s.l1, key);
    assert r.Some? ==> r.value.key in s.l2 && s.l2[r.value.key] == r.value.value;
  }

  lemma DeleteHidesL1(s: State, u: State, keys: set<string>)
    requires s.l2 == u.l2 && s.index == u.index
    ensures Delete(s, keys).l2 == Delete(u, keys).l2 && Delete(s, keys).index == Delete(u, keys).index
  {
  }

  lemma StepHidesL1(a: Config, b: Config, s: State, u: State, c: Call)
    requires a.graceMs == b.graceMs && Inv(a, s) && Inv(b, u) && s.l2 == u.l2 && s.index == u.index
    ensures Step(a, s, c).l2 == Step(b, u, c).l2 && Step(a, s, c).index == Step(b, u, c).index
    ensures Answer(a, s, c) == Answer(b, u, c)
  {
    match c.op
    case OpGet(_, _) => GetHidesL1(a, b, s, u, c);
    case OpDelete(key) => DeleteHidesL1(s, u, {key});
    case OpInvalidatePrefix(prefix) => DeleteHidesL1(s, u, WithPrefix(s.l2.Keys, prefix));
    case OpInvalidateTags(tags) =>
    case OpCleanup => DeleteHidesL1(s, u, Expired(s.l2, c.now));
    case _ =>
  }

  /** Neither the size of L1 nor switching it off can be observed, by any calls and on any clock. */
  lemma {:induction false} L1IsInvisible(cfg: Config, other: Config, calls: seq<Call>)
    requires cfg.graceMs == other.graceMs
    ensures Answers(cfg, calls) == Answers(other, calls)
    ensures Run(cfg, calls).l2 == Run(other, calls).l2 && Run(cfg, calls).index == Run(other, calls).index
  {
    if calls != [] {
      var before := calls[..|calls| - 1];
      L1IsInvisible(cfg, other, before);
      RunKeeps(cfg, before);
      RunKeeps(other, before);
      StepHidesL1(cfg, other, Run(cfg, before), Run(other, before), calls[|calls| - 1]);
    }
  }
}
