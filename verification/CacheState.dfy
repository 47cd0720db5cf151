/**
 What each call of the two-tier cache does to its state: the L1 order, the L2 records and the tag
 records of this cache. Both tiers are healthy and no call passes `ignoreL1` or `ignoreL2`. A value
 is its encoded payload; encoding and decoding are inverse to each other.
*/
module CacheState {
  import opened Wrappers
  import L = Lru

  /** A cached value: `null` or the encoding of another value. */
  datatype Value = Null | Payload(text: string)

  /** The fields that an L1 entry and an L2 record share. */
  datatype Record = Record(
    value: Value,
    tags: seq<string>,
    createdAt: int,
    expiresAt: int,
    staleUntil: int,
    sizeBytes: int)

  datatype State = State(
    l1: seq<L.Entry<Record>>,
    l2: map<string, Record>,
    index: map<string, set<string>>)

  /** The fixed configuration: L1 switched on or off, its size, and how long stale values are served. */
  datatype Config = Config(l1Enabled: bool, maxItems: nat, graceMs: nat)

  const EMPTY: State := State([], map[], map[])

  function NewRecord(cfg: Config, value: Value, tags: seq<string>, ttlMs: int, sizeBytes: int, now: int): Record {
    Record(value, tags, now, now + ttlMs, now + ttlMs + cfg.graceMs, sizeBytes)
  }

  /** Put a record into L1, evicting the oldest entries. */
  ghost function ToL1(cfg: Config, l1: seq<L.Entry<Record>>, key: string, r: Record): seq<L.Entry<Record>> {
    if cfg.l1Enabled then L.Inserted(l1, L.Entry(key, r, r.sizeBytes), cfg.maxItems) else l1
  }

  function KeysOf(index: map<string, set<string>>, tag: string): set<string> {
    if tag in index then index[tag] else {}
  }

  /** The tag records after `key` was added under each of `tags`. */
  ghost function Listed(index: map<string, set<string>>, tags: seq<string>, key: string): map<string, set<string>> {
    map t | t in index.Keys + (set i | 0 <= i < |tags| :: tags[i]) ::
      if t in tags then KeysOf(index, t) + {key} else index[t]
  }

  /** The keys of `keys` whose record carries `tag`. */
  ghost function Carriers(l2: map<string, Record>, keys: set<string>, tag: string): set<string> {
    set k | k in keys && k in l2 && tag in l2[k].tags
  }

  /** The tag records after the records of `keys` were deleted; a tag record that becomes empty goes. */
  ghost function Unlisted(index: map<string, set<string>>, l2: map<string, Record>, keys: set<string>)
    : map<string, set<string>>
  {
    map t | t in index && (Carriers(l2, keys, t) == {} || index[t] - Carriers(l2, keys, t) != {}) ::
      index[t] - Carriers(l2, keys, t)
  }

  /** `deleteKeyEverywhere` for each of `keys`. */
  ghost function Delete(s: State, keys: set<string>): State {
    State(L.Drop(s.l1, keys), s.l2 - keys, Unlisted(s.index, s.l2, keys))
  }

  // ---------- The calls ----------

  ghost function FromL1(cfg: Config, s: State, key: string, now: int): Option<Record> {
    if !cfg.l1Enabled then None
    else match L.Find(s.l1, key)
      case None => None
      case Some(e) => if e.value.expiresAt > now || e.value.staleUntil > now then Some(e.value) else None
  }

  ghost function Get(cfg: Config, s: State, key: string, now: int): State {
    if FromL1(cfg, s, key, now).Some? then s.(l1 := L.Touched(s.l1, key))
    else
      var t := if cfg.l1Enabled then s.(l1 := L.Drop(s.l1, {key})) else s;
      if key !in t.l2 then t
      else if t.l2[key].staleUntil <= now then Delete(t, {key})
      else t.(l1 := ToL1(cfg, t.l1, key, t.l2[key]))
  }

  ghost function GetResult(cfg: Config, s: State, key: string, now: int): Value {
    if FromL1(cfg, s, key, now).Some? then FromL1(cfg, s, key, now).value.value
    else if key in s.l2 && s.l2[key].staleUntil > now then s.l2[key].value
    else Null
  }

  ghost function Set(cfg: Config, s: State, key: string, r: Record): State {
    State(ToL1(cfg, s.l1, key, r), s.l2[key := r], Listed(s.index, r.tags, key))
  }

  predicate HasPrefix(key: string, prefix: string) {
    prefix <= key
  }

  ghost function WithPrefix(keys: set<string>, prefix: string): set<string> {
    set k | k in keys && HasPrefix(k, prefix)
  }

  ghost function InvalidatePrefix(s: State, prefix: string): State {
    var t := Delete(s, WithPrefix(s.l2.Keys, prefix));
    t.(l1 := L.Drop(t.l1, WithPrefix(L.Keys(t.l1), prefix)))
  }

  ghost function InvalidateAll(s: State): State {
    EMPTY
  }

  ghost function Expired(l2: map<string, Record>, now: int): set<string> {
    set k | k in l2 && l2[k].staleUntil <= now
  }

  ghost function ExpiredL1(l1: seq<L.Entry<Record>>, now: int): set<string> {
    set i | 0 <= i < |l1| && l1[i].value.staleUntil <= now :: l1[i].key
  }

  ghost function CleanupExpired(s: State, now: int): State {
    Delete(s.(l1 := L.Drop(s.l1, ExpiredL1(s.l1, now))), Expired(s.l2, now))
  }

  /** The keys listed under one of `tags`. */
  ghost function ListedUnder(index: map<string, set<string>>, tags: seq<string>): set<string> {
    set t, k | t in index && t in tags && k in index[t] :: k
  }

  ghost function InvalidateTags(s: State, tags: seq<string>): State {
    var keys := ListedUnder(s.index, tags);
    var listed := set t | t in s.index && t in tags;
    Delete(s.(index := s.index - listed), keys)
  }
}
