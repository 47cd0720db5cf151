/**
 The order of an LRU cache is the order of last use: on every trace of calls, one entry is older than another
 if and only if it was last read or written earlier, and what `set` evicts was last used the longest ago.
*/
module LruRecency {
  import opened Wrappers
  import opened Lru
  import opened LruInclusion

  // ---------- The last use of a key ----------

  /** The call reads or writes the key. */
  predicate Uses<T>(op: Op<T>, key: string) {
    (op.GetOp? && op.key == key) || (op.SetOp? && op.entry.key == key)
  }

  /** The number of the last call that reads or writes the key, counted from 1; 0 when there is none. */
  function LastUse<T>(ops: seq<Op<T>>, key: string): nat {
    if ops == [] then 0
    else if Uses(ops[|ops| - 1], key) then |ops|
    else LastUse(ops[..|ops| - 1], key)
  }

  lemma {:induction false} LastUseIsLast<T>(ops: seq<Op<T>>, key: string)
    ensures var n := LastUse(ops, key);
            && n <= |ops| && (n > 0 ==> Uses(ops[n - 1], key))
            && forall i :: n <= i < |ops| ==> !Uses(ops[i], key)
  {
    if ops != [] && !Uses(ops[|ops| - 1], key) {
      LastUseIsLast(ops[..|ops| - 1], key);
    }
  }

  /** Oldest last use first. */
  predicate ByLastUse<T>(es: seq<Entry<T>>, ops: seq<Op<T>>) {
    forall i, j :: 0 <= i < j < |es| ==> LastUse(ops, es[i].key) < LastUse(ops, es[j].key)
  }

  // ---------- What the calls do to the order ----------

  lemma {:induction false} DropMember<T>(es: seq<Entry<T>>, ks: set<string>, e: Entry<T>)
    ensures e in Drop(es, ks) <==> e in es && e.key !in ks
  {
    if es != [] {
      DropMember(es[1..], ks, e);
      assert e in es <==> e == es[0] || e in es[1..];
    }
  }

  /** Leaving entries out keeps the order of the others. */
  lemma {:induction false} DropKeepsOrder<T>(es: seq<Entry<T>>, ks: set<string>, ops: seq<Op<T>>)
    requires ByLastUse(es, ops)
    ensures ByLastUse(Drop(es, ks), ops)
  {
    if es != [] {
      var rest := es[1..];
      assert forall i :: 0 <= i < |rest| ==> rest[i] == es[i + 1];
      DropKeepsOrder(rest, ks, ops);
      if es[0].key !in ks {
        forall other | other in Drop(rest, ks)
          ensures LastUse(ops, es[0].key) < LastUse(ops, other.key)
        {
          DropMember(rest, ks, other);
          var j :| 0 <= j < |rest| && rest[j] == other;
          assert es[j + 1] == other;
        }
        OlderInFront(es[0], Drop(rest, ks), ops);
      } else {
        assert Drop(es, ks) == Drop(rest, ks);
      }
    }
  }

  lemma OlderInFront<T>(e: Entry<T>, es: seq<Entry<T>>, ops: seq<Op<T>>)
    requires ByLastUse(es, ops) && forall other :: other in es ==> LastUse(ops, e.key) < LastUse(ops, other.key)
    ensures ByLastUse([e] + es, ops)
  {
    var all := [e] + es;
    forall i, j | 0 <= i < j < |all|
      ensures LastUse(ops, all[i].key) < LastUse(ops, all[j].key)
    {
      assert all[j] == es[j - 1] && all[j] in es;
      assert i > 0 ==> all[i] == es[i - 1];
    }
  }

  lemma NewestKeepsOrder<T>(es: seq<Entry<T>>, max: nat, ops: seq<Op<T>>)
    requires ByLastUse(es, ops)
    ensures ByLastUse(Newest(es, max), ops)
  {
  }

  /** One call more does not change the last use of a key that it does not use. */
  lemma OthersUnused<T>(es: seq<Entry<T>>, ops: seq<Op<T>>, op: Op<T>)
    requires ByLastUse(es, ops) && forall e :: e in es ==> !Uses(op, e.key)
    ensures ByLastUse(es, ops + [op])
  {
    forall i, j | 0 <= i < j < |es|
      ensures LastUse(ops + [op], es[i].key) < LastUse(ops + [op], es[j].key)
    {
      assert (ops + [op])[..|ops|] == ops;
      assert es[i] in es && es[j] in es;
    }
  }

  /** The entry of the key that is used now belongs at the end. */
  lemma UsedGoesLast<T>(es: seq<Entry<T>>, e: Entry<T>, ops: seq<Op<T>>, op: Op<T>)
    requires ByLastUse(es, ops) && Uses(op, e.key) && forall other :: other in es ==> !Uses(op, other.key)
    ensures ByLastUse(es + [e], ops + [op])
  {
    OthersUnused(es, ops, op);
    var all := es + [e];
    forall i, j | 0 <= i < j < |all|
      ensures LastUse(ops + [op], all[i].key) < LastUse(ops + [op], all[j].key)
    {
      assert (ops + [op])[..|ops|] == ops;
      if j == |es| {
        assert all[i] == es[i] && es[i] in es;
        LastUseIsLast(ops, es[i].key);
      }
    }
  }

  lemma OthersStay<T>(es: seq<Entry<T>>, key: string, op: Op<T>)
    requires forall k :: Uses(op, k) ==> k == key
    ensures forall e :: e in Drop(es, {key}) ==> !Uses(op, e.key)
  {
    forall e | e in Drop(es, {key})
      ensures !Uses(op, e.key)
    {
      DropMember(es, {key}, e);
    }
  }

  lemma GetKeepsOrder<T>(es: seq<Entry<T>>, ops: seq<Op<T>>, key: string, max: nat)
    requires ByLastUse(es, ops)
    ensures ByLastUse(LruInclusion.Step(es, GetOp(key), max), ops + [GetOp(key)])
  {
    match Find(es, key)
    case None =>
      assert forall e :: e in es ==> e.key in Keys(es);
      OthersUnused(es, ops, GetOp(key));
    case Some(e) =>
      DropKeepsOrder(es, {key}, ops);
      OthersStay(es, key, GetOp(key));
      UsedGoesLast(Drop(es, {key}), e, ops, GetOp(key));
  }

  /** The entries from which `set` evicts: the others in their order, and the new one. */
  lemma SetOrders<T>(es: seq<Entry<T>>, ops: seq<Op<T>>, entry: Entry<T>)
    requires ByLastUse(es, ops)
    ensures ByLastUse(Drop(es, {entry.key}) + [entry], ops + [SetOp(entry)])
  {
    DropKeepsOrder(es, {entry.key}, ops);
    OthersStay(es, entry.key, SetOp(entry));
    UsedGoesLast(Drop(es, {entry.key}), entry, ops, SetOp(entry));
  }

  lemma DeleteKeepsOrder<T>(es: seq<Entry<T>>, ops: seq<Op<T>>, key: string)
    requires ByLastUse(es, ops)
    ensures ByLastUse(Drop(es, {key}), ops + [DeleteOp(key)])
  {
    DropKeepsOrder(es, {key}, ops);
    OthersUnused(Drop(es, {key}), ops, DeleteOp(key));
  }

  // ---------- Every trace ----------

  lemma {:induction false} RunIsByLastUse<T>(ops: seq<Op<T>>, max: nat)
    ensures ByLastUse(Run(ops, max), ops)
  {
    if ops != [] {
      var before, op := ops[..|ops| - 1], ops[|ops| - 1];
      assert ops == before + [op];
      RunIsByLastUse(before, max);
      match op
      case GetOp(key) => GetKeepsOrder(Run(before, max), before, key, max);
      case SetOp(entry) =>
        SetOrders(Run(before, max), before, entry);
        NewestKeepsOrder(Drop(Run(before, max), {entry.key}) + [entry], max, ops);
      case DeleteOp(key) => DeleteKeepsOrder(Run(before, max), before, key);
      case ClearOp =>
    }
  }

  /** On every trace an entry stands before another if and only if its key was last used earlier. */
  lemma OlderIffUsedEarlier<T>(ops: seq<Op<T>>, max: nat, i: nat, j: nat)
    requires i < |Run(ops, max)| && j < |Run(ops, max)|
    ensures i < j <==> LastUse(ops, Run(ops, max)[i].key) < LastUse(ops, Run(ops, max)[j].key)
  {
    RunIsByLastUse(ops, max);
  }

  /** Right after a hit the key is the newest, with its value, and the others are as before. */
  lemma HitIsNewest<T>(ops: seq<Op<T>>, max: nat, key: string)
    requires key in Keys(Run(ops, max))
    ensures var es, after := Run(ops, max), Run(ops + [GetOp(key)], max);
            && |after| == |es| && after[|es| - 1].key == key && after[|es| - 1] in es
            && after[..|es| - 1] == Drop(es, {key})
  {
    assert (ops + [GetOp(key)])[..|ops|] == ops;
    RunRelated(ops, max, max);
    DropOne(Run(ops, max), key);
  }

  /** The entry was in the cache, or is the one that is set. */
  ghost predicate Before<T>(es: seq<Entry<T>>, entry: Entry<T>, e: Entry<T>) {
    e == entry || (e in es && e.key != entry.key)
  }

  lemma BeforeIsThere<T>(es: seq<Entry<T>>, entry: Entry<T>, e: Entry<T>)
    requires Before(es, entry, e)
    ensures e in Drop(es, {entry.key}) + [entry]
  {
    DropMember(es, {entry.key}, e);
  }

  /** What is not among the newest stands before all of them, and then they are as many as there may be. */
  lemma NotNewestIsOlder<T>(all: seq<Entry<T>>, max: nat, ops: seq<Op<T>>, gone: Entry<T>, kept: Entry<T>)
    requires ByLastUse(all, ops) && gone in all && gone !in Newest(all, max) && kept in Newest(all, max)
    ensures LastUse(ops, gone.key) < LastUse(ops, kept.key) && |Newest(all, max)| == max
  {
    var after := Newest(all, max);
    var i :| 0 <= i < |all| && all[i] == gone;
    var j :| 0 <= j < |after| && after[j] == kept;
    assert |all| > max && after[j] == all[|all| - max + j];
    forall k | |all| - max <= k < |all|
      ensures all[k] in after
    {
      assert all[k] == after[k - (|all| - max)];
    }
  }

  /** What `set` evicts was used longer ago than everything that stays, and nothing is evicted without need. */
  lemma EvictsOldest<T>(ops: seq<Op<T>>, max: nat, entry: Entry<T>, gone: Entry<T>, kept: Entry<T>)
    requires Before(Run(ops, max), entry, gone)
    requires gone !in Run(ops + [SetOp(entry)], max) && kept in Run(ops + [SetOp(entry)], max)
    ensures LastUse(ops + [SetOp(entry)], gone.key) < LastUse(ops + [SetOp(entry)], kept.key)
    ensures |Run(ops + [SetOp(entry)], max)| == max
  {
    assert (ops + [SetOp(entry)])[..|ops|] == ops;
    RunIsByLastUse(ops, max);
    SetOrders(Run(ops, max), ops, entry);
    BeforeIsThere(Run(ops, max), entry, gone);
    NotNewestIsOlder(Drop(Run(ops, max), {entry.key}) + [entry], max, ops + [SetOp(entry)], gone, kept);
  }
}
