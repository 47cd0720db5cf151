/**
 What an `add` stores, and when its deduplication key makes it a repeat: judged by the keys and items that
 were given to earlier calls.
*/
module BatchAdds {
  import opened Wrappers
  import opened BatchProtocol
  import opened BatchSafety

  // ---------- One completed call ----------

  /** The buffer that a call goes on with: none when the record is gone, or when its marked job is stored. */
  function Earlier(store: Store): Option<Buffer> {
    if store.buffer.Some? && store.buffer.value.flushJobId.Some? && store.buffer.value.flushJobId.value in store.jobs
    then None
    else store.buffer
  }

  /** The key is one that the buffer holds. */
  predicate IsRepeat(earlier: Option<Buffer>, key: Option<string>) {
    key.Some? && key.value != "" && earlier.Some? && key.value in earlier.value.dedupeKeys
  }

  function ItemsOf(buffer: Option<Buffer>): seq<Item> {
    if buffer.None? then [] else buffer.value.items
  }

  function KeysOf(buffer: Option<Buffer>): seq<string> {
    if buffer.None? then [] else buffer.value.dedupeKeys
  }

  /** The item comes after the earlier ones, and its key, unless it is empty, after the earlier keys. */
  predicate AddedTo(after: Option<Buffer>, earlier: Option<Buffer>, item: Item, key: Option<string>, now: int) {
    && after.Some?
    && after.value.items == ItemsOf(earlier) + [item]
    && after.value.dedupeKeys == KeysOf(earlier) + (if key.Some? && key.value != "" then [key.value] else [])
    && after.value.firstItemAt == (if earlier.None? then now else earlier.value.firstItemAt)
    && after.value.lastItemAt == now
    && after.value.flushJobId.None?
  }

  /** Recovery ends with the earlier buffer, without its mark. */
  lemma RecoveryEnds(s: System, task: Task) returns (r: System)
    requires s.proc.Idle? && task.Add?
    ensures Finish(Acquire(s, task)) == Finish(r) && r.proc.Recovered? && r.proc.task == task
    ensures r.store.jobs == s.store.jobs && r.accepted == s.accepted && r.store.buffer == r.proc.recovered
    ensures var earlier := Earlier(s.store);
            && r.proc.recovered.Some? == earlier.Some?
            && (earlier.Some? ==>
                  var b := r.proc.recovered.value;
                  b == earlier.value.(flushJobId := None, flushingAt := b.flushingAt))
  {
    r := Acquire(s, task);
    while !r.proc.Recovered?
      invariant Finish(Acquire(s, task)) == Finish(r)
      invariant r.store.jobs == s.store.jobs && r.accepted == s.accepted
      invariant match r.proc
        case Begin(other) => other == task && r.store.buffer == s.store.buffer
        case Recover(other, b) =>
          other == task && r.store.buffer == s.store.buffer == Some(b) && b.flushJobId.Some?
        case Republish(other, _) => other == task && Earlier(s.store).None?
        case Drop(other) => other == task && Earlier(s.store).None?
        case Unmark(other, b) => other == task && r.store.buffer == Some(b) && Earlier(s.store) == Some(b)
        case Recovered(other, b) =>
          && other == task && r.store.buffer == b && b.Some? == Earlier(s.store).Some?
          && (b.Some? ==> b.value == Earlier(s.store).value.(flushJobId := None, flushingAt := b.value.flushingAt))
        case _ => false
      decreases Rank(r.proc)
    {
      r := Advance(r);
    }
  }

  /**
   A completed add is a repeat if and only if its key is not empty and the buffer it goes on with holds it. A
   repeat adds nothing; any other add accepts exactly its item, after the earlier ones, and records its key.
  */
  lemma AddCompletes(s: System, item: Item, key: Option<string>, now: int)
    requires s.proc.Idle?
    ensures var t := Finish(Acquire(s, Add(item, key, now)));
            var earlier := Earlier(s.store);
            && t.proc.Idle? && t.store.jobs == s.store.jobs
            && if IsRepeat(earlier, key)
               then t.accepted == s.accepted && ItemsOf(t.store.buffer) == ItemsOf(earlier)
                    && KeysOf(t.store.buffer) == KeysOf(earlier)
               else t.accepted == s.accepted + multiset{item} && AddedTo(t.store.buffer, earlier, item, key, now)
  {
    var r := RecoveryEnds(s, Add(item, key, now));
    assert Finish(r) == Advance(r);
  }

  // ---------- The history of the keys ----------

  /** An `add` comes to its last step. */
  predicate Decides(s: System, e: Event) {
    e.DoAdvance? && s.proc.Recovered? && s.proc.task.Add?
  }

  /** The step accepts the item of the call. */
  predicate Accepts(s: System, e: Event, t: System) {
    Decides(s, e) && t.accepted == s.accepted + multiset{s.proc.task.item}
  }

  /** The buffer record has been there from after `j` up to `n`. */
  ghost predicate SameBuffer(run: seq<System>, j: nat, n: nat) {
    forall m :: j < m <= n && m < |run| ==> run[m].store.buffer.Some?
  }

  /** An add with the key was accepted at `j`, and the group has not begun a fresh buffer since. */
  ghost predicate GaveKey(run: seq<System>, events: seq<Event>, j: nat, n: nat, key: string)
    requires |run| == |events| + 1
  {
    && j < n && j < |events|
    && Accepts(run[j], events[j], run[j + 1]) && run[j].proc.task.dedupKey == Some(key)
    && SameBuffer(run, j, n)
  }

  ghost predicate WasGiven(run: seq<System>, events: seq<Event>, n: nat, key: string)
    requires |run| == |events| + 1
  {
    exists j :: GaveKey(run, events, j, n, key)
  }

  /** One step: an accepted add puts its key behind those of its buffer, and nothing else touches the keys. */
  lemma KeysAfter(s: System, e: Event)
    requires Shape(s) && Strict(s) && Enabled(s, e) && !StaleRead(s, e)
    ensures var t := Apply(s, e);
            if Accepts(s, e, t)
            then && t.store.buffer.Some?
                 && KeysOf(t.store.buffer) ==
                    KeysOf(s.store.buffer)
                      + var key := s.proc.task.dedupKey; if key.Some? && key.value != "" then [key.value] else []
            else t.store.buffer.None? || (s.store.buffer.Some? && KeysOf(t.store.buffer) == KeysOf(s.store.buffer))
  {
    if Decides(s, e) {
      assert s.store.buffer == s.proc.recovered;
    }
  }

  /** The buffer holds the key if and only if it was given to it. */
  ghost predicate KeyIsGiven(run: seq<System>, events: seq<Event>, n: nat, key: string)
    requires |run| == |events| + 1 && n < |run|
  {
    key in KeysOf(run[n].store.buffer) <==> key != "" && WasGiven(run, events, n, key)
  }

  /** The keys of the buffer are those that were given to it. */
  ghost predicate KeysAreGiven(run: seq<System>, events: seq<Event>, n: nat)
    requires |run| == |events| + 1 && n < |run|
  {
    run[n].store.buffer.Some? ==> forall key :: KeyIsGiven(run, events, n, key)
  }

  lemma GivenStays(run: seq<System>, events: seq<Event>, n: nat, key: string)
    requires |run| == |events| + 1 && n < |events| && run[n + 1].store.buffer.Some?
    ensures WasGiven(run, events, n, key) ==> WasGiven(run, events, n + 1, key)
  {
    if j :| GaveKey(run, events, j, n, key) {
      assert GaveKey(run, events, j, n + 1, key);
    }
  }

  lemma GivenBefore(run: seq<System>, events: seq<Event>, n: nat, key: string)
    requires |run| == |events| + 1 && n < |events| && WasGiven(run, events, n + 1, key)
    ensures
      || GaveKey(run, events, n, n + 1, key)
      || (WasGiven(run, events, n, key) && (n > 0 ==> run[n].store.buffer.Some?))
  {
    var j: nat :| GaveKey(run, events, j, n + 1, key);
    if j < n {
      assert GaveKey(run, events, j, n, key);
      assert run[n].store.buffer.Some?;
    }
  }

  lemma GivenNow(run: seq<System>, events: seq<Event>, n: nat, key: string)
    requires |run| == |events| + 1 && n < |events| && run[n + 1].store.buffer.Some?
    requires Accepts(run[n], events[n], run[n + 1]) && run[n].proc.task.dedupKey == Some(key)
    ensures WasGiven(run, events, n + 1, key)
  {
    assert GaveKey(run, events, n, n + 1, key);
  }

  lemma NoneGivenWithoutBuffer(run: seq<System>, events: seq<Event>, n: nat, key: string)
    requires |run| == |events| + 1 && n < |run| && run[n].store.buffer.None?
    ensures !WasGiven(run, events, n, key)
  {
    forall j: nat
      ensures !GaveKey(run, events, j, n, key)
    {
    }
  }

  lemma KeysStayGiven(run: seq<System>, events: seq<Event>, n: nat)
    requires |run| == |events| + 1 && n < |events| && KeysAreGiven(run, events, n)
    requires Shape(run[n]) && Strict(run[n]) && Enabled(run[n], events[n]) && !StaleRead(run[n], events[n])
    requires run[n + 1] == Apply(run[n], events[n])
    ensures KeysAreGiven(run, events, n + 1)
  {
    KeysAfter(run[n], events[n]);
    var m := n + 1;
    if run[m].store.buffer.Some? {
      forall key
        ensures KeyIsGiven(run, events, m, key)
      {
        assert run[n].store.buffer.Some? ==> KeyIsGiven(run, events, n, key);
        GivenStays(run, events, n, key);
        if WasGiven(run, events, n + 1, key) {
          GivenBefore(run, events, n, key);
        }
        if run[n].store.buffer.None? {
          NoneGivenWithoutBuffer(run, events, n, key);
        }
        if Accepts(run[n], events[n], run[n + 1]) && run[n].proc.task.dedupKey == Some(key) {
          GivenNow(run, events, n, key);
        }
      }
    }
  }

  lemma {:induction false} RunKeysAreGiven(run: seq<System>, events: seq<Event>, n: nat)
    requires IsRun(run, events) && n < |run|
    requires forall i :: 0 <= i < n ==> !StaleRead(run[i], events[i])
    ensures KeysAreGiven(run, events, n)
  {
    if n > 0 {
      RunKeysAreGiven(run, events, n - 1);
      RunLosesNothing(run, events, n - 1);
      RunConserves(run, events, n - 1);
      KeysStayGiven(run, events, n - 1);
    }
  }

  /**
   In any run that uses no stale snapshot, an add that comes to its last step is accepted if and only if its
   key is absent, empty, or was not given by an accepted add since the group last began a fresh buffer.
  */
  lemma AcceptedIff(run: seq<System>, events: seq<Event>, n: nat)
    requires IsRun(run, events) && n < |events| && Decides(run[n], events[n])
    requires forall i :: 0 <= i < n ==> !StaleRead(run[i], events[i])
    ensures var key := run[n].proc.task.dedupKey;
            && (Accepts(run[n], events[n], run[n + 1]) <==>
                  key.None? || key.value == "" || !WasGiven(run, events, n, key.value))
            && (!Accepts(run[n], events[n], run[n + 1]) ==>
                  run[n + 1].accepted == run[n].accepted && run[n + 1].store == run[n].store)
  {
    RunKeysAreGiven(run, events, n);
    RunLosesNothing(run, events, n);
    RunConserves(run, events, n);
    var key := run[n].proc.task.dedupKey;
    if key.Some? && run[n].store.buffer.None? {
      NoneGivenWithoutBuffer(run, events, n, key.value);
    }
    assert key.Some? && run[n].store.buffer.Some? ==> KeyIsGiven(run, events, n, key.value);
    assert run[n].store.buffer == run[n].proc.recovered;
    DecisionIs(run[n]);
  }

  /** The last step accepts unless it finds the key in the buffer. */
  lemma DecisionIs(s: System)
    requires s.proc.Recovered? && s.proc.task.Add?
    ensures var t := Advance(s);
            if IsRepeat(s.proc.recovered, s.proc.task.dedupKey)
            then t.accepted == s.accepted && t.store == s.store
            else t.accepted == s.accepted + multiset{s.proc.task.item}
  {
  }
}
