/**
 What the end of a handler leaves behind, status by status, and what it means for the cursor over a run: as
 the deliveries in front of it are acked, in any order, the cursor gets past them.
*/
module TopicOutcomes {
  import opened Topic
  import opened TopicInvariants
  import opened Wrappers

  // ---------- One settlement ----------

  /** Nothing more is to be done for the delivery. */
  predicate IsOver(deliveries: map<Slot, Delivery>, slot: Slot) {
    slot in deliveries && deliveries[slot].status in {Acked, Discarded, Dead, Filtered}
  }

  /** The cursor of the slot has moved over what is settled, as far as it goes, and no other cursor has moved. */
  ghost predicate CursorMoved(s: State, t: State, slot: Slot) {
    var g, p := slot.group, slot.partition;
    && t.groups.Keys == s.groups.Keys
    && (forall h, q :: h in s.groups && (h != g || q != p) ==> At(t.groups[h], q) == At(s.groups[h], q))
    && (g in s.groups ==>
          && At(s.groups[g], p) <= At(t.groups[g], p)
          && (forall o :: At(s.groups[g], p) < o <= At(t.groups[g], p) ==> IsOver(t.deliveries, Slot(g, p, o)))
          && !IsOver(t.deliveries, Slot(g, p, At(t.groups[g], p) + 1)))
  }

  /** A delivery that is done with, but is not dead, is saved, and its cursor moves. */
  lemma ClosingMoves(s: State, slot: Slot, d: Delivery, deadLetters: bool)
    requires !d.status.Dead?
    ensures var t := AdvanceCursor(Close(s, slot, d, deadLetters), slot.group, slot.partition);
            t == s.(deliveries := s.deliveries[slot := d], groups := t.groups) && CursorMoved(s, t, slot)
  {
    AdvanceMoves(s.(deliveries := s.deliveries[slot := d]), slot);
  }

  /** An ack leaves the delivery acked, and its cursor moves. */
  lemma AckSettles(s: State, slot: Slot, copy: Delivery, maxAttempts: nat, deadLetters: bool)
    ensures var t := Apply(s, SettleOp(slot, copy, Ack, maxAttempts, deadLetters));
            && t == s.(deliveries := s.deliveries[slot := Delivery(copy.messageId, Acked, copy.attempt)],
                       groups := t.groups)
            && CursorMoved(s, t, slot)
  {
    var d := Delivery(copy.messageId, Acked, copy.attempt);
    assert Apply(s, SettleOp(slot, copy, Ack, maxAttempts, deadLetters))
        == AdvanceCursor(Close(s, slot, d, deadLetters), slot.group, slot.partition);
    ClosingMoves(s, slot, d, deadLetters);
  }

  /** A discard leaves it discarded, and its cursor moves. */
  lemma DiscardSettles(s: State, slot: Slot, copy: Delivery, maxAttempts: nat, deadLetters: bool)
    ensures var t := Apply(s, SettleOp(slot, copy, Discard, maxAttempts, deadLetters));
            && t == s.(deliveries := s.deliveries[slot := Delivery(copy.messageId, Discarded, copy.attempt)],
                       groups := t.groups)
            && CursorMoved(s, t, slot)
  {
    var d := Delivery(copy.messageId, Discarded, copy.attempt);
    assert Apply(s, SettleOp(slot, copy, Discard, maxAttempts, deadLetters))
        == AdvanceCursor(Close(s, slot, d, deadLetters), slot.group, slot.partition);
    ClosingMoves(s, slot, d, deadLetters);
  }

  /** A nack before the last attempt leaves it pending at the same attempt, and no cursor moves. */
  lemma NackRetries(s: State, slot: Slot, copy: Delivery, maxAttempts: nat, deadLetters: bool)
    requires copy.attempt < maxAttempts
    ensures Apply(s, SettleOp(slot, copy, Nack, maxAttempts, deadLetters))
            == s.(deliveries := s.deliveries[slot := Delivery(copy.messageId, Pending, copy.attempt)])
  {
  }

  /**
   A nack at the last attempt leaves it dead, with a dead letter if and only if these are kept and the
   message is stored, and its cursor moves.
  */
  lemma NackKills(s: State, slot: Slot, copy: Delivery, maxAttempts: nat, deadLetters: bool)
    requires copy.attempt >= maxAttempts
    ensures var t := Apply(s, SettleOp(slot, copy, Nack, maxAttempts, deadLetters));
            && t.deliveries == s.deliveries[slot := Delivery(copy.messageId, Dead, copy.attempt)]
            && t.dead == (if deadLetters && copy.messageId in s.messages then s.dead[slot := copy.messageId]
                          else s.dead)
            && t == s.(deliveries := t.deliveries, dead := t.dead, groups := t.groups)
            && CursorMoved(s, t, slot)
  {
    NackBuries(s, slot, copy, maxAttempts, deadLetters);
    BuryingMoves(s, slot, copy, deadLetters);
  }

  lemma NackBuries(s: State, slot: Slot, copy: Delivery, maxAttempts: nat, deadLetters: bool)
    requires copy.attempt >= maxAttempts
    ensures Apply(s, SettleOp(slot, copy, Nack, maxAttempts, deadLetters))
            == AdvanceCursor(Buried(s, slot, copy, deadLetters), slot.group, slot.partition)
  {
    NackCloses(s, slot, copy, maxAttempts, deadLetters);
    DeadIsBuried(s, slot, copy, deadLetters);
  }

  lemma NackCloses(s: State, slot: Slot, copy: Delivery, maxAttempts: nat, deadLetters: bool)
    requires copy.attempt >= maxAttempts
    ensures var d := Delivery(copy.messageId, Dead, copy.attempt);
            Settle(s, slot, copy, Nack, maxAttempts, deadLetters)
            == AdvanceCursor(Close(s, slot, d, deadLetters), slot.group, slot.partition)
  {
    assert copy.(status := OutcomeStatus(copy.attempt, Nack, maxAttempts))
        == Delivery(copy.messageId, Dead, copy.attempt);
  }

  /** The delivery is dead, and has a dead letter when these are kept and the message is stored. */
  function Buried(s: State, slot: Slot, copy: Delivery, deadLetters: bool): State {
    s.(deliveries := s.deliveries[slot := Delivery(copy.messageId, Dead, copy.attempt)],
       dead := if deadLetters && copy.messageId in s.messages then s.dead[slot := copy.messageId] else s.dead)
  }

  lemma BuryingMoves(s: State, slot: Slot, copy: Delivery, deadLetters: bool)
    ensures var u := Buried(s, slot, copy, deadLetters);
            var t := AdvanceCursor(u, slot.group, slot.partition);
            t == u.(groups := t.groups) && CursorMoved(s, t, slot)
  {
    AdvanceMoves(Buried(s, slot, copy, deadLetters), slot);
  }

  lemma DeadIsBuried(s: State, slot: Slot, copy: Delivery, deadLetters: bool)
    ensures Close(s, slot, Delivery(copy.messageId, Dead, copy.attempt), deadLetters)
            == Buried(s, slot, copy, deadLetters)
  {
  }

  lemma AdvanceMoves(s: State, slot: Slot)
    ensures CursorMoved(s, AdvanceCursor(s, slot.group, slot.partition), slot)
  {
  }

  // ---------- Before the handler ----------

  /** A delivery that is filtered out is settled as filtered, and its cursor moves. */
  lemma FilteredSettles(s: State, slot: Slot)
    requires slot in s.deliveries && !s.deliveries[slot].status.Acked? && s.deliveries[slot].messageId in s.messages
    ensures var t := Apply(s, ProcessOp(slot, false));
            var d := s.deliveries[slot];
            && t.deliveries == s.deliveries[slot := Delivery(d.messageId, Filtered, d.attempt)]
            && t == s.(deliveries := t.deliveries, groups := t.groups)
            && CursorMoved(s, t, slot)
  {
    var d := s.deliveries[slot];
    AdvanceMoves(s.(deliveries := s.deliveries[slot := Delivery(d.messageId, Filtered, d.attempt)]), slot);
  }

  /** One that passes is leased for one attempt more, and no cursor moves; one without a message is discarded. */
  lemma LeasedForOneMore(s: State, slot: Slot, passesFilter: bool)
    requires slot in s.deliveries && !s.deliveries[slot].status.Acked?
    ensures var d := s.deliveries[slot];
            && (d.messageId !in s.messages ==>
                  Apply(s, ProcessOp(slot, passesFilter))
                  == s.(deliveries := s.deliveries[slot := Delivery(d.messageId, Discarded, d.attempt)]))
            && (d.messageId in s.messages && passesFilter ==>
                  Apply(s, ProcessOp(slot, passesFilter))
                  == s.(deliveries := s.deliveries[slot := Delivery(d.messageId, Leased, d.attempt + 1)]))
  {
  }

  /** A delivery that is acked, or not there, is left alone. */
  lemma AckedIsLeftAlone(s: State, slot: Slot, passesFilter: bool)
    requires slot in s.deliveries ==> s.deliveries[slot].status.Acked?
    ensures Apply(s, ProcessOp(slot, passesFilter)) == s && Apply(s, RequeueOp(slot)) == s
  {
  }

  /** A dead letter that is retried is pending at the attempt it had, and is no dead letter any more. */
  lemma RetryReopens(s: State, slot: Slot)
    requires slot in s.dead && slot in s.deliveries
    ensures var d := s.deliveries[slot];
            Apply(s, RetryOp(slot)) ==
            s.(deliveries := s.deliveries[slot := Delivery(d.messageId, Pending, d.attempt)], dead := s.dead - {slot})
  {
  }

  /** A lease that has expired, or a retry that is due, makes the delivery pending; what is settled stays. */
  lemma RequeueReleases(s: State, slot: Slot)
    requires slot in s.deliveries
    ensures var d := s.deliveries[slot];
            Apply(s, RequeueOp(slot)) ==
            if IsOver(s.deliveries, slot) then s
            else s.(deliveries := s.deliveries[slot := Delivery(d.messageId, Pending, d.attempt)])
  {
    assert !IsOver(s.deliveries, slot) ==>
        s.deliveries[slot].status.Pending? || s.deliveries[slot].status.Leased?;
  }

  // ---------- Progress ----------

  predicate Acks(op: Op, slot: Slot) {
    op.SettleOp? && op.slot == slot && op.outcome.Ack?
  }

  /** The delivery is opened again, or settled in another way. */
  predicate Unacks(op: Op, slot: Slot) {
    (op.SettleOp? && op.slot == slot && !op.outcome.Ack?) || (op.RetryOp? && op.slot == slot) || Seeks(op, slot.group)
  }

  predicate IsAcked(s: State, slot: Slot) {
    slot in s.deliveries && s.deliveries[slot].status.Acked?
  }

  lemma AckIsAcked(s: State, op: Op, slot: Slot)
    requires Acks(op, slot)
    ensures IsAcked(Apply(s, op), slot)
  {
    AckSettles(s, slot, op.copy, op.maxAttempts, op.deadLetters);
  }

  lemma SettleLeavesOthers(s: State, op: Op, slot: Slot)
    requires op.SettleOp? && op.slot != slot && IsAcked(s, slot)
    ensures IsAcked(Apply(s, op), slot)
  {
    var d := op.copy.(status := OutcomeStatus(op.copy.attempt, op.outcome, op.maxAttempts));
    assert Close(s, op.slot, d, op.deadLetters).deliveries == s.deliveries[op.slot := d];
  }

  lemma ProcessLeavesAcked(s: State, op: Op, slot: Slot)
    requires op.ProcessOp? && IsAcked(s, slot)
    ensures IsAcked(Apply(s, op), slot)
  {
    if op.slot == slot {
      AckedIsLeftAlone(s, slot, op.passesFilter);
    } else {
      ProcessLeavesOthers(s, op.slot, op.passesFilter, slot);
    }
  }

  lemma ProcessLeavesOthers(s: State, slot: Slot, passesFilter: bool, other: Slot)
    requires other != slot
    ensures Lookup(Process(s, slot, passesFilter).deliveries, other) == Lookup(s.deliveries, other)
  {
    if slot in s.deliveries {
      var d := s.deliveries[slot].(status := Filtered);
      assert AdvanceCursor(Save(s, slot, d), slot.group, slot.partition).deliveries == s.deliveries[slot := d];
    }
  }

  lemma StaysAcked(s: State, op: Op, slot: Slot)
    requires Possible(s, op) && IsAcked(s, slot) && !Unacks(op, slot)
    ensures IsAcked(Apply(s, op), slot)
  {
    match op
    case SettleOp(other, _, _, _, _) =>
      if other == slot {
        AckIsAcked(s, op, slot);
      } else {
        SettleLeavesOthers(s, op, slot);
      }
    case ProcessOp(_, _) => ProcessLeavesAcked(s, op, slot);
    case _ =>
  }

  /** The delivery is acked at some moment of the run from `i` to `n`, and nothing undoes that. */
  ghost predicate AckedFor(ops: seq<Op>, i: nat, n: nat, slot: Slot)
    requires n <= |ops|
  {
    exists k :: i <= k < n && Acks(ops[k], slot) && forall j :: k < j < n ==> !Unacks(ops[j], slot)
  }

  lemma {:induction false} AckedUntil(run: seq<State>, ops: seq<Op>, k: nat, n: nat, slot: Slot)
    requires IsRun(run, ops) && k < n <= |ops| && Acks(ops[k], slot)
    requires forall j :: k < j < n ==> !Unacks(ops[j], slot)
    ensures IsAcked(run[n], slot)
    decreases n
  {
    assert Possible(run[n - 1], ops[n - 1]) && run[n] == Apply(run[n - 1], ops[n - 1]);
    if k + 1 == n {
      AckIsAcked(run[k], ops[k], slot);
    } else {
      AckedUntil(run, ops, k, n - 1, slot);
      StaysAcked(run[n - 1], ops[n - 1], slot);
    }
  }

  lemma AckedForIsDone(run: seq<State>, ops: seq<Op>, i: nat, n: nat, slot: Slot)
    requires IsRun(run, ops) && i <= n <= |ops| && AckedFor(ops, i, n, slot)
    ensures Done(run[n].deliveries, slot)
  {
    var k: nat :| i <= k < n && Acks(ops[k], slot) && forall j :: k < j < n ==> !Unacks(ops[j], slot);
    AckedUntil(run, ops, k, n, slot);
  }

  /**
   Progress: once every delivery after the cursor up to `o` has been acked, in whatever order, and none was
   opened again, the cursor has come to `o` or further.
  */
  lemma AckedIsCrossed(
    run: seq<State>, ops: seq<Op>, partitions: nat, foreignIds: set<Id>, i: nat, n: nat, g: string, p: nat, o: nat)
    requires IsRun(run, ops) && run[0] == Empty(partitions, foreignIds) && i <= n <= |ops| && g in run[i].groups
    requires forall k :: i <= k < n ==> !Seeks(ops[k], g)
    requires forall x :: At(run[i].groups[g], p) < x <= o ==> AckedFor(ops, i, n, Slot(g, p, x))
    ensures g in run[n].groups && At(run[n].groups[g], p) >= o
  {
    CursorCrossesOnlySettled(run, ops, i, n, g, p);
    var c := At(run[n].groups[g], p);
    if c < o {
      AckedForIsDone(run, ops, i, n, Slot(g, p, c + 1));
      CursorIsMaximal(run, ops, partitions, foreignIds, n, g, p);
    }
  }
}
