/**
 The log of a topic over any run: when its offsets are dense, which deliveries each group has, and
 what publishing the same message again does.
*/
module TopicLog {
  import opened Topic
  import opened TopicInvariants
  import opened Wrappers

  predicate InRange(s: State, slot: Slot) {
    slot.partition < s.partitions && 1 <= slot.offset <= At(s.heads, slot.partition)
  }

  ghost predicate Stored(s: State, slot: Slot) {
    exists id :: Sits(s.messages, id, slot)
  }

  /** Every offset up to the head of its partition holds a message. */
  ghost predicate Dense(s: State) {
    forall slot :: InRange(s, slot) ==> Stored(s, slot)
  }

  /** An offset that was handed out and holds no message. */
  ghost predicate Gap(s: State, slot: Slot) {
    InRange(s, slot) && !Stored(s, slot)
  }

  /**
   The publish takes an offset and then finds its message id in use: another topic stored it, or
   this topic did and the id is empty or was drawn again.
  */
  predicate Burns(s: State, op: Op) {
    op.PublishOp? && ExistingId(s, op.options).None? && Taken(s, op.options.messageId.GetOr(op.freshId))
  }

  // ---------- How the log grows ----------

  /** Messages and idempotency records are only added. */
  ghost predicate Grows(s: State, t: State) {
    && (forall id :: id in s.messages ==> id in t.messages && t.messages[id] == s.messages[id])
    && (forall key :: key in s.idempotency ==> key in t.idempotency && t.idempotency[key] == s.idempotency[key])
  }

  /** `t` differs from `s` at most in the records of groups and deliveries. */
  predicate SameLog(s: State, t: State) {
    t.messages == s.messages && t.heads == s.heads && t.idempotency == s.idempotency && t.partitions == s.partitions
  }

  lemma AdvanceKeepsLog(s: State, group: string, p: nat)
    ensures SameLog(s, AdvanceCursor(s, group, p)) && AdvanceCursor(s, group, p).groups.Keys == s.groups.Keys
  {
  }

  lemma ProcessKeepsLog(s: State, slot: Slot, passesFilter: bool)
    ensures SameLog(s, Process(s, slot, passesFilter)) && Process(s, slot, passesFilter).groups.Keys == s.groups.Keys
  {
    if slot in s.deliveries {
      AdvanceKeepsLog(Save(s, slot, s.deliveries[slot].(status := Filtered)), slot.group, slot.partition);
    }
  }

  lemma SettleKeepsLog(s: State, slot: Slot, copy: Delivery, outcome: Outcome, maxAttempts: nat, deadLetters: bool)
    ensures var t := Settle(s, slot, copy, outcome, maxAttempts, deadLetters);
            SameLog(s, t) && t.groups.Keys == s.groups.Keys
  {
    var d := copy.(status := OutcomeStatus(copy.attempt, outcome, maxAttempts));
    AdvanceKeepsLog(Close(s, slot, d, deadLetters), slot.group, slot.partition);
  }

  lemma EnsureKeepsLog(s: State, group: string, replay: bool)
    ensures SameLog(s, EnsureDeliveries(s, group, replay))
    ensures EnsureDeliveries(s, group, replay).groups == s.groups
  {
  }

  lemma SubscribeKeepsLog(s: State, group: string, from: StartFrom)
    ensures SameLog(s, Subscribe(s, group, from))
    ensures Subscribe(s, group, from).groups.Keys == s.groups.Keys + {group}
  {
    var created := s.(groups := s.groups[group := InitialOffsets(s, from)]);
    EnsureKeepsLog(if group in s.groups then s else created, group, false);
  }

  lemma SeekKeepsLog(s: State, group: string, to: SeekTo)
    ensures SameLog(s, Seek(s, group, to)) && Seek(s, group, to).groups.Keys == s.groups.Keys
  {
    if group in s.groups {
      EnsureKeepsLog(s.(groups := s.groups[group := SeekOffsets(s, to, s.groups[group])]), group, true);
    }
  }

  lemma OnlyPublishWritesLog(s: State, op: Op)
    requires !op.PublishOp?
    ensures SameLog(s, Apply(s, op))
  {
    match op
    case ProcessOp(slot, passes) => ProcessKeepsLog(s, slot, passes);
    case SettleOp(slot, copy, outcome, max, deadLetters) =>
      SettleKeepsLog(s, slot, copy, outcome, max, deadLetters);
    case SubscribeOp(group, from) => SubscribeKeepsLog(s, group, from);
    case SeekOp(group, to) => SeekKeepsLog(s, group, to);
    case ResumeOp(group) => EnsureKeepsLog(s, group, false);
    case _ =>
  }

  lemma PublishGrows(s: State, o: PublishOptions, p: nat, now: int, freshId: Id)
    ensures var t := Publish(s, o, p, now, freshId).0; Grows(s, t) && t.partitions == s.partitions
  {
  }

  lemma StepGrows(s: State, op: Op)
    ensures Grows(s, Apply(s, op)) && Apply(s, op).partitions == s.partitions
  {
    if op.PublishOp? {
      PublishGrows(s, op.options, op.p, op.now, op.freshId);
    } else {
      OnlyPublishWritesLog(s, op);
    }
  }

  lemma GrowsIsTransitive(s: State, t: State, u: State)
    requires Grows(s, t) && Grows(t, u)
    ensures Grows(s, u)
  {
  }

  lemma {:induction false} RunGrows(run: seq<State>, ops: seq<Op>, i: nat, n: nat)
    requires IsRun(run, ops) && i <= n <= |ops|
    ensures Grows(run[i], run[n]) && run[i].partitions == run[n].partitions
    decreases n
  {
    if i < n {
      RunGrows(run, ops, i, n - 1);
      StepGrows(run[n - 1], ops[n - 1]);
      GrowsIsTransitive(run[i], run[n - 1], run[n]);
    }
  }

  lemma PublishFillsOrBurns(s: State, op: Op, slot: Slot)
    requires LogOk(s) && Possible(s, op) && op.PublishOp? && ExistingId(s, op.options).None?
    requires slot.partition == op.p && slot.offset == At(s.heads, op.p) + 1
    ensures InRange(Apply(s, op), slot)
    ensures Stored(Apply(s, op), slot) <==> !Burns(s, op)
  {
    var t := Apply(s, op);
    if Burns(s, op) {
      forall id | id in s.messages
        ensures !Sits(t.messages, id, slot)
      {
        assert InLog(s, s.messages[id]);
      }
    } else {
      assert Sits(t.messages, op.options.messageId.GetOr(op.freshId), slot);
    }
  }

  lemma GapStays(s: State, op: Op, slot: Slot)
    requires Possible(s, op) && Gap(s, slot)
    ensures Gap(Apply(s, op), slot)
  {
    if !op.PublishOp? {
      OnlyPublishWritesLog(s, op);
    }
    var t := Apply(s, op);
    forall id | id in t.messages
      ensures !Sits(t.messages, id, slot)
    {
      assert !Sits(s.messages, id, slot);
    }
  }

  lemma DenseIffNotBurned(s: State, op: Op)
    requires Inv(s) && Possible(s, op) && Dense(s)
    ensures Dense(Apply(s, op)) <==> !Burns(s, op)
  {
    StepGrows(s, op);
    if !op.PublishOp? {
      OnlyPublishWritesLog(s, op);
    }
    var t := Apply(s, op);
    if Burns(s, op) {
      PublishFillsOrBurns(s, op, Slot("", op.p, At(s.heads, op.p) + 1));
    } else {
      forall slot | InRange(t, slot)
        ensures Stored(t, slot)
      {
        if InRange(s, slot) {
          var id :| Sits(s.messages, id, slot);
          assert Sits(t.messages, id, slot);
        } else {
          PublishFillsOrBurns(s, op, slot);
        }
      }
    }
  }

  /** After one operation the offsets are dense exactly when they were before and it did not burn one. */
  lemma DenseStep(s: State, op: Op)
    requires Inv(s) && Possible(s, op)
    ensures Dense(Apply(s, op)) <==> Dense(s) && !Burns(s, op)
  {
    if Dense(s) {
      DenseIffNotBurned(s, op);
    } else {
      var slot :| InRange(s, slot) && !Stored(s, slot);
      GapStays(s, op, slot);
    }
  }

  lemma {:induction false} GapStaysForever(run: seq<State>, ops: seq<Op>, i: nat, n: nat, slot: Slot)
    requires IsRun(run, ops) && i <= n <= |ops| && Gap(run[i], slot)
    ensures Gap(run[n], slot)
    decreases n
  {
    if i < n {
      GapStaysForever(run, ops, i, n - 1, slot);
      GapStays(run[n - 1], ops[n - 1], slot);
    }
  }

  // ---------- Density ----------

  /** None of the first `n` operations burned an offset. */
  ghost predicate NoneBurned(run: seq<State>, ops: seq<Op>, n: nat)
    requires n <= |ops| <= |run|
  {
    forall i :: 0 <= i < n ==> !Burns(run[i], ops[i])
  }

  ghost predicate DenseAt(run: seq<State>, ops: seq<Op>, i: nat)
    requires i < |ops| < |run|
  {
    Dense(run[i + 1]) <==> Dense(run[i]) && !Burns(run[i], ops[i])
  }

  lemma RunDenseStep(run: seq<State>, ops: seq<Op>, partitions: nat, foreignIds: set<Id>, i: nat)
    requires IsRun(run, ops) && run[0] == Empty(partitions, foreignIds) && i < |ops|
    ensures DenseAt(run, ops, i)
  {
    EmptyIsFine(partitions, foreignIds);
    RunKeeps(run, ops, i);
    DenseStep(run[i], ops[i]);
  }

  lemma {:induction false} DenseChain(run: seq<State>, ops: seq<Op>, n: nat)
    requires n <= |ops| < |run| && Dense(run[0]) && forall i :: 0 <= i < n ==> DenseAt(run, ops, i)
    ensures Dense(run[n]) <==> NoneBurned(run, ops, n)
  {
    if n > 0 {
      DenseChain(run, ops, n - 1);
      assert DenseAt(run, ops, n - 1);
    }
  }

  lemma EmptyIsDense(partitions: nat, foreignIds: set<Id>)
    ensures Dense(Empty(partitions, foreignIds))
  {
  }

  /** From an empty topic the stored offsets are exactly 1..head exactly when no publish burned one. */
  lemma RunIsDenseIff(run: seq<State>, ops: seq<Op>, partitions: nat, foreignIds: set<Id>, n: nat)
    requires IsRun(run, ops) && run[0] == Empty(partitions, foreignIds) && n <= |ops|
    ensures Dense(run[n]) <==> NoneBurned(run, ops, n)
  {
    EmptyIsDense(partitions, foreignIds);
    forall i | 0 <= i < n
      ensures DenseAt(run, ops, i)
    {
      RunDenseStep(run, ops, partitions, foreignIds, i);
    }
    DenseChain(run, ops, n);
  }

  lemma GapHasNoDelivery(s: State, slot: Slot)
    requires DeliveriesOk(s) && Gap(s, slot)
    ensures !Done(s.deliveries, slot)
  {
    assert slot in s.deliveries ==> Sits(s.messages, s.deliveries[slot].messageId, slot);
  }

  /** A burned offset holds up every group before it until that group is moved by a seek. */
  lemma GapStopsCursor(run: seq<State>, ops: seq<Op>, i: nat, n: nat, slot: Slot)
    requires IsRun(run, ops) && Inv(run[0]) && i <= n <= |ops| && Gap(run[i], slot)
    requires Awaits(run[i], slot) && forall k :: i <= k < n ==> !Seeks(ops[k], slot.group)
    ensures Awaits(run[n], slot)
  {
    var g, p := slot.group, slot.partition;
    CursorCrossesOnlySettled(run, ops, i, n, g, p);
    assert slot == Slot(g, p, slot.offset);
    forall k | i < k <= n
      ensures !Done(run[k].deliveries, slot)
    {
      GapStaysForever(run, ops, i, k, slot);
      RunKeeps(run, ops, k);
      GapHasNoDelivery(run[k], slot);
    }
  }

  // ---------- The deliveries of a group ----------

  /** The group has a delivery for exactly the stored messages beyond `start`. */
  ghost predicate Exact(s: State, g: string, start: Offsets) {
    && g in s.groups
    && (forall slot: Slot :: slot.group == g ==>
          (slot in s.deliveries <==> slot.offset > At(start, slot.partition) && Stored(s, slot)))
    && forall p :: ReachedByDelivery(s, g, start, p)
  }

  /** The cursor is at the start or at the offset of a delivery. */
  predicate ReachedByDelivery(s: State, g: string, start: Offsets, p: nat)
    requires g in s.groups
  {
    || At(s.groups[g], p) == At(start, p)
    || (At(s.groups[g], p) > At(start, p) && Slot(g, p, At(s.groups[g], p)) in s.deliveries)
  }

  lemma SameLogSameStored(s: State, t: State)
    requires s.messages == t.messages
    ensures forall slot :: Stored(s, slot) == Stored(t, slot)
  {
  }

  lemma AdvanceKeepsExact(s: State, group: string, q: nat, g: string, start: Offsets)
    requires Exact(s, g, start)
    ensures Exact(AdvanceCursor(s, group, q), g, start)
  {
    var t := AdvanceCursor(s, group, q);
    SameLogSameStored(s, t);
    forall p
      ensures ReachedByDelivery(t, g, start, p)
    {
      AdvanceCrosses(s, group, q, g, p);
      assert ReachedByDelivery(s, g, start, p);
    }
  }

  /** Rewriting the delivery at a slot that has one keeps the set of deliveries. */
  lemma SaveKeepsExact(s: State, t: State, g: string, start: Offsets)
    requires Exact(s, g, start)
    requires t == s.(deliveries := t.deliveries, dead := t.dead) && t.deliveries.Keys == s.deliveries.Keys
    ensures Exact(t, g, start)
  {
    SameLogSameStored(s, t);
    forall p
      ensures ReachedByDelivery(t, g, start, p)
    {
      assert ReachedByDelivery(s, g, start, p);
    }
  }

  /** The new offset gets a delivery for the group exactly when it lies beyond the start. */
  lemma NewOffsetIsExact(s: State, t: State, id: Id, m: Message, g: string, start: Offsets)
    requires LogOk(s) && DeliveriesOk(s) && g in s.groups && Stores(s, t, id, m)
    requires ReachedByDelivery(s, g, start, m.partition)
    ensures Slot(g, m.partition, m.offset) in t.deliveries <==> m.offset > At(start, m.partition)
  {
    OffsetWithinHead(s, Slot(g, m.partition, At(s.groups[g], m.partition)));
    OffsetWithinHead(s, Slot(g, m.partition, m.offset));
  }

  lemma OffsetWithinHead(s: State, slot: Slot)
    requires LogOk(s) && DeliveriesOk(s)
    ensures slot in s.deliveries ==> slot.offset <= At(s.heads, slot.partition)
  {
    if slot in s.deliveries {
      assert Sits(s.messages, s.deliveries[slot].messageId, slot);
      assert InLog(s, s.messages[s.deliveries[slot].messageId]);
    }
  }

  /** Storing a message changes neither what other slots hold nor their deliveries. */
  lemma StoreLeavesOthers(s: State, t: State, id: Id, m: Message, slot: Slot)
    requires Stores(s, t, id, m) && (slot.partition != m.partition || slot.offset != m.offset)
    ensures Stored(t, slot) == Stored(s, slot)
    ensures slot in t.deliveries <==> slot in s.deliveries
  {
    assert forall other :: Sits(t.messages, other, slot) <==> Sits(s.messages, other, slot);
  }

  lemma StoreKeepsExact(s: State, t: State, id: Id, m: Message, g: string, start: Offsets)
    requires LogOk(s) && DeliveriesOk(s) && Exact(s, g, start) && Stores(s, t, id, m)
    ensures Exact(t, g, start)
  {
    assert ReachedByDelivery(s, g, start, m.partition);
    NewOffsetIsExact(s, t, id, m, g, start);
    forall slot: Slot | slot.group == g
      ensures slot in t.deliveries <==> slot.offset > At(start, slot.partition) && Stored(t, slot)
    {
      if slot == Slot(g, m.partition, m.offset) {
        assert Sits(t.messages, id, slot);
      } else {
        StoreLeavesOthers(s, t, id, m, slot);
      }
    }
    forall p
      ensures ReachedByDelivery(t, g, start, p)
    {
      assert ReachedByDelivery(s, g, start, p);
    }
  }

  lemma BurnKeepsExact(s: State, op: Op, g: string, start: Offsets)
    requires op.PublishOp? && ExistingId(s, op.options).None? && Burns(s, op) && Exact(s, g, start)
    ensures Exact(Apply(s, op), g, start)
  {
    var t := Apply(s, op);
    SameLogSameStored(s, t);
    forall p
      ensures ReachedByDelivery(t, g, start, p)
    {
      assert ReachedByDelivery(s, g, start, p);
    }
  }

  lemma PublishKeepsExact(s: State, op: Op, g: string, start: Offsets)
    requires Inv(s) && Possible(s, op) && op.PublishOp? && Exact(s, g, start)
    ensures Exact(Apply(s, op), g, start)
  {
    var t := Apply(s, op);
    if ExistingId(s, op.options).None? {
      if Burns(s, op) {
        BurnKeepsExact(s, op, g, start);
      } else {
        PublishStores(s, op.options, op.p, op.now, op.freshId);
        var m := Message(op.p, At(s.heads, op.p) + 1, op.now);
        StoreKeepsExact(s, t, op.options.messageId.GetOr(op.freshId), m, g, start);
      }
    }
  }

  lemma PlacedKeepsExact(s: State, group: string, offsets: Offsets, replay: bool, g: string, start: Offsets)
    requires Exact(s, g, start) && g != group
    ensures Exact(Placed(s, group, offsets, replay), g, start)
  {
    var t := Placed(s, group, offsets, replay);
    SameLogSameStored(s, t);
    forall p
      ensures ReachedByDelivery(t, g, start, p)
    {
      assert ReachedByDelivery(s, g, start, p);
    }
  }

  lemma ProcessKeepsExact(s: State, op: Op, g: string, start: Offsets)
    requires Exact(s, g, start) && op.ProcessOp?
    ensures Exact(Apply(s, op), g, start)
  {
    var slot := op.slot;
    if slot in s.deliveries && !s.deliveries[slot].status.Acked? {
      var d := s.deliveries[slot];
      if d.messageId in s.messages && !op.passesFilter {
        var t := Save(s, slot, d.(status := Filtered));
        SaveKeepsExact(s, t, g, start);
        AdvanceKeepsExact(t, slot.group, slot.partition, g, start);
      } else {
        SaveKeepsExact(s, Apply(s, op), g, start);
      }
    }
  }

  lemma SettleKeepsExact(s: State, op: Op, g: string, start: Offsets)
    requires Exact(s, g, start) && op.SettleOp? && Possible(s, op)
    ensures Exact(Apply(s, op), g, start)
  {
    var d := op.copy.(status := OutcomeStatus(op.copy.attempt, op.outcome, op.maxAttempts));
    var u := Close(s, op.slot, d, op.deadLetters);
    SaveKeepsExact(s, u, g, start);
    AdvanceKeepsExact(u, op.slot.group, op.slot.partition, g, start);
  }

  lemma ForeignKeepsExact(s: State, id: Id, g: string, start: Offsets)
    requires Exact(s, g, start)
    ensures Exact(s.(foreignIds := s.foreignIds + {id}), g, start)
  {
    var t := s.(foreignIds := s.foreignIds + {id});
    SameLogSameStored(s, t);
    forall p
      ensures ReachedByDelivery(t, g, start, p)
    {
      assert ReachedByDelivery(s, g, start, p);
    }
  }

  lemma ReopenKeepsExact(s: State, op: Op, g: string, start: Offsets)
    requires Exact(s, g, start) && (op.RetryOp? || op.RequeueOp?)
    ensures Exact(Apply(s, op), g, start)
  {
    SaveKeepsExact(s, Apply(s, op), g, start);
  }

  lemma StepKeepsExact(s: State, op: Op, g: string, start: Offsets)
    requires Inv(s) && Possible(s, op) && Exact(s, g, start) && !Seeks(op, g)
    ensures Exact(Apply(s, op), g, start)
  {
    match op
    case PublishOp(_, _, _, _) => PublishKeepsExact(s, op, g, start);
    case SubscribeOp(group, from) =>
      if group in s.groups {
        EnsureIsIdle(s, group);
      } else {
        PlacedKeepsExact(s, group, InitialOffsets(s, from), false, g, start);
      }
    case ResumeOp(group) => EnsureIsIdle(s, group);
    case SeekOp(group, to) =>
      if group in s.groups {
        PlacedKeepsExact(s, group, SeekOffsets(s, to, s.groups[group]), true, g, start);
      }
    case ProcessOp(_, _) => ProcessKeepsExact(s, op, g, start);
    case SettleOp(_, _, _, _, _) => SettleKeepsExact(s, op, g, start);
    case ForeignOp(id) => ForeignKeepsExact(s, id, g, start);
    case _ => ReopenKeepsExact(s, op, g, start);
  }

  lemma NewGroupAt(s: State, g: string, offsets: Offsets, slot: Slot)
    requires LogOk(s) && DeliveriesOk(s) && g !in s.groups && slot.group == g
    ensures slot in Placed(s, g, offsets, false).deliveries <==>
              slot.offset > At(offsets, slot.partition) && Stored(s, slot)
  {
    var u := s.(groups := s.groups[g := offsets]);
    assert LogOk(u) by {
      assert forall id :: id in s.messages ==> InLog(s, s.messages[id]) ==> InLog(u, u.messages[id]);
    }
    BeyondIsExact(u, g, offsets, slot);
    assert slot in s.deliveries ==> g in s.groups;
  }

  lemma NewGroupIsExact(s: State, g: string, offsets: Offsets)
    requires LogOk(s) && DeliveriesOk(s) && g !in s.groups
    ensures Exact(Placed(s, g, offsets, false), g, offsets)
  {
    var t := Placed(s, g, offsets, false);
    EnsureKeepsLog(s.(groups := s.groups[g := offsets]), g, false);
    SameLogSameStored(s, t);
    forall slot: Slot | slot.group == g
      ensures slot in t.deliveries <==> slot.offset > At(offsets, slot.partition) && Stored(t, slot)
    {
      NewGroupAt(s, g, offsets, slot);
    }
  }

  lemma OnlySubscribeCreates(s: State, op: Op, g: string)
    requires g !in s.groups && g in Apply(s, op).groups
    ensures op.SubscribeOp? && op.group == g
  {
    match op
    case ProcessOp(slot, passes) => ProcessKeepsLog(s, slot, passes);
    case SettleOp(slot, copy, outcome, max, deadLetters) =>
      SettleKeepsLog(s, slot, copy, outcome, max, deadLetters);
    case SubscribeOp(group, from) => SubscribeKeepsLog(s, group, from);
    case SeekOp(group, to) => SeekKeepsLog(s, group, to);
    case ResumeOp(group) => EnsureKeepsLog(s, group, false);
    case _ =>
  }

  /** A group is born with a pending delivery for every stored message beyond its initial offsets. */
  lemma BirthIsExact(s: State, op: Op, g: string)
    requires LogOk(s) && DeliveriesOk(s) && g !in s.groups && g in Apply(s, op).groups
    ensures op.SubscribeOp? && Apply(s, op).groups[g] == InitialOffsets(s, op.from)
    ensures Exact(Apply(s, op), g, Apply(s, op).groups[g])
  {
    OnlySubscribeCreates(s, op, g);
    NewGroupIsExact(s, g, InitialOffsets(s, op.from));
  }

  ghost predicate Follows(s: State, op: Op, t: State) {
    Possible(s, op) && t == Apply(s, op)
  }

  lemma RunStep(run: seq<State>, ops: seq<Op>, k: nat)
    requires IsRun(run, ops) && k < |ops|
    ensures Follows(run[k], ops[k], run[k + 1])
  {
  }

  lemma ExactAfter(s: State, op: Op, t: State, g: string, start: Offsets)
    requires Follows(s, op, t) && !Seeks(op, g)
    ensures Inv(s) && Exact(s, g, start) ==> Exact(t, g, start)
  {
    if Inv(s) && Exact(s, g, start) {
      StepKeepsExact(s, op, g, start);
    }
  }

  ghost predicate KeepsExactAt(run: seq<State>, k: nat, g: string, start: Offsets)
    requires k + 1 < |run|
  {
    Exact(run[k], g, start) ==> Exact(run[k + 1], g, start)
  }

  lemma ExactStep(run: seq<State>, ops: seq<Op>, k: nat, g: string, start: Offsets)
    requires IsRun(run, ops) && Inv(run[0]) && k < |ops| && !Seeks(ops[k], g)
    ensures KeepsExactAt(run, k, g, start)
  {
    RunKeeps(run, ops, k);
    RunStep(run, ops, k);
    ExactAfter(run[k], ops[k], run[k + 1], g, start);
  }

  lemma {:induction false} ExactChain(run: seq<State>, i: nat, n: nat, g: string, start: Offsets)
    requires i <= n < |run| && Exact(run[i], g, start)
    requires forall k :: i <= k < n ==> KeepsExactAt(run, k, g, start)
    ensures Exact(run[n], g, start)
    decreases n
  {
    if i < n {
      ExactChain(run, i, n - 1, g, start);
      assert KeepsExactAt(run, n - 1, g, start);
    }
  }

  lemma RunKeepsExact(run: seq<State>, ops: seq<Op>, i: nat, n: nat, g: string, start: Offsets)
    requires IsRun(run, ops) && Inv(run[0]) && i <= n <= |ops| && Exact(run[i], g, start)
    requires forall k :: i <= k < n ==> !Seeks(ops[k], g)
    ensures Exact(run[n], g, start)
  {
    forall k | i <= k < n
      ensures KeepsExactAt(run, k, g, start)
    {
      ExactStep(run, ops, k, g, start);
    }
    ExactChain(run, i, n, g, start);
  }

  /**
   A group created by the operation `i` and never moved by a seek has one delivery for exactly the
   offsets after its start up to the head of each partition, as long as no publish burned an offset.
  */
  lemma OneDeliveryPerOffset(
    run: seq<State>, ops: seq<Op>, partitions: nat, foreignIds: set<Id>, i: nat, n: nat, g: string, slot: Slot)
    requires IsRun(run, ops) && run[0] == Empty(partitions, foreignIds) && i < n <= |ops|
    requires g !in run[i].groups && g in run[i + 1].groups && slot.group == g
    requires forall k :: i < k < n ==> !Seeks(ops[k], g)
    requires NoneBurned(run, ops, n)
    ensures slot in run[n].deliveries <==>
              slot.partition < partitions
              && At(run[i + 1].groups[g], slot.partition) < slot.offset <= At(run[n].heads, slot.partition)
  {
    EmptyIsFine(partitions, foreignIds);
    RunKeeps(run, ops, i);
    RunKeeps(run, ops, n);
    BirthIsExact(run[i], ops[i], g);
    RunKeepsExact(run, ops, i + 1, n, g, run[i + 1].groups[g]);
    RunIsDenseIff(run, ops, partitions, foreignIds, n);
    RunGrows(run, ops, 0, n);
    if Stored(run[n], slot) {
      var id :| Sits(run[n].messages, id, slot);
      assert InLog(run[n], run[n].messages[id]);
    }
    var head := At(run[n].heads, slot.partition);
    assert slot.partition < partitions && 1 <= slot.offset <= head ==> InRange(run[n], slot);
  }

  // ---------- Publishing again ----------

  lemma PublishIsIdleIff(s: State, o: PublishOptions, p: nat, now: int, freshId: Id)
    ensures Publish(s, o, p, now, freshId).0 == s <==> ExistingId(s, o).Some?
  {
    if ExistingId(s, o).None? {
      assert At(Publish(s, o, p, now, freshId).0.heads, p) == At(s.heads, p) + 1;
    }
  }

  /**
   Publishing the same options again at once returns the first id and changes nothing exactly when
   the first publish was itself a repeat, or stored its message under a given id or a new key.
  */
  lemma RepublishIsIdleIff(s: State, o: PublishOptions, p: nat, now: int, freshId: Id, q: nat, later: int, otherId: Id)
    ensures var (t, id) := Publish(s, o, p, now, freshId);
            Publish(t, o, q, later, otherId) == (t, id) <==>
            || ExistingId(s, o).Some?
            || (!Taken(s, id)
                && (Given(o.messageId)
                    || (Given(o.idempotencyKey) && o.idempotencyKey.value !in s.idempotency && id != "")))
  {
    var (t, id) := Publish(s, o, p, now, freshId);
    PublishIsIdleIff(t, o, q, later, otherId);
    if ExistingId(s, o).None? && !Taken(s, id) {
      assert Given(o.messageId) ==> id == o.messageId.value;
    }
  }

  /**
   Once a message is stored under the id given by its publisher, or under a key given without an id,
   every later publish with the same options returns that id and changes nothing.
  */
  lemma RepublishIsIdleForever(
    run: seq<State>, ops: seq<Op>, i: nat, n: nat, o: PublishOptions, p: nat, now: int, freshId: Id)
    requires IsRun(run, ops) && i <= n <= |ops|
    requires ExistingId(run[i], o).Some?
    requires Given(o.messageId) ==> ExistingId(run[i], o) == o.messageId
    ensures Publish(run[n], o, p, now, freshId) == (run[n], ExistingId(run[i], o).value)
  {
    RunGrows(run, ops, i, n);
  }
}
