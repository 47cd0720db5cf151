/**
 What every operation on a topic keeps, over any run: no stored message is ever lost to a group, and
 the committed cursor is exactly the settled prefix since the group's last starting point.
*/
module TopicInvariants {
  import opened Topic
  import opened Wrappers

  /** No two messages share a partition and an offset. */
  ghost predicate DistinctOffsets(messages: map<Id, Message>) {
    forall slot, a, b :: Sits(messages, a, slot) && Sits(messages, b, slot) ==> a == b
  }

  predicate InLog(s: State, m: Message) {
    m.partition < s.partitions && 1 <= m.offset <= At(s.heads, m.partition)
  }

  ghost predicate LogOk(s: State) {
    && (forall id :: id in s.messages ==> InLog(s, s.messages[id]))
    && DistinctOffsets(s.messages)
  }

  /** Every delivery is of the message at its slot, for a known group. */
  ghost predicate DeliveriesOk(s: State) {
    forall slot :: slot in s.deliveries ==>
      slot.group in s.groups && Sits(s.messages, s.deliveries[slot].messageId, slot)
  }

  /** The slot lies beyond the cursor of its group. */
  predicate Awaits(s: State, slot: Slot) {
    slot.group in s.groups && slot.offset > At(s.groups[slot.group], slot.partition)
  }

  /** Every message beyond a group's cursor has a delivery for that group: none is skipped. */
  ghost predicate Covered(s: State) {
    forall slot, id :: Sits(s.messages, id, slot) && Awaits(s, slot) ==> slot in s.deliveries
  }

  predicate Stopped(s: State, g: string, p: nat)
    requires g in s.groups
  {
    !Done(s.deliveries, Slot(g, p, At(s.groups[g], p) + 1))
  }

  /** The cursor has crossed everything it may: the next delivery is absent or not terminal. */
  ghost predicate Maximal(s: State) {
    forall g, p :: g in s.groups ==> Stopped(s, g, p)
  }

  ghost predicate MaximalExcept(s: State, group: string, partition: nat) {
    forall g, p :: g in s.groups && (g != group || p != partition) ==> Stopped(s, g, p)
  }

  ghost predicate DeadOk(s: State) {
    forall slot :: slot in s.dead ==> slot in s.deliveries && s.dead[slot] == s.deliveries[slot].messageId
  }

  /** Idempotency records name stored messages. */
  ghost predicate IdempotencyOk(s: State) {
    forall key :: key in s.idempotency ==> s.idempotency[key] in s.messages
  }

  ghost predicate Records(s: State) {
    LogOk(s) && DeliveriesOk(s) && Covered(s) && DeadOk(s) && IdempotencyOk(s)
  }

  ghost predicate Inv(s: State) {
    Records(s) && Maximal(s)
  }

  // ---------- The cursor ----------

  lemma AdvanceKeepsRecords(s: State, group: string, p: nat)
    requires Records(s)
    ensures Records(AdvanceCursor(s, group, p))
  {
  }

  lemma AdvanceIsMaximal(s: State, group: string, p: nat)
    requires MaximalExcept(s, group, p)
    ensures Maximal(AdvanceCursor(s, group, p))
  {
    if group in s.groups {
      var t := AdvanceCursor(s, group, p);
      forall g, q | g in t.groups
        ensures Stopped(t, g, q)
      {
        if g != group || q != p {
          assert Stopped(s, g, q);
        }
      }
    }
  }

  // ---------- Rewriting one delivery ----------

  /** `t` differs from `s` in the delivery at `slot`, and in what that implies for the other records. */
  ghost predicate Rewrites(s: State, t: State, slot: Slot) {
    && slot in s.deliveries
    && slot in t.deliveries
    && t.deliveries[slot].messageId == s.deliveries[slot].messageId
    && t == s.(deliveries := s.deliveries[slot := t.deliveries[slot]], dead := t.dead)
    && forall k :: k in t.dead ==>
         (k in s.dead && t.dead[k] == s.dead[k]) || (k == slot && t.dead[k] == t.deliveries[k].messageId)
  }

  lemma RewriteKeepsRecords(s: State, t: State, slot: Slot)
    requires Records(s) && Rewrites(s, t, slot)
    ensures Records(t)
  {
    assert t.deliveries.Keys == s.deliveries.Keys;
  }

  lemma RewriteIsMaximal(s: State, t: State, slot: Slot)
    requires Maximal(s) && Rewrites(s, t, slot)
    ensures MaximalExcept(t, slot.group, slot.partition)
    ensures Terminal(t.deliveries[slot].status) || Maximal(t)
  {
    forall g, p | g in t.groups && (g != slot.group || p != slot.partition || !Terminal(t.deliveries[slot].status))
      ensures Stopped(t, g, p)
    {
      assert Stopped(s, g, p);
    }
  }

  /** Opening a delivery again keeps everything, wherever the cursor is. */
  lemma ReopenKeeps(s: State, t: State, slot: Slot)
    requires Inv(s) && Rewrites(s, t, slot) && !Terminal(t.deliveries[slot].status)
    ensures Inv(t)
  {
    RewriteKeepsRecords(s, t, slot);
    RewriteIsMaximal(s, t, slot);
  }

  /** Closing a delivery and moving the cursor of its partition keeps everything. */
  lemma CloseKeeps(s: State, t: State, slot: Slot)
    requires Inv(s) && Rewrites(s, t, slot)
    ensures Inv(AdvanceCursor(t, slot.group, slot.partition))
  {
    RewriteKeepsRecords(s, t, slot);
    RewriteIsMaximal(s, t, slot);
    AdvanceKeepsRecords(t, slot.group, slot.partition);
    AdvanceIsMaximal(t, slot.group, slot.partition);
  }

  lemma ProcessKeeps(s: State, slot: Slot, passesFilter: bool)
    requires Inv(s)
    ensures Inv(Process(s, slot, passesFilter))
  {
    if slot in s.deliveries && !s.deliveries[slot].status.Acked? {
      assert s.deliveries[slot].messageId in s.messages by { assert DeliveriesOk(s); }
      if passesFilter {
        ReopenKeeps(s, Process(s, slot, true), slot);
      } else {
        CloseKeeps(s, Save(s, slot, s.deliveries[slot].(status := Filtered)), slot);
      }
    }
  }

  lemma SettleKeeps(s: State, slot: Slot, copy: Delivery, outcome: Outcome, maxAttempts: nat, deadLetters: bool)
    requires Inv(s) && slot in s.deliveries && s.deliveries[slot].messageId == copy.messageId
    ensures Inv(Settle(s, slot, copy, outcome, maxAttempts, deadLetters))
  {
    var d := copy.(status := OutcomeStatus(copy.attempt, outcome, maxAttempts));
    if d.status.Pending? {
      ReopenKeeps(s, Save(s, slot, d), slot);
    } else {
      CloseKeeps(s, Close(s, slot, d, deadLetters), slot);
    }
  }

  lemma RetryKeeps(s: State, slot: Slot)
    requires Inv(s)
    ensures Inv(RetryDeadLetter(s, slot))
  {
    if slot in s.dead && slot in s.deliveries {
      ReopenKeeps(s, RetryDeadLetter(s, slot), slot);
    }
  }

  lemma RequeueRewrites(s: State, slot: Slot)
    requires slot in s.deliveries && (s.deliveries[slot].status.Leased? || s.deliveries[slot].status.Pending?)
    ensures Rewrites(s, Requeue(s, slot), slot) && Requeue(s, slot).deliveries[slot].status.Pending?
  {
  }

  lemma RequeueKeeps(s: State, slot: Slot)
    requires Inv(s)
    ensures Inv(Requeue(s, slot))
  {
    if slot in s.deliveries && (s.deliveries[slot].status.Leased? || s.deliveries[slot].status.Pending?) {
      RequeueRewrites(s, slot);
      ReopenKeeps(s, Requeue(s, slot), slot);
    }
  }

  // ---------- Publishing ----------

  /** A publish that stores its message: the offset is fresh and every group that awaits it gets a delivery. */
  ghost predicate Stores(s: State, t: State, id: Id, m: Message) {
    && id !in s.messages
    && m.partition < s.partitions
    && m.offset == At(s.heads, m.partition) + 1
    && t.messages == s.messages[id := m]
    && t.heads == Set(s.heads, m.partition, m.offset)
    && t == s.(messages := t.messages, idempotency := t.idempotency, heads := t.heads,
               deliveries := NewDeliveries(s.groups, id, m) + s.deliveries)
    && forall key :: key in t.idempotency ==>
         (key in s.idempotency && t.idempotency[key] == s.idempotency[key]) || t.idempotency[key] == id
  }

  lemma StoreKeepsLog(s: State, t: State, id: Id, m: Message)
    requires LogOk(s) && IdempotencyOk(s) && Stores(s, t, id, m)
    ensures LogOk(t) && IdempotencyOk(t)
  {
    forall other | other in t.messages
      ensures InLog(t, t.messages[other])
    {
      assert other != id ==> InLog(s, s.messages[other]);
    }
    forall slot, a, b | Sits(t.messages, a, slot) && Sits(t.messages, b, slot)
      ensures a == b
    {
      assert a != id ==> InLog(s, s.messages[a]) && Sits(s.messages, a, slot);
      assert b != id ==> InLog(s, s.messages[b]) && Sits(s.messages, b, slot);
    }
  }

  lemma StoreKeepsDeliveries(s: State, t: State, id: Id, m: Message)
    requires LogOk(s) && DeliveriesOk(s) && DeadOk(s) && Stores(s, t, id, m)
    ensures DeliveriesOk(t) && DeadOk(t)
  {
    forall slot | slot in t.deliveries
      ensures slot.group in t.groups && Sits(t.messages, t.deliveries[slot].messageId, slot)
    {
      if slot in s.deliveries {
        assert Sits(s.messages, s.deliveries[slot].messageId, slot);
      }
    }
  }

  lemma StoreCovers(s: State, t: State, id: Id, m: Message)
    requires Covered(s) && Stores(s, t, id, m)
    ensures Covered(t)
  {
    forall slot, other | Sits(t.messages, other, slot) && Awaits(t, slot)
      ensures slot in t.deliveries
    {
      if other != id {
        assert Sits(s.messages, other, slot) && Awaits(s, slot);
      } else {
        assert slot in NewDeliveries(s.groups, id, m);
      }
    }
  }

  lemma StoreIsMaximal(s: State, t: State, id: Id, m: Message)
    requires Maximal(s) && Stores(s, t, id, m)
    ensures Maximal(t)
  {
    forall g, q | g in t.groups
      ensures Stopped(t, g, q)
    {
      assert Stopped(s, g, q);
    }
  }

  /** Taking an offset and storing nothing keeps everything but the density of the log. */
  lemma BurnKeeps(s: State, p: nat)
    requires Inv(s)
    ensures Inv(s.(heads := Set(s.heads, p, At(s.heads, p) + 1)))
  {
    var t := s.(heads := Set(s.heads, p, At(s.heads, p) + 1));
    forall id | id in t.messages
      ensures InLog(t, t.messages[id])
    {
      assert InLog(s, s.messages[id]);
    }
    assert Covered(t) by {
      assert forall slot :: Awaits(t, slot) ==> Awaits(s, slot);
    }
    assert Maximal(t) by {
      assert forall g, q :: g in t.groups && Stopped(s, g, q) ==> Stopped(t, g, q);
    }
  }

  lemma StoreKeeps(s: State, t: State, id: Id, m: Message)
    requires Inv(s) && Stores(s, t, id, m)
    ensures Inv(t)
  {
    StoreKeepsLog(s, t, id, m);
    StoreKeepsDeliveries(s, t, id, m);
    StoreCovers(s, t, id, m);
    StoreIsMaximal(s, t, id, m);
  }

  lemma PublishStores(s: State, o: PublishOptions, p: nat, now: int, freshId: Id)
    requires p < s.partitions && ExistingId(s, o).None? && !Taken(s, o.messageId.GetOr(freshId))
    ensures Stores(s, Publish(s, o, p, now, freshId).0, o.messageId.GetOr(freshId), Message(p, At(s.heads, p) + 1, now))
  {
  }

  lemma PublishKeeps(s: State, o: PublishOptions, p: nat, now: int, freshId: Id)
    requires Inv(s) && p < s.partitions
    ensures Inv(Publish(s, o, p, now, freshId).0)
  {
    var id := o.messageId.GetOr(freshId);
    if ExistingId(s, o).None? {
      if Taken(s, id) {
        BurnKeeps(s, p);
      } else {
        PublishStores(s, o, p, now, freshId);
        StoreKeeps(s, Publish(s, o, p, now, freshId).0, id, Message(p, At(s.heads, p) + 1, now));
      }
    }
  }

  // ---------- Placing a group ----------

  lemma BeyondIsExact(s: State, group: string, from: Offsets, slot: Slot)
    requires LogOk(s)
    ensures slot in Beyond(s, group, from) <==>
      slot.group == group && slot.offset > At(from, slot.partition) && exists id :: Sits(s.messages, id, slot)
    ensures slot in Beyond(s, group, from) ==>
      Beyond(s, group, from)[slot].status == Pending && Sits(s.messages, Beyond(s, group, from)[slot].messageId, slot)
  {
    if slot in SlotsBeyond(s, group, from) {
      var id :| id in s.messages && slot == Slot(group, s.messages[id].partition, s.messages[id].offset)
                && s.messages[id].offset > At(from, s.messages[id].partition);
      assert Sits(s.messages, id, slot);
    }
    if slot.group == group && slot.offset > At(from, slot.partition) && exists id :: Sits(s.messages, id, slot) {
      var id :| Sits(s.messages, id, slot);
      assert InLog(s, s.messages[id]);
      assert slot == Slot(group, s.messages[id].partition, s.messages[id].offset);
    }
  }

  lemma SameSlotSameMessage(s: State, slot: Slot, a: Id, b: Id)
    requires LogOk(s) && Sits(s.messages, a, slot) && Sits(s.messages, b, slot)
    ensures a == b
  {
  }

  /** With every message already covered, filling gaps changes nothing. */
  lemma EnsureIsIdle(s: State, group: string)
    requires Inv(s)
    ensures EnsureDeliveries(s, group, false) == s
  {
    if group in s.groups {
      var wanted := Beyond(s, group, s.groups[group]);
      forall slot | slot in wanted
        ensures slot in s.deliveries
      {
        BeyondIsExact(s, group, s.groups[group], slot);
      }
      assert wanted + s.deliveries == s.deliveries;
    }
  }

  /** The state after a group's cursors were placed at `offsets` and its deliveries replayed. */
  ghost function Placed(s: State, group: string, offsets: Offsets, replay: bool): State {
    EnsureDeliveries(s.(groups := s.groups[group := offsets]), group, replay)
  }

  lemma PlacedDelivery(s: State, group: string, offsets: Offsets, replay: bool, slot: Slot)
    requires LogOk(s) && slot in Placed(s, group, offsets, replay).deliveries
    ensures var t := Placed(s, group, offsets, replay);
            || (slot in s.deliveries && t.deliveries[slot] == s.deliveries[slot])
            || (t.deliveries[slot].status == Pending && slot.group == group
                && Sits(s.messages, t.deliveries[slot].messageId, slot))
  {
    var t := s.(groups := s.groups[group := offsets]);
    if slot in Beyond(t, group, offsets) {
      BeyondIsExact(t, group, offsets, slot);
    }
  }

  lemma PlacedKeepsRecords(s: State, group: string, offsets: Offsets, replay: bool)
    requires LogOk(s) && DeliveriesOk(s) && DeadOk(s) && IdempotencyOk(s)
    ensures var t := Placed(s, group, offsets, replay);
            LogOk(t) && DeliveriesOk(t) && DeadOk(t) && IdempotencyOk(t)
  {
    var t := Placed(s, group, offsets, replay);
    assert forall id :: id in s.messages ==> InLog(s, s.messages[id]) ==> InLog(t, t.messages[id]);
    forall slot | slot in t.deliveries
      ensures slot.group in t.groups && Sits(t.messages, t.deliveries[slot].messageId, slot)
    {
      PlacedDelivery(s, group, offsets, replay, slot);
    }
    forall slot | slot in t.dead
      ensures slot in t.deliveries && t.dead[slot] == t.deliveries[slot].messageId
    {
      PlacedDelivery(s, group, offsets, replay, slot);
    }
  }

  lemma PlacedCovers(s: State, group: string, offsets: Offsets, replay: bool)
    requires LogOk(s) && Covered(s)
    ensures Covered(Placed(s, group, offsets, replay))
  {
    var t := Placed(s, group, offsets, replay);
    var u := s.(groups := s.groups[group := offsets]);
    assert forall id :: id in s.messages ==> InLog(s, s.messages[id]) ==> InLog(u, u.messages[id]);
    forall slot, id | Sits(t.messages, id, slot) && Awaits(t, slot)
      ensures slot in t.deliveries
    {
      if slot.group == group {
        assert Sits(u.messages, id, slot);
        BeyondIsExact(u, group, offsets, slot);
      } else {
        assert Sits(s.messages, id, slot) && Awaits(s, slot);
      }
    }
  }

  /** A replay, or a group without deliveries, leaves nothing terminal beyond the offsets. */
  lemma PlacedIsOpenBeyond(s: State, group: string, offsets: Offsets, replay: bool, slot: Slot)
    requires LogOk(s) && DeliveriesOk(s) && (replay || group !in s.groups)
    requires slot.group == group && slot.offset > At(offsets, slot.partition)
    ensures !Done(Placed(s, group, offsets, replay).deliveries, slot)
  {
    var u := s.(groups := s.groups[group := offsets]);
    assert LogOk(u) by {
      assert forall id :: id in s.messages ==> InLog(s, s.messages[id]) ==> InLog(u, u.messages[id]);
    }
    BeyondIsExact(u, group, offsets, slot);
    assert slot in s.deliveries ==> group in s.groups && Sits(s.messages, s.deliveries[slot].messageId, slot);
  }

  lemma PlacedLeavesOthers(s: State, group: string, offsets: Offsets, replay: bool, slot: Slot)
    requires slot.group != group
    ensures Done(Placed(s, group, offsets, replay).deliveries, slot) == Done(s.deliveries, slot)
  {
  }

  lemma PlacedStopsGroup(s: State, group: string, offsets: Offsets, replay: bool, p: nat)
    requires LogOk(s) && DeliveriesOk(s) && (replay || group !in s.groups)
    ensures Stopped(Placed(s, group, offsets, replay), group, p)
  {
    PlacedIsOpenBeyond(s, group, offsets, replay, Slot(group, p, At(offsets, p) + 1));
  }

  lemma PlacedStopsOthers(s: State, group: string, offsets: Offsets, replay: bool, g: string, p: nat)
    requires g != group && g in s.groups && Stopped(s, g, p)
    ensures Stopped(Placed(s, group, offsets, replay), g, p)
  {
    PlacedLeavesOthers(s, group, offsets, replay, Slot(g, p, At(s.groups[g], p) + 1));
  }

  lemma PlacedIsMaximal(s: State, group: string, offsets: Offsets, replay: bool)
    requires LogOk(s) && DeliveriesOk(s) && Maximal(s) && (replay || group !in s.groups)
    ensures Maximal(Placed(s, group, offsets, replay))
  {
    var t := Placed(s, group, offsets, replay);
    assert t.groups == s.groups[group := offsets];
    forall g, p | g in t.groups
      ensures Stopped(t, g, p)
    {
      if g == group {
        PlacedStopsGroup(s, group, offsets, replay, p);
      } else {
        assert Stopped(s, g, p);
        PlacedStopsOthers(s, group, offsets, replay, g, p);
      }
    }
  }

  lemma PlacedKeeps(s: State, group: string, offsets: Offsets, replay: bool)
    requires Inv(s) && (replay || group !in s.groups)
    ensures Inv(Placed(s, group, offsets, replay))
  {
    PlacedKeepsRecords(s, group, offsets, replay);
    PlacedCovers(s, group, offsets, replay);
    PlacedIsMaximal(s, group, offsets, replay);
  }

  // ---------- Runs ----------

  lemma SubscribeKeeps(s: State, group: string, from: StartFrom)
    requires Inv(s)
    ensures Inv(Subscribe(s, group, from))
  {
    if group in s.groups {
      EnsureIsIdle(s, group);
    } else {
      PlacedKeeps(s, group, InitialOffsets(s, from), false);
    }
  }

  lemma SeekKeeps(s: State, group: string, to: SeekTo)
    requires Inv(s)
    ensures Inv(Seek(s, group, to))
  {
    if group in s.groups {
      PlacedKeeps(s, group, SeekOffsets(s, to, s.groups[group]), true);
    }
  }

  lemma ForeignKeeps(s: State, id: Id)
    requires Inv(s)
    ensures Inv(s.(foreignIds := s.foreignIds + {id}))
  {
    var t := s.(foreignIds := s.foreignIds + {id});
    assert forall other :: other in s.messages ==> InLog(s, s.messages[other]) ==> InLog(t, t.messages[other]);
    assert forall slot :: Awaits(t, slot) ==> Awaits(s, slot);
    assert forall g, p :: g in t.groups && Stopped(s, g, p) ==> Stopped(t, g, p);
  }

  lemma ApplyKeeps(s: State, op: Op)
    requires Inv(s) && Possible(s, op)
    ensures Inv(Apply(s, op))
  {
    match op
    case PublishOp(o, p, now, freshId) => PublishKeeps(s, o, p, now, freshId);
    case SubscribeOp(group, from) => SubscribeKeeps(s, group, from);
    case ProcessOp(slot, passes) => ProcessKeeps(s, slot, passes);
    case SettleOp(slot, copy, outcome, max, deadLetters) => SettleKeeps(s, slot, copy, outcome, max, deadLetters);
    case RetryOp(slot) => RetryKeeps(s, slot);
    case RequeueOp(slot) => RequeueKeeps(s, slot);
    case ResumeOp(group) => EnsureIsIdle(s, group);
    case SeekOp(group, to) => SeekKeeps(s, group, to);
    case ForeignOp(id) => ForeignKeeps(s, id);
  }

  lemma {:induction false} RunKeeps(run: seq<State>, ops: seq<Op>, n: nat)
    requires IsRun(run, ops) && Inv(run[0]) && n <= |ops|
    ensures Inv(run[n])
  {
    if n > 0 {
      RunKeeps(run, ops, n - 1);
      ApplyKeeps(run[n - 1], ops[n - 1]);
    }
  }

  // ---------- Main results ----------

  /** The operation moves the cursors of the group by a seek. */
  predicate Seeks(op: Op, g: string) {
    op.SeekOp? && op.group == g
  }

  /** From `s` to `t` the cursor has not moved back, and only over what is terminal in `t`. */
  ghost predicate Crosses(s: State, t: State, g: string, p: nat) {
    && g in s.groups
    && g in t.groups
    && At(s.groups[g], p) <= At(t.groups[g], p)
    && forall o :: At(s.groups[g], p) < o <= At(t.groups[g], p) ==> Done(t.deliveries, Slot(g, p, o))
  }

  lemma AdvanceCrosses(s: State, group: string, q: nat, g: string, p: nat)
    requires g in s.groups
    ensures Crosses(s, AdvanceCursor(s, group, q), g, p)
  {
  }

  lemma SettleCrosses(s: State, op: Op, g: string, p: nat)
    requires op.SettleOp? && g in s.groups
    ensures Crosses(s, Apply(s, op), g, p)
  {
    var d := op.copy.(status := OutcomeStatus(op.copy.attempt, op.outcome, op.maxAttempts));
    AdvanceCrosses(Close(s, op.slot, d, op.deadLetters), op.slot.group, op.slot.partition, g, p);
  }

  lemma ProcessCrosses(s: State, op: Op, g: string, p: nat)
    requires op.ProcessOp? && g in s.groups
    ensures Crosses(s, Apply(s, op), g, p)
  {
    if op.slot in s.deliveries {
      var t := Save(s, op.slot, s.deliveries[op.slot].(status := Filtered));
      AdvanceCrosses(t, op.slot.group, op.slot.partition, g, p);
    }
  }

  lemma StepCrosses(s: State, op: Op, g: string, p: nat)
    requires g in s.groups && !Seeks(op, g)
    ensures Crosses(s, Apply(s, op), g, p)
  {
    if op.SettleOp? {
      SettleCrosses(s, op, g, p);
    } else if op.ProcessOp? {
      ProcessCrosses(s, op, g, p);
    }
  }

  /**
   Between any two moments of a run with no seek of the group between them, the cursor has not moved
   back, and every delivery it crossed was acked, discarded, dead or filtered at some moment in between.
  */
  lemma {:induction false} CursorCrossesOnlySettled(
    run: seq<State>, ops: seq<Op>, i: nat, n: nat, g: string, p: nat)
    requires IsRun(run, ops) && i <= n <= |ops|
    requires g in run[i].groups && forall k :: i <= k < n ==> !Seeks(ops[k], g)
    ensures g in run[n].groups && At(run[i].groups[g], p) <= At(run[n].groups[g], p)
    ensures forall o :: At(run[i].groups[g], p) < o <= At(run[n].groups[g], p) ==>
              exists k :: i < k <= n && Done(run[k].deliveries, Slot(g, p, o))
    decreases n
  {
    if i < n {
      CursorCrossesOnlySettled(run, ops, i, n - 1, g, p);
      StepCrosses(run[n - 1], ops[n - 1], g, p);
      forall o | At(run[i].groups[g], p) < o <= At(run[n].groups[g], p)
        ensures exists k :: i < k <= n && Done(run[k].deliveries, Slot(g, p, o))
      {
        if o > At(run[n - 1].groups[g], p) {
          assert Done(run[n].deliveries, Slot(g, p, o));
        }
      }
    }
  }

  lemma EmptyIsFine(partitions: nat, foreignIds: set<Id>)
    ensures Inv(Empty(partitions, foreignIds))
  {
  }

  /** In every reachable state the cursor has stopped at a delivery that is absent or still open. */
  lemma CursorIsMaximal(run: seq<State>, ops: seq<Op>, partitions: nat, foreignIds: set<Id>, n: nat, g: string, p: nat)
    requires IsRun(run, ops) && run[0] == Empty(partitions, foreignIds) && n <= |ops| && g in run[n].groups
    ensures !Done(run[n].deliveries, Slot(g, p, At(run[n].groups[g], p) + 1))
  {
    EmptyIsFine(partitions, foreignIds);
    RunKeeps(run, ops, n);
    assert Stopped(run[n], g, p);
  }

  /** After any run, every stored message beyond a group's cursor has a delivery that names it. */
  lemma NoMessageIsSkipped(
    run: seq<State>, ops: seq<Op>, partitions: nat, foreignIds: set<Id>, n: nat, slot: Slot, id: Id)
    requires IsRun(run, ops) && run[0] == Empty(partitions, foreignIds) && n <= |ops|
    requires slot.group in run[n].groups && Sits(run[n].messages, id, slot)
    requires slot.offset > At(run[n].groups[slot.group], slot.partition)
    ensures slot in run[n].deliveries && run[n].deliveries[slot].messageId == id
  {
    EmptyIsFine(partitions, foreignIds);
    RunKeeps(run, ops, n);
    SameSlotSameMessage(run[n], slot, id, run[n].deliveries[slot].messageId);
  }
}
