/** Where a seek and a first subscription put a group: which stored messages it gets, target by target. */
module TopicPlacement {
  import opened Topic
  import opened TopicInvariants
  import TopicLog
  import TopicSeek
  import opened Wrappers

  /** The delivery is new, pending at attempt 0, and names the message. */
  predicate Replayed(after: map<Slot, Delivery>, slot: Slot, id: Id) {
    Lookup(after, slot) == Some(Delivery(id, Pending, 0))
  }

  predicate SameDelivery(before: map<Slot, Delivery>, after: map<Slot, Delivery>, slot: Slot) {
    Lookup(after, slot) == Lookup(before, slot)
  }

  /** The message is replayed, or its delivery stays as it is. */
  predicate ReplayedIff(
    before: map<Slot, Delivery>, after: map<Slot, Delivery>, slot: Slot, id: Id, replayed: bool)
  {
    if replayed then Replayed(after, slot, id) else SameDelivery(before, after, slot)
  }

  lemma PlacingKeepsLog(s: State, groups: map<string, Offsets>)
    requires LogOk(s)
    ensures LogOk(s.(groups := groups))
  {
    var u := s.(groups := groups);
    forall id | id in u.messages
      ensures InLog(u, u.messages[id])
    {
      assert InLog(s, s.messages[id]);
    }
  }

  /** The group's deliveries are written anew from its cursors on. */
  lemma RewrittenDelivery(u: State, group: string, slot: Slot, id: Id)
    requires group in u.groups && slot.group == group && Sits(u.messages, id, slot)
    ensures LogOk(u) ==>
              ReplayedIff(u.deliveries, EnsureDeliveries(u, group, true).deliveries, slot, id,
                          slot.offset > At(u.groups[group], slot.partition))
  {
    if LogOk(u) {
      BeyondIsExact(u, group, u.groups[group], slot);
      if slot in Beyond(u, group, u.groups[group]) {
        SameSlotSameMessage(u, slot, id, Beyond(u, group, u.groups[group])[slot].messageId);
      }
    }
  }

  lemma BeyondIsReplayed(s: State, group: string, to: SeekTo, slot: Slot, id: Id)
    requires LogOk(s) && group in s.groups && slot.group == group && Sits(s.messages, id, slot)
    ensures var t := Apply(s, SeekOp(group, to));
            ReplayedIff(s.deliveries, t.deliveries, slot, id,
                        slot.offset > At(SeekOffsets(s, to, s.groups[group]), slot.partition))
  {
    var offsets := SeekOffsets(s, to, s.groups[group]);
    SeekIsPlaced(s, group, to);
    PlacedDelivery(s, group, offsets, slot, id);
  }

  lemma SeekIsPlaced(s: State, group: string, to: SeekTo)
    requires group in s.groups
    ensures Apply(s, SeekOp(group, to)) ==
            EnsureDeliveries(s.(groups := s.groups[group := SeekOffsets(s, to, s.groups[group])]), group, true)
  {
  }

  lemma PlacedDelivery(s: State, group: string, offsets: Offsets, slot: Slot, id: Id)
    requires LogOk(s) && slot.group == group && Sits(s.messages, id, slot)
    ensures var t := EnsureDeliveries(s.(groups := s.groups[group := offsets]), group, true);
            ReplayedIff(s.deliveries, t.deliveries, slot, id, slot.offset > At(offsets, slot.partition))
  {
    var groups := s.groups[group := offsets];
    PlacingKeepsLog(s, groups);
    RewrittenDelivery(s.(groups := groups), group, slot, id);
  }

  /** A seek to the latest message puts every cursor at its head and replays nothing. */
  lemma SeekLatestReplaysNothing(s: State, group: string, slot: Slot, id: Id)
    requires LogOk(s) && group in s.groups && slot.group == group && Sits(s.messages, id, slot)
    ensures var t := Apply(s, SeekOp(group, SeekLatest));
            && SameDelivery(s.deliveries, t.deliveries, slot)
            && At(t.groups[group], slot.partition) == At(s.heads, slot.partition)
  {
    BeyondIsReplayed(s, group, SeekLatest, slot, id);
    assert InLog(s, s.messages[id]);
  }

  /** A seek to the earliest message puts every cursor at 0 and replays every stored message. */
  lemma SeekEarliestReplaysAll(s: State, group: string, slot: Slot, id: Id)
    requires LogOk(s) && group in s.groups && slot.group == group && Sits(s.messages, id, slot)
    ensures var t := Apply(s, SeekOp(group, SeekEarliest));
            Replayed(t.deliveries, slot, id) && At(t.groups[group], slot.partition) == 0
  {
    BeyondIsReplayed(s, group, SeekEarliest, slot, id);
    assert InLog(s, s.messages[id]);
  }

  /** A seek to an offset replays, in every partition, exactly the messages from that offset on. */
  lemma SeekOffsetReplaysFrom(s: State, group: string, n: int, slot: Slot, id: Id)
    requires LogOk(s) && group in s.groups && slot.group == group && Sits(s.messages, id, slot)
    ensures ReplayedIff(s.deliveries, Apply(s, SeekOp(group, SeekOffset(n))).deliveries, slot, id, slot.offset >= n)
  {
    BeyondIsReplayed(s, group, SeekOffset(n), slot, id);
    assert InLog(s, s.messages[id]);
  }

  /**
   A seek to a message replays its partition from that message on, and the other partitions beyond the
   cursors they have; so it is everywhere when the message is unknown.
  */
  lemma SeekMessageReplaysFrom(s: State, group: string, target: Id, slot: Slot, id: Id)
    requires LogOk(s) && group in s.groups && slot.group == group && Sits(s.messages, id, slot)
    ensures var t := Apply(s, SeekOp(group, SeekMessage(target)));
            if target in s.messages && s.messages[target].partition == slot.partition
            then ReplayedIff(s.deliveries, t.deliveries, slot, id, slot.offset >= s.messages[target].offset)
            else ReplayedIff(s.deliveries, t.deliveries, slot, id, slot.offset > At(s.groups[group], slot.partition))
                 && At(t.groups[group], slot.partition) == At(s.groups[group], slot.partition)
  {
    BeyondIsReplayed(s, group, SeekMessage(target), slot, id);
    assert target in s.messages ==> InLog(s, s.messages[target]);
  }

  /** A seek leaves the deliveries and the cursors of every other group, and the log. */
  lemma SeekLeavesOthers(s: State, group: string, to: SeekTo, slot: Slot)
    requires Inv(s) && group in s.groups && slot.group != group
    ensures var t := Apply(s, SeekOp(group, to));
            && SameDelivery(s.deliveries, t.deliveries, slot)
            && t.groups == s.groups[group := t.groups[group]]
            && t == s.(groups := t.groups, deliveries := t.deliveries)
  {
    TopicSeek.SeekReplaysBeyond(s, group, to, slot);
  }

  /** A seek of an unknown group is an error and changes nothing. */
  lemma SeekOfUnknownGroup(s: State, group: string, to: SeekTo)
    requires group !in s.groups
    ensures Apply(s, SeekOp(group, to)) == s
  {
  }

  // ---------- A new group ----------

  /** The stored message comes after the place where the new group starts. */
  predicate StartsBefore(from: StartFrom, s: State, offset: nat)
    requires !from.FromTime?
  {
    match from
    case Latest => false
    case Earliest => true
    case FromOffset(n) => offset >= n
  }

  lemma UnknownGroupHasNothing(s: State, slot: Slot)
    requires DeliveriesOk(s) && slot.group !in s.groups
    ensures slot !in s.deliveries
  {
  }

  /** The group's deliveries are filled in from its cursors on. */
  lemma FilledDelivery(u: State, group: string, slot: Slot, id: Id)
    requires LogOk(u) && group in u.groups && slot.group == group && Sits(u.messages, id, slot)
    requires slot !in u.deliveries
    ensures var t := EnsureDeliveries(u, group, false);
            && (slot in t.deliveries <==> slot.offset > At(u.groups[group], slot.partition))
            && (slot in t.deliveries ==> t.deliveries[slot] == Delivery(id, Pending, 0))
  {
    BeyondIsExact(u, group, u.groups[group], slot);
    if slot in Beyond(u, group, u.groups[group]) {
      SameSlotSameMessage(u, slot, id, Beyond(u, group, u.groups[group])[slot].messageId);
    }
  }

  lemma BornDelivery(s: State, group: string, from: StartFrom, slot: Slot, id: Id)
    requires LogOk(s) && DeliveriesOk(s) && group !in s.groups && slot.group == group && Sits(s.messages, id, slot)
    ensures var t := Apply(s, SubscribeOp(group, from));
            && t.groups == s.groups[group := InitialOffsets(s, from)]
            && (slot in t.deliveries <==> slot.offset > At(InitialOffsets(s, from), slot.partition))
            && (slot in t.deliveries ==> t.deliveries[slot] == Delivery(id, Pending, 0))
  {
    var groups := s.groups[group := InitialOffsets(s, from)];
    UnknownGroupHasNothing(s, slot);
    PlacingKeepsLog(s, groups);
    FilledDelivery(s.(groups := groups), group, slot, id);
  }

  /**
   A new group that starts at the latest message gets no stored message, one that starts at the earliest gets
   all of them, and one that starts at an offset gets exactly those from that offset on.
  */
  lemma NewGroupGetsFrom(s: State, group: string, from: StartFrom, slot: Slot, id: Id)
    requires LogOk(s) && DeliveriesOk(s) && group !in s.groups && slot.group == group && Sits(s.messages, id, slot)
    requires !from.FromTime?
    ensures var t := Apply(s, SubscribeOp(group, from));
            && (slot in t.deliveries <==> StartsBefore(from, s, slot.offset))
            && (slot in t.deliveries ==> t.deliveries[slot] == Delivery(id, Pending, 0))
  {
    BornDelivery(s, group, from, slot, id);
    assert InLog(s, s.messages[id]);
  }

  /** One that starts at a time gets the messages after the last that was published before it. */
  lemma NewGroupGetsSince(s: State, group: string, cutoff: int, slot: Slot, id: Id)
    requires LogOk(s) && DeliveriesOk(s) && group !in s.groups && slot.group == group && Sits(s.messages, id, slot)
    requires TopicSeek.NoInversion(s.messages, cutoff)
    ensures slot in Apply(s, SubscribeOp(group, FromTime(cutoff))).deliveries <==>
              s.messages[id].publishedAt >= cutoff
  {
    BornDelivery(s, group, FromTime(cutoff), slot, id);
    SinceIsBeyond(s, cutoff, id);
  }

  lemma SinceIsBeyond(s: State, cutoff: int, id: Id)
    requires LogOk(s) && id in s.messages && TopicSeek.NoInversion(s.messages, cutoff)
    ensures var m := s.messages[id];
            m.offset > At(InitialOffsets(s, FromTime(cutoff)), m.partition) <==> m.publishedAt >= cutoff
  {
    TopicSeek.NoInversionSplits(s, cutoff);
    SplitsFor(s.messages, OffsetsBeforeTimestamp(s, cutoff), cutoff, id);
  }

  lemma SplitsFor(messages: map<Id, Message>, offsets: Offsets, cutoff: int, id: Id)
    requires id in messages && TopicSeek.SplitsAt(messages, offsets, cutoff)
    ensures messages[id].offset > At(offsets, messages[id].partition) <==> messages[id].publishedAt >= cutoff
  {
  }
}
