/**
 Moving a group: what a seek rewrites, and when a seek by time is exact.
*/
module TopicSeek {
  import opened Topic
  import opened TopicInvariants
  import TopicLog
  import opened Wrappers

  /** What a seek leaves: the messages beyond the new cursors are pending again, the rest is untouched. */
  lemma SeekReplaysBeyond(s: State, group: string, to: SeekTo, slot: Slot)
    requires Inv(s) && group in s.groups
    ensures var t := Seek(s, group, to);
            && t.groups == s.groups[group := SeekOffsets(s, to, s.groups[group])]
            && t == s.(groups := t.groups, deliveries := t.deliveries)
            && if slot.group == group && slot.offset > At(t.groups[group], slot.partition)
               then (slot in t.deliveries <==> exists id :: Sits(s.messages, id, slot))
                    && forall id :: Sits(s.messages, id, slot) ==> t.deliveries[slot] == Delivery(id, Pending, 0)
               else (slot in t.deliveries <==> slot in s.deliveries)
                    && (slot in s.deliveries ==> t.deliveries[slot] == s.deliveries[slot])
  {
    var u := s.(groups := s.groups[group := SeekOffsets(s, to, s.groups[group])]);
    assert LogOk(u) by {
      assert forall id :: id in s.messages ==> InLog(s, s.messages[id]) ==> InLog(u, u.messages[id]);
    }
    BeyondIsExact(u, group, u.groups[group], slot);
    assert slot in s.deliveries ==> Sits(s.messages, s.deliveries[slot].messageId, slot);
    forall id | Sits(s.messages, id, slot) && slot in Beyond(u, group, u.groups[group])
      ensures Beyond(u, group, u.groups[group])[slot] == Delivery(id, Pending, 0)
    {
      SameSlotSameMessage(u, slot, id, Beyond(u, group, u.groups[group])[slot].messageId);
    }
  }

  predicate SamePartition(a: Message, b: Message) {
    a.partition == b.partition
  }

  /** In no partition does a message from before the cutoff follow one at or after it. */
  ghost predicate NoInversion(messages: map<Id, Message>, cutoff: int) {
    forall a, b :: a in messages && b in messages && SamePartition(messages[a], messages[b])
                   && messages[a].publishedAt < cutoff <= messages[b].publishedAt ==>
                     messages[a].offset < messages[b].offset
  }

  /** `publishedAt` never falls along a partition. */
  ghost predicate Monotone(messages: map<Id, Message>) {
    forall a, b :: a in messages && b in messages && SamePartition(messages[a], messages[b])
                   && messages[a].offset < messages[b].offset ==>
                     messages[a].publishedAt <= messages[b].publishedAt
  }

  /** The messages the cursors leave to be replayed are exactly those published at or after the cutoff. */
  ghost predicate SplitsAt(messages: map<Id, Message>, offsets: Offsets, cutoff: int) {
    forall id :: id in messages ==>
      (messages[id].offset > At(offsets, messages[id].partition) <==> messages[id].publishedAt >= cutoff)
  }

  /** A cursor placed by time: 0, or the last offset before the cutoff. */
  lemma LastBeforeIsLast(s: State, cutoff: int, p: nat)
    requires LogOk(s) && p < s.partitions
    ensures var last := At(OffsetsBeforeTimestamp(s, cutoff), p);
            && (forall id :: id in s.messages && s.messages[id].partition == p
                             && s.messages[id].publishedAt < cutoff ==>
                  s.messages[id].offset <= last)
            && (last == 0 ||
                exists id :: id in s.messages && s.messages[id] == Message(p, last, s.messages[id].publishedAt)
                             && s.messages[id].publishedAt < cutoff)
  {
    var last := LastBefore(s.messages, p, cutoff);
    forall id | id in s.messages && s.messages[id].partition == p && s.messages[id].publishedAt < cutoff
      ensures s.messages[id].offset <= last
    {
      assert s.messages[id].offset in OffsetsBefore(s.messages, p, cutoff);
    }
    if last != 0 {
      var id :| id in s.messages && s.messages[id].partition == p && s.messages[id].publishedAt < cutoff
                && s.messages[id].offset == last;
      assert s.messages[id] == Message(p, last, s.messages[id].publishedAt);
    }
  }

  lemma SplitNeedsNoInversion(s: State, cutoff: int)
    requires LogOk(s) && SplitsAt(s.messages, OffsetsBeforeTimestamp(s, cutoff), cutoff)
    ensures NoInversion(s.messages, cutoff)
  {
  }

  lemma NoInversionSplits(s: State, cutoff: int)
    requires LogOk(s) && NoInversion(s.messages, cutoff)
    ensures SplitsAt(s.messages, OffsetsBeforeTimestamp(s, cutoff), cutoff)
  {
    forall id | id in s.messages
      ensures s.messages[id].offset > At(OffsetsBeforeTimestamp(s, cutoff), s.messages[id].partition)
              <==> s.messages[id].publishedAt >= cutoff
    {
      var m := s.messages[id];
      assert InLog(s, m);
      LastBeforeIsLast(s, cutoff, m.partition);
      var last := At(OffsetsBeforeTimestamp(s, cutoff), m.partition);
      if m.publishedAt >= cutoff && last != 0 {
        var other :| other in s.messages && s.messages[other].publishedAt < cutoff
                     && s.messages[other] == Message(m.partition, last, s.messages[other].publishedAt);
        assert SamePartition(s.messages[other], m);
      }
    }
  }

  lemma SplitIffNoInversion(s: State, cutoff: int, offsets: Offsets)
    requires LogOk(s) && offsets == OffsetsBeforeTimestamp(s, cutoff)
    ensures SplitsAt(s.messages, offsets, cutoff) <==> NoInversion(s.messages, cutoff)
  {
    if NoInversion(s.messages, cutoff) {
      NoInversionSplits(s, cutoff);
    }
    if SplitsAt(s.messages, OffsetsBeforeTimestamp(s, cutoff), cutoff) {
      SplitNeedsNoInversion(s, cutoff);
    }
  }

  lemma SeekPlacesCursors(s: State, group: string, to: SeekTo)
    requires group in s.groups
    ensures Seek(s, group, to).groups[group] == SeekOffsets(s, to, s.groups[group])
  {
  }

  /**
   A seek by time replays exactly the messages published at or after the cutoff, if and only if no
   partition holds an earlier message behind a later one across the cutoff.
  */
  lemma SeekByTimeIsExactIff(s: State, group: string, cutoff: int)
    requires LogOk(s) && group in s.groups
    ensures SplitsAt(s.messages, Seek(s, group, SeekTime(cutoff)).groups[group], cutoff)
            <==> NoInversion(s.messages, cutoff)
  {
    SeekPlacesCursors(s, group, SeekTime(cutoff));
    SplitIffNoInversion(s, cutoff, Seek(s, group, SeekTime(cutoff)).groups[group]);
  }

  lemma MonotoneHasNoInversion(s: State, cutoff: int)
    requires LogOk(s) && Monotone(s.messages)
    ensures NoInversion(s.messages, cutoff)
  {
    forall a, b | a in s.messages && b in s.messages && SamePartition(s.messages[a], s.messages[b])
                  && s.messages[a].publishedAt < cutoff <= s.messages[b].publishedAt
      ensures s.messages[a].offset < s.messages[b].offset
    {
      var slot := Slot("", s.messages[a].partition, s.messages[a].offset);
      assert Sits(s.messages, a, slot);
      assert s.messages[a].offset == s.messages[b].offset ==> Sits(s.messages, b, slot);
      assert SamePartition(s.messages[b], s.messages[a]);
    }
  }

  lemma InversionBreaksMonotone(messages: map<Id, Message>, a: Id, b: Id)
    requires a in messages && b in messages && SamePartition(messages[a], messages[b])
    requires messages[a].offset < messages[b].offset && NoInversion(messages, messages[a].publishedAt)
    ensures messages[a].publishedAt <= messages[b].publishedAt
  {
    assert SamePartition(messages[b], messages[a]);
  }

  /** Every cutoff is safe exactly when `publishedAt` never falls along a partition. */
  lemma MonotoneIffNoInversions(s: State)
    requires LogOk(s)
    ensures Monotone(s.messages) <==> forall cutoff :: NoInversion(s.messages, cutoff)
  {
    if Monotone(s.messages) {
      forall cutoff
        ensures NoInversion(s.messages, cutoff)
      {
        MonotoneHasNoInversion(s, cutoff);
      }
    }
    if forall cutoff :: NoInversion(s.messages, cutoff) {
      forall a, b | a in s.messages && b in s.messages && SamePartition(s.messages[a], s.messages[b])
                    && s.messages[a].offset < s.messages[b].offset
        ensures s.messages[a].publishedAt <= s.messages[b].publishedAt
      {
        InversionBreaksMonotone(s.messages, a, b);
      }
    }
  }

  // ---------- A clock that never falls ----------

  /** The publishes of the run carry times that never fall. */
  ghost predicate ClockNeverFalls(ops: seq<Op>) {
    forall i, j :: 0 <= i < j < |ops| && ops[i].PublishOp? && ops[j].PublishOp? ==> ops[i].now <= ops[j].now
  }

  ghost predicate StampedBefore(messages: map<Id, Message>, now: int) {
    forall id :: id in messages ==> messages[id].publishedAt <= now
  }

  lemma PublishKeepsMonotone(s: State, op: Op)
    requires LogOk(s) && Monotone(s.messages) && op.PublishOp? && StampedBefore(s.messages, op.now)
    ensures Monotone(Apply(s, op).messages) && StampedBefore(Apply(s, op).messages, op.now)
  {
    var id := op.options.messageId.GetOr(op.freshId);
    HeadIsBeyond(s, op.p);
    PublishedMessages(s, op.options, op.p, op.now, op.freshId);
    if id !in s.messages {
      NewestKeepsMonotone(s.messages, id, Message(op.p, At(s.heads, op.p) + 1, op.now));
    }
  }

  lemma HeadIsBeyond(s: State, p: nat)
    requires LogOk(s)
    ensures OffsetsBelow(s.messages, p, At(s.heads, p) + 1)
  {
    forall id | id in s.messages && s.messages[id].partition == p
      ensures s.messages[id].offset < At(s.heads, p) + 1
    {
      assert InLog(s, s.messages[id]);
    }
  }

  predicate OffsetsBelow(messages: map<Id, Message>, p: nat, offset: nat) {
    forall id :: id in messages && messages[id].partition == p ==> messages[id].offset < offset
  }

  lemma PublishedMessages(s: State, o: PublishOptions, p: nat, now: int, freshId: Id)
    ensures var id, messages := o.messageId.GetOr(freshId), Publish(s, o, p, now, freshId).0.messages;
            || messages == s.messages
            || (id !in s.messages && messages == s.messages[id := Message(p, At(s.heads, p) + 1, now)])
  {
  }

  lemma NewestKeepsMonotone(messages: map<Id, Message>, id: Id, m: Message)
    requires id !in messages && Monotone(messages) && StampedBefore(messages, m.publishedAt)
    requires OffsetsBelow(messages, m.partition, m.offset)
    ensures Monotone(messages[id := m]) && StampedBefore(messages[id := m], m.publishedAt)
  {
    var after := messages[id := m];
    forall a, b | a in after && b in after && SamePartition(after[a], after[b]) && after[a].offset < after[b].offset
      ensures after[a].publishedAt <= after[b].publishedAt
    {
      assert a in messages && b in messages ==> SamePartition(messages[a], messages[b]);
    }
  }

  /** Every message carries the time of an earlier publish. */
  ghost predicate Stamped(messages: map<Id, Message>, ops: seq<Op>, n: nat)
    requires n <= |ops|
  {
    forall id :: id in messages ==>
      exists i :: 0 <= i < n && ops[i].PublishOp? && ops[i].now == messages[id].publishedAt
  }

  lemma StepKeepsStamps(s: State, ops: seq<Op>, n: nat)
    requires n < |ops| && Stamped(s.messages, ops, n)
    ensures Stamped(Apply(s, ops[n]).messages, ops, n + 1)
  {
    var t := Apply(s, ops[n]);
    if !ops[n].PublishOp? {
      TopicLog.OnlyPublishWritesLog(s, ops[n]);
    }
    forall id | id in t.messages
      ensures exists i :: 0 <= i < n + 1 && ops[i].PublishOp? && ops[i].now == t.messages[id].publishedAt
    {
      if id in s.messages && t.messages[id] == s.messages[id] {
        var i :| 0 <= i < n && ops[i].PublishOp? && ops[i].now == s.messages[id].publishedAt;
      } else {
        assert ops[n].now == t.messages[id].publishedAt;
      }
    }
  }

  lemma StepStaysMonotone(s: State, ops: seq<Op>, k: nat)
    requires k < |ops| && Inv(s) && Possible(s, ops[k]) && ClockNeverFalls(ops)
    requires Monotone(s.messages) && Stamped(s.messages, ops, k)
    ensures Monotone(Apply(s, ops[k]).messages) && Stamped(Apply(s, ops[k]).messages, ops, k + 1)
  {
    StepKeepsStamps(s, ops, k);
    if ops[k].PublishOp? {
      PublishKeepsMonotone(s, ops[k]);
    } else {
      TopicLog.OnlyPublishWritesLog(s, ops[k]);
    }
  }

  lemma {:induction false} RunStaysMonotone(run: seq<State>, ops: seq<Op>, partitions: nat, foreignIds: set<Id>, n: nat)
    requires IsRun(run, ops) && run[0] == Empty(partitions, foreignIds) && n <= |ops| && ClockNeverFalls(ops)
    ensures Monotone(run[n].messages) && Stamped(run[n].messages, ops, n)
  {
    if n > 0 {
      RunStaysMonotone(run, ops, partitions, foreignIds, n - 1);
      EmptyIsFine(partitions, foreignIds);
      RunKeeps(run, ops, n - 1);
      StepStaysMonotone(run[n - 1], ops, n - 1);
    }
  }

  /** With a clock that never falls, a seek by time replays exactly the right messages at any moment of any run. */
  lemma SeekByTimeIsExact(
    run: seq<State>, ops: seq<Op>, partitions: nat, foreignIds: set<Id>, n: nat, group: string, cutoff: int,
    slot: Slot, id: Id)
    requires IsRun(run, ops) && run[0] == Empty(partitions, foreignIds) && n <= |ops| && ClockNeverFalls(ops)
    requires group in run[n].groups && slot.group == group && Sits(run[n].messages, id, slot)
    ensures var s, t := run[n], Seek(run[n], group, SeekTime(cutoff));
            if s.messages[id].publishedAt >= cutoff
            then slot in t.deliveries && t.deliveries[slot] == Delivery(id, Pending, 0)
            else (slot in t.deliveries <==> slot in s.deliveries)
                 && (slot in s.deliveries ==> t.deliveries[slot] == s.deliveries[slot])
  {
    EmptyIsFine(partitions, foreignIds);
    RunKeeps(run, ops, n);
    RunStaysMonotone(run, ops, partitions, foreignIds, n);
    MonotoneIffNoInversions(run[n]);
    SeekByTimeIsExactIff(run[n], group, cutoff);
    SeekReplaysBeyond(run[n], group, SeekTime(cutoff), slot);
  }
}
