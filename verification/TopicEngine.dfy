/**
 The topic engine as it works on its records: fields reassigned step by step, loops over groups,
 partitions and messages, and the loop that moves a cursor. Each method is proved to do to the
 records what the operation of the same name in module Topic says.
*/
module TopicEngine {
  import opened Topic
  import opened TopicInvariants
  import opened Wrappers

  /** The part of a map that lies at the given keys. */
  ghost function Only(m: map<Slot, Delivery>, keys: set<Slot>): map<Slot, Delivery> {
    map slot | slot in keys && slot in m :: m[slot]
  }

  ghost function Merge(base: map<Slot, Delivery>, wanted: map<Slot, Delivery>, replay: bool): map<Slot, Delivery> {
    if replay then base + wanted else wanted + base
  }

  ghost function InPartition(m: map<Slot, Delivery>, p: nat): set<Slot> {
    set slot | slot in m && slot.partition == p
  }

  ghost function Below(m: map<Slot, Delivery>, p: nat): set<Slot> {
    set slot | slot in m && slot.partition < p
  }

  predicate IsAfter(slot: Slot, group: string, offsets: Offsets) {
    slot.group == group && slot.offset > At(offsets, slot.partition)
  }

  /** `all` holds a pending delivery for exactly the messages beyond the offsets. */
  ghost predicate IsBeyond(all: map<Slot, Delivery>, messages: map<Id, Message>, group: string, offsets: Offsets) {
    && (forall slot :: slot in all ==> IsAfter(slot, group, offsets) && exists id :: Sits(messages, id, slot))
    && forall slot, id :: Sits(messages, id, slot) && IsAfter(slot, group, offsets) ==>
         slot in all && all[slot] == Delivery(id, Pending, 0)
  }

  class Engine {
    const partitions: nat
    var foreignIds: set<Id>
    var messages: map<Id, Message>
    var idempotency: map<string, Id>
    var heads: Offsets
    var groups: map<string, Offsets>
    var deliveries: map<Slot, Delivery>
    var dead: map<Slot, Id>
    /** The groups that this process consumes for. */
    var subscriptions: set<string>

    constructor (partitions: nat, foreignIds: set<Id>)
      ensures View() == Empty(partitions, foreignIds) && subscriptions == {}
    {
      this.partitions := partitions;
      this.foreignIds := foreignIds;
      messages, idempotency, heads := map[], map[], map[];
      groups, deliveries, dead, subscriptions := map[], map[], map[], {};
    }

    function View(): State
      reads this
    {
      State(partitions, foreignIds, messages, idempotency, heads, groups, deliveries, dead)
    }

    // ---------- Publishing ----------

    method IncrementOffset(p: nat) returns (offset: nat)
      modifies `heads
      ensures offset == At(old(heads), p) + 1 && heads == Set(old(heads), p, offset)
    {
      offset := At(heads, p) + 1;
      heads := Set(heads, p, offset);
    }

    method CreateDeliveriesForMessage(id: Id, m: Message)
      modifies `deliveries
      ensures deliveries == NewDeliveries(groups, id, m) + old(deliveries)
    {
      ghost var all := NewDeliveries(groups, id, m);
      var names := groups.Keys;
      ghost var visited: set<Slot> := {};
      MergeNone(deliveries, all, visited, false);
      while names != {}
        invariant names <= groups.Keys && visited <= all.Keys
        invariant forall slot :: slot in all && slot !in visited ==> slot.group in names
        invariant deliveries == Merge(old(deliveries), Only(all, visited), false)
        decreases names
      {
        var g :| g in names;
        names := names - {g};
        if m.offset > At(groups[g], m.partition) {
          var slot := Slot(g, m.partition, m.offset);
          MergeOne(old(deliveries), all, visited, slot, false);
          visited := visited + {slot};
          if slot !in deliveries {
            deliveries := deliveries[slot := Delivery(id, Pending, 0)];
          }
        }
      }
      assert Only(all, visited) == all;
    }

    method ResolveExistingId(o: PublishOptions) returns (existing: Option<Id>)
      ensures existing == ExistingId(View(), o)
    {
      if Given(o.messageId) {
        if o.messageId.value in messages {
          return o.messageId;
        }
      }
      if Given(o.idempotencyKey) {
        if o.idempotencyKey.value in idempotency && idempotency[o.idempotencyKey.value] != "" {
          return Some(idempotency[o.idempotencyKey.value]);
        }
      }
      return None;
    }

    method Publish(o: PublishOptions, p: nat, now: int, freshId: Id) returns (id: Id)
      modifies `messages, `idempotency, `heads, `deliveries
      ensures (View(), id) == Topic.Publish(old(View()), o, p, now, freshId)
    {
      var existing := ResolveExistingId(o);
      if existing.Some? {
        return existing.value;
      }
      id := o.messageId.GetOr(freshId);
      var offset := IncrementOffset(p);
      if id in messages || id in foreignIds {
        return;
      }
      var m := Message(p, offset, now);
      messages := messages[id := m];
      if Given(o.idempotencyKey) && o.idempotencyKey.value !in idempotency {
        idempotency := idempotency[o.idempotencyKey.value := id];
      }
      CreateDeliveriesForMessage(id, m);
    }

    /** Another topic publishes a message and stores it in the shared namespace. */
    method StoreForeign(id: Id)
      requires id !in messages
      modifies `foreignIds
      ensures View() == Apply(old(View()), ForeignOp(id))
    {
      foreignIds := foreignIds + {id};
    }

    // ---------- Groups ----------

    /** One partition's turn: a delivery for each of the listed messages. */
    method EnsureDeliveriesInPartition(group: string, p: nat, replay: bool, ghost all: map<Slot, Delivery>)
      requires group in groups && IsBeyond(all, messages, group, groups[group])
      modifies `deliveries
      ensures deliveries == Merge(old(deliveries), Only(all, InPartition(all, p)), replay)
    {
      var committed := At(groups[group], p);
      var ids := set id | id in messages && messages[id].partition == p && messages[id].offset > committed;
      ghost var visited: set<Slot> := {};
      MergeNone(deliveries, all, visited, replay);
      while ids != {}
        invariant forall id :: id in ids ==>
                    id in messages && messages[id].partition == p && messages[id].offset > committed
        invariant visited <= InPartition(all, p)
        invariant forall id, slot :: Sits(messages, id, slot) && slot in InPartition(all, p) - visited ==> id in ids
        invariant deliveries == Merge(old(deliveries), Only(all, visited), replay)
        decreases ids
      {
        var id :| id in ids;
        ids := ids - {id};
        var slot := Slot(group, p, messages[id].offset);
        assert Sits(messages, id, slot);
        MergeOne(old(deliveries), all, visited, slot, replay);
        visited := visited + {slot};
        if replay || slot !in deliveries {
          deliveries := deliveries[slot := Delivery(id, Pending, 0)];
        }
      }
      forall slot | slot in InPartition(all, p)
        ensures slot in visited
      {
        var id :| Sits(messages, id, slot);
      }
      assert visited == InPartition(all, p);
    }

    method EnsureDeliveriesInAll(group: string, replay: bool, ghost all: map<Slot, Delivery>)
      requires group in groups && IsBeyond(all, messages, group, groups[group])
      requires forall slot :: slot in all ==> slot.partition < partitions
      modifies `deliveries
      ensures deliveries == Merge(old(deliveries), all, replay)
    {
      MergeNone(deliveries, all, Below(all, 0), replay);
      var p := 0;
      while p < partitions
        invariant p <= partitions
        invariant deliveries == Merge(old(deliveries), Only(all, Below(all, p)), replay)
      {
        EnsureDeliveriesInPartition(group, p, replay, all);
        BelowNext(all, p);
        MergeTwice(old(deliveries), all, Below(all, p), InPartition(all, p), Below(all, p + 1), replay);
        p := p + 1;
      }
      MergeAll(old(deliveries), all, p, replay);
    }

    method EnsureDeliveriesForGroup(group: string, replay: bool)
      requires LogOk(View())
      modifies `deliveries
      ensures View() == EnsureDeliveries(old(View()), group, replay)
    {
      if group in groups {
        ghost var all := Beyond(View(), group, groups[group]);
        BeyondIsBeyond(View(), group);
        EnsureDeliveriesInAll(group, replay, all);
      }
    }

    /** The storage query for the last message of a partition before the cutoff. */
    method LastOffsetBefore(p: nat, cutoff: int) returns (last: nat)
      ensures last == LastBefore(messages, p, cutoff)
    {
      var ids := set id | id in messages && messages[id].partition == p && messages[id].publishedAt < cutoff;
      ghost var listed := ids;
      last := 0;
      while ids != {}
        invariant ids <= listed
        invariant forall id :: id in listed - ids ==> messages[id].offset <= last
        invariant last == 0 || last in OffsetsBefore(messages, p, cutoff)
        decreases ids
      {
        var id :| id in ids;
        ids := ids - {id};
        assert messages[id].offset in OffsetsBefore(messages, p, cutoff);
        if messages[id].offset > last {
          last := messages[id].offset;
        }
      }
      assert forall offset :: offset in OffsetsBefore(messages, p, cutoff) ==> offset <= last;
      assert LastBefore(messages, p, cutoff) <= last;
    }

    method ResolveOffsetsBefore(cutoff: int) returns (offsets: Offsets)
      ensures offsets == OffsetsBeforeTimestamp(View(), cutoff)
    {
      offsets := Everywhere(partitions, 0);
      var p := 0;
      while p < partitions
        invariant p <= partitions
        invariant forall q: nat :: q in offsets <==> q < partitions
        invariant forall q: nat :: q < p ==> offsets[q] == LastBefore(messages, q, cutoff)
      {
        var last := LastOffsetBefore(p, cutoff);
        offsets := Set(offsets, p, last);
        p := p + 1;
      }
    }

    method ResolveInitialOffsets(from: StartFrom) returns (offsets: Offsets)
      ensures offsets == InitialOffsets(View(), from)
    {
      match from {
        case Latest => offsets := HeadOffsets(View());
        case Earliest => offsets := Everywhere(partitions, 0);
        case FromOffset(n) => offsets := Everywhere(partitions, NotNegative(n - 1));
        case FromTime(cutoff) => offsets := ResolveOffsetsBefore(cutoff);
      }
    }

    /** A group that is already consumed here is rejected. */
    method Subscribe(group: string, from: StartFrom) returns (subscribed: bool)
      requires LogOk(View())
      modifies `groups, `deliveries, `subscriptions
      ensures subscribed == (group !in old(subscriptions)) && subscriptions == old(subscriptions) + {group}
      ensures View() == if subscribed then Topic.Subscribe(old(View()), group, from) else old(View())
    {
      if group in subscriptions {
        return false;
      }
      if group !in groups {
        var offsets := ResolveInitialOffsets(from);
        groups := groups[group := offsets];
      }
      LogIgnoresGroups(old(View()), View());
      EnsureDeliveriesForGroup(group, false);
      subscriptions := subscriptions + {group};
      return true;
    }

    /** What `subscribe` returns: the group may be subscribed again, and its records stay. */
    method Unsubscribe(group: string)
      modifies `subscriptions
      ensures subscriptions == old(subscriptions) - {group} && View() == old(View())
    {
      subscriptions := subscriptions - {group};
    }

    // ---------- Consuming ----------

    method AdvanceCursor(group: string, p: nat)
      modifies `groups
      ensures View() == Topic.AdvanceCursor(old(View()), group, p)
    {
      if group !in groups {
        return;
      }
      var current := At(groups[group], p);
      while Slot(group, p, current + 1) in deliveries && Terminal(deliveries[Slot(group, p, current + 1)].status)
        invariant current >= At(groups[group], p)
        invariant Scan(deliveries, group, p, current) == Scan(deliveries, group, p, At(groups[group], p))
        decreases Ahead(deliveries, current)
      {
        assert Slot(group, p, current + 1) in Ahead(deliveries, current) - Ahead(deliveries, current + 1);
        current := current + 1;
      }
      groups := groups[group := Set(groups[group], p, current)];
    }

    /** Up to the call of the handler: `leased` tells whether it is called. */
    method ProcessDelivery(slot: Slot, passesFilter: bool) returns (leased: bool)
      modifies `deliveries, `groups
      ensures View() == Process(old(View()), slot, passesFilter)
      ensures leased <==> slot in old(deliveries) && !old(deliveries)[slot].status.Acked?
                          && old(deliveries)[slot].messageId in messages && passesFilter
    {
      leased := false;
      if slot !in deliveries || deliveries[slot].status == Acked {
        return;
      }
      var delivery := deliveries[slot];
      if delivery.messageId !in messages {
        deliveries := deliveries[slot := delivery.(status := Discarded)];
        return;
      }
      if !passesFilter {
        deliveries := deliveries[slot := delivery.(status := Filtered)];
        AdvanceCursor(slot.group, slot.partition);
        return;
      }
      deliveries := deliveries[slot := delivery.(status := Leased, attempt := delivery.attempt + 1)];
      leased := true;
    }

    /** The consumer holds its own copy of the delivery, read before the handler ran. */
    method Settle(slot: Slot, copy: Delivery, outcome: Outcome, maxAttempts: nat, deadLetters: bool)
      modifies `deliveries, `dead, `groups
      ensures View() == Topic.Settle(old(View()), slot, copy, outcome, maxAttempts, deadLetters)
      ensures outcome.Ack? ==> deliveries == old(deliveries)[slot := Delivery(copy.messageId, Acked, copy.attempt)]
      ensures outcome.Discard? ==>
                deliveries == old(deliveries)[slot := Delivery(copy.messageId, Discarded, copy.attempt)]
      ensures outcome.Nack? && copy.attempt < maxAttempts ==>
                deliveries == old(deliveries)[slot := Delivery(copy.messageId, Pending, copy.attempt)]
                && groups == old(groups)
      ensures outcome.Nack? && copy.attempt >= maxAttempts ==>
                deliveries == old(deliveries)[slot := Delivery(copy.messageId, Dead, copy.attempt)]
                && dead == if deadLetters && copy.messageId in messages then old(dead)[slot := copy.messageId]
                           else old(dead)
    {
      match outcome {
        case Ack => deliveries := deliveries[slot := copy.(status := Acked)];
        case Discard => deliveries := deliveries[slot := copy.(status := Discarded)];
        case Nack =>
          if copy.attempt < maxAttempts {
            deliveries := deliveries[slot := copy.(status := Pending)];
            return;
          }
          deliveries := deliveries[slot := copy.(status := Dead)];
          if deadLetters && copy.messageId in messages {
            dead := dead[slot := copy.messageId];
          }
      }
      AdvanceCursor(slot.group, slot.partition);
    }

    /** The first dead letter of the group and message, if there is one, is made pending again. */
    method RetryDeadLetter(group: string, id: Id) returns (found: Option<Slot>)
      modifies `deliveries, `dead
      ensures found.None? ==>
                View() == old(View()) && forall slot :: slot in dead ==> slot.group != group || dead[slot] != id
      ensures found.Some? ==> found.value in old(dead) && found.value.group == group && old(dead)[found.value] == id
                              && View() == Topic.RetryDeadLetter(old(View()), found.value)
    {
      var entries := set slot | slot in dead && slot.group == group && dead[slot] == id;
      if entries == {} {
        assert forall slot :: slot in dead && slot.group == group && dead[slot] == id ==> slot in entries;
        return None;
      }
      var entry :| entry in entries;
      found := Some(entry);
      if entry !in deliveries {
        return;
      }
      deliveries := deliveries[entry := deliveries[entry].(status := Pending)];
      dead := dead - {entry};
    }

    // ---------- Seeking ----------

    method ResolveSeekOffsets(to: SeekTo, existing: Offsets) returns (offsets: Offsets)
      ensures offsets == SeekOffsets(View(), to, existing)
    {
      match to {
        case SeekLatest => offsets := HeadOffsets(View());
        case SeekEarliest => offsets := Everywhere(partitions, 0);
        case SeekOffset(n) => offsets := Everywhere(partitions, NotNegative(n - 1));
        case SeekTime(cutoff) => offsets := ResolveOffsetsBefore(cutoff);
        case SeekMessage(id) =>
          offsets := existing;
          if id in messages {
            offsets := Set(offsets, messages[id].partition, NotNegative(messages[id].offset - 1));
          }
      }
    }

    method Seek(group: string, to: SeekTo) returns (known: bool)
      requires LogOk(View())
      modifies `groups, `deliveries
      ensures known <==> group in old(groups)
      ensures View() == Topic.Seek(old(View()), group, to)
    {
      known := group in groups;
      if !known {
        return;
      }
      var offsets := ResolveSeekOffsets(to, groups[group]);
      groups := groups[group := offsets];
      LogIgnoresGroups(old(View()), View());
      EnsureDeliveriesForGroup(group, true);
    }
  }

  // ---------- Facts the loops use ----------

  lemma LogIgnoresGroups(s: State, t: State)
    requires LogOk(s) && t == s.(groups := t.groups, deliveries := t.deliveries)
    ensures LogOk(t)
  {
    assert forall id :: id in s.messages ==> InLog(s, s.messages[id]) ==> InLog(t, t.messages[id]);
  }

  lemma BeyondIsBeyond(s: State, group: string)
    requires LogOk(s) && group in s.groups
    ensures IsBeyond(Beyond(s, group, s.groups[group]), s.messages, group, s.groups[group])
    ensures forall slot :: slot in Beyond(s, group, s.groups[group]) ==> slot.partition < s.partitions
  {
    var all := Beyond(s, group, s.groups[group]);
    forall slot
      ensures slot in all <==> IsAfter(slot, group, s.groups[group]) && exists id :: Sits(s.messages, id, slot)
      ensures forall id :: slot in all && Sits(s.messages, id, slot) ==> all[slot] == Delivery(id, Pending, 0)
      ensures slot in all ==> slot.partition < s.partitions
    {
      BeyondIsExact(s, group, s.groups[group], slot);
      forall id | slot in all && Sits(s.messages, id, slot)
        ensures all[slot] == Delivery(id, Pending, 0)
      {
        SameSlotSameMessage(s, slot, id, all[slot].messageId);
      }
    }
  }

  lemma BelowNext(all: map<Slot, Delivery>, p: nat)
    ensures Below(all, p + 1) == Below(all, p) + InPartition(all, p)
  {
  }

  lemma MergeNone(base: map<Slot, Delivery>, all: map<Slot, Delivery>, none: set<Slot>, replay: bool)
    requires none == {}
    ensures Merge(base, Only(all, none), replay) == base
  {
  }

  lemma MergeAll(base: map<Slot, Delivery>, all: map<Slot, Delivery>, partitions: nat, replay: bool)
    requires forall slot :: slot in all ==> slot.partition < partitions
    ensures Merge(base, Only(all, Below(all, partitions)), replay) == Merge(base, all, replay)
  {
    assert Only(all, Below(all, partitions)) == all;
  }

  lemma MergeOne(base: map<Slot, Delivery>, all: map<Slot, Delivery>, visited: set<Slot>, slot: Slot, replay: bool)
    requires slot in all
    ensures var before := Merge(base, Only(all, visited), replay);
            Merge(base, Only(all, visited + {slot}), replay)
            == if replay || slot !in before then before[slot := all[slot]] else before
  {
  }

  lemma MergeTwice(
    base: map<Slot, Delivery>, all: map<Slot, Delivery>, a: set<Slot>, b: set<Slot>, c: set<Slot>, replay: bool)
    requires c == a + b
    ensures Merge(Merge(base, Only(all, a), replay), Only(all, b), replay) == Merge(base, Only(all, c), replay)
  {
  }
}
