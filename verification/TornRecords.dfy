/** What a publish leaves when it crashes, write by write. */
module TornRecords {
  import opened Topic
  import TopicPublishing
  import opened TornPublish
  import opened Wrappers

  /** A publish that is answered from the records writes nothing before it crashes. */
  lemma AnsweredTearsNothing(s: State, mv: Move)
    requires mv.Torn? && ExistingId(s, mv.options).Some?
    ensures Moved(s, mv) == s
  {
  }

  /** One whose id is in use has taken an offset, and so has one that crashes right after that. */
  lemma FirstWrite(s: State, mv: Move)
    requires mv.Torn? && ExistingId(s, mv.options).None?
    requires TornId(mv) in s.messages || TornId(mv) in s.foreignIds || mv.progress == OffsetTaken
    ensures Moved(s, mv) == s.(heads := s.heads[mv.p := At(s.heads, mv.p) + 1])
  {
  }

  /** The second write stores the message at that offset. */
  lemma SecondWrite(s: State, mv: Move)
    requires mv.Torn? && ExistingId(s, mv.options).None? && mv.progress == MessageStored
    requires TornId(mv) !in s.messages && TornId(mv) !in s.foreignIds
    ensures var next := At(s.heads, mv.p) + 1;
            Moved(s, mv) == s.(heads := s.heads[mv.p := next],
                               messages := s.messages[TornId(mv) := Message(mv.p, next, mv.now)])
  {
  }

  /** The third records the key, unless it was before, and the deliveries follow. */
  lemma LaterWrites(s: State, mv: Move)
    requires mv.Torn? && ExistingId(s, mv.options).None? && mv.progress.KeyStored?
    requires TornId(mv) !in s.messages && TornId(mv) !in s.foreignIds
    ensures var t, next := Moved(s, mv), At(s.heads, mv.p) + 1;
            t == s.(heads := s.heads[mv.p := next],
                    messages := s.messages[TornId(mv) := Message(mv.p, next, mv.now)],
                    idempotency := KeyRecorded(s, mv.options, TornId(mv)),
                    deliveries := t.deliveries)
  {
  }

  function KeyRecorded(s: State, o: PublishOptions, id: Id): map<string, Id> {
    if o.idempotencyKey.None? || o.idempotencyKey.value == "" || o.idempotencyKey.value in s.idempotency
    then s.idempotency
    else s.idempotency[o.idempotencyKey.value := id]
  }

  /** The groups that were served have what a whole publish gives them, and the others have what they had. */
  lemma ServedGroups(s: State, mv: Move, slot: Slot)
    requires mv.Torn? && ExistingId(s, mv.options).None? && mv.progress.KeyStored?
    requires TornId(mv) !in s.messages && TornId(mv) !in s.foreignIds
    ensures Lookup(Moved(s, mv).deliveries, slot)
            == if slot.group in mv.progress.served then DeliveredTo(s, slot, mv.p, At(s.heads, mv.p) + 1, TornId(mv))
               else Lookup(s.deliveries, slot)
  {
    var m := Message(mv.p, At(s.heads, mv.p) + 1, mv.now);
    TearStores(s, mv);
    PartDelivery(s, mv.options, TornId(mv), m, mv.progress, slot);
  }

  lemma PartDelivery(s: State, o: PublishOptions, id: Id, m: Message, progress: Progress, slot: Slot)
    requires progress.KeyStored?
    ensures Lookup(StoreInPart(s, o, id, m, progress).deliveries, slot)
            == if slot.group in progress.served then DeliveredTo(s, slot, m.partition, m.offset, id)
               else Lookup(s.deliveries, slot)
  {
    ServedDelivery(NewDeliveries(s.groups, id, m), s.deliveries, progress.served, slot);
    TopicPublishing.NewDelivery(s.groups, s.deliveries, id, m, slot);
  }

  lemma ServedDelivery(wanted: map<Slot, Delivery>, deliveries: map<Slot, Delivery>, groups: set<string>, slot: Slot)
    ensures Lookup(Served(wanted, groups) + deliveries, slot)
            == Lookup(if slot.group in groups then wanted + deliveries else deliveries, slot)
  {
  }

  /** What the slot holds after a whole publish of the message. */
  function DeliveredTo(s: State, slot: Slot, p: nat, next: nat, id: Id): Option<Delivery> {
    if slot !in s.deliveries && slot.partition == p && slot.offset == next
       && slot.group in s.groups && At(s.groups[slot.group], p) < next
    then Some(Delivery(id, Pending, 0))
    else Lookup(s.deliveries, slot)
  }

  /** With every group served, the crash came after the last write: the publish is complete. */
  lemma FullyServedIsWhole(s: State, o: PublishOptions, p: nat, now: int, freshId: Id, served: set<string>)
    requires s.groups.Keys <= served
    ensures Moved(s, Torn(o, p, now, freshId, KeyStored(served))) == Apply(s, PublishOp(o, p, now, freshId))
  {
    var mv := Torn(o, p, now, freshId, KeyStored(served));
    if ExistingId(s, o).Some? {
      AnsweredTearsNothing(s, mv);
    } else if Taken(s, TornId(mv)) {
      FirstWrite(s, mv);
    } else {
      ServedIsStored(s, mv);
      TopicPublishing.PublishStores(s, o, p, now, freshId);
    }
  }

  lemma ServedIsStored(s: State, mv: Move)
    requires Leaves(s, mv) && mv.progress.KeyStored? && s.groups.Keys <= mv.progress.served
    ensures Moved(s, mv) == StoreMessage(s, mv.options, TornId(mv), Message(mv.p, At(s.heads, mv.p) + 1, mv.now))
  {
    TearStores(s, mv);
    AllServed(s, mv.options, TornId(mv), Message(mv.p, At(s.heads, mv.p) + 1, mv.now), mv.progress.served);
  }

  lemma AllServed(s: State, o: PublishOptions, id: Id, m: Message, served: set<string>)
    requires s.groups.Keys <= served
    ensures StoreInPart(s, o, id, m, KeyStored(served)) == StoreMessage(s, o, id, m)
  {
    assert Served(NewDeliveries(s.groups, id, m), served) == NewDeliveries(s.groups, id, m);
  }

  lemma TearStores(s: State, mv: Move)
    requires Leaves(s, mv)
    ensures TearPublish(s, mv)
            == StoreInPart(s, mv.options, TornId(mv), Message(mv.p, At(s.heads, mv.p) + 1, mv.now), mv.progress)
  {
  }
}
