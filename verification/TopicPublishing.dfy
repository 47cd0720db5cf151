/** What a publish stores and answers, and which deliveries a subscription or a resume adds. */
module TopicPublishing {
  import opened Topic
  import opened TopicInvariants
  import opened TopicPlacement
  import opened Wrappers

  /** The option is there and is not the empty string. */
  predicate Says(o: Option<string>, text: string) {
    o == Some(text) && text != ""
  }

  /** The id is stored in this topic. */
  predicate IdIsStored(s: State, o: PublishOptions, id: Id) {
    Says(o.messageId, id) && id in s.messages
  }

  predicate KeyIsRecorded(s: State, o: PublishOptions, id: Id) {
    && o.idempotencyKey.Some? && o.idempotencyKey.value != ""
    && Lookup(s.idempotency, o.idempotencyKey.value) == Some(id) && id != ""
  }

  /** A publish with an id that is stored is answered with that id and changes nothing, whatever its key is. */
  lemma StoredIdIsAnswered(s: State, o: PublishOptions, p: nat, now: int, freshId: Id, id: Id)
    requires IdIsStored(s, o, id)
    ensures Publish(s, o, p, now, freshId) == (s, id)
  {
  }

  /** Any other publish with a recorded key is answered with the id recorded for it, and changes nothing. */
  lemma RecordedKeyIsAnswered(s: State, o: PublishOptions, p: nat, now: int, freshId: Id, id: Id)
    requires KeyIsRecorded(s, o, id) && forall stored :: !IdIsStored(s, o, stored)
    ensures Publish(s, o, p, now, freshId) == (s, id)
  {
    assert Given(o.messageId) ==> !IdIsStored(s, o, o.messageId.value);
  }

  /** Nobody has to be answered from the records. */
  ghost predicate IsNew(s: State, o: PublishOptions) {
    forall id :: !IdIsStored(s, o, id) && !KeyIsRecorded(s, o, id)
  }

  lemma NewIsUnknown(s: State, o: PublishOptions)
    requires IsNew(s, o)
    ensures ExistingId(s, o).None?
  {
    assert Given(o.messageId) ==> !IdIsStored(s, o, o.messageId.value);
    if Given(o.idempotencyKey) && o.idempotencyKey.value in s.idempotency {
      assert !KeyIsRecorded(s, o, s.idempotency[o.idempotencyKey.value]);
    }
  }

  /** Any other publish takes the next offset; when its id is in use, that is all it does. */
  lemma UsedIdBurnsOffset(s: State, o: PublishOptions, p: nat, now: int, freshId: Id)
    requires IsNew(s, o)
    ensures var id := if o.messageId.Some? then o.messageId.value else freshId;
            var next := At(s.heads, p) + 1;
            id in s.messages || id in s.foreignIds ==>
              Publish(s, o, p, now, freshId) == (s.(heads := s.heads[p := next]), id)
  {
    NewIsUnknown(s, o);
  }

  /** With an id that is not in use, the message is stored at that offset with the time of the call. */
  lemma NewIsStored(s: State, o: PublishOptions, p: nat, now: int, freshId: Id)
    requires IsNew(s, o)
    ensures var id := if o.messageId.Some? then o.messageId.value else freshId;
            var next := At(s.heads, p) + 1;
            id !in s.messages && id !in s.foreignIds ==>
              var (t, answer) := Publish(s, o, p, now, freshId);
              && answer == id
              && t == s.(messages := s.messages[id := Message(p, next, now)], heads := s.heads[p := next],
                         idempotency := t.idempotency, deliveries := t.deliveries)
  {
    NewIsUnknown(s, o);
  }

  /** Its key is recorded, unless it was before. */
  lemma NewKeyIsRecorded(s: State, o: PublishOptions, p: nat, now: int, freshId: Id, key: string)
    requires IsNew(s, o)
    ensures var id := if o.messageId.Some? then o.messageId.value else freshId;
            id !in s.messages && id !in s.foreignIds ==>
              Lookup(Publish(s, o, p, now, freshId).0.idempotency, key)
              == if key !in s.idempotency && Says(o.idempotencyKey, key) then Some(id) else Lookup(s.idempotency, key)
  {
    NewIsUnknown(s, o);
  }

  /** Each group that has not passed its offset gets a pending delivery; a stored one is not overwritten. */
  lemma NewIsDelivered(s: State, o: PublishOptions, p: nat, now: int, freshId: Id, slot: Slot)
    requires IsNew(s, o)
    ensures var id := if o.messageId.Some? then o.messageId.value else freshId;
            var next := At(s.heads, p) + 1;
            id !in s.messages && id !in s.foreignIds ==>
              Lookup(Publish(s, o, p, now, freshId).0.deliveries, slot)
              == if slot !in s.deliveries && slot.partition == p && slot.offset == next
                    && slot.group in s.groups && At(s.groups[slot.group], p) < next
                 then Some(Delivery(id, Pending, 0))
                 else Lookup(s.deliveries, slot)
  {
    var id := o.messageId.GetOr(freshId);
    var m := Message(p, At(s.heads, p) + 1, now);
    NewIsUnknown(s, o);
    PublishStores(s, o, p, now, freshId);
    NewDelivery(s.groups, s.deliveries, id, m, slot);
    assert StoreMessage(s, o, id, m).deliveries == NewDeliveries(s.groups, id, m) + s.deliveries;
  }

  lemma PublishStores(s: State, o: PublishOptions, p: nat, now: int, freshId: Id)
    requires ExistingId(s, o) == None
    ensures var id := o.messageId.GetOr(freshId);
            !Taken(s, id) ==>
              Publish(s, o, p, now, freshId) == (StoreMessage(s, o, id, Message(p, At(s.heads, p) + 1, now)), id)
  {
  }

  lemma NewDelivery(groups: map<string, Offsets>, deliveries: map<Slot, Delivery>, id: Id, m: Message, slot: Slot)
    ensures Lookup(NewDeliveries(groups, id, m) + deliveries, slot) ==
            if slot !in deliveries && slot.partition == m.partition && slot.offset == m.offset
               && slot.group in groups && At(groups[slot.group], m.partition) < m.offset
            then Some(Delivery(id, Pending, 0))
            else Lookup(deliveries, slot)
  {
  }

  // ---------- Filling gaps ----------

  /** A resume gives the group a delivery of each stored message beyond its cursor that has none, and no other. */
  lemma ResumeFillsGaps(s: State, group: string, slot: Slot, id: Id)
    requires LogOk(s) && group in s.groups && Sits(s.messages, id, slot)
    ensures var t := Apply(s, ResumeOp(group));
            && t == s.(deliveries := t.deliveries)
            && ReplayedIff(s.deliveries, t.deliveries, slot, id,
                           slot.group == group && slot !in s.deliveries
                           && slot.offset > At(s.groups[group], slot.partition))
  {
    if slot.group == group && slot !in s.deliveries {
      FilledDelivery(s, group, slot, id);
    }
  }

  /** So does a subscription of a group that is there, whatever it asks for. */
  lemma SubscribeFillsGaps(s: State, group: string, from: StartFrom)
    requires group in s.groups
    ensures Apply(s, SubscribeOp(group, from)) == Apply(s, ResumeOp(group))
  {
  }

  /** No delivery appears where no message sits. */
  lemma FillsOnlyMessages(s: State, group: string, slot: Slot)
    requires LogOk(s) && forall id :: !Sits(s.messages, id, slot)
    ensures SameDelivery(s.deliveries, Apply(s, ResumeOp(group)).deliveries, slot)
  {
    if group in s.groups {
      BeyondIsExact(s, group, s.groups[group], slot);
    }
  }
}
