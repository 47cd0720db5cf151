/**
 One topic of the pub/sub engine: a partitioned log, the deliveries of each consumer group and the
 cursor that each group has committed in each partition. Each operation is given here by what it
 does to the stored records.
*/
module Topic {
  import opened Wrappers

  type Id = string

  datatype Message = Message(partition: nat, offset: nat, publishedAt: int)

  datatype Status = Pending | Leased | Acked | Discarded | Dead | Filtered

  predicate Terminal(status: Status) {
    status.Acked? || status.Discarded? || status.Dead? || status.Filtered?
  }

  datatype Delivery = Delivery(messageId: Id, status: Status, attempt: nat)

  /** The identity of a delivery: `topic:group:p:partition:o:offset`. */
  datatype Slot = Slot(group: string, partition: nat, offset: nat)

  /** The committed offset of each partition; a missing partition counts as 0. */
  type Offsets = map<nat, nat>

  function Set(offsets: Offsets, p: nat, offset: nat): Offsets {
    offsets[p := offset]
  }

  function At(offsets: Offsets, p: nat): nat {
    if p in offsets then offsets[p] else 0
  }

  /**
   The stored records of the topic. `foreignIds` are the message ids that other topics have stored
   in the shared namespace.
  */
  datatype State = State(
    partitions: nat,
    foreignIds: set<Id>,
    messages: map<Id, Message>,
    idempotency: map<string, Id>,
    heads: Offsets,
    groups: map<string, Offsets>,
    deliveries: map<Slot, Delivery>,
    dead: map<Slot, Id>)

  // ---------- Publishing ----------

  datatype PublishOptions = PublishOptions(messageId: Option<Id>, idempotencyKey: Option<string>)

  /** `resolveExistingId` */
  function ExistingId(s: State, o: PublishOptions): Option<Id> {
    if Given(o.messageId) && o.messageId.value in s.messages then o.messageId
    else if Given(o.idempotencyKey) && o.idempotencyKey.value in s.idempotency
            && s.idempotency[o.idempotencyKey.value] != ""
    then Some(s.idempotency[o.idempotencyKey.value])
    else None
  }

  predicate Taken(s: State, id: Id) {
    id in s.messages || id in s.foreignIds
  }

  /** A pending delivery of the message for every group whose cursor has not passed it. */
  function NewDeliveries(groups: map<string, Offsets>, id: Id, m: Message): map<Slot, Delivery> {
    map g | g in groups && m.offset > At(groups[g], m.partition) ::
      Slot(g, m.partition, m.offset) := Delivery(id, Pending, 0)
  }

  /** The message is stored at its offset, its key is recorded, and its deliveries are created. */
  function StoreMessage(s: State, o: PublishOptions, id: Id, m: Message): State {
    s.(heads := Set(s.heads, m.partition, m.offset),
       messages := s.messages[id := m],
       idempotency := if Given(o.idempotencyKey) && o.idempotencyKey.value !in s.idempotency
                      then s.idempotency[o.idempotencyKey.value := id] else s.idempotency,
       deliveries := NewDeliveries(s.groups, id, m) + s.deliveries)
  }

  /** `publish`, with the partition already resolved and `freshId` drawn for a message without an id. */
  function Publish(s: State, o: PublishOptions, p: nat, now: int, freshId: Id): (State, Id) {
    if ExistingId(s, o).Some? then (s, ExistingId(s, o).value)
    else
      var id := o.messageId.GetOr(freshId);
      var m := Message(p, At(s.heads, p) + 1, now);
      if Taken(s, id) then (s.(heads := Set(s.heads, p, m.offset)), id) else (StoreMessage(s, o, id, m), id)
  }

  // ---------- Groups ----------

  /** The message `id` sits at the partition and the offset of the slot. */
  predicate Sits(messages: map<Id, Message>, id: Id, slot: Slot) {
    id in messages && messages[id].partition == slot.partition && messages[id].offset == slot.offset
  }

  ghost function IdAt(messages: map<Id, Message>, slot: Slot): (id: Id)
    ensures (exists other :: Sits(messages, other, slot)) ==> Sits(messages, id, slot)
  {
    if exists id :: Sits(messages, id, slot) then
      var id :| Sits(messages, id, slot); id
    else ""
  }

  /** The slots of the stored messages that lie beyond the offsets. */
  function SlotsBeyond(s: State, group: string, from: Offsets): set<Slot> {
    set id | id in s.messages && s.messages[id].partition < s.partitions
             && s.messages[id].offset > At(from, s.messages[id].partition) ::
      Slot(group, s.messages[id].partition, s.messages[id].offset)
  }

  /** Pending deliveries of every stored message beyond the offsets. */
  ghost function Beyond(s: State, group: string, from: Offsets): (wanted: map<Slot, Delivery>)
    ensures wanted.Keys == SlotsBeyond(s, group, from)
  {
    map slot | slot in SlotsBeyond(s, group, from) :: Delivery(IdAt(s.messages, slot), Pending, 0)
  }

  /** `ensureDeliveriesForGroup`: a replay overwrites what is stored, otherwise only gaps are filled. */
  ghost function EnsureDeliveries(s: State, group: string, replay: bool): State {
    if group !in s.groups then s
    else
      var wanted := Beyond(s, group, s.groups[group]);
      s.(deliveries := if replay then s.deliveries + wanted else wanted + s.deliveries)
  }

  /** The same offset in every partition. */
  function Everywhere(partitions: nat, offset: nat): (offsets: Offsets)
    ensures forall p: nat :: p in offsets <==> p < partitions
    ensures forall p :: p in offsets ==> offsets[p] == offset
  {
    if partitions == 0 then map[] else Set(Everywhere(partitions - 1, offset), partitions - 1, offset)
  }

  function HeadOffsets(s: State): Offsets {
    map p: nat | 0 <= p < s.partitions :: At(s.heads, p)
  }

  function NotNegative(n: int): nat {
    if n < 0 then 0 else n
  }

  /** The offsets of the partition's messages published before the cutoff. */
  function OffsetsBefore(messages: map<Id, Message>, p: nat, cutoff: int): set<nat> {
    set id | id in messages && messages[id].partition == p && messages[id].publishedAt < cutoff :: messages[id].offset
  }

  /** The largest element, or 0. */
  ghost function MaxOrZero(xs: set<nat>): (m: nat)
    ensures forall x :: x in xs ==> x <= m
    ensures xs != {} ==> m in xs
    ensures xs == {} ==> m == 0
  {
    if xs == {} then 0
    else
      var x :| x in xs;
      var others := xs - {x};
      var rest := MaxOrZero(others);
      assert forall y :: y in xs ==> y == x || y in others;
      if others == {} || x > rest then x else rest
  }

  ghost function LastBefore(messages: map<Id, Message>, p: nat, cutoff: int): nat {
    MaxOrZero(OffsetsBefore(messages, p, cutoff))
  }

  ghost function OffsetsBeforeTimestamp(s: State, cutoff: int): Offsets {
    map p: nat | 0 <= p < s.partitions :: LastBefore(s.messages, p, cutoff)
  }

  datatype StartFrom = Latest | Earliest | FromOffset(n: int) | FromTime(cutoff: int)

  ghost function InitialOffsets(s: State, from: StartFrom): Offsets {
    match from
    case Latest => HeadOffsets(s)
    case Earliest => Everywhere(s.partitions, 0)
    case FromOffset(n) => Everywhere(s.partitions, NotNegative(n - 1))
    case FromTime(cutoff) => OffsetsBeforeTimestamp(s, cutoff)
  }

  /** `subscribe`: the group is created when it is new, then gaps in its deliveries are filled. */
  ghost function Subscribe(s: State, group: string, from: StartFrom): State
  {
    EnsureDeliveries(
      if group in s.groups then s else s.(groups := s.groups[group := InitialOffsets(s, from)]), group, false)
  }

  // ---------- The cursor ----------

  predicate Done(deliveries: map<Slot, Delivery>, slot: Slot) {
    slot in deliveries && Terminal(deliveries[slot].status)
  }

  ghost function Ahead(deliveries: map<Slot, Delivery>, c: nat): set<Slot> {
    set slot | slot in deliveries && slot.offset > c
  }

  /** How far the scan of `advanceCursor` gets from `c`. */
  ghost function Scan(deliveries: map<Slot, Delivery>, group: string, p: nat, c: nat): (r: nat)
    ensures r >= c
    ensures forall o :: c < o <= r ==> Done(deliveries, Slot(group, p, o))
    ensures !Done(deliveries, Slot(group, p, r + 1))
    decreases Ahead(deliveries, c)
  {
    if Done(deliveries, Slot(group, p, c + 1)) then
      assert Slot(group, p, c + 1) in Ahead(deliveries, c) - Ahead(deliveries, c + 1);
      Scan(deliveries, group, p, c + 1)
    else c
  }

  ghost function AdvanceCursor(s: State, group: string, p: nat): State {
    if group !in s.groups then s
    else s.(groups := s.groups[group := Set(s.groups[group], p, Scan(s.deliveries, group, p, At(s.groups[group], p)))])
  }

  // ---------- Consuming ----------

  /** `markTerminal` and the other saves of one delivery. */
  function Save(s: State, slot: Slot, d: Delivery): State {
    s.(deliveries := s.deliveries[slot := d])
  }

  /** `processDelivery` up to the call of the handler. */
  ghost function Process(s: State, slot: Slot, passesFilter: bool): State {
    if slot !in s.deliveries || s.deliveries[slot].status.Acked? then s
    else
      var d := s.deliveries[slot];
      if d.messageId !in s.messages then Save(s, slot, d.(status := Discarded))
      else if !passesFilter then AdvanceCursor(Save(s, slot, d.(status := Filtered)), slot.group, slot.partition)
      else Save(s, slot, d.(status := Leased, attempt := d.attempt + 1))
  }

  datatype Outcome = Ack | Discard | Nack

  function OutcomeStatus(attempt: nat, outcome: Outcome, maxAttempts: nat): Status {
    match outcome
    case Ack => Acked
    case Discard => Discarded
    case Nack => if attempt < maxAttempts then Pending else Dead
  }

  /** Save a delivery that is done with, and a dead letter when it failed for good and its message is there. */
  function Close(s: State, slot: Slot, d: Delivery, deadLetters: bool): State {
    var t := Save(s, slot, d);
    if d.status.Dead? && deadLetters && d.messageId in s.messages then t.(dead := t.dead[slot := d.messageId]) else t
  }

  /**
   `settle`, by a consumer that holds its own copy of the delivery. A retry goes back to pending; every
   other outcome is terminal and moves the cursor.
  */
  ghost function Settle(
    s: State, slot: Slot, copy: Delivery, outcome: Outcome, maxAttempts: nat, deadLetters: bool): State
  {
    var d := copy.(status := OutcomeStatus(copy.attempt, outcome, maxAttempts));
    if d.status.Pending? then Save(s, slot, d)
    else AdvanceCursor(Close(s, slot, d, deadLetters), slot.group, slot.partition)
  }

  /** `retryDeadLetter`, for the dead letter found at `slot`. */
  function RetryDeadLetter(s: State, slot: Slot): State {
    if slot !in s.dead || slot !in s.deliveries then s
    else Save(s, slot, s.deliveries[slot].(status := Pending)).(dead := s.dead - {slot})
  }

  /** `reconcile`, for one delivery whose lease has expired or whose retry is due. */
  function Requeue(s: State, slot: Slot): State {
    if slot in s.deliveries && (s.deliveries[slot].status.Leased? || s.deliveries[slot].status.Pending?)
    then Save(s, slot, s.deliveries[slot].(status := Pending))
    else s
  }

  // ---------- Seeking ----------

  datatype SeekTo = SeekLatest | SeekEarliest | SeekOffset(n: int) | SeekTime(cutoff: int) | SeekMessage(id: Id)

  ghost function SeekOffsets(s: State, to: SeekTo, existing: Offsets): Offsets {
    match to
    case SeekLatest => HeadOffsets(s)
    case SeekEarliest => Everywhere(s.partitions, 0)
    case SeekOffset(n) => Everywhere(s.partitions, NotNegative(n - 1))
    case SeekTime(cutoff) => OffsetsBeforeTimestamp(s, cutoff)
    case SeekMessage(id) =>
      if id in s.messages then Set(existing, s.messages[id].partition, NotNegative(s.messages[id].offset - 1))
      else existing
  }

  /** `seek`; an unknown group is an error and changes nothing. */
  ghost function Seek(s: State, group: string, to: SeekTo): State
  {
    if group !in s.groups then s
    else EnsureDeliveries(s.(groups := s.groups[group := SeekOffsets(s, to, s.groups[group])]), group, true)
  }

  // ---------- Runs ----------

  function Empty(partitions: nat, foreignIds: set<Id>): State {
    State(partitions, foreignIds, map[], map[], map[], map[], map[], map[])
  }

  datatype Op =
    | PublishOp(options: PublishOptions, p: nat, now: int, freshId: Id)
    | SubscribeOp(group: string, from: StartFrom)
    | ProcessOp(slot: Slot, passesFilter: bool)
    | SettleOp(slot: Slot, copy: Delivery, outcome: Outcome, maxAttempts: nat, deadLetters: bool)
    | RetryOp(slot: Slot)
    | RequeueOp(slot: Slot)
    | ResumeOp(group: string)
    | SeekOp(group: string, to: SeekTo)
    | ForeignOp(id: Id)

  /**
   Partitions are resolved modulo their number, a consumer settles a delivery that it has read, and
   another topic stores a message only under an id that is not in use.
  */
  predicate Possible(s: State, op: Op) {
    && (op.PublishOp? ==> op.p < s.partitions)
    && (op.SettleOp? ==> op.slot in s.deliveries && s.deliveries[op.slot].messageId == op.copy.messageId)
    && (op.ForeignOp? ==> op.id !in s.messages)
  }

  ghost function Apply(s: State, op: Op): State {
    match op
    case PublishOp(o, p, now, freshId) => Publish(s, o, p, now, freshId).0
    case SubscribeOp(group, from) => Subscribe(s, group, from)
    case ProcessOp(slot, passes) => Process(s, slot, passes)
    case SettleOp(slot, copy, outcome, max, deadLetters) => Settle(s, slot, copy, outcome, max, deadLetters)
    case RetryOp(slot) => RetryDeadLetter(s, slot)
    case RequeueOp(slot) => Requeue(s, slot)
    case ResumeOp(group) => EnsureDeliveries(s, group, false)
    case SeekOp(group, to) => Seek(s, group, to)
    case ForeignOp(id) => s.(foreignIds := s.foreignIds + {id})
  }

  ghost predicate IsRun(run: seq<State>, ops: seq<Op>) {
    && |run| == |ops| + 1
    && forall i {:trigger ops[i]} :: 0 <= i < |ops| ==> Possible(run[i], ops[i]) && run[i + 1] == Apply(run[i], ops[i])
  }
}
