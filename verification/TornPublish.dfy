/**
 A crash inside `publish`. Its writes come one after the other: the offset, the message, the idempotency
 record, and one delivery after another. A message that was stored without some of its deliveries is missing
 for those groups, and the other operations decide when it is covered again.
*/
module TornPublish {
  import opened Topic
  import opened TopicInvariants
  import opened TopicLog
  import opened Wrappers

  /** How far a publish came; `served` are the groups whose deliveries were written or had no need of one. */
  datatype Progress = OffsetTaken | MessageStored | KeyStored(served: set<string>)

  datatype Move =
    | Whole(op: Op)
    | Torn(options: PublishOptions, p: nat, now: int, freshId: Id, progress: Progress)

  function TornId(mv: Move): Id
    requires mv.Torn?
  {
    mv.options.messageId.GetOr(mv.freshId)
  }

  /** The crash comes after the message was stored. */
  predicate Leaves(s: State, mv: Move) {
    mv.Torn? && ExistingId(s, mv.options).None? && !Taken(s, TornId(mv)) && !mv.progress.OffsetTaken?
  }

  function Served(wanted: map<Slot, Delivery>, groups: set<string>): map<Slot, Delivery> {
    map slot | slot in wanted && slot.group in groups :: wanted[slot]
  }

  function WithKey(s: State, o: PublishOptions, id: Id): map<string, Id> {
    if Given(o.idempotencyKey) && o.idempotencyKey.value !in s.idempotency
    then s.idempotency[o.idempotencyKey.value := id] else s.idempotency
  }

  /** The message at its new offset, with what was written of its key and its deliveries. */
  function StoreInPart(s: State, o: PublishOptions, id: Id, m: Message, progress: Progress): State {
    var t := s.(heads := Set(s.heads, m.partition, m.offset), messages := s.messages[id := m]);
    if progress.KeyStored? then
      t.(idempotency := WithKey(s, o, id),
         deliveries := Served(NewDeliveries(s.groups, id, m), progress.served) + s.deliveries)
    else t
  }

  /** The records that a publish leaves when it does not come to its end. */
  function TearPublish(s: State, mv: Move): State
    requires mv.Torn?
  {
    var m := Message(mv.p, At(s.heads, mv.p) + 1, mv.now);
    if ExistingId(s, mv.options).Some? then s
    else if Leaves(s, mv) then StoreInPart(s, mv.options, TornId(mv), m, mv.progress)
    else s.(heads := Set(s.heads, mv.p, m.offset))
  }

  predicate CanMove(s: State, mv: Move) {
    match mv
    case Whole(op) => Possible(s, op)
    case Torn(_, p, _, _, _) => p < s.partitions
  }

  ghost function Moved(s: State, mv: Move): State {
    match mv
    case Whole(op) => Apply(s, op)
    case Torn(_, _, _, _, _) => TearPublish(s, mv)
  }

  ghost predicate Leads(s: State, mv: Move, t: State) {
    CanMove(s, mv) && t == Moved(s, mv)
  }

  ghost predicate LeadsAt(run: seq<State>, moves: seq<Move>, i: int)
    requires 0 <= i < |moves| < |run|
  {
    Leads(run[i], moves[i], run[i + 1])
  }

  /** A run from an empty topic. */
  ghost predicate IsTornRun(run: seq<State>, moves: seq<Move>) {
    && |run| == |moves| + 1
    && run[0] == Empty(run[0].partitions, run[0].foreignIds)
    && forall i :: 0 <= i < |moves| ==> LeadsAt(run, moves, i)
  }

  // ---------- What every move keeps ----------

  ghost predicate Sound(s: State) {
    LogOk(s) && DeliveriesOk(s)
  }

  /** The operation rewrites stored deliveries and moves cursors, and nothing more. */
  predicate Rewriting(op: Op) {
    op.ProcessOp? || op.SettleOp? || op.RetryOp? || op.RequeueOp? || op.ForeignOp?
  }

  ghost predicate SameShape(s: State, t: State) {
    && t.messages == s.messages && t.heads == s.heads && t.partitions == s.partitions
    && t.groups.Keys == s.groups.Keys && t.deliveries.Keys == s.deliveries.Keys
    && forall slot :: slot in s.deliveries ==> t.deliveries[slot].messageId == s.deliveries[slot].messageId
  }

  lemma SaveKeepsShape(s: State, slot: Slot, d: Delivery)
    requires slot in s.deliveries && d.messageId == s.deliveries[slot].messageId
    ensures SameShape(s, Save(s, slot, d))
  {
    assert Save(s, slot, d).deliveries.Keys == s.deliveries.Keys;
  }

  lemma AdvanceKeepsShape(s: State, t: State, group: string, p: nat)
    requires SameShape(s, t)
    ensures SameShape(s, AdvanceCursor(t, group, p))
  {
  }

  lemma SettleKeepsShape(s: State, op: Op)
    requires op.SettleOp? && Possible(s, op)
    ensures SameShape(s, Apply(s, op))
  {
    var d := op.copy.(status := OutcomeStatus(op.copy.attempt, op.outcome, op.maxAttempts));
    SaveKeepsShape(s, op.slot, d);
    var t := Close(s, op.slot, d, op.deadLetters);
    assert t.deliveries == Save(s, op.slot, d).deliveries;
    AdvanceKeepsShape(s, t, op.slot.group, op.slot.partition);
  }

  lemma ProcessKeepsShape(s: State, slot: Slot, passesFilter: bool)
    ensures SameShape(s, Process(s, slot, passesFilter))
  {
    if slot in s.deliveries && !s.deliveries[slot].status.Acked? {
      var d := s.deliveries[slot];
      if d.messageId !in s.messages {
        SaveKeepsShape(s, slot, d.(status := Discarded));
      } else if !passesFilter {
        SaveKeepsShape(s, slot, d.(status := Filtered));
        AdvanceKeepsShape(s, Save(s, slot, d.(status := Filtered)), slot.group, slot.partition);
      } else {
        SaveKeepsShape(s, slot, d.(status := Leased, attempt := d.attempt + 1));
      }
    }
  }

  lemma ReopenKeepsShape(s: State, op: Op)
    requires op.RetryOp? || op.RequeueOp?
    ensures SameShape(s, Apply(s, op))
  {
    if op.slot in s.deliveries {
      SaveKeepsShape(s, op.slot, s.deliveries[op.slot].(status := Pending));
    }
  }

  lemma RewritingKeepsShape(s: State, op: Op)
    requires Rewriting(op) && Possible(s, op)
    ensures SameShape(s, Apply(s, op))
  {
    match op
    case ProcessOp(slot, passes) => ProcessKeepsShape(s, slot, passes);
    case SettleOp(_, _, _, _, _) => SettleKeepsShape(s, op);
    case RetryOp(_) => ReopenKeepsShape(s, op);
    case RequeueOp(_) => ReopenKeepsShape(s, op);
    case _ =>
  }

  lemma LogCarriesOver(s: State, t: State)
    requires LogOk(s) && t.messages == s.messages && t.heads == s.heads && t.partitions == s.partitions
    ensures LogOk(t)
  {
    forall id | id in t.messages
      ensures InLog(t, t.messages[id])
    {
      assert InLog(s, s.messages[id]);
    }
  }

  lemma SameShapeIsSound(s: State, t: State)
    requires Sound(s) && SameShape(s, t)
    ensures Sound(t)
  {
    LogCarriesOver(s, t);
  }

  lemma EnsuredDeliveriesAreOk(u: State, group: string, replay: bool)
    requires LogOk(u) && DeliveriesOk(u) && group in u.groups
    ensures DeliveriesOk(EnsureDeliveries(u, group, replay))
  {
    var t := EnsureDeliveries(u, group, replay);
    forall slot | slot in t.deliveries
      ensures slot.group in t.groups && Sits(t.messages, t.deliveries[slot].messageId, slot)
    {
      BeyondIsExact(u, group, u.groups[group], slot);
    }
  }

  /** A group is placed at the offsets and given the deliveries that are beyond them. */
  lemma PlacedIsSound(s: State, group: string, offsets: Offsets, replay: bool)
    requires Sound(s)
    ensures Sound(EnsureDeliveries(s.(groups := s.groups[group := offsets]), group, replay))
  {
    var u := s.(groups := s.groups[group := offsets]);
    LogCarriesOver(s, u);
    LogCarriesOver(s, EnsureDeliveries(u, group, replay));
    EnsuredDeliveriesAreOk(u, group, replay);
  }

  /** A message at the new head, with deliveries of its own for some groups. */
  ghost predicate Adds(s: State, t: State, id: Id, m: Message) {
    && id !in s.messages && t.messages == s.messages[id := m]
    && m.partition < s.partitions && m.offset == At(s.heads, m.partition) + 1
    && t.heads == Set(s.heads, m.partition, m.offset) && t.partitions == s.partitions && t.groups == s.groups
    && (forall slot :: slot in s.deliveries ==> slot in t.deliveries && t.deliveries[slot] == s.deliveries[slot])
    && (forall slot :: slot in t.deliveries && slot !in s.deliveries ==>
          && slot.group in s.groups && slot.partition == m.partition && slot.offset == m.offset
          && t.deliveries[slot].messageId == id)
  }

  lemma AddsIsSound(s: State, t: State, id: Id, m: Message)
    requires Sound(s) && Adds(s, t, id, m)
    ensures Sound(t)
  {
    forall other | other in t.messages
      ensures InLog(t, t.messages[other])
    {
      assert other != id ==> InLog(s, s.messages[other]);
    }
    forall slot, a, b | Sits(t.messages, a, slot) && Sits(t.messages, b, slot)
      ensures a == b
    {
      assert a != id ==> InLog(s, s.messages[a]) && Sits(s.messages, a, slot);
      assert b != id ==> InLog(s, s.messages[b]) && Sits(s.messages, b, slot);
    }
    forall slot | slot in t.deliveries
      ensures slot.group in t.groups && Sits(t.messages, t.deliveries[slot].messageId, slot)
    {
      if slot in s.deliveries {
        assert Sits(s.messages, s.deliveries[slot].messageId, slot);
      }
    }
  }

  lemma TakenOffsetIsSound(s: State, p: nat)
    requires Sound(s)
    ensures Sound(s.(heads := Set(s.heads, p, At(s.heads, p) + 1)))
  {
    var t := s.(heads := Set(s.heads, p, At(s.heads, p) + 1));
    forall id | id in t.messages
      ensures InLog(t, t.messages[id])
    {
      assert InLog(s, s.messages[id]);
    }
  }

  /** The publish stores its message, whole or torn. */
  predicate StoresMessage(s: State, mv: Move) {
    match mv
    case Whole(op) =>
      op.PublishOp? && ExistingId(s, op.options).None? && !Taken(s, op.options.messageId.GetOr(op.freshId))
    case Torn(_, _, _, _, _) => Leaves(s, mv)
  }

  function NewId(mv: Move): Id
    requires mv.Torn? || mv.op.PublishOp?
  {
    if mv.Torn? then TornId(mv) else mv.op.options.messageId.GetOr(mv.op.freshId)
  }

  function NewMessage(s: State, mv: Move): Message
    requires mv.Torn? || mv.op.PublishOp?
  {
    if mv.Torn? then Message(mv.p, At(s.heads, mv.p) + 1, mv.now)
    else Message(mv.op.p, At(s.heads, mv.op.p) + 1, mv.op.now)
  }

  lemma NewDeliveriesAreNew(groups: map<string, Offsets>, id: Id, m: Message)
    ensures forall slot :: slot in NewDeliveries(groups, id, m) ==>
              && slot.group in groups && slot.partition == m.partition && slot.offset == m.offset
              && NewDeliveries(groups, id, m)[slot].messageId == id
  {
  }

  lemma WholeAdds(s: State, op: Op)
    requires Possible(s, op) && StoresMessage(s, Whole(op))
    ensures Adds(s, Apply(s, op), NewId(Whole(op)), NewMessage(s, Whole(op)))
  {
    NewDeliveriesAreNew(s.groups, NewId(Whole(op)), NewMessage(s, Whole(op)));
  }

  lemma PartAdds(s: State, o: PublishOptions, id: Id, m: Message, progress: Progress)
    requires id !in s.messages && m.partition < s.partitions && m.offset == At(s.heads, m.partition) + 1
    ensures Adds(s, StoreInPart(s, o, id, m, progress), id, m)
  {
    NewDeliveriesAreNew(s.groups, id, m);
  }

  lemma TornAdds(s: State, mv: Move)
    requires mv.Torn? && CanMove(s, mv) && Leaves(s, mv)
    ensures Adds(s, TearPublish(s, mv), NewId(mv), NewMessage(s, mv))
  {
    PartAdds(s, mv.options, NewId(mv), NewMessage(s, mv), mv.progress);
  }

  lemma StoringAdds(s: State, mv: Move)
    requires CanMove(s, mv) && StoresMessage(s, mv)
    ensures Adds(s, Moved(s, mv), NewId(mv), NewMessage(s, mv))
  {
    match mv
    case Whole(op) => WholeAdds(s, op);
    case Torn(_, _, _, _, _) => TornAdds(s, mv);
  }

  lemma MoveIsSound(s: State, mv: Move)
    requires Sound(s) && CanMove(s, mv)
    ensures Sound(Moved(s, mv))
  {
    if StoresMessage(s, mv) {
      StoringAdds(s, mv);
      AddsIsSound(s, Moved(s, mv), NewId(mv), NewMessage(s, mv));
    } else if mv.Torn? {
      TakenOffsetIsSound(s, mv.p);
    } else {
      OpIsSound(s, mv.op);
    }
  }

  lemma OpIsSound(s: State, op: Op)
    requires Sound(s) && Possible(s, op) && !StoresMessage(s, Whole(op))
    ensures Sound(Apply(s, op))
  {
    if Rewriting(op) {
      RewritingKeepsShape(s, op);
      SameShapeIsSound(s, Apply(s, op));
    } else {
      match op
      case PublishOp(_, p, _, _) => TakenOffsetIsSound(s, p);
      case SubscribeOp(g, from) =>
        if g in s.groups {
          EnsureIsPlaced(s, g, false);
          PlacedIsSound(s, g, s.groups[g], false);
        } else {
          PlacedIsSound(s, g, InitialOffsets(s, from), false);
        }
      case ResumeOp(g) =>
        if g in s.groups {
          EnsureIsPlaced(s, g, false);
          PlacedIsSound(s, g, s.groups[g], false);
        }
      case SeekOp(g, to) =>
        if g in s.groups {
          PlacedIsSound(s, g, SeekOffsets(s, to, s.groups[g]), true);
        }
      case _ =>
    }
  }

  lemma EnsureIsPlaced(s: State, g: string, replay: bool)
    requires g in s.groups
    ensures EnsureDeliveries(s, g, replay)
            == EnsureDeliveries(s.(groups := s.groups[g := s.groups[g]]), g, replay)
  {
    assert s.groups[g := s.groups[g]] == s.groups;
  }

  lemma LeadsKeepsSound(s: State, mv: Move, t: State)
    requires Leads(s, mv, t)
    ensures Sound(s) ==> Sound(t)
  {
    if Sound(s) {
      MoveIsSound(s, mv);
    }
  }

  lemma {:induction false} RunIsSound(run: seq<State>, moves: seq<Move>, n: nat)
    requires IsTornRun(run, moves) && n <= |moves|
    ensures Sound(run[n])
  {
    if n > 0 {
      RunIsSound(run, moves, n - 1);
      assert LeadsAt(run, moves, n - 1);
      LeadsKeepsSound(run[n - 1], moves[n - 1], run[n]);
    }
  }

  // ---------- When a missing delivery is written ----------

  /** The offsets from which the operation fills the group's deliveries, if it does. */
  ghost function FillsFrom(s: State, op: Op, g: string): Option<Offsets> {
    match op
    case SubscribeOp(h, from) =>
      if h != g then None else if g in s.groups then Some(s.groups[g]) else Some(InitialOffsets(s, from))
    case ResumeOp(h) => if h == g && g in s.groups then Some(s.groups[g]) else None
    case SeekOp(h, to) => if h == g && g in s.groups then Some(SeekOffsets(s, to, s.groups[g])) else None
    case _ => None
  }

  /** The move is a subscribe, a resume or a seek of the group, from before the slot. */
  ghost predicate Covers(s: State, mv: Move, slot: Slot) {
    && mv.Whole?
    && FillsFrom(s, mv.op, slot.group).Some?
    && slot.offset > At(FillsFrom(s, mv.op, slot.group).value, slot.partition)
  }

  /** The message has no delivery for the slot's group. */
  ghost predicate Missing(s: State, slot: Slot, id: Id) {
    Sits(s.messages, id, slot) && slot !in s.deliveries
  }

  lemma PlacedFills(s: State, g: string, offsets: Offsets, replay: bool, slot: Slot)
    requires LogOk(s) && g in s.groups && s.groups[g] == offsets && slot !in s.deliveries
    ensures slot in EnsureDeliveries(s, g, replay).deliveries <==>
              slot.group == g && slot.offset > At(offsets, slot.partition) && exists id :: Sits(s.messages, id, slot)
  {
    BeyondIsExact(s, g, offsets, slot);
  }

  predicate Fills(op: Op) {
    op.SubscribeOp? || op.ResumeOp? || op.SeekOp?
  }

  /** The operation places its group at those offsets and fills it; without them it changes nothing. */
  lemma FillPlaces(s: State, op: Op)
    requires Fills(op)
    ensures var from := FillsFrom(s, op, op.group);
            Apply(s, op) ==
            if from.Some? then EnsureDeliveries(s.(groups := s.groups[op.group := from.value]), op.group, op.SeekOp?)
            else s
  {
    if op.group in s.groups && !op.SeekOp? {
      EnsureIsPlaced(s, op.group, false);
    }
  }

  lemma MissingAtFill(s: State, op: Op, slot: Slot, id: Id)
    requires LogOk(s) && Missing(s, slot, id) && Fills(op)
    ensures slot in Apply(s, op).deliveries <==> Covers(s, Whole(op), slot)
  {
    var from := FillsFrom(s, op, op.group);
    FillPlaces(s, op);
    if from.Some? {
      var u := s.(groups := s.groups[op.group := from.value]);
      LogCarriesOver(s, u);
      PlacedFills(u, op.group, from.value, op.SeekOp?, slot);
    }
  }

  /** A move writes the missing delivery if and only if it fills the group from before it. */
  lemma MissingIsCoveredIff(s: State, mv: Move, slot: Slot, id: Id)
    requires Sound(s) && CanMove(s, mv) && Missing(s, slot, id)
    ensures slot in Moved(s, mv).deliveries <==> Covers(s, mv, slot)
    ensures Sits(Moved(s, mv).messages, id, slot)
  {
    assert InLog(s, s.messages[id]);
    if StoresMessage(s, mv) {
      StoringAdds(s, mv);
    } else if mv.Whole? {
      if Rewriting(mv.op) {
        RewritingKeepsShape(s, mv.op);
      } else if !mv.op.PublishOp? {
        MissingAtFill(s, mv.op, slot, id);
        OnlyPublishWritesLog(s, mv.op);
      }
    }
  }

  lemma OpKeepsDelivery(s: State, op: Op, slot: Slot)
    requires Possible(s, op) && slot in s.deliveries && !op.PublishOp?
    ensures slot in Apply(s, op).deliveries
  {
    if Rewriting(op) {
      RewritingKeepsShape(s, op);
    } else {
      FillPlaces(s, op);
    }
  }

  /** Deliveries are never removed. */
  lemma DeliveryStays(s: State, mv: Move, slot: Slot)
    requires CanMove(s, mv) && slot in s.deliveries
    ensures slot in Moved(s, mv).deliveries
  {
    if StoresMessage(s, mv) {
      StoringAdds(s, mv);
    } else if mv.Whole? && !mv.op.PublishOp? {
      OpKeepsDelivery(s, mv.op, slot);
    }
  }

  lemma SitsStays(s: State, mv: Move, slot: Slot, id: Id)
    requires CanMove(s, mv) && Sits(s.messages, id, slot)
    ensures Sits(Moved(s, mv).messages, id, slot)
  {
    if StoresMessage(s, mv) {
      StoringAdds(s, mv);
    } else if mv.Whole? && !mv.op.PublishOp? {
      OnlyPublishWritesLog(s, mv.op);
    }
  }

  /** A subscribe, a resume or a seek of the slot's group, from before the slot, lies between the two moments. */
  ghost predicate CoveredBetween(run: seq<State>, moves: seq<Move>, i: nat, n: nat, slot: Slot)
    requires n <= |moves| < |run|
  {
    exists k :: i <= k < n && Covers(run[k], moves[k], slot)
  }

  lemma CoveredBetweenNext(run: seq<State>, moves: seq<Move>, i: nat, n: nat, slot: Slot)
    requires i <= n < |moves| < |run|
    ensures CoveredBetween(run, moves, i, n + 1, slot) <==>
              CoveredBetween(run, moves, i, n, slot) || Covers(run[n], moves[n], slot)
  {
  }

  lemma CoveredNextIff(s: State, mv: Move, t: State, slot: Slot, id: Id)
    requires Sound(s) && CanMove(s, mv) && t == Moved(s, mv) && Sits(s.messages, id, slot)
    ensures slot in t.deliveries <==> slot in s.deliveries || Covers(s, mv, slot)
    ensures Sits(t.messages, id, slot)
  {
    if slot in s.deliveries {
      DeliveryStays(s, mv, slot);
      SitsStays(s, mv, slot, id);
    } else {
      MissingIsCoveredIff(s, mv, slot, id);
    }
  }

  lemma LastMove(run: seq<State>, moves: seq<Move>, n: nat)
    requires IsTornRun(run, moves) && 0 < n <= |moves|
    ensures Sound(run[n - 1]) && CanMove(run[n - 1], moves[n - 1]) && run[n] == Moved(run[n - 1], moves[n - 1])
  {
    RunIsSound(run, moves, n - 1);
    assert LeadsAt(run, moves, n - 1);
  }

  /** What a move means for the delivery at the slot. */
  ghost predicate CoversAt(run: seq<State>, moves: seq<Move>, k: nat, slot: Slot)
    requires k < |moves| < |run|
  {
    slot in run[k + 1].deliveries <==> slot in run[k].deliveries || Covers(run[k], moves[k], slot)
  }

  lemma {:induction false} CoversChain(run: seq<State>, moves: seq<Move>, i: nat, n: nat, slot: Slot)
    requires i <= n <= |moves| < |run| && slot !in run[i].deliveries
    requires forall k :: i <= k < n ==> CoversAt(run, moves, k, slot)
    ensures slot in run[n].deliveries <==> CoveredBetween(run, moves, i, n, slot)
    decreases n
  {
    if i < n {
      CoversChain(run, moves, i, n - 1, slot);
      assert CoversAt(run, moves, n - 1, slot);
      CoveredBetweenNext(run, moves, i, n - 1, slot);
    }
  }

  lemma {:induction false} SitsForever(run: seq<State>, moves: seq<Move>, i: nat, n: nat, slot: Slot, id: Id)
    requires IsTornRun(run, moves) && i <= n <= |moves| && Sits(run[i].messages, id, slot)
    ensures Sits(run[n].messages, id, slot)
    decreases n
  {
    if i < n {
      SitsForever(run, moves, i, n - 1, slot, id);
      LastMove(run, moves, n);
      SitsStays(run[n - 1], moves[n - 1], slot, id);
    }
  }

  lemma MoveCovers(run: seq<State>, moves: seq<Move>, i: nat, k: nat, slot: Slot, id: Id)
    requires IsTornRun(run, moves) && i <= k < |moves| && Sits(run[i].messages, id, slot)
    ensures CoversAt(run, moves, k, slot)
  {
    SitsForever(run, moves, i, k, slot, id);
    LastMove(run, moves, k + 1);
    CoveredNextIff(run[k], moves[k], run[k + 1], slot, id);
  }

  /**
   A missing delivery is there at a later moment of the run if and only if a subscribe, a resume or a seek of
   its group, from before it, lies in between.
  */
  lemma CoveredAgainIff(run: seq<State>, moves: seq<Move>, i: nat, n: nat, slot: Slot, id: Id)
    requires IsTornRun(run, moves) && i <= n <= |moves| && Missing(run[i], slot, id)
    ensures slot in run[n].deliveries <==> CoveredBetween(run, moves, i, n, slot)
  {
    forall k | i <= k < n
      ensures CoversAt(run, moves, k, slot)
    {
      MoveCovers(run, moves, i, k, slot, id);
    }
    CoversChain(run, moves, i, n, slot);
  }

  // ---------- Where missing deliveries come from ----------

  /** The move is a publish that stored the message of the slot and never came to the delivery. */
  predicate Tears(s: State, mv: Move, slot: Slot, id: Id) {
    && mv.Torn? && Leaves(s, mv) && id == TornId(mv)
    && slot.partition == mv.p && slot.offset == At(s.heads, mv.p) + 1
    && (mv.progress.KeyStored? ==> slot.group !in mv.progress.served)
  }

  lemma HeadIsFree(s: State, slot: Slot)
    requires Sound(s) && slot.offset > At(s.heads, slot.partition)
    ensures slot !in s.deliveries
  {
    assert slot in s.deliveries ==> InLog(s, s.messages[s.deliveries[slot].messageId]);
  }

  lemma PartMisses(s: State, o: PublishOptions, id: Id, m: Message, progress: Progress, slot: Slot)
    requires slot !in s.deliveries && (progress.KeyStored? ==> slot.group !in progress.served)
    ensures slot !in StoreInPart(s, o, id, m, progress).deliveries
  {
  }

  lemma TearMisses(s: State, mv: Move, slot: Slot, id: Id)
    requires Sound(s) && CanMove(s, mv) && Tears(s, mv, slot, id)
    ensures Missing(Moved(s, mv), slot, id)
  {
    HeadIsFree(s, slot);
    TornAdds(s, mv);
    PartMisses(s, mv.options, id, NewMessage(s, mv), mv.progress, slot);
  }

  lemma OnlyNewSits(s: State, t: State, new_: Id, m: Message, slot: Slot, id: Id)
    requires Adds(s, t, new_, m) && !Sits(s.messages, id, slot) && Sits(t.messages, id, slot)
    ensures id == new_ && slot.partition == m.partition && slot.offset == m.offset
  {
  }

  lemma AwaitedIsWanted(s: State, slot: Slot, id: Id, m: Message)
    requires Awaits(s, slot) && slot.partition == m.partition && slot.offset == m.offset
    ensures slot in NewDeliveries(s.groups, id, m)
  {
    assert slot == Slot(slot.group, m.partition, m.offset);
  }

  lemma WholeCovers(s: State, op: Op, slot: Slot)
    requires StoresMessage(s, Whole(op))
    requires slot in NewDeliveries(s.groups, NewId(Whole(op)), NewMessage(s, Whole(op)))
    ensures slot in Apply(s, op).deliveries
  {
  }

  lemma TornCovers(s: State, mv: Move, slot: Slot)
    requires mv.Torn? && Leaves(s, mv) && mv.progress.KeyStored? && slot.group in mv.progress.served
    requires slot in NewDeliveries(s.groups, NewId(mv), NewMessage(s, mv))
    ensures slot in TearPublish(s, mv).deliveries
  {
  }

  /** A stored message gets all the deliveries it needs, unless its publish was torn. */
  lemma NewMessageIsCovered(s: State, mv: Move, slot: Slot, id: Id)
    requires Sound(s) && CanMove(s, mv) && StoresMessage(s, mv)
    requires !Sits(s.messages, id, slot) && Sits(Moved(s, mv).messages, id, slot) && Awaits(Moved(s, mv), slot)
    ensures slot in Moved(s, mv).deliveries || Tears(s, mv, slot, id)
  {
    StoringAdds(s, mv);
    OnlyNewSits(s, Moved(s, mv), NewId(mv), NewMessage(s, mv), slot, id);
    AwaitedIsWanted(s, slot, id, NewMessage(s, mv));
    if mv.Whole? {
      WholeCovers(s, mv.op, slot);
    } else if !Tears(s, mv, slot, id) {
      TornCovers(s, mv, slot);
    }
  }

  /** A slot that comes to lie beyond its group's cursor is filled by the move that put the cursor there. */
  lemma NewlyAwaitedIsCovered(s: State, mv: Move, slot: Slot, id: Id)
    requires Sound(s) && CanMove(s, mv) && Missing(s, slot, id)
    requires !Awaits(s, slot) && Awaits(Moved(s, mv), slot)
    ensures slot in Moved(s, mv).deliveries
  {
    MissingIsCoveredIff(s, mv, slot, id);
    if StoresMessage(s, mv) {
      StoringAdds(s, mv);
    } else if mv.Whole? {
      if slot.group in s.groups {
        if !Seeks(mv.op, slot.group) {
          StepCrosses(s, mv.op, slot.group, slot.partition);
        }
      } else {
        OnlySubscribeCreates(s, mv.op, slot.group);
      }
    }
  }

  ghost predicate TornAt(run: seq<State>, moves: seq<Move>, i: nat, n: nat, slot: Slot, id: Id)
    requires n <= |moves| < |run|
  {
    i < n && Tears(run[i], moves[i], slot, id) && !CoveredBetween(run, moves, i + 1, n, slot)
  }

  lemma TearLeadsToMissing(s: State, mv: Move, t: State, slot: Slot, id: Id)
    requires Leads(s, mv, t) && Tears(s, mv, slot, id)
    ensures Sound(s) ==> Missing(t, slot, id)
  {
    if Sound(s) {
      TearMisses(s, mv, slot, id);
    }
  }

  lemma MissingOnceTorn(run: seq<State>, moves: seq<Move>, i: nat, slot: Slot, id: Id)
    requires IsTornRun(run, moves) && i < |moves|
    ensures Tears(run[i], moves[i], slot, id) ==> Missing(run[i + 1], slot, id)
  {
    RunIsSound(run, moves, i);
    assert LeadsAt(run, moves, i);
    if Tears(run[i], moves[i], slot, id) {
      TearLeadsToMissing(run[i], moves[i], run[i + 1], slot, id);
    }
  }

  lemma TornStaysMissing(run: seq<State>, moves: seq<Move>, i: nat, n: nat, slot: Slot, id: Id)
    requires IsTornRun(run, moves) && n <= |moves| && TornAt(run, moves, i, n, slot, id)
    ensures slot !in run[n].deliveries
  {
    MissingOnceTorn(run, moves, i, slot, id);
    UncoveredStaysMissing(run, moves, i + 1, n, slot, id);
  }

  lemma UncoveredStaysMissing(run: seq<State>, moves: seq<Move>, i: nat, n: nat, slot: Slot, id: Id)
    requires IsTornRun(run, moves) && i <= n <= |moves|
    ensures Missing(run[i], slot, id) && !CoveredBetween(run, moves, i, n, slot) ==> slot !in run[n].deliveries
  {
    if Missing(run[i], slot, id) {
      CoveredAgainIff(run, moves, i, n, slot, id);
    }
  }

  /** The last move either tore the publish, or found the delivery missing and left it so. */
  lemma MissingBefore(s: State, mv: Move, t: State, slot: Slot, id: Id)
    requires Sound(s) && CanMove(s, mv) && t == Moved(s, mv) && Missing(t, slot, id) && Awaits(t, slot)
    ensures Tears(s, mv, slot, id) || (Missing(s, slot, id) && Awaits(s, slot) && !Covers(s, mv, slot))
  {
    if Sits(s.messages, id, slot) {
      CoveredNextIff(s, mv, t, slot, id);
      if !Awaits(s, slot) {
        NewlyAwaitedIsCovered(s, mv, slot, id);
      }
    } else {
      OnlyStoringAdds(s, mv, slot, id);
      NewMessageIsCovered(s, mv, slot, id);
    }
  }

  lemma OnlyStoringAdds(s: State, mv: Move, slot: Slot, id: Id)
    requires CanMove(s, mv) && !Sits(s.messages, id, slot) && Sits(Moved(s, mv).messages, id, slot)
    ensures StoresMessage(s, mv)
  {
    if mv.Whole? && !mv.op.PublishOp? {
      OnlyPublishWritesLog(s, mv.op);
    }
  }

  lemma TornAtNext(run: seq<State>, moves: seq<Move>, i: nat, n: nat, slot: Slot, id: Id)
    requires n < |moves| < |run| && TornAt(run, moves, i, n, slot, id) && !Covers(run[n], moves[n], slot)
    ensures TornAt(run, moves, i, n + 1, slot, id)
  {
    CoveredBetweenNext(run, moves, i + 1, n, slot);
  }

  lemma TornNow(run: seq<State>, moves: seq<Move>, n: nat, slot: Slot, id: Id)
    requires n < |moves| < |run| && Tears(run[n], moves[n], slot, id)
    ensures TornAt(run, moves, n, n + 1, slot, id)
  {
  }

  lemma MissingAtLastMove(run: seq<State>, moves: seq<Move>, n: nat, slot: Slot, id: Id)
    requires IsTornRun(run, moves) && 0 < n <= |moves|
    requires Missing(run[n], slot, id) && Awaits(run[n], slot)
    ensures
      || Tears(run[n - 1], moves[n - 1], slot, id)
      || (Missing(run[n - 1], slot, id) && Awaits(run[n - 1], slot) && !Covers(run[n - 1], moves[n - 1], slot))
  {
    LastMove(run, moves, n);
    MissingBefore(run[n - 1], moves[n - 1], run[n], slot, id);
  }

  lemma {:induction false} MissingWasTorn(run: seq<State>, moves: seq<Move>, n: nat, slot: Slot, id: Id)
    returns (i: nat)
    requires IsTornRun(run, moves) && n <= |moves|
    requires Missing(run[n], slot, id) && Awaits(run[n], slot)
    ensures TornAt(run, moves, i, n, slot, id)
  {
    i := 0;
    if n > 0 {
      MissingAtLastMove(run, moves, n, slot, id);
      if Tears(run[n - 1], moves[n - 1], slot, id) {
        i := n - 1;
        TornNow(run, moves, i, slot, id);
      } else {
        i := MissingWasTorn(run, moves, n - 1, slot, id);
        TornAtNext(run, moves, i, n - 1, slot, id);
      }
    }
  }

  /**
   In every run with crashes, a stored message beyond a group's cursor lacks its delivery if and only if its
   publish was torn before that delivery, and no subscribe, resume or seek of the group from before it came
   after. A delivery that is there names the message.
  */
  lemma MissingIff(run: seq<State>, moves: seq<Move>, n: nat, slot: Slot, id: Id)
    requires IsTornRun(run, moves) && n <= |moves|
    requires Sits(run[n].messages, id, slot) && Awaits(run[n], slot)
    ensures slot !in run[n].deliveries <==> exists i :: TornAt(run, moves, i, n, slot, id)
    ensures slot in run[n].deliveries ==> run[n].deliveries[slot].messageId == id
  {
    RunIsSound(run, moves, n);
    if slot in run[n].deliveries {
      SameSlotSameMessage(run[n], slot, id, run[n].deliveries[slot].messageId);
    } else {
      var i := MissingWasTorn(run, moves, n, slot, id);
    }
    if i: nat :| TornAt(run, moves, i, n, slot, id) {
      TornStaysMissing(run, moves, i, n, slot, id);
    }
  }

  // ---------- What a missing delivery holds up ----------

  lemma TearKeepsGroups(s: State, mv: Move)
    requires mv.Torn? && CanMove(s, mv)
    ensures TearPublish(s, mv).groups == s.groups
  {
    if Leaves(s, mv) {
      TornAdds(s, mv);
    }
  }

  lemma MissingStaysAwaited(s: State, mv: Move, slot: Slot)
    requires CanMove(s, mv) && Awaits(s, slot) && slot !in Moved(s, mv).deliveries
    requires mv.Whole? ==> !Seeks(mv.op, slot.group)
    ensures Awaits(Moved(s, mv), slot)
  {
    if mv.Whole? {
      StepCrosses(s, mv.op, slot.group, slot.partition);
      assert slot == Slot(slot.group, slot.partition, slot.offset);
    } else {
      TearKeepsGroups(s, mv);
    }
  }

  /** As long as the delivery is missing and its group is not sought, the cursor stays before it. */
  lemma {:induction false} MissingStopsCursor(run: seq<State>, moves: seq<Move>, i: nat, n: nat, slot: Slot)
    requires IsTornRun(run, moves) && i <= n <= |moves| && Awaits(run[i], slot) && slot !in run[n].deliveries
    requires forall k :: i <= k < n && moves[k].Whole? ==> !Seeks(moves[k].op, slot.group)
    ensures Awaits(run[n], slot)
    decreases n
  {
    if i < n {
      assert LeadsAt(run, moves, n - 1);
      if slot in run[n - 1].deliveries {
        DeliveryStays(run[n - 1], moves[n - 1], slot);
      }
      MissingStopsCursor(run, moves, i, n - 1, slot);
      MissingStaysAwaited(run[n - 1], moves[n - 1], slot);
    }
  }

  // ---------- Publishing again ----------

  /** The stored message is found again by what the caller publishes. */
  predicate FoundAgain(s: State, mv: Move)
    requires mv.Torn?
  {
    || Given(mv.options.messageId)
    || (mv.progress.KeyStored? && Given(mv.options.idempotencyKey)
        && mv.options.idempotencyKey.value !in s.idempotency && TornId(mv) != "")
  }

  lemma ExistingAfterTear(s: State, mv: Move)
    requires mv.Torn? && Leaves(s, mv)
    ensures ExistingId(TearPublish(s, mv), mv.options) == if FoundAgain(s, mv) then Some(TornId(mv)) else None
  {
  }

  lemma PublishTakesOffset(t: State, o: PublishOptions, p: nat, now: int, freshId: Id)
    requires ExistingId(t, o).None?
    ensures At(Publish(t, o, p, now, freshId).0.heads, p) == At(t.heads, p) + 1
  {
  }

  /**
   After the crash the same publish answers with the stored message and changes nothing, so that it adds no
   delivery, if and only if it names an id or its key was recorded; otherwise it takes another offset.
  */
  lemma RepublishIsIdleIff(s: State, mv: Move, now: int, freshId: Id)
    requires mv.Torn? && Leaves(s, mv)
    ensures Publish(TearPublish(s, mv), mv.options, mv.p, now, freshId) == (TearPublish(s, mv), TornId(mv)) <==>
              FoundAgain(s, mv)
    ensures !FoundAgain(s, mv) ==>
              var t := TearPublish(s, mv);
              At(Publish(t, mv.options, mv.p, now, freshId).0.heads, mv.p) == At(t.heads, mv.p) + 1
  {
    ExistingAfterTear(s, mv);
    var t := TearPublish(s, mv);
    if !FoundAgain(s, mv) {
      PublishTakesOffset(t, mv.options, mv.p, now, freshId);
    }
  }
}
