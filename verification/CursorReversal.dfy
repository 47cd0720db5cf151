/**
 When the interleaving of calls on one group record can move a cursor back, or past a delivery that nobody
 has settled: exact conditions on a state, and runs that reach such states.
*/
module CursorReversal {
  import opened CursorInterleaving
  import opened Topic
  import opened Wrappers

  // ---------- When a cursor can move back ----------

  /** The call holds an offset behind the stored one. */
  predicate Behind(s: System, k: nat, g: string, p: nat) {
    g in s.groups && Holds(s, k, g) && HeldAt(PcOf(s, k), p) < At(s.groups[g], p)
  }

  /** The record and all that calls hold of it are at `c` or further. */
  ghost predicate AtLeast(s: System, g: string, p: nat, c: nat) {
    && g in s.groups
    && At(s.groups[g], p) >= c
    && forall k :: Holds(s, k, g) ==> HeldAt(PcOf(s, k), p) >= c
  }

  lemma StepKeepsAtLeast(s: System, e: Event, t: System, g: string, p: nat, c: nat)
    requires Leads(s, e, t) && AtLeast(s, g, p, c) && !SeeksAt(e, g, p)
    ensures AtLeast(t, g, p, c)
  {
    if e.WriteBack? {
      assert Holds(s, e.k, g) ==> HeldAt(PcOf(s, e.k), p) >= c;
    }
    forall k | Holds(t, k, g)
      ensures HeldAt(PcOf(t, k), p) >= c
    {
      MoverHolds(s, e, t, k, g, p);
    }
  }

  lemma {:induction false} PathKeepsAtLeast(path: seq<System>, events: seq<Event>, n: nat, g: string, p: nat, c: nat)
    requires IsPath(path, events) && n <= |events| && NoSeek(events, 0, n, g, p) && AtLeast(path[0], g, p, c)
    ensures AtLeast(path[n], g, p, c)
  {
    if n > 0 {
      PathKeepsAtLeast(path, events, n - 1, g, p, c);
      assert Leads(path[n - 1], events[n - 1], path[n]);
      StepKeepsAtLeast(path[n - 1], events[n - 1], path[n], g, p, c);
    }
  }

  lemma Extend(path: seq<System>, events: seq<Event>, e: Event)
    requires IsPath(path, events) && Enabled(path[|events|], e)
    ensures IsPath(path + [Step(path[|events|], e)], events + [e])
  {
  }

  /**
   The call goes on to save what it holds. When it is scanning, the delivery it would look at next is
   opened first, as a retry does.
  */
  lemma SaveWhatItHolds(s: System, k: nat, g: string) returns (path: seq<System>, events: seq<Event>)
    requires Holds(s, k, g)
    ensures IsPath(path, events) && path[0] == s && forall e :: e in events ==> !e.BeginSeek?
    ensures g in path[|events|].groups
    ensures forall p :: At(path[|events|].groups[g], p) == HeldAt(PcOf(s, k), p)
    ensures forall slot, i :: 0 <= i < |path| && !Done(s.deliveries, slot) ==> !Done(path[i].deliveries, slot)
  {
    var pc := PcOf(s, k);
    if pc.Saving? {
      Extend([s], [], WriteBack(k));
      path, events := [s] + [Step(s, WriteBack(k))], [] + [WriteBack(k)];
    } else {
      var opening := SaveDelivery(Slot(g, pc.p, pc.current + 1), Delivery("", Pending, 0));
      Extend([s], [], opening);
      var t := Step(s, opening);
      Extend([s] + [t], [] + [opening], ScanNext(k));
      var u := Step(t, ScanNext(k));
      assert PcOf(t, k) == pc && PcOf(u, k) == Saving(g, Set(pc.snapshot, pc.p, pc.current));
      Extend([s] + [t] + [u], [] + [opening] + [ScanNext(k)], WriteBack(k));
      path := [s] + [t] + [u] + [Step(u, WriteBack(k))];
      events := [] + [opening] + [ScanNext(k)] + [WriteBack(k)];
    }
  }

  /** The path leads from `s`, without a seek of the partition, to a cursor below the present one. */
  ghost predicate MovesBack(s: System, g: string, p: nat, path: seq<System>, events: seq<Event>)
    requires g in s.groups
  {
    && IsPath(path, events) && path[0] == s && NoSeek(events, 0, |events|, g, p)
    && g in path[|events|].groups && At(path[|events|].groups[g], p) < At(s.groups[g], p)
  }

  lemma MovingBackNeedsBehind(s: System, g: string, p: nat, path: seq<System>, events: seq<Event>)
    requires g in s.groups && MovesBack(s, g, p, path, events)
    ensures exists k :: Behind(s, k, g, p)
  {
    var c := At(s.groups[g], p);
    assert !AtLeast(s, g, p, c) by {
      if AtLeast(s, g, p, c) {
        PathKeepsAtLeast(path, events, |events|, g, p, c);
      }
    }
    var k :| Holds(s, k, g) && HeldAt(PcOf(s, k), p) < c;
    assert Behind(s, k, g, p);
  }

  /**
   In any state, some continuation without a further seek, in which deliveries may be opened again, puts
   the cursor below its present value, if and only if some call holds the group with an offset behind it.
   After a seek this says when the seek sticks.
  */
  lemma CursorMovesBackIff(s: System, g: string, p: nat)
    requires g in s.groups
    ensures (exists path, events :: MovesBack(s, g, p, path, events)) <==> exists k :: Behind(s, k, g, p)
  {
    if path: seq<System>, events: seq<Event> :| MovesBack(s, g, p, path, events) {
      MovingBackNeedsBehind(s, g, p, path, events);
    }
    if k :| Behind(s, k, g, p) {
      var path, events := SaveWhatItHolds(s, k, g);
      assert MovesBack(s, g, p, path, events);
    }
  }

  // ---------- Without reopening a delivery ----------

  /** The offset that the call would save for the partition when no delivery changed any more. */
  ghost function LandsAt(s: System, k: nat, p: nat): nat {
    match PcOf(s, k)
    case Idle => 0
    case Scanning(g, q, snapshot, current) => if p == q then Scan(s.deliveries, g, p, current) else At(snapshot, p)
    case Saving(_, offsets) => At(offsets, p)
  }

  /** What is terminal in the partition stays so. */
  predicate KeepsClosed(s: System, e: Event, g: string, p: nat) {
    && (e.SaveDelivery? && e.slot.group == g && e.slot.partition == p && Done(s.deliveries, e.slot) ==>
          Terminal(e.d.status))
    && (e.DropDelivery? && e.slot.group == g && e.slot.partition == p ==> !Done(s.deliveries, e.slot))
  }

  ghost predicate StaysClosed(path: seq<System>, events: seq<Event>, g: string, p: nat)
    requires |path| == |events| + 1
  {
    forall i {:trigger events[i]} :: 0 <= i < |events| ==> KeepsClosed(path[i], events[i], g, p)
  }

  /** The more is terminal, the further a scan gets. */
  lemma ScanGrows(before: map<Slot, Delivery>, after: map<Slot, Delivery>, g: string, p: nat, c: nat)
    requires forall o :: Done(before, Slot(g, p, o)) ==> Done(after, Slot(g, p, o))
    ensures Scan(before, g, p, c) <= Scan(after, g, p, c)
  {
    var stop := Scan(after, g, p, c) + 1;
    assert !Done(before, Slot(g, p, stop));
  }

  /** The record, and what all calls will save of it, is at `c` or further. */
  ghost predicate LandsAtLeast(s: System, g: string, p: nat, c: nat) {
    && g in s.groups
    && At(s.groups[g], p) >= c
    && forall k :: Holds(s, k, g) ==> LandsAt(s, k, p) >= c
  }

  lemma HolderHeldOrBegan(s: System, e: Event, t: System, k: nat, g: string)
    requires Leads(s, e, t) && Holds(t, k, g)
    ensures Holds(s, k, g) || ((e.BeginAdvance? || e.BeginStatusChange? || e.BeginSeek?) && e.group == g && e.k == k)
  {
  }

  lemma LandingStays(s: System, e: Event, t: System, k: nat, g: string, p: nat, c: nat)
    requires Leads(s, e, t) && LandsAtLeast(s, g, p, c) && !SeeksAt(e, g, p) && KeepsClosed(s, e, g, p)
    requires Holds(t, k, g)
    ensures LandsAt(t, k, p) >= c
  {
    HolderHeldOrBegan(s, e, t, k, g);
    if Holds(s, k, g) {
      var pc := PcOf(s, k);
      if pc.Scanning? && pc.p == p {
        forall o | Done(s.deliveries, Slot(g, p, o))
          ensures Done(t.deliveries, Slot(g, p, o))
        {
        }
        ScanGrows(s.deliveries, t.deliveries, g, p, pc.current);
      }
    }
  }

  lemma StepKeepsLanding(s: System, e: Event, t: System, g: string, p: nat, c: nat)
    requires Leads(s, e, t) && LandsAtLeast(s, g, p, c) && !SeeksAt(e, g, p) && KeepsClosed(s, e, g, p)
    ensures LandsAtLeast(t, g, p, c)
  {
    if e.WriteBack? {
      assert Holds(s, e.k, g) ==> LandsAt(s, e.k, p) >= c;
    }
    forall k | Holds(t, k, g)
      ensures LandsAt(t, k, p) >= c
    {
      LandingStays(s, e, t, k, g, p, c);
    }
  }

  lemma {:induction false} PathKeepsLanding(path: seq<System>, events: seq<Event>, n: nat, g: string, p: nat, c: nat)
    requires IsPath(path, events) && n <= |events| && NoSeek(events, 0, n, g, p) && StaysClosed(path, events, g, p)
    requires LandsAtLeast(path[0], g, p, c)
    ensures LandsAtLeast(path[n], g, p, c)
  {
    if n > 0 {
      PathKeepsLanding(path, events, n - 1, g, p, c);
      assert Leads(path[n - 1], events[n - 1], path[n]) && KeepsClosed(path[n - 1], events[n - 1], g, p);
      StepKeepsLanding(path[n - 1], events[n - 1], path[n], g, p, c);
    }
  }

  /** The events are the steps of calls that are under way, and change no delivery. */
  predicate OnlySteps(events: seq<Event>) {
    forall e :: e in events ==> e.ScanNext? || e.WriteBack?
  }

  lemma StepsSeekNothing(path: seq<System>, events: seq<Event>, g: string, p: nat)
    requires |path| == |events| + 1 && OnlySteps(events)
    ensures NoSeek(events, 0, |events|, g, p) && StaysClosed(path, events, g, p)
  {
    forall i {:trigger events[i]} | 0 <= i < |events|
      ensures !SeeksAt(events[i], g, p) && KeepsClosed(path[i], events[i], g, p)
    {
      assert events[i] in events;
    }
  }

  /** A call on the group goes on to the end of its scan. */
  lemma {:induction false} ScanToTheEnd(s: System, k: nat, g: string) returns (path: seq<System>, events: seq<Event>)
    requires Holds(s, k, g)
    ensures IsPath(path, events) && path[0] == s && OnlySteps(events)
    ensures forall i :: 0 <= i < |path| ==> path[i].deliveries == s.deliveries
    ensures var t := path[|events|]; Holds(t, k, g) && PcOf(t, k).Saving?
    ensures forall p :: At(PcOf(path[|events|], k).offsets, p) == LandsAt(s, k, p)
    decreases if PcOf(s, k).Scanning? then 1 + LandsAt(s, k, PcOf(s, k).p) - PcOf(s, k).current else 0
  {
    var pc := PcOf(s, k);
    if pc.Saving? {
      path, events := [s], [];
    } else {
      var t := Step(s, ScanNext(k));
      assert forall p :: LandsAt(t, k, p) == LandsAt(s, k, p);
      var rest, more := ScanToTheEnd(t, k, g);
      path, events := [s] + rest, [ScanNext(k)] + more;
      Prefix(s, ScanNext(k), rest, more);
    }
  }

  lemma Prefix(s: System, e: Event, rest: seq<System>, more: seq<Event>)
    requires IsPath(rest, more) && Leads(s, e, rest[0])
    ensures IsPath([s] + rest, [e] + more)
  {
    var path, events := [s] + rest, [e] + more;
    forall i {:trigger events[i]} | 0 <= i < |events|
      ensures Leads(path[i], events[i], path[i + 1])
    {
      if i > 0 {
        assert events[i] == more[i - 1] && Leads(rest[i - 1], more[i - 1], rest[i]);
      }
    }
  }

  /** A call on the group scans to the end and saves. */
  lemma LandAndSave(s: System, k: nat, g: string) returns (path: seq<System>, events: seq<Event>)
    requires Holds(s, k, g)
    ensures IsPath(path, events) && path[0] == s && OnlySteps(events)
    ensures forall i :: 0 <= i < |path| ==> path[i].deliveries == s.deliveries
    ensures g in path[|events|].groups && forall p :: At(path[|events|].groups[g], p) == LandsAt(s, k, p)
  {
    path, events := ScanToTheEnd(s, k, g);
    var t := path[|events|];
    Extend(path, events, WriteBack(k));
    path, events := path + [Step(t, WriteBack(k))], events + [WriteBack(k)];
  }

  lemma MovingBackNeedsLanding(s: System, g: string, p: nat, path: seq<System>, events: seq<Event>)
    requires g in s.groups && MovesBack(s, g, p, path, events) && StaysClosed(path, events, g, p)
    ensures exists k :: Holds(s, k, g) && LandsAt(s, k, p) < At(s.groups[g], p)
  {
    var c := At(s.groups[g], p);
    assert !LandsAtLeast(s, g, p, c) by {
      if LandsAtLeast(s, g, p, c) {
        PathKeepsLanding(path, events, |events|, g, p, c);
      }
    }
  }

  /**
   The same for continuations in which no terminal delivery of the partition is opened again or vanishes:
   the cursor can go back if and only if some call holds the group and its scan, from the offset it holds,
   comes to an end before the stored cursor.
  */
  lemma CursorMovesBackClosedIff(s: System, g: string, p: nat)
    requires g in s.groups
    ensures (exists path, events :: MovesBack(s, g, p, path, events) && StaysClosed(path, events, g, p)) <==>
              exists k :: Holds(s, k, g) && LandsAt(s, k, p) < At(s.groups[g], p)
  {
    if path: seq<System>, events: seq<Event> :|
      MovesBack(s, g, p, path, events) && StaysClosed(path, events, g, p)
    {
      MovingBackNeedsLanding(s, g, p, path, events);
    }
    if k :| Holds(s, k, g) && LandsAt(s, k, p) < At(s.groups[g], p) {
      var path, events := LandAndSave(s, k, g);
      StepsSeekNothing(path, events, g, p);
      assert MovesBack(s, g, p, path, events) && StaysClosed(path, events, g, p);
    }
  }

  // ---------- When a delivery can be skipped ----------

  /** The path leads from `s`, without a seek of the partition, past a delivery that is never terminal on it. */
  ghost predicate SkipsAhead(s: System, slot: Slot, path: seq<System>, events: seq<Event>) {
    && IsPath(path, events) && path[0] == s && NoSeek(events, 0, |events|, slot.group, slot.partition)
    && slot.group in path[|events|].groups && At(path[|events|].groups[slot.group], slot.partition) >= slot.offset
    && forall i :: 0 <= i < |path| ==> !Done(path[i].deliveries, slot)
  }

  lemma SkippingNeedsHolder(s: System, slot: Slot, path: seq<System>, events: seq<Event>)
    requires slot.group in s.groups && At(s.groups[slot.group], slot.partition) < slot.offset
    requires SkipsAhead(s, slot, path, events)
    ensures !Done(s.deliveries, slot)
    ensures exists k :: Holds(s, k, slot.group) && HeldAt(PcOf(s, k), slot.partition) >= slot.offset
  {
    var g, p := slot.group, slot.partition;
    var n := |events|;
    assert !Done(path[0].deliveries, slot);
    PathBacked(path, events, 0, n, g, p);
    var v := At(path[n].groups[g], p);
    var x: nat :| x <= v && Origin(path, events, 0, n, g, p, x) && Settled(path, 0, n, g, p, x, v);
    assert x >= slot.offset by {
      assert slot == Slot(g, p, slot.offset) && !WasSettled(path, 0, n, slot);
    }
    assert !SoughtTo(events, 0, n, g, p, x);
    var k :| Holds(s, k, g) && HeldAt(PcOf(s, k), p) == x;
  }

  /**
   A delivery ahead of the cursor can be skipped unsettled if and only if it is open and some call holds an
   offset past it. Then the steps of that call alone skip it.
  */
  lemma CursorSkipsAheadIff(s: System, slot: Slot)
    requires slot.group in s.groups && At(s.groups[slot.group], slot.partition) < slot.offset
    ensures (exists path, events :: SkipsAhead(s, slot, path, events)) <==>
              !Done(s.deliveries, slot)
              && exists k :: Holds(s, k, slot.group) && HeldAt(PcOf(s, k), slot.partition) >= slot.offset
    ensures (exists path, events :: SkipsAhead(s, slot, path, events)) <==>
              exists path, events :: SkipsAhead(s, slot, path, events) && OnlySteps(events)
  {
    var g, p := slot.group, slot.partition;
    if path: seq<System>, events: seq<Event> :| SkipsAhead(s, slot, path, events) {
      SkippingNeedsHolder(s, slot, path, events);
    }
    if k :| !Done(s.deliveries, slot) && Holds(s, k, g) && HeldAt(PcOf(s, k), p) >= slot.offset {
      var path, events := LandAndSave(s, k, g);
      StepsSeekNothing(path, events, g, p);
      assert LandsAt(s, k, p) >= HeldAt(PcOf(s, k), p);
      assert SkipsAhead(s, slot, path, events) && OnlySteps(events);
    }
  }

  // ---------- Calls that do not overlap ----------

  /** A call that begins on the group finds no other call on it, and moves no cursor of the partition by a seek. */
  ghost predicate NoOverlap(s: System, e: Event, g: string, p: nat) {
    && !SeeksAt(e, g, p)
    && ((e.BeginAdvance? || e.BeginStatusChange? || e.BeginSeek?) && e.group == g ==> Unheld(s, g))
  }

  /** One call at most holds the group, and it is not behind. */
  ghost predicate Serial(s: System, g: string, p: nat) {
    && (forall j, k :: Holds(s, j, g) && Holds(s, k, g) ==> j == k)
    && forall k :: !Behind(s, k, g, p)
  }

  lemma SerialStep(s: System, e: Event, t: System, g: string, p: nat)
    requires Leads(s, e, t) && g in s.groups && Serial(s, g, p) && NoOverlap(s, e, g, p)
    ensures Serial(t, g, p) && g in t.groups && At(s.groups[g], p) <= At(t.groups[g], p)
  {
    if e.WriteBack? {
      assert !Behind(s, e.k, g, p);
    }
    forall k
      ensures !Behind(t, k, g, p)
    {
      if e.WriteBack? && Holds(s, e.k, g) {
        assert k != e.k ==> !Holds(s, k, g);
        assert !Holds(t, k, g);
      } else if Holds(t, k, g) {
        MoverHolds(s, e, t, k, g, p);
        assert !Behind(s, k, g, p);
      }
    }
    forall j, k | Holds(t, j, g) && Holds(t, k, g)
      ensures j == k
    {
      HolderHeldOrBegan(s, e, t, j, g);
      HolderHeldOrBegan(s, e, t, k, g);
    }
  }

  /** When no two calls hold the group at once, its cursors never move back except by a seek. */
  lemma {:induction false} SerialCursorNeverMovesBack(
    path: seq<System>, events: seq<Event>, n: nat, g: string, p: nat)
    requires IsPath(path, events) && n <= |events| && g in path[0].groups && Serial(path[0], g, p)
    requires forall j {:trigger events[j]} :: 0 <= j < n ==> NoOverlap(path[j], events[j], g, p)
    ensures g in path[n].groups && At(path[0].groups[g], p) <= At(path[n].groups[g], p) && Serial(path[n], g, p)
  {
    if n > 0 {
      SerialCursorNeverMovesBack(path, events, n - 1, g, p);
      assert Leads(path[n - 1], events[n - 1], path[n]);
      assert NoOverlap(path[n - 1], events[n - 1], g, p);
      SerialStep(path[n - 1], events[n - 1], path[n], g, p);
    }
  }

  // ---------- It does happen ----------

  /** A group is created, and a call reads its record. */
  lemma CreateAndRead() returns (run: seq<System>, events: seq<Event>)
    ensures CursorInterleaving.IsRun(run, events) && |events| == 2 && run[2].deliveries == map[]
    ensures run[2].groups == map["g" := map[]] && run[2].calls == map[1 := Saving("g", map[])]
  {
    var begun: Offsets := map[];
    var create := CreateGroup("g", begun);
    Extend([START], [], create);
    var s := Step(START, create);
    Extend([START] + [s], [] + [create], BeginStatusChange(1, "g"));
    run := [START] + [s] + [Step(s, BeginStatusChange(1, "g"))];
    events := [] + [create] + [BeginStatusChange(1, "g")];
  }

  /** A second call advances past a settled delivery and saves; the first is then behind. */
  lemma OverlapMovesCursorBack() returns (run: seq<System>, events: seq<Event>)
    ensures CursorInterleaving.IsRun(run, events)
    ensures var s := run[|events|]; "g" in s.groups && At(s.groups["g"], 0) == 1 && Behind(s, 1, "g", 0)
  {
    var begun: Offsets := map[];
    run, events := CreateAndRead();
    var save := SaveDelivery(Slot("g", 0, 1), Delivery("m", Acked, 1));
    Extend(run, events, save);
    var s := Step(run[2], save);
    run, events := run + [s], events + [save];
    Extend(run, events, BeginAdvance(2, "g", 0));
    var t := Step(s, BeginAdvance(2, "g", 0));
    run, events := run + [t], events + [BeginAdvance(2, "g", 0)];
    assert PcOf(t, 2) == Scanning("g", 0, begun, 0);
    Extend(run, events, ScanNext(2));
    var u := Step(t, ScanNext(2));
    run, events := run + [u], events + [ScanNext(2)];
    assert PcOf(u, 2) == Scanning("g", 0, begun, 1);
    Extend(run, events, ScanNext(2));
    var v := Step(u, ScanNext(2));
    run, events := run + [v], events + [ScanNext(2)];
    assert PcOf(v, 2) == Saving("g", Set(begun, 0, 1)) && PcOf(v, 1) == Saving("g", begun);
    Extend(run, events, WriteBack(2));
    run, events := run + [Step(v, WriteBack(2))], events + [WriteBack(2)];
  }

  /** A second call seeks and saves; the first is then behind, and may undo the seek. */
  lemma OverlapUndoesSeek(target: nat) returns (run: seq<System>, events: seq<Event>)
    requires target > 0
    ensures CursorInterleaving.IsRun(run, events)
    ensures var s := run[|events|]; "g" in s.groups && At(s.groups["g"], 0) == target && Behind(s, 1, "g", 0)
  {
    var begun: Offsets := map[];
    var targets := Set(begun, 0, target);
    run, events := CreateAndRead();
    Extend(run, events, BeginSeek(2, "g", targets));
    var s := Step(run[2], BeginSeek(2, "g", targets));
    run, events := run + [s], events + [BeginSeek(2, "g", targets)];
    assert begun + targets == targets;
    assert PcOf(s, 2) == Saving("g", targets) && PcOf(s, 1) == Saving("g", begun);
    Extend(run, events, WriteBack(2));
    run, events := run + [Step(s, WriteBack(2))], events + [WriteBack(2)];
  }
}
