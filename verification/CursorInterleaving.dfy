/**
 The cursor when its readers and writers interleave. `advanceCursor` reads the group record, looks at
 one delivery after another, and saves the whole record; pausing, resuming and joining a group also
 read the record and save it whole, and a seek saves it with other offsets in some partitions. Between
 two of these steps anything else may happen.
*/
module CursorInterleaving {
  import opened Topic
  import opened Wrappers

  /** Where one call stands. */
  datatype Pc =
    | Idle
    | Scanning(group: string, p: nat, snapshot: Offsets, current: nat)
    | Saving(group: string, offsets: Offsets)

  datatype System = System(deliveries: map<Slot, Delivery>, groups: map<string, Offsets>, calls: map<nat, Pc>)

  function PcOf(s: System, k: nat): Pc {
    if k in s.calls then s.calls[k] else Idle
  }

  /** `targets` are the partitions that a seek moves: all of them, or that of one message. */
  datatype Event =
    | SaveDelivery(slot: Slot, d: Delivery)
    | DropDelivery(slot: Slot)
    | CreateGroup(group: string, offsets: Offsets)
    | BeginAdvance(k: nat, group: string, p: nat)
    | BeginStatusChange(k: nat, group: string)
    | BeginSeek(k: nat, group: string, targets: Offsets)
    | ScanNext(k: nat)
    | WriteBack(k: nat)
    | Crash(k: nat)

  predicate Enabled(s: System, e: Event) {
    match e
    case SaveDelivery(_, _) => true
    case DropDelivery(_) => true
    case CreateGroup(g, _) => g !in s.groups
    case BeginAdvance(k, g, _) => PcOf(s, k).Idle? && g in s.groups
    case BeginStatusChange(k, g) => PcOf(s, k).Idle? && g in s.groups
    case BeginSeek(k, g, _) => PcOf(s, k).Idle? && g in s.groups
    case ScanNext(k) => PcOf(s, k).Scanning?
    case WriteBack(k) => PcOf(s, k).Saving?
    case Crash(k) => true
  }

  function Goto(s: System, k: nat, pc: Pc): System {
    s.(calls := s.calls[k := pc])
  }

  function Step(s: System, e: Event): System
    requires Enabled(s, e)
  {
    match e
    case SaveDelivery(slot, d) => s.(deliveries := s.deliveries[slot := d])
    case DropDelivery(slot) => s.(deliveries := s.deliveries - {slot})
    case CreateGroup(g, offsets) => s.(groups := s.groups[g := offsets])
    case BeginAdvance(k, g, p) => Goto(s, k, Scanning(g, p, s.groups[g], At(s.groups[g], p)))
    case BeginStatusChange(k, g) => Goto(s, k, Saving(g, s.groups[g]))
    case BeginSeek(k, g, targets) => Goto(s, k, Saving(g, s.groups[g] + targets))
    case ScanNext(k) =>
      var pc := PcOf(s, k);
      if Done(s.deliveries, Slot(pc.group, pc.p, pc.current + 1)) then Goto(s, k, pc.(current := pc.current + 1))
      else Goto(s, k, Saving(pc.group, Set(pc.snapshot, pc.p, pc.current)))
    case WriteBack(k) =>
      var pc := PcOf(s, k);
      Goto(s.(groups := s.groups[pc.group := pc.offsets]), k, Idle)
    case Crash(k) => Goto(s, k, Idle)
  }

  predicate Leads(s: System, e: Event, t: System) {
    Enabled(s, e) && t == Step(s, e)
  }

  /** The systems that the events lead through, from any system. */
  ghost predicate IsPath(path: seq<System>, events: seq<Event>) {
    && |path| == |events| + 1
    && forall i {:trigger events[i]} :: 0 <= i < |events| ==> Leads(path[i], events[i], path[i + 1])
  }

  const START := System(map[], map[], map[])

  ghost predicate IsRun(run: seq<System>, events: seq<Event>) {
    IsPath(run, events) && run[0] == START
  }

  // ---------- What a call holds ----------

  predicate Holds(s: System, k: nat, g: string) {
    !PcOf(s, k).Idle? && PcOf(s, k).group == g
  }

  ghost predicate Unheld(s: System, g: string) {
    forall k :: !Holds(s, k, g)
  }

  /** The offset that the call would save for the partition as things stand. */
  function HeldAt(pc: Pc, p: nat): nat {
    match pc
    case Idle => 0
    case Scanning(_, q, snapshot, current) => if p == q then current else At(snapshot, p)
    case Saving(_, offsets) => At(offsets, p)
  }

  predicate SeeksTo(e: Event, g: string, p: nat, x: nat) {
    e.BeginSeek? && e.group == g && p in e.targets && e.targets[p] == x
  }

  /** The event begins a seek that moves the cursor of the partition. */
  predicate SeeksAt(e: Event, g: string, p: nat) {
    e.BeginSeek? && e.group == g && p in e.targets
  }

  ghost predicate NoSeek(events: seq<Event>, m: nat, n: nat, g: string, p: nat) {
    forall j :: m <= j < n && j < |events| ==> !SeeksAt(events[j], g, p)
  }

  // ---------- Only settled deliveries are crossed ----------

  /** The delivery was terminal at some moment from `m` to `n`. */
  ghost predicate WasSettled(path: seq<System>, m: nat, n: nat, slot: Slot) {
    exists k :: m <= k <= n && k < |path| && Done(path[k].deliveries, slot)
  }

  ghost predicate Settled(path: seq<System>, m: nat, n: nat, g: string, p: nat, from: nat, to: nat) {
    forall o :: from < o <= to ==> WasSettled(path, m, n, Slot(g, p, o))
  }

  ghost predicate HeldBySome(s: System, g: string, p: nat, x: nat) {
    exists k :: Holds(s, k, g) && HeldAt(PcOf(s, k), p) == x
  }

  ghost predicate SoughtTo(events: seq<Event>, m: nat, n: nat, g: string, p: nat, x: nat) {
    exists j :: m <= j < n && j < |events| && SeeksTo(events[j], g, p, x)
  }

  /** Where the cursor can come from: the record or a call at moment `m`, or a seek begun since. */
  ghost predicate Origin(path: seq<System>, events: seq<Event>, m: nat, n: nat, g: string, p: nat, x: nat)
    requires m < |path| && g in path[m].groups
  {
    x == At(path[m].groups[g], p) || HeldBySome(path[m], g, p, x) || SoughtTo(events, m, n, g, p, x)
  }

  /** From some origin up to `v` everything was settled since moment `m`. */
  ghost predicate Backed(path: seq<System>, events: seq<Event>, m: nat, n: nat, g: string, p: nat, v: nat)
    requires m < |path| && g in path[m].groups
  {
    exists x: nat :: x <= v && Origin(path, events, m, n, g, p, x) && Settled(path, m, n, g, p, x, v)
  }

  ghost predicate CallBacked(path: seq<System>, events: seq<Event>, m: nat, n: nat, g: string, p: nat, s: System,
                             k: nat)
    requires m < |path| && g in path[m].groups
  {
    Holds(s, k, g) ==> Backed(path, events, m, n, g, p, HeldAt(PcOf(s, k), p))
  }

  ghost predicate AllBacked(path: seq<System>, events: seq<Event>, m: nat, n: nat, g: string, p: nat)
    requires m < |path| && n < |path| && g in path[m].groups
  {
    && g in path[n].groups
    && Backed(path, events, m, n, g, p, At(path[n].groups[g], p))
    && forall k :: CallBacked(path, events, m, n, g, p, path[n], k)
  }

  lemma OriginIsBacked(path: seq<System>, events: seq<Event>, m: nat, n: nat, g: string, p: nat, x: nat)
    requires m < |path| && g in path[m].groups && Origin(path, events, m, n, g, p, x)
    ensures Backed(path, events, m, n, g, p, x)
  {
    assert Settled(path, m, n, g, p, x, x);
  }

  /** What is backed stays backed, and one more settled delivery may be crossed. */
  lemma BackedStays(path: seq<System>, events: seq<Event>, m: nat, n: nat, g: string, p: nat, v: nat)
    requires m < |path| && g in path[m].groups && Backed(path, events, m, n, g, p, v)
    ensures Backed(path, events, m, n + 1, g, p, v)
    ensures m <= n < |path| && Done(path[n].deliveries, Slot(g, p, v + 1)) ==>
              Backed(path, events, m, n + 1, g, p, v + 1)
  {
    var x: nat :| x <= v && Origin(path, events, m, n, g, p, x) && Settled(path, m, n, g, p, x, v);
    assert Origin(path, events, m, n + 1, g, p, x) by {
      if SoughtTo(events, m, n, g, p, x) {
        var j :| m <= j < n && j < |events| && SeeksTo(events[j], g, p, x);
        assert SoughtTo(events, m, n + 1, g, p, x);
      }
    }
    forall o | x < o <= v
      ensures WasSettled(path, m, n + 1, Slot(g, p, o))
    {
      assert WasSettled(path, m, n, Slot(g, p, o));
    }
    assert Settled(path, m, n + 1, g, p, x, v);
    if m <= n < |path| && Done(path[n].deliveries, Slot(g, p, v + 1)) {
      assert WasSettled(path, m, n + 1, Slot(g, p, v + 1));
      assert Settled(path, m, n + 1, g, p, x, v + 1);
    }
  }

  lemma RecordStaysBacked(path: seq<System>, events: seq<Event>, m: nat, n: nat, g: string, p: nat)
    requires IsPath(path, events) && m <= n < |events| && g in path[m].groups && AllBacked(path, events, m, n, g, p)
    ensures g in path[n + 1].groups && Backed(path, events, m, n + 1, g, p, At(path[n + 1].groups[g], p))
  {
    var s, e, t := path[n], events[n], path[n + 1];
    assert Leads(s, e, t);
    BackedStays(path, events, m, n, g, p, At(s.groups[g], p));
    if e.WriteBack? && PcOf(s, e.k).group == g {
      assert CallBacked(path, events, m, n, g, p, s, e.k);
      BackedStays(path, events, m, n, g, p, HeldAt(PcOf(s, e.k), p));
    }
  }

  /** What the call that moves holds afterwards: what it held, the record, a settled step more, or a target. */
  lemma MoverHolds(s: System, e: Event, t: System, k: nat, g: string, p: nat)
    requires Leads(s, e, t) && Holds(t, k, g)
    ensures var v := HeldAt(PcOf(t, k), p);
            || (Holds(s, k, g) && v == HeldAt(PcOf(s, k), p))
            || (Holds(s, k, g) && v == HeldAt(PcOf(s, k), p) + 1 && Done(s.deliveries, Slot(g, p, v)))
            || (g in s.groups && v == At(s.groups[g], p))
            || SeeksTo(e, g, p, v)
  {
  }

  lemma CallStaysBacked(path: seq<System>, events: seq<Event>, m: nat, n: nat, g: string, p: nat, k: nat)
    requires IsPath(path, events) && m <= n < |events| && g in path[m].groups && AllBacked(path, events, m, n, g, p)
    ensures CallBacked(path, events, m, n + 1, g, p, path[n + 1], k)
  {
    var s, e, t := path[n], events[n], path[n + 1];
    assert Leads(s, e, t);
    if Holds(t, k, g) {
      var v := HeldAt(PcOf(t, k), p);
      MoverHolds(s, e, t, k, g, p);
      assert CallBacked(path, events, m, n, g, p, s, k);
      BackedStays(path, events, m, n, g, p, At(s.groups[g], p));
      if Holds(s, k, g) {
        BackedStays(path, events, m, n, g, p, HeldAt(PcOf(s, k), p));
      }
      if SeeksTo(e, g, p, v) {
        assert SoughtTo(events, m, n + 1, g, p, v);
        OriginIsBacked(path, events, m, n + 1, g, p, v);
      }
    }
  }

  lemma BeginBacked(path: seq<System>, events: seq<Event>, m: nat, g: string, p: nat)
    requires m < |path| && g in path[m].groups
    ensures AllBacked(path, events, m, m, g, p)
  {
    var s := path[m];
    OriginIsBacked(path, events, m, m, g, p, At(s.groups[g], p));
    forall k
      ensures CallBacked(path, events, m, m, g, p, s, k)
    {
      if Holds(s, k, g) {
        assert HeldBySome(s, g, p, HeldAt(PcOf(s, k), p));
        OriginIsBacked(path, events, m, m, g, p, HeldAt(PcOf(s, k), p));
      }
    }
  }

  lemma {:induction false} PathBacked(path: seq<System>, events: seq<Event>, m: nat, n: nat, g: string, p: nat)
    requires IsPath(path, events) && m <= n <= |events| && g in path[m].groups
    ensures AllBacked(path, events, m, n, g, p)
    decreases n
  {
    if m == n {
      BeginBacked(path, events, m, g, p);
    } else {
      PathBacked(path, events, m, n - 1, g, p);
      RecordStaysBacked(path, events, m, n - 1, g, p);
      var t, l := path[n], n;
      forall k
        ensures CallBacked(path, events, m, l, g, p, t, k)
      {
        CallStaysBacked(path, events, m, n - 1, g, p, k);
      }
    }
  }

  /**
   However the calls interleave, crash, or save a stale record over a newer one: between any two moments
   the cursor has come from what the record or some call held at the first of them, or from the target of
   a seek begun since, and every delivery it crossed on the way was terminal at some moment in between.
  */
  lemma CursorHasOrigin(path: seq<System>, events: seq<Event>, m: nat, n: nat, g: string, p: nat)
    requires IsPath(path, events) && m <= n <= |events| && g in path[m].groups
    ensures g in path[n].groups
    ensures exists x: nat ::
              && x <= At(path[n].groups[g], p)
              && Origin(path, events, m, n, g, p, x)
              && forall o :: x < o <= At(path[n].groups[g], p) ==>
                   exists k :: m <= k <= n && Done(path[k].deliveries, Slot(g, p, o))
  {
    PathBacked(path, events, m, n, g, p);
    var v := At(path[n].groups[g], p);
    var x: nat :| x <= v && Origin(path, events, m, n, g, p, x) && Settled(path, m, n, g, p, x, v);
    forall o | x < o <= v
      ensures exists k :: m <= k <= n && Done(path[k].deliveries, Slot(g, p, o))
    {
      assert WasSettled(path, m, n, Slot(g, p, o));
    }
  }

  /**
   From a moment at which no call holds the group, and without a seek, the cursor moves forward over settled
   deliveries.
  */
  lemma QuietCursorIsSafe(path: seq<System>, events: seq<Event>, m: nat, n: nat, g: string, p: nat)
    requires IsPath(path, events) && m <= n <= |events| && g in path[m].groups
    requires Unheld(path[m], g) && NoSeek(events, m, n, g, p)
    ensures g in path[n].groups && At(path[m].groups[g], p) <= At(path[n].groups[g], p)
    ensures forall o :: At(path[m].groups[g], p) < o <= At(path[n].groups[g], p) ==>
              exists k :: m <= k <= n && Done(path[k].deliveries, Slot(g, p, o))
  {
    CursorHasOrigin(path, events, m, n, g, p);
  }

  /** No call holds the record of a group that does not exist. */
  ghost predicate HoldKnown(s: System) {
    forall k :: PcOf(s, k).Idle? || PcOf(s, k).group in s.groups
  }

  lemma {:induction false} RunHoldsKnown(run: seq<System>, events: seq<Event>, n: nat)
    requires IsRun(run, events) && n <= |events|
    ensures HoldKnown(run[n])
  {
    if n > 0 {
      RunHoldsKnown(run, events, n - 1);
      var s, e := run[n - 1], events[n - 1];
      assert Leads(s, e, run[n]);
      forall k
        ensures PcOf(run[n], k).Idle? || PcOf(run[n], k).group in run[n].groups
      {
        assert PcOf(s, k).Idle? || PcOf(s, k).group in s.groups;
        if e.WriteBack? {
          assert PcOf(s, e.k).group in s.groups;
        }
      }
    }
  }

  /** From its creation on, a cursor that no seek moves has crossed only settled deliveries. */
  lemma CursorIsSafeUnderInterleaving(run: seq<System>, events: seq<Event>, i: nat, n: nat, p: nat)
    requires IsRun(run, events) && i < n <= |events| && events[i].CreateGroup?
    requires NoSeek(events, i, n, events[i].group, p)
    ensures var g, start := events[i].group, events[i].offsets;
            && g in run[n].groups && At(start, p) <= At(run[n].groups[g], p)
            && forall o :: At(start, p) < o <= At(run[n].groups[g], p) ==>
                 exists k :: i < k <= n && Done(run[k].deliveries, Slot(g, p, o))
  {
    RunHoldsKnown(run, events, i);
    assert Leads(run[i], events[i], run[i + 1]);
    var t, g := run[i + 1], events[i].group;
    forall k
      ensures !Holds(t, k, g)
    {
      assert PcOf(run[i], k).Idle? || PcOf(run[i], k).group in run[i].groups;
    }
    QuietCursorIsSafe(run, events, i + 1, n, g, p);
  }
}
