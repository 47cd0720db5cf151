/** The steps of one call on a group record, with nothing in between, do what the whole operation does. */
module CursorAlone {
  import opened CursorInterleaving
  import CursorReversal
  import opened Topic
  import opened Wrappers

  /** A seek puts the cursors of its partitions at their targets, and moves no other. */
  lemma SeekAlone(s: System, k: nat, g: string, targets: Offsets)
    requires PcOf(s, k).Idle? && g in s.groups
    ensures var t := Step(Step(s, BeginSeek(k, g, targets)), WriteBack(k));
            && PcOf(t, k).Idle? && t.deliveries == s.deliveries && t.groups.Keys == s.groups.Keys
            && forall h, q :: h in s.groups ==>
                 At(t.groups[h], q) == if h == g && q in targets then targets[q] else At(s.groups[h], q)
  {
  }

  /** Pausing or resuming a group moves no cursor. */
  lemma StatusChangeAlone(s: System, k: nat, g: string)
    requires PcOf(s, k).Idle? && g in s.groups
    ensures var t := Step(Step(s, BeginStatusChange(k, g)), WriteBack(k));
            PcOf(t, k).Idle? && t.deliveries == s.deliveries && t.groups == s.groups
  {
  }

  lemma {:induction false} ScanAlone(s: System, k: nat) returns (path: seq<System>, events: seq<Event>)
    requires PcOf(s, k).Scanning?
    ensures IsPath(path, events) && path[0] == s && forall e :: e in events ==> e == ScanNext(k)
    ensures var t, pc := path[|events|], PcOf(s, k);
            && t.deliveries == s.deliveries && t.groups == s.groups
            && PcOf(t, k) == Saving(pc.group, Set(pc.snapshot, pc.p, Scan(s.deliveries, pc.group, pc.p, pc.current)))
    decreases var pc := PcOf(s, k); Scan(s.deliveries, pc.group, pc.p, pc.current) - pc.current
  {
    var t := Step(s, ScanNext(k));
    if PcOf(t, k).Saving? {
      path, events := [s, t], [ScanNext(k)];
      assert Leads(s, ScanNext(k), t);
    } else {
      var rest, more := ScanAlone(t, k);
      path, events := [s] + rest, [ScanNext(k)] + more;
      CursorReversal.Prefix(s, ScanNext(k), rest, more);
      assert path[|events|] == rest[|more|];
    }
  }

  /** Reading the group, looking at one delivery after another, and saving it advances the cursor as a whole. */
  lemma AdvanceAlone(s: System, k: nat, whole: State, g: string, p: nat)
    returns (path: seq<System>, events: seq<Event>)
    requires PcOf(s, k).Idle? && g in s.groups && whole.groups == s.groups && whole.deliveries == s.deliveries
    ensures IsPath(path, events) && path[0] == s
    ensures forall e :: e in events ==> e in {BeginAdvance(k, g, p), ScanNext(k), WriteBack(k)}
    ensures var t := path[|events|];
            PcOf(t, k).Idle? && t.deliveries == s.deliveries && t.groups == AdvanceCursor(whole, g, p).groups
  {
    var begun := Step(s, BeginAdvance(k, g, p));
    var rest, more := ScanAlone(begun, k);
    path, events := [s] + rest, [BeginAdvance(k, g, p)] + more;
    CursorReversal.Prefix(s, BeginAdvance(k, g, p), rest, more);
    assert path[|events|] == rest[|more|];
    CursorReversal.Extend(path, events, WriteBack(k));
    path, events := path + [Step(path[|events|], WriteBack(k))], events + [WriteBack(k)];
  }
}
