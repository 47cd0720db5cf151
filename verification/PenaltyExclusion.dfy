/**
 What the write lock gives: one check at a time, however the calls interleave. And what the calls write that
 an administrator makes by hand.
*/
module PenaltyExclusion {
  import opened PenaltyInterleaving
  import PenaltyLog
  import opened Wrappers

  /** The call is a check under way. */
  predicate IsCheck(pc: Pc) {
    match pc
    case Idle => false
    case Asking(caller) => caller.Check?
    case Reading(_, _, caller) => caller.Check?
    case _ => true
  }

  ghost predicate ChecksHoldLock(s: System) {
    forall k: nat :: IsCheck(PcOf(s, k)) ==> s.lock == Some(k)
  }

  lemma StepKeepsLock(p: PenaltyLog.Penalty, s: System, e: Event, t: System)
    requires Leads(p, s, e, t) && ChecksHoldLock(s)
    ensures ChecksHoldLock(t)
  {
    forall k: nat | IsCheck(PcOf(t, k))
      ensures t.lock == Some(k)
    {
      OneKeepsLock(p, s, e, t, k);
    }
  }

  lemma OneKeepsLock(p: PenaltyLog.Penalty, s: System, e: Event, t: System, k: nat)
    requires Leads(p, s, e, t) && ChecksHoldLock(s) && IsCheck(PcOf(t, k))
    ensures t.lock == Some(k)
  {
    assert IsCheck(PcOf(s, k)) ==> s.lock == Some(k);
  }

  lemma {:induction false} PathKeepsLock(p: PenaltyLog.Penalty, path: seq<System>, events: seq<Event>, n: nat)
    requires IsPath(p, path, events) && n <= |events| && ChecksHoldLock(path[0])
    ensures ChecksHoldLock(path[n])
  {
    if n > 0 {
      PathKeepsLock(p, path, events, n - 1);
      assert Leads(p, path[n - 1], events[n - 1], path[n]);
      StepKeepsLock(p, path[n - 1], events[n - 1], path[n]);
    }
  }

  /** From a moment without calls on, whatever they do and wherever they crash, no two checks are under way. */
  lemma OneCheckAtATime(p: PenaltyLog.Penalty, path: seq<System>, events: seq<Event>, n: nat, j: nat, k: nat)
    requires IsPath(p, path, events) && n <= |events| && forall i :: PcOf(path[0], i).Idle?
    requires IsCheck(PcOf(path[n], j)) && IsCheck(PcOf(path[n], k))
    ensures j == k
  {
    PathKeepsLock(p, path, events, n);
  }

  /** Nor does the lock stay behind: with no check under way the next may begin. */
  ghost predicate LockIsHeld(s: System) {
    s.lock.Some? ==> IsCheck(PcOf(s, s.lock.value))
  }

  lemma StepFreesLock(p: PenaltyLog.Penalty, s: System, e: Event, t: System)
    requires Leads(p, s, e, t) && ChecksHoldLock(s) && LockIsHeld(s)
    ensures LockIsHeld(t)
  {
  }

  lemma {:induction false} NextCheckMayBegin(p: PenaltyLog.Penalty, path: seq<System>, events: seq<Event>, n: nat,
                                             k: nat)
    requires IsPath(p, path, events) && n <= |events| && path[0].lock.None? && forall i :: PcOf(path[0], i).Idle?
    ensures LockIsHeld(path[n])
    ensures (forall i :: !IsCheck(PcOf(path[n], i))) && PcOf(path[n], k).Idle? ==> Enabled(path[n], BeginCheck(k))
  {
    if n > 0 {
      NextCheckMayBegin(p, path, events, n - 1, k);
      PathKeepsLock(p, path, events, n - 1);
      assert Leads(p, path[n - 1], events[n - 1], path[n]);
      StepFreesLock(p, path[n - 1], events[n - 1], path[n]);
    }
  }

  // ---------- By hand ----------

  /** A ban by hand replaces the key's ban, an unban removes it, a reset removes its log, and nothing else. */
  lemma HandsWrite(p: PenaltyLog.Penalty, s: System, key: string, expiry: int)
    ensures Step(p, s, BanByHand(key, expiry)) == s.(bans := s.bans[key := expiry])
    ensures Step(p, s, UnbanByHand(key)) == s.(bans := s.bans - {key})
    ensures Step(p, s, ResetLog(key)) == s.(violations := s.violations - {key})
  {
  }

  /** A check ends without another write, and a crash writes nothing. */
  lemma EndingWritesNothing(p: PenaltyLog.Penalty, s: System, k: nat, e: Event)
    requires Enabled(s, e) && (e == Pass(k) || e == Leave(k) || e == Crash(k))
    ensures var t := Step(p, s, e);
            && t.bans == s.bans && t.violations == s.violations && t.now == s.now
            && PcOf(t, k).Idle? && (s.lock == Some(k) ==> t.lock.None?)
            && forall j :: j != k ==> PcOf(t, j) == PcOf(s, j)
  {
  }
}
