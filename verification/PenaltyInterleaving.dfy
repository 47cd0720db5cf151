/**
 Bans and violation logs when calls overlap. Only `check` holds the write lock; `peek`, `reset`, `ban` and
 `unban` do not. Each read and each write of a record is a step, and between two steps of one call any others
 may happen.
*/
module PenaltyInterleaving {
  import opened PenaltyLog
  import opened RateAlgorithms
  import opened Wrappers

  /** A check remembers which keys it was told are not banned, and whether it was told of a ban. */
  datatype Caller = Peek | Check(seen: set<string>, barred: bool)

  /** Where a call stands. One that has read a ban record has not looked at the time yet. */
  datatype Pc =
    | Idle
    | Asking(caller: Caller)
    | Reading(key: string, held: Option<int>, caller: Caller)
    | Recording(key: string, at: int, log: Option<seq<int>>)
    | Banning(key: string, at: int)
    | Clearing(key: string)

  datatype System = System(
    bans: map<string, int>, violations: map<string, seq<int>>, calls: map<nat, Pc>, lock: Option<nat>, now: int)

  datatype Event =
    | Tick(passed: nat)
    | BeginCheck(k: nat)
    | BeginPeek(k: nat)
    | ReadBan(k: nat, key: string)
    | Judge(k: nat)
    | Pass(k: nat)
    | Leave(k: nat)
    | BeginViolation(k: nat, key: string)
    | SaveLog(k: nat)
    | SaveBan(k: nat)
    | ClearLog(k: nat)
    | ResetLog(key: string)
    | BanByHand(key: string, expiry: int)
    | UnbanByHand(key: string)
    | Crash(k: nat)

  function PcOf(s: System, k: nat): Pc {
    if k in s.calls then s.calls[k] else Idle
  }

  /** The keys that a check, between two questions, was told are not banned. */
  function SeenBy(pc: Pc): set<string> {
    if pc.Asking? && pc.caller.Check? then pc.caller.seen else {}
  }

  predicate Enabled(s: System, e: Event) {
    match e
    case BeginCheck(k) => PcOf(s, k).Idle? && s.lock.None?
    case BeginPeek(k) => PcOf(s, k).Idle?
    case ReadBan(k, _) => PcOf(s, k).Asking?
    case Judge(k) => PcOf(s, k).Reading?
    case Pass(k) => PcOf(s, k).Asking? && PcOf(s, k).caller.Check? && !PcOf(s, k).caller.barred
    case Leave(k) => PcOf(s, k).Asking?
    case BeginViolation(k, key) => key in SeenBy(PcOf(s, k))
    case SaveLog(k) => PcOf(s, k).Recording?
    case SaveBan(k) => PcOf(s, k).Banning?
    case ClearLog(k) => PcOf(s, k).Clearing?
    case _ => true
  }

  function Goto(s: System, k: nat, pc: Pc): System {
    s.(calls := s.calls[k := pc])
  }

  /** The call ends, and with it its lock. */
  function End(s: System, k: nat): System {
    Goto(s, k, Idle).(lock := if s.lock == Some(k) then None else s.lock)
  }

  predicate Unexpired(held: Option<int>, now: int) {
    held.Some? && held.value > now
  }

  /** A check takes note of what it was told. */
  function Told(caller: Caller, key: string, banned: bool): Caller {
    match caller
    case Peek => Peek
    case Check(seen, barred) => if banned then Check(seen, true) else Check(seen + {key}, barred)
  }

  /** The log that is saved for a violation at `at`. */
  function LogWith(p: Penalty, log: Option<seq<int>>, at: int): seq<int> {
    After(log.GetOr([]), at - p.windowMs) + [at]
  }

  function Step(p: Penalty, s: System, e: Event): System
    requires Enabled(s, e)
  {
    match e
    case Tick(passed) => s.(now := s.now + passed)
    case BeginCheck(k) => Goto(s, k, Asking(Check({}, false))).(lock := Some(k))
    case BeginPeek(k) => Goto(s, k, Asking(Peek))
    case ReadBan(k, key) => Goto(s, k, Reading(key, Lookup(s.bans, key), PcOf(s, k).caller))
    case Judge(k) =>
      var pc := PcOf(s, k);
      var banned := Unexpired(pc.held, s.now);
      Goto(if pc.held.Some? && !banned then s.(bans := s.bans - {pc.key}) else s, k,
           Asking(Told(pc.caller, pc.key, banned)))
    case Pass(k) => End(s, k)
    case Leave(k) => End(s, k)
    case BeginViolation(k, key) => Goto(s, k, Recording(key, s.now, Lookup(s.violations, key)))
    case SaveLog(k) =>
      var pc := PcOf(s, k);
      var log := LogWith(p, pc.log, pc.at);
      var t := s.(violations := s.violations[pc.key := log]);
      if |log| >= p.threshold then Goto(t, k, Banning(pc.key, pc.at)) else End(t, k)
    case SaveBan(k) =>
      var pc := PcOf(s, k);
      Goto(s.(bans := s.bans[pc.key := pc.at + p.banMs]), k, Clearing(pc.key))
    case ClearLog(k) => End(s.(violations := s.violations - {PcOf(s, k).key}), k)
    case ResetLog(key) => s.(violations := s.violations - {key})
    case BanByHand(key, expiry) => s.(bans := s.bans[key := expiry])
    case UnbanByHand(key) => s.(bans := s.bans - {key})
    case Crash(k) => End(s, k)
  }

  predicate Leads(p: Penalty, s: System, e: Event, t: System) {
    Enabled(s, e) && t == Step(p, s, e)
  }

  ghost predicate IsPath(p: Penalty, path: seq<System>, events: seq<Event>) {
    && |path| == |events| + 1
    && forall i {:trigger events[i]} :: 0 <= i < |events| ==> Leads(p, path[i], events[i], path[i + 1])
  }

  lemma Extend(p: Penalty, path: seq<System>, events: seq<Event>, e: Event)
    requires IsPath(p, path, events) && Enabled(path[|events|], e)
    ensures IsPath(p, path + [Step(p, path[|events|], e)], events + [e])
  {
  }

  // ---------- Calls that nobody interrupts ----------

  /** The steps of a question, one right after the other, answer and delete as the whole call does. */
  lemma QuestionAlone(p: Penalty, s: System, k: nat, key: string)
    requires PcOf(s, k).Asking?
    ensures var banned := key in s.bans && s.bans[key] > s.now;
            var t := Step(p, Step(p, s, ReadBan(k, key)), Judge(k));
            && PcOf(t, k) == Asking(Told(PcOf(s, k).caller, key, banned))
            && t.bans == (if key in s.bans && !banned then s.bans - {key} else s.bans)
            && t.violations == s.violations
  {
  }

  /** The steps of a violation leave the log and the bans that the whole call leaves. */
  lemma ViolationAlone(p: Penalty, s: System, k: nat, key: string)
    requires key in SeenBy(PcOf(s, k))
    ensures var r := RecordViolation(p, Lookup(s.violations, key), s.now);
            var t := Step(p, Step(p, s, BeginViolation(k, key)), SaveLog(k));
            PcOf(t, k) == (if r.banned then Banning(key, s.now) else Idle) &&
            var u := if r.banned then Step(p, Step(p, t, SaveBan(k)), ClearLog(k)) else t;
            && u.violations == (if r.log.Some? then s.violations[key := r.log.value] else s.violations - {key})
            && u.bans == (if r.banned then s.bans[key := s.now + p.banMs] else s.bans)
            && PcOf(u, k).Idle?
  {
    LastSteps(p, Step(p, Step(p, s, BeginViolation(k, key)), SaveLog(k)), k, s, key);
  }

  /** A log that has grown to the threshold is replaced by a ban. */
  lemma LastSteps(p: Penalty, t: System, k: nat, s: System, key: string)
    requires t.violations == s.violations[key := LogWith(p, Lookup(s.violations, key), s.now)] && t.bans == s.bans
    ensures PcOf(t, k) == Banning(key, s.now) ==>
              var u := Step(p, Step(p, t, SaveBan(k)), ClearLog(k));
              && u.violations == s.violations - {key} && u.bans == s.bans[key := s.now + p.banMs]
              && PcOf(u, k).Idle?
  {
    assert t.violations - {key} == s.violations - {key};
  }

  // ---------- When a ban is lost ----------

  /** The event lifts the key's ban, or sets one that expires before `expiry`, by hand or after a violation. */
  predicate Undercuts(p: Penalty, s: System, e: Event, key: string, expiry: int) {
    || (e.UnbanByHand? && e.key == key)
    || (e.BanByHand? && e.key == key && e.expiry < expiry)
    || (e.SaveBan? && PcOf(s, e.k).Banning? && PcOf(s, e.k).key == key && PcOf(s, e.k).at + p.banMs < expiry)
  }

  ghost predicate NotUndercut(p: Penalty, path: seq<System>, events: seq<Event>, key: string, expiry: int)
    requires |path| == |events| + 1
  {
    forall i {:trigger events[i]} :: 0 <= i < |events| ==> !Undercuts(p, path[i], events[i], key, expiry)
  }

  predicate SetsNothing(events: seq<Event>) {
    forall e :: e in events ==> !e.BanByHand? && !e.UnbanByHand? && !e.SaveBan?
  }

  lemma SettingNothingUndercutsNothing(p: Penalty, path: seq<System>, events: seq<Event>, key: string, expiry: int)
    requires |path| == |events| + 1 && SetsNothing(events)
    ensures NotUndercut(p, path, events, key, expiry)
  {
    forall i {:trigger events[i]} | 0 <= i < |events|
      ensures !Undercuts(p, path[i], events[i], key, expiry)
    {
      assert events[i] in events;
    }
  }

  /** The call has read a ban of the key that expires before `expiry`. */
  predicate HoldsOlder(pc: Pc, key: string, expiry: int) {
    pc.Reading? && pc.key == key && pc.held.Some? && pc.held.value < expiry
  }

  /** Nobody lifts or shortens the key's ban, and it is gone before it has expired. */
  ghost predicate LosesBan(p: Penalty, s: System, key: string, path: seq<System>, events: seq<Event>)
    requires key in s.bans
  {
    && IsPath(p, path, events) && path[0] == s && NotUndercut(p, path, events, key, s.bans[key])
    && key !in path[|events|].bans && path[|events|].now < s.bans[key]
  }

  ghost predicate Stands(s: System, key: string, expiry: int) {
    key in s.bans && s.bans[key] >= expiry && forall k :: !HoldsOlder(PcOf(s, k), key, expiry)
  }

  lemma StepStands(p: Penalty, s: System, e: Event, t: System, key: string, expiry: int)
    requires Leads(p, s, e, t) && !Undercuts(p, s, e, key, expiry) && Stands(s, key, expiry) && s.now < expiry
    ensures Stands(t, key, expiry)
  {
    forall k
      ensures !HoldsOlder(PcOf(t, k), key, expiry)
    {
      assert !HoldsOlder(PcOf(s, k), key, expiry);
    }
    if e.Judge? {
      assert !HoldsOlder(PcOf(s, e.k), key, expiry);
    }
  }

  lemma {:induction false} TimeRuns(p: Penalty, path: seq<System>, events: seq<Event>, n: nat)
    requires IsPath(p, path, events) && n <= |events|
    ensures path[n].now <= path[|events|].now
    decreases |events| - n
  {
    if n < |events| {
      TimeRuns(p, path, events, n + 1);
      assert Leads(p, path[n], events[n], path[n + 1]);
    }
  }

  lemma {:induction false} PathStands(
    p: Penalty, path: seq<System>, events: seq<Event>, n: nat, key: string, expiry: int)
    requires IsPath(p, path, events) && NotUndercut(p, path, events, key, expiry) && n <= |events|
    requires path[|events|].now < expiry && Stands(path[0], key, expiry)
    ensures Stands(path[n], key, expiry)
  {
    if n > 0 {
      PathStands(p, path, events, n - 1, key, expiry);
      TimeRuns(p, path, events, n - 1);
      assert Leads(p, path[n - 1], events[n - 1], path[n]) && !Undercuts(p, path[n - 1], events[n - 1], key, expiry);
      StepStands(p, path[n - 1], events[n - 1], path[n], key, expiry);
    }
  }

  /** The time comes at which what the call holds has expired, and the call looks at it. */
  lemma JudgeExpired(p: Penalty, s: System, k: nat, expiry: int) returns (path: seq<System>, events: seq<Event>)
    requires PcOf(s, k).Reading? && s.now < expiry && (PcOf(s, k).held.Some? ==> PcOf(s, k).held.value < expiry)
    ensures IsPath(p, path, events) && path[0] == s && |events| == 2 && SetsNothing(events)
    ensures var (pc, t) := (PcOf(s, k), path[2]);
            && t.now < expiry && PcOf(t, k) == Asking(Told(pc.caller, pc.key, false)) && t.lock == s.lock
            && t.bans == if pc.held.Some? then s.bans - {pc.key} else s.bans
  {
    var held := PcOf(s, k).held;
    var wait := if held.Some? && held.value > s.now then held.value - s.now else 0;
    var t := Step(p, s, Tick(wait));
    Extend(p, [s], [], Tick(wait));
    Extend(p, [s] + [t], [] + [Tick(wait)], Judge(k));
    path, events := [s] + [t] + [Step(p, t, Judge(k))], [] + [Tick(wait)] + [Judge(k)];
  }

  lemma LosingNeedsOlder(p: Penalty, s: System, key: string, path: seq<System>, events: seq<Event>)
    requires key in s.bans && LosesBan(p, s, key, path, events)
    ensures exists k :: HoldsOlder(PcOf(s, k), key, s.bans[key])
  {
    var expiry := s.bans[key];
    if Stands(s, key, expiry) {
      PathStands(p, path, events, |events|, key, expiry);
    }
  }

  /**
   An unexpired ban that nobody lifts or shortens can be gone before it has expired if and only if some call
   holds a read of an older ban of the key.
  */
  lemma BanIsLostIff(p: Penalty, s: System, key: string)
    requires key in s.bans && s.now < s.bans[key]
    ensures (exists path, events :: LosesBan(p, s, key, path, events)) <==>
              exists k :: HoldsOlder(PcOf(s, k), key, s.bans[key])
  {
    if path: seq<System>, events: seq<Event> :| LosesBan(p, s, key, path, events) {
      LosingNeedsOlder(p, s, key, path, events);
    }
    if k :| HoldsOlder(PcOf(s, k), key, s.bans[key]) {
      var path, events := JudgeExpired(p, s, k, s.bans[key]);
      SettingNothingUndercutsNothing(p, path, events, key, s.bans[key]);
      assert LosesBan(p, s, key, path, events);
    }
  }

  // ---------- When a banned key passes ----------

  /** The check can still pass with what it was told before `expiry`. */
  predicate MayPass(pc: Pc, key: string, expiry: int) {
    match pc
    case Asking(caller) => caller.Check? && !caller.barred && key in caller.seen
    case Reading(other, held, caller) =>
      && caller.Check? && !caller.barred && (held.Some? ==> held.value < expiry)
      && (other == key || key in caller.seen)
    case _ => false
  }

  /** Nobody lifts or shortens the key's ban, and before it has expired a check passes that was told of none. */
  ghost predicate PassesBanned(p: Penalty, s: System, key: string, path: seq<System>, events: seq<Event>)
    requires key in s.bans
  {
    && IsPath(p, path, events) && path[0] == s && NotUndercut(p, path, events, key, s.bans[key])
    && path[|events|].now < s.bans[key]
    && events != [] && var last := |events| - 1;
       events[last].Pass? && key in SeenBy(PcOf(path[last], events[last].k))
  }

  ghost predicate Blocks(s: System, key: string, expiry: int) {
    Stands(s, key, expiry) && forall k :: !MayPass(PcOf(s, k), key, expiry)
  }

  lemma StepBlocks(p: Penalty, s: System, e: Event, t: System, key: string, expiry: int)
    requires Leads(p, s, e, t) && !Undercuts(p, s, e, key, expiry) && Blocks(s, key, expiry) && s.now < expiry
    ensures Blocks(t, key, expiry)
  {
    StepStands(p, s, e, t, key, expiry);
    forall k
      ensures !MayPass(PcOf(t, k), key, expiry)
    {
      assert !MayPass(PcOf(s, k), key, expiry);
    }
  }

  lemma {:induction false} PathBlocks(
    p: Penalty, path: seq<System>, events: seq<Event>, n: nat, key: string, expiry: int)
    requires IsPath(p, path, events) && NotUndercut(p, path, events, key, expiry) && n <= |events|
    requires path[|events|].now < expiry && Blocks(path[0], key, expiry)
    ensures Blocks(path[n], key, expiry)
  {
    if n > 0 {
      PathBlocks(p, path, events, n - 1, key, expiry);
      TimeRuns(p, path, events, n - 1);
      assert Leads(p, path[n - 1], events[n - 1], path[n]) && !Undercuts(p, path[n - 1], events[n - 1], key, expiry);
      StepBlocks(p, path[n - 1], events[n - 1], path[n], key, expiry);
    }
  }

  /** With the ban standing, no check that was told otherwise passes. */
  lemma NoPass(p: Penalty, s: System, e: Event, t: System, key: string, expiry: int)
    requires Leads(p, s, e, t) && Blocks(s, key, expiry) && e.Pass?
    ensures key !in SeenBy(PcOf(s, e.k))
  {
    assert !MayPass(PcOf(s, e.k), key, expiry);
  }

  lemma PassingNeedsOlder(p: Penalty, s: System, key: string, path: seq<System>, events: seq<Event>)
    requires key in s.bans && PassesBanned(p, s, key, path, events)
    ensures exists k :: HoldsOlder(PcOf(s, k), key, s.bans[key]) || MayPass(PcOf(s, k), key, s.bans[key])
  {
    var expiry, last := s.bans[key], |events| - 1;
    if Blocks(s, key, expiry) {
      PathBlocks(p, path, events, last, key, expiry);
      assert Leads(p, path[last], events[last], path[last + 1]);
      NoPass(p, path[last], events[last], path[last + 1], key, expiry);
    }
  }

  /** A check that may pass waits until what it has read has expired, and passes. */
  lemma PassOn(p: Penalty, s: System, k: nat, key: string) returns (path: seq<System>, events: seq<Event>)
    requires key in s.bans && s.now < s.bans[key] && MayPass(PcOf(s, k), key, s.bans[key])
    ensures PassesBanned(p, s, key, path, events)
  {
    path, events := [s], [];
    if PcOf(s, k).Reading? {
      path, events := JudgeExpired(p, s, k, s.bans[key]);
    }
    var t := path[|events|];
    Extend(p, path, events, Pass(k));
    path, events := path + [Step(p, t, Pass(k))], events + [Pass(k)];
    SettingNothingUndercutsNothing(p, path, events, key, s.bans[key]);
  }

  /** The call that deletes the ban and the one that holds the lock stop; a new check begins. */
  lemma BeginAnew(p: Penalty, s: System, k: nat) returns (path: seq<System>, events: seq<Event>)
    ensures IsPath(p, path, events) && path[0] == s
    ensures SetsNothing(events)
    ensures var t := path[|events|];
            t.bans == s.bans && t.now == s.now && PcOf(t, k) == Asking(Check({}, false))
  {
    Extend(p, [s], [], Crash(k));
    var t := Step(p, s, Crash(k));
    path, events := [s] + [t], [] + [Crash(k)];
    if t.lock.Some? {
      Extend(p, path, events, Crash(t.lock.value));
      path, events := path + [Step(p, t, Crash(t.lock.value))], events + [Crash(t.lock.value)];
    }
    var u := path[|events|];
    Extend(p, path, events, BeginCheck(k));
    path, events := path + [Step(p, u, BeginCheck(k))], events + [BeginCheck(k)];
  }

  /** A check that has just begun finds no ban of the key, and passes. */
  lemma AskAndPass(p: Penalty, s: System, k: nat, key: string) returns (path: seq<System>, events: seq<Event>)
    requires PcOf(s, k) == Asking(Check({}, false)) && key !in s.bans
    ensures IsPath(p, path, events) && path[0] == s && path[|events|].now == s.now
    ensures events == [ReadBan(k, key), Judge(k), Pass(k)] && SeenBy(PcOf(path[2], k)) == {key}
  {
    Extend(p, [s], [], ReadBan(k, key));
    var t := Step(p, s, ReadBan(k, key));
    Extend(p, [s] + [t], [] + [ReadBan(k, key)], Judge(k));
    var u := Step(p, t, Judge(k));
    Extend(p, [s] + [t] + [u], [] + [ReadBan(k, key)] + [Judge(k)], Pass(k));
    path := [s] + [t] + [u] + [Step(p, u, Pass(k))];
    events := [] + [ReadBan(k, key)] + [Judge(k)] + [Pass(k)];
  }

  lemma Join(p: Penalty, path: seq<System>, events: seq<Event>, rest: seq<System>, more: seq<Event>)
    requires IsPath(p, path, events) && IsPath(p, rest, more) && path[|events|] == rest[0]
    ensures IsPath(p, path + rest[1..], events + more)
    ensures (path + rest[1..])[|events + more|] == rest[|more|]
    ensures forall i :: 0 <= i <= |more| ==> (path + rest[1..])[|events| + i] == rest[i]
  {
    var whole, all := path + rest[1..], events + more;
    forall i {:trigger all[i]} | 0 <= i < |all|
      ensures Leads(p, whole[i], all[i], whole[i + 1])
    {
      if i < |events| {
        assert all[i] == events[i] && Leads(p, path[i], events[i], path[i + 1]);
      } else {
        var j := i - |events|;
        assert all[i] == more[j] && Leads(p, rest[j], more[j], rest[j + 1]);
      }
    }
  }

  /** A call that holds an older read deletes the ban, and a new check begins. */
  lemma DeleteAndBegin(p: Penalty, s: System, k: nat, key: string) returns (path: seq<System>, events: seq<Event>)
    requires key in s.bans && s.now < s.bans[key] && HoldsOlder(PcOf(s, k), key, s.bans[key])
    ensures IsPath(p, path, events) && path[0] == s && SetsNothing(events)
    ensures var t := path[|events|];
            key !in t.bans && t.now < s.bans[key] && PcOf(t, k) == Asking(Check({}, false))
  {
    path, events := JudgeExpired(p, s, k, s.bans[key]);
    var rest, more := BeginAnew(p, path[|events|], k);
    Join(p, path, events, rest, more);
    path, events := path + rest[1..], events + more;
  }

  /** Then that check passes. */
  lemma DeleteAndPass(p: Penalty, s: System, k: nat, key: string) returns (path: seq<System>, events: seq<Event>)
    requires key in s.bans && s.now < s.bans[key] && HoldsOlder(PcOf(s, k), key, s.bans[key])
    ensures PassesBanned(p, s, key, path, events)
  {
    path, events := DeleteAndBegin(p, s, k, key);
    var rest, more := AskAndPass(p, path[|events|], k, key);
    Join(p, path, events, rest, more);
    ghost var last := |events| + 2;
    path, events := path + rest[1..], events + more;
    SettingNothingUndercutsNothing(p, path, events, key, s.bans[key]);
    assert last == |events| - 1 && events[last] == Pass(k) && path[last] == rest[2];
  }

  /**
   As long as nobody lifts or shortens an unexpired ban, a check can pass that was told the key is not banned,
   if and only if some call holds a read of an older ban of the key, or a check was told so already, or has
   read that there is none.
  */
  lemma BannedKeyPassesIff(p: Penalty, s: System, key: string)
    requires key in s.bans && s.now < s.bans[key]
    ensures (exists path, events :: PassesBanned(p, s, key, path, events)) <==>
              exists k :: HoldsOlder(PcOf(s, k), key, s.bans[key]) || MayPass(PcOf(s, k), key, s.bans[key])
  {
    if path: seq<System>, events: seq<Event> :| PassesBanned(p, s, key, path, events) {
      PassingNeedsOlder(p, s, key, path, events);
    }
    if k :| HoldsOlder(PcOf(s, k), key, s.bans[key]) || MayPass(PcOf(s, k), key, s.bans[key]) {
      if MayPass(PcOf(s, k), key, s.bans[key]) {
        var path, events := PassOn(p, s, k, key);
      } else {
        var path, events := DeleteAndPass(p, s, k, key);
      }
    }
  }

  // ---------- When a cleared log comes back ----------

  function StoredLog(s: System, key: string): seq<int> {
    Lookup(s.violations, key).GetOr([])
  }

  /** The call is about to save a log of the key with the entry `x`. */
  predicate WouldSave(p: Penalty, pc: Pc, key: string, x: int) {
    pc.Recording? && pc.key == key && x in LogWith(p, pc.log, pc.at)
  }

  ghost predicate NoViolation(events: seq<Event>, key: string) {
    forall i {:trigger events[i]} :: 0 <= i < |events| ==> !events[i].BeginViolation? || events[i].key != key
  }

  /** No violation of the key begins, and the entry `x` comes to be in its log. */
  ghost predicate BringsBack(p: Penalty, s: System, key: string, x: int, path: seq<System>, events: seq<Event>) {
    && IsPath(p, path, events) && path[0] == s && NoViolation(events, key)
    && x in StoredLog(path[|events|], key)
  }

  ghost predicate Forgotten(p: Penalty, s: System, key: string, x: int) {
    x !in StoredLog(s, key) && forall k :: !WouldSave(p, PcOf(s, k), key, x)
  }

  lemma StepForgets(p: Penalty, s: System, e: Event, t: System, key: string, x: int)
    requires Leads(p, s, e, t) && Forgotten(p, s, key, x) && (e.BeginViolation? ==> e.key != key)
    ensures Forgotten(p, t, key, x)
  {
    if e.SaveLog? {
      assert !WouldSave(p, PcOf(s, e.k), key, x);
    }
    forall k
      ensures !WouldSave(p, PcOf(t, k), key, x)
    {
      assert !WouldSave(p, PcOf(s, k), key, x);
    }
  }

  lemma {:induction false} PathForgets(p: Penalty, path: seq<System>, events: seq<Event>, n: nat, key: string, x: int)
    requires IsPath(p, path, events) && NoViolation(events, key) && n <= |events| && Forgotten(p, path[0], key, x)
    ensures Forgotten(p, path[n], key, x)
  {
    if n > 0 {
      PathForgets(p, path, events, n - 1, key, x);
      assert Leads(p, path[n - 1], events[n - 1], path[n]);
      StepForgets(p, path[n - 1], events[n - 1], path[n], key, x);
    }
  }

  lemma BringingBackNeedsReader(p: Penalty, s: System, key: string, x: int, path: seq<System>, events: seq<Event>)
    requires x !in StoredLog(s, key) && BringsBack(p, s, key, x, path, events)
    ensures exists k :: WouldSave(p, PcOf(s, k), key, x)
  {
    if Forgotten(p, s, key, x) {
      PathForgets(p, path, events, |events|, key, x);
    }
  }

  /**
   After a reset, or at any other moment, an entry that is not in the stored log comes to be in it without a
   further violation if and only if some check has read a log and will save it with that entry.
  */
  lemma LogComesBackIff(p: Penalty, s: System, key: string, x: int)
    requires x !in StoredLog(s, key)
    ensures (exists path, events :: BringsBack(p, s, key, x, path, events)) <==>
              exists k :: WouldSave(p, PcOf(s, k), key, x)
  {
    if path: seq<System>, events: seq<Event> :| BringsBack(p, s, key, x, path, events) {
      BringingBackNeedsReader(p, s, key, x, path, events);
    }
    if k :| WouldSave(p, PcOf(s, k), key, x) {
      var path, events := [s] + [Step(p, s, SaveLog(k))], [] + [SaveLog(k)];
      Extend(p, [s], [], SaveLog(k));
      assert BringsBack(p, s, key, x, path, events);
    }
  }

  // ---------- It does happen ----------

  const START := System(map[], map[], map[], None, 0)

  /** A peek reads a ban; then a longer one is set by hand. The peek may delete that one. */
  lemma PeekHoldsOlder(p: Penalty) returns (path: seq<System>, events: seq<Event>)
    ensures IsPath(p, path, events) && path[0] == START
    ensures var s := path[|events|]; s.bans == map["k" := 10] && s.now == 0 && HoldsOlder(PcOf(s, 1), "k", 10)
  {
    var first, begin, read, second := BanByHand("k", 1), BeginPeek(1), ReadBan(1, "k"), BanByHand("k", 10);
    var s := Step(p, START, first);
    Extend(p, [START], [], first);
    var t := Step(p, s, begin);
    Extend(p, [START] + [s], [] + [first], begin);
    var u := Step(p, t, read);
    Extend(p, [START] + [s] + [t], [] + [first] + [begin], read);
    Extend(p, [START] + [s] + [t] + [u], [] + [first] + [begin] + [read], second);
    path := [START] + [s] + [t] + [u] + [Step(p, u, second)];
    events := [] + [first] + [begin] + [read] + [second];
  }
}
