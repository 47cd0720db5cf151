/**
 How a queue or worker engine claims jobs for one queue. A poll is a call with several awaits; while
 it waits, jobs end, are cancelled or stall, and further polls are started. Each event below is what
 happens between two awaits.
*/
module ClaimLoop {
  import opened Wrappers

  type Id = string

  datatype Config = Config(concurrency: int, batchSize: Option<int>, blocking: bool)

  /** What the stored job says about a claimed id. */
  datatype Verdict = Missing | WrongEnvironment | Valid

  /** Where one poll stands. */
  datatype Pc =
    | Done
    | Claiming(limit: int)
    | ClaimingRest(limit: int, first: Id)
    | Checking(ids: seq<Id>, next: nat, valid: seq<Id>)

  /**
   `active` is the set that counts against the concurrency, `running` the handlers that have not ended,
   each with the number of the execution it belongs to.
  */
  datatype System = System(
    polling: bool,
    polls: map<nat, Pc>,
    active: set<Id>,
    running: set<(nat, Id)>,
    executions: nat,
    acked: seq<Id>,
    nacked: seq<Id>)

  const START := System(false, map[], {}, {}, 0, [], [])

  function PcOf(s: System, k: nat): Pc {
    if k in s.polls then s.polls[k] else Done
  }

  datatype Event =
    | Begin(k: nat, budget: Option<int>)
    | FirstClaimed(k: nat, first: Option<Id>)
    | Claimed(k: nat, ids: seq<Id>)
    | Checked(k: nat, verdict: Verdict)
    | Fail(k: nat)
    | Complete(execution: nat)
    | Release(id: Id)

  function Min(a: int, b: int): int {
    if a < b then a else b
  }

  /** How many jobs a poll may claim; `budget` is what the throttle gate allows. */
  function Limit(c: Config, active: nat, budget: Option<int>): int {
    var free := c.concurrency - active;
    var limit := if c.batchSize.Some? then Min(free, c.batchSize.value) else free;
    if budget.Some? then Min(limit, budget.value) else limit
  }

  /** The broker hands out no more than it was asked for, and nothing for less than one. */
  predicate Enabled(c: Config, s: System, e: Event) {
    match e
    case Begin(k, _) => PcOf(s, k).Done?
    case FirstClaimed(k, _) => c.blocking && PcOf(s, k).Claiming?
    case Claimed(k, ids) =>
      (PcOf(s, k).ClaimingRest? && (|ids| == 0 || |ids| <= PcOf(s, k).limit - 1))
      || (!c.blocking && PcOf(s, k).Claiming? && (|ids| == 0 || |ids| <= PcOf(s, k).limit))
    case Checked(k, _) => PcOf(s, k).Checking?
    case Fail(k) => !PcOf(s, k).Done?
    case Complete(e) => true
    case Release(id) => true
  }

  /** The end of a poll, by return or by an error. */
  function Finish(s: System, k: nat): System {
    s.(polls := s.polls[k := Done], polling := false)
  }

  function Goto(s: System, k: nat, pc: Pc): System {
    s.(polls := s.polls[k := pc])
  }

  /** The claimed ids are at hand. */
  function Fetched(s: System, k: nat, ids: seq<Id>): System {
    if ids == [] then Finish(s, k) else Goto(s, k, Checking(ids, 0, []))
  }

  function AsSet(ids: seq<Id>): set<Id> {
    set id | id in ids
  }

  /** Every claimed id has been looked up: track the valid ones and start their handlers. */
  function Track(c: Config, s: System, k: nat, valid: seq<Id>): System {
    Finish(s.(active := s.active + AsSet(valid),
              running := s.running + set i | 0 <= i < |valid| ::
                           (s.executions + if c.batchSize.Some? then 0 else i, valid[i]),
              executions := s.executions + |valid|), k)
  }

  function Step(c: Config, s: System, e: Event): System
    requires Enabled(c, s, e)
  {
    match e
    case Begin(k, budget) =>
      var limit := Limit(c, |s.active|, budget);
      if s.polling || c.concurrency - |s.active| <= 0 || (budget.Some? && limit <= 0) then s
      else s.(polling := true, polls := s.polls[k := Claiming(limit)])
    case FirstClaimed(k, first) =>
      var limit := PcOf(s, k).limit;
      if first.None? then Finish(s, k)
      else if limit > 1 then Goto(s, k, ClaimingRest(limit, first.value))
      else Fetched(s, k, [first.value])
    case Claimed(k, ids) =>
      Fetched(s, k, if PcOf(s, k).ClaimingRest? then [PcOf(s, k).first] + ids else ids)
    case Checked(k, verdict) =>
      var pc := PcOf(s, k);
      if pc.next >= |pc.ids| then s
      else
        var id := pc.ids[pc.next];
        var valid := if verdict.Valid? then pc.valid + [id] else pc.valid;
        var t := match verdict
          case Missing => s.(acked := s.acked + [id])
          case WrongEnvironment => s.(nacked := s.nacked + [id])
          case Valid => s;
        if pc.next + 1 < |pc.ids| then Goto(t, k, Checking(pc.ids, pc.next + 1, valid))
        else if valid == [] then Finish(t, k)
        else Track(c, t, k, valid)
    case Fail(k) => Finish(s, k)
    case Complete(n) =>
      s.(active := s.active - set h | h in s.running && h.0 == n :: h.1,
         running := set h | h in s.running && h.0 != n)
    case Release(id) => s.(active := s.active - {id})
  }

  predicate Leads(c: Config, s: System, e: Event, t: System) {
    Enabled(c, s, e) && t == Step(c, s, e)
  }

  /** The systems that the events lead through, from any system. */
  ghost predicate IsPath(c: Config, path: seq<System>, events: seq<Event>) {
    && |path| == |events| + 1
    && forall i {:trigger events[i]} :: 0 <= i < |events| ==> Leads(c, path[i], events[i], path[i + 1])
  }

  ghost predicate IsRun(c: Config, run: seq<System>, events: seq<Event>) {
    IsPath(c, run, events) && run[0] == START
  }

  // ---------- The concurrency bound ----------

  /** How many more jobs a poll may still add to the active set. */
  function Capacity(pc: Pc): nat {
    match pc
    case Done => 0
    case Claiming(limit) => if limit < 1 then 1 else limit
    case ClaimingRest(limit, _) => if limit < 1 then 1 else limit
    case Checking(ids, next, valid) => |valid| + (if next < |ids| then |ids| - next else 0)
  }

  /** One poll at a time is past the guard, and it has room for what it asked for. */
  ghost predicate Bounded(c: Config, s: System) {
    && (forall j, k :: j != k ==> AtMostOne(s, j, k))
    && (forall k :: HasRoom(c, s, k))
    && (s.active == {} || |s.active| <= c.concurrency)
  }

  predicate AtMostOne(s: System, j: nat, k: nat) {
    PcOf(s, j).Done? || PcOf(s, k).Done?
  }

  predicate HasRoom(c: Config, s: System, k: nat) {
    !PcOf(s, k).Done? ==> s.polling && |s.active| + Capacity(PcOf(s, k)) <= c.concurrency
  }

  lemma AsSetSize(ids: seq<Id>)
    ensures |AsSet(ids)| <= |ids|
  {
    if ids != [] {
      var rest := ids[..|ids| - 1];
      AsSetSize(rest);
      assert ids == rest + [ids[|ids| - 1]];
      assert AsSet(ids) == AsSet(rest) + {ids[|ids| - 1]};
    }
  }

  lemma UnionSize(a: set<Id>, b: set<Id>)
    ensures |a + b| <= |a| + |b|
  {
    assert a + b == a + (b - a);
    assert |b - a| <= |b| by {
      SubsetSize(b - a, b);
    }
  }

  lemma {:induction false} SubsetSize(a: set<Id>, b: set<Id>)
    requires a <= b
    ensures |a| <= |b|
  {
    if a != {} {
      var x :| x in a;
      SubsetSize(a - {x}, b - {x});
    }
  }

  lemma ClaimerHasRoom(c: Config, s: System, e: Event)
    requires Enabled(c, s, e) && (e.FirstClaimed? || e.Claimed?) && HasRoom(c, s, e.k)
    ensures HasRoom(c, Step(c, s, e), e.k) && Step(c, s, e).active == s.active
  {
  }

  lemma CheckerHasRoom(c: Config, s: System, e: Event)
    requires Enabled(c, s, e) && e.Checked? && HasRoom(c, s, e.k)
    ensures HasRoom(c, Step(c, s, e), e.k) && |Step(c, s, e).active| <= c.concurrency
  {
    var pc := PcOf(s, e.k);
    if pc.next + 1 == |pc.ids| {
      var valid := if e.verdict.Valid? then pc.valid + [pc.ids[pc.next]] else pc.valid;
      AsSetSize(valid);
      UnionSize(s.active, AsSet(valid));
    }
  }

  /** The pc of the poll that moves stays within the room it had. */
  lemma MoverHasRoom(c: Config, s: System, e: Event, k: nat)
    requires Enabled(c, s, e) && Bounded(c, s) && (e.FirstClaimed? || e.Claimed? || e.Checked?) && e.k == k
    ensures HasRoom(c, Step(c, s, e), k)
    ensures |Step(c, s, e).active| <= c.concurrency
  {
    assert HasRoom(c, s, k);
    if e.Checked? {
      CheckerHasRoom(c, s, e);
    } else {
      ClaimerHasRoom(c, s, e);
    }
  }

  lemma BeginKeepsBound(c: Config, s: System, e: Event)
    requires Enabled(c, s, e) && Bounded(c, s) && e.Begin?
    ensures Bounded(c, Step(c, s, e))
  {
    var t := Step(c, s, e);
    forall j: nat, k: nat | j != k
      ensures AtMostOne(t, j, k)
    {
      assert AtMostOne(s, j, k) && HasRoom(c, s, j) && HasRoom(c, s, k);
    }
    forall k
      ensures HasRoom(c, t, k)
    {
      assert HasRoom(c, s, k);
    }
  }

  predicate Moves(e: Event) {
    e.FirstClaimed? || e.Claimed? || e.Checked? || e.Fail?
  }

  /** While one poll moves, every other is over. */
  lemma OthersAreDone(c: Config, s: System, e: Event, k: nat)
    requires Enabled(c, s, e) && Bounded(c, s) && Moves(e) && k != e.k
    ensures PcOf(Step(c, s, e), k).Done?
  {
    assert AtMostOne(s, k, e.k);
  }

  lemma MoveKeepsBound(c: Config, s: System, e: Event)
    requires Enabled(c, s, e) && Bounded(c, s) && Moves(e)
    ensures Bounded(c, Step(c, s, e))
  {
    var t := Step(c, s, e);
    forall j: nat, k: nat | j != k
      ensures AtMostOne(t, j, k)
    {
      OthersAreDone(c, s, e, if j == e.k then k else j);
    }
    if !e.Fail? {
      MoverHasRoom(c, s, e, e.k);
    }
    forall k
      ensures HasRoom(c, t, k)
    {
      if k != e.k {
        OthersAreDone(c, s, e, k);
      }
    }
  }

  lemma LossKeepsBound(c: Config, s: System, e: Event)
    requires Enabled(c, s, e) && Bounded(c, s) && (e.Complete? || e.Release?)
    ensures Bounded(c, Step(c, s, e))
  {
    var t := Step(c, s, e);
    SubsetSize(t.active, s.active);
    forall j: nat, k: nat | j != k
      ensures AtMostOne(t, j, k)
    {
      assert AtMostOne(s, j, k);
    }
    forall k
      ensures HasRoom(c, t, k)
    {
      assert HasRoom(c, s, k);
    }
  }

  lemma StepKeepsBound(c: Config, s: System, e: Event)
    requires Enabled(c, s, e) && Bounded(c, s)
    ensures Bounded(c, Step(c, s, e))
  {
    if e.Begin? {
      BeginKeepsBound(c, s, e);
    } else if e.Complete? || e.Release? {
      LossKeepsBound(c, s, e);
    } else {
      MoveKeepsBound(c, s, e);
    }
  }

  lemma {:induction false} PathStaysBounded(c: Config, path: seq<System>, events: seq<Event>, n: nat)
    requires IsPath(c, path, events) && n <= |events| && Bounded(c, path[0])
    ensures Bounded(c, path[n])
  {
    if n > 0 {
      PathStaysBounded(c, path, events, n - 1);
      assert Leads(c, path[n - 1], events[n - 1], path[n]);
      StepKeepsBound(c, path[n - 1], events[n - 1]);
    }
  }

  /** However polls, endings, cancellations and stalls interleave, the active set stays within the concurrency. */
  lemma ActiveWithinConcurrency(c: Config, run: seq<System>, events: seq<Event>, n: nat)
    requires IsRun(c, run, events) && n <= |events|
    ensures run[n].active == {} || |run[n].active| <= c.concurrency
    ensures forall j, k :: j != k ==> PcOf(run[n], j).Done? || PcOf(run[n], k).Done?
  {
    PathStaysBounded(c, run, events, n);
    forall j: nat, k: nat | j != k
      ensures PcOf(run[n], j).Done? || PcOf(run[n], k).Done?
    {
      assert AtMostOne(run[n], j, k);
    }
  }

  // ---------- Every claimed id is accounted for ----------

  predicate HandledBy(s: System, valid: seq<Id>, id: Id) {
    id in s.acked || id in s.nacked || id in valid
  }

  /** The ids a poll has looked up so far were acked, nacked, or are waiting to be tracked. */
  predicate Accounted(s: System, k: nat) {
    var pc := PcOf(s, k);
    pc.Checking? ==> pc.next < |pc.ids| && forall i :: 0 <= i < pc.next ==> HandledBy(s, pc.valid, pc.ids[i])
  }

  lemma StepAccounts(c: Config, s: System, e: Event, k: nat)
    requires Enabled(c, s, e) && Accounted(s, k)
    ensures Accounted(Step(c, s, e), k)
  {
  }

  lemma {:induction false} RunAccounts(c: Config, run: seq<System>, events: seq<Event>, n: nat, k: nat)
    requires IsRun(c, run, events) && n <= |events|
    ensures Accounted(run[n], k)
  {
    if n > 0 {
      RunAccounts(c, run, events, n - 1, k);
      assert Leads(c, run[n - 1], events[n - 1], run[n]);
      StepAccounts(c, run[n - 1], events[n - 1], k);
    }
  }

  /** The step looks up the last of the ids that a poll claimed. */
  predicate LastCheck(s: System, e: Event) {
    e.Checked? && PcOf(s, e.k).Checking? && PcOf(s, e.k).next + 1 == |PcOf(s, e.k).ids|
  }

  /** When a poll ends without an error, each id it claimed was acked, was nacked, or is active and running. */
  lemma ClaimedIsAccountedFor(c: Config, run: seq<System>, events: seq<Event>, n: nat, id: Id)
    requires IsRun(c, run, events) && n < |events| && LastCheck(run[n], events[n])
    requires id in PcOf(run[n], events[n].k).ids
    ensures PcOf(run[n + 1], events[n].k).Done? && !run[n + 1].polling
    ensures || id in run[n + 1].acked
            || id in run[n + 1].nacked
            || (id in run[n + 1].active && exists h :: h in run[n + 1].running && h.1 == id)
  {
    var s, e := run[n], events[n];
    assert Leads(c, s, e, run[n + 1]);
    RunAccounts(c, run, events, n, e.k);
    var pc := PcOf(s, e.k);
    var valid := if e.verdict.Valid? then pc.valid + [pc.ids[pc.next]] else pc.valid;
    var i :| 0 <= i < |pc.ids| && pc.ids[i] == id;
    assert i < pc.next ==> HandledBy(s, pc.valid, pc.ids[i]);
    if id in valid {
      var j :| 0 <= j < |valid| && valid[j] == id;
      assert (s.executions + if c.batchSize.Some? then 0 else j, valid[j]) in run[n + 1].running;
    }
  }

  // ---------- Handlers that run ----------

  /** The ids whose handlers the event starts. */
  function Tracked(s: System, e: Event): seq<Id> {
    if !LastCheck(s, e) then []
    else if e.verdict.Valid? then PcOf(s, e.k).valid + [PcOf(s, e.k).ids[PcOf(s, e.k).next]]
    else PcOf(s, e.k).valid
  }

  /** No handler is started for an id that is active or twice at once, and nothing is released early. */
  predicate Orderly(s: System, e: Event) {
    !e.Release? && NewIds(s, Tracked(s, e))
  }

  predicate NewIds(s: System, ids: seq<Id>) {
    (forall i :: 0 <= i < |ids| ==> ids[i] !in s.active) && (forall i, j :: 0 <= i < j < |ids| ==> ids[i] != ids[j])
  }

  ghost predicate OrderlyPath(c: Config, path: seq<System>, events: seq<Event>) {
    IsPath(c, path, events) && forall i {:trigger events[i]} :: 0 <= i < |events| ==> Orderly(path[i], events[i])
  }

  /** Each running handler is the only one of an active id. */
  ghost predicate OneHandlerEach(s: System) {
    && (forall g, h :: g in s.running && h in s.running && g.1 == h.1 ==> g == h)
    && (forall h :: h in s.running ==> h.1 in s.active)
  }

  /** Executions are numbered as they start. */
  ghost predicate Numbered(s: System) {
    forall h :: h in s.running ==> h.0 < s.executions
  }

  ghost predicate Runs(s: System, id: Id) {
    exists h :: h in s.running && h.1 == id
  }

  /** Each active id has a running handler. */
  ghost predicate ActiveRun(s: System) {
    forall id :: id in s.active ==> Runs(s, id)
  }

  lemma TrackKeepsHandlers(c: Config, s: System, k: nat, valid: seq<Id>)
    requires Numbered(s) && ActiveRun(s)
    ensures Numbered(Track(c, s, k, valid)) && ActiveRun(Track(c, s, k, valid))
    ensures OneHandlerEach(s) && NewIds(s, valid) ==> OneHandlerEach(Track(c, s, k, valid))
  {
    var t := Track(c, s, k, valid);
    forall id | id in t.active
      ensures Runs(t, id)
    {
      if id in s.active {
        var h :| h in s.running && h.1 == id;
        assert h in t.running;
      } else {
        var i :| 0 <= i < |valid| && valid[i] == id;
        assert (s.executions + if c.batchSize.Some? then 0 else i, valid[i]) in t.running;
      }
    }
  }

  lemma CompleteKeepsHandlers(c: Config, s: System, n: nat)
    requires Numbered(s) && ActiveRun(s)
    ensures Numbered(Step(c, s, Complete(n))) && ActiveRun(Step(c, s, Complete(n)))
    ensures OneHandlerEach(s) ==> OneHandlerEach(Step(c, s, Complete(n)))
  {
    var t := Step(c, s, Complete(n));
    forall id | id in t.active
      ensures Runs(t, id)
    {
      var h :| h in s.running && h.1 == id;
      assert h in t.running;
    }
  }

  lemma CheckKeepsHandlers(c: Config, s: System, e: Event)
    requires Numbered(s) && ActiveRun(s) && Enabled(c, s, e) && e.Checked?
    ensures Numbered(Step(c, s, e)) && ActiveRun(Step(c, s, e))
    ensures OneHandlerEach(s) && Orderly(s, e) ==> OneHandlerEach(Step(c, s, e))
  {
    var t := Step(c, s, e);
    if LastCheck(s, e) && Tracked(s, e) != [] {
      var id := PcOf(s, e.k).ids[PcOf(s, e.k).next];
      var u := match e.verdict
        case Missing => s.(acked := s.acked + [id])
        case WrongEnvironment => s.(nacked := s.nacked + [id])
        case Valid => s;
      SameHandlers(s, u);
      TrackKeepsHandlers(c, u, e.k, Tracked(s, e));
      assert t == Track(c, u, e.k, Tracked(s, e));
    } else {
      SameHandlers(s, t);
    }
  }

  lemma SameHandlers(s: System, t: System)
    requires t.running == s.running && t.active == s.active && t.executions == s.executions
    ensures Numbered(s) == Numbered(t) && OneHandlerEach(s) == OneHandlerEach(t)
    ensures ActiveRun(s) ==> ActiveRun(t)
  {
    assert forall id :: Runs(s, id) ==> Runs(t, id);
  }

  lemma StepKeepsHandlers(c: Config, s: System, e: Event)
    requires Numbered(s) && ActiveRun(s) && Enabled(c, s, e)
    ensures Numbered(Step(c, s, e)) && ActiveRun(Step(c, s, e))
    ensures OneHandlerEach(s) && Orderly(s, e) ==> OneHandlerEach(Step(c, s, e))
  {
    var t := Step(c, s, e);
    if e.Checked? {
      CheckKeepsHandlers(c, s, e);
    } else if e.Complete? {
      CompleteKeepsHandlers(c, s, e.execution);
    } else if e.Release? {
      assert forall id :: Runs(s, id) ==> Runs(t, id);
    } else {
      SameHandlers(s, t);
    }
  }

  lemma {:induction false} PathKeepsHandlers(c: Config, path: seq<System>, events: seq<Event>, n: nat)
    requires IsPath(c, path, events) && n <= |events| && Numbered(path[0]) && ActiveRun(path[0])
    ensures Numbered(path[n]) && ActiveRun(path[n])
    ensures OrderlyPath(c, path, events) && OneHandlerEach(path[0]) ==> OneHandlerEach(path[n])
  {
    if n > 0 {
      PathKeepsHandlers(c, path, events, n - 1);
      assert Leads(c, path[n - 1], events[n - 1], path[n]);
      StepKeepsHandlers(c, path[n - 1], events[n - 1]);
    }
  }

  lemma {:induction false} OneEachIsSmaller(running: set<(nat, Id)>, active: set<Id>)
    requires forall g, h :: g in running && h in running && g.1 == h.1 ==> g == h
    requires forall h :: h in running ==> h.1 in active
    ensures |running| <= |active|
  {
    if running != {} {
      var h :| h in running;
      OneEachIsSmaller(running - {h}, active - {h.1});
    }
  }

  lemma {:induction false} CoverIsLarger(running: set<(nat, Id)>, active: set<Id>)
    requires forall id :: id in active ==> exists h :: h in running && h.1 == id
    ensures |active| <= |running|
  {
    if active != {} {
      var id :| id in active;
      var h :| h in running && h.1 == id;
      forall other | other in active - {id}
        ensures exists g :: g in running - {h} && g.1 == other
      {
        var g :| g in running && g.1 == other;
      }
      CoverIsLarger(running - {h}, active - {id});
    }
  }

  /** A handler more than the active ids need makes the handlers outnumber them. */
  lemma ExtraHandlerOutnumbers(s: System)
    requires ActiveRun(s) && !OneHandlerEach(s)
    ensures |s.running| > |s.active|
  {
    var extra :| extra in s.running
      && (extra.1 !in s.active || exists h :: h in s.running && h != extra && h.1 == extra.1);
    forall id | id in s.active
      ensures exists h :: h in s.running - {extra} && h.1 == id
    {
      assert Runs(s, id);
      var h :| h in s.running && h.1 == id && h != extra;
    }
    CoverIsLarger(s.running - {extra}, s.active);
  }

  function NotNegative(n: int): nat {
    if n < 0 then 0 else n
  }

  /** More handlers run than the concurrency allows. */
  predicate Exceeds(c: Config, s: System) {
    |s.running| > NotNegative(c.concurrency)
  }

  /** In an orderly run no more handlers run at once than the concurrency allows. */
  lemma HandlersWithinConcurrency(c: Config, path: seq<System>, events: seq<Event>, n: nat)
    requires OrderlyPath(c, path, events) && n <= |events|
    requires Bounded(c, path[0]) && Numbered(path[0]) && ActiveRun(path[0]) && OneHandlerEach(path[0])
    ensures !Exceeds(c, path[n])
  {
    PathKeepsHandlers(c, path, events, n);
    PathStaysBounded(c, path, events, n);
    OneEachIsSmaller(path[n].running, path[n].active);
  }

  // ---------- When the handlers can exceed the concurrency ----------

  /** The poll is one that this configuration can bring to a claim. */
  predicate PollOk(c: Config, s: System, k: nat) {
    match PcOf(s, k)
    case Done => true
    case Claiming(limit) => c.batchSize.Some? ==> limit <= c.batchSize.value
    case ClaimingRest(_, _) => c.blocking
    case Checking(_, _, _) => CanClaim(c)
  }

  predicate CanClaim(c: Config) {
    c.blocking || (c.batchSize.Some? ==> c.batchSize.value >= 1)
  }

  /** The guard is taken only while some poll is under way, and handlers run only where jobs can be claimed. */
  ghost predicate PollsOk(c: Config, s: System) {
    && (forall k :: PollOk(c, s, k))
    && (s.polling ==> exists k :: !PcOf(s, k).Done?)
    && (s.running != {} ==> CanClaim(c))
  }

  lemma PollStaysOk(c: Config, s: System, e: Event, k: nat)
    requires Enabled(c, s, e) && PollOk(c, s, k)
    ensures PollOk(c, Step(c, s, e), k)
  {
  }

  lemma RunnersNeedClaims(c: Config, s: System, e: Event)
    requires Enabled(c, s, e) && (s.running != {} ==> CanClaim(c)) && (e.Checked? ==> PollOk(c, s, e.k))
    ensures Step(c, s, e).running != {} ==> CanClaim(c)
  {
  }

  lemma StepKeepsPolls(c: Config, s: System, e: Event)
    requires PollsOk(c, s) && Enabled(c, s, e)
    ensures PollsOk(c, Step(c, s, e))
  {
    var t := Step(c, s, e);
    forall k
      ensures PollOk(c, t, k)
    {
      assert PollOk(c, s, k);
      PollStaysOk(c, s, e, k);
    }
    if t.polling {
      KeepsAPoll(c, s, e);
    }
    assert e.Checked? ==> PollOk(c, s, e.k);
    RunnersNeedClaims(c, s, e);
  }

  lemma KeepsAPoll(c: Config, s: System, e: Event)
    requires PollsOk(c, s) && Enabled(c, s, e) && Step(c, s, e).polling
    ensures exists k :: !PcOf(Step(c, s, e), k).Done?
  {
    var t := Step(c, s, e);
    if s.polling {
      var k :| !PcOf(s, k).Done?;
      var moved := if e.FirstClaimed? || e.Claimed? || e.Checked? then e.k else k;
      assert !PcOf(t, moved).Done?;
    } else {
      assert !PcOf(t, e.k).Done?;
    }
  }

  lemma {:induction false} RunKeepsAll(c: Config, run: seq<System>, events: seq<Event>, n: nat)
    requires IsRun(c, run, events) && n <= |events|
    ensures PollsOk(c, run[n]) && Bounded(c, run[n]) && Numbered(run[n]) && ActiveRun(run[n])
  {
    PathStaysBounded(c, run, events, n);
    PathKeepsHandlers(c, run, events, n);
    if n > 0 {
      RunKeepsAll(c, run, events, n - 1);
      assert Leads(c, run[n - 1], events[n - 1], run[n]);
      StepKeepsPolls(c, run[n - 1], events[n - 1]);
    }
  }

  lemma Extend(c: Config, path: seq<System>, events: seq<Event>, e: Event)
    requires IsPath(c, path, events) && Enabled(c, path[|events|], e)
    ensures IsPath(c, path + [Step(c, path[|events|], e)], events + [e])
    ensures OrderlyPath(c, path, events) && Orderly(path[|events|], e) ==>
              OrderlyPath(c, path + [Step(c, path[|events|], e)], events + [e])
  {
  }

  /** No poll is under way. */
  ghost predicate Quiet(s: System) {
    !s.polling && forall k :: PcOf(s, k).Done?
  }

  /** The poll under way, if there is one, fails. */
  lemma EndPoll(c: Config, s: System) returns (path: seq<System>, events: seq<Event>)
    requires PollsOk(c, s) && Bounded(c, s)
    ensures OrderlyPath(c, path, events) && path[0] == s
    ensures var t := path[|events|];
            Quiet(t) && t.active == s.active && t.running == s.running && t.executions == s.executions
  {
    path, events := [s], [];
    if k :| !PcOf(s, k).Done? {
      var t := Step(c, s, Fail(k));
      forall j
        ensures PcOf(t, j).Done?
      {
        assert j != k ==> AtMostOne(s, j, k);
      }
      Extend(c, path, events, Fail(k));
      path, events := path + [t], events + [Fail(k)];
    }
  }

  /** The broker answers a poll with one id. */
  lemma Receive(c: Config, path: seq<System>, events: seq<Event>, id: Id)
    returns (path': seq<System>, events': seq<Event>)
    requires OrderlyPath(c, path, events) && CanClaim(c)
    requires var s := path[|events|];
             PcOf(s, 0) == Claiming(Limit(c, |s.active|, None)) && |s.active| < c.concurrency
    ensures OrderlyPath(c, path', events') && path' != [] && path'[0] == path[0]
    ensures path'[|events'|] == Goto(path[|events|], 0, Checking([id], 0, []))
  {
    var s := path[|events|];
    if c.blocking {
      Extend(c, path, events, FirstClaimed(0, Some(id)));
      var t := Step(c, s, FirstClaimed(0, Some(id)));
      path', events' := path + [t], events + [FirstClaimed(0, Some(id))];
      if PcOf(t, 0).ClaimingRest? {
        Extend(c, path', events', Claimed(0, []));
        assert [id] + [] == [id];
        var u := Step(c, t, Claimed(0, []));
        assert u.polls == s.polls[0 := Checking([id], 0, [])];
        path', events' := path' + [u], events' + [Claimed(0, [])];
      }
    } else {
      Extend(c, path, events, Claimed(0, [id]));
      path', events' := path + [Step(c, s, Claimed(0, [id]))], events + [Claimed(0, [id])];
    }
  }

  /** With a free slot the engine polls, claims one fresh job and starts it. */
  lemma ClaimOne(c: Config, path: seq<System>, events: seq<Event>, id: Id)
    returns (path': seq<System>, events': seq<Event>)
    requires OrderlyPath(c, path, events) && CanClaim(c)
    requires var s := path[|events|]; Quiet(s) && |s.active| < c.concurrency && id !in s.active
    ensures OrderlyPath(c, path', events') && path' != [] && path'[0] == path[0]
    ensures var s, t := path[|events|], path'[|events'|];
            && Quiet(t) && t.active == s.active + {id} && t.executions == s.executions + 1
            && t.running == s.running + {(s.executions, id)}
  {
    var s := path[|events|];
    Extend(c, path, events, Begin(0, None));
    var t := Step(c, s, Begin(0, None));
    assert (path + [t])[|events + [Begin(0, None)]|] == t;
    var p, es := Receive(c, path + [t], events + [Begin(0, None)], id);
    var u := Goto(t, 0, Checking([id], 0, []));
    CheckOne(c, u, id);
    Extend(c, p, es, Checked(0, Valid));
    var v := Step(c, u, Checked(0, Valid));
    path', events' := p + [v], es + [Checked(0, Valid)];
    assert t.polls == s.polls[0 := Claiming(Limit(c, |s.active|, None))];
    QuietAgain(s, v, PcOf(t, 0), PcOf(u, 0));
  }

  lemma QuietAgain(s: System, t: System, a: Pc, b: Pc)
    requires Quiet(s) && !t.polling && t.polls == s.polls[0 := a][0 := b][0 := Done]
    ensures Quiet(t)
  {
    forall k
      ensures PcOf(t, k).Done?
    {
      assert PcOf(s, k).Done?;
    }
  }

  /** The one claimed job is found valid and started. */
  lemma CheckOne(c: Config, u: System, id: Id)
    requires PcOf(u, 0) == Checking([id], 0, []) && id !in u.active
    ensures Orderly(u, Checked(0, Valid))
    ensures var v := Step(c, u, Checked(0, Valid));
            && !v.polling && v.polls == u.polls[0 := Done] && v.executions == u.executions + 1
            && v.active == u.active + {id} && v.running == u.running + {(u.executions, id)}
  {
    assert [] + [id] == [id];
    assert Tracked(u, Checked(0, Valid)) == [id];
    TrackOne(c, u, id);
    assert Step(c, u, Checked(0, Valid)) == Track(c, u, 0, [id]);
  }

  lemma TrackOne(c: Config, s: System, id: Id)
    ensures var t := Track(c, s, 0, [id]);
            && t.active == s.active + {id} && t.running == s.running + {(s.executions, id)}
            && t.executions == s.executions + 1
  {
    assert AsSet([id]) == {id};
    assert (set i | 0 <= i < |[id]| :: (s.executions + if c.batchSize.Some? then 0 else i, [id][i]))
        == {(s.executions, id)};
  }

  function Repeated(n: nat): Id {
    if n == 0 then "" else Repeated(n - 1) + "x"
  }

  lemma {:induction false} RepeatedLength(n: nat)
    ensures |Repeated(n)| == n
  {
    if n > 0 {
      RepeatedLength(n - 1);
    }
  }

  /** There is always an id that is not in use. */
  lemma {:induction false} LongerThanAll(ids: set<Id>) returns (n: nat)
    ensures forall id :: id in ids ==> |id| < n
  {
    if ids == {} {
      n := 0;
    } else {
      var id :| id in ids;
      var m := LongerThanAll(ids - {id});
      n := if |id| < m then m else |id| + 1;
    }
  }

  /** Fresh jobs are claimed until no slot is free. */
  lemma {:induction false} FillSlots(c: Config, path: seq<System>, events: seq<Event>)
    returns (path': seq<System>, events': seq<Event>)
    requires OrderlyPath(c, path, events) && CanClaim(c) && Quiet(path[|events|]) && Numbered(path[|events|])
    ensures OrderlyPath(c, path', events') && path' != [] && path'[0] == path[0]
    ensures var s, t := path[|events|], path'[|events'|];
            && |t.active| >= c.concurrency
            && |t.running| - |t.active| == |s.running| - |s.active|
    decreases c.concurrency - |path[|events|].active|
  {
    var s := path[|events|];
    if |s.active| >= c.concurrency {
      path', events' := path, events;
    } else {
      var n := LongerThanAll(s.active);
      RepeatedLength(n);
      var p, es := ClaimOne(c, path, events, Repeated(n));
      assert (s.executions, Repeated(n)) !in s.running;
      path', events' := FillSlots(c, p, es);
    }
  }

  /** The events lead from `s`, in order, to more handlers than the concurrency allows. */
  ghost predicate LeadsToExcess(c: Config, s: System, path: seq<System>, events: seq<Event>) {
    OrderlyPath(c, path, events) && path[0] == s && Exceeds(c, path[|events|])
  }

  /**
   In any reachable state: without releasing anything early and without claiming an active id again, the
   engine can still come to run more handlers than its concurrency, if and only if some running handler is
   not the only one of an active id.
  */
  lemma ExcessIff(c: Config, run: seq<System>, events: seq<Event>, n: nat)
    requires IsRun(c, run, events) && n <= |events|
    ensures (exists path, moves :: LeadsToExcess(c, run[n], path, moves)) <==> !OneHandlerEach(run[n])
  {
    var s := run[n];
    RunKeepsAll(c, run, events, n);
    if path: seq<System>, moves: seq<Event> :| LeadsToExcess(c, s, path, moves) {
      ExcessNeedsExtra(c, s, path, moves);
    }
    if !OneHandlerEach(s) {
      ExtraHandlerOutnumbers(s);
      var path, moves := EndPoll(c, s);
      assert path[|moves|].running != {};
      path, moves := FillSlots(c, path, moves);
      assert LeadsToExcess(c, s, path, moves);
    }
  }

  lemma ExcessNeedsExtra(c: Config, s: System, path: seq<System>, moves: seq<Event>)
    requires Bounded(c, s) && Numbered(s) && ActiveRun(s) && LeadsToExcess(c, s, path, moves)
    ensures !OneHandlerEach(s)
  {
    if OneHandlerEach(s) {
      HandlersWithinConcurrency(c, path, moves, |moves|);
    }
  }

  /** A job is claimed, stalls, and is claimed again, while its first handler still runs. */
  lemma StalledAndReclaimed(c: Config) returns (run: seq<System>, events: seq<Event>)
    requires c == Config(1, None, false)
    ensures IsRun(c, run, events) && Quiet(run[|events|])
    ensures run[|events|].running == {(0, "a"), (1, "a")} && run[|events|].executions == 2
    ensures run[|events|].active == {"a"}
  {
    run, events := ClaimOne(c, [START], [], "a");
    Extend(c, run, events, Release("a"));
    var s := Step(c, run[|events|], Release("a"));
    QuietStays(c, run[|events|], Release("a"));
    run, events := run + [s], events + [Release("a")];
    var p, es := ClaimOne(c, [s], [], "a");
    Join(c, run, events, p, es);
    run, events := run + p[1..], events + es;
  }

  /**
   Such states are reached by a stall. With concurrency 1, a job that stalled is claimed again; then the
   first handler ends at last and removes the id that the second one counts on, so that a third may start.
  */
  lemma LateEndingExceedsConcurrency() returns (run: seq<System>, events: seq<Event>)
    ensures IsRun(Config(1, None, false), run, events)
    ensures run[|events|].running == {(1, "a"), (2, "b")}
  {
    var c := Config(1, None, false);
    run, events := StalledAndReclaimed(c);
    var s := run[|events|];
    var t := Step(c, s, Complete(0));
    Extend(c, run, events, Complete(0));
    QuietStays(c, s, Complete(0));
    LateEnding(c, s);
    run, events := run + [t], events + [Complete(0)];
    var q, fs := ClaimOne(c, [t], [], "b");
    Join(c, run, events, q, fs);
    run, events := run + q[1..], events + fs;
  }

  lemma LateEnding(c: Config, s: System)
    requires s.running == {(0, "a"), (1, "a")} && s.active <= {"a"}
    ensures var t := Step(c, s, Complete(0)); t.running == {(1, "a")} && t.active == {} && t.executions == s.executions
  {
    assert (set h | h in s.running && h.0 == 0 :: h.1) == {"a"} by {
      assert (0, "a") in s.running;
    }
  }

  lemma QuietStays(c: Config, s: System, e: Event)
    requires Quiet(s) && (e.Release? || e.Complete?)
    ensures Quiet(Step(c, s, e))
  {
    assert forall k :: PcOf(Step(c, s, e), k) == PcOf(s, k);
  }

  lemma Join(c: Config, path: seq<System>, events: seq<Event>, more: seq<System>, moves: seq<Event>)
    requires IsPath(c, path, events) && IsPath(c, more, moves) && path[|events|] == more[0]
    ensures IsPath(c, path + more[1..], events + moves)
    ensures (path + more[1..])[|events + moves|] == more[|moves|] && (path + more[1..])[0] == path[0]
  {
    var p, es := path + more[1..], events + moves;
    forall i | 0 <= i < |es|
      ensures Leads(c, p[i], es[i], p[i + 1])
    {
      if i < |events| {
        assert es[i] == events[i];
      } else {
        assert es[i] == moves[i - |events|];
      }
    }
  }
}
