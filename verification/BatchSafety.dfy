/** What the batch accumulator keeps in every reachable state, and what one whole call achieves. */
module BatchSafety {
  import opened Wrappers
  import opened BatchProtocol

  // ---------- Where the items are ----------

  /** The items of all stored jobs. */
  ghost function JobItems(jobs: map<JobId, Job>): multiset<Item> {
    if jobs == map[] then multiset{}
    else
      var id :| id in jobs;
      multiset(jobs[id].items) + JobItems(jobs - {id})
  }

  lemma {:induction false} JobItemsRemove(jobs: map<JobId, Job>, id: JobId)
    requires id in jobs
    ensures JobItems(jobs) == multiset(jobs[id].items) + JobItems(jobs - {id})
    decreases jobs
  {
    var pick :| pick in jobs && JobItems(jobs) == multiset(jobs[pick].items) + JobItems(jobs - {pick});
    if pick != id {
      JobItemsRemove(jobs - {pick}, id);
      JobItemsRemove(jobs - {id}, pick);
      assert jobs - {pick} - {id} == jobs - {id} - {pick};
    }
  }

  lemma JobItemsSave(jobs: map<JobId, Job>, id: JobId, job: Job)
    ensures id !in jobs ==> JobItems(jobs[id := job]) == JobItems(jobs) + multiset(job.items)
    ensures id in jobs && jobs[id].items == job.items ==> JobItems(jobs[id := job]) == JobItems(jobs)
  {
    JobItemsRemove(jobs[id := job], id);
    if id in jobs {
      JobItemsRemove(jobs, id);
      assert jobs[id := job] - {id} == jobs - {id};
    } else {
      assert jobs[id := job] - {id} == jobs;
    }
  }

  predicate NamesStoredJob(buffer: Buffer, jobs: map<JobId, Job>) {
    buffer.flushJobId.Some? && buffer.flushJobId.value in jobs
  }

  /** Items only the buffer holds: once the job named by its marker is stored, that job holds them. */
  function Buffered(store: Store): seq<Item> {
    if store.buffer.None? || NamesStoredJob(store.buffer.value, store.jobs)
    then []
    else store.buffer.value.items
  }

  ghost function Held(store: Store): multiset<Item> {
    multiset(Buffered(store)) + JobItems(store.jobs)
  }

  /** A stored job that still has work to do was published, or its buffer still names it. */
  ghost predicate NoOrphan(store: Store) {
    forall id :: id in store.jobs && !Terminal(store.jobs[id].status) ==>
      id in store.published || (store.buffer.Some? && store.buffer.value.flushJobId == Some(id))
  }

  // ---------- Invariant ----------

  /** The lock holder's copy of the buffer is the stored one, unless it is a stale snapshot. */
  predicate Holds(store: Store, task: Task, buffer: Buffer) {
    && buffer.items != []
    && (store.buffer == Some(buffer) || (task.EngineFlush? && store.buffer.None?))
  }

  predicate FreshIds(s: System, task: Task) {
    TaskIds(task) !! s.store.jobs.Keys && TaskIds(task) <= s.issued
  }

  /** What each program point knows about the store. */
  predicate ProcOk(s: System) {
    var st := s.store;
    match s.proc
    case Idle => true
    case Begin(task) => FreshIds(s, task) && (task.EngineFlush? ==> task.snapshot.items != [])
    case Recover(task, buffer) => FreshIds(s, task) && Holds(st, task, buffer)
    case Republish(task, jobId) =>
      FreshIds(s, task) && jobId in st.jobs
      && (st.buffer.Some? ==> st.buffer.value.flushJobId == Some(jobId))
    case Drop(task) =>
      FreshIds(s, task)
      && (st.buffer.Some? ==>
            NamesStoredJob(st.buffer.value, st.jobs)
            && (Terminal(st.jobs[st.buffer.value.flushJobId.value].status)
                || st.buffer.value.flushJobId.value in st.published))
    case Unmark(task, buffer) =>
      FreshIds(s, task) && Holds(st, task, buffer)
      && !NamesStoredJob(buffer, st.jobs)
    case Recovered(task, recovered) =>
      FreshIds(s, task)
      && (recovered.None? ==> st.buffer.None?)
      && (recovered.Some? ==> recovered.value.flushJobId.None? && Holds(st, task, recovered.value))
    case Marked(items, _, jobId) =>
      && jobId !in st.jobs && jobId in s.issued
      && st.buffer.Some? && st.buffer.value.flushJobId == Some(jobId) && st.buffer.value.items == items
    case JobSaved(jobId) =>
      st.buffer.Some? && st.buffer.value.flushJobId == Some(jobId) && jobId in st.jobs
    case Published =>
      && st.buffer.Some? && NamesStoredJob(st.buffer.value, st.jobs)
      && st.buffer.value.flushJobId.value in st.published
  }

  /** The part of the invariant that does not count items. */
  ghost predicate Shape(s: System) {
    && ProcOk(s)
    && s.store.jobs.Keys <= s.issued
    && (s.store.buffer.Some? ==> s.store.buffer.value.items != [])
    && NoOrphan(s.store)
  }

  /** No stale snapshot is in use. */
  predicate Strict(s: System) {
    match s.proc
    case Recover(_, buffer) => s.store.buffer == Some(buffer)
    case Unmark(_, buffer) => s.store.buffer == Some(buffer)
    case Recovered(_, recovered) => s.store.buffer == recovered
    case _ => true
  }

  /** Every accepted item is held at least once. */
  ghost predicate NothingLost(s: System) {
    s.accepted <= Held(s.store)
  }

  /** Every accepted item is held exactly once. */
  ghost predicate Conserved(s: System) {
    s.accepted == Held(s.store)
  }

  lemma RecoverKeepsShape(s: System)
    requires Shape(s)
    requires s.proc.Begin? || s.proc.Recover? || s.proc.Republish? || s.proc.Drop? || s.proc.Unmark?
    ensures Shape(Advance(s))
  {
  }

  lemma FlushKeepsShape(s: System)
    requires Shape(s)
    requires s.proc.Recovered? || s.proc.Marked? || s.proc.JobSaved? || s.proc.Published?
    ensures Shape(Advance(s))
  {
  }

  lemma EventKeepsShape(s: System, e: Event)
    requires Shape(s) && Enabled(s, e)
    ensures Shape(Apply(s, e))
  {
    if e.DoAdvance? {
      if s.proc.Recovered? || s.proc.Marked? || s.proc.JobSaved? || s.proc.Published? {
        FlushKeepsShape(s);
      } else {
        RecoverKeepsShape(s);
      }
    }
  }

  /** The event adds to what is held what it accepts, and nothing else unless a snapshot was stale. */
  ghost predicate Accounts(s: System, s': System, before: multiset<Item>, after: multiset<Item>) {
    && before + s'.accepted <= s.accepted + after
    && (Strict(s) ==> before + s'.accepted == s.accepted + after)
  }

  lemma AddAccounts(s: System)
    requires ProcOk(s) && s.proc.Recovered? && s.proc.task.Add?
    ensures Advance(s).store.jobs == s.store.jobs
    ensures Accounts(s, Advance(s), multiset(Buffered(s.store)), multiset(Buffered(Advance(s).store)))
  {
    var Add(item, dedupKey, now) := s.proc.task;
    var buffer := s.proc.recovered.GetOr(EmptyBuffer(now));
    assert multiset(buffer.items + [item]) == multiset(buffer.items) + multiset{item};
  }

  /** No other step before the job is saved takes an item out of the buffer record. */
  lemma MoveAccounts(s: System)
    requires ProcOk(s) && !s.proc.Idle? && !s.proc.Marked? && !(s.proc.Recovered? && s.proc.task.Add?)
    ensures Advance(s).store.jobs == s.store.jobs && Advance(s).accepted == s.accepted
    ensures Buffered(s.store) == Buffered(Advance(s).store) || (s.store.buffer.None? && !Strict(s))
  {
  }

  /** Saving the job moves the items from the buffer to the job. */
  lemma SaveAccounts(s: System)
    requires ProcOk(s) && s.proc.Marked?
    ensures Held(Advance(s).store) == Held(s.store) && Advance(s).accepted == s.accepted
  {
    JobItemsSave(s.store.jobs, s.proc.jobId, Job(s.proc.items, s.proc.bufferCreatedAt, Waiting));
  }

  lemma AccountsWith(s: System, s': System, before: multiset<Item>, after: multiset<Item>, rest: multiset<Item>)
    requires Accounts(s, s', before, after)
    ensures Accounts(s, s', before + rest, after + rest)
  {
    assert before + rest + s'.accepted == before + s'.accepted + rest;
    assert s.accepted + (after + rest) == s.accepted + after + rest;
  }

  lemma AdvanceAccounts(s: System)
    requires ProcOk(s) && !s.proc.Idle?
    ensures Accounts(s, Advance(s), Held(s.store), Held(Advance(s).store))
  {
    if s.proc.Marked? {
      SaveAccounts(s);
    } else {
      if s.proc.Recovered? && s.proc.task.Add? {
        AddAccounts(s);
      } else {
        MoveAccounts(s);
      }
      AccountsWith(s, Advance(s), multiset(Buffered(s.store)), multiset(Buffered(Advance(s).store)),
                   JobItems(s.store.jobs));
    }
  }

  lemma EventAccounts(s: System, e: Event)
    requires Shape(s) && Enabled(s, e)
    ensures Accounts(s, Apply(s, e), Held(s.store), Held(Apply(s, e).store))
  {
    match e
    case DoAdvance => AdvanceAccounts(s);
    case DoSetStatus(id, status) => JobItemsSave(s.store.jobs, id, s.store.jobs[id].(status := status));
    case _ =>
  }

  lemma AccountsLoseNothing(s: System, s': System)
    requires Accounts(s, s', Held(s.store), Held(s'.store))
    ensures NothingLost(s) ==> NothingLost(s')
    ensures Strict(s) && Conserved(s) ==> Conserved(s')
  {
    forall x: Item | NothingLost(s)
      ensures s'.accepted[x] <= Held(s'.store)[x]
    {
      assert (Held(s.store) + s'.accepted)[x] <= (s.accepted + Held(s'.store))[x];
    }
    if Strict(s) && Conserved(s) {
      forall x: Item
        ensures s'.accepted[x] == Held(s'.store)[x]
      {
        assert (Held(s.store) + s'.accepted)[x] == (s.accepted + Held(s'.store))[x];
      }
    }
  }

  lemma EventKeepsStrict(s: System, e: Event)
    requires Shape(s) && Enabled(s, e) && Strict(s) && !StaleRead(s, e)
    ensures Strict(Apply(s, e))
  {
  }

  // ---------- Every run ----------

  /** Across all interleavings of calls, crashes and job progress, no accepted item is lost. */
  lemma {:induction false} RunLosesNothing(run: seq<System>, events: seq<Event>, n: nat)
    requires IsRun(run, events) && n < |run|
    ensures Shape(run[n]) && NothingLost(run[n])
  {
    if n > 0 {
      RunLosesNothing(run, events, n - 1);
      EventKeepsShape(run[n - 1], events[n - 1]);
      EventAccounts(run[n - 1], events[n - 1]);
      AccountsLoseNothing(run[n - 1], run[n]);
    }
  }

  /** As long as the engine has not fallen back to a stale snapshot, none is duplicated either. */
  lemma {:induction false} RunConserves(run: seq<System>, events: seq<Event>, n: nat)
    requires IsRun(run, events) && n < |run|
    requires forall i :: 0 <= i < n ==> !StaleRead(run[i], events[i])
    ensures Strict(run[n]) && Conserved(run[n])
  {
    if n > 0 {
      RunConserves(run, events, n - 1);
      RunLosesNothing(run, events, n - 1);
      EventKeepsStrict(run[n - 1], events[n - 1]);
      EventAccounts(run[n - 1], events[n - 1]);
      AccountsLoseNothing(run[n - 1], run[n]);
    }
  }

  /** No stored job with work to do is ever forgotten. */
  lemma RunOrphansNoJob(run: seq<System>, events: seq<Event>, n: nat)
    requires IsRun(run, events) && n < |run|
    ensures NoOrphan(run[n].store)
  {
    RunLosesNothing(run, events, n);
  }

  // ---------- One whole call ----------

  lemma {:induction false} FinishKeepsShape(s: System)
    requires Shape(s)
    ensures Shape(Finish(s)) && Finish(s).proc.Idle?
    decreases Rank(s.proc)
  {
    if !s.proc.Idle? {
      EventKeepsShape(s, DoAdvance);
      FinishKeepsShape(Advance(s));
    }
  }

  /** A completed call leaves no flush marker behind. */
  lemma {:induction false} FinishClearsMarker(s: System)
    requires Shape(s) && !s.proc.Idle?
    ensures Finish(s).store.buffer.Some? ==> Finish(s).store.buffer.value.flushJobId.None?
    decreases Rank(s.proc)
  {
    EventKeepsShape(s, DoAdvance);
    if !Advance(s).proc.Idle? {
      FinishClearsMarker(Advance(s));
    }
  }

  /** What every step of the lock holder keeps, a whole call keeps. */
  lemma {:induction false} FinishKeeps(kept: System -> bool, s: System)
    requires kept(s) && forall t: System :: kept(t) && !t.proc.Idle? ==> kept(Advance(t))
    ensures kept(Finish(s))
    decreases Rank(s.proc)
  {
    if !s.proc.Idle? {
      FinishKeeps(kept, Advance(s));
    }
  }

  ghost predicate Lossless(s: System) {
    Shape(s) && NothingLost(s)
  }

  lemma AdvanceLosesNothing(s: System)
    requires Lossless(s) && !s.proc.Idle?
    ensures Lossless(Advance(s))
  {
    assert Advance(s) == Apply(s, DoAdvance);
    EventKeepsShape(s, DoAdvance);
    AdvanceAccounts(s);
    AccountsLoseNothing(s, Advance(s));
  }

  lemma FinishLosesNothing(s: System)
    requires Lossless(s)
    ensures Lossless(Finish(s))
  {
    forall t: System | Lossless(t) && !t.proc.Idle?
      ensures Lossless(Advance(t))
    {
      AdvanceLosesNothing(t);
    }
    FinishKeeps(t => Lossless(t), s);
  }

  ghost predicate Exact(s: System) {
    Shape(s) && Strict(s) && Conserved(s) && !StaleRead(s, DoAdvance)
  }

  /** Only taking the lock begins a call. */
  lemma AdvanceLeavesBegin(s: System)
    requires !s.proc.Idle?
    ensures !Advance(s).proc.Begin?
  {
  }

  lemma AdvanceStaysConserved(s: System)
    requires Shape(s) && Strict(s) && Conserved(s) && !s.proc.Idle?
    ensures Conserved(Advance(s))
  {
    AdvanceAccounts(s);
    AccountsLoseNothing(s, Advance(s));
  }

  lemma AdvanceConserves(s: System)
    requires Exact(s) && !s.proc.Idle?
    ensures Exact(Advance(s))
  {
    assert Advance(s) == Apply(s, DoAdvance);
    EventKeepsShape(s, DoAdvance);
    EventKeepsStrict(s, DoAdvance);
    AdvanceStaysConserved(s);
    AdvanceLeavesBegin(s);
  }

  lemma FinishConserves(s: System)
    requires Exact(s)
    ensures Exact(Finish(s))
  {
    forall t: System | Exact(t) && !t.proc.Idle?
      ensures Exact(Advance(t))
    {
      AdvanceConserves(t);
    }
    FinishKeeps(t => Exact(t), s);
  }

  /**
   Whatever crash came before, one completed call of any kind republishes the job that the marker
   names: afterwards every stored job with work to do has been published.
  */
  lemma CallPublishesEveryJob(s: System, task: Task)
    requires Shape(s) && CanAcquire(s, task)
    ensures var s' := Finish(Acquire(s, task));
      && s'.proc.Idle?
      && s.store.jobs.Keys <= s'.store.jobs.Keys
      && forall id :: id in s'.store.jobs && !Terminal(s'.store.jobs[id].status) ==> id in s'.store.published
  {
    var a := Acquire(s, task);
    EventKeepsShape(s, DoAcquire(task));
    FinishKeepsShape(a);
    FinishClearsMarker(a);
    FinishKeepsJobs(a);
  }

  lemma {:induction false} FinishKeepsJobs(s: System)
    ensures s.store.jobs.Keys <= Finish(s).store.jobs.Keys
    decreases Rank(s.proc)
  {
    if !s.proc.Idle? {
      FinishKeepsJobs(Advance(s));
    }
  }

  /** A flush that nothing holds back. */
  predicate Flushing(proc: Proc) {
    match proc
    case Begin(task) => FlushTask(task)
    case Recover(task, _) => FlushTask(task)
    case Republish(task, _) => FlushTask(task)
    case Drop(task) => FlushTask(task)
    case Unmark(task, _) => FlushTask(task)
    case Recovered(task, _) => FlushTask(task)
    case Idle => false
    case _ => true
  }

  predicate FlushTask(task: Task) {
    task.ProxyFlush? || (task.EngineFlush? && task.mayFlush)
  }

  lemma {:induction false} FinishEmptiesBuffer(s: System)
    requires Shape(s) && Flushing(s.proc)
    ensures Finish(s).store.buffer.None?
    decreases Rank(s.proc)
  {
    EventKeepsShape(s, DoAdvance);
    if !Advance(s).proc.Idle? {
      FinishEmptiesBuffer(Advance(s));
    }
  }

  /**
   One completed flush after any history of crashes drains the group: the buffer record is gone,
   every accepted item sits in a stored job, and every stored job with work to do was published.
  */
  lemma FlushDrains(s: System, task: Task)
    requires Shape(s) && NothingLost(s) && CanAcquire(s, task) && FlushTask(task)
    ensures var s' := Finish(Acquire(s, task));
      && s'.store.buffer.None?
      && s'.accepted <= JobItems(s'.store.jobs)
      && (task.ProxyFlush? && Conserved(s) ==> s'.accepted == JobItems(s'.store.jobs))
      && forall id :: id in s'.store.jobs && !Terminal(s'.store.jobs[id].status) ==> id in s'.store.published
  {
    var a := Acquire(s, task);
    EventKeepsShape(s, DoAcquire(task));
    FinishEmptiesBuffer(a);
    FinishLosesNothing(a);
    if task.ProxyFlush? && Conserved(s) {
      FinishConserves(a);
    }
    CallPublishesEveryJob(s, task);
    assert multiset([]) + JobItems(Finish(a).store.jobs) == JobItems(Finish(a).store.jobs);
  }

  /** The engine would flush a snapshot of a record that another flush has already taken away. */
  predicate FlushesTwice(s: System, task: Task)
    requires task.EngineFlush?
  {
    && s.store.buffer.None?
    && !NamesStoredJob(task.snapshot, s.store.jobs)
    && (task.snapshot.flushJobId.Some? || task.mayFlush)
  }

  /** What recovery publishes for a marker that names a stored job: its id, unless it is done with. */
  function RepublishedBy(buffer: Buffer, jobs: map<JobId, Job>): seq<JobId>
    requires NamesStoredJob(buffer, jobs)
  {
    var id := buffer.flushJobId.value;
    if Terminal(jobs[id].status) then [] else [id]
  }

  /** A snapshot whose job is stored leads to that job being published again, and to nothing else. */
  lemma StaleJobIsRepublished(s: System, task: Task)
    requires task.EngineFlush? && CanAcquire(s, task)
    requires s.store.buffer.None? && NamesStoredJob(task.snapshot, s.store.jobs)
    ensures var s' := Finish(Acquire(s, task));
      && s'.store.buffer.None? && s'.store.jobs == s.store.jobs && s'.accepted == s.accepted
      && s'.store.published == s.store.published + RepublishedBy(task.snapshot, s.store.jobs)
  {
    var a := Acquire(s, task);
    var b := Advance(a);
    var c := Advance(b);
    var d := if c.proc.Republish? then Advance(c) else c;
    var e := Advance(d);
    assert Finish(a) == Finish(b) == Finish(c);
    assert Finish(c) == Finish(d) == Finish(e) == Advance(e);
  }

  /** Exactly when a completed engine flush keeps the law that each accepted item is held once. */
  lemma EngineFlushConservesIff(s: System, task: Task)
    requires Shape(s) && Conserved(s) && task.EngineFlush? && CanAcquire(s, task)
    ensures Conserved(Finish(Acquire(s, task))) <==> !FlushesTwice(s, task)
  {
    if s.store.buffer.Some? {
      EventKeepsShape(s, DoAcquire(task));
      FinishConserves(Acquire(s, task));
    } else if NamesStoredJob(task.snapshot, s.store.jobs) {
      StaleJobIsRepublished(s, task);
    } else {
      StaleFlushDuplicates(s, task);
    }
  }

  /** A reserved flush ends with the items in the new job and no buffer record. */
  lemma MarkedFinishes(s: System)
    requires s.proc.Marked? && s.proc.jobId !in s.store.jobs
    ensures Finish(s).accepted == s.accepted
    ensures Held(Finish(s).store) == JobItems(s.store.jobs) + multiset(s.proc.items)
  {
    var job := Job(s.proc.items, s.proc.bufferCreatedAt, Waiting);
    var t := Advance(Advance(Advance(s)));
    assert Finish(s) == Finish(Advance(s)) == Finish(Advance(Advance(s))) == t;
    assert t.store.jobs == s.store.jobs[s.proc.jobId := job] && t.store.buffer.None?;
    JobItemsSave(s.store.jobs, s.proc.jobId, job);
  }

  /** Without a buffer record the engine goes on with its snapshot, which it strips of its mark and saves again. */
  lemma StaleRecovers(s: System, task: Task) returns (r: System)
    requires task.EngineFlush? && CanAcquire(s, task)
    requires s.store.buffer.None? && !NamesStoredJob(task.snapshot, s.store.jobs)
    ensures Finish(Acquire(s, task)) == Finish(r)
    ensures r.proc.Recovered? && r.proc.task == task
    ensures r.proc.recovered.Some? && r.proc.recovered.value.items == task.snapshot.items
    ensures r.proc.recovered.value.flushJobId.None?
    ensures r.store.jobs == s.store.jobs && r.accepted == s.accepted
    ensures r.store.buffer == if task.snapshot.flushJobId.Some? then r.proc.recovered else None
  {
    var a := Acquire(s, task);
    var b := Advance(a);
    assert Finish(a) == Finish(b);
    if task.snapshot.flushJobId.None? {
      r := b;
    } else {
      var c := Advance(b);
      assert Finish(b) == Finish(c);
      r := Advance(c);
    }
  }

  lemma StaleFlushDuplicates(s: System, task: Task)
    requires Shape(s) && Conserved(s) && task.EngineFlush? && CanAcquire(s, task)
    requires s.store.buffer.None? && !NamesStoredJob(task.snapshot, s.store.jobs)
    ensures var s' := Finish(Acquire(s, task));
      && s'.accepted == s.accepted
      && Held(s'.store) == if FlushesTwice(s, task)
                           then Held(s.store) + multiset(task.snapshot.items)
                           else Held(s.store)
  {
    var r := StaleRecovers(s, task);
    var d := Advance(r);
    assert Finish(r) == Finish(d);
    if task.mayFlush {
      assert d.proc.jobId !in s.store.jobs;
      MarkedFinishes(d);
    }
  }

  const LISTED := Buffer(["a"], [], 0, 0, None, None)
  const ADDED := System(Store(Some(LISTED), map[], []), Idle, multiset{"a"}, {})

  lemma FirstAdd()
    ensures Finish(Acquire(INIT, Add("a", None, 0))) == ADDED
  {
    var begin := Acquire(INIT, Add("a", None, 0));
    assert [] + ["a"] == ["a"];
    assert Finish(begin) == Finish(Advance(begin)) == Advance(Advance(begin));
  }

  lemma ThenFlush()
    ensures var flushed := Finish(Acquire(ADDED, ProxyFlush("job-1", 1)));
      && Shape(flushed) && flushed.proc.Idle? && flushed.store.buffer.None?
      && flushed.accepted == multiset{"a"} == Held(flushed.store) && flushed.issued == {"job-1"}
  {
    var flush := Acquire(ADDED, ProxyFlush("job-1", 1));
    assert Shape(ADDED) && Conserved(ADDED);
    EventKeepsShape(ADDED, DoAcquire(ProxyFlush("job-1", 1)));
    FinishKeepsShape(flush);
    FinishKeepsHistory(flush);
    FinishConserves(flush);
    FinishEmptiesBuffer(flush);
  }

  /**
   The law does fail: the tick lists the buffer, the proxy flushes it, and the tick's own flush then
   falls back to what it had listed. The accepted item ends up in two jobs.
  */
  lemma StaleSnapshotExample()
    ensures var added := Finish(Acquire(INIT, Add("a", None, 0)));
            var flushed := Finish(Acquire(added, ProxyFlush("job-1", 1)));
            var tick := EngineFlush(LISTED, true, "job-2", 2);
      && added.store.buffer == Some(LISTED)
      && CanAcquire(flushed, tick)
      && flushed.accepted == multiset{"a"} == Held(flushed.store)
      && Held(Finish(Acquire(flushed, tick)).store) == multiset{"a", "a"}
  {
    FirstAdd();
    ThenFlush();
    StaleFlushDuplicates(Finish(Acquire(ADDED, ProxyFlush("job-1", 1))), EngineFlush(LISTED, true, "job-2", 2));
    assert multiset{"a"} + multiset(["a"]) == multiset{"a", "a"};
  }

  /** Only `add` accepts items, and ids are drawn only when the lock is taken. */
  lemma {:induction false} FinishKeepsHistory(s: System)
    ensures Finish(s).issued == s.issued
    ensures s.accepted <= Finish(s).accepted
    ensures (Flushing(s.proc) || s.proc.Idle?) ==> Finish(s).accepted == s.accepted
    decreases Rank(s.proc)
  {
    if !s.proc.Idle? {
      FinishKeepsHistory(Advance(s));
    }
  }
}
