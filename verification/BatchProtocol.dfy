/**
 The persisted batch accumulator, one group of one batch definition, as a state machine.

 Every `await` of `addToBuffer`, of the proxy's `flush`, of the engine's `flushBuffer` and of
 `recoverMarkedFlush` is one step of `Advance`. A crash may happen between any two of them: it
 drops the running procedure and frees the buffer lock, and leaves the store as it is. Between any
 two steps the job executor may also move a stored job to another status.
*/
module BatchProtocol {
  import opened Wrappers

  // ---------- Records ----------

  /** An item as it is stored: its serialised form. */
  type Item = string

  type JobId = string

  datatype Status =
    | Waiting | WaitingChildren | Active | Running | Delayed | Paused | Stalled
    | Completed | Failed | Cancelled

  predicate Terminal(status: Status) {
    status.Completed? || status.Failed? || status.Cancelled?
  }

  datatype Buffer = Buffer(
    items: seq<Item>,
    dedupeKeys: seq<string>,
    firstItemAt: int,
    lastItemAt: int,
    flushJobId: Option<JobId>,
    flushingAt: Option<int>)

  datatype Job = Job(items: seq<Item>, bufferCreatedAt: int, status: Status)

  /** What survives a crash: the group's buffer record, its stored jobs and the broker's log. */
  datatype Store = Store(buffer: Option<Buffer>, jobs: map<JobId, Job>, published: seq<JobId>)

  // ---------- Procedures ----------

  /** A call that holds, or is about to take, the buffer lock. `jobId` is the id it would draw. */
  datatype Task =
    | Add(item: Item, dedupKey: Option<string>, now: int)
    | ProxyFlush(jobId: JobId, now: int)
      // `snapshot` was listed before the lock was taken; `mayFlush` is the answer of the throttle
      // gate and of the backpressure count.
    | EngineFlush(snapshot: Buffer, mayFlush: bool, jobId: JobId, now: int)

  /** Where the lock holder stands. */
  datatype Proc =
    | Idle
    | Begin(task: Task)
    | Recover(task: Task, buffer: Buffer)
    | Republish(task: Task, jobId: JobId)
    | Drop(task: Task)
    | Unmark(task: Task, buffer: Buffer)
    | Recovered(task: Task, recovered: Option<Buffer>)
    | Marked(items: seq<Item>, bufferCreatedAt: int, jobId: JobId)
    | JobSaved(jobId: JobId)
    | Published

  /** `accepted` and `issued` record the past: the items `add` has stored, the ids ever drawn. */
  datatype System = System(store: Store, proc: Proc, accepted: multiset<Item>, issued: set<JobId>)

  function TaskIds(task: Task): set<JobId> {
    if task.Add? then {} else {task.jobId}
  }

  function EmptyBuffer(now: int): Buffer {
    Buffer([], [], now, now, None, None)
  }

  predicate Duplicate(buffer: Buffer, dedupKey: Option<string>) {
    Given(dedupKey) && dedupKey.value in buffer.dedupeKeys
  }

  function Push(buffer: Buffer, item: Item, dedupKey: Option<string>, now: int): Buffer {
    buffer.(items := buffer.items + [item],
            dedupeKeys := if Given(dedupKey) then buffer.dedupeKeys + [dedupKey.value] else buffer.dedupeKeys,
            lastItemAt := now)
  }

  // ---------- Steps ----------

  /** One step of the lock holder. */
  function Advance(s: System): System
    requires !s.proc.Idle?
  {
    var st := s.store;
    match s.proc
    case Begin(task) =>
      var found := if task.EngineFlush? then Some(st.buffer.GetOr(task.snapshot)) else st.buffer;
      if found.Some? && found.value.flushJobId.Some?
      then s.(proc := Recover(task, found.value))
      else s.(proc := Recovered(task, found))
    case Recover(task, buffer) =>
      if buffer.flushJobId.Some? && buffer.flushJobId.value in st.jobs
      then s.(proc := if Terminal(st.jobs[buffer.flushJobId.value].status)
                      then Drop(task)
                      else Republish(task, buffer.flushJobId.value))
      else s.(proc := Unmark(task, buffer))
    case Republish(task, jobId) =>
      s.(store := st.(published := st.published + [jobId]), proc := Drop(task))
    case Drop(task) =>
      s.(store := st.(buffer := None), proc := Recovered(task, None))
    case Unmark(task, buffer) =>
      var clean := buffer.(flushJobId := None, flushingAt := None);
      s.(store := st.(buffer := Some(clean)), proc := Recovered(task, Some(clean)))
    case Recovered(task, recovered) => Act(s, task, recovered)
    case Marked(items, bufferCreatedAt, jobId) =>
      s.(store := st.(jobs := st.jobs[jobId := Job(items, bufferCreatedAt, Waiting)]), proc := JobSaved(jobId))
    case JobSaved(jobId) =>
      s.(store := st.(published := st.published + [jobId]), proc := Published)
    case Published =>
      s.(store := st.(buffer := None), proc := Idle)
  }

  /** The step after recovery: an `add` stores its item, a flush reserves its job id. */
  function Act(s: System, task: Task, recovered: Option<Buffer>): System {
    match task
    case Add(item, dedupKey, now) =>
      var buffer := recovered.GetOr(EmptyBuffer(now));
      if Duplicate(buffer, dedupKey)
      then s.(proc := Idle)
      else s.(store := s.store.(buffer := Some(Push(buffer, item, dedupKey, now))),
              proc := Idle,
              accepted := s.accepted + multiset{item})
    case _ =>
      if recovered.None? || recovered.value.items == [] || (task.EngineFlush? && !task.mayFlush)
      then s.(proc := Idle)
      else s.(store := s.store.(buffer := Some(recovered.value.(flushJobId := Some(task.jobId),
                                                                flushingAt := Some(task.now)))),
              proc := Marked(recovered.value.items, recovered.value.firstItemAt, task.jobId))
  }

  /**
   The lock is free, the id the call will draw is new, and the engine passes a snapshot only when
   it holds items.
  */
  predicate CanAcquire(s: System, task: Task) {
    && s.proc.Idle?
    && TaskIds(task) !! s.issued
    && (task.EngineFlush? ==> task.snapshot.items != [])
  }

  function Acquire(s: System, task: Task): System {
    s.(proc := Begin(task), issued := s.issued + TaskIds(task))
  }

  function SetStatus(s: System, id: JobId, status: Status): System
    requires id in s.store.jobs
  {
    s.(store := s.store.(jobs := s.store.jobs[id := s.store.jobs[id].(status := status)]))
  }

  datatype Event =
    | DoAcquire(task: Task)
    | DoAdvance
    | DoCrash
    | DoSetStatus(id: JobId, status: Status)

  predicate Enabled(s: System, e: Event) {
    match e
    case DoAcquire(task) => CanAcquire(s, task)
    case DoAdvance => !s.proc.Idle?
    case DoCrash => true
    case DoSetStatus(id, status) =>
      id in s.store.jobs && (Terminal(s.store.jobs[id].status) ==> Terminal(status))
  }

  function Apply(s: System, e: Event): System
    requires Enabled(s, e)
  {
    match e
    case DoAcquire(task) => Acquire(s, task)
    case DoAdvance => Advance(s)
    case DoCrash => s.(proc := Idle)
    case DoSetStatus(id, status) => SetStatus(s, id, status)
  }

  const INIT: System := System(Store(None, map[], []), Idle, multiset{}, {})

  /** The states of a run that starts empty and takes the events in order. */
  ghost predicate IsRun(run: seq<System>, events: seq<Event>) {
    && |run| == |events| + 1
    && run[0] == INIT
    && forall i :: 0 <= i < |events| ==> Enabled(run[i], events[i]) && run[i + 1] == Apply(run[i], events[i])
  }

  /** The engine holds the lock, finds no buffer record and falls back to its snapshot. */
  predicate StaleRead(s: System, e: Event) {
    e.DoAdvance? && s.proc.Begin? && s.proc.task.EngineFlush? && s.store.buffer.None?
  }

  // ---------- One whole call ----------

  /** How many steps the lock holder still has at most. */
  function Rank(proc: Proc): nat {
    match proc
    case Begin(_) => 8
    case Recover(_, _) => 7
    case Republish(_, _) => 6
    case Drop(_) => 5
    case Unmark(_, _) => 5
    case Recovered(_, _) => 4
    case Marked(_, _, _) => 3
    case JobSaved(_) => 2
    case Published => 1
    case Idle => 0
  }

  /** The lock holder runs to its end without a crash. */
  function Finish(s: System): System
    decreases Rank(s.proc)
  {
    if s.proc.Idle? then s else Finish(Advance(s))
  }
}
