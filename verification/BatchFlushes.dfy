/**
 What a flush leaves in the records: which items go into which job, and what a crash between two of its
 writes finds.
*/
module BatchFlushes {
  import opened Wrappers
  import opened BatchProtocol
  import BatchGroup

  /** The buffer that a flush finds: the record, or what the engine had listed when the record is gone. */
  function FoundBy(store: Store, task: Task): Option<Buffer> {
    if task.EngineFlush? && store.buffer.None? then Some(task.snapshot) else store.buffer
  }

  /** An earlier flush saved its job and did not come to its end. */
  predicate Interrupted(store: Store, found: Option<Buffer>) {
    found.Some? && found.value.flushJobId.Some? && found.value.flushJobId.value in store.jobs
  }

  predicate IsFinished(status: Status) {
    status == Completed || status == Failed || status == Cancelled
  }

  /**
   A completed flush does one of three things. When an earlier one was interrupted after its job was saved, it
   completes that one: the buffer goes, and the job is published unless it is finished. Otherwise, when there
   are items and the gate is open, a waiting job gets exactly the items and the time of the first, it is
   published, and the buffer goes. Otherwise only a left-over mark goes.
  */
  lemma FlushSaves(s: System, task: Task)
    requires s.proc.Idle? && !task.Add?
    ensures var t, found := Finish(Acquire(s, task)), FoundBy(s.store, task);
            && t == System(t.store, Idle, s.accepted, s.issued + {task.jobId})
            && t.store ==
               if Interrupted(s.store, found) then
                 var jobId := found.value.flushJobId.value;
                 Store(None, s.store.jobs,
                       s.store.published + if IsFinished(s.store.jobs[jobId].status) then [] else [jobId])
               else if found.Some? && found.value.items != [] && (task.EngineFlush? ==> task.mayFlush) then
                 Store(None, s.store.jobs[task.jobId := Job(found.value.items, found.value.firstItemAt, Waiting)],
                       s.store.published + [task.jobId])
               else if found.Some? && found.value.flushJobId.Some? then
                 s.store.(buffer := Some(found.value.(flushJobId := None, flushingAt := None)))
               else s.store
  {
    var start, found := Acquire(s, task), FoundBy(s.store, task);
    var recovered := if Interrupted(s.store, found) then None
                     else if found.Some? && found.value.flushJobId.Some?
                     then Some(found.value.(flushJobId := None, flushingAt := None))
                     else found;
    var store := if Interrupted(s.store, found) then
                   Store(None, s.store.jobs,
                         s.store.published + if IsFinished(s.store.jobs[found.value.flushJobId.value].status) then []
                                             else [found.value.flushJobId.value])
                 else if found.Some? && found.value.flushJobId.Some? then s.store.(buffer := recovered)
                 else s.store;
    var end := start.(store := store, proc := Recovered(task, recovered));
    BatchGroup.RecoveryRuns(start, end);
    FlushActs(end);
  }

  /** The job that a flush saves. */
  function JobOf(buffer: Buffer): Job {
    Job(buffer.items, buffer.firstItemAt, Waiting)
  }

  /** After recovery a flush with items ends with their job, and one without, or held back, ends at once. */
  lemma FlushActs(s: System)
    requires s.proc.Recovered? && !s.proc.task.Add?
    ensures var task, recovered := s.proc.task, s.proc.recovered;
            Finish(s) == if recovered.Some? && recovered.value.items != [] && (task.EngineFlush? ==> task.mayFlush)
                         then System(Store(None, s.store.jobs[task.jobId := JobOf(recovered.value)],
                                           s.store.published + [task.jobId]),
                                     Idle, s.accepted, s.issued)
                         else s.(proc := Idle)
  {
    var a := Advance(s);
    assert Finish(s) == Finish(a);
    if a.proc.Marked? {
      FourWrites(s);
      assert Finish(a) == Finish(Advance(a)) == Finish(Advance(Advance(a)));
      assert Finish(Advance(Advance(a))) == Advance(Advance(Advance(a)));
    }
  }

  /**
   What a crash may find: the mark with the job's id and the time before the job is saved, both until it is
   published and the buffer is deleted.
  */
  lemma FourWrites(s: System)
    requires s.proc.Recovered? && !s.proc.task.Add?
    requires var task, recovered := s.proc.task, s.proc.recovered;
      recovered.Some? && recovered.value.items != [] && (task.EngineFlush? ==> task.mayFlush)
    ensures var jobId, b := s.proc.task.jobId, s.proc.recovered.value;
            var marked := b.(flushJobId := Some(jobId), flushingAt := Some(s.proc.task.now));
            var jobs := s.store.jobs[jobId := Job(b.items, b.firstItemAt, Waiting)];
            var published := s.store.published + [jobId];
            var one := Advance(s);
            && one.store == Store(Some(marked), s.store.jobs, s.store.published) && !one.proc.Idle?
            && var two := Advance(one);
               && two.store == Store(Some(marked), jobs, s.store.published) && !two.proc.Idle?
               && var three := Advance(two);
                  && three.store == Store(Some(marked), jobs, published) && !three.proc.Idle?
                  && Advance(three) == System(Store(None, jobs, published), Idle, s.accepted, s.issued)
  {
  }

  /** An add completes an interrupted flush like any other call, and publishes nothing else. */
  lemma AddCompletesFlush(s: System, item: Item, key: Option<string>, now: int)
    requires s.proc.Idle?
    ensures var t := Finish(Acquire(s, Add(item, key, now)));
            && t.store.jobs == s.store.jobs && t.issued == s.issued
            && t.store.published ==
               if Interrupted(s.store, s.store.buffer)
                  && !IsFinished(s.store.jobs[s.store.buffer.value.flushJobId.value].status)
               then s.store.published + [s.store.buffer.value.flushJobId.value]
               else s.store.published
  {
    var task := Add(item, key, now);
    var start, found := Acquire(s, task), s.store.buffer;
    var recovered := if Interrupted(s.store, found) then None
                     else if found.Some? && found.value.flushJobId.Some?
                     then Some(found.value.(flushJobId := None, flushingAt := None))
                     else found;
    var published := if Interrupted(s.store, found) && !IsFinished(s.store.jobs[found.value.flushJobId.value].status)
                     then s.store.published + [found.value.flushJobId.value] else s.store.published;
    assert s.store.published + [] == s.store.published;
    var end := start.(store := Store(recovered, s.store.jobs, published), proc := Recovered(task, recovered));
    BatchGroup.RecoveryRuns(start, end);
    assert Finish(end) == Advance(end);
  }
}
