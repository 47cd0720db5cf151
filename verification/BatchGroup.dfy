/**
 The storage records of one batch group and the calls that change them, in the order in which the
 program writes. Each call is proved to end where the state machine of `BatchProtocol` ends.
*/
module BatchGroup {
  import opened Wrappers
  import opened BatchProtocol

  class Group {
    var buffer: Option<Buffer>
    var jobs: map<JobId, Job>
    var published: seq<JobId>
    ghost var accepted: multiset<Item>
    ghost var issued: set<JobId>

    /** The machine state in which the lock holder, if any, stands at `proc`. */
    ghost function At(proc: Proc): System
      reads this
    {
      System(Store(buffer, jobs, published), proc, accepted, issued)
    }

    constructor ()
      ensures At(Idle) == INIT
    {
      buffer, jobs, published, accepted, issued := None, map[], [], multiset{}, {};
    }

    /** Settles what a crashed flush left behind; the result is the buffer to go on with. */
    method RecoverMarkedFlush(found: Buffer) returns (recovered: Option<Buffer>)
      modifies this
      ensures unchanged(`jobs, `accepted, `issued)
      ensures found.flushJobId.None? ==> recovered == Some(found) && unchanged(`buffer, `published)
      ensures found.flushJobId.Some? && found.flushJobId.value in jobs ==>
                && recovered == None && buffer == None
                && published == old(published)
                   + if Terminal(jobs[found.flushJobId.value].status) then [] else [found.flushJobId.value]
      ensures found.flushJobId.Some? && found.flushJobId.value !in jobs ==>
                && recovered == Some(found.(flushJobId := None, flushingAt := None))
                && buffer == recovered && unchanged(`published)
    {
      if found.flushJobId.None? {
        return Some(found);
      }
      if found.flushJobId.value in jobs {
        if !Terminal(jobs[found.flushJobId.value].status) {
          published := published + [found.flushJobId.value];
        }
        buffer := None;
        return None;
      }
      buffer := Some(found.(flushJobId := None, flushingAt := None));
      return buffer;
    }

    /** `add` in persisted mode. */
    method AddToBuffer(item: Item, dedupKey: Option<string>, now: int)
      modifies this
      ensures At(Idle) == Finish(Acquire(old(At(Idle)), Add(item, dedupKey, now)))
    {
      ghost var task := Add(item, dedupKey, now);
      ghost var start := Acquire(At(Idle), task);
      var recovered: Option<Buffer> := None;
      if buffer.Some? {
        recovered := RecoverMarkedFlush(buffer.value);
      }
      RecoveryRuns(start, At(Recovered(task, recovered)));

      var current := recovered.GetOr(EmptyBuffer(now));
      if Given(dedupKey) && dedupKey.value in current.dedupeKeys {
        return;
      }
      var items := current.items + [item];
      var keys := current.dedupeKeys;
      if Given(dedupKey) {
        keys := keys + [dedupKey.value];
      }
      buffer := Some(current.(items := items, dedupeKeys := keys, lastItemAt := now));
      accepted := accepted + multiset{item};
    }

    /** The proxy's `flush` in persisted mode, without a `beforeFlush` hook. */
    method Flush(jobId: JobId, now: int)
      requires jobId !in issued
      modifies this
      ensures At(Idle) == Finish(Acquire(old(At(Idle)), ProxyFlush(jobId, now)))
    {
      ghost var task := ProxyFlush(jobId, now);
      ghost var start := Acquire(At(Idle), task);
      issued := issued + {jobId};
      var recovered: Option<Buffer> := None;
      if buffer.Some? {
        recovered := RecoverMarkedFlush(buffer.value);
      }
      RecoveryRuns(start, At(Recovered(task, recovered)));
      if recovered.None? || recovered.value.items == [] {
        return;
      }
      FlushItems(recovered.value, jobId, now);
    }

    /** The engine's `flushBuffer`, called with what it listed before it took the lock. */
    method FlushBuffer(snapshot: Buffer, mayFlush: bool, jobId: JobId, now: int)
      requires jobId !in issued && snapshot.items != []
      modifies this
      ensures At(Idle) == Finish(Acquire(old(At(Idle)), EngineFlush(snapshot, mayFlush, jobId, now)))
    {
      ghost var task := EngineFlush(snapshot, mayFlush, jobId, now);
      ghost var start := Acquire(At(Idle), task);
      issued := issued + {jobId};
      var found := buffer.GetOr(snapshot);
      var recovered := RecoverMarkedFlush(found);
      RecoveryRuns(start, At(Recovered(task, recovered)));
      if recovered.None? || recovered.value.items == [] {
        return;
      }
      if !mayFlush {
        return;
      }
      FlushItems(recovered.value, jobId, now);
    }

    /** Reserve, save the job, publish, delete the buffer: the four writes of a flush. */
    method FlushItems(recovered: Buffer, jobId: JobId, now: int)
      modifies this
      ensures unchanged(`accepted, `issued)
      ensures At(Idle) ==
              Finish(System(Store(Some(recovered.(flushJobId := Some(jobId), flushingAt := Some(now))),
                                  old(jobs), old(published)),
                            Marked(recovered.items, recovered.firstItemAt, jobId), accepted, issued))
    {
      buffer := Some(recovered.(flushJobId := Some(jobId), flushingAt := Some(now)));
      ghost var marked := At(Marked(recovered.items, recovered.firstItemAt, jobId));
      jobs := jobs[jobId := Job(recovered.items, recovered.firstItemAt, Waiting)];
      published := published + [jobId];
      buffer := None;
      assert Finish(marked) == Finish(Advance(marked)) == Finish(Advance(Advance(marked)));
    }
  }

  /** Recovery takes the machine from the start of a call to the point after recovery. */
  lemma RecoveryRuns(start: System, end: System)
    requires start.proc.Begin? && end.proc.Recovered? && end.proc.task == start.proc.task
    requires var task := start.proc.task;
             var found := if task.EngineFlush? then Some(start.store.buffer.GetOr(task.snapshot))
                          else start.store.buffer;
      && end.accepted == start.accepted && end.issued == start.issued
      && end.store.jobs == start.store.jobs
      && if found.None? || found.value.flushJobId.None? then
           end.proc.recovered == found && end.store == start.store
         else if found.value.flushJobId.value in start.store.jobs then
           && end.proc.recovered == None && end.store.buffer == None
           && end.store.published == start.store.published
                + if Terminal(start.store.jobs[found.value.flushJobId.value].status) then []
                  else [found.value.flushJobId.value]
         else
           && end.proc.recovered == Some(found.value.(flushJobId := None, flushingAt := None))
           && end.store.buffer == end.proc.recovered
           && end.store.published == start.store.published
    ensures Finish(start) == Finish(end)
  {
    var a := Advance(start);
    assert Finish(start) == Finish(a);
    if a.proc.Recover? {
      var b := Advance(a);
      var c := Advance(b);
      assert Finish(a) == Finish(b) == Finish(c);
      if c.proc.Drop? {
        assert Finish(c) == Finish(Advance(c));
        assert Advance(c) == end;
      } else {
        assert c == end;
      }
    }
  }
}
