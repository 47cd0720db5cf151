# OqronKit verification

A Dafny model of the state machines at the core of OqronKit, with proofs of what they keep over whole runs.
Storage is a set of maps, the broker a log of what was published, a lock excludes other holders, and the
clock is an integer that never falls. `dafny verify dfyconfig.toml` checks everything.

## What is modelled

**Batch accumulator** (`BatchProtocol`, `BatchSafety`, `BatchAdds`, `BatchFlushes`, `BatchGroup`). One group
of one persisted batch. A flush is four writes: mark the buffer with a job id, save the job, publish it,
delete the buffer. The machine takes them one at a time; a crash may follow any of them. No accepted item is
lost in any run, none is duplicated unless the engine falls back to a snapshot of a buffer that is gone, and
no stored job is forgotten. When the fallback does duplicate is stated exactly, with a run that shows it. An
add is accepted if and only if its deduplication key is absent, empty, or was not given to the present buffer
by an accepted add; a completed flush puts exactly the buffered items into its job. The class `Group` makes
the same writes on fields and is proved to end where the machine ends.

**Topic engine** (`Topic`, `TopicInvariants`, `TopicOutcomes`, `TopicPublishing`, `TopicPlacement`,
`TopicLog`, `TopicSeek`, `TopicEngine`, `TornPublish`, `TornRecords`, `CursorInterleaving`, `CursorAlone`,
`CursorReversal`). A partitioned log with deliveries per group and a committed cursor. `Topic` says what each
operation does to the records and `TopicEngine` does it step by step on fields. `TopicOutcomes`,
`TopicPublishing` and `TopicPlacement` state, record by record, what becomes of a delivery that is handled,
what a publish stores, and which messages a seek or a subscription hands out. With whole operations as steps
the cursor crosses only what was settled, stops only where it must, gets past deliveries once they are acked
in whatever order, and no message is skipped, also across seeks and dead-letter retries. The stored offsets
are 1..head if and only if no publish took an offset and then found its message id in use; such a gap holds
up every group before it until a seek. A seek by time replays exactly the right messages if and only if no
partition has an earlier message behind a later one across the cutoff. A crash inside a publish may leave its
message without deliveries: in runs with crashes a message beyond a cursor lacks its delivery if and only if
its publish was torn before that delivery and no subscribe, resume or seek of the group came after. With the
reads and writes of the group record as steps, a cursor that no seek has moved still crosses only what was
settled, in every interleaving. It can go back, though, and a seek can be undone: exactly when some call
holds a copy of the group record with a smaller offset, or, if no settled delivery is opened again, one
from which its scan ends before the cursor. An unsettled delivery can be crossed if and only if some call
holds an offset beyond it.

**Event matcher** (`EventMatcher`, `EventMatcherProofs`, `GlobDocumentation`). A segment glob becomes the
text of an anchored regular expression, which is parsed and run as sections 22.2.1 and 22.2.2 of ECMA-262
say. The compiled expression accepts exactly the events whose segments match. The documentation says that
`**` matches one or more segments and that a bare `*` or `**` matches everything; inside a pattern `**`
does not cross a line terminator, although `*` does, and `*` does not match an empty segment. The meaning
proved is that of the code; it is the documented one for every pattern if and only if the event is one
segment, or all its segments are non-empty and free of line terminators.

**Cache** (`Lru`, `LruRecency`, `LruInclusion`, `CacheState`, `CacheTiers`, `CacheEngine`,
`CacheRefinement`). On every trace the LRU holds its entries in the order of their last use, evicts those
used longest ago, and has the inclusion property. `CacheTiers` says entry by entry what each call leaves in
the two tiers and in the tag records. The first tier is invisible: whatever its size, whatever the clock does
and whatever is called, answers, L2 and tag index are the same. A tag invalidation leaves no entry with one
of the tags; it deletes nothing else if and only if the index lists only carriers, which holds as long as no
`set` replaces a stored record by one without one of its tags. As long as the live keys that an invalidation
lists are carriers, the two tiers and the tag index answer like one flat map.

**Rate limiter** (`RateAlgorithms`, `RateBounds`, `RateProgress`, `PenaltyLog`, `PenaltyRuns`,
`PenaltyInterleaving`, `PenaltyExclusion`, `SharedCounters`, `RateLimiter`). Each algorithm's grants are
bounded in every interval of every run, and it refuses only what it must: a window exactly what its grants
leave no room for, a bucket only what exceeds its size and the refill since it was full; a cost that was
refused is allowed once enough intervals have passed. With counters apart the peek-then-commit check over
several tiers is all or nothing, for each of the three algorithms, with a clock that may move whenever it is
read. Counters are apart when the tier names are distinct and hold no colon; a check over two tiers that run
together ends half committed. At a fixed clock a check over tiers that share counters is allowed if and only
if no tier is banned and, for each, its usage and the cost times the number of tiers up to it on its counter
fit its maximum. Every call's effect on bans and violations is specified, so that over runs of calls that do
not overlap the stored log of a key is the log of that key's events, a violation bans exactly when enough of
them lie in the window, and no check passes a key before its ban has expired. Only `check` holds the lock,
which keeps checks apart. With each read and write as a step, a ban that nobody lifts or shortens can vanish
before its time if and only if some call holds a read of an older one, it can be passed if and only if that
is so or a check was already told of no ban, and a cleared log entry comes back if and only if some check has
read the log before.

**Claim loop** (`ClaimLoop`, `ClaimOutcomes`). The polls of a queue or worker engine, with endings,
cancellations and stalls between their awaits. The active set stays within the concurrency. When a poll has
looked up what it claimed, exactly the ids without a job were acked, exactly those of another environment
were nacked, and exactly the others became active, however it interleaves. The number of running handlers
stays within the concurrency when nothing is released early; without further releases it can come to exceed
it if and only if some running handler is not the only one of an active id, as it is after a stall.

**Circuit breaker, duration statistics, missed runs** (`CircuitBreaker`, `DurationRingBuffer`,
`FloatIndex`, `MissedFire`). After any history that ends with one failure too many the circuit answers OPEN
until the reset timeout and HALF_OPEN right after it. The documentation allows one probe in HALF_OPEN by
default; the code lets two callers through, and after the probes are used up it answers OPEN only once before
it lets callers through again.

`Wrappers` and `Arithmetic` hold shared definitions and facts.

## Model

| member | source | states |
|---|---|---|
| `BatchGroup.Group.RecoverMarkedFlush` | packages/oqronkit/src/batch/define-batch.ts:149-174 | an unmarked buffer is handed back and nothing changes; a mark that names a stored job deletes the buffer and publishes the job unless it is finished; any other mark is removed and the buffer saved and handed back |
| `BatchGroup.RecoveryRuns` | packages/oqronkit/src/batch/batch-engine.ts:146-175 | the machine, run from the start of a call, passes through the state that recovery leaves |
| `BatchGroup.Group.AddToBuffer` | packages/oqronkit/src/batch/define-batch.ts:213-250 | the records after `add` are those in which the machine's whole `add` call ends |
| `BatchGroup.Group.Flush` | packages/oqronkit/src/batch/define-batch.ts:328-386 | the records after the proxy's flush are those in which the machine's call ends |
| `BatchGroup.Group.FlushBuffer` | packages/oqronkit/src/batch/batch-engine.ts:544-617 | the same for the engine's flush, including the fallback to the listed snapshot and a gate that holds it back |
| `BatchGroup.Group.FlushItems` | packages/oqronkit/src/batch/batch-engine.ts:594-614 | reserve, save, publish and delete leave the records in which the machine ends after recovery |
| `BatchSafety.EventKeepsShape` | packages/oqronkit/src/batch/define-batch.ts:149-385 | every single write, crash, lock and job status change keeps what each program point knows about the store, fresh ids, and that no job is an orphan |
| `BatchSafety.EventAccounts` | packages/oqronkit/src/batch/define-batch.ts:213-385 | every event adds to the held items at least what it accepts, and exactly that unless a stale snapshot is in use |
| `BatchSafety.RunLosesNothing` | packages/oqronkit/src/batch/define-batch.ts:149-385 | in every reachable state, also after crashes, the accepted items are a sub-multiset of buffered items plus items of stored jobs |
| `BatchSafety.RunConserves` | packages/oqronkit/src/batch/batch-engine.ts:550-616 | without a stale snapshot they are equal as multisets: nothing lost, nothing duplicated |
| `BatchSafety.RunOrphansNoJob` | packages/oqronkit/src/batch/batch-engine.ts:594-655 | in every reachable state each stored job with work to do was published or is named by the buffer's marker |
| `BatchSafety.CallPublishesEveryJob` | packages/oqronkit/src/batch/define-batch.ts:161-166 | after any history of crashes one completed call of any kind leaves every stored job with work to do published |
| `BatchSafety.FlushDrains` | packages/oqronkit/src/batch/define-batch.ts:351-383 | after any history of crashes one completed flush leaves no buffer record and every accepted item in a stored job |
| `BatchSafety.StaleJobIsRepublished` | packages/oqronkit/src/batch/batch-engine.ts:158-168 | a stale snapshot whose job is stored changes neither the jobs nor the accepted items, and publishes exactly that job unless it is finished |
| `BatchSafety.EngineFlushConservesIff` | packages/oqronkit/src/batch/batch-engine.ts:552-558 | a completed engine flush keeps conservation if and only if it does not find the record gone, a snapshot that names no stored job, and either a mark on it or an open gate |
| `BatchSafety.StaleFlushDuplicates` | packages/oqronkit/src/batch/batch-engine.ts:552-614 | in that case exactly the snapshot's items are held once more, otherwise what is held stays the same |
| `BatchSafety.StaleSnapshotExample` | packages/oqronkit/src/batch/batch-engine.ts:489-512 | add, proxy flush, then the tick's flush of what it had listed: one accepted item ends in two jobs |
| `BatchAdds.AcceptedIff` | packages/oqronkit/src/batch/define-batch.ts:240-248 | in any run that uses no stale snapshot an add that comes to its last step is accepted if and only if its key is absent, empty, or was not given by an accepted add since the group last began a fresh buffer; otherwise nothing is added |
| `BatchAdds.AddCompletes` | packages/oqronkit/src/batch/define-batch.ts:213-250 | a completed add that is no repeat accepts exactly its item, behind the earlier ones, with its key behind theirs, and a fresh buffer has the time of its first item; a repeat changes neither items nor keys |
| `BatchAdds.RunKeysAreGiven` | packages/oqronkit/src/batch/define-batch.ts:244-247 | in such a run the keys of the buffer are those that accepted adds gave it since it began |
| `BatchFlushes.FlushSaves` | packages/oqronkit/src/batch/batch-engine.ts:544-617 | a completed flush either completes an interrupted one, or puts exactly the items it found and the time of the first into a waiting job, publishes it and deletes the buffer, or, without items or with the gate closed, only removes a left-over mark |
| `BatchFlushes.FourWrites` | packages/oqronkit/src/batch/batch-engine.ts:594-614 | what a crash finds after each write of a flush: the mark with job id and time, the saved job, the published job, no buffer |
| `BatchFlushes.AddCompletesFlush` | packages/oqronkit/src/batch/define-batch.ts:149-174 | an add publishes the job of an interrupted flush unless it is finished, and publishes or saves no other |
| `EventMatcherProofs.SplitJoin` | packages/oqronkit/src/webhook/event-matcher.ts:18-24 | splitting at dots undoes joining dot-free segments, which is what lets segments be compared |
| `EventMatcherProofs.ParseEscaped` | packages/oqronkit/src/webhook/event-matcher.ts:30-32 | escaped text, put before any further source, is read back as the literal characters it stands for |
| `EventMatcherProofs.ParseSegments` | packages/oqronkit/src/webhook/event-matcher.ts:17-24 | the generated source of any pattern parses, to the terms of its segments with a literal dot between them |
| `EventMatcherProofs.RepeatSplits` | packages/oqronkit/src/webhook/event-matcher.ts:20-21 | the greedy repetition with backtracking accepts exactly the texts that split into matching characters and an accepted rest |
| `EventMatcherProofs.AcceptsSegments` | packages/oqronkit/src/webhook/event-matcher.ts:17-26 | the terms of a pattern accept a text exactly when its segments match the pattern's |
| `EventMatcherProofs.CompilePreservesMeaning` | packages/oqronkit/src/webhook/event-matcher.ts:17-26 | for every pattern and event the generated anchored expression accepts if and only if the event's segments split as the glob says |
| `EventMatcherProofs.MatchesEventMeaning` | packages/oqronkit/src/webhook/event-matcher.ts:9-28 | `matchesEvent` holds if and only if some pattern is a bare star or its segments match; the shortcuts change nothing |
| `GlobDocumentation.MatchesAsDocumentedIff` | packages/oqronkit/src/webhook/event-matcher.ts:1-8 | an event is matched as documented by every pattern if and only if it is one segment or all its segments are non-empty and free of line terminators |
| `EventMatcherProofs.LineTerminatorExample` | packages/oqronkit/src/webhook/event-matcher.ts:4-7 | an event of two segments that matches `user.*` but not `user.**` |
| `EventMatcherProofs.StarsOnSecondSegment` | packages/oqronkit/src/webhook/event-matcher.ts:17-24 | whatever a second segment holds, `*` stands for it unless it is empty, and `**` does unless it is empty or holds one of the four line terminators |
| `Lru.LruCache.Get` | packages/oqronkit/src/cache/lru.ts:21-27 | answers the stored value; after a hit the last entry has the key, and the others keep their order; a miss changes nothing |
| `Lru.LruCache.Set` | packages/oqronkit/src/cache/lru.ts:29-41 | the new entry is the newest, the size stays within the maximum, and the evicted keys are the oldest, in order |
| `Lru.LruCache.Delete` | packages/oqronkit/src/cache/lru.ts:43-45 | removes the key and nothing else, and answers whether it was there |
| `Lru.LruCache.Clear` | packages/oqronkit/src/cache/lru.ts:47-51 | empties the cache and answers how many entries it held |
| `LruRecency.OlderIffUsedEarlier` | packages/oqronkit/src/cache/lru.ts:21-51 | on any trace an entry stands before another if and only if the last `get` or `set` of its key came earlier in the trace |
| `LruRecency.HitIsNewest` | packages/oqronkit/src/cache/lru.ts:21-27 | right after a hit the key is the newest with its value, and the others are as before |
| `LruRecency.EvictsOldest` | packages/oqronkit/src/cache/lru.ts:29-41 | an entry that a `set` evicts was used before every entry that stays |
| `LruInclusion.NewestKeeps` | packages/oqronkit/src/cache/lru.ts:34-39 | after evictions on both sides the smaller cache is still part of the larger, although they may evict different keys |
| `LruInclusion.RunRelated` | packages/oqronkit/src/cache/lru.ts:21-51 | on any trace the smaller cache is the larger one without some keys, in the same order |
| `LruInclusion.Inclusion` | packages/oqronkit/src/cache/lru.ts:21-51 | on any trace the keys of the cache of size m are among those of size n >= m, with equal values and recency order |
| `CacheEngine.Engine.Get` | packages/oqronkit/src/cache/cache-engine.ts:83-101 | answer and new records of a read through both tiers, with promotion, expiry and removal |
| `CacheEngine.Engine.GetL1` | packages/oqronkit/src/cache/cache-engine.ts:448-459 | L1 answers with an entry that is fresh or within its grace period, which becomes the newest, and drops an older one |
| `CacheEngine.Engine.GetL2` | packages/oqronkit/src/cache/cache-engine.ts:461-500 | L2 answers with a record within its grace period, which goes to L1, and deletes an older one everywhere |
| `CacheEngine.Engine.Set` | packages/oqronkit/src/cache/cache-engine.ts:516-576 | both tiers and the tag index after a write |
| `CacheEngine.Engine.UpdateTagIndex` | packages/oqronkit/src/cache/cache-engine.ts:763-780 | the key is listed under each tag, and every other listing stays |
| `CacheEngine.Engine.RemoveKeyFromTag` | packages/oqronkit/src/cache/cache-engine.ts:795-806 | the key leaves the tag's record, which goes when it becomes empty |
| `CacheEngine.Engine.DeleteKeyEverywhere` | packages/oqronkit/src/cache/cache-engine.ts:782-793 | the key leaves both tiers and the records of its tags |
| `CacheEngine.Engine.DeleteKeys` | packages/oqronkit/src/cache/cache-engine.ts:258-318 | deleting keys one after the other deletes exactly them, in any order |
| `CacheEngine.Engine.InvalidatePrefix` | packages/oqronkit/src/cache/cache-engine.ts:258-277 | the records after a prefix invalidation, and the number of deleted L2 entries |
| `CacheEngine.Engine.InvalidateAll` | packages/oqronkit/src/cache/cache-engine.ts:304-318 | nothing is left, and the count is that of L2 |
| `CacheEngine.Engine.CleanupExpired` | packages/oqronkit/src/cache/cache-engine.ts:404-425 | exactly the entries past their `staleUntil` go, from each tier, and the count is what went from both |
| `CacheEngine.Engine.InvalidateTags` | packages/oqronkit/src/cache/cache-engine.ts:279-302 | the tag records go, then every key they listed |
| `CacheTiers.SetStores` | packages/oqronkit/src/cache/cache-engine.ts:516-576 | after a `set` the value with its times is in L2, newest in L1, and listed under each of its tags; no other listing changes |
| `CacheTiers.HitIsPromoted` | packages/oqronkit/src/cache/cache-engine.ts:83-101 | a `get` of a record within its grace period answers its value and leaves it newest in L1, with L2 and the index unchanged |
| `CacheTiers.ExpiredIsDeleted` | packages/oqronkit/src/cache/cache-engine.ts:461-476 | a `get` of a record past its `staleUntil` answers nothing and deletes it from both tiers and from its tags |
| `CacheTiers.DeleteRemoves` | packages/oqronkit/src/cache/cache-engine.ts:782-793 | a deleted key is in neither tier and not listed under its tags; nothing else goes |
| `CacheTiers.PrefixRemoves` | packages/oqronkit/src/cache/cache-engine.ts:258-277 | a prefix invalidation deletes exactly the keys that are the prefix followed by something, from both tiers |
| `CacheTiers.CleanupRemoves` | packages/oqronkit/src/cache/cache-engine.ts:404-425 | a cleanup leaves in each tier exactly what is not past its `staleUntil` |
| `CacheTiers.TagsRemove` | packages/oqronkit/src/cache/cache-engine.ts:279-302 | a tag invalidation deletes exactly the keys its tags list; their records go, and any other tag loses just the deleted keys that carried it |
| `CacheRefinement.RunKeeps` | packages/oqronkit/src/cache/cache-engine.ts:448-576 | after any calls every L1 entry equals its L2 record, L1 holds each key once, and every key is listed under each of its tags |
| `CacheRefinement.InvalidateTagsReachesAll` | packages/oqronkit/src/cache/cache-engine.ts:279-302 | after any calls a tag invalidation leaves no entry with one of the tags in either tier |
| `CacheRefinement.InvalidateTagsIsExactIff` | packages/oqronkit/src/cache/cache-engine.ts:279-302 | a tag invalidation deletes exactly the entries that carry one of the tags if and only if the index lists only such keys under them |
| `CacheRefinement.StepIsExactIff` | packages/oqronkit/src/cache/cache-engine.ts:763-780 | any call keeps an exact index exact if and only if it is not a `set` that replaces a stored record by one without one of its tags |
| `CacheRefinement.InvalidateTagsIsExact` | packages/oqronkit/src/cache/cache-engine.ts:279-302 | in every run without such a `set` a tag invalidation deletes exactly the carriers, from both tiers |
| `CacheRefinement.ListedWasSet` | packages/oqronkit/src/cache/cache-engine.ts:763-806 | a key listed under a tag was set with that tag by an earlier call of the run |
| `CacheRefinement.InvalidateTagsReachesFurther` | packages/oqronkit/src/cache/cache-engine.ts:763-780 | a key that has lost a tag is still deleted by an invalidation of that tag |
| `CacheRefinement.TagsRefineIff` | packages/oqronkit/src/cache/cache-engine.ts:279-302 | after a tag invalidation the records still agree with the flat map without its carriers if and only if every live key that was listed is a carrier |
| `CacheRefinement.NoTagDroppedIsTidy` | packages/oqronkit/src/cache/cache-engine.ts:763-806 | in runs in which no `set` drops a tag, every live key that a tag invalidation finds listed is a carrier |
| `CacheRefinement.RunRefines` | packages/oqronkit/src/cache/cache-engine.ts:83-318 | for every trace whose tag invalidations find only live keys that are carriers, with a clock that never falls, the answers are those of one flat map with `staleUntil` |
| `CacheRefinement.L1IsInvisible` | packages/oqronkit/src/cache/cache-engine.ts:448-459 | for any calls and any clock, neither the size of L1 nor switching it off changes an answer, L2 or the index |
| `RateAlgorithms.UsageNeverRises` | packages/oqronkit/src/ratelimit/types.ts:40-46 | for each algorithm the usage a later peek reports is no higher while nothing is consumed |
| `RateAlgorithms.ConsumeAddsCost` | packages/oqronkit/src/ratelimit/types.ts:29-38 | `consume` is allowed exactly when a peek plus the cost fits; then the usage rises by exactly the cost, otherwise nothing is saved |
| `RateAlgorithms.BucketSettles` | packages/oqronkit/src/ratelimit/algorithms/token-bucket.ts:46-58 | a lazy refill leaves nothing to refill at the same time and never overfills |
| `RateProgress.BucketAllowsIff` | packages/oqronkit/src/ratelimit/algorithms/token-bucket.ts:46-74 | a stored bucket allows a cost if and only if it fits the maximum and after some number of intervals that have passed the tokens and their refill cover it |
| `RateProgress.RefusedIsAllowedLater` | packages/oqronkit/src/ratelimit/algorithms/token-bucket.ts:46-58 | a cost within the maximum is allowed at every time from the interval on whose refill covers it, while nothing is consumed |
| `RateProgress.IdleBucketIsFull` | packages/oqronkit/src/ratelimit/algorithms/token-bucket.ts:46-58 | after enough idle intervals the bucket is full and the usage is 0 |
| `RateProgress.RefusalIsOwed` | packages/oqronkit/src/ratelimit/algorithms/token-bucket.ts:31-92 | over every run a cost within the maximum is refused only if, since some earlier attempt that found the bucket full, the grants and the cost exceed the bucket and the refill of the whole intervals since |
| `RateProgress.NewKeyAllowsIff` | packages/oqronkit/src/ratelimit/types.ts:29-46 | for each algorithm a key that was never used has usage 0 and allows exactly what fits the maximum |
| `RateProgress.SlidingAllowsIff` | packages/oqronkit/src/ratelimit/algorithms/sliding-window.ts:27-77 | over every run an attempt is allowed if and only if the grants of the window that ends with it leave room |
| `RateProgress.FixedAllowsIff` | packages/oqronkit/src/ratelimit/algorithms/fixed-window.ts:24-64 | over every run an attempt is allowed if and only if the grants of its own window leave room |
| `RateLimiter.KeysApart` | packages/oqronkit/src/ratelimit/ratelimit-engine.ts:28-30 | with colon-free tier names two counters share a key only when tier and caller are the same |
| `RateLimiter.LimitersApart` | packages/oqronkit/src/ratelimit/ratelimit-engine.ts:28-30 | limiters with distinct names without a colon share no key |
| `RateLimiter.ColonsCollide` | packages/oqronkit/src/ratelimit/ratelimit-engine.ts:28-30 | with a colon in a tier name two different counters share a key |
| `SharedCounters.NothingRefusedIffEachAllowed` | packages/oqronkit/src/ratelimit/ratelimit-engine.ts:699-750 | at a fixed clock a commit over any charges refuses nothing if and only if each is allowed on what the earlier ones on its counter leave |
| `SharedCounters.NothingRefusedIff` | packages/oqronkit/src/ratelimit/ratelimit-engine.ts:699-750 | with charges that read a shared counter alike, it refuses nothing if and only if for each its usage and the cost times the number of charges up to it on its counter fit its maximum |
| `SharedCounters.DifferentMaximaBreakTheSum` | packages/oqronkit/src/ratelimit/algorithms/token-bucket.ts:46-92 | a bucket shared under two maxima: the sum fits for both and the second is refused |
| `SharedCounters.DifferentWindowsBreakTheSum` | packages/oqronkit/src/ratelimit/algorithms/sliding-window.ts:27-77 | a log shared under two windows: the sum does not fit and both are charged |
| `RateLimiter.Limiter.CommitsIff` | packages/oqronkit/src/ratelimit/ratelimit-engine.ts:699-750 | the commit of a check at a fixed clock refuses nothing if and only if, for each active tier, its usage and the cost times the number of active tiers up to it on its counter fit its maximum |
| `RateLimiter.HalfCommittedCheck` | packages/oqronkit/src/ratelimit/ratelimit-engine.ts:699-750 | a check over two tiers whose names and callers run together is blocked with the cost charged |
| `RateLimiter.Limiter.IsBanned` | packages/oqronkit/src/ratelimit/ratelimit-engine.ts:797-820 | a ban counts until it expires, and only an expired one is removed |
| `RateLimiter.Limiter.RecordViolation` | packages/oqronkit/src/ratelimit/ratelimit-engine.ts:822-881 | the stored log and the bans after a violation |
| `RateLimiter.Limiter.Blame` | packages/oqronkit/src/ratelimit/ratelimit-engine.ts:623-640 | a block records one violation of the tier's key, which may ban it, unless the key is banned or there is no penalty; other keys keep their logs and unexpired bans |
| `RateLimiter.Limiter.PeekTiers` | packages/oqronkit/src/ratelimit/ratelimit-engine.ts:454-620 | every tier has room and no unexpired ban, or the first tier that blocks has a reason and all before it have none |
| `RateLimiter.Limiter.ConsumeTier` | packages/oqronkit/src/ratelimit/ratelimit-engine.ts:702-709 | with counters apart room seen earlier under the lock is still there, so the cost is charged; in any case the counter is what the algorithm leaves |
| `RateLimiter.Limiter.CommitTiers` | packages/oqronkit/src/ratelimit/ratelimit-engine.ts:699-762 | with counters apart no tier refuses and each active one is charged exactly the cost; at a fixed clock the counters are those of the commit in order; no other counter changes |
| `RateLimiter.Limiter.Evaluate` | packages/oqronkit/src/ratelimit/ratelimit-engine.ts:415-762 | allowed, or blocked by the first tier with a reason, with the violation and the bans that follow from it, or refused halfway, which needs a shared counter; a peek charges and records nothing |
| `RateLimiter.Limiter.Check` | packages/oqronkit/src/ratelimit/ratelimit-engine.ts:286-368 | all or nothing when counters are apart; at a fixed clock allowed exactly when no tier is banned and the shared counters have room; bans and violations after every answer; the disabled and pass-through behaviours and the rejected costs |
| `RateLimiter.Limiter.Reset` | packages/oqronkit/src/ratelimit/ratelimit-engine.ts:1024-1057 | the counter of the first tier of the name is empty, the key's violation log goes, its ban stays |
| `RateLimiter.Limiter.Ban` | packages/oqronkit/src/ratelimit/ratelimit-engine.ts:1155-1169 | the key is banned until the given time, whatever ban it had |
| `RateLimiter.Limiter.Unban` | packages/oqronkit/src/ratelimit/ratelimit-engine.ts:1171-1174 | the key's ban goes and nothing else |
| `RateLimiter.Limiter.SetOverride` | packages/oqronkit/src/ratelimit/ratelimit-engine.ts:1130-1145 | with counters apart the tier has the given maximum for that caller, and no other maximum changes |
| `RateLimiter.Limiter.ClearOverride` | packages/oqronkit/src/ratelimit/ratelimit-engine.ts:1147-1151 | the tier's own maximum holds for that caller again, and no other maximum changes |
| `PenaltyRuns.StoredLogIsLog` | packages/oqronkit/src/ratelimit/ratelimit-engine.ts:822-881 | after any run of checks, peeks, resets and bans by hand, none of which overlap, the stored log of each key is the log of that key's own events |
| `PenaltyRuns.BansAreDeserved` | packages/oqronkit/src/ratelimit/ratelimit-engine.ts:836-878 | in any run of calls that do not overlap a recorded violation bans its key if and only if enough of the key's violations since its last ban or reset lie in the window |
| `PenaltyRuns.BanBlocks` | packages/oqronkit/src/ratelimit/ratelimit-engine.ts:797-820 | in any run of calls that do not overlap no check lets a banned key pass before its ban has expired or was changed by hand |
| `PenaltyInterleaving.QuestionAlone` | packages/oqronkit/src/ratelimit/ratelimit-engine.ts:797-820 | the read of a ban and the look at the time, one right after the other, answer and delete as the whole call does |
| `PenaltyInterleaving.ViolationAlone` | packages/oqronkit/src/ratelimit/ratelimit-engine.ts:822-881 | the reads and writes of a violation, one right after the other, leave the log and the bans of the whole call |
| `PenaltyInterleaving.BanIsLostIff` | packages/oqronkit/src/ratelimit/ratelimit-engine.ts:797-820 | with every read and write a step, and peeks outside the lock, a ban that nobody lifts or shortens can be gone before it has expired if and only if some call holds a read of an older ban of the key |
| `PenaltyInterleaving.BannedKeyPassesIff` | packages/oqronkit/src/ratelimit/ratelimit-engine.ts:378-391 | then a check can pass that was told of no ban if and only if some call holds such a read, or a check was told so already or has read that there is none and may still pass |
| `PenaltyInterleaving.LogComesBackIff` | packages/oqronkit/src/ratelimit/ratelimit-engine.ts:1055-1056 | after a reset, or at any moment, an entry that is not in the stored log comes to be in it without a further violation if and only if some check has read a log and will save it with that entry |
| `PenaltyInterleaving.PeekHoldsOlder` | packages/oqronkit/src/ratelimit/ratelimit-engine.ts:797-809 | a run in which a peek has read a ban before a longer one was set |
| `PenaltyExclusion.OneCheckAtATime` | packages/oqronkit/src/ratelimit/ratelimit-engine.ts:249-272 | however calls interleave and crash, no two checks are under way at once |
| `PenaltyExclusion.NextCheckMayBegin` | packages/oqronkit/src/ratelimit/ratelimit-engine.ts:249-272 | the lock is held by a check under way or free, so without one the next may begin |
| `RateBounds.SlidingWindowBound` | packages/oqronkit/src/ratelimit/algorithms/sliding-window.ts:27-77 | over every run no window of the configured length, wherever it ends, holds more grants than the maximum |
| `RateBounds.FixedWindowBound` | packages/oqronkit/src/ratelimit/algorithms/fixed-window.ts:24-64 | over every run each fixed window holds at most the maximum |
| `RateBounds.FixedWindowIntervalBound` | packages/oqronkit/src/ratelimit/algorithms/fixed-window.ts:24-64 | no interval of a window's length, wherever it begins, holds more than twice the maximum |
| `RateBounds.FixedWindowBoundaryBurst` | packages/oqronkit/src/ratelimit/algorithms/fixed-window.ts:24-64 | across a boundary twice the maximum is granted within two milliseconds |
| `RateBounds.TokenBucketBound` | packages/oqronkit/src/ratelimit/algorithms/token-bucket.ts:31-92 | over every run each interval holds at most the bucket and what the interval and one refill interval more refill |
| `RateBounds.TokenBucketBoundFromStart` | packages/oqronkit/src/ratelimit/algorithms/token-bucket.ts:31-92 | from before the first attempt the grants are at most the bucket and what the elapsed time refills |
| `PenaltyLog.PrunedLogDecidesBans` | packages/oqronkit/src/ratelimit/ratelimit-engine.ts:822-878 | for every history with a clock that never falls a violation bans if and only if enough violations since the last ban or reset lie in the window |
| `PenaltyLog.LogStaysBelowThreshold` | packages/oqronkit/src/ratelimit/ratelimit-engine.ts:837-862 | between violations the stored log is shorter than the threshold |
| `TopicEngine.Engine.StoreForeign` | packages/oqronkit/src/pubsub/pubsub-engine.ts:91-111 | another topic may take an id at any moment; nothing of this topic changes |
| `TopicEngine.Engine.IncrementOffset` | packages/oqronkit/src/pubsub/pubsub-engine.ts:1050-1065 | the offset handed out is one past the head, which moves to it |
| `TopicEngine.Engine.ResolveExistingId` | packages/oqronkit/src/pubsub/pubsub-engine.ts:1021-1039 | a stored id wins over a recorded key, and empty ones count as absent |
| `TopicEngine.Engine.CreateDeliveriesForMessage` | packages/oqronkit/src/pubsub/pubsub-engine.ts:816-833 | every group whose cursor has not passed the message gets a pending delivery, and no stored delivery is overwritten |
| `TopicEngine.Engine.Publish` | packages/oqronkit/src/pubsub/pubsub-engine.ts:71-128 | id and records after a publish: a repeat, a burned offset, or a stored message with its deliveries |
| `TopicPublishing.StoredIdIsAnswered` | packages/oqronkit/src/pubsub/pubsub-engine.ts:1021-1030 | a publish under a stored id answers that id and changes nothing, whatever its key |
| `TopicPublishing.RecordedKeyIsAnswered` | packages/oqronkit/src/pubsub/pubsub-engine.ts:1031-1037 | any other with a recorded key answers the recorded id and changes nothing |
| `TopicPublishing.UsedIdBurnsOffset` | packages/oqronkit/src/pubsub/pubsub-engine.ts:88-114 | any other takes the next offset, and nothing more when its id is in use |
| `TopicPublishing.NewIsStored` | packages/oqronkit/src/pubsub/pubsub-engine.ts:88-114 | otherwise the message is stored at that offset with the time of the call |
| `TopicPublishing.NewKeyIsRecorded` | packages/oqronkit/src/pubsub/pubsub-engine.ts:116-121 | its key is recorded unless it was before |
| `TopicPublishing.NewIsDelivered` | packages/oqronkit/src/pubsub/pubsub-engine.ts:816-833 | exactly the groups that have not passed its offset get a pending delivery, and no stored one is overwritten |
| `TopicPublishing.ResumeFillsGaps` | packages/oqronkit/src/pubsub/pubsub-engine.ts:326-343 | a resume adds exactly the missing deliveries of messages beyond the cursor, and changes none |
| `TopicPublishing.SubscribeFillsGaps` | packages/oqronkit/src/pubsub/pubsub-engine.ts:163-164 | so does a subscription of a group that is there, wherever it asks to start |
| `TopicEngine.Engine.EnsureDeliveriesInPartition` | packages/oqronkit/src/pubsub/pubsub-engine.ts:841-865 | one partition's loop writes a delivery for each message beyond the cursor, over what is stored when it replays |
| `TopicEngine.Engine.EnsureDeliveriesForGroup` | packages/oqronkit/src/pubsub/pubsub-engine.ts:835-871 | the loops over partitions and messages cover exactly the messages beyond the cursors |
| `TopicEngine.Engine.LastOffsetBefore` | packages/oqronkit/src/pubsub/pubsub-engine.ts:999-1008 | the greatest offset among the partition's messages before the cutoff, or 0 |
| `TopicEngine.Engine.ResolveOffsetsBefore` | packages/oqronkit/src/pubsub/pubsub-engine.ts:993-1011 | the same for every partition |
| `TopicEngine.Engine.ResolveInitialOffsets` | packages/oqronkit/src/pubsub/pubsub-engine.ts:952-965 | where a new group begins |
| `TopicEngine.Engine.ResolveSeekOffsets` | packages/oqronkit/src/pubsub/pubsub-engine.ts:967-991 | where a seek moves the cursors; an unknown message leaves them |
| `TopicEngine.Engine.Subscribe` | packages/oqronkit/src/pubsub/pubsub-engine.ts:156-178 | a group that is subscribed here is rejected and nothing changes; otherwise the records after it was created or found and its gaps were filled |
| `TopicEngine.Engine.AdvanceCursor` | packages/oqronkit/src/pubsub/pubsub-engine.ts:794-814 | the loop stops where the specified scan stops, and only that cursor moves |
| `Topic.Scan` | packages/oqronkit/src/pubsub/pubsub-engine.ts:800-809 | everything the scan crosses is terminal, and what comes next is not |
| `TopicEngine.Engine.ProcessDelivery` | packages/oqronkit/src/pubsub/pubsub-engine.ts:498-543 | what is left before the handler runs, and exactly when it runs |
| `TopicEngine.Engine.Settle` | packages/oqronkit/src/pubsub/pubsub-engine.ts:684-792 | an ack leaves the delivery acked, a discard discarded, a nack before the last attempt pending with every cursor in place, and the last one dead, with a dead letter if and only if these are kept and the message is stored; what is settled moves the cursor |
| `TopicOutcomes.AckSettles` | packages/oqronkit/src/pubsub/pubsub-engine.ts:684-696 | an ack leaves the delivery acked and moves its cursor over what is settled as far as it goes; no other cursor and no other record changes |
| `TopicOutcomes.DiscardSettles` | packages/oqronkit/src/pubsub/pubsub-engine.ts:698-707 | the same for a discard |
| `TopicOutcomes.NackRetries` | packages/oqronkit/src/pubsub/pubsub-engine.ts:709-728 | a nack before the last attempt leaves it pending at the same attempt, and nothing else changes |
| `TopicOutcomes.NackKills` | packages/oqronkit/src/pubsub/pubsub-engine.ts:729-779 | a nack at the last attempt leaves it dead, with a dead letter if and only if these are kept and the message is stored, and moves its cursor |
| `TopicOutcomes.FilteredSettles` | packages/oqronkit/src/pubsub/pubsub-engine.ts:523-528 | a delivery that the filter rejects is settled as filtered and moves its cursor |
| `TopicOutcomes.LeasedForOneMore` | packages/oqronkit/src/pubsub/pubsub-engine.ts:511-538 | one that passes is leased for one attempt more, one whose message is gone is discarded, and no cursor moves |
| `TopicOutcomes.RetryReopens` | packages/oqronkit/src/pubsub/pubsub-engine.ts:360-380 | a retried dead letter is pending at the attempt it had and no dead letter any more |
| `TopicOutcomes.RequeueReleases` | packages/oqronkit/src/pubsub/pubsub-engine.ts:390-424 | reconciliation makes a leased or pending delivery pending and leaves a settled one |
| `TopicOutcomes.AckedIsCrossed` | packages/oqronkit/src/pubsub/pubsub-engine.ts:684-814 | over every run: when each delivery after the cursor up to an offset has been acked, in any order, and not opened again, the cursor has come to that offset |
| `TopicEngine.Engine.RetryDeadLetter` | packages/oqronkit/src/pubsub/pubsub-engine.ts:360-380 | a dead letter of the group and message becomes pending, or there is none and nothing changes |
| `TopicEngine.Engine.Seek` | packages/oqronkit/src/pubsub/pubsub-engine.ts:201-216 | cursors and replayed deliveries after a seek; an unknown group changes nothing |
| `TopicPlacement.SeekLatestReplaysNothing` | packages/oqronkit/src/pubsub/pubsub-engine.ts:967-975 | a seek to the latest message puts the cursors at the heads and replays nothing |
| `TopicPlacement.SeekEarliestReplaysAll` | packages/oqronkit/src/pubsub/pubsub-engine.ts:967-975 | a seek to the earliest puts them at 0 and replays every stored message |
| `TopicPlacement.SeekOffsetReplaysFrom` | packages/oqronkit/src/pubsub/pubsub-engine.ts:976-978 | a seek to an offset replays exactly the messages from it on |
| `TopicPlacement.SeekMessageReplaysFrom` | packages/oqronkit/src/pubsub/pubsub-engine.ts:982-990 | a seek to a message replays its partition from it on, and the others beyond the cursors they have |
| `TopicPlacement.SeekLeavesOthers` | packages/oqronkit/src/pubsub/pubsub-engine.ts:201-216 | a seek leaves other groups and the log as they are |
| `TopicPlacement.NewGroupGetsFrom` | packages/oqronkit/src/pubsub/pubsub-engine.ts:952-965 | a new group that starts at the latest message gets no stored one, at the earliest all, at an offset exactly those from it on |
| `TopicPlacement.NewGroupGetsSince` | packages/oqronkit/src/pubsub/pubsub-engine.ts:952-965 | one that starts at a time gets exactly the messages since then, when no partition has an inversion across it |
| `TopicInvariants.ApplyKeeps` | packages/oqronkit/src/pubsub/pubsub-engine.ts:71-891 | every operation keeps distinct offsets, deliveries that name the message at their slot, a delivery for every message beyond each cursor, and cursors that have stopped where they must |
| `TopicInvariants.CursorCrossesOnlySettled` | packages/oqronkit/src/pubsub/pubsub-engine.ts:684-814 | between any two moments of any run without a seek of the group, the cursor has not moved back and each delivery it crossed was terminal in between |
| `TopicInvariants.CursorIsMaximal` | packages/oqronkit/src/pubsub/pubsub-engine.ts:794-871 | in every reachable state, also after seeks and retries, the delivery after the cursor is absent or not terminal |
| `TopicInvariants.NoMessageIsSkipped` | packages/oqronkit/src/pubsub/pubsub-engine.ts:816-871 | in every state reachable by whole operations each stored message beyond a group's cursor has a delivery that names it |
| `TornPublish.MissingIff` | packages/oqronkit/src/pubsub/pubsub-engine.ts:91-128 | in every run with crashes inside publishes, a stored message beyond a group's cursor lacks its delivery if and only if its publish was torn before that delivery and no subscribe, resume or seek of the group from before it came after; a delivery that is there names it |
| `TornPublish.CoveredAgainIff` | packages/oqronkit/src/pubsub/pubsub-engine.ts:835-871 | a missing delivery is there at a later moment if and only if a subscribe, a resume or a seek of its group from before it lies in between |
| `TornPublish.MissingStopsCursor` | packages/oqronkit/src/pubsub/pubsub-engine.ts:794-814 | as long as it is missing and its group is not sought, the cursor stays before it |
| `TornPublish.RepublishIsIdleIff` | packages/oqronkit/src/pubsub/pubsub-engine.ts:87-88 | after the crash the same publish answers with the stored message and changes nothing if and only if it names an id or its key was recorded; otherwise it takes another offset |
| `TornRecords.FirstWrite` | packages/oqronkit/src/pubsub/pubsub-engine.ts:90-114 | a publish that crashes after its first write, or whose id is in use, has taken an offset and nothing else |
| `TornRecords.SecondWrite` | packages/oqronkit/src/pubsub/pubsub-engine.ts:91-114 | after the second write the message is stored as well |
| `TornRecords.LaterWrites` | packages/oqronkit/src/pubsub/pubsub-engine.ts:116-121 | after the third its key is recorded |
| `TornRecords.ServedGroups` | packages/oqronkit/src/pubsub/pubsub-engine.ts:816-833 | the groups served before the crash have what a whole publish gives them, the others what they had |
| `TornRecords.FullyServedIsWhole` | packages/oqronkit/src/pubsub/pubsub-engine.ts:816-833 | with every group served the torn publish is the whole one |
| `TopicLog.DenseStep` | packages/oqronkit/src/pubsub/pubsub-engine.ts:91-114 | after an operation offsets are dense if and only if they were before and it did not take an offset for an id in use |
| `TopicLog.RunIsDenseIff` | packages/oqronkit/src/pubsub/pubsub-engine.ts:1050-1065 | from an empty topic the stored offsets are exactly 1..head if and only if no publish of the run burned one |
| `TopicLog.GapStopsCursor` | packages/oqronkit/src/pubsub/pubsub-engine.ts:113-114 | a burned offset stops every group before it for as long as the group is not moved by a seek |
| `TopicLog.BirthIsExact` | packages/oqronkit/src/pubsub/pubsub-engine.ts:925-950 | a new group has a delivery for exactly the stored messages beyond its initial offsets |
| `TopicLog.OneDeliveryPerOffset` | packages/oqronkit/src/pubsub/pubsub-engine.ts:816-871 | without seeks and burned offsets a group has a delivery for exactly the offsets after its start up to each head |
| `TopicLog.RepublishIsIdleIff` | packages/oqronkit/src/pubsub/pubsub-engine.ts:1021-1039 | publishing the same options again returns the first id and changes nothing if and only if the first publish was a repeat or stored its message under a given id or a new key |
| `TopicLog.RepublishIsIdleForever` | packages/oqronkit/src/pubsub/pubsub-engine.ts:87-88 | once a publish is answered by its own id, or by its key alone, it is answered alike at every later moment of every run |
| `TopicSeek.SeekReplaysBeyond` | packages/oqronkit/src/pubsub/pubsub-engine.ts:835-871 | a seek makes exactly the messages beyond the new cursors pending with attempt 0 and touches no other delivery |
| `TopicSeek.LastBeforeIsLast` | packages/oqronkit/src/pubsub/pubsub-engine.ts:993-1011 | a cursor placed by time is 0 or the offset of a message before the cutoff, and no such message lies after it |
| `TopicSeek.SeekByTimeIsExactIff` | packages/oqronkit/src/pubsub/pubsub-engine.ts:193-216 | a seek by time replays exactly the messages at or after the cutoff if and only if no partition has an inversion across it |
| `TopicSeek.MonotoneIffNoInversions` | packages/oqronkit/src/pubsub/pubsub-engine.ts:993-1011 | every cutoff is safe if and only if `publishedAt` never falls along a partition |
| `TopicSeek.RunStaysMonotone` | packages/oqronkit/src/pubsub/pubsub-engine.ts:91-111 | with a clock that never falls `publishedAt` never falls along a partition, in any run |
| `TopicSeek.SeekByTimeIsExact` | packages/oqronkit/src/pubsub/pubsub-engine.ts:201-216 | so in any such run a seek by time replays exactly the right deliveries |
| `CursorInterleaving.CursorHasOrigin` | packages/oqronkit/src/pubsub/pubsub-engine.ts:794-814 | between any two moments of any interleaving of group reads, scan steps, write-backs, seeks and crashes, a cursor lies at or after a place it was put: where it was, the copy of a call, or the target of a seek; everything from there to it was settled at some moment in between |
| `CursorInterleaving.QuietCursorIsSafe` | packages/oqronkit/src/pubsub/pubsub-engine.ts:794-814 | from a moment at which no call holds the group, and without a seek of the partition, the cursor goes forward only and crosses only what was settled |
| `CursorInterleaving.CursorIsSafeUnderInterleaving` | packages/oqronkit/src/pubsub/pubsub-engine.ts:794-814 | from its creation on, and without a seek of the partition, the cursor of every group stays at or after its start, and all between was settled at some moment |
| `CursorAlone.AdvanceAlone` | packages/oqronkit/src/pubsub/pubsub-engine.ts:794-814 | the read of a group, its scan and its save, with nothing in between, leave what the whole operation leaves |
| `CursorAlone.SeekAlone` | packages/oqronkit/src/pubsub/pubsub-engine.ts:201-216 | the read and the save of a seek put its cursors at their targets and move no other |
| `CursorAlone.StatusChangeAlone` | packages/oqronkit/src/pubsub/pubsub-engine.ts:309-343 | those of a pause or resume move no cursor |
| `CursorReversal.CursorMovesBackIff` | packages/oqronkit/src/pubsub/pubsub-engine.ts:798-813 | some continuation without a seek of the partition puts the cursor below its present value if and only if some call holds the group with a smaller offset |
| `CursorReversal.CursorMovesBackClosedIff` | packages/oqronkit/src/pubsub/pubsub-engine.ts:794-814 | the same for continuations in which no settled delivery of the partition is opened again or vanishes: if and only if some call holds the group and its scan, from the offset it holds, ends before the cursor |
| `CursorReversal.CursorSkipsAheadIff` | packages/oqronkit/src/pubsub/pubsub-engine.ts:798-813 | some continuation without a seek of the partition puts the cursor past a delivery that stays unsettled if and only if it is unsettled and some call holds an offset at or beyond it; then the steps of calls under way do so |
| `CursorReversal.SerialCursorNeverMovesBack` | packages/oqronkit/src/pubsub/pubsub-engine.ts:798-813 | as long as calls on the group do not overlap and its partition is not sought, the cursor never goes back |
| `CursorReversal.OverlapMovesCursorBack` | packages/oqronkit/src/pubsub/pubsub-engine.ts:309-343 | a run in which a pause that read the group before an advance still holds a smaller offset after it |
| `CursorReversal.OverlapUndoesSeek` | packages/oqronkit/src/pubsub/pubsub-engine.ts:201-216 | for every target, a run in which a call that read the group before a seek still holds a smaller offset after it |
| `ClaimLoop.ActiveWithinConcurrency` | packages/oqronkit/src/queue/queue-engine.ts:595-769 | in every interleaving the active set is within the concurrency and one poll at a time is past the guard |
| `ClaimLoop.MoverHasRoom` | packages/oqronkit/src/worker/worker-engine.ts:490-595 | what a poll has claimed or may still claim fits beside the active set at each of its steps |
| `ClaimLoop.ClaimedIsAccountedFor` | packages/oqronkit/src/worker/worker-engine.ts:555-596 | when a poll ends without an error each claimed id was acked, was nacked, or is active with a running handler |
| `ClaimOutcomes.PollStartsIff` | packages/oqronkit/src/queue/queue-engine.ts:598-625 | a poll goes ahead if and only if no other is under way, a slot is free and the gate leaves something to ask for; it asks for the least of free slots, batch size and budget |
| `ClaimOutcomes.FirstClaimLeads` | packages/oqronkit/src/queue/queue-engine.ts:636-655 | a blocking claim asks for the rest when more than one was wanted, and without an id the poll is over |
| `ClaimOutcomes.ClaimedAreLookedUp` | packages/oqronkit/src/worker/worker-engine.ts:522-552 | all ids handed out are looked up, that of the blocking claim first; there are no more than were asked for |
| `ClaimOutcomes.PollSettlesEach` | packages/oqronkit/src/queue/queue-engine.ts:672-710 | however it interleaves, when a poll has looked up all its ids exactly those without a job were acked, exactly those of another environment nacked, and exactly the others are active, with a handler each |
| `ClaimOutcomes.EndingFrees` | packages/oqronkit/src/worker/worker-engine.ts:627-656 | the end of an execution ends its handlers and takes exactly their ids from the active set |
| `ClaimLoop.HandlersWithinConcurrency` | packages/oqronkit/src/queue/queue-engine.ts:745-764 | from any bounded state in which each running handler is the only one of an active id, as long as nothing is released early and no active id is claimed again, the running handlers are within the concurrency too |
| `ClaimLoop.ExcessIff` | packages/oqronkit/src/worker/worker-engine.ts:490-736 | from a reachable state some continuation without an early release, and in which no active id is claimed again, comes to more running handlers than the concurrency if and only if some running handler is not the only one of an active id |
| `ClaimLoop.LateEndingExceedsConcurrency` | packages/oqronkit/src/worker/worker-engine.ts:727-736 | a run with concurrency 1 in which a stalled handler's late ending lets two later handlers run at once |
| `CircuitBreaker.Memory.GetEntry` | packages/oqronkit/src/webhook/circuit-breaker.ts:50-62 | an unknown endpoint gets a fresh record, and no other record changes |
| `CircuitBreaker.Memory.RecordSuccess` | packages/oqronkit/src/webhook/circuit-breaker.ts:64-69 | the endpoint's record is closed and cleared, no other changes |
| `CircuitBreaker.Memory.RecordFailure` | packages/oqronkit/src/webhook/circuit-breaker.ts:71-83 | the endpoint's record after a failure, no other changes |
| `CircuitBreaker.Memory.GetState` | packages/oqronkit/src/webhook/circuit-breaker.ts:90-114 | the answer, and how asking moves the endpoint's record |
| `CircuitBreaker.Memory.Reset` | packages/oqronkit/src/webhook/circuit-breaker.ts:116-118 | the endpoint is as new |
| `CircuitBreaker.Shared.RecordSuccess` | packages/oqronkit/src/webhook/circuit-breaker.ts:179-187 | as in memory, on the stored record |
| `CircuitBreaker.Shared.RecordFailure` | packages/oqronkit/src/webhook/circuit-breaker.ts:189-203 | as in memory, on the stored record |
| `CircuitBreaker.Shared.GetState` | packages/oqronkit/src/webhook/circuit-breaker.ts:210-237 | as in memory, on the stored record |
| `CircuitBreaker.Shared.Reset` | packages/oqronkit/src/webhook/circuit-breaker.ts:239-241 | the stored record goes |
| `CircuitBreaker.Drive` | packages/oqronkit/src/webhook/circuit-breaker.ts:38-242 | on any serialized trace over any endpoints the shared breaker answers like the memory one |
| `CircuitBreaker.ClosedIffFewFailures` | packages/oqronkit/src/webhook/circuit-breaker.ts:64-83 | after any calls the state is CLOSED if and only if fewer failures than the threshold followed the last success or reset |
| `CircuitBreaker.OpenForTheTimeout` | packages/oqronkit/src/webhook/circuit-breaker.ts:93-100 | after any calls that end with a failure too many every question before the reset timeout is answered OPEN, and the first from then on HALF_OPEN |
| `CircuitBreaker.ProbeFailureReopens` | packages/oqronkit/src/webhook/circuit-breaker.ts:71-83 | a failure during HALF_OPEN trips the circuit again, from its own time on |
| `CircuitBreaker.ClosedAfterSuccess` | packages/oqronkit/src/webhook/circuit-breaker.ts:64-69 | after a success every question is answered CLOSED until the next failure |
| `CircuitBreaker.ProbeCycle` | packages/oqronkit/src/webhook/circuit-breaker.ts:90-114 | asked over and over past the timeout it answers HALF_OPEN one time more than the configured probes, then OPEN once, and so on for ever |
| `CircuitBreaker.HalfOpenRowIsBounded` | packages/oqronkit/src/webhook/circuit-breaker.ts:103-111 | from any record a row of HALF_OPEN answers without an outcome is at most one longer than the configured probes |
| `CircuitBreaker.DefaultLetsTwoThrough` | packages/oqronkit/src/webhook/circuit-breaker.ts:12-13 | the documented default of one probe lets two callers through |
| `DurationRingBuffer.RingBuffer.Push` | packages/oqronkit/src/queue/queue-metrics.ts:42-46 | the buffer remembers one more duration and still holds the last ones |
| `DurationRingBuffer.HoldsRecent` | packages/oqronkit/src/queue/queue-metrics.ts:60 | what `slice(0, count)` yields is a permutation of the last min(n, capacity) durations |
| `DurationRingBuffer.RingBuffer.Slice` | packages/oqronkit/src/queue/queue-metrics.ts:60 | the same of the array itself |
| `DurationRingBuffer.RingBuffer.Newest` | packages/oqronkit/src/queue/queue-metrics.ts:70 | the slot before the write position holds the newest duration, also after wrapping |
| `DurationRingBuffer.RingBuffer.GetStats` | packages/oqronkit/src/queue/queue-metrics.ts:48-72 | minimum, maximum and percentiles stand at their ranks among the last durations, the average is exact, and all are in order |
| `FloatIndex.IndexOf95IsExact` | packages/oqronkit/src/queue/queue-metrics.ts:68 | rounded as binary64 numbers are, length times 0.95 has the integral part that the statistics use |
| `FloatIndex.IndexOf99IsExact` | packages/oqronkit/src/queue/queue-metrics.ts:69 | the same for 0.99 |
| `DurationRingBuffer.RingBuffer.Reset` | packages/oqronkit/src/queue/queue-metrics.ts:74-78 | nothing is remembered |
| `DurationRingBuffer.SortedIndexIsRank` | packages/oqronkit/src/queue/queue-metrics.ts:61-69 | the element at an index of the sorted values has that rank among the unsorted ones, counted without sorting |
| `DurationRingBuffer.RankIsUnique` | packages/oqronkit/src/queue/queue-metrics.ts:65-69 | only one value stands at a rank, so the statistics are determined |
| `MissedFire.CheckMissed` | packages/oqronkit/src/scheduler/missed-fire.handler.ts:115-133 | run-all returns the first min(N, cap) ticks oldest first and drops the other N minus that; run-once returns now; exactly one interval is not a miss |
| `MissedFire.NeverStops` | packages/oqronkit/src/scheduler/missed-fire.handler.ts:121-129 | where the branch above is not claimed to end, run-all with a negative interval, every tick lies before now |
| `MissedFire.TickIffNumbered` | packages/oqronkit/src/scheduler/missed-fire.handler.ts:119-129 | the ticks up to now are those at 1..N intervals after the last run |
| `MissedFire.NothingDroppedNothingMissing` | packages/oqronkit/src/scheduler/missed-fire.handler.ts:119-129 | with nothing dropped the dates are exactly the ticks after the last run up to now |

## Left out

- HTTP handlers, adapters, event bus, telemetry, retention, job execution and cron expressions: plumbing or foreign libraries.
- Batch: the in-memory mode, lock expiry, instance records and job retention. Groups are independent, so one is modelled. Items are opaque strings.
- BatchAdds.AcceptedIff: without runs in which a flush falls back to a snapshot of a buffer that is gone; a marked snapshot is saved again by recovery, and its keys with it.
- BatchGroup.Group.Flush: without the `beforeFlush` hook, which may rewrite the items or empty the batch.
- BatchGroup.Group.FlushBuffer: likewise; throttling and backpressure are one boolean input.
- Topic: broker messages and pausing, so no claim about when a stored delivery is handed out; payload checks and hooks; retention and purging (deliveries may vanish only in `CursorInterleaving`); lease fields and retry times; the list limit of 100000 and the listing order.
- TopicInvariants.NoMessageIsSkipped: operations are whole steps; `TornPublish` says which deliveries a crash inside `publish` leaves out.
- Topic: crashes inside other operations than `publish`, and overlapping operations but for the group record; two first subscriptions of one group that overlap, since creating a group is one step, also in `CursorInterleaving`. Reconciliation is an operation on one delivery (`RequeueOp`), without a method of its own.
- TopicEngine.Engine.Seek: like `Subscribe`, requires that no two messages share an offset, which every operation keeps (`TopicInvariants.ApplyKeeps`).
- TopicInvariants.ApplyKeeps: messages are never removed, so the branch that discards a delivery whose message is gone, and leaves the cursor, is never taken in a reachable state.
- TopicLog.RepublishIsIdleForever: a publish with an id that was answered by its key is excluded, since storing that id later changes the answer.
- Event matcher: characters stand for UTF-16 code units, and only the fragment of regular expressions that the compiler emits is parsed.
- Cache: interleaving of calls, failures of L2 and its circuit, `ignoreL1` and `ignoreL2`, fetching and single flight, other nodes, encodings and negative grace periods. Values are opaque texts.
- CacheEngine.Engine.Set: without `ignoreL1`, `ignoreL2`, a failing L2 and its circuit.
- CacheRefinement.RunRefines: a trace that is not tidy may answer less than the flat map, since an invalidation then deletes a live key without the tag (`CacheRefinement.TagsRefineIff`).
- Rate limiter: dry run, burst mode, upstream limiters, fail-open, warnings, statistics, jitter and lock expiry. Token counts are exact reals, so rounding is not modelled.
- RateLimiter.Limiter.Evaluate: without dry run, burst mode and quota warnings.
- RateLimiter.Limiter.Check: without upstream limiters, dry run, fail-open and statistics; what a shared counter ends at is stated at a fixed clock; while the clock moves within a check only counters apart are covered.
- RateLimiter.Limiter.Reset: without the circuit record of burst mode.
- PenaltyRuns.StoredLogIsLog: calls are whole steps, although `peek`, `reset`, `ban` and `unban` do not hold the lock; `PenaltyInterleaving` says when their overlap matters.
- PenaltyRuns.BansAreDeserved: likewise.
- PenaltyRuns.BanBlocks: likewise.
- PenaltyInterleaving.BanIsLostIff: a check that was told of no ban may end in a violation that replaces a longer ban set by hand; such a replacement is not part of the continuations. The lock does not expire while its holder runs.
- PenaltyExclusion.OneCheckAtATime: likewise without expiry of the lock.
- Claim loop: modelled as events on values, not as a class, because other calls run between its awaits. Pausing, throttle bookkeeping, lag monitoring and the storage side of cancellation and stalls are not modelled; the broker returns no more ids than it is asked for.
- CircuitBreaker.Shared.GetState: without the lock its read and write may interleave with another call, which is not modelled. The documented `windowMs` is not used by the code.
- DurationRingBuffer.RingBuffer.GetStats: the average is a rational number, which the source rounds. Durations are integers.
- MissedFire.CheckMissed: the interval branch alone, without cron expressions and hooks. It requires the case in which the loop comes to an end; in the other it never does (`MissedFire.NeverStops`).
