/**
 The circuit breaker that guards a webhook endpoint: its record per endpoint, the in-memory and the
 shared form, and what its answers say about the history of the endpoint.
*/
module CircuitBreaker {
  import opened Arithmetic

  datatype CircuitState = Closed | Open | HalfOpen

  datatype Config = Config(failureThreshold: int, resetTimeoutMs: int, halfOpenMaxAttempts: int)

  datatype Entry = Entry(state: CircuitState, failures: nat, lastFailureAt: int, halfOpenAttempts: nat)

  const NEW := Entry(Closed, 0, 0, 0)

  function Succeed(e: Entry): Entry {
    e.(failures := 0, halfOpenAttempts := 0, state := Closed)
  }

  function Fail(c: Config, e: Entry, now: int): Entry {
    var counted := e.(failures := e.failures + 1, lastFailureAt := now);
    if e.state.HalfOpen? then counted.(state := Open, halfOpenAttempts := 0)
    else if counted.failures >= c.failureThreshold then counted.(state := Open)
    else counted
  }

  /** `getState`, which also moves the circuit. */
  function Ask(c: Config, e: Entry, now: int): (Entry, CircuitState) {
    match e.state
    case Closed => (e, Closed)
    case Open =>
      if now - e.lastFailureAt >= c.resetTimeoutMs then (e.(state := HalfOpen, halfOpenAttempts := 0), HalfOpen)
      else (e, Open)
    case HalfOpen =>
      if e.halfOpenAttempts >= c.halfOpenMaxAttempts then (e.(state := Open), Open)
      else (e.(halfOpenAttempts := e.halfOpenAttempts + 1), HalfOpen)
  }

  // ---------- The two forms ----------

  function EntryIn(entries: map<string, Entry>, key: string): Entry {
    if key in entries then entries[key] else NEW
  }

  /** The record of `key` is now `e`, and no other endpoint's record differs. */
  ghost predicate Only(before: map<string, Entry>, after: map<string, Entry>, key: string, e: Entry) {
    EntryIn(after, key) == e && forall other :: other != key ==> EntryIn(after, other) == EntryIn(before, other)
  }

  /** Keeps a record for every endpoint it was ever asked about. */
  class Memory {
    const config: Config
    var circuits: map<string, Entry>

    constructor (config: Config)
      ensures this.config == config && circuits == map[]
    {
      this.config := config;
      circuits := map[];
    }

    method GetEntry(key: string) returns (entry: Entry)
      modifies this
      ensures Only(old(circuits), circuits, key, entry) && entry == EntryIn(old(circuits), key) && key in circuits
    {
      if key !in circuits {
        circuits := circuits[key := NEW];
      }
      entry := circuits[key];
    }

    method RecordSuccess(key: string)
      modifies this
      ensures Only(old(circuits), circuits, key, Succeed(EntryIn(old(circuits), key)))
      ensures EntryIn(circuits, key) == Entry(Closed, 0, EntryIn(old(circuits), key).lastFailureAt, 0)
    {
      var entry := GetEntry(key);
      circuits := circuits[key := entry.(failures := 0, halfOpenAttempts := 0, state := Closed)];
    }

    method RecordFailure(key: string, now: int)
      modifies this
      ensures Only(old(circuits), circuits, key, Fail(config, EntryIn(old(circuits), key), now))
      ensures var before, after := EntryIn(old(circuits), key), EntryIn(circuits, key);
              && after.failures == before.failures + 1 && after.lastFailureAt == now
              && (before.state == HalfOpen ==> after.state == Open && after.halfOpenAttempts == 0)
    {
      var entry := GetEntry(key);
      entry := entry.(failures := entry.failures + 1, lastFailureAt := now);
      if entry.state.HalfOpen? {
        entry := entry.(state := Open, halfOpenAttempts := 0);
      } else if entry.failures >= config.failureThreshold {
        entry := entry.(state := Open);
      }
      circuits := circuits[key := entry];
    }

    method GetState(key: string, now: int) returns (answer: CircuitState)
      modifies this
      ensures var (e, a) := Ask(config, EntryIn(old(circuits), key), now);
              Only(old(circuits), circuits, key, e) && answer == a
    {
      var entry := GetEntry(key);
      if entry.state.Open? {
        if now - entry.lastFailureAt >= config.resetTimeoutMs {
          circuits := circuits[key := entry.(state := HalfOpen, halfOpenAttempts := 0)];
          return HalfOpen;
        }
        return Open;
      }
      if entry.state.HalfOpen? {
        if entry.halfOpenAttempts >= config.halfOpenMaxAttempts {
          circuits := circuits[key := entry.(state := Open)];
          return Open;
        }
        circuits := circuits[key := entry.(halfOpenAttempts := entry.halfOpenAttempts + 1)];
        return HalfOpen;
      }
      return Closed;
    }

    method Reset(key: string)
      modifies this
      ensures Only(old(circuits), circuits, key, NEW)
    {
      circuits := circuits - {key};
    }
  }

  /** Reads and saves records in shared storage, under a lock per endpoint. */
  class Shared {
    const config: Config
    var stored: map<string, Entry>

    constructor (config: Config, stored: map<string, Entry>)
      ensures this.config == config && this.stored == stored
    {
      this.config := config;
      this.stored := stored;
    }

    method GetEntry(key: string) returns (entry: Entry)
      ensures entry == EntryIn(stored, key)
    {
      entry := if key in stored then stored[key] else NEW;
    }

    method RecordSuccess(key: string)
      modifies this
      ensures Only(old(stored), stored, key, Succeed(EntryIn(old(stored), key)))
      ensures EntryIn(stored, key) == Entry(Closed, 0, EntryIn(old(stored), key).lastFailureAt, 0)
    {
      var entry := GetEntry(key);
      stored := stored[key := entry.(failures := 0, halfOpenAttempts := 0, state := Closed)];
    }

    method RecordFailure(key: string, now: int)
      modifies this
      ensures Only(old(stored), stored, key, Fail(config, EntryIn(old(stored), key), now))
      ensures var before, after := EntryIn(old(stored), key), EntryIn(stored, key);
              && after.failures == before.failures + 1 && after.lastFailureAt == now
              && (before.state == HalfOpen ==> after.state == Open && after.halfOpenAttempts == 0)
    {
      var entry := GetEntry(key);
      entry := entry.(failures := entry.failures + 1, lastFailureAt := now);
      if entry.state.HalfOpen? {
        entry := entry.(state := Open, halfOpenAttempts := 0);
      } else if entry.failures >= config.failureThreshold {
        entry := entry.(state := Open);
      }
      stored := stored[key := entry];
    }

    method GetState(key: string, now: int) returns (answer: CircuitState)
      modifies this
      ensures var (e, a) := Ask(config, EntryIn(old(stored), key), now);
              Only(old(stored), stored, key, e) && answer == a
    {
      var entry := GetEntry(key);
      if entry.state.Open? {
        if now - entry.lastFailureAt >= config.resetTimeoutMs {
          stored := stored[key := entry.(state := HalfOpen, halfOpenAttempts := 0)];
          return HalfOpen;
        }
        return Open;
      }
      if entry.state.HalfOpen? {
        if entry.halfOpenAttempts >= config.halfOpenMaxAttempts {
          stored := stored[key := entry.(state := Open)];
          return Open;
        }
        stored := stored[key := entry.(halfOpenAttempts := entry.halfOpenAttempts + 1)];
        return HalfOpen;
      }
      return Closed;
    }

    method Reset(key: string)
      modifies this
      ensures Only(old(stored), stored, key, NEW)
    {
      stored := stored - {key};
    }
  }

  /** What can happen to an endpoint. */
  datatype Call = Success | Failure(now: int) | Question(now: int) | Forget

  function Next(c: Config, e: Entry, call: Call): Entry {
    match call
    case Success => Succeed(e)
    case Failure(now) => Fail(c, e, now)
    case Question(now) => Ask(c, e, now).0
    case Forget => NEW
  }

  /** Records that agree on every endpoint are moved alike and answer alike, whichever form holds them. */
  method Drive(memory: Memory, shared: Shared, calls: seq<(string, Call)>) returns (agreed: bool)
    requires memory.config == shared.config
    requires forall key :: EntryIn(memory.circuits, key) == EntryIn(shared.stored, key)
    modifies memory, shared
    ensures agreed
    ensures forall key :: EntryIn(memory.circuits, key) == EntryIn(shared.stored, key)
  {
    agreed := true;
    for i := 0 to |calls|
      invariant agreed
      invariant forall key :: EntryIn(memory.circuits, key) == EntryIn(shared.stored, key)
    {
      var key := calls[i].0;
      match calls[i].1 {
        case Success => memory.RecordSuccess(key); shared.RecordSuccess(key);
        case Failure(now) => memory.RecordFailure(key, now); shared.RecordFailure(key, now);
        case Question(now) =>
          var a := memory.GetState(key, now);
          var b := shared.GetState(key, now);
          agreed := agreed && a == b;
        case Forget => memory.Reset(key); shared.Reset(key);
      }
    }
  }

  // ---------- What the record says about the history ----------

  /** The endpoint's record after the calls. */
  function After(c: Config, calls: seq<Call>): Entry {
    if calls == [] then NEW else Next(c, After(c, calls[..|calls| - 1]), calls[|calls| - 1])
  }

  /** How many failures were recorded since the last success or reset. */
  function FailuresSince(calls: seq<Call>): nat {
    if calls == [] then 0
    else
      var before := FailuresSince(calls[..|calls| - 1]);
      match calls[|calls| - 1]
      case Success => 0
      case Forget => 0
      case Failure(_) => before + 1
      case Question(_) => before
  }

  function EffectiveThreshold(c: Config): nat {
    if c.failureThreshold < 1 then 1 else c.failureThreshold
  }

  /** After any calls, the circuit is closed exactly when too few failures followed the last success or reset. */
  lemma {:induction false} ClosedIffFewFailures(c: Config, calls: seq<Call>)
    ensures After(c, calls).state.Closed? <==> FailuresSince(calls) < EffectiveThreshold(c)
    ensures After(c, calls).failures == FailuresSince(calls)
  {
    if calls != [] {
      ClosedIffFewFailures(c, calls[..|calls| - 1]);
    }
  }

  // ---------- What the answers say ----------

  /** The record and the answers after asking at the given times, with no outcome recorded in between. */
  function AskAll(c: Config, e: Entry, times: seq<int>): (Entry, seq<CircuitState>) {
    if times == [] then (e, [])
    else
      var (before, answers) := AskAll(c, e, times[..|times| - 1]);
      var (after, answer) := Ask(c, before, times[|times| - 1]);
      (after, answers + [answer])
  }

  function Probes(c: Config): nat {
    if c.halfOpenMaxAttempts < 0 then 0 else c.halfOpenMaxAttempts
  }

  lemma {:induction false} AnswersCount(c: Config, e: Entry, times: seq<int>)
    ensures |AskAll(c, e, times).1| == |times|
  {
    if times != [] {
      AnswersCount(c, e, times[..|times| - 1]);
    }
  }

  /**
   Asking over and over once the timeout has passed: the circuit answers HALF_OPEN one time more than
   the configured number of probes, then OPEN a single time, and starts over. It never stays open.
  */
  lemma {:induction false} ProbeCycle(c: Config, e: Entry, times: seq<int>)
    requires e.state.Open?
    requires forall i :: 0 <= i < |times| ==> times[i] - e.lastFailureAt >= c.resetTimeoutMs
    ensures var (after, answers) := AskAll(c, e, times);
            var period := Probes(c) + 2;
            && |answers| == |times|
            && after.lastFailureAt == e.lastFailureAt
            && (forall i :: 0 <= i < |times| ==> answers[i] == if i % period == period - 1 then Open else HalfOpen)
            && (if |times| % period == 0 then after.state.Open?
                else after.state.HalfOpen? && after.halfOpenAttempts == |times| % period - 1)
  {
    if times != [] {
      var n := |times| - 1;
      ProbeCycle(c, e, times[..n]);
      NextInCycle(n, Probes(c) + 2);
    }
  }

  lemma NextInCycle(n: nat, period: nat)
    requires period > 0
    ensures (n + 1) % period == if n % period == period - 1 then 0 else n % period + 1
  {
    var q, r := n / period, n % period;
    assert n == q * period + r;
    if r == period - 1 {
      assert (q + 1) * period == q * period + period;
      DivisionIsUnique(n + 1, period, q + 1, 0);
    } else {
      DivisionIsUnique(n + 1, period, q, r + 1);
    }
  }

  /** However the endpoint got here, a row of HALF_OPEN answers is at most one longer than the number of probes. */
  lemma {:induction false} HalfOpenRowIsBounded(c: Config, e: Entry, times: seq<int>)
    requires forall i :: 0 <= i < |AskAll(c, e, times).1| ==> AskAll(c, e, times).1[i].HalfOpen?
    ensures |times| <= Probes(c) + 1
    ensures times != [] ==>
              var after := AskAll(c, e, times).0;
              after.state.HalfOpen? && |times| - 1 <= after.halfOpenAttempts <= Probes(c)
  {
    if times != [] {
      var front := times[..|times| - 1];
      AnswersCount(c, e, front);
      var answers := AskAll(c, e, times).1;
      assert forall i :: 0 <= i < |front| ==> AskAll(c, e, front).1[i] == answers[i];
      assert answers[|front|].HalfOpen?;
      HalfOpenRowIsBounded(c, e, front);
    }
  }

  // ---------- How long the circuit stays open ----------

  /** The calls end with a failure at `t` that leaves at least the threshold of failures since the last success. */
  predicate TripsAt(c: Config, calls: seq<Call>, t: int) {
    calls != [] && calls[|calls| - 1] == Failure(t) && FailuresSince(calls) >= EffectiveThreshold(c)
  }

  /** A failure that is one too many leaves the circuit open since its own time, whatever it was before. */
  lemma TrippedIsOpen(c: Config, calls: seq<Call>, t: int)
    requires TripsAt(c, calls, t)
    ensures After(c, calls).state.Open? && After(c, calls).lastFailureAt == t
  {
    ClosedIffFewFailures(c, calls);
    ClosedIffFewFailures(c, calls[..|calls| - 1]);
  }

  lemma {:induction false} OpenUntilTimeout(c: Config, e: Entry, times: seq<int>)
    requires e.state.Open? && forall i :: 0 <= i < |times| ==> times[i] < e.lastFailureAt + c.resetTimeoutMs
    ensures AskAll(c, e, times).0 == e
    ensures |AskAll(c, e, times).1| == |times|
    ensures forall i :: 0 <= i < |times| ==> AskAll(c, e, times).1[i].Open?
  {
    if times != [] {
      OpenUntilTimeout(c, e, times[..|times| - 1]);
    }
  }

  /**
   After any calls that end with a failure too many at `t`, in whatever state it found the circuit, all questions
   before `t` plus the reset timeout are answered OPEN, and the first one from then on is answered HALF_OPEN.
  */
  lemma OpenForTheTimeout(c: Config, calls: seq<Call>, t: int, times: seq<int>, late: int)
    requires TripsAt(c, calls, t) && late >= t + c.resetTimeoutMs
    requires forall i :: 0 <= i < |times| ==> times[i] < t + c.resetTimeoutMs
    ensures var (e, answers) := AskAll(c, After(c, calls), times);
            && |answers| == |times|
            && (forall i :: 0 <= i < |times| ==> answers[i].Open?)
            && Ask(c, e, late).1.HalfOpen?
  {
    TrippedIsOpen(c, calls, t);
    OpenUntilTimeout(c, After(c, calls), times);
  }

  /** A failure during HALF_OPEN trips the circuit again, from its own time on. */
  lemma ProbeFailureReopens(c: Config, calls: seq<Call>, t: int)
    requires !After(c, calls).state.Closed?
    ensures TripsAt(c, calls + [Failure(t)], t)
  {
    ClosedIffFewFailures(c, calls);
    assert (calls + [Failure(t)])[..|calls|] == calls;
  }

  /** A success closes the circuit: every question after it is answered CLOSED until the next failure. */
  lemma {:induction false} ClosedAfterSuccess(c: Config, calls: seq<Call>, times: seq<int>)
    requires calls != [] && (calls[|calls| - 1].Success? || calls[|calls| - 1].Forget?)
    ensures |AskAll(c, After(c, calls), times).1| == |times|
    ensures forall i :: 0 <= i < |times| ==> AskAll(c, After(c, calls), times).1[i].Closed?
    ensures AskAll(c, After(c, calls), times).0 == After(c, calls)
  {
    if times != [] {
      ClosedAfterSuccess(c, calls, times[..|times| - 1]);
    }
  }

  /** The documented default of one probe still lets two callers through. */
  lemma DefaultLetsTwoThrough(e: Entry, first: int, second: int)
    requires e.state.Open? && first - e.lastFailureAt >= 30000
    ensures AskAll(Config(5, 30000, 1), e, [first, second]).1 == [HalfOpen, HalfOpen]
  {
    var c := Config(5, 30000, 1);
    assert [first, second][..1] == [first] && [first][..0] == [];
    assert AskAll(c, e, [first]).1 == [HalfOpen];
  }
}
