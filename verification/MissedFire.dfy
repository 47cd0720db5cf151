/**
 Which runs of an interval schedule were missed while the scheduler was down.
*/
module MissedFire {
  import opened Arithmetic
  import opened Wrappers

  datatype Policy = Skip | RunOnce | RunAll

  datatype Definition = Definition(intervalMs: int, policy: Policy, maxMissedRuns: Option<int>)

  datatype MissedResult = MissedResult(missed: bool, dates: seq<int>)

  function Cap(def: Definition): nat {
    var most := def.maxMissedRuns.GetOr(100);
    if most < 1 then 1 else most
  }

  /** A run of the schedule falls due at `t`, after the last run. */
  predicate IsTick(lastRunAt: int, intervalMs: nat, t: int)
    requires intervalMs >= 1
  {
    t > lastRunAt && (t - lastRunAt) % intervalMs == 0
  }

  function Min(a: nat, b: nat): nat {
    if a < b then a else b
  }

  /** How many runs fell due up to now. */
  function TicksDue(lastRunAt: int, intervalMs: nat, now: int): nat
    requires intervalMs >= 1
  {
    if now < lastRunAt then 0 else (now - lastRunAt) / intervalMs
  }

  /** The ticks up to now are those at 1, 2, ... intervals after the last run. */
  lemma TickIffNumbered(lastRunAt: int, intervalMs: nat, now: int, t: int)
    requires intervalMs >= 1
    ensures IsTick(lastRunAt, intervalMs, t) && t <= now <==>
              exists i :: 1 <= i <= TicksDue(lastRunAt, intervalMs, now) && t == lastRunAt + i * intervalMs
  {
    var due := TicksDue(lastRunAt, intervalMs, now);
    if IsTick(lastRunAt, intervalMs, t) && t <= now {
      var i := (t - lastRunAt) / intervalMs;
      assert t == lastRunAt + i * intervalMs;
      DivisionIsMonotone(t - lastRunAt, now - lastRunAt, intervalMs);
      assert 1 <= i <= due;
    }
    if i :| 1 <= i <= due && t == lastRunAt + i * intervalMs {
      DivisionIsUnique(t - lastRunAt, intervalMs, i, 0);
      assert due * intervalMs <= now - lastRunAt;
      Product(i, due, intervalMs);
      Product(1, i, intervalMs);
    }
  }

  lemma DivisionIsMonotone(a: int, b: int, k: nat)
    requires a <= b && k >= 1
    ensures a / k <= b / k
  {
    if a / k > b / k {
      Product(b / k + 1, a / k, k);
    }
  }

  /** Run-all does not come to an end when a negative interval keeps the ticks before now. */
  predicate Stops(def: Definition, lastRunAt: Option<int>, now: int) {
    def.policy.RunAll? && lastRunAt.Some? && now - lastRunAt.value > def.intervalMs ==> def.intervalMs >= 0
  }

  /** There the loop never sees a tick that lies after now. */
  lemma {:induction false} NeverStops(def: Definition, lastRunAt: int, now: int, n: nat)
    requires !Stops(def, Some(lastRunAt), now)
    ensures lastRunAt + (n + 1) * def.intervalMs <= now
  {
    if n > 0 {
      NeverStops(def, lastRunAt, now, n - 1);
      assert (n + 1) * def.intervalMs == n * def.intervalMs + def.intervalMs;
    }
  }

  /**
   The interval branch of `checkMissed`; `dropped` is what the warning reports.

   A run that falls due exactly one interval after the last is not missed. With run-all, the dates are
   the ticks up to now, oldest first, as many as the cap admits, and the others are counted.
  */
  method CheckMissed(def: Definition, lastRunAt: Option<int>, now: int) returns (result: MissedResult, dropped: nat)
    requires Stops(def, lastRunAt, now)
    ensures result.missed <==>
              lastRunAt.Some? && def.intervalMs != 0 && !def.policy.Skip? && now - lastRunAt.value > def.intervalMs
    ensures !result.missed ==> result.dates == []
    ensures result.missed && def.policy.RunOnce? ==> result.dates == [now] && dropped == 0
    ensures result.missed && def.policy.RunAll? ==>
              var due := TicksDue(lastRunAt.value, def.intervalMs, now);
              && |result.dates| == Min(due, match def.maxMissedRuns
                                            case None => 100
                                            case Some(most) => if most < 1 then 1 else most)
              && |result.dates| + dropped == due
              && forall i :: 0 <= i < |result.dates| ==> result.dates[i] == lastRunAt.value + (i + 1) * def.intervalMs
  {
    result, dropped := MissedResult(false, []), 0;
    if lastRunAt.None? || def.intervalMs == 0 {
      return;
    }
    var last := lastRunAt.value;
    var dates: seq<int> := [];
    var elapsed := now - last;
    var missed := elapsed > def.intervalMs;
    if missed && def.policy.RunAll? {
      var tick := last + def.intervalMs;
      ghost var n := 0;
      while tick <= now
        invariant n == |dates| + dropped && |dates| == Min(n, Cap(def))
        invariant tick == last + (n + 1) * def.intervalMs && n * def.intervalMs <= elapsed
        invariant forall i :: 0 <= i < |dates| ==> dates[i] == last + (i + 1) * def.intervalMs
        decreases now - tick
      {
        if |dates| < Cap(def) {
          dates := dates + [tick];
        } else {
          dropped := dropped + 1;
        }
        tick := tick + def.intervalMs;
        n := n + 1;
      }
      DivisionIsUnique(elapsed, def.intervalMs, n, elapsed - n * def.intervalMs);
    } else if missed {
      dates := [now];
    }
    if missed && (def.policy.RunOnce? || def.policy.RunAll?) {
      result := MissedResult(true, dates);
    }
  }

  /** With nothing dropped, the dates of a run-all are exactly the ticks after the last run up to now. */
  lemma NothingDroppedNothingMissing(def: Definition, last: int, now: int, dates: seq<int>, t: int)
    requires def.intervalMs >= 1 && |dates| == TicksDue(last, def.intervalMs, now)
    requires forall i :: 0 <= i < |dates| ==> dates[i] == last + (i + 1) * def.intervalMs
    ensures t in dates <==> IsTick(last, def.intervalMs, t) && t <= now
  {
    TickIffNumbered(last, def.intervalMs, now, t);
    if t in dates {
      var i :| 0 <= i < |dates| && dates[i] == t;
      assert 1 <= i + 1 <= |dates| && t == last + (i + 1) * def.intervalMs;
    }
    if i :| 1 <= i <= |dates| && t == last + i * def.intervalMs {
      assert dates[i - 1] == t;
    }
  }
}
