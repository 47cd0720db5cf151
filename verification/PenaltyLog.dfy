/**
 Penalty escalation: the stored violation log prunes itself on every violation and is deleted by a
 ban or a reset, and still decides every ban as the whole history would.
*/
module PenaltyLog {
  import opened Wrappers
  import opened RateAlgorithms

  datatype Penalty = Penalty(threshold: int, windowMs: int, banMs: int)

  /** What one violation at `now` leaves in the log, and whether it bans. */
  datatype Recorded = Recorded(log: Option<seq<int>>, banned: bool)

  function RecordViolation(p: Penalty, log: Option<seq<int>>, now: int): Recorded {
    var timestamps := After(log.GetOr([]), now - p.windowMs) + [now];
    if |timestamps| >= p.threshold then Recorded(None, true) else Recorded(Some(timestamps), false)
  }

  datatype Event = Violation(at: int) | Reset(at: int)

  /** The stored log after the events. */
  function Log(p: Penalty, events: seq<Event>): Option<seq<int>> {
    if events == [] then None
    else
      var before := Log(p, events[..|events| - 1]);
      match events[|events| - 1]
      case Violation(now) => RecordViolation(p, before, now).log
      case Reset(_) => None
  }

  /** The violations since the last ban or reset, none forgotten. */
  function History(p: Penalty, events: seq<Event>): seq<int> {
    if events == [] then []
    else
      var before := History(p, events[..|events| - 1]);
      match events[|events| - 1]
      case Violation(now) => if Deserved(p, before, now) then [] else before + [now]
      case Reset(_) => []
  }

  /** A violation at `now` is one of at least `threshold` within the window that ends now. */
  predicate Deserved(p: Penalty, history: seq<int>, now: int) {
    |After(history + [now], now - p.windowMs)| >= p.threshold
  }

  predicate ClockRuns(events: seq<Event>) {
    forall i, j :: 0 <= i < j < |events| ==> events[i].at <= events[j].at
  }

  /** The log holds what the history still has to offer to any later violation. */
  predicate Summarises(log: seq<int>, history: seq<int>, cutoff: int) {
    After(log, cutoff) == After(history, cutoff)
  }

  lemma SummaryStep(p: Penalty, log: Option<seq<int>>, history: seq<int>, now: int)
    requires p.windowMs > 0
    requires Summarises(log.GetOr([]), history, now - p.windowMs)
    ensures RecordViolation(p, log, now).banned <==> Deserved(p, history, now)
    ensures var h := if Deserved(p, history, now) then [] else history + [now];
      Summarises(RecordViolation(p, log, now).log.GetOr([]), h, now - p.windowMs)
  {
    var cutoff := now - p.windowMs;
    AfterAppend(history, [now], cutoff);
    AfterMembers([now], cutoff);
    AfterAppend(After(log.GetOr([]), cutoff), [now], cutoff);
    AfterAfter(log.GetOr([]), cutoff, cutoff);
  }

  /** A summary at one cutoff is a summary at every later one. */
  lemma SummaryAges(log: seq<int>, history: seq<int>, early: int, late: int)
    requires Summarises(log, history, early) && early <= late
    ensures Summarises(log, history, late)
  {
    AfterAfter(log, early, late);
    AfterAfter(history, early, late);
  }

  lemma {:induction false} LogSummarises(p: Penalty, events: seq<Event>, now: int)
    requires p.windowMs > 0 && ClockRuns(events)
    requires events != [] ==> events[|events| - 1].at <= now
    ensures Summarises(Log(p, events).GetOr([]), History(p, events), now - p.windowMs)
  {
    if events != [] {
      var before := events[..|events| - 1];
      var last := events[|events| - 1];
      LogSummarises(p, before, last.at);
      if last.Violation? {
        SummaryStep(p, Log(p, before), History(p, before), last.at);
        SummaryAges(Log(p, events).GetOr([]), History(p, events), last.at - p.windowMs, now - p.windowMs);
      }
    }
  }

  /**
   For every run with a clock that does not go back: a violation bans exactly when the whole history
   since the last ban or reset holds enough violations in the window.
  */
  lemma PrunedLogDecidesBans(p: Penalty, events: seq<Event>, now: int)
    requires p.windowMs > 0 && ClockRuns(events + [Violation(now)])
    ensures RecordViolation(p, Log(p, events), now).banned <==> Deserved(p, History(p, events), now)
  {
    var all := events + [Violation(now)];
    assert forall i :: 0 <= i < |events| ==> all[i] == events[i];
    if events != [] {
      assert all[|events| - 1].at <= all[|events|].at;
    }
    LogSummarises(p, events, now);
    SummaryStep(p, Log(p, events), History(p, events), now);
  }

  /** Between violations the log never holds enough to ban on its own. */
  lemma LogStaysBelowThreshold(p: Penalty, events: seq<Event>)
    requires p.threshold >= 1
    ensures |Log(p, events).GetOr([])| < p.threshold
  {
  }
}
