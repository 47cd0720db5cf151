/**
 Bans and violation logs over whole runs of a limiter: what one call may do to them, and what follows
 for every run of calls, one after the other.
*/
module PenaltyRuns {
  import opened PenaltyLog
  import opened RateAlgorithms
  import opened Wrappers

  /** The stored bans and violation logs, and the time. */
  datatype Records = Records(bans: map<string, int>, violations: map<string, seq<int>>, now: int)

  /**
   What a call did: it let some keys pass, refused without a violation, recorded a violation, cleared a
   log, banned or unbanned a key by hand, or neither enforced nor recorded anything.
  */
  datatype Deed =
    | Passed(keys: set<string>)
    | Refused(key: string)
    | Recorded(key: string, at: int)
    | Cleared(key: string, at: int)
    | BanSet(key: string, expiry: int)
    | BanLifted(key: string)
    | Nothing

  /** Bans disappear only after they have expired. */
  ghost predicate OnlyExpired(before: map<string, int>, after: map<string, int>, t: int) {
    && (forall k :: k in after ==> k in before && after[k] == before[k])
    && (forall k :: k in before && k !in after ==> before[k] <= t)
  }

  /** The key has no ban, or one that has expired by `t`. */
  predicate Unbanned(bans: map<string, int>, key: string, t: int) {
    key in bans ==> bans[key] <= t
  }

  function WithLog(violations: map<string, seq<int>>, key: string, log: Option<seq<int>>): map<string, seq<int>> {
    if log.Some? then violations[key := log.value] else violations - {key}
  }

  /** A violation of the key at `at`, and a ban when the log has grown to the threshold. */
  ghost predicate Violates(p: Penalty, s: Records, t: Records, key: string, at: int) {
    var r := RecordViolation(p, Lookup(s.violations, key), at);
    && s.now <= at <= t.now
    && Unbanned(s.bans, key, at)
    && t.violations == WithLog(s.violations, key, r.log)
    && OnlyExpired(s.bans, t.bans - {key}, at)
    && (if r.banned then Lookup(t.bans, key) == Some(at + p.banMs)
        else key in t.bans ==> key in s.bans && t.bans[key] == s.bans[key])
  }

  ghost predicate Follows(penalty: Option<Penalty>, s: Records, t: Records, e: Deed) {
    && s.now <= t.now
    && match e
       case Recorded(key, at) => penalty.Some? && Violates(penalty.value, s, t, key, at)
       case Cleared(key, at) => s.now <= at <= t.now && t.violations == s.violations - {key} && t.bans == s.bans
       case BanSet(key, expiry) => t.bans == s.bans[key := expiry] && t.violations == s.violations
       case BanLifted(key) => t.bans == s.bans - {key} && t.violations == s.violations
       case Passed(keys) =>
         && t.violations == s.violations && OnlyExpired(s.bans, t.bans, t.now)
         && forall k :: k in keys ==> Unbanned(s.bans, k, t.now)
       case _ => t.violations == s.violations && OnlyExpired(s.bans, t.bans, t.now)
  }

  ghost predicate IsRun(penalty: Option<Penalty>, run: seq<Records>, deeds: seq<Deed>) {
    && |run| == |deeds| + 1
    && forall i {:trigger deeds[i]} :: 0 <= i < |deeds| ==> Follows(penalty, run[i], run[i + 1], deeds[i])
  }

  // ---------- The stored log is the log of the key's events ----------

  /** What one call did to a key's log. */
  function EventOf(key: string, e: Deed): seq<Event> {
    match e
    case Recorded(k, at) => if k == key then [Violation(at)] else []
    case Cleared(k, at) => if k == key then [Event.Reset(at)] else []
    case _ => []
  }

  /** What happened to one key in the first `n` calls. */
  function EventsOf(key: string, deeds: seq<Deed>, n: nat): seq<Event>
    requires n <= |deeds|
  {
    if n == 0 then [] else EventsOf(key, deeds, n - 1) + EventOf(key, deeds[n - 1])
  }

  lemma LogAppend(p: Penalty, events: seq<Event>, e: Event)
    ensures Log(p, events + [e]) == if e.Violation? then RecordViolation(p, Log(p, events), e.at).log else None
  {
    assert (events + [e])[..|events|] == events;
  }

  /** One call moves the stored log of a key as its event moves the log. */
  lemma StoredLogStep(p: Penalty, s: Records, t: Records, e: Deed, key: string, events: seq<Event>)
    requires Follows(Some(p), s, t, e) && Lookup(s.violations, key) == Log(p, events)
    ensures Lookup(t.violations, key) == Log(p, events + EventOf(key, e))
  {
    if e.Recorded? && e.key == key {
      LogAppend(p, events, Violation(e.at));
    } else if e.Cleared? && e.key == key {
      LogAppend(p, events, Event.Reset(e.at));
    } else {
      assert events + EventOf(key, e) == events;
    }
  }

  lemma LastDeed(penalty: Option<Penalty>, run: seq<Records>, deeds: seq<Deed>, n: nat)
    requires IsRun(penalty, run, deeds) && 0 < n <= |deeds|
    ensures Follows(penalty, run[n - 1], run[n], deeds[n - 1])
  {
  }

  /** After any run that begins without violations, the stored log of each key is the log of its own events. */
  lemma {:induction false} StoredLogIsLog(p: Penalty, run: seq<Records>, deeds: seq<Deed>, n: nat, key: string)
    requires IsRun(Some(p), run, deeds) && n <= |deeds| && run[0].violations == map[]
    ensures Lookup(run[n].violations, key) == Log(p, EventsOf(key, deeds, n))
  {
    if n > 0 {
      StoredLogIsLog(p, run, deeds, n - 1, key);
      LastDeed(Some(p), run, deeds, n);
      StoredLogStep(p, run[n - 1], run[n], deeds[n - 1], key, EventsOf(key, deeds, n - 1));
    }
  }

  /** The events of a key carry times that never fall. */
  lemma {:induction false} EventsAreInOrder(penalty: Option<Penalty>, run: seq<Records>, deeds: seq<Deed>, n: nat,
                                            key: string)
    requires IsRun(penalty, run, deeds) && n <= |deeds|
    ensures ClockRuns(EventsOf(key, deeds, n))
    ensures forall i :: 0 <= i < |EventsOf(key, deeds, n)| ==> EventsOf(key, deeds, n)[i].at <= run[n].now
  {
    if n > 0 {
      EventsAreInOrder(penalty, run, deeds, n - 1, key);
      assert Follows(penalty, run[n - 1], run[n], deeds[n - 1]);
    }
  }

  /**
   In any run that begins without violations, a recorded violation bans its key if and only if enough of
   the key's violations since its last ban or reset lie in the window.
  */
  lemma BansAreDeserved(p: Penalty, run: seq<Records>, deeds: seq<Deed>, n: nat)
    requires p.windowMs > 0 && IsRun(Some(p), run, deeds) && n < |deeds| && run[0].violations == map[]
    requires deeds[n].Recorded?
    ensures var (key, at) := (deeds[n].key, deeds[n].at);
            Deserved(p, History(p, EventsOf(key, deeds, n)), at) ==> Lookup(run[n + 1].bans, key) == Some(at + p.banMs)
    ensures var (key, at) := (deeds[n].key, deeds[n].at);
            !Deserved(p, History(p, EventsOf(key, deeds, n)), at) ==> Unbanned(run[n + 1].bans, key, at)
  {
    var key, at := deeds[n].key, deeds[n].at;
    LastDeed(Some(p), run, deeds, n + 1);
    StoredLogIsLog(p, run, deeds, n, key);
    EventsAreInOrder(Some(p), run, deeds, n, key);
    BanIsDeserved(p, run[n], run[n + 1], key, at, EventsOf(key, deeds, n));
  }

  lemma BanIsDeserved(p: Penalty, s: Records, t: Records, key: string, at: int, events: seq<Event>)
    requires p.windowMs > 0 && Follows(Some(p), s, t, Deed.Recorded(key, at))
    requires Lookup(s.violations, key) == Log(p, events)
    requires ClockRuns(events) && forall i :: 0 <= i < |events| ==> events[i].at <= s.now
    ensures Deserved(p, History(p, events), at) ==> Lookup(t.bans, key) == Some(at + p.banMs)
    ensures !Deserved(p, History(p, events), at) ==> Unbanned(t.bans, key, at)
  {
    PrunedLogDecidesBans(p, events, at);
  }

  // ---------- A ban blocks until it expires ----------

  /** No ban of the key is set or lifted by hand. */
  predicate NoHand(deeds: seq<Deed>, i: nat, n: nat, key: string)
    requires n <= |deeds|
  {
    forall j :: i <= j < n ==> deeds[j].BanSet? || deeds[j].BanLifted? ==> deeds[j].key != key
  }

  /** An unexpired ban outlives a call; a violation is not recorded while it lasts. */
  lemma BanOutlives(penalty: Option<Penalty>, s: Records, t: Records, e: Deed, key: string, expiry: int)
    requires Follows(penalty, s, t, e) && (e.BanSet? || e.BanLifted? ==> e.key != key)
    requires Lookup(s.bans, key) == Some(expiry) && t.now < expiry
    ensures Lookup(t.bans, key) == Some(expiry)
  {
  }

  lemma {:induction false} BanStays(penalty: Option<Penalty>, run: seq<Records>, deeds: seq<Deed>, i: nat, n: nat,
                                    key: string, expiry: int)
    requires IsRun(penalty, run, deeds) && i <= n <= |deeds| && NoHand(deeds, i, n, key)
    requires Lookup(run[i].bans, key) == Some(expiry) && run[n].now < expiry
    ensures Lookup(run[n].bans, key) == Some(expiry)
    decreases n
  {
    if i < n {
      var e := deeds[n - 1];
      assert Follows(penalty, run[n - 1], run[n], e);
      BanStays(penalty, run, deeds, i, n - 1, key, expiry);
      BanOutlives(penalty, run[n - 1], run[n], e, key, expiry);
    }
  }

  /** Once a key is banned, no call of any run lets it pass before the ban has expired or was changed by hand. */
  lemma BanBlocks(penalty: Option<Penalty>, run: seq<Records>, deeds: seq<Deed>, i: nat, n: nat, key: string,
                  expiry: int)
    requires IsRun(penalty, run, deeds) && i <= n < |deeds| && NoHand(deeds, i, n, key)
    requires Lookup(run[i].bans, key) == Some(expiry) && deeds[n].Passed? && key in deeds[n].keys
    ensures run[n + 1].now >= expiry
  {
    assert Follows(penalty, run[n], run[n + 1], deeds[n]);
    if run[n].now < expiry {
      BanStays(penalty, run, deeds, i, n, key, expiry);
    }
  }
}
