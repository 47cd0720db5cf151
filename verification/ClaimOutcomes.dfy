/**
 What a poll of the claim loop asks for, and what becomes of each id that it gets.
*/
module ClaimOutcomes {
  import opened ClaimLoop
  import opened Wrappers

  // ---------- Claiming ----------

  /** The least of the free slots, the batch size and what the throttle gate allows. */
  predicate AsksFor(c: Config, free: int, budget: Option<int>, limit: int) {
    && limit <= free && (limit == free || c.batchSize == Some(limit) || budget == Some(limit))
    && (c.batchSize.Some? ==> limit <= c.batchSize.value)
    && (budget.Some? ==> limit <= budget.value)
  }

  /**
   A poll goes ahead if and only if no other is under way, a slot is free, and the gate, if there is one,
   leaves something to ask for. It then asks for the least of what the three allow.
  */
  lemma PollStartsIff(c: Config, s: System, k: nat, budget: Option<int>)
    requires Enabled(c, s, Begin(k, budget))
    ensures var t := Step(c, s, Begin(k, budget));
            if !s.polling && |s.active| < c.concurrency
               && (budget.Some? ==> budget.value > 0 && (c.batchSize.Some? ==> c.batchSize.value > 0))
            then
              && PcOf(t, k).Claiming? && AsksFor(c, c.concurrency - |s.active|, budget, PcOf(t, k).limit)
              && t == s.(polling := true, polls := s.polls[k := PcOf(t, k)])
            else t == s
  {
  }

  /** A blocking claim asks for the rest when more than one was wanted; without an id the poll is over. */
  lemma FirstClaimLeads(c: Config, s: System, k: nat, first: Option<Id>)
    requires Enabled(c, s, FirstClaimed(k, first))
    ensures var t := Step(c, s, FirstClaimed(k, first));
            var next := match first
              case None => Done
              case Some(id) =>
                if PcOf(s, k).limit > 1 then ClaimingRest(PcOf(s, k).limit, id) else Checking([id], 0, []);
            t == s.(polls := s.polls[k := next], polling := if first.None? then false else s.polling)
  {
  }

  /** All ids that were handed out are looked up, that of the blocking claim first; without any the poll is over. */
  lemma ClaimedAreLookedUp(c: Config, s: System, k: nat, ids: seq<Id>)
    requires Enabled(c, s, Claimed(k, ids))
    ensures var t := Step(c, s, Claimed(k, ids));
            var all := (if PcOf(s, k).ClaimingRest? then [PcOf(s, k).first] else []) + ids;
            && (|all| <= PcOf(s, k).limit || |all| <= 1)
            && t == s.(polls := s.polls[k := if all == [] then Done else Checking(all, 0, [])],
                       polling := if all == [] then false else s.polling)
  {
    assert [] + ids == ids;
  }

  // ---------- Looking up ----------

  /** What the poll's lookups said from `m` to `n`, in order. */
  function VerdictsOf(events: seq<Event>, k: nat, m: nat, n: nat): seq<Verdict>
    requires m <= n <= |events|
  {
    if m == n then []
    else
      VerdictsOf(events, k, m, n - 1)
      + match events[n - 1]
        case Checked(j, verdict) => if j == k then [verdict] else []
        case _ => []
  }

  /** The ids with that verdict, in order. */
  function With(ids: seq<Id>, verdicts: seq<Verdict>, v: Verdict): seq<Id>
    requires |verdicts| <= |ids|
  {
    if verdicts == [] then []
    else
      var i := |verdicts| - 1;
      With(ids, verdicts[..i], v) + if verdicts[i] == v then [ids[i]] else []
  }

  lemma WithNext(ids: seq<Id>, verdicts: seq<Verdict>, last: Verdict, v: Verdict)
    requires |verdicts| < |ids|
    ensures With(ids, verdicts + [last], v)
            == With(ids, verdicts, v) + if last == v then [ids[|verdicts|]] else []
  {
    assert (verdicts + [last])[..|verdicts|] == verdicts;
  }

  /** The poll has looked up the first of its ids, with these verdicts. */
  predicate LookedUp(s: System, t: System, k: nat, ids: seq<Id>, verdicts: seq<Verdict>) {
    && |verdicts| < |ids|
    && PcOf(t, k) == Checking(ids, |verdicts|, With(ids, verdicts, Valid))
    && t.acked == s.acked + With(ids, verdicts, Missing)
    && t.nacked == s.nacked + With(ids, verdicts, WrongEnvironment)
  }

  /** What the last lookup adds. */
  predicate Settled(s: System, t: System, k: nat, ids: seq<Id>, verdicts: seq<Verdict>) {
    && |verdicts| == |ids|
    && PcOf(t, k).Done? && !t.polling
    && t.acked == s.acked + With(ids, verdicts, Missing)
    && t.nacked == s.nacked + With(ids, verdicts, WrongEnvironment)
  }

  /** The handlers of the ids start: one execution for the whole batch, or one for each id. */
  predicate Started(c: Config, s: System, t: System, ids: seq<Id>) {
    && t.active == s.active + set id | id in ids
    && t.executions == s.executions + |ids|
    && (forall h :: h in s.running ==> h in t.running)
    && (forall i :: 0 <= i < |ids| ==> HandlerOf(c, s, i, ids[i]) in t.running)
    && (forall h :: h in t.running && h !in s.running ==> exists i :: 0 <= i < |ids| && h == HandlerOf(c, s, i, ids[i]))
  }

  function HandlerOf(c: Config, s: System, i: nat, id: Id): (nat, Id) {
    (if c.batchSize.Some? then s.executions else s.executions + i, id)
  }

  lemma TrackStarts(c: Config, s: System, k: nat, valid: seq<Id>)
    ensures var t := Track(c, s, k, valid);
            && Started(c, s, t, valid) && PcOf(t, k).Done? && !t.polling && t.acked == s.acked && t.nacked == s.nacked
  {
    var t := Track(c, s, k, valid);
    forall i | 0 <= i < |valid|
      ensures HandlerOf(c, s, i, valid[i]) in t.running
    {
      assert HandlerOf(c, s, i, valid[i]) == (s.executions + if c.batchSize.Some? then 0 else i, valid[i]);
    }
    forall h | h in t.running && h !in s.running
      ensures exists i :: 0 <= i < |valid| && h == HandlerOf(c, s, i, valid[i])
    {
      var i :| 0 <= i < |valid| && h == (s.executions + if c.batchSize.Some? then 0 else i, valid[i]);
      assert h == HandlerOf(c, s, i, valid[i]);
    }
  }

  lemma NothingStarts(c: Config, s: System, t: System)
    requires t.active == s.active && t.running == s.running && t.executions == s.executions
    ensures Started(c, s, t, [])
  {
  }

  /** What is written for one id. */
  predicate Written(u: System, t: System, id: Id, v: Verdict) {
    && t.acked == u.acked + (if v == Missing then [id] else [])
    && t.nacked == u.nacked + (if v == WrongEnvironment then [id] else [])
  }

  function WithAnswer(u: System, id: Id, v: Verdict): System {
    u.(acked := u.acked + (if v == Missing then [id] else []),
       nacked := u.nacked + (if v == WrongEnvironment then [id] else []))
  }

  lemma LookupStep(c: Config, u: System, k: nat, v: Verdict)
    requires PcOf(u, k).Checking? && PcOf(u, k).next < |PcOf(u, k).ids|
    ensures var pc := PcOf(u, k);
            var id := pc.ids[pc.next];
            var valid := pc.valid + (if v == Valid then [id] else []);
            Step(c, u, Checked(k, v))
            == if pc.next + 1 < |pc.ids| then Goto(WithAnswer(u, id, v), k, Checking(pc.ids, pc.next + 1, valid))
               else if valid == [] then ClaimLoop.Finish(WithAnswer(u, id, v), k)
               else Track(c, WithAnswer(u, id, v), k, valid)
  {
    assert PcOf(u, k).valid + [] == PcOf(u, k).valid && u.acked + [] == u.acked && u.nacked + [] == u.nacked;
  }

  /** One lookup: a job that is gone is acked, one of another environment is nacked, any other is kept. */
  lemma LookupWrites(c: Config, u: System, k: nat, v: Verdict)
    requires PcOf(u, k).Checking? && PcOf(u, k).next < |PcOf(u, k).ids|
    ensures var pc, t := PcOf(u, k), Step(c, u, Checked(k, v));
            var id := pc.ids[pc.next];
            var valid := pc.valid + (if v == Valid then [id] else []);
            && Written(u, t, id, v)
            && if pc.next + 1 < |pc.ids|
               then PcOf(t, k) == Checking(pc.ids, pc.next + 1, valid) && t.active == u.active && t.running == u.running
               else PcOf(t, k).Done? && !t.polling && Started(c, u, t, valid)
  {
    LookupStep(c, u, k, v);
    var pc := PcOf(u, k);
    var id := pc.ids[pc.next];
    var valid := pc.valid + (if v == Valid then [id] else []);
    var w := WithAnswer(u, id, v);
    TrackStarts(c, w, k, valid);
    CarriesOver(c, w, u, Track(c, w, k, valid), valid);
    NothingStarts(c, u, ClaimLoop.Finish(w, k));
  }

  lemma CarriesOver(c: Config, w: System, u: System, t: System, ids: seq<Id>)
    requires Started(c, w, t, ids)
    requires u.active == w.active && u.running == w.running && u.executions == w.executions
    ensures Started(c, u, t, ids)
  {
  }

  lemma AnswersAddUp(first: seq<Id>, before: seq<Id>, after: seq<Id>, ids: seq<Id>, verdicts: seq<Verdict>,
                     last: Verdict, v: Verdict)
    requires |verdicts| < |ids| && before == first + With(ids, verdicts, v)
    requires after == before + (if last == v then [ids[|verdicts|]] else [])
    ensures after == first + With(ids, verdicts + [last], v)
  {
    WithNext(ids, verdicts, last, v);
    Associative(first, With(ids, verdicts, v), if last == v then [ids[|verdicts|]] else []);
  }

  lemma Associative(a: seq<Id>, b: seq<Id>, c: seq<Id>)
    ensures a + (b + c) == a + b + c
  {
  }

  /** With each lookup one more verdict has had its effect, and no other. */
  lemma LookupDecides(c: Config, s: System, u: System, k: nat, ids: seq<Id>, verdicts: seq<Verdict>, v: Verdict)
    requires LookedUp(s, u, k, ids, verdicts)
    ensures var t := Step(c, u, Checked(k, v));
            if |verdicts| + 1 < |ids| then LookedUp(s, t, k, ids, verdicts + [v])
            else Settled(s, t, k, ids, verdicts + [v]) && Started(c, u, t, With(ids, verdicts + [v], Valid))
  {
    LookupWrites(c, u, k, v);
    var t := Step(c, u, Checked(k, v));
    AnswersAddUp(s.acked, u.acked, t.acked, ids, verdicts, v, Missing);
    AnswersAddUp(s.nacked, u.nacked, t.nacked, ids, verdicts, v, WrongEnvironment);
    WithNext(ids, verdicts, v, Valid);
  }

  /** Other events leave a poll that is looking up, and what was acked and nacked, as they are. */
  lemma OthersLeaveLookups(c: Config, s: System, e: Event, k: nat)
    requires Bounded(c, s) && Enabled(c, s, e) && PcOf(s, k).Checking? && PcOf(Step(c, s, e), k).Checking?
    requires !(e.Checked? && e.k == k)
    ensures var t := Step(c, s, e);
            PcOf(t, k) == PcOf(s, k) && t.acked == s.acked && t.nacked == s.nacked
  {
    forall j: nat | j != k
      ensures PcOf(s, j).Done?
    {
      assert AtMostOne(s, j, k);
    }
  }

  lemma LookupsGoOn(c: Config, start: System, s: System, e: Event, t: System, k: nat, ids: seq<Id>,
                    verdicts: seq<Verdict>)
    requires Leads(c, s, e, t) && Bounded(c, s) && LookedUp(start, s, k, ids, verdicts) && PcOf(t, k).Checking?
    ensures LookedUp(start, t, k, ids, if e.Checked? && e.k == k then verdicts + [e.verdict] else verdicts)
  {
    if e.Checked? && e.k == k {
      LookupDecides(c, start, s, k, ids, verdicts, e.verdict);
    } else {
      OthersLeaveLookups(c, s, e, k);
    }
  }

  /** While a poll looks its ids up, each verdict so far has had its effect, and no other. */
  lemma {:induction false} LookupsDecide(c: Config, path: seq<System>, events: seq<Event>, m: nat, n: nat, k: nat,
                                         ids: seq<Id>)
    requires IsPath(c, path, events) && m <= n <= |events| && Bounded(c, path[0])
    requires PcOf(path[m], k) == Checking(ids, 0, []) && ids != []
    requires forall i :: m <= i <= n ==> PcOf(path[i], k).Checking?
    ensures LookedUp(path[m], path[n], k, ids, VerdictsOf(events, k, m, n))
  {
    if m < n {
      LookupsDecide(c, path, events, m, n - 1, k, ids);
      assert Leads(c, path[n - 1], events[n - 1], path[n]);
      PathStaysBounded(c, path, events, n - 1);
      var before := VerdictsOf(events, k, m, n - 1);
      assert before + [] == before;
      LookupsGoOn(c, path[m], path[n - 1], events[n - 1], path[n], k, ids, before);
    }
  }

  /**
   However it interleaves with endings, cancellations and stalls, when a poll has looked up all of its ids,
   exactly those whose job is gone were acked, exactly those of another environment were nacked, and exactly
   the others became active, with a handler each.
  */
  lemma PollSettlesEach(c: Config, path: seq<System>, events: seq<Event>, m: nat, n: nat, k: nat, ids: seq<Id>)
    requires IsPath(c, path, events) && m <= n < |events| && Bounded(c, path[0])
    requires PcOf(path[m], k) == Checking(ids, 0, []) && ids != []
    requires forall i :: m <= i <= n ==> PcOf(path[i], k).Checking?
    requires LastCheck(path[n], events[n]) && events[n].k == k
    ensures |VerdictsOf(events, k, m, n + 1)| == |ids|
    ensures var verdicts := VerdictsOf(events, k, m, n + 1);
            Settled(path[m], path[n + 1], k, ids, verdicts)
            && Started(c, path[n], path[n + 1], With(ids, verdicts, Valid))
  {
    LookupsDecide(c, path, events, m, n, k, ids);
    assert Leads(c, path[n], events[n], path[n + 1]);
    LookupDecides(c, path[m], path[n], k, ids, VerdictsOf(events, k, m, n), events[n].verdict);
  }

  // ---------- Ending ----------

  /** The end of an execution ends its handlers, and takes exactly their ids from the active set. */
  lemma EndingFrees(c: Config, s: System, n: nat)
    ensures var t := Step(c, s, Complete(n));
            && t == s.(active := t.active, running := t.running)
            && (forall id :: id in t.active <==> id in s.active && (n, id) !in s.running)
            && (forall h :: h in t.running <==> h in s.running && h.0 != n)
  {
    var t := Step(c, s, Complete(n));
    forall id
      ensures id in t.active <==> id in s.active && (n, id) !in s.running
    {
      assert (n, id).1 == id && (n, id).0 == n;
    }
  }

  /** A cancellation or a stall frees the slot of its job, while the handler runs on. */
  lemma ReleaseFrees(c: Config, s: System, id: Id)
    ensures Step(c, s, Release(id)) == s.(active := s.active - {id})
  {
  }

  /** A poll that fails is over, and the next may start. */
  lemma FailureEndsPoll(c: Config, s: System, k: nat)
    requires Enabled(c, s, Fail(k))
    ensures Step(c, s, Fail(k)) == s.(polls := s.polls[k := Done], polling := false)
  {
  }
}
