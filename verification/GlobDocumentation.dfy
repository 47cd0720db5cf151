/** For which events the matcher does what its documentation says. */
module GlobDocumentation {
  import opened Wrappers
  import opened EventMatcher
  import opened EventMatcherProofs

  /** As documented: `*` is a single segment and `**` is one or more, whatever they hold. */
  ghost predicate DocumentedMatch(pats: seq<string>, segs: seq<string>) {
    if pats == [] then segs == []
    else if pats[0] == "**" then exists k :: 1 <= k <= |segs| && DocumentedMatch(pats[1..], segs[k..])
    else segs != [] && (pats[0] == "*" || segs[0] == pats[0]) && DocumentedMatch(pats[1..], segs[1..])
  }

  ghost predicate DocumentedPattern(event: string, pattern: string) {
    pattern == "*" || pattern == "**" || DocumentedMatch(Split(pattern), Split(event))
  }

  /** Every segment holds something, and no line terminator. */
  ghost predicate Clean(segs: seq<string>) {
    forall i :: 0 <= i < |segs| ==> Spans(segs[i])
  }

  lemma {:induction false} JoinSpans(segs: seq<string>)
    requires Clean(segs) && segs != []
    ensures Spans(Join(segs, "."))
  {
    if |segs| > 1 {
      JoinSpans(segs[1..]);
      var rest := Join(segs[1..], ".");
      var joined := segs[0] + "." + rest;
      assert Spans(segs[0]);
      forall i | 0 <= i < |joined|
        ensures !LineTerminator(joined[i])
      {
        var k := i - |segs[0]|;
        assert joined[i] == if k < 0 then segs[0][i] else if k == 0 then '.' else rest[k - 1];
      }
    } else {
      assert Spans(segs[0]);
    }
  }

  lemma {:induction false} CleanAgrees(pats: seq<string>, segs: seq<string>)
    requires Clean(segs)
    ensures SegmentsMatch(pats, segs) <==> DocumentedMatch(pats, segs)
  {
    if pats == [] {
    } else if pats[0] == "**" {
      forall k | 1 <= k <= |segs|
        ensures Spans(Join(segs[..k], "."))
        ensures SegmentsMatch(pats[1..], segs[k..]) <==> DocumentedMatch(pats[1..], segs[k..])
      {
        JoinSpans(segs[..k]);
        CleanAgrees(pats[1..], segs[k..]);
      }
    } else if segs != [] {
      assert Spans(segs[0]);
      CleanAgrees(pats[1..], segs[1..]);
    }
  }

  /** A match takes at least one segment for each pattern segment. */
  lemma {:induction false} MatchTakesEach(pats: seq<string>, segs: seq<string>)
    ensures SegmentsMatch(pats, segs) || DocumentedMatch(pats, segs) ==> |pats| <= |segs|
  {
    if pats == [] {
    } else if pats[0] == "**" {
      forall k | 1 <= k <= |segs|
        ensures SegmentsMatch(pats[1..], segs[k..]) || DocumentedMatch(pats[1..], segs[k..]) ==> |pats| <= |segs|
      {
        MatchTakesEach(pats[1..], segs[k..]);
      }
    } else if segs != [] {
      MatchTakesEach(pats[1..], segs[1..]);
    }
  }

  /** With as many pattern segments as segments, each takes its own. */
  lemma {:induction false} MatchIsAligned(pats: seq<string>, segs: seq<string>, i: nat)
    requires |pats| == |segs| && i < |segs| && SegmentsMatch(pats, segs)
    ensures pats[i] == "*" ==> segs[i] != ""
    ensures pats[i] == "**" ==> Spans(segs[i])
  {
    var k := 1;
    if pats[0] == "**" {
      k :| 1 <= k <= |segs| && Spans(Join(segs[..k], ".")) && SegmentsMatch(pats[1..], segs[k..]);
      MatchTakesEach(pats[1..], segs[k..]);
      assert segs[..k] == [segs[0]];
    }
    if i > 0 {
      MatchIsAligned(pats[1..], segs[1..], i - 1);
    }
  }

  /** As documented, a star put for one segment matches, whatever the segment is. */
  lemma {:induction false} StarMatches(segs: seq<string>, i: nat, star: string)
    requires i <= |segs| && (star == "*" || star == "**")
    ensures DocumentedMatch(if i < |segs| then segs[i := star] else segs, segs)
  {
    if segs != [] {
      var pats := if i < |segs| then segs[i := star] else segs;
      var rest := segs[1..];
      if i == 0 {
        StarMatches(rest, |rest|, star);
        assert pats[1..] == rest;
      } else {
        StarMatches(rest, i - 1, star);
        assert pats[1..] == if i - 1 < |rest| then rest[i - 1 := star] else rest;
      }
      assert pats[0] == "**" ==> segs[1..] == rest && 1 <= |segs|;
    }
  }

  /**
   A segment that is empty, or holds a line terminator, gives a pattern that the code does not match as
   documented.
  */
  lemma DirtyDiffers(event: string, i: nat) returns (pattern: string)
    requires |Split(event)| > 1 && i < |Split(event)| && !Spans(Split(event)[i])
    ensures DocumentedPattern(event, pattern) && !MatchesPattern(event, pattern)
  {
    var segs := Split(event);
    var star := if segs[i] == "" then "*" else "**";
    var pats := segs[i := star];
    pattern := Join(pats, ".");
    SplitParts(event);
    SplitJoin(pats);
    SplitDotFree("*");
    SplitDotFree("**");
    StarMatches(segs, i, star);
    if SegmentsMatch(pats, segs) {
      MatchIsAligned(pats, segs, i);
    }
    MatchesPatternMeaning(event, pattern);
  }

  lemma SingleAgrees(pats: seq<string>, segs: seq<string>)
    requires |segs| == 1 && pats != [] && pats != ["*"] && pats != ["**"]
    ensures SegmentsMatch(pats, segs) <==> DocumentedMatch(pats, segs)
  {
    MatchTakesEach(pats, segs);
    assert |pats| == 1 ==> pats == [pats[0]];
    assert |pats| == 1 ==> pats[1..] == [];
    assert segs[1..] == [];
  }

  lemma CleanOrSingleAgrees(event: string, pattern: string)
    requires Clean(Split(event)) || |Split(event)| == 1
    ensures MatchesPattern(event, pattern) <==> DocumentedPattern(event, pattern)
  {
    var pats, segs := Split(pattern), Split(event);
    MatchesPatternMeaning(event, pattern);
    if Clean(segs) {
      CleanAgrees(pats, segs);
    } else {
      SplitParts(pattern);
      if pats != ["*"] && pats != ["**"] {
        SingleAgrees(pats, segs);
      }
    }
  }

  /**
   The code matches an event as documented, under every pattern, if and only if the event is one segment
   or each of its segments is non-empty and free of line terminators.
  */
  lemma MatchesAsDocumentedIff(event: string)
    ensures (forall pattern :: MatchesPattern(event, pattern) <==> DocumentedPattern(event, pattern))
            <==> Clean(Split(event)) || |Split(event)| == 1
  {
    if Clean(Split(event)) || |Split(event)| == 1 {
      forall pattern
        ensures MatchesPattern(event, pattern) <==> DocumentedPattern(event, pattern)
      {
        CleanOrSingleAgrees(event, pattern);
      }
    } else {
      var i :| 0 <= i < |Split(event)| && !Spans(Split(event)[i]);
      var pattern := DirtyDiffers(event, i);
    }
  }
}
