/** The compiled expression means what the glob means, for every pattern and every event. */
module EventMatcherProofs {
  import opened Wrappers
  import opened EventMatcher

  // ---------- Splitting and joining ----------

  lemma Associative<T>(a: seq<T>, b: seq<T>, c: seq<T>)
    ensures a + b + c == a + (b + c)
  {
  }

  predicate DotFree(s: string) {
    '.' !in s
  }

  predicate AllDotFree(parts: seq<string>) {
    forall i :: 0 <= i < |parts| ==> DotFree(parts[i])
  }

  lemma {:induction false} SplitIsDotFree(s: string)
    ensures AllDotFree(Split(s))
  {
    if s != "" {
      SplitIsDotFree(s[1..]);
    }
  }

  /** One character more in front. */
  lemma JoinPrepend(c: char, parts: seq<string>)
    requires parts != []
    ensures Join(Prepend(c, parts), ".") == [c] + Join(parts, ".")
  {
    if c == '.' {
      assert Prepend(c, parts)[1..] == parts;
      assert "" + "." + Join(parts, ".") == [c] + Join(parts, ".");
    } else {
      assert Prepend(c, parts)[1..] == parts[1..];
      assert ([c] + parts[0]) + "." + Join(parts[1..], ".") == [c] + (parts[0] + "." + Join(parts[1..], "."));
    }
  }

  lemma {:induction false} JoinSplit(s: string)
    ensures Join(Split(s), ".") == s
  {
    if s != "" {
      JoinSplit(s[1..]);
      JoinPrepend(s[0], Split(s[1..]));
      assert s == [s[0]] + s[1..];
    }
  }

  lemma SplitParts(s: string)
    ensures AllDotFree(Split(s)) && Join(Split(s), ".") == s
  {
    SplitIsDotFree(s);
    JoinSplit(s);
  }

  lemma {:induction false} SplitDotFree(s: string)
    requires DotFree(s)
    ensures Split(s) == [s]
  {
    if s != "" {
      SplitDotFree(s[1..]);
      assert s == [s[0]] + s[1..];
    }
  }

  lemma SplitCons(c: char, rest: string)
    ensures Split([c] + rest) == Prepend(c, Split(rest))
  {
    assert ([c] + rest)[1..] == rest;
  }

  lemma PrependAppends(c: char, left: seq<string>, right: seq<string>)
    requires left != []
    ensures Prepend(c, left + right) == Prepend(c, left) + right
  {
    assert (left + right)[1..] == left[1..] + right;
  }

  /** A dot ends one segment and starts the next. */
  lemma {:induction false} SplitAt(left: string, right: string)
    ensures Split(left + ("." + right)) == Split(left) + Split(right)
  {
    if left == "" {
      assert left + ("." + right) == ['.'] + right;
      SplitCons('.', right);
    } else {
      SplitAt(left[1..], right);
      SplitCons(left[0], left[1..] + ("." + right));
      PrependAppends(left[0], Split(left[1..]), Split(right));
      assert [left[0]] + left[1..] == left;
      Associative([left[0]], left[1..], "." + right);
    }
  }

  /** Cutting a text at a dot, or at its end. */
  function Later(s: string, n: nat): seq<string>
    requires n <= |s|
  {
    if n < |s| then Split(s[n + 1..]) else []
  }

  lemma Cut(s: string, n: nat)
    requires n < |s| && s[n] == '.'
    ensures s == s[..n] + ("." + s[n + 1..])
  {
  }

  lemma SplitCut(s: string, n: nat)
    requires n <= |s| && (n < |s| ==> s[n] == '.')
    ensures Split(s) == Split(s[..n]) + Later(s, n)
  {
    if n < |s| {
      Cut(s, n);
      SplitAt(s[..n], s[n + 1..]);
    } else {
      assert s[..n] == s;
      assert Split(s) + [] == Split(s);
    }
  }

  /** The first `k` segments are a prefix of the text, ended by a dot or by the end of the text. */
  lemma {:induction false} TakeSegments(s: string, k: nat)
    requires 1 <= k <= |Split(s)|
    ensures var t := Join(Split(s)[..k], ".");
      && t <= s
      && (|t| < |s| ==> s[|t|] == '.')
      && Split(s)[k..] == Later(s, |t|)
  {
    SplitParts(s);
    var parts := Split(s);
    if k == |parts| {
      assert parts[..k] == parts;
    } else {
      JoinSplits(parts, k);
      var t := Join(parts[..k], ".");
      assert s[|t| + 1..] == Join(parts[k..], ".");
      SplitJoin(parts[k..]);
    }
  }

  lemma {:induction false} JoinSplits(parts: seq<string>, k: nat)
    requires 1 <= k < |parts|
    ensures Join(parts, ".") == Join(parts[..k], ".") + "." + Join(parts[k..], ".")
  {
    if k == 1 {
      assert parts[..1] == [parts[0]];
    } else {
      JoinSplits(parts[1..], k - 1);
      assert parts[1..][..k - 1] == parts[..k][1..];
      assert parts[1..][k - 1..] == parts[k..];
    }
  }

  lemma {:induction false} SplitJoin(parts: seq<string>)
    requires parts != [] && AllDotFree(parts)
    ensures Split(Join(parts, ".")) == parts
  {
    if |parts| == 1 {
      SplitDotFree(parts[0]);
    } else {
      SplitAt(parts[0], Join(parts[1..], "."));
      Associative(parts[0], ".", Join(parts[1..], "."));
      SplitDotFree(parts[0]);
      SplitJoin(parts[1..]);
    }
  }

  // ---------- The source parses to the intended terms ----------

  function Literals(s: string): seq<Term> {
    if s == "" then [] else [One(Literal(s[0]))] + Literals(s[1..])
  }

  function SegmentTerms(seg: string): seq<Term> {
    if seg == "**" then [Plus(AnyChar)]
    else if seg == "*" then [Plus(NotDot)]
    else Literals(seg)
  }

  const DOT: seq<Term> := [One(Literal('.'))]

  function Terms(segs: seq<string>): seq<Term> {
    if segs == [] then []
    else if |segs| == 1 then SegmentTerms(segs[0])
    else SegmentTerms(segs[0]) + (DOT + Terms(segs[1..]))
  }

  predicate NoQuantifier(src: string) {
    src != "" ==> src[0] != '+'
  }

  /** One escaped character is read back as itself. */
  lemma ParseCharacter(c: char, rest: string, terms: seq<Term>)
    requires NoQuantifier(rest) && Parse(rest) == Some(terms)
    ensures Parse(EscapeRegExp([c]) + rest) == Some([One(Literal(c))] + terms)
    ensures NoQuantifier(EscapeRegExp([c]) + rest)
  {
    var src := EscapeRegExp([c]) + rest;
    assert EscapeRegExp([c]) == if Escaped(c) then ['\\', c] else [c];
    assert src[|EscapeRegExp([c])|..] == rest;
    assert ParseAtom(src) == Some((Literal(c), rest));
  }

  lemma EscapeCons(s: string)
    requires s != ""
    ensures EscapeRegExp(s) == EscapeRegExp([s[0]]) + EscapeRegExp(s[1..])
  {
    assert [s[0]][1..] == "";
  }

  /** Escaped text is read back as the characters it stands for. */
  lemma {:induction false} ParseEscaped(s: string, rest: string, terms: seq<Term>)
    requires NoQuantifier(rest) && Parse(rest) == Some(terms)
    ensures Parse(EscapeRegExp(s) + rest) == Some(Literals(s) + terms)
    ensures NoQuantifier(EscapeRegExp(s) + rest)
  {
    if s == "" {
      assert "" + rest == rest;
      assert [] + terms == terms;
    } else {
      ParseEscaped(s[1..], rest, terms);
      ParseCharacter(s[0], EscapeRegExp(s[1..]) + rest, Literals(s[1..]) + terms);
      EscapeCons(s);
      Associative(EscapeRegExp([s[0]]), EscapeRegExp(s[1..]), rest);
      Associative([One(Literal(s[0]))], Literals(s[1..]), terms);
    }
  }

  lemma ParseSegment(seg: string, rest: string, terms: seq<Term>)
    requires NoQuantifier(rest) && Parse(rest) == Some(terms)
    ensures Parse(SegmentSource(seg) + rest) == Some(SegmentTerms(seg) + terms)
    ensures NoQuantifier(SegmentSource(seg) + rest)
  {
    if seg == "**" {
      var src := ".+" + rest;
      assert ParseAtom(src) == Some((AnyChar, src[1..]));
      assert src[1..][1..] == rest;
    } else if seg == "*" {
      var src := "[^.]+" + rest;
      assert src[..4] == "[^.]";
      assert ParseAtom(src) == Some((NotDot, src[4..]));
      assert src[4..][1..] == rest;
    } else {
      ParseEscaped(seg, rest, terms);
    }
  }

  lemma {:induction false} ParseSegments(segs: seq<string>)
    requires segs != []
    ensures Parse(Join(SegmentSources(segs), "\\.")) == Some(Terms(segs))
    ensures NoQuantifier(Join(SegmentSources(segs), "\\."))
  {
    if |segs| == 1 {
      ParseSegment(segs[0], "", []);
      assert SegmentSource(segs[0]) + "" == SegmentSource(segs[0]);
      assert SegmentTerms(segs[0]) + [] == SegmentTerms(segs[0]);
      assert segs[1..] == [];
    } else {
      ParseSegments(segs[1..]);
      JoinSources(segs);
      var tail := Join(SegmentSources(segs[1..]), "\\.");
      ParseCharacter('.', tail, Terms(segs[1..]));
      ParseSegment(segs[0], EscapeRegExp(".") + tail, DOT + Terms(segs[1..]));
    }
  }

  lemma JoinSources(segs: seq<string>)
    requires |segs| > 1
    ensures Join(SegmentSources(segs), "\\.")
         == SegmentSource(segs[0]) + (EscapeRegExp(".") + Join(SegmentSources(segs[1..]), "\\."))
  {
    var sources := SegmentSources(segs);
    assert sources[1..] == SegmentSources(segs[1..]) && |sources| > 1;
    assert EscapeRegExp(".") == "\\.";
    Associative(sources[0], "\\.", Join(sources[1..], "\\."));
  }

  // ---------- The terms accept the intended texts ----------

  predicate AllMatch(atom: Atom, s: string) {
    forall i :: 0 <= i < |s| ==> CharMatches(atom, s[i])
  }

  lemma {:induction false} AcceptsLiterals(s: string, rest: seq<Term>, text: string)
    ensures Accepts(Literals(s) + rest, text) <==> s <= text && Accepts(rest, text[|s|..])
  {
    if s == "" {
      assert [] + rest == rest;
    } else {
      assert (Literals(s) + rest)[1..] == Literals(s[1..]) + rest;
      if text != "" {
        AcceptsLiterals(s[1..], rest, text[1..]);
        assert s <= text <==> s[0] == text[0] && s[1..] <= text[1..];
        if s <= text {
          assert text[1..][|s| - 1..] == text[|s|..];
        }
      }
    }
  }

  /** The text splits after `n` characters into matching characters and an accepted rest. */
  predicate SplitsAt(atom: Atom, rest: seq<Term>, s: string, n: nat) {
    n <= |s| && AllMatch(atom, s[..n]) && Accepts(rest, s[n..])
  }

  lemma SplitsLater(atom: Atom, rest: seq<Term>, s: string, n: nat)
    requires s != ""
    ensures SplitsAt(atom, rest, s, n + 1) <==> CharMatches(atom, s[0]) && SplitsAt(atom, rest, s[1..], n)
  {
    if n + 1 <= |s| {
      assert s[..n + 1] == [s[0]] + s[1..][..n];
      assert s[n + 1..] == s[1..][n..];
      assert s[..n + 1][1..] == s[1..][..n];
    }
  }

  /** A repetition accepts exactly the texts that split into matching characters and an accepted rest. */
  lemma {:induction false} RepeatSplits(atom: Atom, rest: seq<Term>, s: string)
    ensures Repeat(atom, rest, s) <==> exists n: nat :: SplitsAt(atom, rest, s, n)
  {
    assert SplitsAt(atom, rest, s, 0) <==> Accepts(rest, s) by {
      assert s[0..] == s;
    }
    if s != "" {
      RepeatSplits(atom, rest, s[1..]);
      forall n: nat {
        SplitsLater(atom, rest, s, n);
      }
      if n: nat :| SplitsAt(atom, rest, s, n) && n > 0 {
        SplitsLater(atom, rest, s, n - 1);
      }
    }
  }

  lemma AcceptsPlus(atom: Atom, rest: seq<Term>, s: string)
    ensures Accepts([Plus(atom)] + rest, s) <==> exists n: nat :: n > 0 && SplitsAt(atom, rest, s, n)
  {
    assert ([Plus(atom)] + rest)[1..] == rest;
    if s != "" {
      RepeatSplits(atom, rest, s[1..]);
      forall n: nat {
        SplitsLater(atom, rest, s, n);
      }
      if n: nat :| SplitsAt(atom, rest, s, n) && n > 0 {
        SplitsLater(atom, rest, s, n - 1);
      }
    }
  }

  /** What follows a segment: the end of the text, or a dot and the remaining segments. */
  function Tail(segs: seq<string>): seq<Term> {
    if segs == [] then [] else DOT + Terms(segs)
  }

  lemma AcceptsTail(segs: seq<string>, s: string)
    ensures Accepts(Tail(segs), s) <==>
            if segs == [] then s == "" else s != "" && s[0] == '.' && Accepts(Terms(segs), s[1..])
  {
    if segs != [] {
      assert Tail(segs)[1..] == Terms(segs);
    }
  }

  lemma AcceptsHead(pats: seq<string>, s: string)
    requires pats != []
    ensures Terms(pats) == SegmentTerms(pats[0]) + Tail(pats[1..])
  {
    if |pats| == 1 {
      assert SegmentTerms(pats[0]) + [] == SegmentTerms(pats[0]);
    }
  }

  /** The compiled terms accept an event exactly when its segments match the pattern's. */
  lemma {:induction false} AcceptsSegments(pats: seq<string>, s: string)
    requires pats != [] && AllDotFree(pats)
    ensures Accepts(Terms(pats), s) <==> SegmentsMatch(pats, Split(s))
    decreases |pats|, 1
  {
    AcceptsHead(pats, s);
    if Accepts(Terms(pats), s) {
      if pats[0] == "**" { SpanForward(pats, s); } else { OneForward(pats, s); }
    }
    if SegmentsMatch(pats, Split(s)) {
      if pats[0] == "**" { SpanBackward(pats, s); } else { OneBackward(pats, s); }
    }
  }

  /** What follows a cut is accepted exactly when the cut is at a dot or at the end and the rest matches. */
  lemma {:induction false} AcceptsRest(rest: seq<string>, s: string, n: nat)
    requires n <= |s| && AllDotFree(rest)
    ensures Accepts(Tail(rest), s[n..]) <==> (n < |s| ==> s[n] == '.') && SegmentsMatch(rest, Later(s, n))
    decreases |rest|, 2
  {
    AcceptsTail(rest, s[n..]);
    if n < |s| {
      assert s[n..][1..] == s[n + 1..];
      if rest != [] {
        AcceptsSegments(rest, s[n + 1..]);
      }
    }
  }

  lemma MatchOne(pats: seq<string>, seg: string, later: seq<string>)
    requires pats != [] && pats[0] != "**"
    ensures SegmentsMatch(pats, [seg] + later) <==>
            (if pats[0] == "*" then seg != "" else seg == pats[0]) && SegmentsMatch(pats[1..], later)
  {
    assert ([seg] + later)[1..] == later;
  }

  lemma MatchMany(pats: seq<string>, first: seq<string>, later: seq<string>)
    requires pats != [] && pats[0] == "**" && first != []
    requires Spans(Join(first, ".")) && SegmentsMatch(pats[1..], later)
    ensures SegmentsMatch(pats, first + later)
  {
    assert (first + later)[..|first|] == first && (first + later)[|first|..] == later;
  }

  lemma {:induction false} OneForward(pats: seq<string>, s: string)
    requires pats != [] && AllDotFree(pats) && pats[0] != "**"
    requires Accepts(SegmentTerms(pats[0]) + Tail(pats[1..]), s)
    ensures SegmentsMatch(pats, Split(s))
    decreases |pats|, 0
  {
    var n: nat;
    if pats[0] == "*" {
      AcceptsPlus(NotDot, Tail(pats[1..]), s);
      n :| n > 0 && SplitsAt(NotDot, Tail(pats[1..]), s, n);
      assert DotFree(s[..n]);
    } else {
      AcceptsLiterals(pats[0], Tail(pats[1..]), s);
      n := |pats[0]|;
      assert s[..n] == pats[0];
    }
    AcceptsRest(pats[1..], s, n);
    SplitDotFree(s[..n]);
    SplitCut(s, n);
    MatchOne(pats, s[..n], Later(s, n));
  }

  lemma {:induction false} OneBackward(pats: seq<string>, s: string)
    requires pats != [] && AllDotFree(pats) && pats[0] != "**"
    requires SegmentsMatch(pats, Split(s))
    ensures Accepts(SegmentTerms(pats[0]) + Tail(pats[1..]), s)
    decreases |pats|, 0
  {
    TakeSegments(s, 1);
    SplitParts(s);
    var segs := Split(s);
    assert segs[..1] == [segs[0]];
    var n := |segs[0]|;
    assert s[..n] == segs[0];
    AcceptsRest(pats[1..], s, n);
    if pats[0] == "*" {
      AcceptsPlus(NotDot, Tail(pats[1..]), s);
      assert SplitsAt(NotDot, Tail(pats[1..]), s, n);
    } else {
      AcceptsLiterals(pats[0], Tail(pats[1..]), s);
    }
  }

  lemma {:induction false} SpanForward(pats: seq<string>, s: string)
    requires pats != [] && AllDotFree(pats) && pats[0] == "**"
    requires Accepts(SegmentTerms(pats[0]) + Tail(pats[1..]), s)
    ensures SegmentsMatch(pats, Split(s))
    decreases |pats|, 0
  {
    AcceptsPlus(AnyChar, Tail(pats[1..]), s);
    var n: nat :| n > 0 && SplitsAt(AnyChar, Tail(pats[1..]), s, n);
    AcceptsRest(pats[1..], s, n);
    SplitParts(s[..n]);
    SplitCut(s, n);
    MatchMany(pats, Split(s[..n]), Later(s, n));
  }

  lemma {:induction false} SpanBackward(pats: seq<string>, s: string)
    requires pats != [] && AllDotFree(pats) && pats[0] == "**"
    requires SegmentsMatch(pats, Split(s))
    ensures Accepts(SegmentTerms(pats[0]) + Tail(pats[1..]), s)
    decreases |pats|, 0
  {
    var segs := Split(s);
    var k :| 1 <= k <= |segs| && Spans(Join(segs[..k], ".")) && SegmentsMatch(pats[1..], segs[k..]);
    TakeSegments(s, k);
    var t := Join(segs[..k], ".");
    assert s[..|t|] == t;
    AcceptsRest(pats[1..], s, |t|);
    AcceptsPlus(AnyChar, Tail(pats[1..]), s);
    assert SplitsAt(AnyChar, Tail(pats[1..]), s, |t|);
  }

  // ---------- Main results ----------

  /** The generated regular expression accepts exactly the events whose segments match. */
  lemma {:induction false} CompilePreservesMeaning(pattern: string, event: string)
    ensures Test(RegexSource(pattern), event) <==> SegmentsMatch(Split(pattern), Split(event))
  {
    var segs := Split(pattern);
    var body := Join(SegmentSources(segs), "\\.");
    ParseSegments(segs);
    assert RegexSource(pattern)[1..|RegexSource(pattern)| - 1] == body;
    SplitParts(pattern);
    AcceptsSegments(segs, event);
  }

  lemma {:induction false} SegmentsMatchThemselves(segs: seq<string>)
    ensures SegmentsMatch(segs, segs)
  {
    if segs != [] {
      SegmentsMatchThemselves(segs[1..]);
      if segs[0] == "**" {
        assert segs[..1] == ["**"];
        assert Spans(Join(segs[..1], "."));
      }
    }
  }

  /** Without a star a pattern matches only itself. */
  lemma {:induction false} LiteralSegments(pats: seq<string>, segs: seq<string>)
    requires forall i :: 0 <= i < |pats| ==> '*' !in pats[i]
    ensures SegmentsMatch(pats, segs) <==> pats == segs
  {
    if pats != [] {
      assert pats[0] != "*" && pats[0] != "**";
      if segs != [] {
        LiteralSegments(pats[1..], segs[1..]);
        assert pats == [pats[0]] + pats[1..];
        assert segs == [segs[0]] + segs[1..];
      }
    }
  }

  lemma {:induction false} SplitKeepsCharacters(s: string, c: char)
    requires c !in s
    ensures forall i :: 0 <= i < |Split(s)| ==> c !in Split(s)[i]
  {
    if s != "" {
      SplitKeepsCharacters(s[1..], c);
    }
  }

  /** One pattern, shortcuts included. */
  lemma MatchesPatternMeaning(event: string, pattern: string)
    ensures MatchesPattern(event, pattern) <==>
            pattern == "*" || pattern == "**" || SegmentsMatch(Split(pattern), Split(event))
  {
    CompilePreservesMeaning(pattern, event);
    if pattern == event {
      SegmentsMatchThemselves(Split(pattern));
    }
    if '*' !in pattern {
      SplitKeepsCharacters(pattern, '*');
      LiteralSegments(Split(pattern), Split(event));
      SplitParts(pattern);
      SplitParts(event);
    }
  }

  /** `matchesEvent` for every event and every list of patterns. */
  lemma {:induction false} MatchesEventMeaning(event: string, patterns: seq<string>)
    ensures MatchesEvent(event, patterns) <==>
            exists i :: 0 <= i < |patterns|
              && (patterns[i] == "*" || patterns[i] == "**" || SegmentsMatch(Split(patterns[i]), Split(event)))
  {
    forall i | 0 <= i < |patterns|
      ensures MatchesPattern(event, patterns[i]) <==>
              patterns[i] == "*" || patterns[i] == "**" || SegmentsMatch(Split(patterns[i]), Split(event))
    {
      MatchesPatternMeaning(event, patterns[i]);
    }
  }

  lemma TwoSegments(a: string, b: string)
    requires DotFree(a) && DotFree(b)
    ensures Split(a + "." + b) == [a, b]
  {
    SplitAt(a, b);
    Associative(a, ".", b);
    SplitDotFree(a);
    SplitDotFree(b);
  }

  /** A one-segment event against a star of either kind. */
  lemma StarOnOneSegment(seg: string)
    ensures SegmentsMatch(["*"], [seg]) <==> seg != ""
    ensures SegmentsMatch(["**"], [seg]) <==> Spans(seg)
  {
    assert ["*"][1..] == [] && ["**"][1..] == [] && [seg][1..] == [];
    assert [seg][..1] == [seg];
  }

  /**
   Whatever a second segment holds, one star stands for it unless it is empty, and two stars do so unless it
   is empty or holds a line feed, a carriage return, or one of the separators U+2028 and U+2029.
  */
  lemma StarsOnSecondSegment(seg: string)
    requires DotFree(seg)
    ensures MatchesPattern("user" + "." + seg, "user" + "." + "*") <==> seg != ""
    ensures MatchesPattern("user" + "." + seg, "user" + "." + "**") <==>
              seg != "" && '\n' !in seg && '\r' !in seg && '\U{2028}' !in seg && '\U{2029}' !in seg
  {
    OnSecondSegment(seg, "*");
    OnSecondSegment(seg, "**");
    StarOnOneSegment(seg);
    SpansIff(seg);
  }

  lemma OnSecondSegment(seg: string, stars: string)
    requires DotFree(seg) && DotFree(stars)
    ensures MatchesPattern("user" + "." + seg, "user" + "." + stars) <==> SegmentsMatch([stars], [seg])
  {
    TwoSegments("user", seg);
    TwoSegments("user", stars);
    assert ["user", stars][1..] == [stars] && ["user", seg][1..] == [seg];
    MatchesPatternMeaning("user" + "." + seg, "user" + "." + stars);
    assert ("user" + "." + stars)[0] == 'u';
  }

  lemma SpansIff(seg: string)
    ensures Spans(seg) <==>
              seg != "" && '\n' !in seg && '\r' !in seg && '\U{2028}' !in seg && '\U{2029}' !in seg
  {
    if seg != "" && !Spans(seg) {
      var i :| 0 <= i < |seg| && LineTerminator(seg[i]);
      assert seg[i] in seg;
    }
  }

  /**
   `**` is documented as one or more segments, but it does not cross a line terminator, while `*`
   does: the event of two segments below matches `user.*` and not `user.**`.
  */
  lemma LineTerminatorExample()
    ensures MatchesPattern("user" + "." + "a\nb", "user" + "." + "*")
    ensures !MatchesPattern("user" + "." + "a\nb", "user" + "." + "**")
  {
    assert "a\nb"[1] == '\n';
    StarsOnSecondSegment("a\nb");
  }
}
