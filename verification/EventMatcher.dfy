/**
 The webhook event matcher: a segment glob is compiled to the text of an anchored regular
 expression, and the expression is run on the event. The regular expressions that can arise are
 parsed and matched as sections 22.2.1 and 22.2.2 of ECMA-262 prescribe.
*/
module EventMatcher {
  import opened Wrappers

  // ---------- Strings ----------

  /** `s.split(".")` */
  function Split(s: string): (parts: seq<string>)
    ensures parts != []
  {
    if s == "" then [""] else Prepend(s[0], Split(s[1..]))
  }

  /** The segments of a text with one more character in front. */
  function Prepend(c: char, parts: seq<string>): (r: seq<string>)
    requires parts != []
    ensures r != []
  {
    if c == '.' then [""] + parts else [[c] + parts[0]] + parts[1..]
  }

  /** `parts.join(sep)` */
  function Join(parts: seq<string>, sep: string): string {
    if parts == [] then ""
    else if |parts| == 1 then parts[0]
    else parts[0] + sep + Join(parts[1..], sep)
  }

  // ---------- The compiler ----------

  /** The characters that `escapeRegExp` puts a backslash before. */
  predicate Escaped(c: char) {
    c in ".*+?^${}()|[]\\"
  }

  function EscapeRegExp(s: string): string {
    if s == "" then ""
    else (if Escaped(s[0]) then ['\\', s[0]] else [s[0]]) + EscapeRegExp(s[1..])
  }

  function SegmentSource(seg: string): string {
    if seg == "**" then ".+"
    else if seg == "*" then "[^.]+"
    else EscapeRegExp(seg)
  }

  function SegmentSources(segs: seq<string>): seq<string> {
    if segs == [] then [] else [SegmentSource(segs[0])] + SegmentSources(segs[1..])
  }

  function RegexSource(pattern: string): string {
    "^" + Join(SegmentSources(Split(pattern)), "\\.") + "$"
  }

  predicate MatchesPattern(event: string, pattern: string) {
    || pattern == event
    || pattern == "*" || pattern == "**"
    || ('*' in pattern && Test(RegexSource(pattern), event))
  }

  predicate MatchesEvent(event: string, patterns: seq<string>) {
    exists i :: 0 <= i < |patterns| && MatchesPattern(event, patterns[i])
  }

  // ---------- Regular expressions ----------

  datatype Atom = Literal(c: char) | AnyChar | NotDot
  datatype Term = One(atom: Atom) | Plus(atom: Atom)

  /** The characters with a meaning of their own in a pattern, section 22.2.1 of ECMA-262. */
  predicate SyntaxCharacter(c: char) {
    c in "^$\\.*+?()[]{}|"
  }

  /** An atom at the start of `src`; `None` outside the fragment the compiler can emit. */
  function ParseAtom(src: string): (r: Option<(Atom, string)>)
    ensures r.Some? ==> |r.value.1| < |src|
  {
    if src == "" then None
    else if src[0] == '\\' then
      if |src| >= 2 && SyntaxCharacter(src[1]) then Some((Literal(src[1]), src[2..])) else None
    else if src[0] == '.' then Some((AnyChar, src[1..]))
    else if src[0] == '[' then
      if "[^.]" <= src then Some((NotDot, src[4..])) else None
    else if SyntaxCharacter(src[0]) then None
    else Some((Literal(src[0]), src[1..]))
  }

  function Parse(src: string): Option<seq<Term>>
    decreases |src|
  {
    if src == "" then Some([])
    else match ParseAtom(src)
      case None => None
      case Some((atom, rest)) =>
        var plus := rest != "" && rest[0] == '+';
        match Parse(if plus then rest[1..] else rest)
        case None => None
        case Some(terms) => Some([if plus then Plus(atom) else One(atom)] + terms)
  }

  predicate LineTerminator(c: char) {
    c == '\n' || c == '\r' || c == '\U{2028}' || c == '\U{2029}'
  }

  predicate CharMatches(atom: Atom, c: char) {
    match atom
    case Literal(l) => c == l
    case AnyChar => !LineTerminator(c)
    case NotDot => c != '.'
  }

  /** The matcher of the terms, continued by the end-of-input assertion. */
  predicate Accepts(terms: seq<Term>, s: string)
    decreases |terms|, 0, |s|
  {
    if terms == [] then s == ""
    else if s == "" || !CharMatches(terms[0].atom, s[0]) then false
    else if terms[0].One? then Accepts(terms[1..], s[1..])
    else Repeat(terms[0].atom, terms[1..], s[1..])
  }

  /** A greedy repetition that has met its minimum: one more round, or on to `rest`. */
  predicate Repeat(atom: Atom, rest: seq<Term>, s: string)
    decreases |rest|, 1, |s|
  {
    || (s != "" && CharMatches(atom, s[0]) && Repeat(atom, rest, s[1..]))
    || Accepts(rest, s)
  }

  /** `new RegExp(source).test(s)` for a source anchored at both ends. */
  predicate Test(source: string, s: string) {
    && |source| >= 2 && source[0] == '^' && source[|source| - 1] == '$'
    && var terms := Parse(source[1..|source| - 1]);
       terms.Some? && Accepts(terms.value, s)
  }

  // ---------- What a glob means ----------

  /** Text that `**` may stand for. */
  predicate Spans(s: string) {
    s != "" && forall i :: 0 <= i < |s| ==> !LineTerminator(s[i])
  }

  /**
   The event's segments split into one run for each pattern segment: a literal equals its segment,
   `*` takes one non-empty segment, `**` takes one or more whose joined text is non-empty and holds
   no line terminator.
  */
  ghost predicate SegmentsMatch(pats: seq<string>, segs: seq<string>) {
    if pats == [] then segs == []
    else if pats[0] == "**" then
      exists k :: 1 <= k <= |segs| && Spans(Join(segs[..k], ".")) && SegmentsMatch(pats[1..], segs[k..])
    else
      && segs != []
      && (if pats[0] == "*" then segs[0] != "" else segs[0] == pats[0])
      && SegmentsMatch(pats[1..], segs[1..])
  }
}
