/**
 * The five `.env` line patterns of `VersionComparator.parse_env_content`,
 * each a hand-written matcher for `re.match(pattern, line, re.IGNORECASE)`,
 * together with a reading of the same pattern as a decomposition of the line
 * and a proof that the two agree.
 *
 * Every pattern is a name part followed by an assignment part:
 *   `(\w+)_VERSION`, `VERSION_(\w+)`, `(\w+)_TAG`, `IMAGE_(\w+)`, or one of
 *   five fixed names, then `\s*=\s*["']?([^\s"']+)["']?`, except for
 *   `IMAGE_`, whose assignment part is `\s*=\s*["']?[^:]+:([^\s"']+)["']?`.
 */
module EnvPatterns {
  import opened Wrappers
  import opened Text

  /** `\w` on ASCII: letters, digits and `_`. */
  predicate IsWordChar(c: char) {
    ('a' <= c <= 'z') || ('A' <= c <= 'Z') || ('0' <= c <= '9') || c == '_'
  }

  predicate IsQuote(c: char) { c == '"' || c == '\'' }

  /** `[^\s"']`: neither whitespace nor a quote. */
  predicate IsValueChar(c: char) { !IsSpace(c) && !IsQuote(c) }

  predicate Words(s: string) { forall i :: 0 <= i < |s| ==> IsWordChar(s[i]) }

  predicate Spaces(s: string) { forall i :: 0 <= i < |s| ==> IsSpace(s[i]) }

  predicate ValueChars(s: string) { forall i :: 0 <= i < |s| ==> IsValueChar(s[i]) }

  /** `["']?`: nothing or one quote. */
  predicate OptionalQuote(q: string) { q == [] || (|q| == 1 && IsQuote(q[0])) }

  /** `v` is what the greedy `([^\s"']+)` captures when `tail` follows it. */
  predicate GreedyValue(v: string, tail: string) {
    v != [] && ValueChars(v) && (tail == [] || !IsValueChar(tail[0]))
  }

  /** Case-insensitive equality (ASCII). */
  predicate SameIgnoringCase(a: string, b: string) { Lower(a) == Lower(b) }

  // ---------------------------------------------------------------------
  // Small facts about splitting strings.
  // ---------------------------------------------------------------------

  /** The two halves of a concatenation are recovered by slicing. */
  lemma Halves(s: string, a: string, b: string)
    requires s == a + b
    ensures s[..|a|] == a && s[|a|..] == b
  {
  }

  /** A string is its prefix followed by its suffix. */
  lemma Cut(s: string, i: nat)
    requires i <= |s|
    ensures s == s[..i] + s[i..]
  {
  }

  /** When `s == w + t`, `w` satisfies `p` throughout and `t` does not start with it, `w` is the leading run. */
  lemma LeadingRun(s: string, w: string, t: string, p: char -> bool)
    requires s == w + t
    requires forall i :: 0 <= i < |w| ==> p(w[i])
    requires t == [] || !p(t[0])
    ensures LeadingCount(s, p) == |w|
  {
    LeadingCountIs(s, p, |w|);
  }

  lemma SpacesRun(s: string)
    ensures Spaces(s[..LeadingCount(s, IsSpace)])
  {
  }

  lemma WordsRun(s: string)
    ensures Words(s[..LeadingCount(s, IsWordChar)])
  {
  }

  lemma WordsAppend(a: string, b: string)
    requires Words(a) && Words(b)
    ensures Words(a + b)
  {
  }

  /** Case-insensitive copies of a word literal are words of the same length. */
  lemma SameIgnoringCaseWords(l: string, lit: string)
    requires Words(lit) && SameIgnoringCase(l, lit)
    ensures |l| == |lit| && Words(l)
  {
    forall i | 0 <= i < |l| ensures IsWordChar(l[i]) {
      assert LowerChar(l[i]) == Lower(lit)[i] == LowerChar(lit[i]);
    }
  }

  // ---------------------------------------------------------------------
  // The assignment parts.
  // ---------------------------------------------------------------------

  /** The part after the name. */
  datatype ValuePart =
    | Plain       // \s*=\s*["']?([^\s"']+)["']?
    | AfterColon  // \s*=\s*["']?[^:]+:([^\s"']+)["']?

  /** The longest run of value characters at the start of `s`. */
  function ValueRun(s: string): (v: string)
    ensures |v| <= |s| && v == s[..|v|]
    ensures ValueChars(v)
    ensures |v| < |s| ==> !IsValueChar(s[|v|])
  {
    s[..LeadingCount(s, IsValueChar)]
  }

  /** `\s*=`: the text after the `=`, if whitespace and then `=` start `rest`. */
  function AfterAssign(rest: string): Option<string> {
    var a := LeadingCount(rest, IsSpace);
    if a == |rest| || rest[a] != '=' then None else Some(rest[a + 1..])
  }

  /** `\s*["']?([^\s"']+)`: the value at the start of `t`. */
  function PlainCapture(t: string): Option<string> {
    var u := t[LeadingCount(t, IsSpace)..];
    var u' := if u != [] && IsQuote(u[0]) then u[1..] else u;
    var v := ValueRun(u');
    if v == [] then None else Some(v)
  }

  /**
   * `\s*["']?[^:]+:([^\s"']+)`: the value after the first colon of `t`.
   * `[^:]+` cannot pass a colon, so the colon it stops at is the first one,
   * and the three pieces before it accept any non-empty colon-free text.
   */
  function ColonCapture(t: string): Option<string> {
    if ':' !in t then None
    else
      var c := IndexOf(t, ':');
      var v := ValueRun(t[c + 1..]);
      if c == 0 || v == [] then None else Some(v)
  }

  /** The value captured by the assignment part at the start of `rest`, if it matches. */
  function ValueMatch(part: ValuePart, rest: string): Option<string> {
    match AfterAssign(rest)
    case None => None
    case Some(t) =>
      match part
      case Plain => PlainCapture(t)
      case AfterColon => ColonCapture(t)
  }

  /** `rest == ws + "=" + t` with `ws` whitespace. */
  predicate AssignPieces(rest: string, ws: string, t: string) {
    rest == ws + "=" + t && Spaces(ws)
  }

  /** `t == ws + q + v + tail`: whitespace, an optional quote, the greedy capture `v`. */
  predicate PlainPieces(t: string, ws: string, q: string, v: string, tail: string) {
    t == ws + q + v + tail && Spaces(ws) && OptionalQuote(q) && GreedyValue(v, tail)
  }

  /** `t == mid + ":" + v + tail`: non-empty colon-free text, a colon, the greedy capture `v`. */
  predicate ColonPieces(t: string, mid: string, v: string, tail: string) {
    t == mid + ":" + v + tail && mid != [] && ':' !in mid && GreedyValue(v, tail)
  }

  /** The assignment part read literally, with `v` the greedy capture. */
  ghost predicate ValueForm(part: ValuePart, rest: string, v: string) {
    exists ws, t :: AssignPieces(rest, ws, t) &&
      match part
      case Plain => exists ws', q, tail :: PlainPieces(t, ws', q, v, tail)
      case AfterColon => exists mid, tail :: ColonPieces(t, mid, v, tail)
  }

  lemma AfterAssignSound(rest: string)
    requires AfterAssign(rest).Some?
    ensures AssignPieces(rest, rest[..LeadingCount(rest, IsSpace)], AfterAssign(rest).value)
  {
    SpacesRun(rest);
  }

  lemma AfterAssignComplete(rest: string, ws: string, t: string)
    requires AssignPieces(rest, ws, t)
    ensures AfterAssign(rest) == Some(t)
  {
    assert rest == ws + ("=" + t);
    LeadingRun(rest, ws, "=" + t, IsSpace);
  }

  lemma PlainCaptureSound(t: string)
    requires PlainCapture(t).Some?
    ensures exists ws, q, tail :: PlainPieces(t, ws, q, PlainCapture(t).value, tail)
  {
    var v := PlainCapture(t).value;
    var b := LeadingCount(t, IsSpace);
    var ws := t[..b];
    var u := t[b..];
    var q := if u != [] && IsQuote(u[0]) then u[..1] else [];
    var u' := u[|q|..];
    var tail := u'[|v|..];
    Cut(u', |v|);
    Cut(u, |q|);
    Cut(t, b);
    SpacesRun(t);
    PlainPiecesIntro(t, ws, u, q, u', v, tail);
  }

  lemma PlainPiecesIntro(t: string, ws: string, u: string, q: string, u': string, v: string, tail: string)
    requires t == ws + u && u == q + u' && u' == v + tail
    requires Spaces(ws) && OptionalQuote(q) && GreedyValue(v, tail)
    ensures exists ws, q, tail :: PlainPieces(t, ws, q, v, tail)
  {
    assert PlainPieces(t, ws, q, v, tail);
  }

  lemma PlainCaptureComplete(t: string, ws: string, q: string, v: string, tail: string)
    requires PlainPieces(t, ws, q, v, tail)
    ensures PlainCapture(t) == Some(v)
  {
    var u := q + (v + tail);
    assert t == ws + u;
    assert u[0] == if q == [] then v[0] else q[0];
    LeadingRun(t, ws, u, IsSpace);
    Halves(t, ws, u);
    var u' := if u != [] && IsQuote(u[0]) then u[1..] else u;
    Halves(u, q, v + tail);
    ValueRunIs(u', v, tail);
  }

  lemma ValueRunIs(s: string, v: string, tail: string)
    requires s == v + tail && ValueChars(v) && (tail == [] || !IsValueChar(tail[0]))
    ensures ValueRun(s) == v
  {
    LeadingRun(s, v, tail, IsValueChar);
  }

  lemma ColonCaptureSound(t: string)
    requires ColonCapture(t).Some?
    ensures exists mid, tail :: ColonPieces(t, mid, ColonCapture(t).value, tail)
  {
    var v := ColonCapture(t).value;
    var c := IndexOf(t, ':');
    var w := t[c + 1..];
    var tail := w[|v|..];
    Cut(w, |v|);
    assert t == t[..c] + [':'] + w;
    ColonPiecesIntro(t, t[..c], w, v, tail);
  }

  lemma ColonPiecesIntro(t: string, mid: string, w: string, v: string, tail: string)
    requires t == mid + [':'] + w && w == v + tail
    requires mid != [] && ':' !in mid && GreedyValue(v, tail)
    ensures exists mid, tail :: ColonPieces(t, mid, v, tail)
  {
    assert ColonPieces(t, mid, v, tail);
  }

  lemma ColonCaptureComplete(t: string, mid: string, v: string, tail: string)
    requires ColonPieces(t, mid, v, tail)
    ensures ColonCapture(t) == Some(v)
  {
    var w := v + tail;
    assert t == mid + ([':'] + w);
    Halves(t, mid, [':'] + w);
    assert t[|mid|] == ':';
    assert IndexOf(t, ':') == |mid|;
    assert t[|mid| + 1..] == w;
    ValueRunIs(w, v, tail);
  }

  /** The matcher and the literal reading of an assignment part agree, in both directions. */
  lemma ValueMatchSpec(part: ValuePart, rest: string, v: string)
    ensures ValueMatch(part, rest) == Some(v) <==> ValueForm(part, rest, v)
  {
    if ValueMatch(part, rest) == Some(v) {
      var ws := rest[..LeadingCount(rest, IsSpace)];
      var t := AfterAssign(rest).value;
      AfterAssignSound(rest);
      match part
      case Plain => PlainCaptureSound(t);
      case AfterColon => ColonCaptureSound(t);
      ValueFormIntro(part, rest, ws, t, v);
    }
    if ValueForm(part, rest, v) {
      var ws, t :| AssignPieces(rest, ws, t) &&
        match part
        case Plain => exists ws', q, tail :: PlainPieces(t, ws', q, v, tail)
        case AfterColon => exists mid, tail :: ColonPieces(t, mid, v, tail);
      AfterAssignComplete(rest, ws, t);
      match part
      case Plain =>
        var ws', q, tail :| PlainPieces(t, ws', q, v, tail);
        PlainCaptureComplete(t, ws', q, v, tail);
      case AfterColon =>
        var mid, tail :| ColonPieces(t, mid, v, tail);
        ColonCaptureComplete(t, mid, v, tail);
    }
  }

  lemma ValueFormIntro(part: ValuePart, rest: string, ws: string, t: string, v: string)
    requires AssignPieces(rest, ws, t)
    requires part.Plain? ==> exists ws', q, tail :: PlainPieces(t, ws', q, v, tail)
    requires part.AfterColon? ==> exists mid, tail :: ColonPieces(t, mid, v, tail)
    ensures ValueForm(part, rest, v)
  {
  }

  /** An assignment part starts at whitespace or at the `=`: never at a word character. */
  lemma ValueMatchStartsOutsideWord(part: ValuePart, rest: string)
    requires ValueMatch(part, rest).Some?
    ensures rest != [] && !IsWordChar(rest[0])
  {
  }

  // ---------------------------------------------------------------------
  // The name parts.
  // ---------------------------------------------------------------------

  /** The part before the assignment: group 1 and the literal beside it. */
  datatype NamePart =
    | Suffix(literal: string)        // (\w+)<literal>
    | Prefix(literal: string)        // <literal>(\w+)
    | OneOf(names: seq<string>)      // (name1|name2|...)

  datatype EnvPattern = EnvPattern(name: NamePart, value: ValuePart)

  const SpecialServiceNames: seq<string> :=
    ["SGAI_ORCHESTRATION", "STACKGEN_NOTIFICATIONS", "APPCD_ANALYZER", "SGAI_KNOWLEDGE", "SGAI_CONTROL"]

  /** `version_patterns`, in the order they are tried. */
  const VersionPatterns: seq<EnvPattern> := [
    EnvPattern(Suffix("_VERSION"), Plain),
    EnvPattern(Prefix("VERSION_"), Plain),
    EnvPattern(Suffix("_TAG"), Plain),
    EnvPattern(Prefix("IMAGE_"), AfterColon),
    EnvPattern(OneOf(SpecialServiceNames), Plain)
  ]

  /** Every literal of a name part is made of word characters. */
  predicate WordLiterals(np: NamePart) {
    match np
    case Suffix(lit) => Words(lit)
    case Prefix(lit) => Words(lit)
    case OneOf(names) => forall i :: 0 <= i < |names| ==> names[i] != [] && Words(names[i])
  }

  lemma VersionPatternsHaveWordLiterals()
    ensures forall i :: 0 <= i < |VersionPatterns| ==> WordLiterals(VersionPatterns[i].name)
  {
    assert Words("_VERSION") && Words("VERSION_") && Words("_TAG") && Words("IMAGE_");
    SpecialNamesAreWords();
  }

  lemma SpecialNamesAreWords()
    ensures forall i :: 0 <= i < |SpecialServiceNames| ==> SpecialServiceNames[i] != [] && Words(SpecialServiceNames[i])
  {
    assert Words("SGAI_ORCHESTRATION");
    assert Words("STACKGEN_NOTIFICATIONS");
    assert Words("APPCD_ANALYZER");
    assert Words("SGAI_KNOWLEDGE");
    assert Words("SGAI_CONTROL");
  }

  /**
   * Group 1, given `w`, the whole run of word characters the line starts with.
   * The name part is followed by whitespace or `=`, neither a word character,
   * so the name part always spans the whole run.
   */
  function GroupOf(w: string, np: NamePart): Option<string> {
    match np
    case Suffix(lit) =>
      if |lit| < |w| && SameIgnoringCase(w[|w| - |lit|..], lit) then Some(w[..|w| - |lit|]) else None
    case Prefix(lit) =>
      if |lit| < |w| && SameIgnoringCase(w[..|lit|], lit) then Some(w[|lit|..]) else None
    case OneOf(names) =>
      if exists i | 0 <= i < |names| :: SameIgnoringCase(w, names[i]) then Some(w) else None
  }

  /** A matched line yields the lower-cased group 1 and the stripped group 2. */
  datatype Entry = Entry(service: string, version: string)

  /** `re.match(pattern, line, re.IGNORECASE)` followed by `(group(1).lower(), group(2).strip())`. */
  function MatchPattern(line: string, pat: EnvPattern): (r: Option<Entry>)
    ensures r.Some? ==> IsLower(r.value.service) && r.value.version != [] && ValueChars(r.value.version)
  {
    var n := LeadingCount(line, IsWordChar);
    match GroupOf(line[..n], pat.name)
    case None => None
    case Some(g) =>
      match ValueMatch(pat.value, line[n..])
      case None => None
      case Some(v) =>
        StripValue(v);
        LowerIsLower(g);
        Some(Entry(Lower(g), Strip(v)))
  }

  /** `.strip()` of a captured value changes nothing: it holds no whitespace. */
  lemma StripValue(v: string)
    requires v != [] && ValueChars(v)
    ensures Strip(v) == v
  {
    LeadingCountIs(v, IsSpace, 0);
    assert TrailingCount(v, IsSpace) == 0 by {
      assert !IsSpace(v[|v| - 1]);
    }
  }

  /** The name text of `np` is `w`, with `g` as group 1. */
  predicate NamePieces(np: NamePart, w: string, g: string) {
    g != [] && Words(g) &&
    match np
    case Suffix(lit) => |lit| <= |w| && w == g + w[|w| - |lit|..] && SameIgnoringCase(w[|w| - |lit|..], lit)
    case Prefix(lit) => |lit| <= |w| && w == w[..|lit|] + g && SameIgnoringCase(w[..|lit|], lit)
    case OneOf(names) => w == g && exists i | 0 <= i < |names| :: SameIgnoringCase(g, names[i])
  }

  /**
   * The whole pattern read literally: the line is a name text `w` followed by
   * `rest`, `w` has group 1 `g`, `rest` is the assignment part with capture
   * `v`; and the entry stored is `(lower(g), v)`.
   */
  ghost predicate PatternForm(line: string, pat: EnvPattern, e: Entry) {
    exists w, g, rest, v :: line == w + rest && NamePieces(pat.name, w, g) && ValueForm(pat.value, rest, v)
      && e == Entry(Lower(g), v)
  }

  lemma GroupOfSound(w: string, np: NamePart)
    requires GroupOf(w, np).Some? && Words(w) && WordLiterals(np)
    ensures NamePieces(np, w, GroupOf(w, np).value)
  {
    match np
    case Suffix(lit) => Cut(w, |w| - |lit|);
    case Prefix(lit) => Cut(w, |lit|);
    case OneOf(names) =>
      var i :| 0 <= i < |names| && SameIgnoringCase(w, names[i]);
      assert |Lower(w)| == |Lower(names[i])|;
  }

  lemma GroupOfComplete(w: string, np: NamePart, g: string)
    requires NamePieces(np, w, g) && WordLiterals(np)
    ensures Words(w) && GroupOf(w, np) == Some(g)
  {
    match np
    case Suffix(lit) =>
      var l := w[|w| - |lit|..];
      SameIgnoringCaseWords(l, lit);
      WordsAppend(g, l);
      Halves(w, g, l);
    case Prefix(lit) =>
      var l := w[..|lit|];
      SameIgnoringCaseWords(l, lit);
      WordsAppend(l, g);
      Halves(w, l, g);
    case OneOf(names) =>
      var i :| 0 <= i < |names| && SameIgnoringCase(g, names[i]);
      assert SameIgnoringCase(w, names[i]);
  }

  /** The matcher and the literal reading of a pattern agree, in both directions. */
  lemma MatchPatternSpec(line: string, pat: EnvPattern, e: Entry)
    requires WordLiterals(pat.name)
    ensures MatchPattern(line, pat) == Some(e) <==> PatternForm(line, pat, e)
  {
    if MatchPattern(line, pat) == Some(e) {
      MatchPatternSound(line, pat);
    }
    if PatternForm(line, pat, e) {
      MatchPatternComplete(line, pat, e);
    }
  }

  /** Whatever the matcher returns is a literal reading of the line. */
  lemma MatchPatternSound(line: string, pat: EnvPattern)
    requires WordLiterals(pat.name) && MatchPattern(line, pat).Some?
    ensures PatternForm(line, pat, MatchPattern(line, pat).value)
  {
    var n := LeadingCount(line, IsWordChar);
    var w := line[..n];
    var rest := line[n..];
    var g := GroupOf(w, pat.name).value;
    var v := ValueMatch(pat.value, rest).value;
    StripValue(v);
    WordsRun(line);
    GroupOfSound(w, pat.name);
    ValueMatchSpec(pat.value, rest, v);
    Cut(line, n);
    PatternFormIntro(line, pat, w, g, rest, v);
  }

  /** The matcher finds every literal reading of the line. */
  lemma MatchPatternComplete(line: string, pat: EnvPattern, e: Entry)
    requires WordLiterals(pat.name) && PatternForm(line, pat, e)
    ensures MatchPattern(line, pat) == Some(e)
  {
    var w, g, rest, v :| line == w + rest && NamePieces(pat.name, w, g) && ValueForm(pat.value, rest, v)
      && e == Entry(Lower(g), v);
    ValueMatchSpec(pat.value, rest, v);
    ValueMatchStartsOutsideWord(pat.value, rest);
    GroupOfComplete(w, pat.name, g);
    LeadingRun(line, w, rest, IsWordChar);
    Halves(line, w, rest);
    StripValue(v);
  }

  lemma PatternFormIntro(line: string, pat: EnvPattern, w: string, g: string, rest: string, v: string)
    requires line == w + rest && NamePieces(pat.name, w, g) && ValueForm(pat.value, rest, v)
    ensures PatternForm(line, pat, Entry(Lower(g), v))
  {
  }

  // ---------------------------------------------------------------------
  // First match wins.
  // ---------------------------------------------------------------------

  /** The first `Some` of `rs` from index `k` on. */
  function FirstSome<T>(rs: seq<Option<T>>, k: nat): Option<T>
    decreases |rs| - k
  {
    if k >= |rs| then None
    else if rs[k].Some? then rs[k]
    else FirstSome(rs, k + 1)
  }

  /** `FirstSome` is `None` exactly when every result from `k` on is `None`. */
  lemma {:induction false} FirstSomeNone<T>(rs: seq<Option<T>>, k: nat)
    ensures FirstSome(rs, k).None? <==> forall j :: k <= j < |rs| ==> rs[j].None?
    decreases |rs| - k
  {
    if k < |rs| {
      FirstSomeNone(rs, k + 1);
    }
  }

  /** A `Some` found from `k` on is at an index with only `None` between `k` and it. */
  lemma {:induction false} FirstSomeAt<T>(rs: seq<Option<T>>, k: nat)
    requires FirstSome(rs, k).Some?
    ensures exists j :: k <= j < |rs| && rs[j] == FirstSome(rs, k) && forall i :: k <= i < j ==> rs[i].None?
    decreases |rs| - k
  {
    if rs[k].None? {
      FirstSomeAt(rs, k + 1);
    } else {
      assert rs[k] == FirstSome(rs, k);
    }
  }

  /** The result of every pattern of `pats` on `line`, in order. */
  function MatchAll(line: string, pats: seq<EnvPattern>): (rs: seq<Option<Entry>>)
    ensures |rs| == |pats| && forall j :: 0 <= j < |pats| ==> rs[j] == MatchPattern(line, pats[j])
  {
    seq(|pats|, j requires 0 <= j < |pats| => MatchPattern(line, pats[j]))
  }

  /** The entry of the first pattern of `pats` that matches `line`. */
  function FirstMatch(line: string, pats: seq<EnvPattern>): Option<Entry> {
    FirstSome(MatchAll(line, pats), 0)
  }

  /**
   * First match wins: `FirstMatch` is `None` exactly when no pattern
   * matches, and otherwise the entry of a pattern `j` that matches while no
   * earlier pattern does.
   */
  lemma FirstMatchSpec(line: string, pats: seq<EnvPattern>)
    ensures FirstMatch(line, pats).None? <==> forall j :: 0 <= j < |pats| ==> MatchPattern(line, pats[j]).None?
    ensures FirstMatch(line, pats).Some? ==>
              exists j :: 0 <= j < |pats| && MatchPattern(line, pats[j]) == FirstMatch(line, pats)
                && forall i :: 0 <= i < j ==> MatchPattern(line, pats[i]).None?
  {
    FirstSomeSpec(MatchAll(line, pats));
  }

  /** `FirstSome` from the start, over any results: the shape `FirstMatchSpec` reads off. */
  lemma FirstSomeSpec<T>(rs: seq<Option<T>>)
    ensures FirstSome(rs, 0).None? <==> forall j :: 0 <= j < |rs| ==> rs[j].None?
    ensures FirstSome(rs, 0).Some? ==>
              exists j :: 0 <= j < |rs| && rs[j] == FirstSome(rs, 0) && forall i :: 0 <= i < j ==> rs[i].None?
  {
    FirstSomeNone(rs, 0);
    if FirstSome(rs, 0).Some? {
      FirstSomeAt(rs, 0);
    }
  }
}
