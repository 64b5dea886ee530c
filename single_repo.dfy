/**
 * `SingleRepoTicketProcessor` of `tags-diff/single_repo_ticket_processor.py`:
 * reading `repo:from:to` / `repo from to` request lines, reading the ticket
 * count back from the child script's report file or console output, the
 * `results` / `failed_requests` bookkeeping, and the summary report.
 */
module SingleRepo {
  import opened Wrappers
  import opened Text
  import opened LinearTickets

  // ---------------------------------------------------------------------
  // parse_repo_input
  // ---------------------------------------------------------------------

  /** One request: a repository and the two tags to compare. */
  datatype RepoRequest = RepoRequest(repo: string, fromTag: string, toTag: string)

  /**
   * `parse_repo_input`: the colon form is tried first and wins when the
   * stripped line splits into exactly three parts at `:`; otherwise the
   * whitespace form must give exactly three words.
   */
  function ParseRepoInput(inputLine: string): (r: Option<RepoRequest>)
    ensures Strip(inputLine) == [] ==> r == None
    ensures r.Some? ==> Trimmed(r.value.repo) && Trimmed(r.value.fromTag) && Trimmed(r.value.toTag)
  {
    var line := Strip(inputLine);
    if line == [] then None
    else
      var parts := Split(line, ':');
      if ':' in line && |parts| == 3 then
        Some(RepoRequest(Strip(parts[0]), Strip(parts[1]), Strip(parts[2])))
      else
        var words := SplitWhitespace(line);
        if |words| == 3 then Some(RepoRequest(Strip(words[0]), Strip(words[1]), Strip(words[2])))
        else None
  }

  /** The colon form: a stripped line of three `:`-separated parts gives those parts, each stripped. */
  lemma ParseColonForm(line: string, a: string, b: string, c: string)
    requires ':' in Strip(line) && Split(Strip(line), ':') == [a, b, c]
    ensures ParseRepoInput(line) == Some(RepoRequest(Strip(a), Strip(b), Strip(c)))
  {
    var parts := Split(Strip(line), ':');
    assert |parts| == 3 && parts[0] == a && parts[1] == b && parts[2] == c;
  }

  /** The whitespace form, when the colon form does not apply: three words give those words. */
  lemma ParseSpaceForm(line: string)
    requires !(':' in Strip(line) && |Split(Strip(line), ':')| == 3)
    requires |SplitWhitespace(Strip(line))| == 3
    ensures var words := SplitWhitespace(Strip(line));
            ParseRepoInput(line) == Some(RepoRequest(Strip(words[0]), Strip(words[1]), Strip(words[2])))
  {
  }

  /**
   * Every input line: the colon form wins when the stripped line splits
   * into three parts at `:`; otherwise three whitespace-separated words are
   * taken; any other line, blank ones included, gives None.
   */
  lemma ParseRepoInputSpec(line: string)
    ensures var l := Strip(line); var p := Split(l, ':'); var w := SplitWhitespace(l);
            && (':' in l && |p| == 3 ==> ParseRepoInput(line) == Some(RepoRequest(Strip(p[0]), Strip(p[1]), Strip(p[2]))))
            && (!(':' in l && |p| == 3) && |w| == 3 ==>
                  ParseRepoInput(line) == Some(RepoRequest(Strip(w[0]), Strip(w[1]), Strip(w[2]))))
            && (!(':' in l && |p| == 3) && |w| != 3 ==> ParseRepoInput(line) == None)
            && (ParseRepoInput(line).Some? ==> (':' in l && |p| == 3) || |w| == 3)
  {
  }

  /** The three fields joined by a separator. */
  function Join3(a: string, sep: char, b: string, c: string): string {
    a + [sep] + b + [sep] + c
  }

  lemma Join3IsJoin(a: string, sep: char, b: string, c: string)
    ensures Join([a, b, c], [sep]) == Join3(a, sep, b, c)
  {
    var parts := [a, b, c];
    assert parts[1..] == [b, c] && parts[1..][1..] == [c];
    assert Join([c], [sep]) == c;
    assert Join([b, c], [sep]) == b + [sep] + c;
    assert Join(parts, [sep]) == a + [sep] + (b + [sep] + c);
  }

  lemma SplitJoin3(a: string, sep: char, b: string, c: string)
    requires sep !in a && sep !in b && sep !in c
    ensures Split(Join3(a, sep, b, c), sep) == [a, b, c]
  {
    Join3IsJoin(a, sep, b, c);
    SplitJoin([a, b, c], sep);
  }

  /** Joining trimmed ends with a non-space separator needs no stripping. */
  lemma Join3Trimmed(a: string, sep: char, b: string, c: string)
    requires Trimmed(a) && Trimmed(c)
    requires (a != [] && c != []) || !IsSpace(sep)
    ensures Strip(Join3(a, sep, b, c)) == Join3(a, sep, b, c)
  {
    var line := Join3(a, sep, b, c);
    assert line[0] == (if a == [] then sep else a[0]);
    assert line[|line| - 1] == (if c == [] then sep else c[|c| - 1]);
    StripByNothing(line, IsSpace);
  }

  lemma Join3HasSep(a: string, sep: char, b: string, c: string)
    ensures sep in Join3(a, sep, b, c)
  {
    assert Join3(a, sep, b, c)[|a|] == sep;
  }

  /** Three trimmed fields without `:` joined by colons are read back unchanged. */
  lemma ColonFormRoundTrip(repo: string, fromTag: string, toTag: string)
    requires Trimmed(repo) && Trimmed(fromTag) && Trimmed(toTag)
    requires ':' !in repo && ':' !in fromTag && ':' !in toTag
    ensures ParseRepoInput(Join3(repo, ':', fromTag, toTag)) == Some(RepoRequest(repo, fromTag, toTag))
  {
    var line := Join3(repo, ':', fromTag, toTag);
    assert Strip(line) == line && ':' in line && Split(line, ':') == [repo, fromTag, toTag] by {
      Join3Trimmed(repo, ':', fromTag, toTag);
      Join3HasSep(repo, ':', fromTag, toTag);
      SplitJoin3(repo, ':', fromTag, toTag);
    }
    assert Strip(repo) == repo && Strip(fromTag) == fromTag && Strip(toTag) == toTag by {
      StripTrimmed(repo);
      StripTrimmed(fromTag);
      StripTrimmed(toTag);
    }
    ParseColonForm(line, repo, fromTag, toTag);
  }

  /** A word: non-empty, without whitespace. */
  predicate IsWord(w: string) {
    w != [] && forall i :: 0 <= i < |w| ==> !IsSpace(w[i])
  }

  lemma WordTrimmed(w: string)
    requires IsWord(w)
    ensures Strip(w) == w
  {
    StripByNothing(w, IsSpace);
  }

  /** A single word is one whitespace-separated part. */
  lemma SplitOneWord(w: string)
    requires IsWord(w)
    ensures SplitWhitespace(w) == [w]
  {
    SplitWhitespaceWord(w, []);
    assert w + [] == w;
  }

  /** A space then a word, then anything starting with a space or nothing. */
  lemma SplitSpaceWord(w: string, rest: string)
    requires IsWord(w) && (rest == [] || IsSpace(rest[0]))
    ensures SplitWhitespace([' '] + w + rest) == [w] + SplitWhitespace(rest)
  {
    assert [' '] + w + rest == [' '] + (w + rest);
    SplitWhitespaceSpace(' ', w + rest);
    SplitWhitespaceWord(w, rest);
  }

  lemma SplitLastWord(c: string)
    requires IsWord(c)
    ensures SplitWhitespace([' '] + c) == [c]
  {
    SplitWhitespaceSpace(' ', c);
    SplitOneWord(c);
  }

  lemma SplitTwoWords(b: string, c: string)
    requires IsWord(b) && IsWord(c)
    ensures SplitWhitespace([' '] + b + ([' '] + c)) == [b, c]
  {
    SplitLastWord(c);
    SplitSpaceWord(b, [' '] + c);
  }

  lemma Join3Shape(a: string, sep: char, b: string, c: string)
    ensures Join3(a, sep, b, c) == a + ([sep] + b + ([sep] + c))
  {
  }

  /** Three words joined by single spaces split back into those words. */
  lemma SplitWords3(a: string, b: string, c: string)
    requires IsWord(a) && IsWord(b) && IsWord(c)
    ensures SplitWhitespace(Join3(a, ' ', b, c)) == [a, b, c]
  {
    SplitTwoWords(b, c);
    SplitWhitespaceWord(a, [' '] + b + ([' '] + c));
    Join3Shape(a, ' ', b, c);
  }

  lemma WordIsTrimmed(w: string)
    requires IsWord(w)
    ensures Trimmed(w)
  {
    assert !IsSpace(w[0]) && !IsSpace(w[|w| - 1]);
  }

  /**
   * Three words separated by single spaces are read back unchanged when the
   * colon form does not apply.
   */
  lemma SpaceFormRoundTrip(repo: string, fromTag: string, toTag: string)
    requires IsWord(repo) && IsWord(fromTag) && IsWord(toTag)
    requires var line := Join3(repo, ' ', fromTag, toTag);
             !(':' in line && |Split(line, ':')| == 3)
    ensures ParseRepoInput(Join3(repo, ' ', fromTag, toTag)) == Some(RepoRequest(repo, fromTag, toTag))
  {
    WordIsTrimmed(repo);
    WordIsTrimmed(toTag);
    Join3Trimmed(repo, ' ', fromTag, toTag);
    SplitWords3(repo, fromTag, toTag);
    WordTrimmed(repo);
    WordTrimmed(fromTag);
    WordTrimmed(toTag);
    ParseSpaceForm(Join3(repo, ' ', fromTag, toTag));
  }

  /**
   * An illustration of `ParseRepoInputSpec` on one line: with three
   * colon-separated parts the colon form wins, whitespace inside the parts
   * included.
   */
  lemma ColonFormFirst(line: string)
    requires line == "a b:c d:e"
    ensures ParseRepoInput(line) == Some(RepoRequest("a b", "c d", "e"))
  {
    assert line == Join3("a b", ':', "c d", "e");
    ColonFormRoundTrip("a b", "c d", "e");
  }

  /** One separator splits a string into two parts. */
  lemma SplitTwo(a: string, sep: char, b: string)
    requires sep !in a && sep !in b
    ensures Split(a + [sep] + b, sep) == [a, b]
  {
    var parts := [a, b];
    assert parts[1..] == [b];
    assert Join(parts, [sep]) == a + [sep] + b;
    SplitJoin(parts, sep);
  }

  /**
   * A line whose only colon sits inside the first of three words (as in
   * `o/r:x v1 v2`) does not split into three parts at `:`, so it falls back to
   * the whitespace form and the colon stays in the repository name.
   */
  lemma ColonFallsBackToWords(r1: string, r2: string, fromTag: string, toTag: string)
    requires IsWord(r1 + [':'] + r2) && IsWord(fromTag) && IsWord(toTag)
    requires ':' !in r1 && ':' !in r2 && ':' !in fromTag && ':' !in toTag
    ensures var repo := r1 + [':'] + r2;
            ParseRepoInput(Join3(repo, ' ', fromTag, toTag)) == Some(RepoRequest(repo, fromTag, toTag))
  {
    var repo := r1 + [':'] + r2;
    var rest := r2 + [' '] + fromTag + [' '] + toTag;
    assert ':' !in rest;
    assert Join3(repo, ' ', fromTag, toTag) == r1 + [':'] + rest;
    SplitTwo(r1, ':', rest);
    SpaceFormRoundTrip(repo, fromTag, toTag);
  }

  // ---------------------------------------------------------------------
  // _extract_ticket_count (the text part)
  // ---------------------------------------------------------------------

  /** The value of the leftmost position of `s` at or after `j` where `at` matches (`re.search`). */
  function SearchFrom(s: string, j: nat, at: (string, nat) -> Option<nat>): Option<nat>
    decreases |s| - j
  {
    if j >= |s| then None
    else if at(s, j).Some? then at(s, j)
    else SearchFrom(s, j + 1, at)
  }

  /** The search finds a match exactly when there is one, and then the leftmost one. */
  lemma {:induction false} SearchFromSpec(s: string, j: nat, at: (string, nat) -> Option<nat>)
    ensures var r := SearchFrom(s, j, at);
            && (r.Some? <==> exists k :: j <= k < |s| && at(s, k).Some?)
            && (r.Some? ==> exists k :: j <= k < |s| && at(s, k) == r && forall i :: j <= i < k ==> at(s, i).None?)
    decreases |s| - j
  {
    if j < |s| && at(s, j).None? {
      SearchFromSpec(s, j + 1, at);
      var r := SearchFrom(s, j + 1, at);
      if r.Some? {
        var k :| j + 1 <= k < |s| && at(s, k) == r && forall i :: j + 1 <= i < k ==> at(s, i).None?;
        assert forall i :: j <= i < k ==> at(s, i).None?;
      }
    }
  }

  /** `re.search` from the start of the text. */
  function Search(s: string, at: (string, nat) -> Option<nat>): Option<nat> {
    SearchFrom(s, 0, at)
  }

  /** The search stops at the first match. */
  lemma SearchFindsFirst(s: string, at: (string, nat) -> Option<nat>, m: nat)
    requires m < |s| && at(s, m).Some?
    requires forall i :: 0 <= i < m ==> at(s, i).None?
    ensures Search(s, at) == at(s, m)
  {
    SearchFromSpec(s, 0, at);
    var r := SearchFrom(s, 0, at);
    assert r.Some?;
    var k :| 0 <= k < |s| && at(s, k) == r && forall i :: 0 <= i < k ==> at(s, i).None?;
    assert k <= m;
    assert m <= k;
  }

  const TotalPhrase := "Total tickets found:"

  /** `Total tickets found:\s*(\d+)` matched at `s[j]`: the number, read with `int()`. */
  function TotalAt(s: string, j: nat): Option<nat> {
    if OccursAt(s, TotalPhrase, j) then
      var rest := s[j + |TotalPhrase|..];
      var digits := rest[LeadingCount(rest, IsSpace)..];
      var d := LeadingCount(digits, IsDigit);
      if d >= 1 then Some(DigitsValue(digits[..d])) else None
    else None
  }

  const ExtractedPhrase := "Extracted "
  const LinearPhrase := " Linear tickets"

  /** `Extracted (\d+) Linear tickets` matched at `s[j]`: the number, read with `int()`. */
  function ExtractedAt(s: string, j: nat): Option<nat> {
    if OccursAt(s, ExtractedPhrase, j) then
      var rest := s[j + |ExtractedPhrase|..];
      var d := LeadingCount(rest, IsDigit);
      if d >= 1 && StartsWith(rest[d..], LinearPhrase) then Some(DigitsValue(rest[..d])) else None
    else None
  }

  /** `len(set(ticket_pattern.findall(text)))`. */
  function DistinctTickets(text: string): (n: nat)
    ensures n == |Extracted(text)|
  {
    |set t | t in FindAll(text)|
  }

  /**
   * `_extract_ticket_count`. `fileContent` is the text of the output file
   * when it exists and could be read, None otherwise.
   */
  function ExtractTicketCount(output: string, fileContent: Option<string>): (n: nat)
    ensures fileContent.Some? && Search(fileContent.value, TotalAt).None? ==> n == |Extracted(fileContent.value)|
    ensures fileContent.None? && Search(output, ExtractedAt).None? ==> n == |Extracted(output)|
  {
    match fileContent
    case Some(content) =>
      var total := Search(content, TotalAt);
      if total.Some? then total.value else DistinctTickets(content)
    case None =>
      var extracted := Search(output, ExtractedAt);
      if extracted.Some? then extracted.value else DistinctTickets(output)
  }

  /**
   * In the file a "Total tickets found" line takes precedence over counting
   * bracketed tickets; on the console an "Extracted N Linear tickets" line
   * does. Without such a line the count is the number of distinct tickets.
   */
  lemma TicketCountPrecedence(output: string, fileContent: Option<string>)
    ensures var n := ExtractTicketCount(output, fileContent);
            && (fileContent.Some? && (exists j :: 0 <= j < |fileContent.value| && TotalAt(fileContent.value, j).Some?) ==>
                  exists j :: 0 <= j < |fileContent.value| && TotalAt(fileContent.value, j) == Some(n))
            && (fileContent.Some? && (forall j :: 0 <= j < |fileContent.value| ==> TotalAt(fileContent.value, j).None?) ==>
                  n == |Extracted(fileContent.value)|)
            && (fileContent.None? && (exists j :: 0 <= j < |output| && ExtractedAt(output, j).Some?) ==>
                  exists j :: 0 <= j < |output| && ExtractedAt(output, j) == Some(n))
            && (fileContent.None? && (forall j :: 0 <= j < |output| ==> ExtractedAt(output, j).None?) ==>
                  n == |Extracted(output)|)
  {
    if fileContent.Some? {
      SearchFromSpec(fileContent.value, 0, TotalAt);
    }
    SearchFromSpec(output, 0, ExtractedAt);
  }

  /** Whether `t` occurs at `j` depends only on a prefix of `s` that holds the occurrence. */
  lemma OccursAtPrefix(s: string, u: string, t: string, j: nat)
    requires |u| <= |s| && s[..|u|] == u && j + |t| <= |u|
    ensures OccursAt(s, t, j) == OccursAt(u, t, j)
  {
    forall i | j <= i < j + |t| ensures s[i] == u[i] {
      assert s[..|u|][i] == s[i];
    }
    assert s[j..j + |t|] == u[j..j + |t|];
  }

  /** No match starts inside `pre` when the phrase does not occur there. */
  lemma NoMatchBefore(s: string, pre: string, phrase: string, rest: string, at: (string, nat) -> Option<nat>)
    requires s == pre + phrase + rest
    requires forall j :: 0 <= j < |pre| ==> !OccursAt(pre + phrase, phrase, j)
    requires forall j: nat :: j < |s| && !OccursAt(s, phrase, j) ==> at(s, j).None?
    ensures forall j :: 0 <= j < |pre| ==> at(s, j).None?
  {
    var u := pre + phrase;
    assert s[..|u|] == u;
    forall j | 0 <= j < |pre| ensures at(s, j).None? {
      OccursAtPrefix(s, u, phrase, j);
    }
  }

  /** Spaces, then the digits of `N`, then a non-digit: the `\s*(\d+)` of the pattern reads `N`. */
  lemma SpacedNumber(rest: string, k: nat, post: string)
    requires rest == " " + NatToString(k) + post
    requires post == [] || !IsDigit(post[0])
    ensures var digits := rest[LeadingCount(rest, IsSpace)..];
            var d := LeadingCount(digits, IsDigit);
            d >= 1 && DigitsValue(digits[..d]) == k
  {
    var num := NatToString(k);
    LeadingCountIs(rest, IsSpace, 1);
    var digits := rest[1..];
    assert digits == num + post;
    LeadingCountIs(digits, IsDigit, |num|);
    assert digits[..|num|] == num;
    DigitsValueOfNatToString(k);
  }

  /** A report line `Total tickets found: N` followed by a non-digit reads as `N`. */
  lemma TotalAtLine(s: string, pre: string, k: nat, post: string)
    requires s == pre + TotalPhrase + " " + NatToString(k) + post
    requires post == [] || !IsDigit(post[0])
    ensures TotalAt(s, |pre|) == Some(k)
  {
    assert s[|pre|..|pre| + |TotalPhrase|] == TotalPhrase;
    assert s[|pre| + |TotalPhrase|..] == " " + NatToString(k) + post;
    SpacedNumber(s[|pre| + |TotalPhrase|..], k, post);
  }

  /**
   * The count line of the report file is read back: a file whose first
   * "Total tickets found:" is followed by ` N` and a non-digit gives `N`,
   * whatever the console said.
   */
  lemma TotalLineReadBack(output: string, pre: string, k: nat, post: string)
    requires forall j :: 0 <= j < |pre| ==> !OccursAt(pre + TotalPhrase, TotalPhrase, j)
    requires post == [] || !IsDigit(post[0])
    ensures ExtractTicketCount(output, Some(pre + TotalPhrase + " " + NatToString(k) + post)) == k
  {
    var s := pre + TotalPhrase + " " + NatToString(k) + post;
    assert Search(s, TotalAt) == Some(k) by {
      var rest := " " + NatToString(k) + post;
      assert s == pre + TotalPhrase + rest;
      TotalAtLine(s, pre, k, post);
      ReadsOnlyAtPhrase(s, TotalPhrase, TotalAt);
      FirstPhraseRead(s, pre, TotalPhrase, rest, TotalAt);
    }
  }

  /** Both count readers read nothing where their phrase does not start. */
  lemma ReadsOnlyAtPhrase(s: string, phrase: string, at: (string, nat) -> Option<nat>)
    requires (phrase, at) == (TotalPhrase, TotalAt) || (phrase, at) == (ExtractedPhrase, ExtractedAt)
    ensures forall j: nat :: j < |s| && !OccursAt(s, phrase, j) ==> at(s, j).None?
  {
  }

  /** The first occurrence of `phrase` decides what `Search` reads, when `at` reads only at occurrences. */
  lemma FirstPhraseRead(s: string, pre: string, phrase: string, rest: string, at: (string, nat) -> Option<nat>)
    requires s == pre + phrase + rest
    requires forall j :: 0 <= j < |pre| ==> !OccursAt(pre + phrase, phrase, j)
    requires forall j: nat :: j < |s| && !OccursAt(s, phrase, j) ==> at(s, j).None?
    requires |phrase| > 0 && at(s, |pre|).Some?
    ensures Search(s, at) == at(s, |pre|)
  {
    NoMatchBefore(s, pre, phrase, rest, at);
    SearchFindsFirst(s, at, |pre|);
  }

  /** A console line `Extracted N Linear tickets` reads as `N`. */
  lemma ExtractedAtLine(s: string, pre: string, k: nat, post: string)
    requires s == pre + ExtractedPhrase + NatToString(k) + LinearPhrase + post
    ensures ExtractedAt(s, |pre|) == Some(k)
  {
    var num := NatToString(k);
    assert s[|pre|..|pre| + |ExtractedPhrase|] == ExtractedPhrase;
    var rest := s[|pre| + |ExtractedPhrase|..];
    assert rest == num + (LinearPhrase + post);
    assert rest[|num|] == ' ';
    LeadingCountIs(rest, IsDigit, |num|);
    assert rest[..|num|] == num;
    assert rest[|num|..] == LinearPhrase + post;
    assert StartsWith(rest[|num|..], LinearPhrase);
    DigitsValueOfNatToString(k);
  }

  /**
   * Without a readable file, the console line "Extracted N Linear tickets"
   * printed by the child script is read back as `N`.
   */
  lemma ExtractedLineReadBack(pre: string, k: nat, post: string)
    requires forall j :: 0 <= j < |pre| ==> !OccursAt(pre + ExtractedPhrase, ExtractedPhrase, j)
    ensures ExtractTicketCount(pre + ExtractedPhrase + NatToString(k) + LinearPhrase + post, None) == k
  {
    var s := pre + ExtractedPhrase + NatToString(k) + LinearPhrase + post;
    assert s == pre + ExtractedPhrase + (NatToString(k) + LinearPhrase + post);
    ExtractedAtLine(s, pre, k, post);
    ReadsOnlyAtPhrase(s, ExtractedPhrase, ExtractedAt);
    FirstPhraseRead(s, pre, ExtractedPhrase, NatToString(k) + LinearPhrase + post, ExtractedAt);
  }

  // ---------------------------------------------------------------------
  // call_fetch_tickets_script and process_single_request
  // ---------------------------------------------------------------------

  const FetchScript := "fetchTicketChangesInBuildsForRepo.py"

  /** The command line of the child script, after the interpreter. */
  function Command(repo: string, fromTag: string, toTag: string, outputFile: string, verbose: bool): seq<string> {
    [FetchScript, repo, fromTag, toTag]
    + (if outputFile != "" then ["-o", outputFile] else [])
    + (if verbose then ["--verbose"] else [])
  }

  /**
   * What running the child script gave: its exit code, its two output
   * streams and the content of its output file when that exists and could
   * be read; or the exception `subprocess.run` raised.
   */
  datatype ScriptRun =
    | Exited(returnCode: int, stdout: string, stderr: string, outputFileContent: Option<string>)
    | Raised(message: string)

  /** `(success, output, ticket_count)` of `call_fetch_tickets_script`. */
  datatype ScriptOutcome = ScriptOutcome(success: bool, output: string, ticketCount: nat)

  /** `call_fetch_tickets_script` given what the run produced. */
  function CallFetchTicketsScript(run: ScriptRun): (o: ScriptOutcome)
    ensures o.success <==> run.Exited? && run.returnCode == 0
    ensures !o.success ==> o.ticketCount == 0
    ensures run.Exited? && run.returnCode != 0 ==> o.output == run.stderr
    ensures o.success ==> o.output == run.stdout && o.ticketCount == ExtractTicketCount(run.stdout, run.outputFileContent)
  {
    match run
    case Raised(message) => ScriptOutcome(false, message, 0)
    case Exited(code, stdout, stderr, content) =>
      if code != 0 then ScriptOutcome(false, stderr, 0)
      else ScriptOutcome(true, stdout, ExtractTicketCount(stdout, content))
  }

  /** `repo.replace('/', '_').replace(':', '_')`. */
  function SafeRepoName(repo: string): (r: string)
    ensures |r| == |repo| && '/' !in r && ':' !in r
  {
    ReplaceCharKeepsAbsent(ReplaceChar(repo, '/', '_'), ':', '_', '/');
    ReplaceChar(ReplaceChar(repo, '/', '_'), ':', '_')
  }

  /** The default output file `tickets_{safe repo}_{from}_to_{to}.txt`. */
  function DefaultOutputFile(repo: string, fromTag: string, toTag: string): (f: string)
    ensures StartsWith(f, "tickets_") && EndsWith(f, ".txt")
    ensures |f| == |repo| + |fromTag| + |toTag| + 17
  {
    "tickets_" + SafeRepoName(repo) + "_" + fromTag + "_to_" + toTag + ".txt"
  }

  /**
   * The default name holds the repository with `/` and `:` replaced, and so
   * names a file of the working directory when the tags hold no `/`.
   */
  lemma DefaultOutputFileSpec(repo: string, fromTag: string, toTag: string)
    ensures var f := DefaultOutputFile(repo, fromTag, toTag);
            && StartsWith(f, "tickets_") && EndsWith(f, ".txt")
            && |f| == |repo| + |fromTag| + |toTag| + 17
            && f[8..8 + |repo|] == SafeRepoName(repo) && ':' !in f[8..8 + |repo|]
            && ('/' !in fromTag && '/' !in toTag ==> '/' !in f)
  {
    var f := DefaultOutputFile(repo, fromTag, toTag);
    assert f[|f| - 4..] == ".txt";
    assert f[8..8 + |repo|] == SafeRepoName(repo);
  }

  /** The dict `process_single_request` builds; only failed requests carry `error`. */
  datatype RequestResult = RequestResult(repo: string, fromTag: string, toTag: string, success: bool,
                                         ticketCount: nat, outputFile: string, timestamp: string,
                                         error: Option<string>)

  /** `if not output_file`: None and the empty string both select the default. */
  function OutputFileFor(repo: string, fromTag: string, toTag: string, outputFile: Option<string>): (f: string)
    ensures f != ""
    ensures outputFile.Some? && outputFile.value != "" ==> f == outputFile.value
  {
    DefaultOutputFileSpec(repo, fromTag, toTag);
    if outputFile.None? || outputFile.value == "" then DefaultOutputFile(repo, fromTag, toTag) else outputFile.value
  }

  /**
   * The result of `process_single_request`; `run` gives what the child
   * script does for a command line, `timestamp` the clock reading.
   */
  function RequestOutcome(q: RepoRequest, outputFile: Option<string>, verbose: bool,
                          run: seq<string> -> ScriptRun, timestamp: string): (r: RequestResult)
    ensures r.repo == q.repo && r.fromTag == q.fromTag && r.toTag == q.toTag && r.timestamp == timestamp
    ensures r.outputFile != ""
    ensures r.success ==> r.error.None?
    ensures !r.success ==> r.error.Some? && r.ticketCount == 0
  {
    var file := OutputFileFor(q.repo, q.fromTag, q.toTag, outputFile);
    var o := CallFetchTicketsScript(run(Command(q.repo, q.fromTag, q.toTag, file, verbose)));
    RequestResult(q.repo, q.fromTag, q.toTag, o.success, o.ticketCount, file, timestamp,
                  if o.success then None else Some(o.output))
  }

  /** The results that went to `results`. */
  function Successes(rs: seq<RequestResult>): (s: seq<RequestResult>)
    ensures forall k :: 0 <= k < |s| ==> s[k].success
    ensures |s| <= |rs|
    decreases |rs|
  {
    if rs == [] then []
    else
      var init := Successes(rs[..|rs| - 1]);
      if rs[|rs| - 1].success then init + [rs[|rs| - 1]] else init
  }

  /** The results that went to `failed_requests`. */
  function Failures(rs: seq<RequestResult>): (s: seq<RequestResult>)
    ensures forall k :: 0 <= k < |s| ==> !s[k].success
    ensures |s| <= |rs|
    decreases |rs|
  {
    if rs == [] then []
    else
      var init := Failures(rs[..|rs| - 1]);
      if rs[|rs| - 1].success then init else init + [rs[|rs| - 1]]
  }

  /** The lines of an input file a request is read from: not blank, not a comment, parseable. */
  function LineRequest(line: string): (r: Option<RepoRequest>)
    ensures r.Some? ==> r == ParseRepoInput(line)
  {
    var l := Strip(line);
    if l == [] || StartsWith(l, "#") then None
    else
      StripTrimmed(l);
      ParseRepoInput(l)
  }

  /** A commented-out request is never processed. */
  lemma CommentedOut(line: string)
    requires line != [] && !IsSpace(line[0]) && line[0] == '#'
    ensures LineRequest(line) == None
  {
    var l := Strip(line);
    LeadingCountIs(line, IsSpace, 0);
    assert l != [] && l[0] == line[0];
  }

  /** A request of the input file, with the number (counted from 1) of the line it was read from. */
  type Numbered = (nat, RepoRequest)

  /** The request (none or one) read from line number `i`. */
  function NumberLine(r: Option<RepoRequest>, i: nat): seq<Numbered> {
    match r
    case None => []
    case Some(q) => [(i, q)]
  }

  /** What `read` gives for the lines, numbered from 1, in file order. */
  function Collect(lines: seq<string>, read: string -> Option<RepoRequest>): seq<Numbered>
    decreases |lines|
  {
    if lines == [] then []
    else Collect(lines[..|lines| - 1], read) + NumberLine(read(lines[|lines| - 1]), |lines|)
  }

  /** The requests read from the lines of the input file, in file order. */
  function Requests(lines: seq<string>): seq<Numbered> {
    Collect(lines, LineRequest)
  }

  /** Every collected request comes from its own line. */
  lemma {:induction false} CollectFromLines(lines: seq<string>, read: string -> Option<RepoRequest>)
    ensures var qs := Collect(lines, read);
            && |qs| <= |lines|
            && forall k :: 0 <= k < |qs| ==> 1 <= qs[k].0 <= |lines| && read(lines[qs[k].0 - 1]) == Some(qs[k].1)
    decreases |lines|
  {
    if lines != [] {
      var init := lines[..|lines| - 1];
      CollectFromLines(init, read);
      var a := Collect(init, read);
      var b := NumberLine(read(lines[|lines| - 1]), |lines|);
      var qs := a + b;
      forall k | 0 <= k < |qs|
        ensures 1 <= qs[k].0 <= |lines| && read(lines[qs[k].0 - 1]) == Some(qs[k].1)
      {
        if k < |a| {
          assert qs[k] == a[k] && lines[a[k].0 - 1] == init[a[k].0 - 1];
        } else {
          assert qs[k] == b[0];
        }
      }
    }
  }

  /** The requests come in line order. */
  lemma {:induction false} CollectInOrder(lines: seq<string>, read: string -> Option<RepoRequest>)
    ensures var qs := Collect(lines, read);
            forall k, l :: 0 <= k < l < |qs| ==> qs[k].0 < qs[l].0
    decreases |lines|
  {
    if lines != [] {
      var init := lines[..|lines| - 1];
      CollectInOrder(init, read);
      CollectFromLines(init, read);
      var a := Collect(init, read);
      var b := NumberLine(read(lines[|lines| - 1]), |lines|);
      var qs := a + b;
      forall k, l | 0 <= k < l < |qs| ensures qs[k].0 < qs[l].0 {
        if l < |a| {
          assert qs[k] == a[k] && qs[l] == a[l];
        } else {
          assert qs[k] == a[k] && qs[l] == b[0];
        }
      }
    }
  }

  /** Every line that holds a request gives one. */
  lemma {:induction false} CollectComplete(lines: seq<string>, read: string -> Option<RepoRequest>)
    ensures forall i :: 0 <= i < |lines| && read(lines[i]).Some? ==> (i + 1, read(lines[i]).value) in Collect(lines, read)
    decreases |lines|
  {
    if lines != [] {
      var init := lines[..|lines| - 1];
      CollectComplete(init, read);
      var a := Collect(init, read);
      var b := NumberLine(read(lines[|lines| - 1]), |lines|);
      assert Collect(lines, read) == a + b;
      forall i | 0 <= i < |lines| - 1 && read(lines[i]).Some?
        ensures (i + 1, read(lines[i]).value) in a
      {
        assert init[i] == lines[i];
      }
    }
  }

  /**
   * Exactly the lines that hold a request give one, in file order: every
   * request comes from its line, and every line that holds a request gives one.
   */
  lemma CollectSpec(lines: seq<string>, read: string -> Option<RepoRequest>)
    ensures var qs := Collect(lines, read);
            && |qs| <= |lines|
            && (forall k :: 0 <= k < |qs| ==> 1 <= qs[k].0 <= |lines| && read(lines[qs[k].0 - 1]) == Some(qs[k].1))
            && (forall k, l :: 0 <= k < l < |qs| ==> qs[k].0 < qs[l].0)
            && (forall i :: 0 <= i < |lines| && read(lines[i]).Some? ==> (i + 1, read(lines[i]).value) in qs)
  {
    CollectFromLines(lines, read);
    CollectInOrder(lines, read);
    CollectComplete(lines, read);
  }
  /** Reading one more line adds that line's request, if any. */
  lemma RequestsSnoc(lines: seq<string>, i: nat)
    requires i < |lines|
    ensures Requests(lines[..i + 1]) == Requests(lines[..i]) + NumberLine(LineRequest(lines[i]), i + 1)
  {
    assert lines[..i + 1][..i] == lines[..i];
  }

  /** `process_single_request` for request `(i, q)` of the input file, stamped `clock(i)`. */
  function Processing(verbose: bool, run: seq<string> -> ScriptRun, clock: nat -> string): Numbered -> RequestResult {
    (q: Numbered) => RequestOutcome(q.1, None, verbose, run, clock(q.0))
  }

  /** The results of processing the numbered requests in turn. */
  function OutcomesOf(qs: seq<Numbered>, process: Numbered -> RequestResult): seq<RequestResult>
    decreases |qs|
  {
    if qs == [] then []
    else OutcomesOf(qs[..|qs| - 1], process) + [process(qs[|qs| - 1])]
  }

  /** The results of `process_from_file` for the lines of the input file. */
  function Outcomes(lines: seq<string>, verbose: bool, run: seq<string> -> ScriptRun, clock: nat -> string)
    : seq<RequestResult>
  {
    OutcomesOf(Requests(lines), Processing(verbose, run, clock))
  }

  lemma {:induction false} OutcomesOfAppend(a: seq<Numbered>, b: seq<Numbered>, process: Numbered -> RequestResult)
    ensures OutcomesOf(a + b, process) == OutcomesOf(a, process) + OutcomesOf(b, process)
    decreases |b|
  {
    if b == [] {
      assert a + b == a;
    } else {
      var b' := b[..|b| - 1];
      assert (a + b)[..|a + b| - 1] == a + b';
      OutcomesOfAppend(a, b', process);
    }
  }

  /** One result per request, in request order. */
  lemma {:induction false} OutcomesOfAt(qs: seq<Numbered>, process: Numbered -> RequestResult)
    ensures var out := OutcomesOf(qs, process);
            |out| == |qs| && forall k :: 0 <= k < |out| ==> out[k] == process(qs[k])
    decreases |qs|
  {
    if qs != [] {
      OutcomesOfAt(qs[..|qs| - 1], process);
    }
  }

  /**
   * `process_from_file` gives one result per request of the file, in file
   * order, for that request's repository and tags and stamped with its line's
   * clock reading; failed requests report no tickets.
   */
  lemma OutcomesFollowRequests(lines: seq<string>, verbose: bool, run: seq<string> -> ScriptRun, clock: nat -> string)
    ensures var out := Outcomes(lines, verbose, run, clock); var qs := Requests(lines);
            |out| == |qs|
            && forall k :: 0 <= k < |out| ==>
                 && out[k].repo == qs[k].1.repo && out[k].fromTag == qs[k].1.fromTag && out[k].toTag == qs[k].1.toTag
                 && out[k].timestamp == clock(qs[k].0)
                 && (!out[k].success ==> out[k].ticketCount == 0)
  {
    var qs := Requests(lines);
    OutcomesOfAt(qs, Processing(verbose, run, clock));
  }

  /** A blank, comment or unparseable line adds no result. */
  lemma SkippedLineAddsNothing(lines: seq<string>, line: string, verbose: bool, run: seq<string> -> ScriptRun,
                               clock: nat -> string)
    requires Strip(line) == [] || StartsWith(Strip(line), "#") || ParseRepoInput(line).None?
    ensures Requests(lines + [line]) == Requests(lines)
    ensures Outcomes(lines + [line], verbose, run, clock) == Outcomes(lines, verbose, run, clock)
  {
    assert (lines + [line])[..|lines|] == lines;
    if Strip(line) != [] && !StartsWith(Strip(line), "#") {
      StripTrimmed(Strip(line));
      assert ParseRepoInput(Strip(line)) == ParseRepoInput(line);
    }
  }

  // ---------------------------------------------------------------------
  // The processor and its two result lists
  // ---------------------------------------------------------------------

  class SingleRepoTicketProcessor {
    var results: seq<RequestResult>
    var failedRequests: seq<RequestResult>

    /** `results` holds successes only, `failed_requests` failures only, each failure with its error. */
    ghost predicate Valid()
      reads this
    {
      && (forall k :: 0 <= k < |results| ==> results[k].success && results[k].error.None?)
      && (forall k :: 0 <= k < |failedRequests| ==>
            !failedRequests[k].success && failedRequests[k].error.Some? && failedRequests[k].ticketCount == 0)
    }

    constructor()
      ensures Valid() && results == [] && failedRequests == []
    {
      results := [];
      failedRequests := [];
    }

    /** `process_single_request`: the result goes to exactly one of the two lists. */
    method ProcessSingleRequest(q: RepoRequest, outputFile: Option<string>, verbose: bool,
                                run: seq<string> -> ScriptRun, timestamp: string)
      returns (result: RequestResult)
      requires Valid()
      modifies this
      ensures Valid()
      ensures result == RequestOutcome(q, outputFile, verbose, run, timestamp)
      ensures result.success ==> results == old(results) + [result] && failedRequests == old(failedRequests)
      ensures !result.success ==> failedRequests == old(failedRequests) + [result] && results == old(results)
    {
      var file := outputFile.GetOr("");
      if file == "" {
        file := DefaultOutputFile(q.repo, q.fromTag, q.toTag);
      }
      var o := CallFetchTicketsScript(run(Command(q.repo, q.fromTag, q.toTag, file, verbose)));
      result := RequestResult(q.repo, q.fromTag, q.toTag, o.success, o.ticketCount, file, timestamp, None);
      if o.success {
        results := results + [result];
      } else {
        result := result.(error := Some(o.output));
        failedRequests := failedRequests + [result];
      }
    }

    /**
     * `process_from_file`: `lines` is the file's content, None when it
     * could not be read.
     */
    method ProcessFromFile(lines: Option<seq<string>>, verbose: bool, run: seq<string> -> ScriptRun,
                           clock: nat -> string)
      returns (out: seq<RequestResult>)
      requires Valid()
      modifies this
      ensures Valid()
      ensures lines.None? ==> out == []
      ensures lines.Some? ==> out == Outcomes(lines.value, verbose, run, clock)
      ensures results == old(results) + Successes(out)
      ensures failedRequests == old(failedRequests) + Failures(out)
    {
      out := [];
      if lines.None? {
        return;
      }
      var ls := lines.value;
      for i := 0 to |ls|
        invariant Valid()
        invariant out == OutcomesOf(Requests(ls[..i]), Processing(verbose, run, clock))
        invariant results == old(results) + Successes(out)
        invariant failedRequests == old(failedRequests) + Failures(out)
      {
        var added := ProcessLine(ls[i], i + 1, verbose, run, clock);
        assert out + added == OutcomesOf(Requests(ls[..i + 1]), Processing(verbose, run, clock)) by {
          RequestsSnoc(ls, i);
          OutcomesOfAppend(Requests(ls[..i]), NumberLine(LineRequest(ls[i]), i + 1), Processing(verbose, run, clock));
        }
        ListsExtend(old(results), old(failedRequests), out, added);
        out := out + added;
      }
      assert ls[..|ls|] == ls;
    }

    /** One iteration of the line loop of `process_from_file`. */
    method ProcessLine(line: string, i: nat, verbose: bool, run: seq<string> -> ScriptRun, clock: nat -> string)
      returns (added: seq<RequestResult>)
      requires Valid()
      modifies this
      ensures Valid()
      ensures added == OutcomesOf(NumberLine(LineRequest(line), i), Processing(verbose, run, clock))
      ensures results == old(results) + Successes(added)
      ensures failedRequests == old(failedRequests) + Failures(added)
    {
      var l := Strip(line);
      if l == [] || StartsWith(l, "#") {
        assert LineRequest(line) == None;
        return [];
      }
      var parsed := ParseRepoInput(l);
      assert LineRequest(line) == parsed;
      if parsed.None? {
        return [];
      }
      var result := ProcessSingleRequest(parsed.value, None, verbose, run, clock(i));
      added := [result];
      assert NumberLine(parsed, i) == [(i, parsed.value)];
      OutcomesOfOne((i, parsed.value), Processing(verbose, run, clock));
      FiltersOfOne(result);
    }

    // -------------------------------------------------------------------
    // save_summary_report
    // -------------------------------------------------------------------

    /**
     * The report written for the two lists; `generated` is the clock reading.
     * Every failure carries its error, so no failed request is reported with
     * the `Unknown error` fallback.
     */
    method SaveSummaryReport(generated: string) returns (lines: seq<string>)
      requires Valid()
      ensures lines == SummaryReport(results, failedRequests, generated)
      ensures forall k :: 0 <= k < |failedRequests| ==> "  Error: " + failedRequests[k].error.value in lines
    {
      lines := ReportHead(results, failedRequests, generated);
      if results != [] {
        var blocks := WriteSuccessBlocks(results);
        lines := lines + (["SUCCESSFUL REQUESTS", Dashes] + blocks);
      }
      assert lines == ReportHead(results, failedRequests, generated) + SuccessSection(results);
      if failedRequests != [] {
        var blocks := WriteFailureBlocks(failedRequests);
        lines := lines + (["FAILED REQUESTS", Dashes] + blocks);
      }
      SummaryShowsErrors(results, failedRequests, generated);
    }
  }

  /** The loop over `results` in `save_summary_report`. */
  method WriteSuccessBlocks(rs: seq<RequestResult>) returns (lines: seq<string>)
    ensures lines == SuccessBlocks(rs)
  {
    lines := [];
    for k := 0 to |rs|
      invariant lines == SuccessBlocks(rs[..k])
    {
      assert rs[..k + 1][..k] == rs[..k];
      lines := lines + SuccessBlock(rs[k]);
    }
    assert rs[..|rs|] == rs;
  }

  /** The loop over `failed_requests` in `save_summary_report`. */
  method WriteFailureBlocks(rs: seq<RequestResult>) returns (lines: seq<string>)
    ensures lines == FailureBlocks(rs)
  {
    lines := [];
    for k := 0 to |rs|
      invariant lines == FailureBlocks(rs[..k])
    {
      assert rs[..k + 1][..k] == rs[..k];
      lines := lines + FailureBlock(rs[k]);
    }
    assert rs[..|rs|] == rs;
  }

  /** One request, one result. */
  lemma OutcomesOfOne(q: Numbered, process: Numbered -> RequestResult)
    ensures OutcomesOf([q], process) == [process(q)]
  {
    assert [q][..0] == [];
  }

  /** A single result goes to exactly one of the two lists. */
  lemma FiltersOfOne(r: RequestResult)
    ensures Successes([r]) == if r.success then [r] else []
    ensures Failures([r]) == if r.success then [] else [r]
  {
    assert [r][..0] == [];
  }

  /** Appending the filtered results of two runs one after the other. */
  lemma ListsExtend(done: seq<RequestResult>, failed: seq<RequestResult>, out: seq<RequestResult>,
                    added: seq<RequestResult>)
    ensures done + Successes(out) + Successes(added) == done + Successes(out + added)
    ensures failed + Failures(out) + Failures(added) == failed + Failures(out + added)
  {
    SuccessesSnoc(out, added);
  }

  /** Splitting the results of a longer run. */
  lemma {:induction false} SuccessesSnoc(rs: seq<RequestResult>, more: seq<RequestResult>)
    ensures Successes(rs + more) == Successes(rs) + Successes(more)
    ensures Failures(rs + more) == Failures(rs) + Failures(more)
    decreases |more|
  {
    if more == [] {
      assert rs + more == rs;
    } else {
      var m := more[..|more| - 1];
      assert (rs + more)[..|rs + more| - 1] == rs + m;
      SuccessesSnoc(rs, m);
    }
  }

  /** The sum of the ticket counts. */
  function TicketSum(rs: seq<RequestResult>): nat
    decreases |rs|
  {
    if rs == [] then 0 else TicketSum(rs[..|rs| - 1]) + rs[|rs| - 1].ticketCount
  }

  const Equals60 := "============================================================"
  const Dashes := "------------------------------"
  const Arrow := " → "

  const RequestsLabel := "Total requests processed: "
  const TicketsLabel := "Total tickets found: "

  /** The four totals of the summary report. */
  function ReportTotals(results: seq<RequestResult>, failed: seq<RequestResult>): (lines: seq<string>)
    ensures |lines| == 4
  {
    [RequestsLabel + NatToString(|results| + |failed|),
     "Successful requests: " + NatToString(|results|),
     "Failed requests: " + NatToString(|failed|),
     TicketsLabel + NatToString(TicketSum(results))]
  }

  /** The header and the four totals of the summary report. */
  function ReportHead(results: seq<RequestResult>, failed: seq<RequestResult>, generated: string): (lines: seq<string>)
    ensures |lines| == 9
  {
    ["SINGLE REPOSITORY TICKET PROCESSING SUMMARY", Equals60, "", "Generated: " + generated]
    + ReportTotals(results, failed) + [""]
  }

  function SuccessBlock(r: RequestResult): seq<string> {
    [r.repo + " (" + r.fromTag + Arrow + r.toTag + "): " + NatToString(r.ticketCount) + " tickets",
     "  Output file: " + r.outputFile,
     "  Processed: " + r.timestamp, ""]
  }

  function FailureBlock(r: RequestResult): seq<string> {
    [r.repo + " (" + r.fromTag + Arrow + r.toTag + ")",
     "  Error: " + r.error.GetOr("Unknown error"),
     "  Attempted: " + r.timestamp, ""]
  }

  function SuccessBlocks(rs: seq<RequestResult>): (lines: seq<string>)
    ensures |lines| == 4 * |rs|
    decreases |rs|
  {
    if rs == [] then [] else SuccessBlocks(rs[..|rs| - 1]) + SuccessBlock(rs[|rs| - 1])
  }

  function FailureBlocks(rs: seq<RequestResult>): (lines: seq<string>)
    ensures |lines| == 4 * |rs|
    decreases |rs|
  {
    if rs == [] then [] else FailureBlocks(rs[..|rs| - 1]) + FailureBlock(rs[|rs| - 1])
  }

  /** The lines of the summary report file. */
  function SummaryReport(results: seq<RequestResult>, failed: seq<RequestResult>, generated: string): seq<string> {
    ReportHead(results, failed, generated) + SuccessSection(results) + FailureSection(failed)
  }

  /** The successful-requests section, absent when there are none. */
  function SuccessSection(results: seq<RequestResult>): seq<string> {
    if results == [] then [] else ["SUCCESSFUL REQUESTS", Dashes] + SuccessBlocks(results)
  }

  /** The failed-requests section, absent when there are none. */
  function FailureSection(failed: seq<RequestResult>): seq<string> {
    if failed == [] then [] else ["FAILED REQUESTS", Dashes] + FailureBlocks(failed)
  }

  /** The second line of each failure's block shows that failure's own error. */
  lemma {:induction false} FailureErrorLines(rs: seq<RequestResult>)
    requires forall k :: 0 <= k < |rs| ==> rs[k].error.Some?
    ensures forall k :: 0 <= k < |rs| ==> FailureBlocks(rs)[4 * k + 1] == "  Error: " + rs[k].error.value
    decreases |rs|
  {
    if rs != [] {
      var init := rs[..|rs| - 1];
      FailureErrorLines(init);
      forall k | 0 <= k < |rs| ensures FailureBlocks(rs)[4 * k + 1] == "  Error: " + rs[k].error.value {
        if k < |init| {
          assert FailureBlocks(rs)[4 * k + 1] == FailureBlocks(init)[4 * k + 1];
          assert init[k] == rs[k];
        } else {
          assert FailureBlocks(rs)[4 * k + 1] == FailureBlock(rs[k])[1];
        }
      }
    }
  }

  /** The summary report shows every failure's own error. */
  lemma SummaryShowsErrors(results: seq<RequestResult>, failed: seq<RequestResult>, generated: string)
    requires forall k :: 0 <= k < |failed| ==> failed[k].error.Some?
    ensures forall k :: 0 <= k < |failed| ==> "  Error: " + failed[k].error.value in SummaryReport(results, failed, generated)
  {
    if failed != [] {
      var before := ReportHead(results, failed, generated) + SuccessSection(results);
      var report := SummaryReport(results, failed, generated);
      assert report == before + (["FAILED REQUESTS", Dashes] + FailureBlocks(failed));
      FailureErrorLines(failed);
      forall k | 0 <= k < |failed| ensures "  Error: " + failed[k].error.value in report {
        assert report[|before| + 2 + 4 * k + 1] == FailureBlocks(failed)[4 * k + 1];
      }
    }
  }

  /** Every result is a success or a failure. */
  lemma {:induction false} SuccessesAndFailures(rs: seq<RequestResult>)
    ensures |Successes(rs)| + |Failures(rs)| == |rs|
    decreases |rs|
  {
    if rs != [] {
      SuccessesAndFailures(rs[..|rs| - 1]);
    }
  }

  /** Failures carry no tickets, so the successes hold all of them. */
  lemma {:induction false} SuccessesHoldAllTickets(rs: seq<RequestResult>)
    requires forall k :: 0 <= k < |rs| && !rs[k].success ==> rs[k].ticketCount == 0
    ensures TicketSum(Successes(rs)) == TicketSum(rs)
    decreases |rs|
  {
    if rs != [] {
      var init := rs[..|rs| - 1];
      var last := rs[|rs| - 1];
      SuccessesHoldAllTickets(init);
      if last.success {
        var s := Successes(init);
        assert (s + [last])[..|s|] == s;
      }
    }
  }

  /**
   * The totals of the summary report: the requests total is the number of
   * results, and, as failures carry no tickets, the tickets total is the sum
   * of every result's count.
   */
  lemma SummaryTotals(out: seq<RequestResult>)
    requires forall k :: 0 <= k < |out| && !out[k].success ==> out[k].ticketCount == 0
    ensures var totals := ReportTotals(Successes(out), Failures(out));
            totals[0] == RequestsLabel + NatToString(|out|)
            && totals[3] == TicketsLabel + NatToString(TicketSum(out))
  {
    SuccessesAndFailures(out);
    SuccessesHoldAllTickets(out);
    TotalsRead(Successes(out), Failures(out), |out|, TicketSum(out));
  }

  /** The first and last totals lines, given the request count `n` and the ticket total `t`. */
  lemma TotalsRead(results: seq<RequestResult>, failed: seq<RequestResult>, n: nat, t: nat)
    requires |results| + |failed| == n && TicketSum(results) == t
    ensures var totals := ReportTotals(results, failed);
            totals[0] == RequestsLabel + NatToString(n) && totals[3] == TicketsLabel + NatToString(t)
  {
  }

  /** The summary after `process_from_file` on a fresh processor. */
  lemma BatchSummary(lines: seq<string>, verbose: bool, run: seq<string> -> ScriptRun, clock: nat -> string,
                     generated: string)
    ensures var out := Outcomes(lines, verbose, run, clock);
            var head := ReportHead(Successes(out), Failures(out), generated);
            head[4] == RequestsLabel + NatToString(|out|)
            && head[7] == TicketsLabel + NatToString(TicketSum(out))
  {
    var out := Outcomes(lines, verbose, run, clock);
    OutcomesFollowRequests(lines, verbose, run, clock);
    SummaryTotals(out);
    var head := ReportHead(Successes(out), Failures(out), generated);
    assert head[4..8] == ReportTotals(Successes(out), Failures(out));
  }
}
