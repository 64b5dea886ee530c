/**
 * `LinearTicketExtractor` of `tags-diff/fetchTicketChangesInBuildsForRepo.py`:
 * the bracketed ticket pattern `\[([A-Z]{2,6}-\d{1,6})\]` and `findall`
 * over it, the ticket-detail lookup with the Linear call abstracted, and the
 * ticket report with its grouping by project prefix.
 */
module LinearTickets {
  import opened Wrappers
  import opened Text
  import opened Ordering

  // ---------------------------------------------------------------------
  // ticket_pattern
  // ---------------------------------------------------------------------

  /** `[A-Z]{2,6}-\d{1,6}`: two to six upper-case letters, a hyphen, one to six digits. */
  predicate IsTicketKey(t: string) {
    exists n | 2 <= n <= 6 :: KeyShape(t, n)
  }

  /** `t` is `n` upper-case letters, a hyphen and one to six digits. */
  predicate KeyShape(t: string, n: nat) {
    n + 2 <= |t| <= n + 7
    && (forall k | 0 <= k < n :: IsUpper(t[k]))
    && t[n] == '-'
    && (forall k | n < k < |t| :: IsDigit(t[k]))
  }

  /**
   * Group 1 and the closing `]` of a match whose `[` has just been read,
   * `rest` being the text after it. A letter run longer than six or a digit
   * run longer than six leaves no way to reach the `-` or the `]`, so both
   * runs are the maximal ones.
   */
  function KeyAfterBracket(rest: string): Option<string> {
    var letters := LeadingCount(rest, IsUpper);
    if 2 <= letters <= 6 && letters < |rest| && rest[letters] == '-' then KeyAfterDash(rest, letters)
    else None
  }

  /** The rest of the match once `rest[letters]` is known to be the hyphen. */
  function KeyAfterDash(rest: string, letters: nat): Option<string>
    requires letters < |rest|
  {
    var tail := rest[letters + 1..];
    var digits := LeadingCount(tail, IsDigit);
    if 1 <= digits <= 6 && digits < |tail| && tail[digits] == ']' then Some(rest[..letters + 1 + digits])
    else None
  }

  /** Group 1 of a match of the ticket pattern starting at `s[i]`, if there is one. */
  function TicketAt(s: string, i: nat): Option<string> {
    if i < |s| && s[i] == '[' then KeyAfterBracket(s[i + 1..]) else None
  }

  /** `rest` starts with the key `t` and then `]`. */
  predicate KeyThenBracket(rest: string, t: string) {
    |t| < |rest| && rest[..|t|] == t && rest[|t|] == ']'
  }

  lemma KeyAfterBracketSound(rest: string)
    requires KeyAfterBracket(rest).Some?
    ensures IsTicketKey(KeyAfterBracket(rest).value) && KeyThenBracket(rest, KeyAfterBracket(rest).value)
  {
    var letters := LeadingCount(rest, IsUpper);
    var tail := rest[letters + 1..];
    var digits := LeadingCount(tail, IsDigit);
    var t := rest[..letters + 1 + digits];
    assert forall k | letters < k < |t| :: t[k] == tail[k - letters - 1];
    TicketKeyIntro(t, letters);
  }

  lemma KeyAfterBracketComplete(rest: string, t: string)
    requires IsTicketKey(t) && KeyThenBracket(rest, t)
    ensures KeyAfterBracket(rest) == Some(t)
  {
    var n :| 2 <= n <= 6 && KeyShape(t, n);
    assert forall k | 0 <= k < |t| :: rest[k] == t[k];
    LeadingCountIs(rest, IsUpper, n);
    var tail := rest[n + 1..];
    var d := |t| - n - 1;
    assert forall k | 0 <= k < d :: tail[k] == t[n + 1 + k];
    assert tail[d] == ']';
    LeadingCountIs(tail, IsDigit, d);
    KeyAfterBracketIs(rest, n, tail, d);
  }

  /** The match after `[` once both runs are measured. */
  lemma KeyAfterBracketIs(rest: string, letters: nat, tail: string, digits: nat)
    requires LeadingCount(rest, IsUpper) == letters && 2 <= letters <= 6 && letters < |rest| && rest[letters] == '-'
    requires tail == rest[letters + 1..]
    requires LeadingCount(tail, IsDigit) == digits && 1 <= digits <= 6 && digits < |tail| && tail[digits] == ']'
    ensures KeyAfterBracket(rest) == Some(rest[..letters + 1 + digits])
  {
    KeyAfterDashIs(rest, letters, tail, digits);
  }

  /** The digits after the hyphen once their run is measured. */
  lemma KeyAfterDashIs(rest: string, letters: nat, tail: string, digits: nat)
    requires letters < |rest| && tail == rest[letters + 1..]
    requires LeadingCount(tail, IsDigit) == digits && 1 <= digits <= 6 && digits < |tail| && tail[digits] == ']'
    ensures KeyAfterDash(rest, letters) == Some(rest[..letters + 1 + digits])
  {
  }

  lemma TicketKeyIntro(t: string, n: nat)
    requires 2 <= n <= 6 && n + 2 <= |t| <= n + 7
    requires (forall k | 0 <= k < n :: IsUpper(t[k])) && t[n] == '-' && (forall k | n < k < |t| :: IsDigit(t[k]))
    ensures IsTicketKey(t)
  {
    assert KeyShape(t, n);
  }

  /** `s` holds `[t]` with its `[` at position `i`. */
  predicate BracketedAt(s: string, i: nat, t: string) {
    i + |t| + 2 <= |s| && s[i] == '[' && s[i + 1..i + 1 + |t|] == t && s[i + 1 + |t|] == ']'
  }

  /** A match is a bracketed ticket key. */
  lemma TicketAtSound(s: string, i: nat)
    requires TicketAt(s, i).Some?
    ensures IsTicketKey(TicketAt(s, i).value) && BracketedAt(s, i, TicketAt(s, i).value)
  {
    var rest := s[i + 1..];
    KeyAfterBracketSound(rest);
    var t := TicketAt(s, i).value;
    assert s[i + 1..i + 1 + |t|] == rest[..|t|];
  }

  /** Every bracketed ticket key is matched where its bracket opens. */
  lemma TicketAtComplete(s: string, i: nat, t: string)
    requires IsTicketKey(t) && BracketedAt(s, i, t)
    ensures TicketAt(s, i) == Some(t)
  {
    var rest := s[i + 1..];
    assert rest[..|t|] == s[i + 1..i + 1 + |t|];
    KeyAfterBracketComplete(rest, t);
  }

  /** No match starts inside another: a match contains no `[` after its first character. */
  lemma NoTicketInside(s: string, i: nat, j: nat)
    requires TicketAt(s, i).Some? && i < j < i + |TicketAt(s, i).value| + 2
    ensures TicketAt(s, j).None?
  {
    assert s[j] != '[' by {
      var t := TicketAt(s, i).value;
      TicketAtSound(s, i);
      if j <= i + |t| {
        assert s[j] == s[i + 1..i + 1 + |t|][j - i - 1] == t[j - i - 1];
        KeyHasNoBrackets(t);
      }
    }
  }

  /** A ticket key contains neither bracket. */
  lemma KeyHasNoBrackets(t: string)
    requires IsTicketKey(t)
    ensures forall k :: 0 <= k < |t| ==> t[k] != '[' && t[k] != ']'
  {
    var n :| 2 <= n <= 6 && KeyShape(t, n);
    forall k | 0 <= k < |t| ensures t[k] != '[' && t[k] != ']' {
      assert k < n || k == n || n < k;
    }
  }

  /** The match, if any, at every position of `s`. */
  function MatchesAt(s: string): (ms: seq<Option<string>>)
    ensures |ms| == |s|
  {
    seq(|s|, j requires 0 <= j < |s| => TicketAt(s, j))
  }

  /** `findall` over the per-position matches `ms` from position `i`: after a match of `t`, resume `|t| + 2` further on. */
  function Scan(ms: seq<Option<string>>, i: nat): seq<string>
    decreases |ms| - i
  {
    if i >= |ms| then []
    else
      match ms[i]
      case Some(t) => [t] + Scan(ms, i + |t| + 2)
      case None => Scan(ms, i + 1)
  }

  /** `pattern.findall(s)`. */
  function FindAll(s: string): seq<string> {
    Scan(MatchesAt(s), 0)
  }

  /** No match starts strictly inside the span `[t]` of a match of `t`. */
  predicate Disjoint(ms: seq<Option<string>>) {
    forall i, j :: 0 <= i < j < |ms| && ms[i].Some? && j < i + |ms[i].value| + 2 ==> ms[j].None?
  }

  /** Some position at or after `i` holds a match of `t`. */
  ghost predicate MatchedFrom(ms: seq<Option<string>>, i: nat, t: string) {
    exists j :: i <= j < |ms| && ms[j] == Some(t)
  }

  /** Resuming after a match skips only positions where no match starts. */
  lemma {:induction false} ScanSpec(ms: seq<Option<string>>, i: nat, t: string)
    requires Disjoint(ms)
    ensures t in Scan(ms, i) <==> MatchedFrom(ms, i, t)
    decreases |ms| - i
  {
    if i < |ms| {
      var next := if ms[i].Some? then i + |ms[i].value| + 2 else i + 1;
      ScanSpec(ms, next, t);
      if MatchedFrom(ms, i, t) {
        var j :| i <= j < |ms| && ms[j] == Some(t);
        assert j == i || MatchedFrom(ms, next, t) by {
          if j != i && ms[i].Some? {
            assert !(i < j < next);
          }
        }
      }
      if MatchedFrom(ms, next, t) {
        var j :| next <= j < |ms| && ms[j] == Some(t);
        assert MatchedFrom(ms, i, t);
      }
    }
  }

  lemma MatchesDisjoint(s: string)
    ensures Disjoint(MatchesAt(s))
  {
    var ms := MatchesAt(s);
    forall i, j | 0 <= i < j < |ms| && ms[i].Some? && j < i + |ms[i].value| + 2 ensures ms[j].None? {
      NoTicketInside(s, i, j);
    }
  }

  /**
   * Resuming after each match loses nothing: `findall` returns the key of
   * every position where a match starts, and nothing else.
   */
  lemma FindAllSpec(s: string, t: string)
    ensures t in FindAll(s) <==> exists j :: 0 <= j < |s| && TicketAt(s, j) == Some(t)
  {
    MatchesDisjoint(s);
    ScanSpec(MatchesAt(s), 0, t);
    var ms := MatchesAt(s);
    if exists j :: 0 <= j < |s| && TicketAt(s, j) == Some(t) {
      var j :| 0 <= j < |s| && TicketAt(s, j) == Some(t);
      assert ms[j] == Some(t);
    }
  }

  /** Every position's match is a ticket key. */
  lemma MatchesAreKeys(s: string)
    ensures var ms := MatchesAt(s);
            forall j | 0 <= j < |ms| && ms[j].Some? :: IsTicketKey(ms[j].value)
  {
    var ms := MatchesAt(s);
    forall j | 0 <= j < |ms| && ms[j].Some? ensures IsTicketKey(ms[j].value) {
      TicketAtSound(s, j);
    }
  }

  /** Scanning per-position ticket keys returns ticket keys only. */
  lemma {:induction false} ScanKeys(ms: seq<Option<string>>, i: nat)
    requires forall j | 0 <= j < |ms| && ms[j].Some? :: IsTicketKey(ms[j].value)
    ensures forall k | 0 <= k < |Scan(ms, i)| :: IsTicketKey(Scan(ms, i)[k])
    decreases |ms| - i
  {
    if i < |ms| {
      match ms[i]
      case None =>
        ScanKeys(ms, i + 1);
      case Some(t0) =>
        ScanKeys(ms, i + |t0| + 2);
        assert Scan(ms, i) == [t0] + Scan(ms, i + |t0| + 2);
    }
  }

  /** `extract_tickets_from_text`: add every `findall` result to a set. */
  method ExtractTicketsFromText(text: string) returns (tickets: set<string>)
    ensures forall t :: t in tickets <==> t in FindAll(text)
  {
    var matches := FindAll(text);
    tickets := {};
    var k := 0;
    while k < |matches|
      invariant 0 <= k <= |matches|
      invariant forall t :: t in tickets <==> t in matches[..k]
    {
      assert matches[..k + 1] == matches[..k] + [matches[k]];
      tickets := tickets + {matches[k]};
      k := k + 1;
    }
    assert matches[..|matches|] == matches;
  }

  /** The extracted set: the bracketed ticket keys of the text, duplicates collapsed. */
  ghost function Extracted(text: string): set<string> {
    set t | t in FindAll(text)
  }

  /**
   * A string is extracted exactly when it is a ticket key that occurs in
   * `text` between `[` and `]`.
   */
  lemma ExtractedSpec(text: string, t: string)
    ensures t in Extracted(text) <==> IsTicketKey(t) && exists i: nat :: BracketedAt(text, i, t)
  {
    FindAllSpec(text, t);
    if t in Extracted(text) {
      var j :| 0 <= j < |text| && TicketAt(text, j) == Some(t);
      TicketAtSound(text, j);
    }
    if IsTicketKey(t) && exists i: nat :: BracketedAt(text, i, t) {
      var i: nat :| BracketedAt(text, i, t);
      TicketAtComplete(text, i, t);
    }
  }

  /** Every extracted ticket is a ticket key, brackets excluded. */
  lemma ExtractedAreKeys(text: string, t: string)
    requires t in Extracted(text)
    ensures IsTicketKey(t) && '[' !in t && ']' !in t
  {
    MatchesAreKeys(text);
    ScanKeys(MatchesAt(text), 0);
    KeyHasNoBrackets(t);
  }

  /** A key outside brackets is not extracted. */
  lemma BareKeyIgnored()
    ensures Extracted("AB-123") == {}
  {
    var s := "AB-123";
    var ms := MatchesAt(s);
    forall j | 0 <= j < |s| ensures ms[j] == None {
      assert s[j] != '[';
    }
    MatchesDisjoint(s);
    forall t ensures t !in FindAll(s) {
      ScanSpec(ms, 0, t);
    }
  }

  /** A bracketed key is extracted without its brackets. */
  lemma BracketedKeyExtracted()
    ensures "AB-123" in Extracted("fix [AB-123]")
  {
    var s := "fix [AB-123]";
    TicketKeyIntro("AB-123", 2);
    assert s[5..11] == "AB-123";
    TicketAtComplete(s, 4, "AB-123");
    FindAllSpec(s, "AB-123");
  }

  /** Six letters are accepted. */
  lemma SixLettersAccepted()
    ensures TicketAt("[ABCDEF-1]", 0) == Some("ABCDEF-1")
  {
    TicketKeyIntro("ABCDEF-1", 6);
    assert "[ABCDEF-1]"[1..9] == "ABCDEF-1";
    TicketAtComplete("[ABCDEF-1]", 0, "ABCDEF-1");
  }

  /** Seven letters are not: the letter run cannot stop at six before the hyphen. */
  lemma SevenLettersRejected()
    ensures TicketAt("[ABCDEFG-1]", 0) == None
  {
    var rest := "[ABCDEFG-1]"[1..];
    assert rest == "ABCDEFG-1]";
    LeadingCountIs(rest, IsUpper, 7);
    LongLetterRunRejected(rest);
  }

  /** A run of more than six capitals right after `[` is no ticket. */
  lemma LongLetterRunRejected(rest: string)
    requires LeadingCount(rest, IsUpper) > 6
    ensures KeyAfterBracket(rest) == None
  {
  }

  // ---------------------------------------------------------------------
  // fetch_all_ticket_details
  // ---------------------------------------------------------------------

  /** The fields of a fetched Linear issue that the report prints. */
  datatype TicketDetails = TicketDetails(title: string, state: string, assignee: string)

  /**
   * `fetch_all_ticket_details`, with `fetch_ticket_details` as the function
   * `fetch` (None for a failed lookup) and the presence of `self.api_key` as
   * `hasApiKey`. `lookups` lists the tickets in the order they are fetched.
   */
  method FetchAllTicketDetails(tickets: set<string>, hasApiKey: bool, fetch: string -> Option<TicketDetails>)
    returns (details: map<string, Option<TicketDetails>>, lookups: seq<string>)
    ensures details.Keys == tickets
    ensures !hasApiKey ==> lookups == [] && forall t :: t in details ==> details[t] == None
    ensures hasApiKey ==> lookups == Sorted(tickets) && forall t :: t in details ==> details[t] == fetch(t)
  {
    if !hasApiKey {
      details := map t | t in tickets :: None;
      lookups := [];
      return;
    }
    lookups := SortedList(tickets);
    details := FetchEach(lookups, fetch);
  }

  /** The loop of `fetch_all_ticket_details`: `ticket_details[ticket] = fetch(ticket)` for each ticket of `order`. */
  method FetchEach(order: seq<string>, fetch: string -> Option<TicketDetails>) returns (details: map<string, Option<TicketDetails>>)
    ensures forall t :: t in details <==> t in order
    ensures forall t :: t in details ==> details[t] == fetch(t)
  {
    details := map[];
    for i := 0 to |order|
      invariant forall t :: t in details <==> t in order[..i]
      invariant forall t :: t in details ==> details[t] == fetch(t)
    {
      assert order[..i + 1] == order[..i] + [order[i]];
      details := details[order[i] := fetch(order[i])];
    }
    assert order[..|order|] == order;
  }

  /** With an API key every ticket is fetched exactly once. */
  lemma LookedUpOnce(tickets: set<string>)
    ensures forall i, j :: 0 <= i < j < |Sorted(tickets)| ==> Sorted(tickets)[i] != Sorted(tickets)[j]
  {
    var s := Sorted(tickets);
    forall i, j | 0 <= i < j < |s| ensures s[i] != s[j] {
      LessIrreflexive(s[i]);
    }
  }

  // ---------------------------------------------------------------------
  // save_tickets_to_file
  // ---------------------------------------------------------------------

  /**
   * `ticket_details.get(ticket) if ticket_details else None`: no lookup, an
   * empty result dict or a missing ticket all give None.
   */
  function DetailsFor(ticketDetails: Option<map<string, Option<TicketDetails>>>, ticket: string): Option<TicketDetails> {
    if ticketDetails.Some? && ticket in ticketDetails.value then ticketDetails.value[ticket] else None
  }

  const NotAvailable: string := "  (Details not available)"

  const Rule: string := "================================================================================"

  /**
   * The lines written for one ticket. "(Details not available)" follows the
   * ticket exactly when a lookup was made (`ticket_details is not None`) and
   * gave nothing for it.
   */
  function TicketLines(ticket: string, ticketDetails: Option<map<string, Option<TicketDetails>>>): (lines: seq<string>)
    ensures 2 <= |lines| <= 3 && lines[0] == "" && StartsWith(lines[1], ticket)
    ensures |lines| == 2 <==> ticketDetails.None?
    ensures (|lines| == 3 && lines[2] == NotAvailable) <==> ticketDetails.Some? && DetailsFor(ticketDetails, ticket).None?
  {
    match DetailsFor(ticketDetails, ticket)
    case Some(d) =>
      var state := "  State: " + d.state + " | Assignee: " + d.assignee;
      assert state[2] != NotAvailable[2];
      ["", ticket + ": " + d.title, state]
    case None => ["", ticket] + (if ticketDetails.Some? then [NotAvailable] else [])
  }

  /** The lines for the tickets of `sorted`, in that order. */
  function TicketsSection(sorted: seq<string>, ticketDetails: Option<map<string, Option<TicketDetails>>>): seq<string>
    decreases |sorted|
  {
    if sorted == [] then []
    else TicketsSection(sorted[..|sorted| - 1], ticketDetails) + TicketLines(sorted[|sorted| - 1], ticketDetails)
  }

  lemma {:induction false} TicketsSectionAppend(a: seq<string>, b: seq<string>, ticketDetails: Option<map<string, Option<TicketDetails>>>)
    ensures TicketsSection(a + b, ticketDetails) == TicketsSection(a, ticketDetails) + TicketsSection(b, ticketDetails)
    decreases |b|
  {
    if b == [] {
      assert a + b == a;
    } else {
      var b' := b[..|b| - 1];
      var t := b[|b| - 1];
      assert a + b == (a + b') + [t] && b == b' + [t];
      TicketsSectionSnoc(a + b', t, ticketDetails);
      TicketsSectionSnoc(b', t, ticketDetails);
      TicketsSectionAppend(a, b', ticketDetails);
      Assoc(TicketsSection(a, ticketDetails), TicketsSection(b', ticketDetails), TicketLines(t, ticketDetails));
    }
  }

  /** One more ticket adds its block at the end. */
  lemma TicketsSectionSnoc(a: seq<string>, t: string, ticketDetails: Option<map<string, Option<TicketDetails>>>)
    ensures TicketsSection(a + [t], ticketDetails) == TicketsSection(a, ticketDetails) + TicketLines(t, ticketDetails)
  {
    assert (a + [t])[..|a|] == a;
  }

  /** The block of `sorted[i]` comes after those of all earlier tickets and before those of all later ones. */
  lemma TicketBlockAt(sorted: seq<string>, ticketDetails: Option<map<string, Option<TicketDetails>>>, i: nat)
    requires i < |sorted|
    ensures TicketsSection(sorted, ticketDetails)
            == TicketsSection(sorted[..i], ticketDetails) + TicketLines(sorted[i], ticketDetails)
               + TicketsSection(sorted[i + 1..], ticketDetails)
  {
    assert sorted == sorted[..i] + [sorted[i]] + sorted[i + 1..];
    TicketsSectionAppend(sorted[..i] + [sorted[i]], sorted[i + 1..], ticketDetails);
    TicketsSectionAppend(sorted[..i], [sorted[i]], ticketDetails);
    assert TicketsSection([sorted[i]], ticketDetails) == TicketLines(sorted[i], ticketDetails) by {
      assert [sorted[i]][..0] == [];
    }
  }

  /** The project of a ticket: `ticket.split('-')[0]`. */
  function Prefix(ticket: string): (p: string)
    ensures StartsWith(ticket, p) && '-' !in p
  {
    var parts := Split(ticket, '-');
    SplitFirst(ticket);
    parts[0]
  }

  lemma SplitFirst(s: string)
    ensures StartsWith(s, Split(s, '-')[0])
  {
    if '-' in s {
      var i := IndexOf(s, '-');
      assert Split(s, '-')[0] == s[..i];
    }
  }

  /** The `projects` dict: each prefix to the tickets with it, in the order of `ts`. */
  function Grouped(ts: seq<string>): map<string, seq<string>>
    decreases |ts|
  {
    if ts == [] then map[]
    else
      var g := Grouped(ts[..|ts| - 1]);
      var t := ts[|ts| - 1];
      var p := Prefix(t);
      g[p := (if p in g then g[p] else []) + [t]]
  }

  /** The tickets of `ts` whose prefix is `p`, in order. */
  function WithPrefix(ts: seq<string>, p: string): (r: seq<string>)
    ensures forall k :: 0 <= k < |r| ==> Prefix(r[k]) == p && r[k] in ts
    decreases |ts|
  {
    if ts == [] then []
    else
      var init := WithPrefix(ts[..|ts| - 1], p);
      if Prefix(ts[|ts| - 1]) == p then init + [ts[|ts| - 1]] else init
  }

  /** The groups are exactly the prefixes that occur, each holding the tickets with that prefix. */
  lemma {:induction false} GroupedSpec(ts: seq<string>, p: string)
    ensures p in Grouped(ts) <==> exists i :: 0 <= i < |ts| && Prefix(ts[i]) == p
    ensures p in Grouped(ts) ==> Grouped(ts)[p] == WithPrefix(ts, p)
    ensures p !in Grouped(ts) ==> WithPrefix(ts, p) == []
    decreases |ts|
  {
    if ts != [] {
      var init := ts[..|ts| - 1];
      GroupedSpec(init, p);
      if exists i :: 0 <= i < |init| && Prefix(init[i]) == p {
        var i :| 0 <= i < |init| && Prefix(init[i]) == p;
        assert ts[i] == init[i];
      }
      if exists i :: 0 <= i < |ts| && Prefix(ts[i]) == p {
        var i :| 0 <= i < |ts| && Prefix(ts[i]) == p;
        if i < |init| { assert init[i] == ts[i]; }
      }
    }
  }

  /** `groupBy` in `save_tickets_to_file`: append each ticket to the list of its prefix. */
  method GroupByPrefix(ts: seq<string>) returns (projects: map<string, seq<string>>)
    ensures projects == Grouped(ts)
  {
    projects := map[];
    for i := 0 to |ts|
      invariant projects == Grouped(ts[..i])
    {
      var p := Prefix(ts[i]);
      if p !in projects {
        projects := projects[p := []];
      }
      assert ts[..i + 1][..i] == ts[..i];
      projects := projects[p := projects[p] + [ts[i]]];
    }
    assert ts[..|ts|] == ts;
  }

  /** No string occurs twice. */
  predicate Distinct(ps: seq<string>) {
    forall i, j :: 0 <= i < j < |ps| ==> ps[i] != ps[j]
  }

  /** The number of tickets `projects` holds for `p` (none when `p` is not a key). */
  function GroupSize(projects: map<string, seq<string>>, p: string): nat {
    if p in projects then |projects[p]| else 0
  }

  /** The sum of the group sizes `len(projects[p])` over `ps`. */
  function SumCounts(ps: seq<string>, projects: map<string, seq<string>>): nat
    decreases |ps|
  {
    if ps == [] then 0 else SumCounts(ps[..|ps| - 1], projects) + GroupSize(projects, ps[|ps| - 1])
  }

  /** The sum of `|WithPrefix(ts, p)|` over `ps`. */
  function SumWithPrefix(ps: seq<string>, ts: seq<string>): nat
    decreases |ps|
  {
    if ps == [] then 0 else SumWithPrefix(ps[..|ps| - 1], ts) + |WithPrefix(ts, ps[|ps| - 1])|
  }

  /** How often `x` occurs in `ps`. */
  function Occurrences(ps: seq<string>, x: string): nat
    decreases |ps|
  {
    if ps == [] then 0 else Occurrences(ps[..|ps| - 1], x) + (if ps[|ps| - 1] == x then 1 else 0)
  }

  lemma {:induction false} OccurrencesDistinct(ps: seq<string>, x: string)
    requires Distinct(ps)
    ensures Occurrences(ps, x) == if x in ps then 1 else 0
    decreases |ps|
  {
    if ps != [] {
      var init := ps[..|ps| - 1];
      OccurrencesDistinct(init, x);
      assert x in ps <==> x in init || ps[|ps| - 1] == x;
      if ps[|ps| - 1] == x {
        forall i | 0 <= i < |init| ensures init[i] != x {
          assert ps[i] == init[i];
        }
      }
    }
  }

  lemma {:induction false} SumWithPrefixSnoc(ps: seq<string>, ts: seq<string>, t: string)
    ensures SumWithPrefix(ps, ts + [t]) == SumWithPrefix(ps, ts) + Occurrences(ps, Prefix(t))
    decreases |ps|
  {
    assert (ts + [t])[..|ts|] == ts;
    if ps != [] {
      SumWithPrefixSnoc(ps[..|ps| - 1], ts, t);
    }
  }

  lemma {:induction false} SumWithPrefixCovers(ps: seq<string>, ts: seq<string>)
    requires Distinct(ps)
    requires forall i :: 0 <= i < |ts| ==> Prefix(ts[i]) in ps
    ensures SumWithPrefix(ps, ts) == |ts|
    decreases |ts|
  {
    if ts == [] {
      SumWithPrefixEmpty(ps);
    } else {
      var init := ts[..|ts| - 1];
      var t := ts[|ts| - 1];
      assert ts == init + [t];
      SumWithPrefixCovers(ps, init);
      SumWithPrefixSnoc(ps, init, t);
      OccurrencesDistinct(ps, Prefix(t));
    }
  }

  lemma {:induction false} SumWithPrefixEmpty(ps: seq<string>)
    ensures SumWithPrefix(ps, []) == 0
    decreases |ps|
  {
    if ps != [] {
      SumWithPrefixEmpty(ps[..|ps| - 1]);
    }
  }

  lemma {:induction false} SumCountsGrouped(ps: seq<string>, ts: seq<string>)
    ensures SumCounts(ps, Grouped(ts)) == SumWithPrefix(ps, ts)
    decreases |ps|
  {
    if ps != [] {
      SumCountsGrouped(ps[..|ps| - 1], ts);
      GroupedSpec(ts, ps[|ps| - 1]);
    }
  }

  /** The per-project counts of the report add up to the number of tickets. */
  lemma ProjectCountsSum(ts: seq<string>)
    ensures var projects := Grouped(ts);
            SumCounts(Sorted(projects.Keys), projects) == |ts|
  {
    var projects := Grouped(ts);
    var ps := Sorted(projects.Keys);
    assert Distinct(ps) by {
      forall i, j | 0 <= i < j < |ps| ensures ps[i] != ps[j] {
        LessIrreflexive(ps[i]);
      }
    }
    assert forall i :: 0 <= i < |ts| ==> Prefix(ts[i]) in ps by {
      forall i | 0 <= i < |ts| ensures Prefix(ts[i]) in ps {
        GroupedSpec(ts, Prefix(ts[i]));
      }
    }
    CountsCover(ps, ts);
  }

  /** Distinct prefixes covering every ticket count every ticket once. */
  lemma CountsCover(ps: seq<string>, ts: seq<string>)
    requires Distinct(ps)
    requires forall i :: 0 <= i < |ts| ==> Prefix(ts[i]) in ps
    ensures SumCounts(ps, Grouped(ts)) == |ts|
  {
    SumCountsGrouped(ps, ts);
    SumWithPrefixCovers(ps, ts);
  }

  /** `  - {prefix}: {len(project_tickets)} tickets` for each prefix of `ps`. */
  function ProjectLines(ps: seq<string>, projects: map<string, seq<string>>): (lines: seq<string>)
    ensures |lines| == |ps|
    decreases |ps|
  {
    if ps == [] then []
    else
      var p := ps[|ps| - 1];
      ProjectLines(ps[..|ps| - 1], projects) + ["  - " + p + ": " + NatToString(GroupSize(projects, p)) + " tickets"]
  }

  /** Line `k` of the project list is the line for `ps[k]`. */
  lemma {:induction false} ProjectLineAt(ps: seq<string>, projects: map<string, seq<string>>, k: nat)
    requires k < |ps|
    ensures ProjectLines(ps, projects)[k] == "  - " + ps[k] + ": " + NatToString(GroupSize(projects, ps[k])) + " tickets"
    decreases |ps|
  {
    if k < |ps| - 1 {
      ProjectLineAt(ps[..|ps| - 1], projects, k);
    }
  }

  function HeaderLines(repo: string, fromTag: string, toTag: string, timestamp: string): seq<string> {
    ["Linear Tickets Found in Git Tag Comparison", Rule, "",
     "Repository: " + repo, "From Tag: " + fromTag, "To Tag: " + toTag,
     "Extraction Date: " + timestamp, ""]
  }

  const NoTickets: string := "No Linear tickets found in the commit messages."

  /** The lines after the header when there are tickets: the count then the "Tickets:" heading. */
  function CountLines(n: nat): seq<string> {
    ["Total tickets found: " + NatToString(n), "", "Tickets:", Rule]
  }

  /** The first six lines of the "Summary:" block. */
  function SummaryHead(n: nat, prefixes: seq<string>): (lines: seq<string>)
    ensures |lines| == 6
    ensures lines[4] == "Total unique tickets: " + NatToString(n)
    ensures lines[5] == "Projects involved: " + Join(prefixes, ", ")
  {
    ["", "", "Summary:", Rule, "Total unique tickets: " + NatToString(n), "Projects involved: " + Join(prefixes, ", ")]
  }

  /** The "Summary:" block: the total, the project list, then one line per project. */
  function SummaryLines(n: nat, prefixes: seq<string>, projects: map<string, seq<string>>): (lines: seq<string>)
  {
    SummaryHead(n, prefixes) + ProjectLines(prefixes, projects)
  }

  /** The sorted project prefixes of a sorted ticket list. */
  ghost function Projects(sorted: seq<string>): seq<string> {
    Sorted(Grouped(sorted).Keys)
  }

  /** What follows the header, for the sorted tickets. */
  ghost function ReportBody(sorted: seq<string>, ticketDetails: Option<map<string, Option<TicketDetails>>>): seq<string> {
    if sorted == [] then [NoTickets]
    else CountLines(|sorted|) + TicketsSection(sorted, ticketDetails) + SummaryLines(|sorted|, Projects(sorted), Grouped(sorted))
  }

  /**
   * The lines of the file `save_tickets_to_file` writes, the clock reading
   * given as `timestamp`.
   */
  ghost function ReportLines(tickets: set<string>, repo: string, fromTag: string, toTag: string, timestamp: string,
                             ticketDetails: Option<map<string, Option<TicketDetails>>>): seq<string>
  {
    HeaderLines(repo, fromTag, toTag, timestamp) + ReportBody(Sorted(tickets), ticketDetails)
  }

  /** `save_tickets_to_file`: the file content as its list of lines. */
  method SaveTicketsToFile(tickets: set<string>, repo: string, fromTag: string, toTag: string, timestamp: string,
                           ticketDetails: Option<map<string, Option<TicketDetails>>>)
    returns (lines: seq<string>)
    ensures lines == ReportLines(tickets, repo, fromTag, toTag, timestamp, ticketDetails)
  {
    var sorted := SortedList(tickets);
    var body := WriteBody(sorted, ticketDetails);
    lines := HeaderLines(repo, fromTag, toTag, timestamp) + body;
  }

  /** The writes of `save_tickets_to_file` after the header. */
  method WriteBody(sorted: seq<string>, ticketDetails: Option<map<string, Option<TicketDetails>>>) returns (lines: seq<string>)
    ensures lines == ReportBody(sorted, ticketDetails)
  {
    if sorted == [] {
      return [NoTickets];
    }
    var section := WriteTickets(sorted, ticketDetails);
    var projects := GroupByPrefix(sorted);
    var prefixes := SortedList(projects.Keys);
    var summary := WriteSummary(|sorted|, prefixes, projects);
    lines := CountLines(|sorted|) + section + summary;
  }

  /** The loop writing one block per ticket, in the order of `sorted`. */
  method WriteTickets(sorted: seq<string>, ticketDetails: Option<map<string, Option<TicketDetails>>>) returns (lines: seq<string>)
    ensures lines == TicketsSection(sorted, ticketDetails)
  {
    lines := [];
    for i := 0 to |sorted|
      invariant lines == TicketsSection(sorted[..i], ticketDetails)
    {
      assert sorted[..i + 1][..i] == sorted[..i];
      lines := lines + TicketLines(sorted[i], ticketDetails);
    }
    assert sorted[..|sorted|] == sorted;
  }

  /** The summary writes: the head, then the loop over the sorted prefixes. */
  method WriteSummary(n: nat, prefixes: seq<string>, projects: map<string, seq<string>>) returns (summary: seq<string>)
    requires forall k :: 0 <= k < |prefixes| ==> prefixes[k] in projects
    ensures summary == SummaryLines(n, prefixes, projects)
  {
    var head := SummaryHead(n, prefixes);
    var body: seq<string> := [];
    for k := 0 to |prefixes|
      invariant body == ProjectLines(prefixes[..k], projects)
    {
      assert prefixes[..k + 1][..k] == prefixes[..k];
      var p := prefixes[k];
      body := body + ["  - " + p + ": " + NatToString(|projects[p]|) + " tickets"];
    }
    assert prefixes[..|prefixes|] == prefixes;
    summary := head + body;
  }

  /** The count line differs from the "none found" line: it ends in a digit, not a full stop. */
  lemma CountLineIsNotNoTickets(n: nat)
    ensures CountLines(n)[0] != NoTickets
  {
    var line := CountLines(n)[0];
    assert line == "Total tickets found: " + NatToString(n);
    var digits := NatToString(n);
    assert line[|line| - 1] == digits[|digits| - 1];
    assert NoTickets[|NoTickets| - 1] == '.';
  }

  /** The first line after the header. */
  lemma BodyOpening(sorted: seq<string>, ticketDetails: Option<map<string, Option<TicketDetails>>>)
    ensures var b := ReportBody(sorted, ticketDetails);
            |b| > 0
            && (sorted == [] ==> b == [NoTickets])
            && (sorted != [] ==> b[0] == "Total tickets found: " + NatToString(|sorted|) && b[0] != NoTickets)
  {
    if sorted != [] {
      var c := CountLines(|sorted|);
      var ct := c + TicketsSection(sorted, ticketDetails);
      var b := ct + SummaryLines(|sorted|, Projects(sorted), Grouped(sorted));
      assert ReportBody(sorted, ticketDetails) == b;
      assert b[0] == ct[0] == c[0];
      CountLineIsNotNoTickets(|sorted|);
    }
  }

  /** Without tickets the report ends with the "none found" line; otherwise it goes on with the count. */
  lemma ReportOpening(tickets: set<string>, repo: string, fromTag: string, toTag: string, timestamp: string,
                      ticketDetails: Option<map<string, Option<TicketDetails>>>)
    ensures var r := ReportLines(tickets, repo, fromTag, toTag, timestamp, ticketDetails);
            |r| > 8 && r[..8] == HeaderLines(repo, fromTag, toTag, timestamp)
            && (tickets == {} <==> r[8] == NoTickets)
            && (tickets == {} ==> |r| == 9)
            && (tickets != {} ==> r[8] == "Total tickets found: " + NatToString(|tickets|))
  {
    var h := HeaderLines(repo, fromTag, toTag, timestamp);
    var sorted := Sorted(tickets);
    var b := ReportBody(sorted, ticketDetails);
    BodyOpening(sorted, ticketDetails);
    assert tickets == {} <==> sorted == [];
    assert |h| == 8;
    assert (h + b)[..8] == h;
    assert (h + b)[8] == b[0];
  }

  /** The project groups of a sorted ticket list are the prefixes of its tickets. */
  lemma GroupedKeys(tickets: set<string>)
    ensures Grouped(Sorted(tickets)).Keys == set t | t in tickets :: Prefix(t)
  {
    var sorted := Sorted(tickets);
    forall p ensures p in Grouped(sorted) <==> p in set t | t in tickets :: Prefix(t) {
      GroupedSpec(sorted, p);
      if p in set t | t in tickets :: Prefix(t) {
        var t :| t in tickets && Prefix(t) == p;
        var i :| 0 <= i < |sorted| && sorted[i] == t;
      }
    }
  }

  /** The lines of a report that ends with a summary block, counted from the end. */
  lemma SummaryAtEnd(x: seq<string>, n: nat, prefixes: seq<string>, projects: map<string, seq<string>>)
    ensures var r := x + SummaryLines(n, prefixes, projects);
            var m := |r| - |prefixes| - 2;
            |r| >= |prefixes| + 2
            && r[m] == "Total unique tickets: " + NatToString(n)
            && r[m + 1] == "Projects involved: " + Join(prefixes, ", ")
            && forall k :: 0 <= k < |prefixes| ==>
                 r[m + 2 + k] == "  - " + prefixes[k] + ": " + NatToString(GroupSize(projects, prefixes[k])) + " tickets"
  {
    var head := SummaryHead(n, prefixes);
    var pl := ProjectLines(prefixes, projects);
    var r := x + (head + pl);
    var m := |r| - |prefixes| - 2;
    assert m == |x| + 4;
    assert r[m] == head[4] && r[m + 1] == head[5];
    forall k | 0 <= k < |prefixes|
      ensures r[m + 2 + k] == "  - " + prefixes[k] + ": " + NatToString(GroupSize(projects, prefixes[k])) + " tickets"
    {
      assert r[m + 2 + k] == pl[k];
      ProjectLineAt(prefixes, projects, k);
    }
  }

  /** The project prefixes of a set of tickets. */
  function ProjectsOf(tickets: set<string>): set<string> {
    set t | t in tickets :: Prefix(t)
  }

  /**
   * `r` ends with the summary of `n` tickets grouped from `sorted` under the
   * project list `prefixes`: the total, the projects, and per project the
   * number of tickets of `sorted` with that prefix.
   */
  ghost predicate ShowsSummary(r: seq<string>, n: nat, prefixes: seq<string>, sorted: seq<string>) {
    var m := |r| - |prefixes| - 2;
    |r| >= |prefixes| + 2
    && r[m] == "Total unique tickets: " + NatToString(n)
    && r[m + 1] == "Projects involved: " + Join(prefixes, ", ")
    && forall k :: 0 <= k < |prefixes| ==>
         r[m + 2 + k] == "  - " + prefixes[k] + ": " + NatToString(|WithPrefix(sorted, prefixes[k])|) + " tickets"
  }

  /**
   * The summary of a report with tickets: its total is the number of
   * tickets, and it lists the projects of the sorted tickets with, for each,
   * the number of tickets with that prefix.
   */
  lemma ReportSummary(tickets: set<string>, repo: string, fromTag: string, toTag: string, timestamp: string,
                      ticketDetails: Option<map<string, Option<TicketDetails>>>)
    requires tickets != {}
    ensures ShowsSummary(ReportLines(tickets, repo, fromTag, toTag, timestamp, ticketDetails),
                         |tickets|, Projects(Sorted(tickets)), Sorted(tickets))
  {
    var sorted := Sorted(tickets);
    var h := HeaderLines(repo, fromTag, toTag, timestamp);
    var ct := CountLines(|sorted|) + TicketsSection(sorted, ticketDetails);
    var s := SummaryLines(|sorted|, Projects(sorted), Grouped(sorted));
    assert ReportLines(tickets, repo, fromTag, toTag, timestamp, ticketDetails) == h + (ct + s);
    Assoc(h, ct, s);
    GroupSizes(sorted);
    SummaryShown(h + ct, sorted, Projects(sorted), Grouped(sorted));
  }

  /** The projects the summary lists are the sorted prefixes of the tickets. */
  lemma ProjectsAreTicketPrefixes(tickets: set<string>)
    ensures Projects(Sorted(tickets)) == Sorted(ProjectsOf(tickets))
  {
    GroupedKeys(tickets);
  }

  /** The size of each group is the number of tickets with its prefix. */
  lemma GroupSizes(ts: seq<string>)
    ensures forall p :: GroupSize(Grouped(ts), p) == |WithPrefix(ts, p)|
  {
    forall p ensures GroupSize(Grouped(ts), p) == |WithPrefix(ts, p)| {
      GroupedSpec(ts, p);
    }
  }

  /** Any lines followed by the summary block of groups of the right sizes show that summary. */
  lemma SummaryShown(x: seq<string>, sorted: seq<string>, prefixes: seq<string>, projects: map<string, seq<string>>)
    requires forall p :: GroupSize(projects, p) == |WithPrefix(sorted, p)|
    ensures ShowsSummary(x + SummaryLines(|sorted|, prefixes, projects), |sorted|, prefixes, sorted)
  {
    SummaryAtEnd(x, |sorted|, prefixes, projects);
  }

  lemma Assoc<T>(a: seq<T>, b: seq<T>, c: seq<T>)
    ensures a + (b + c) == (a + b) + c
  {
  }
}
