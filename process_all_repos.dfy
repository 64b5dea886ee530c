/**
 * `tags-diff/process_all_repos.py`: which services of `input.json` are
 * processed, the per-service status and ticket list, the batch counters,
 * and the consolidated `all_tickets` and `tickets_by_project` output.
 */
module ProcessAllRepos {
  import opened Wrappers
  import opened Text
  import opened Ordering
  import opened LinearTickets

  // ---------------------------------------------------------------------
  // extract_repo_path
  // ---------------------------------------------------------------------

  const GitSuffix := ".git"

  /**
   * `extract_repo_path` given `urlparse(repo_url).path`: strip `/` from both
   * ends, then drop one trailing `.git`.
   */
  function ExtractRepoPath(urlPath: string): (r: string)
    ensures var p := StripChar(urlPath, '/');
            StartsWith(p, r) && |p| - 4 <= |r| && (r != [] ==> r[0] != '/')
  {
    var path := StripChar(urlPath, '/');
    if EndsWith(path, GitSuffix) then path[..|path| - 4] else path
  }

  /** Exactly one `.git` is removed, and only at the end of the stripped path. */
  lemma RepoPathSpec(urlPath: string)
    ensures var p := StripChar(urlPath, '/'); var r := ExtractRepoPath(urlPath);
            (EndsWith(p, GitSuffix) ==> r + GitSuffix == p)
            && (!EndsWith(p, GitSuffix) ==> r == p)
  {
    var p := StripChar(urlPath, '/');
    if EndsWith(p, GitSuffix) {
      assert p == p[..|p| - 4] + p[|p| - 4..];
    }
  }

  // ---------------------------------------------------------------------
  // should_process_service and process_service
  // ---------------------------------------------------------------------

  /** A record of `input.json`, its fields read with `.get`. */
  type Service = map<string, string>

  /** `service.get(key, default)`. */
  function Field(service: Service, key: string, default: string): (v: string)
    ensures key in service ==> v == service[key]
    ensures key !in service ==> v == default
  {
    if key in service then service[key] else default
  }

  function CurrentTag(service: Service): string { Field(service, "current_tag", "") }
  function NewTag(service: Service): string { Field(service, "new_tag", "") }

  /** `should_process_service` on the two tags. */
  function ShouldProcessService(current: string, next: string, skipUnchanged: bool): (process: bool)
    ensures process ==> current != "" || next != ""
    ensures process ==> !(skipUnchanged && current == next)
  {
    if current == "" && next == "" then false
    else if skipUnchanged && current == next then false
    else true
  }

  /** A service is processed unless both tags are empty, or `skip_unchanged` holds and the tags agree. */
  lemma ShouldProcessSpec(current: string, next: string, skipUnchanged: bool)
    ensures current == "" && next == "" ==> !ShouldProcessService(current, next, skipUnchanged)
    ensures skipUnchanged && current == next ==> !ShouldProcessService(current, next, skipUnchanged)
    ensures ShouldProcessService(current, next, skipUnchanged) <==>
              (current != "" || next != "") && !(skipUnchanged && current == next)
  {
  }

  /** The four values of a result's `status`. */
  datatype Status = NewService | NoNewVersion | Error | Success

  /** The dict `process_service` returns. */
  datatype ServiceResult = ServiceResult(service: string, repository: string, repoPath: string,
                                         versionKey: string, currentTag: string, newTag: string,
                                         status: Status, tickets: seq<string>, ticketCount: nat,
                                         error: Option<string>)

  const CompareFailed := "Failed to fetch commits or no commits found"

  /** The result record with everything but the status, tickets and error filled in from the service. */
  function Record(service: Service, repoPath: string, status: Status, tickets: seq<string>, count: nat,
                  error: Option<string>): ServiceResult {
    ServiceResult(Field(service, "service", "unknown"), Field(service, "repository", ""), repoPath,
                  Field(service, "version_key", ""), CurrentTag(service), NewTag(service),
                  status, tickets, count, error)
  }

  /**
   * What `process_service` returns, with `urlparse(...).path` given as
   * `urlPath` and the output of the `compare_tags.py` child as
   * `compare(repo_path, current_tag, new_tag)` ("" when it failed).
   */
  ghost function Outcome(service: Service, urlPath: string -> string,
                         compare: (string, string, string) -> string): Option<ServiceResult> {
    Classify(service, ExtractRepoPath(urlPath(Field(service, "repository", ""))), CurrentTag(service), NewTag(service), compare)
  }

  /** The branches of `process_service` once the repository path and the two tags are read. */
  ghost function Classify(service: Service, repoPath: string, current: string, next: string,
                          compare: (string, string, string) -> string): Option<ServiceResult>
    requires current == CurrentTag(service) && next == NewTag(service)
  {
    if repoPath == "" then None
    else if current == "" && next != "" then Some(Record(service, repoPath, NewService, [], 0, None))
    else if next == "" then Some(Record(service, repoPath, NoNewVersion, [], 0, None))
    else
      var output := compare(repoPath, current, next);
      if output == "" then Some(Record(service, repoPath, Error, [], 0, Some(CompareFailed)))
      else
        var tickets := Extracted(output);
        Some(Record(service, repoPath, Success, Sorted(tickets), |tickets|, None))
  }

  /** `process_service`. */
  method ProcessService(service: Service, urlPath: string -> string, compare: (string, string, string) -> string)
    returns (result: Option<ServiceResult>)
    ensures result == Outcome(service, urlPath, compare)
  {
    var serviceName := Field(service, "service", "unknown");
    var repoUrl := Field(service, "repository", "");
    var currentTag := Field(service, "current_tag", "");
    var newTag := Field(service, "new_tag", "");
    var versionKey := Field(service, "version_key", "");
    var repoPath := ExtractRepoPath(urlPath(repoUrl));
    if repoPath == "" {
      return None;
    }
    if currentTag == "" && newTag != "" {
      return Some(ServiceResult(serviceName, repoUrl, repoPath, versionKey, currentTag, newTag, NewService, [], 0, None));
    }
    if newTag == "" {
      return Some(ServiceResult(serviceName, repoUrl, repoPath, versionKey, currentTag, newTag, NoNewVersion, [], 0, None));
    }
    var output := compare(repoPath, currentTag, newTag);
    if output == "" {
      return Some(ServiceResult(serviceName, repoUrl, repoPath, versionKey, currentTag, newTag, Error, [], 0, Some(CompareFailed)));
    }
    var tickets := ExtractTicketsFromText(output);
    assert tickets == Extracted(output);
    var sortedTickets := SortedList(tickets);
    result := Some(ServiceResult(serviceName, repoUrl, repoPath, versionKey, currentTag, newTag, Success,
                                 sortedTickets, |tickets|, None));
  }

  /**
   * The status of a service: None for an empty repository path, then
   * `new_service`, `no_new_version`, `error` and `success` in that order of
   * precedence; all but `success` carry no tickets, and only `error` an
   * error message.
   */
  lemma OutcomeStatus(service: Service, urlPath: string -> string, compare: (string, string, string) -> string)
    ensures var repoPath := ExtractRepoPath(urlPath(Field(service, "repository", "")));
            var current := CurrentTag(service);
            var next := NewTag(service);
            var o := Outcome(service, urlPath, compare);
            (o.None? <==> repoPath == "")
            && (o.Some? ==> o.value.repoPath == repoPath && o.value.currentTag == current && o.value.newTag == next
                            && o.value.service == Field(service, "service", "unknown"))
            && (o.Some? && o.value.status == NewService <==> repoPath != "" && current == "" && next != "")
            && (o.Some? && o.value.status == NoNewVersion <==> repoPath != "" && next == "")
            && (o.Some? && o.value.status == Error <==>
                  repoPath != "" && current != "" && next != "" && compare(repoPath, current, next) == "")
            && (o.Some? && o.value.status != Success ==> o.value.tickets == [] && o.value.ticketCount == 0)
            && (o.Some? ==> (o.value.error.Some? <==> o.value.status == Error))
  {
    ClassifyStatus(service, ExtractRepoPath(urlPath(Field(service, "repository", ""))), CurrentTag(service), NewTag(service), compare);
  }

  /** `OutcomeStatus` once the repository path and the tags are read. */
  lemma ClassifyStatus(service: Service, repoPath: string, current: string, next: string,
                       compare: (string, string, string) -> string)
    requires current == CurrentTag(service) && next == NewTag(service)
    ensures var o := Classify(service, repoPath, current, next, compare);
            (o.None? <==> repoPath == "")
            && (o.Some? ==> o.value.repoPath == repoPath && o.value.currentTag == current && o.value.newTag == next
                            && o.value.service == Field(service, "service", "unknown"))
            && (o.Some? && o.value.status == NewService <==> repoPath != "" && current == "" && next != "")
            && (o.Some? && o.value.status == NoNewVersion <==> repoPath != "" && next == "")
            && (o.Some? && o.value.status == Error <==>
                  repoPath != "" && current != "" && next != "" && compare(repoPath, current, next) == "")
            && (o.Some? && o.value.status != Success ==> o.value.tickets == [] && o.value.ticketCount == 0)
            && (o.Some? ==> (o.value.error.Some? <==> o.value.status == Error))
  {
  }

  /**
   * On success the tickets are the distinct ticket keys found in the
   * comparison output, sorted, and `ticket_count` is their number.
   */
  lemma SuccessTickets(service: Service, urlPath: string -> string, compare: (string, string, string) -> string)
    requires var o := Outcome(service, urlPath, compare); o.Some? && o.value.status == Success
    ensures var o := Outcome(service, urlPath, compare).value;
            var output := compare(o.repoPath, o.currentTag, o.newTag);
            StrictlySorted(o.tickets) && o.ticketCount == |o.tickets|
            && (forall t :: t in o.tickets <==> t in Extracted(output))
            && forall k :: 0 <= k < |o.tickets| ==> IsTicketKey(o.tickets[k])
  {
    var o := Outcome(service, urlPath, compare).value;
    var output := compare(o.repoPath, o.currentTag, o.newTag);
    ClassifiedSuccess(service, ExtractRepoPath(urlPath(Field(service, "repository", ""))), CurrentTag(service), NewTag(service), compare);
    SortedTicketsOf(output, o.tickets, o.ticketCount);
  }

  /** A success carries the sorted tickets of the comparison output and their number. */
  lemma ClassifiedSuccess(service: Service, repoPath: string, current: string, next: string,
                          compare: (string, string, string) -> string)
    requires current == CurrentTag(service) && next == NewTag(service)
    requires var o := Classify(service, repoPath, current, next, compare); o.Some? && o.value.status == Success
    ensures var o := Classify(service, repoPath, current, next, compare).value;
            var output := compare(o.repoPath, o.currentTag, o.newTag);
            o.tickets == Sorted(Extracted(output)) && o.ticketCount == |Extracted(output)|
  {
  }

  /** The sorted distinct tickets of a comparison output, and their number. */
  lemma SortedTicketsOf(output: string, tickets: seq<string>, count: nat)
    requires tickets == Sorted(Extracted(output)) && count == |Extracted(output)|
    ensures StrictlySorted(tickets) && count == |tickets|
            && (forall t :: t in tickets <==> t in Extracted(output))
            && forall k :: 0 <= k < |tickets| ==> IsTicketKey(tickets[k])
  {
    forall k | 0 <= k < |tickets| ensures IsTicketKey(tickets[k]) {
      ExtractedAreKeys(output, tickets[k]);
    }
  }

  // ---------------------------------------------------------------------
  // process_all_services: the service loop
  // ---------------------------------------------------------------------

  /** `set(xs)`. */
  function Elements(xs: seq<string>): (s: set<string>)
    ensures forall x :: x in s <==> x in xs
  {
    set x | x in xs
  }

  /** The state of the service loop: `results`, the three counters and `total_tickets`. */
  datatype Tally = Tally(results: seq<ServiceResult>, processed: nat, skipped: nat, failed: nat, tickets: set<string>)

  /**
   * One iteration of the service loop, given whether `should_process_service`
   * accepted the service and what `process_service` returned for it (looked
   * at only when the service was accepted).
   */
  function StepWith(t: Tally, process: bool, outcome: Option<ServiceResult>): Tally {
    if !process then t.(skipped := t.skipped + 1)
    else
      match outcome
      case None => t.(failed := t.failed + 1)
      case Some(r) =>
        if r.status == Success then
          t.(results := t.results + [r], processed := t.processed + 1, tickets := t.tickets + Elements(r.tickets))
        else if r.status == Error then t.(results := t.results + [r], failed := t.failed + 1)
        else t.(results := t.results + [r])
  }

  /** One iteration of the service loop. */
  ghost function Step(t: Tally, service: Service, skipUnchanged: bool, urlPath: string -> string,
                      compare: (string, string, string) -> string): Tally {
    StepWith(t, ShouldProcessService(CurrentTag(service), NewTag(service), skipUnchanged), Outcome(service, urlPath, compare))
  }

  /** The state after the service loop has run over `services`. */
  ghost function TallyOf(services: seq<Service>, skipUnchanged: bool, urlPath: string -> string,
                         compare: (string, string, string) -> string): Tally
    decreases |services|
  {
    if services == [] then Tally([], 0, 0, 0, {})
    else Step(TallyOf(services[..|services| - 1], skipUnchanged, urlPath, compare),
              services[|services| - 1], skipUnchanged, urlPath, compare)
  }

  /** The service loop of `process_all_services`. */
  method TallyServices(services: seq<Service>, skipUnchanged: bool, urlPath: string -> string,
                       compare: (string, string, string) -> string)
    returns (results: seq<ServiceResult>, processed: nat, skipped: nat, failed: nat, totalTickets: set<string>)
    ensures Tally(results, processed, skipped, failed, totalTickets) == TallyOf(services, skipUnchanged, urlPath, compare)
  {
    results, processed, skipped, failed, totalTickets := [], 0, 0, 0, {};
    for i := 0 to |services|
      invariant Tally(results, processed, skipped, failed, totalTickets) == TallyOf(services[..i], skipUnchanged, urlPath, compare)
    {
      TallyOfStep(services, i, skipUnchanged, urlPath, compare);
      results, processed, skipped, failed, totalTickets :=
        StepService(results, processed, skipped, failed, totalTickets, services[i], skipUnchanged, urlPath, compare);
    }
    assert services[..|services|] == services;
  }

  /** The loop state after one more service is one `Step` further. */
  lemma TallyOfStep(services: seq<Service>, i: nat, skipUnchanged: bool, urlPath: string -> string,
                    compare: (string, string, string) -> string)
    requires i < |services|
    ensures TallyOf(services[..i + 1], skipUnchanged, urlPath, compare)
            == Step(TallyOf(services[..i], skipUnchanged, urlPath, compare), services[i], skipUnchanged, urlPath, compare)
  {
    assert services[..i + 1][..i] == services[..i];
  }

  /** The body of the service loop for one service. */
  method StepService(results: seq<ServiceResult>, processed: nat, skipped: nat, failed: nat, totalTickets: set<string>,
                     service: Service, skipUnchanged: bool, urlPath: string -> string,
                     compare: (string, string, string) -> string)
    returns (results': seq<ServiceResult>, processed': nat, skipped': nat, failed': nat, totalTickets': set<string>)
    ensures Tally(results', processed', skipped', failed', totalTickets')
            == Step(Tally(results, processed, skipped, failed, totalTickets), service, skipUnchanged, urlPath, compare)
  {
    if !ShouldProcessService(CurrentTag(service), NewTag(service), skipUnchanged) {
      results', processed', skipped', failed', totalTickets' :=
        RecordOutcome(results, processed, skipped, failed, totalTickets, false, None);
    } else {
      var result := ProcessService(service, urlPath, compare);
      results', processed', skipped', failed', totalTickets' :=
        RecordOutcome(results, processed, skipped, failed, totalTickets, true, result);
    }
  }

  /** The updates of the loop state, `process` telling whether the service was accepted and `result` what `process_service` returned. */
  method RecordOutcome(results: seq<ServiceResult>, processed: nat, skipped: nat, failed: nat, totalTickets: set<string>,
                process: bool, result: Option<ServiceResult>)
    returns (results': seq<ServiceResult>, processed': nat, skipped': nat, failed': nat, totalTickets': set<string>)
    ensures Tally(results', processed', skipped', failed', totalTickets')
            == StepWith(Tally(results, processed, skipped, failed, totalTickets), process, result)
  {
    results', processed', skipped', failed', totalTickets' := results, processed, skipped, failed, totalTickets;
    if !process {
      skipped' := skipped + 1;
      return;
    }
    if result.Some? {
      results' := results + [result.value];
      if result.value.status == Success {
        processed' := processed + 1;
        totalTickets' := totalTickets + Elements(result.value.tickets);
      } else if result.value.status == Error {
        failed' := failed + 1;
      }
    } else {
      failed' := failed + 1;
    }
  }

  /** The services rejected by `should_process_service`. */
  ghost function SkippedCount(services: seq<Service>, skipUnchanged: bool): nat
    decreases |services|
  {
    if services == [] then 0
    else
      var s := services[|services| - 1];
      SkippedCount(services[..|services| - 1], skipUnchanged)
      + (if ShouldProcessService(CurrentTag(s), NewTag(s), skipUnchanged) then 0 else 1)
  }

  /** The services that were processed but for which `process_service` returned None. */
  ghost function DroppedCount(services: seq<Service>, skipUnchanged: bool, urlPath: string -> string,
                              compare: (string, string, string) -> string): nat
    decreases |services|
  {
    if services == [] then 0
    else
      var s := services[|services| - 1];
      DroppedCount(services[..|services| - 1], skipUnchanged, urlPath, compare)
      + (if ShouldProcessService(CurrentTag(s), NewTag(s), skipUnchanged) && Outcome(s, urlPath, compare).None? then 1 else 0)
  }

  /** The results with a given status. */
  function CountStatus(results: seq<ServiceResult>, status: Status): (n: nat)
    ensures n <= |results|
    decreases |results|
  {
    if results == [] then 0
    else CountStatus(results[..|results| - 1], status) + (if results[|results| - 1].status == status then 1 else 0)
  }

  /** The tickets of the successful results, as `all_tickets_set` collects them. */
  function SuccessTicketSet(results: seq<ServiceResult>): set<string>
    decreases |results|
  {
    if results == [] then {}
    else
      var r := results[|results| - 1];
      SuccessTicketSet(results[..|results| - 1]) + (if r.status == Success then Elements(r.tickets) else {})
  }

  /**
   * The counters of a tally after `n` services of which `skippedN` were
   * rejected and `dropped` lost: skipped, kept and dropped services add up to
   * `n`, `processed` counts the successes, `failed` the errors plus the
   * dropped services, and the tickets are the union of the successes' tickets.
   */
  ghost predicate Counted(t: Tally, n: nat, skippedN: nat, dropped: nat) {
    && t.skipped == skippedN
    && t.skipped + |t.results| + dropped == n
    && t.processed == CountStatus(t.results, Success)
    && t.failed == CountStatus(t.results, Error) + dropped
    && t.tickets == SuccessTicketSet(t.results)
  }

  /** One iteration of the service loop keeps the counters in step. */
  lemma StepCounted(t: Tally, n: nat, skippedN: nat, dropped: nat, service: Service, skipUnchanged: bool,
                    urlPath: string -> string, compare: (string, string, string) -> string)
    requires Counted(t, n, skippedN, dropped)
    ensures var process := ShouldProcessService(CurrentTag(service), NewTag(service), skipUnchanged);
            Counted(Step(t, service, skipUnchanged, urlPath, compare), n + 1,
                    skippedN + (if process then 0 else 1),
                    dropped + (if process && Outcome(service, urlPath, compare).None? then 1 else 0))
  {
    var t' := Step(t, service, skipUnchanged, urlPath, compare);
    if |t'.results| > |t.results| {
      assert t'.results[..|t'.results| - 1] == t.results;
    }
  }

  /**
   * The counters: `skipped` counts the rejected services, `processed` the
   * successes, `failed` the errors plus the services `process_service`
   * dropped; so skipped, kept and dropped services add up to all of them.
   * `total_tickets` is the union of the successes' tickets.
   */
  lemma {:induction false} TallyCounts(services: seq<Service>, skipUnchanged: bool, urlPath: string -> string,
                                       compare: (string, string, string) -> string)
    ensures var t := TallyOf(services, skipUnchanged, urlPath, compare);
            var dropped := DroppedCount(services, skipUnchanged, urlPath, compare);
            t.skipped == SkippedCount(services, skipUnchanged)
            && t.skipped + |t.results| + dropped == |services|
            && t.processed == CountStatus(t.results, Success)
            && t.failed == CountStatus(t.results, Error) + dropped
            && t.tickets == SuccessTicketSet(t.results)
    decreases |services|
  {
    if services != [] {
      var init := services[..|services| - 1];
      TallyCounts(init, skipUnchanged, urlPath, compare);
      StepCounted(TallyOf(init, skipUnchanged, urlPath, compare), |init|, SkippedCount(init, skipUnchanged),
                  DroppedCount(init, skipUnchanged, urlPath, compare), services[|services| - 1],
                  skipUnchanged, urlPath, compare);
    }
  }

  /** What one service adds to `results`: its outcome, when it is processed and not dropped. */
  ghost function KeptOutcome(service: Service, skipUnchanged: bool, urlPath: string -> string,
                             compare: (string, string, string) -> string): seq<ServiceResult> {
    var o := Outcome(service, urlPath, compare);
    if ShouldProcessService(CurrentTag(service), NewTag(service), skipUnchanged) && o.Some? then [o.value] else []
  }

  /** The outcomes of the processed services that `process_service` did not drop, in order. */
  ghost function Kept(services: seq<Service>, skipUnchanged: bool, urlPath: string -> string,
                      compare: (string, string, string) -> string): seq<ServiceResult>
    decreases |services|
  {
    if services == [] then []
    else Kept(services[..|services| - 1], skipUnchanged, urlPath, compare)
         + KeptOutcome(services[|services| - 1], skipUnchanged, urlPath, compare)
  }

  lemma StepResults(t: Tally, service: Service, skipUnchanged: bool, urlPath: string -> string,
                    compare: (string, string, string) -> string)
    ensures Step(t, service, skipUnchanged, urlPath, compare).results
            == t.results + KeptOutcome(service, skipUnchanged, urlPath, compare)
  {
  }

  /** `results` holds the outcome of every processed service that was not dropped, in input order, and nothing else. */
  lemma {:induction false} TallyResultsAreKept(services: seq<Service>, skipUnchanged: bool, urlPath: string -> string,
                                               compare: (string, string, string) -> string)
    ensures TallyOf(services, skipUnchanged, urlPath, compare).results == Kept(services, skipUnchanged, urlPath, compare)
    decreases |services|
  {
    if services != [] {
      var init := services[..|services| - 1];
      TallyResultsAreKept(init, skipUnchanged, urlPath, compare);
      StepResults(TallyOf(init, skipUnchanged, urlPath, compare), services[|services| - 1], skipUnchanged, urlPath, compare);
    }
  }

  // ---------------------------------------------------------------------
  // process_all_services: the consolidated output
  // ---------------------------------------------------------------------

  /** The loop collecting `all_tickets_set` from the successful results. */
  method CollectTickets(results: seq<ServiceResult>) returns (all: set<string>)
    ensures all == SuccessTicketSet(results)
  {
    all := {};
    for i := 0 to |results|
      invariant all == SuccessTicketSet(results[..i])
    {
      assert results[..i + 1][..i] == results[..i];
      if results[i].status == Success {
        var ts := results[i].tickets;
        ghost var before := all;
        for j := 0 to |ts|
          invariant all == before + Elements(ts[..j])
        {
          assert ts[..j + 1] == ts[..j] + [ts[j]];
          all := all + {ts[j]};
        }
        assert ts[..|ts|] == ts;
      }
    }
    assert results[..|results|] == results;
  }

  /** `ticket_details_map.get(ticket_id)`. */
  function Lookup(details: map<string, Option<TicketDetails>>, ticket: string): Option<TicketDetails> {
    if ticket in details then details[ticket] else None
  }

  /** An entry of `all_tickets`: `"ID: title"` when the details carry a title, the bare ID otherwise. */
  function TicketEntry(ticket: string, details: Option<TicketDetails>): (e: string)
    ensures StartsWith(e, ticket)
    ensures details.Some? && details.value.title != "" ==> e[|ticket|..] == ": " + details.value.title
    ensures !(details.Some? && details.value.title != "") ==> e == ticket
  {
    if details.Some? && details.value.title != "" then ticket + ": " + details.value.title else ticket
  }

  /** The loop building `all_tickets` over the sorted ticket IDs. */
  method BuildAllTickets(sorted: seq<string>, details: map<string, Option<TicketDetails>>) returns (all: seq<string>)
    ensures |all| == |sorted|
    ensures forall k :: 0 <= k < |sorted| ==> all[k] == TicketEntry(sorted[k], Lookup(details, sorted[k]))
  {
    all := [];
    for i := 0 to |sorted|
      invariant |all| == i
      invariant forall k :: 0 <= k < i ==> all[k] == TicketEntry(sorted[k], Lookup(details, sorted[k]))
    {
      var d := if sorted[i] in details then details[sorted[i]] else None;
      if d.Some? && d.value.title != "" {
        all := all + [sorted[i] + ": " + d.value.title];
      } else {
        all := all + [sorted[i]];
      }
    }
  }

  /**
   * The loop `tickets_by_project[prefix] = sorted(tickets_by_project[prefix])`
   * over every prefix. `sorted(list)` is taken as the sorted list of the
   * list's elements, which agrees with Python only for lists without
   * duplicates; every list given here is a group of the sorted ticket set,
   * so none holds a ticket twice.
   */
  method SortGroups(groups: map<string, seq<string>>) returns (r: map<string, seq<string>>)
    ensures r.Keys == groups.Keys
    ensures forall p :: p in r ==> r[p] == Sorted(Elements(groups[p]))
  {
    r := groups;
    var todo := groups.Keys;
    while todo != {}
      invariant todo <= groups.Keys && r.Keys == groups.Keys
      invariant forall p :: p in r && p !in todo ==> r[p] == Sorted(Elements(groups[p]))
      invariant forall p :: p in todo ==> r[p] == groups[p]
      decreases |todo|
    {
      var p :| p in todo;
      var s := SortedList(Elements(r[p]));
      r := r[p := s];
      todo := todo - {p};
    }
  }

  /** The dict `process_all_services` returns, without `generated_at`. */
  datatype Report = Report(totalServices: nat, processed: nat, skipped: nat, failed: nat, totalUniqueTickets: nat,
                           services: seq<ServiceResult>, allTickets: seq<string>,
                           ticketsByProject: map<string, seq<string>>)

  /**
   * `process_all_services`. `fetchLinearDetails` and `hasApiKey` are the
   * processor's flag and the presence of `LINEAR_API_KEY`; `fetch` stands
   * for `fetch_ticket_details`.
   */
  method ProcessAllServices(services: seq<Service>, skipUnchanged: bool, fetchLinearDetails: bool, hasApiKey: bool,
                            urlPath: string -> string, compare: (string, string, string) -> string,
                            fetch: string -> Option<TicketDetails>)
    returns (report: Report)
    ensures var t := TallyOf(services, skipUnchanged, urlPath, compare);
            report.totalServices == |services| && report.services == t.results
            && report.processed == t.processed && report.skipped == t.skipped && report.failed == t.failed
            && report.totalUniqueTickets == |t.tickets|
    ensures var sorted := Sorted(TallyOf(services, skipUnchanged, urlPath, compare).tickets);
            |report.allTickets| == |sorted|
            && forall k :: 0 <= k < |sorted| ==>
                 report.allTickets[k] == TicketEntry(sorted[k], if fetchLinearDetails && hasApiKey then fetch(sorted[k]) else None)
    ensures report.ticketsByProject == Grouped(Sorted(TallyOf(services, skipUnchanged, urlPath, compare).tickets))
    ensures var sorted := Sorted(TallyOf(services, skipUnchanged, urlPath, compare).tickets);
            |report.allTickets| == report.totalUniqueTickets && StrictlySorted(sorted)
            && forall k :: 0 <= k < |sorted| ==> StartsWith(report.allTickets[k], sorted[k])
  {
    var results, processed, skipped, failed, totalTickets := TallyServices(services, skipUnchanged, urlPath, compare);
    ghost var t := TallyOf(services, skipUnchanged, urlPath, compare);
    TallyCounts(services, skipUnchanged, urlPath, compare);
    var allTicketsSet := CollectTickets(results);
    assert allTicketsSet == t.tickets;
    var details, _ := FetchAllTicketDetails(allTicketsSet, fetchLinearDetails && hasApiKey, fetch);
    var sorted := SortedList(allTicketsSet);
    var allTickets := BuildAllTickets(sorted, details);
    forall k | 0 <= k < |sorted|
      ensures Lookup(details, sorted[k]) == if fetchLinearDetails && hasApiKey then fetch(sorted[k]) else None
    {
      assert sorted[k] in details;
    }
    var ticketsByProject := GroupTickets(sorted);
    AllTicketsSorted(allTicketsSet, d => if fetchLinearDetails && hasApiKey then fetch(d) else None);
    report := Report(|services|, processed, skipped, failed, |allTicketsSet|, results, allTickets, ticketsByProject);
  }

  /** The two loops building `tickets_by_project` from the sorted ticket IDs. */
  method GroupTickets(sorted: seq<string>) returns (ticketsByProject: map<string, seq<string>>)
    ensures ticketsByProject.Keys == Grouped(sorted).Keys
    ensures forall p :: p in ticketsByProject ==> ticketsByProject[p] == Sorted(Elements(Grouped(sorted)[p]))
    ensures StrictlySorted(sorted) ==> ticketsByProject == Grouped(sorted)
  {
    var grouped := GroupByPrefix(sorted);
    ticketsByProject := SortGroups(grouped);
    if StrictlySorted(sorted) {
      GroupsAlreadySorted(sorted);
    }
  }

  // ---------------------------------------------------------------------
  // tickets_by_project
  // ---------------------------------------------------------------------

  /** A ticket of `ts` is in its prefix's list. */
  lemma {:induction false} WithPrefixComplete(ts: seq<string>, x: string)
    requires x in ts
    ensures x in WithPrefix(ts, Prefix(x))
    decreases |ts|
  {
    var init := ts[..|ts| - 1];
    if x != ts[|ts| - 1] {
      assert x in init;
      WithPrefixComplete(init, x);
    }
  }

  /** The tickets of a sorted list with one prefix are sorted. */
  lemma {:induction false} WithPrefixSorted(ts: seq<string>, p: string)
    requires StrictlySorted(ts)
    ensures StrictlySorted(WithPrefix(ts, p))
    decreases |ts|
  {
    if ts != [] {
      var init := ts[..|ts| - 1];
      var last := ts[|ts| - 1];
      WithPrefixSorted(init, p);
      var w := WithPrefix(init, p);
      forall k | 0 <= k < |w| ensures Less(w[k], last) {
        var i :| 0 <= i < |init| && init[i] == w[k];
      }
    }
  }

  /** Sorting a list that is already sorted changes nothing. */
  lemma SortedIsIdentity(xs: seq<string>)
    requires StrictlySorted(xs)
    ensures Sorted(Elements(xs)) == xs
  {
    StrictlySortedUnique(Sorted(Elements(xs)), xs);
  }

  /** The groups of a sorted list are sorted already, so re-sorting them leaves the grouping as it was. */
  lemma GroupsAlreadySorted(sorted: seq<string>)
    requires StrictlySorted(sorted)
    ensures forall p :: p in Grouped(sorted) ==> Sorted(Elements(Grouped(sorted)[p])) == Grouped(sorted)[p]
  {
    forall p | p in Grouped(sorted) ensures Sorted(Elements(Grouped(sorted)[p])) == Grouped(sorted)[p] {
      GroupedSpec(sorted, p);
      WithPrefixSorted(sorted, p);
      SortedIsIdentity(Grouped(sorted)[p]);
    }
  }

  /**
   * `tickets_by_project` partitions the unique tickets by prefix: its keys
   * are the prefixes that occur, and each list holds, sorted, exactly the
   * tickets with its prefix.
   */
  lemma TicketsByProjectPartition(tickets: set<string>)
    ensures var g := Grouped(Sorted(tickets));
            g.Keys == ProjectsOf(tickets)
            && forall p :: p in g ==> StrictlySorted(g[p]) && forall x :: x in g[p] <==> x in tickets && Prefix(x) == p
  {
    var sorted := Sorted(tickets);
    var g := Grouped(sorted);
    GroupedKeys(tickets);
    forall p | p in g ensures StrictlySorted(g[p]) && forall x :: x in g[p] <==> x in tickets && Prefix(x) == p {
      GroupedSpec(sorted, p);
      WithPrefixSorted(sorted, p);
      forall x | x in tickets && Prefix(x) == p ensures x in g[p] {
        WithPrefixComplete(sorted, x);
      }
    }
  }

  /** `all_tickets` lists every unique ticket once, in sorted order, each entry starting with its ID. */
  lemma AllTicketsSorted(tickets: set<string>, details: string -> Option<TicketDetails>)
    ensures var sorted := Sorted(tickets);
            |sorted| == |tickets| && StrictlySorted(sorted)
            && forall k :: 0 <= k < |sorted| ==> StartsWith(TicketEntry(sorted[k], details(sorted[k])), sorted[k])
  {
  }
}
