# release-utils in Dafny

A model of the string and map logic of the release-utils scripts. The
scripts compare the service versions deployed in an environment with those
pinned in a repository's `.env` file, and collect the Linear tickets
(`[ABC-123]` keys in commit messages) that went into a release. What is
modelled:

- **Service-name reconciliation** (`service_mapping.dfy`, module
  `ServiceMapping`): the `SERVICE_NAME_MAPPING` table, `map_env_to_deployed`
  and the three loops of `create_unified_comparison`.
- **Version comparison** (`compare_versions.dfy`, `env_patterns.dfy`, modules
  `CompareVersions` and `EnvPatterns`): the first-match-wins `.env` line
  parser with its five regular expressions written out as matchers, the
  flattening of a decoded `version.json` object, and the four-bucket
  classification with `has_differences`.
- **Ticket extraction and reports** (`tickets.dfy`, module `LinearTickets`):
  the ticket pattern `\[([A-Z]{2,6}-\d{1,6})\]` and `findall`,
  `extract_tickets_from_text`, `fetch_all_ticket_details` with the Linear
  lookup as a function parameter, and the lines `save_tickets_to_file`
  writes, prefix grouping and per-project counts included.
- **Batch processing of services** (`process_all_repos.dfy`, module
  `ProcessAllRepos`): `extract_repo_path`, `should_process_service`, the
  status logic of `process_service` and the loop of `process_all_services`
  with its counters, ticket union, `all_tickets` and `tickets_by_project`.
- **Single-repository requests** (`single_repo.dfy`, module `SingleRepo`):
  `parse_repo_input`, the text rules of `_extract_ticket_count`, the default
  output file name, the class `SingleRepoTicketProcessor` with its two
  lists `results` and `failed_requests`, `process_from_file` and the lines
  of `save_summary_report`.
- **Input generation** (`generate_input.dfy`, module `GenerateInput`): the
  strict `KEY=VALUE` parser `parse_env_file`, `SERVICE_VERSION_MAP` and
  `generate_input_json`.
- **File-change formatting** (`compare_tags.dfy`, module `CompareTags`):
  `format_file_changes` with its ten-line preview rule, the result dict of
  `compare_tags` and the statistics of `print_file_changes`.

Python builtins the scripts lean on are defined once in `text.dfy`
(`strip`, `split`, `lower`, `str`/`int` on numbers), `dicts.dfy` (a dict
built by a sequence of assignments), `ordering.dfy` (string order and
`sorted` on a set), `json.dfy` (decoded JSON values, `obj[key]` and
`obj.get`) and `wrappers.dfy` (`Option`).

Every loop of the scripts is a method with loop invariants, proved against
a function of its inputs; the properties the scripts promise are proved as
lemmas about those functions. Subprocess output, HTTP lookups, the clock
and file contents are parameters.

The comment beside the ticket pattern in
`tags-diff/fetchTicketChangesInBuildsForRepo.py` speaks of 2–4 letters; the
compiled pattern allows 2–6, and the model follows the pattern
(`LinearTickets.SixLettersAccepted`, `LinearTickets.SevenLettersRejected`).

## Model

| member | source | states |
|---|---|---|
| ServiceMapping.NoEmptyTarget | service_mapping.py:16-43 | no table entry maps to the empty string, so the `or lower(name)` fallback of `map_env_to_deployed` never fires |
| ServiceMapping.MapEnvToDeployed | service_mapping.py:65-68 | the lookup gives None exactly when the lowered name is not in the table or is listed with None |
| ServiceMapping.MapEnvToDeployedIsTableLookup | service_mapping.py:65-68 | the result is None exactly when the lowered name is missing from the table or listed with None; otherwise it is the listed, non-empty deployed name |
| ServiceMapping.MapEnvToDeployedIgnoresCase | service_mapping.py:65 | the lookup gives the same answer for a name and its lower-cased form |
| ServiceMapping.PyGet | service_mapping.py:115 | `deployed_versions.get(name)` is None for a missing key and for a JSON null, the stored value otherwise |
| ServiceMapping.EnvServiceRecords | service_mapping.py:103-121 | the first loop writes one record per `.env` key |
| ServiceMapping.MappedDeployedServices | service_mapping.py:124-128 | the second loop collects the truthy deployed names of all `.env` keys |
| ServiceMapping.AddDeployedOnlyRecords | service_mapping.py:130-137 | the third loop writes a `deployed_only_` record over the dict for each deployed service outside the referenced set |
| ServiceMapping.CreateUnifiedComparison | service_mapping.py:81-139 | the three loops in order build the unified dict |
| ServiceMapping.ReferencedNamesSpec | service_mapping.py:124-128 | a name is referenced exactly when some `.env` key maps to it, whether or not it is deployed |
| ServiceMapping.UnifiedKeys | service_mapping.py:100-139 | the unified keys are the `.env` keys and the `deployed_only_` keys of unreferenced deployed services, and nothing else |
| ServiceMapping.UnifiedEnvEntry | service_mapping.py:103-121 | an `.env` key (unless it spells the `deployed_only_` key of a deployed-only service, which the third loop overwrites) keeps its version and name; its deployed name is the mapped name, and its deployed version is None when there is no mapping, the looked-up version otherwise |
| ServiceMapping.UnifiedDeployedOnlyEntry | service_mapping.py:130-137 | each unreferenced deployed service has exactly the record `deployed_only_<name>` with both `.env` fields None |
| ServiceMapping.UnifiedReferencedHasNoDeployedOnly | service_mapping.py:130-137 | a referenced deployed service gets no `deployed_only_` record; its key is present only if an `.env` key spells it |
| ServiceMapping.DeployedOnlyRecordsAt | service_mapping.py:130-137 | the deployed-only keys are the prefixed names of deployed services outside the referenced set |
| ServiceMapping.UnifiedWellFormed | service_mapping.py:103-137 | every record has both `.env` fields or neither, with `env_name` equal to its key; it has an `.env` side or a deployed name; without a deployed name it has no deployed version |
| CompareVersions.ParseEnvContent | compare_versions.py:82-117 | `parse_env_content` returns the dict of the line parser over the split content |
| CompareVersions.ParseEnvLines | compare_versions.py:103-115 | the line loop stores, in order, the entry of each line that has one |
| CompareVersions.MatchLine | compare_versions.py:104-115 | one line: skipped when blank or `#`, else the first pattern that matches |
| CompareVersions.SkippedLine | compare_versions.py:104-115 | blank lines, `#` lines and lines no pattern matches yield no entry |
| CompareVersions.MatchedLine | compare_versions.py:108-115 | the entry of a line is that of the first matching pattern; later patterns are not consulted |
| CompareVersions.SkippedLineKeepsDict | compare_versions.py:103-115 | a line without an entry leaves the dict unchanged |
| CompareVersions.MatchedLineStores | compare_versions.py:112-114 | a matched line stores its version under its service, replacing the earlier value |
| CompareVersions.ParsedEnvShape | compare_versions.py:96-113 | every stored key is lower-case; every stored value is non-empty and holds neither whitespace nor a quote |
| CompareVersions.LastEntryWins | compare_versions.py:114 | the value stored for a service is that of the last entry naming it |
| CompareVersions.LastLineWins | compare_versions.py:103-115 | a line's entry is what the parsed dict holds, when no later line stores the same service |
| CompareVersions.ParseVersionJson | compare_versions.py:120-154 | undecodable content gives exactly `{"content": stripped text}`, a decoded non-object gives `{}`, an object gives the flattening of the dict `json.loads` builds from it |
| CompareVersions.FlattenObject | compare_versions.py:135-147 | the loop over `data.items()` performs each item's writes in order |
| CompareVersions.AddSubVersions | compare_versions.py:144-147 | the inner loop over `value.items()` adds `key_subkey` entries for string items whose lowered name contains `version` |
| CompareVersions.FlattenedEntry | compare_versions.py:131-147 | every entry was stored by a key of the decoded object, read with its last value: a string as-is, an object's `version` field, or a `version`-named string field (again with its last value) of an object without one |
| CompareVersions.FlattenedCovers | compare_versions.py:131-147 | every key that a key of the decoded object, read with its last value, can store is in the result |
| CompareVersions.RepeatedKeyLastValue | compare_versions.py:131-147 | `{"svc": {"version": "1"}, "svc": 5}` gives `{}`: a repeated key counts once, with its last value |
| CompareVersions.ProducedKeyIsLower | compare_versions.py:139-147 | every key a member stores is lower-case |
| CompareVersions.VersionJsonKeysLower | compare_versions.py:130-154 | every key of the parsed `version.json` dict is lower-case, the `content` fallback included |
| CompareVersions.CompareVersions | compare_versions.py:157-200 | the buckets are those of the unified dict, and `has_differences` is computed from them |
| CompareVersions.ClassifyAll | compare_versions.py:178-189 | the loop puts each record into the bucket its classification names |
| CompareVersions.ClassifiedPartition | compare_versions.py:178-189 | a key is in a bucket exactly when it is unified and classified into that bucket, with its record unchanged; so each record is in exactly one bucket |
| CompareVersions.HasDifferencesSpec | compare_versions.py:198 | `has_differences` holds exactly when some record is not a match |
| CompareVersions.EnvServiceBucket | compare_versions.py:178-189 | an `.env` service matches exactly when its mapped deployed version is the same string; it is `.env`-only exactly when it has no mapping or no deployed version; it is never deployed-only |
| CompareVersions.DeployedOnlyBucketKeys | compare_versions.py:182-183 | the deployed-only bucket holds exactly the `deployed_only_` keys of unreferenced deployed services |
| CompareVersions.NoEnvVersionKeys | service_mapping.py:108-137 | the unified records without an `.env` version are exactly the deployed-only ones |
| EnvPatterns.MatchPattern | compare_versions.py:109-113 | a match yields a lower-case service name and a non-empty version free of whitespace and quotes |
| EnvPatterns.MatchPatternSpec | compare_versions.py:95-101 | the matcher agrees with a literal reading of each pattern, in both directions |
| EnvPatterns.MatchPatternSound | compare_versions.py:95-101 | whatever the matcher returns is a literal reading of the line |
| EnvPatterns.MatchPatternComplete | compare_versions.py:95-101 | the matcher finds every literal reading of the line |
| EnvPatterns.ValueMatchSpec | compare_versions.py:96-100 | the assignment part (`\s*=\s*["']?([^\s"']+)["']?` and its `[^:]+:` variant) is matched exactly when it reads literally, with the greedy capture |
| EnvPatterns.PlainCaptureComplete | compare_versions.py:96 | spaces, an optional quote and a maximal run of value characters give that run |
| EnvPatterns.ColonCaptureComplete | compare_versions.py:99 | non-empty colon-free text, a colon and a maximal value run give that run |
| EnvPatterns.ValueMatchStartsOutsideWord | compare_versions.py:96-100 | the assignment part never starts at a word character, so group 1 spans the whole leading run of word characters |
| EnvPatterns.GroupOfSound | compare_versions.py:96-100 | the computed group 1 is a literal reading of the name text |
| EnvPatterns.GroupOfComplete | compare_versions.py:96-100 | every literal reading of the name text is found |
| EnvPatterns.SpecialNamesAreWords | compare_versions.py:100 | the five special service names are non-empty words |
| EnvPatterns.VersionPatternsHaveWordLiterals | compare_versions.py:95-101 | every literal of the five patterns is made of word characters |
| EnvPatterns.StripValue | compare_versions.py:113 | `.strip()` leaves a captured value unchanged |
| EnvPatterns.FirstMatchSpec | compare_versions.py:108-115 | no entry exactly when no pattern matches; otherwise the entry of a matching pattern that no earlier pattern precedes |
| LinearTickets.KeyAfterBracketSound | tags-diff/fetchTicketChangesInBuildsForRepo.py:29 | what follows a `[` matches only as a ticket key followed by `]` |
| LinearTickets.KeyAfterBracketComplete | tags-diff/fetchTicketChangesInBuildsForRepo.py:29 | every ticket key followed by `]` is matched |
| LinearTickets.TicketAtSound | tags-diff/fetchTicketChangesInBuildsForRepo.py:29 | a match at a position is a ticket key bracketed at that position |
| LinearTickets.TicketAtComplete | tags-diff/fetchTicketChangesInBuildsForRepo.py:29 | every bracketed ticket key is matched where its `[` stands |
| LinearTickets.NoTicketInside | tags-diff/fetchTicketChangesInBuildsForRepo.py:29 | no match starts inside the span of another |
| LinearTickets.KeyHasNoBrackets | tags-diff/fetchTicketChangesInBuildsForRepo.py:29 | a ticket key contains neither bracket |
| LinearTickets.ScanSpec | tags-diff/fetchTicketChangesInBuildsForRepo.py:103 | resuming the scan after each match finds every match from the start position on, and nothing else |
| LinearTickets.FindAllSpec | tags-diff/fetchTicketChangesInBuildsForRepo.py:103 | `findall` returns exactly the keys matched at some position |
| LinearTickets.ScanKeys | tags-diff/fetchTicketChangesInBuildsForRepo.py:103 | the scan returns ticket keys only |
| LinearTickets.ExtractTicketsFromText | tags-diff/fetchTicketChangesInBuildsForRepo.py:92-106 | the loop adds every `findall` result to the set and nothing else |
| LinearTickets.ExtractedSpec | tags-diff/fetchTicketChangesInBuildsForRepo.py:102-106 | a string is extracted exactly when it is a ticket key occurring between `[` and `]`; duplicates collapse and text without one gives the empty set |
| LinearTickets.ExtractedAreKeys | tags-diff/fetchTicketChangesInBuildsForRepo.py:29 | every extracted ticket is 2–6 capitals, a hyphen and 1–6 digits, without brackets |
| LinearTickets.BareKeyIgnored | tags-diff/fetchTicketChangesInBuildsForRepo.py:29 | an unbracketed `AB-123` is not extracted |
| LinearTickets.BracketedKeyExtracted | tags-diff/fetchTicketChangesInBuildsForRepo.py:29 | `[AB-123]` is extracted as `AB-123` |
| LinearTickets.SixLettersAccepted | tags-diff/fetchTicketChangesInBuildsForRepo.py:29 | a key of six letters is matched |
| LinearTickets.SevenLettersRejected | tags-diff/fetchTicketChangesInBuildsForRepo.py:29 | a key of seven letters is not |
| LinearTickets.LongLetterRunRejected | tags-diff/fetchTicketChangesInBuildsForRepo.py:29 | no match follows a `[` when more than six capitals come next |
| LinearTickets.FetchAllTicketDetails | tags-diff/fetchTicketChangesInBuildsForRepo.py:218-252 | the keys are exactly the tickets; without an API key all values are None and nothing is fetched; with one each value is the lookup's and the lookups go in sorted order |
| LinearTickets.FetchEach | tags-diff/fetchTicketChangesInBuildsForRepo.py:240-245 | the loop stores the lookup of every ticket it visits, and no other key |
| LinearTickets.LookedUpOnce | tags-diff/fetchTicketChangesInBuildsForRepo.py:240 | the sorted order holds no ticket twice, so each is looked up once |
| LinearTickets.TicketLines | tags-diff/fetchTicketChangesInBuildsForRepo.py:291-300 | a ticket's block is a blank line and a line starting with its ID, and nothing more exactly when no lookup was made; "(Details not available)" follows exactly when a lookup was made and gave nothing for it |
| LinearTickets.TicketBlockAt | tags-diff/fetchTicketChangesInBuildsForRepo.py:291-300 | the blocks appear in the order of the sorted tickets |
| LinearTickets.Prefix | tags-diff/fetchTicketChangesInBuildsForRepo.py:309 | the project prefix starts the ticket and holds no `-` |
| LinearTickets.WithPrefix | tags-diff/fetchTicketChangesInBuildsForRepo.py:307-312 | a project's list holds tickets of that prefix only |
| LinearTickets.GroupedSpec | tags-diff/fetchTicketChangesInBuildsForRepo.py:307-312 | the groups are exactly the prefixes that occur, each with its tickets in order |
| LinearTickets.GroupByPrefix | tags-diff/fetchTicketChangesInBuildsForRepo.py:307-312 | the grouping loop builds that dict |
| LinearTickets.ProjectCountsSum | tags-diff/fetchTicketChangesInBuildsForRepo.py:314-316 | the per-project counts, over the sorted prefixes, add up to the number of tickets |
| LinearTickets.CountsCover | tags-diff/fetchTicketChangesInBuildsForRepo.py:314-316 | distinct prefixes covering every ticket count each ticket once |
| LinearTickets.ProjectLineAt | tags-diff/fetchTicketChangesInBuildsForRepo.py:315-316 | line `k` of the project list names the `k`-th prefix and its count |
| LinearTickets.SummaryHead | tags-diff/fetchTicketChangesInBuildsForRepo.py:302-314 | the summary shows the total and the comma-joined project list |
| LinearTickets.SaveTicketsToFile | tags-diff/fetchTicketChangesInBuildsForRepo.py:254-321 | the method writes the report lines |
| LinearTickets.WriteBody | tags-diff/fetchTicketChangesInBuildsForRepo.py:283-316 | the writes after the header are the report body |
| LinearTickets.WriteTickets | tags-diff/fetchTicketChangesInBuildsForRepo.py:291-300 | the loop writes one block per ticket, in sorted order |
| LinearTickets.WriteSummary | tags-diff/fetchTicketChangesInBuildsForRepo.py:302-316 | the summary writes: the head, then one line per prefix |
| LinearTickets.CountLineIsNotNoTickets | tags-diff/fetchTicketChangesInBuildsForRepo.py:283-286 | the count line differs from the "none found" line |
| LinearTickets.BodyOpening | tags-diff/fetchTicketChangesInBuildsForRepo.py:283-289 | without tickets the body is the "none found" line; otherwise it opens with the count |
| LinearTickets.ReportOpening | tags-diff/fetchTicketChangesInBuildsForRepo.py:276-289 | the header comes first; the "none found" line appears exactly when there are no tickets, and the count otherwise is the set size |
| LinearTickets.GroupedKeys | tags-diff/fetchTicketChangesInBuildsForRepo.py:307-314 | the projects are the prefixes of the tickets |
| LinearTickets.SummaryAtEnd | tags-diff/fetchTicketChangesInBuildsForRepo.py:302-316 | the report ends with the total, the project list and one count line per project |
| LinearTickets.ReportSummary | tags-diff/fetchTicketChangesInBuildsForRepo.py:302-316 | with tickets, "Total unique tickets" is the set size and each project line gives the number of tickets with that prefix |
| LinearTickets.ProjectsAreTicketPrefixes | tags-diff/fetchTicketChangesInBuildsForRepo.py:314 | the projects are listed as the sorted prefixes of the tickets |
| LinearTickets.GroupSizes | tags-diff/fetchTicketChangesInBuildsForRepo.py:315-316 | each group's size is the number of tickets with its prefix |
| LinearTickets.SummaryShown | tags-diff/fetchTicketChangesInBuildsForRepo.py:302-316 | a summary of groups of the right sizes shows those counts |
| ProcessAllRepos.ExtractRepoPath | tags-diff/process_all_repos.py:60-66 | the result is a prefix of the `/`-stripped path, at most four characters shorter, not starting with `/` |
| ProcessAllRepos.RepoPathSpec | tags-diff/process_all_repos.py:62-65 | exactly one trailing `.git` is removed, and nothing when there is none |
| ProcessAllRepos.Field | tags-diff/process_all_repos.py:266-270 | `service.get(key, default)` |
| ProcessAllRepos.ShouldProcessService | tags-diff/process_all_repos.py:243-254 | a service is processed only when some tag is non-empty and not both `skip_unchanged` and equal tags hold; `ShouldProcessSpec` gives the converse |
| ProcessAllRepos.ShouldProcessSpec | tags-diff/process_all_repos.py:243-254 | false when both tags are empty, false when skipping unchanged and the tags agree, true otherwise |
| ProcessAllRepos.ProcessService | tags-diff/process_all_repos.py:256-349 | the method returns the result of the branches of `process_service` |
| ProcessAllRepos.OutcomeStatus | tags-diff/process_all_repos.py:266-349 | None exactly for an empty repository path; `new_service`, `no_new_version` and `error` exactly under their conditions; non-successes carry no tickets; only errors carry an error |
| ProcessAllRepos.ClassifyStatus | tags-diff/process_all_repos.py:281-349 | the same, once the path and the tags are read |
| ProcessAllRepos.SuccessTickets | tags-diff/process_all_repos.py:330-348 | on success the tickets are sorted, distinct ticket keys, exactly those extracted from the compare output, and `ticket_count` is their number |
| ProcessAllRepos.ClassifiedSuccess | tags-diff/process_all_repos.py:330-347 | a success carries the sorted extracted tickets and their number |
| ProcessAllRepos.TallyServices | tags-diff/process_all_repos.py:365-389 | the service loop ends in the state of the loop's specification function |
| ProcessAllRepos.StepService | tags-diff/process_all_repos.py:372-389 | one iteration of the loop |
| ProcessAllRepos.RecordOutcome | tags-diff/process_all_repos.py:375-389 | the counter and list updates of one iteration |
| ProcessAllRepos.StepCounted | tags-diff/process_all_repos.py:372-389 | one iteration keeps the counters consistent with the services seen |
| ProcessAllRepos.TallyCounts | tags-diff/process_all_repos.py:365-389 | `skipped` counts the rejected services, `processed` the successes, `failed` the errors plus the dropped services; skipped + results + dropped = total; the ticket set is the union of the successes' tickets |
| ProcessAllRepos.TallyResultsAreKept | tags-diff/process_all_repos.py:380-382 | `results` holds, in input order, the result of every processed service that was not dropped |
| ProcessAllRepos.CollectTickets | tags-diff/process_all_repos.py:415-419 | `all_tickets_set` is the union of the successes' tickets |
| ProcessAllRepos.TicketEntry | tags-diff/process_all_repos.py:427-433 | an entry starts with its ID; it is `ID: title` when details carry a title, the bare ID otherwise |
| ProcessAllRepos.BuildAllTickets | tags-diff/process_all_repos.py:425-433 | one entry per sorted ticket, in that order |
| ProcessAllRepos.SortGroups | tags-diff/process_all_repos.py:443-444 | re-sorting keeps the keys and sorts each list |
| ProcessAllRepos.GroupTickets | tags-diff/process_all_repos.py:436-444 | the two loops build the prefix groups, each sorted; for sorted input they are the grouping itself |
| ProcessAllRepos.GroupsAlreadySorted | tags-diff/process_all_repos.py:443-444 | groups of a sorted list are already sorted, so re-sorting changes nothing |
| ProcessAllRepos.ProcessAllServices | tags-diff/process_all_repos.py:351-459 | the report carries the loop's counters and results, `total_unique_tickets` is the ticket-set size, `all_tickets` has one entry per sorted ticket, that many entries, each starting with its ID in strictly increasing ID order, and `tickets_by_project` is the grouping of the sorted tickets |
| ProcessAllRepos.TicketsByProjectPartition | tags-diff/process_all_repos.py:436-444 | `tickets_by_project` partitions the unique tickets by prefix: its keys are the prefixes that occur, and each list is sorted and holds exactly the tickets with its prefix |
| ProcessAllRepos.AllTicketsSorted | tags-diff/process_all_repos.py:425-433 | `all_tickets` lists every unique ticket once, sorted, so its length is `total_unique_tickets` |
| SingleRepo.ParseRepoInput | tags-diff/single_repo_ticket_processor.py:31-58 | a blank line gives None; the parts returned are trimmed |
| SingleRepo.ParseRepoInputSpec | tags-diff/single_repo_ticket_processor.py:41-58 | for every line: three `:`-parts of the stripped line give those parts stripped; otherwise three words give those words; any other line, blank included, gives None; so a result always comes from one of the two forms |
| SingleRepo.ParseColonForm | tags-diff/single_repo_ticket_processor.py:46-50 | a stripped line splitting into three parts at `:` gives those parts, each stripped |
| SingleRepo.ParseSpaceForm | tags-diff/single_repo_ticket_processor.py:53-56 | when the colon form does not apply, a stripped line of three words gives those words |
| SingleRepo.ColonFormRoundTrip | tags-diff/single_repo_ticket_processor.py:41-50 | three trimmed colon-free fields joined by `:` are read back |
| SingleRepo.SpaceFormRoundTrip | tags-diff/single_repo_ticket_processor.py:53-56 | three words joined by spaces are read back when the colon form does not apply |
| SingleRepo.ColonFormFirst | tags-diff/single_repo_ticket_processor.py:45-50 | an illustration on `a b:c d:e`: the colon form is tried first, whitespace inside its parts included |
| SingleRepo.ColonFallsBackToWords | tags-diff/single_repo_ticket_processor.py:46-56 | a colon line that does not split into three parts falls back to the whitespace form |
| SingleRepo.SearchFromSpec | tags-diff/single_repo_ticket_processor.py:125 | `re.search` finds a match exactly when there is one, and then the leftmost |
| SingleRepo.SearchFindsFirst | tags-diff/single_repo_ticket_processor.py:125 | the search returns the match at the first position where the pattern matches |
| SingleRepo.DistinctTickets | tags-diff/single_repo_ticket_processor.py:130-132 | the count is the number of distinct extracted tickets |
| SingleRepo.ExtractTicketCount | tags-diff/single_repo_ticket_processor.py:118-146 | without a count line, the count is the number of distinct bracketed tickets of the file, or of the console output when there is no file; `TicketCountPrecedence` covers the count-line cases |
| SingleRepo.TicketCountPrecedence | tags-diff/single_repo_ticket_processor.py:118-146 | in the file a "Total tickets found" number takes precedence over counting tickets; on the console an "Extracted N Linear tickets" number does |
| SingleRepo.TotalAtLine | tags-diff/single_repo_ticket_processor.py:125-127 | `Total tickets found: N` followed by a non-digit reads as N |
| SingleRepo.TotalLineReadBack | tags-diff/single_repo_ticket_processor.py:118-127 | a file whose first count line says N gives N, whatever the console says |
| SingleRepo.ExtractedAtLine | tags-diff/single_repo_ticket_processor.py:139-141 | `Extracted N Linear tickets` reads as N |
| SingleRepo.ExtractedLineReadBack | tags-diff/single_repo_ticket_processor.py:137-141 | without a file, the console's first "Extracted N" line gives N |
| SingleRepo.CallFetchTicketsScript | tags-diff/single_repo_ticket_processor.py:89-105 | success exactly on exit code 0; a failure carries no tickets and, on a non-zero exit, the error stream; a success carries the output and the extracted count |
| SingleRepo.SafeRepoName | tags-diff/single_repo_ticket_processor.py:167 | the safe name keeps the length and holds no `/` or `:` |
| SingleRepo.DefaultOutputFile | tags-diff/single_repo_ticket_processor.py:166-168 | the default name starts with `tickets_`, ends with `.txt` and is 17 characters longer than the repository and the two tags together |
| SingleRepo.DefaultOutputFileSpec | tags-diff/single_repo_ticket_processor.py:166-168 | the default name starts with `tickets_` and ends with `.txt`, holds the safe repository name right after the prefix, and has no `/` when the tags have none |
| SingleRepo.OutputFileFor | tags-diff/single_repo_ticket_processor.py:166-168 | a given non-empty output file is used; otherwise the default, never empty |
| SingleRepo.RequestOutcome | tags-diff/single_repo_ticket_processor.py:163-189 | the result copies the request and timestamp; only a failure carries an error, with no tickets |
| SingleRepo.Successes | tags-diff/single_repo_ticket_processor.py:184-185 | the results appended to `results` are successes |
| SingleRepo.Failures | tags-diff/single_repo_ticket_processor.py:187-188 | the results appended to `failed_requests` are failures |
| SingleRepo.LineRequest | tags-diff/single_repo_ticket_processor.py:219-228 | a line yields a request only as `parse_repo_input` reads it |
| SingleRepo.CommentedOut | tags-diff/single_repo_ticket_processor.py:221-222 | a `#` line yields no request |
| SingleRepo.CollectSpec | tags-diff/single_repo_ticket_processor.py:218-232 | exactly the lines that hold a request give one, numbered from 1, in file order |
| SingleRepo.OutcomesFollowRequests | tags-diff/single_repo_ticket_processor.py:218-234 | one result per request, in file order, with that request's repository, tags and timestamp; failures report no tickets |
| SingleRepo.SkippedLineAddsNothing | tags-diff/single_repo_ticket_processor.py:219-228 | a blank, `#` or unparseable line adds no request and no result |
| SingleRepo.SingleRepoTicketProcessor.constructor | tags-diff/single_repo_ticket_processor.py:26-29 | both lists start empty |
| SingleRepo.SingleRepoTicketProcessor.ProcessSingleRequest | tags-diff/single_repo_ticket_processor.py:148-192 | the result goes to exactly one list, by success, and the other list is unchanged |
| SingleRepo.SingleRepoTicketProcessor.ProcessFromFile | tags-diff/single_repo_ticket_processor.py:194-234 | an unreadable file gives no results; otherwise the results of the file's requests, with the successes appended to `results` and the failures to `failed_requests` |
| SingleRepo.SingleRepoTicketProcessor.ProcessLine | tags-diff/single_repo_ticket_processor.py:219-232 | one iteration adds the line's result, if any, to the right list |
| SingleRepo.SingleRepoTicketProcessor.SaveSummaryReport | tags-diff/single_repo_ticket_processor.py:290-335 | the lines written are the summary report of the two lists, and each failed request's own error appears, so the `Unknown error` fallback is never written |
| SingleRepo.WriteSuccessBlocks | tags-diff/single_repo_ticket_processor.py:318-321 | the loop writes the block of every successful request, in order |
| SingleRepo.WriteFailureBlocks | tags-diff/single_repo_ticket_processor.py:327-330 | the loop writes the block of every failed request, in order |
| SingleRepo.FailureErrorLines | tags-diff/single_repo_ticket_processor.py:327-330 | the second line of each failure's block shows that failure's error |
| SingleRepo.SummaryShowsErrors | tags-diff/single_repo_ticket_processor.py:322-330 | when every failure has an error, the summary report shows each failure's own error line |
| SingleRepo.SuccessesAndFailures | tags-diff/single_repo_ticket_processor.py:309 | every result is a success or a failure |
| SingleRepo.SuccessesHoldAllTickets | tags-diff/single_repo_ticket_processor.py:312 | failures carry no tickets, so the successes hold all of them |
| SingleRepo.SummaryTotals | tags-diff/single_repo_ticket_processor.py:309-312 | total requests is successes plus failures, and total tickets is the sum over the successes, which is the sum over all results |
| SingleRepo.BatchSummary | tags-diff/single_repo_ticket_processor.py:309-312 | after one file on a fresh processor the totals are the number of results and their ticket sum |
| GenerateInput.MatchAssignment | tags-diff/generate_input_json.py:161-163 | a match yields a well-formed upper-case key and a non-empty value |
| GenerateInput.CleanValue | tags-diff/generate_input_json.py:165 | the cleaned value neither starts nor ends with `'` |
| GenerateInput.LineWrite | tags-diff/generate_input_json.py:155-166 | a line performs at most one assignment, of a well-formed key |
| GenerateInput.ParseEnvFile | tags-diff/generate_input_json.py:153-168 | the loop builds the dict of the lines' assignments, in order |
| GenerateInput.SkippedLines | tags-diff/generate_input_json.py:155-162 | blank lines, `#` lines and lines whose key does not start upper-case add nothing |
| GenerateInput.MatchAssignmentOf | tags-diff/generate_input_json.py:161 | `KEY=VALUE` is split at the `=` |
| GenerateInput.CleanValueKeeps | tags-diff/generate_input_json.py:165 | a value without whitespace or quotes at its ends is kept as it is |
| GenerateInput.AssignmentReadBack | tags-diff/generate_input_json.py:161-166 | `KEY=VALUE` with a clean value is read back as that key and value |
| GenerateInput.FileWritesEntry | tags-diff/generate_input_json.py:166 | every entry comes from the last line assigning its key |
| GenerateInput.FileWritesLastWins | tags-diff/generate_input_json.py:166 | a later duplicate key overwrites an earlier one |
| GenerateInput.EnvFileKeys | tags-diff/generate_input_json.py:161 | every key matches `[A-Z_][A-Z0-9_]*` |
| GenerateInput.CurrentTag | tags-diff/generate_input_json.py:192 | the current tag defaults to `v1.0.0` |
| GenerateInput.NewTag | tags-diff/generate_input_json.py:194 | the new tag defaults to the empty string |
| GenerateInput.GenerateInputJson | tags-diff/generate_input_json.py:171-206 | the records produced for `SERVICE_VERSION_MAP` |
| GenerateInput.GenerateFrom | tags-diff/generate_input_json.py:184-206 | the loop over a table |
| GenerateInput.GeneratedFollowsTable | tags-diff/generate_input_json.py:186-204 | the records are those of the included table entries, one each, in table order |
| GenerateInput.EntryDefaults | tags-diff/generate_input_json.py:186-197 | a record copies its table row with both tag defaults; an entry is left out only when the deployed map holds a falsy value and the `.env` has no non-empty tag |
| GenerateInput.AllIncluded | tags-diff/generate_input_json.py:186-204 | when every entry is included there is one record per table entry |
| GenerateInput.AllListedWithoutDeployedVersions | tags-diff/generate_input_json.py:186-204 | with no deployed versions every service is listed with the default current tag |
| CompareTags.Count | tags-diff/compare_tags.py:149-151 | a missing count is 0 |
| CompareTags.StatusIcon | tags-diff/compare_tags.py:154-159 | added and removed have their icons; every other status gets the "modified" icon |
| CompareTags.Indent | tags-diff/compare_tags.py:172-173 | each patch line behind four spaces |
| CompareTags.FormatFileChanges | tags-diff/compare_tags.py:144-178 | the text is the newline-joined lines of the files' blocks |
| CompareTags.AppendFileBlock | tags-diff/compare_tags.py:146-176 | one iteration appends the file's block |
| CompareTags.AppendPreview | tags-diff/compare_tags.py:169-176 | the preview part appends the preview lines |
| CompareTags.OneStatusLinePerFile | tags-diff/compare_tags.py:146-166 | exactly one status line per file, in input order |
| CompareTags.FileBlockStatusLine | tags-diff/compare_tags.py:161-176 | a file's block holds exactly one status line, its own |
| CompareTags.StatusLineShape | tags-diff/compare_tags.py:161 | a status line is two spaces, the one-character icon and the description |
| CompareTags.CountStatus | tags-diff/compare_tags.py:278-280 | a status count never exceeds the number of files |
| CompareTags.PreviewHasNoStatusLine | tags-diff/compare_tags.py:169-176 | no preview line looks like a status line |
| CompareTags.CountSuffixIffChanges | tags-diff/compare_tags.py:149-164 | the `[+a/-d]` suffix appears exactly when `changes > 0`; missing changes give none |
| CompareTags.PreviewShape | tags-diff/compare_tags.py:169-176 | a preview appears only with `show_details` and a non-empty patch; it shows at most the first ten patch lines, and "... (truncated)" appears exactly when there are more |
| CompareTags.CompareTagsResult | tags-diff/compare_tags.py:207-223 | the error dict exactly when there is no comparison or it is an empty object; otherwise the repository and tags, and for each of `status`, `ahead_by`, `behind_by`, `total_commits`, `commits` and `files` the given value when present and `unknown`, 0, 0, 0, `[]`, `[]` when missing |
| CompareTags.StatusCountsBounded | tags-diff/compare_tags.py:278-280 | added + modified + deleted ≤ number of files |
| CompareTags.StatsAppend | tags-diff/compare_tags.py:275-280 | every statistic of a split list is the sum over its halves |
| CompareTags.StatsSingle | tags-diff/compare_tags.py:275-280 | one file contributes its own counts and a 1 for its status |
| Ordering.Sorted | tags-diff/process_all_repos.py:426 | `sorted` of a set is strictly increasing and holds exactly the set's elements |
| Ordering.SortedList | tags-diff/process_all_repos.py:426 | the loop computing `sorted()` of a set returns `Ordering.Sorted` of it: strictly increasing, holding exactly the set |
| Ordering.StrictlySortedUnique | tags-diff/process_all_repos.py:426 | two sorted lists with the same elements are equal |
| Text.Strip | tags-diff/single_repo_ticket_processor.py:41 | the stripped string has no whitespace at its ends; it is empty exactly when the input is all whitespace |
| Text.Split | tags-diff/single_repo_ticket_processor.py:47 | at least one part, none holding the separator |
| Text.JoinSplit | tags-diff/single_repo_ticket_processor.py:47 | joining the parts with the separator gives the string back |
| Text.SplitWhitespace | tags-diff/single_repo_ticket_processor.py:53 | every part is a non-empty run of non-whitespace |
| Text.DigitsValueOfNatToString | tags-diff/single_repo_ticket_processor.py:127 | `int()` reads back what `str()` wrote |
| Dicts.AssignLastWrite | compare_versions.py:114 | the value stored under a key is that of the last write to it |
| Dicts.AssignEntry | compare_versions.py:114 | every entry comes from a write no later write overrides |
| Json.GetOr | tags-diff/compare_tags.py:215-220 | `obj.get(key, default)` |
| Json.Items | compare_versions.py:131-136 | the dict `json.loads` builds has the object's keys, each once |
| Json.ItemsValues | compare_versions.py:131-136 | each key of that dict holds the value of the object's last member with that key |
| Json.ItemsOfRepeatedKey | compare_versions.py:131-136 | two members with one key give a dict with one item holding the second value |

## Left out

- Network calls: `fetch_ticket_details`, `get_tag_info`, `get_comparison`, `fetch_url_content`, `fetch_version_content` and `GitHubEnvFetcher` are not modelled. Lookups are function parameters, such as the ticket lookup `fetch`, and a comparison is an already-decoded value.
- Subprocesses: `call_compare_tags` is the parameter `compare`, which is "" when the child fails, times out or is missing. `call_fetch_tickets_script` is modelled on a given `ScriptRun`, the exit code and streams the child produced. The command line is built by `SingleRepo.Command`, but nothing runs it.
- Files and the clock are not modelled. File contents are given as text or lines, with None for an unreadable file. Files written are returned as lists of lines. Timestamps are parameters. Because `save_tickets_to_file` and `save_summary_report` do no I/O here, their `False` return on a write error is not modelled.
- JSON and URLs: decoding JSON text and `urlparse` are not modelled. A decoded value is a `JsonValue`, with None when decoding fails. The path `urlparse` extracts is a parameter.
- JSON numbers are integers only; floats are not modelled.
- Printing, argument parsing, `main`, `process_interactive`, `select_environment_interactively` and credential loading from the environment are not modelled. The presence of `LINEAR_API_KEY` is the boolean `hasApiKey`.
- `format_commit_info` is not modelled, because it reformats dates through `datetime.fromisoformat`. `print_comparison_summary` and `print_commits` are not modelled either.
- User-supplied patterns: the script compiles a ticket pattern given at run time; only the built-in pattern is modelled, since modelling any other would need a general regular-expression engine.
- Character classes: `\w`, `\d`, `[A-Z]`, `re.IGNORECASE` and `lower()` are modelled on ASCII only. Unicode letters and digits that Python also accepts are not covered. `str.isspace()` covers the Latin-1 and common Unicode space characters.
- Dict order: dicts are maps, so the iteration order of `unified`, `projects` and the comparison buckets is not modelled. Where the order is visible, the model sorts as the source does (the sorted ticket list, the sorted prefixes) or keeps the table order (`SERVICE_VERSION_MAP` is a sequence).
- Duplicate table entry: `stackgen_notifications` appears twice in `SERVICE_NAME_MAPPING` with the same value, and the table holds it once.
- Lost tickets: in `process_all_services`, the first `projects` dict is printed and never returned, so only the `tickets_by_project` that is returned is modelled.
- Context scripts: `tags-diff/test_linear_api.py`, `tags-diff/fetch_version_json.py`, `fetch_version.py`, `tags-diff/diff_tags.py` and `fetch_git_logs.py` are not part of this model; they only fetch and print.
- `save_summary_report` without an output file names it after the clock; the model returns the lines and leaves the file name out.
- ProcessAllRepos.ExtractRepoPath: the exception branch that returns None for an unparseable URL is not modelled, because the URL path is a parameter.
- ProcessAllRepos.Field: the fields of an `input.json` record are taken to be strings. `generate_input_json.py` can write another JSON value as `current_tag`, such as a number from `version.json` or null. The source treats a null tag as empty in `should_process_service` and `process_service` but records `None` as the tag. A truthy non-string tag reaches the argument list of `call_compare_tags`, whose call then fails inside its catch-all handler and returns "", so the service gets the `error` status. The model cannot represent such records.
