/**
 * `tags-diff/generate_input_json.py`: the strict `KEY=VALUE` `.env` parser
 * and the join of `SERVICE_VERSION_MAP` with the deployed and the new
 * versions into the records of `input.json`.
 */
module GenerateInput {
  import opened Wrappers
  import opened Text
  import opened Json
  import opened Dicts

  // ---------------------------------------------------------------------
  // parse_env_file
  // ---------------------------------------------------------------------

  /** `[A-Z_]`, the first character of a key. */
  predicate IsKeyStart(c: char) { IsUpper(c) || c == '_' }

  /** `[A-Z0-9_]`, the other characters of a key. */
  predicate IsKeyChar(c: char) { IsUpper(c) || IsDigit(c) || c == '_' }

  /** A string matching `[A-Z_][A-Z0-9_]*` (case-sensitively). */
  predicate IsEnvKey(k: string) {
    k != [] && IsKeyStart(k[0]) && forall i :: 0 <= i < |k| ==> IsKeyChar(k[i])
  }

  /**
   * The two groups of `^([A-Z_][A-Z0-9_]*)\s*=\s*(.+)$` on a line without a
   * newline. The key run is maximal, since `\s` and `=` are not key
   * characters; `\s*` after `=` takes all the spaces unless only spaces
   * follow, in which case it gives the last one back to `(.+)`.
   */
  function MatchAssignment(line: string): (r: Option<(string, string)>)
    ensures r.Some? ==> IsEnvKey(r.value.0) && r.value.1 != []
  {
    if line == [] || !IsKeyStart(line[0]) then None
    else
      var n := LeadingCount(line, IsKeyChar);
      var after := line[n..];
      var ws := LeadingCount(after, IsSpace);
      var eq := after[ws..];
      if eq == [] || eq[0] != '=' then None
      else
        var rest := eq[1..];
        if rest == [] then None
        else
          var ws2 := LeadingCount(rest, IsSpace);
          Some((line[..n], if ws2 < |rest| then rest[ws2..] else rest[|rest| - 1..]))
  }

  /** `value.strip().strip('"').strip("'")`. */
  function CleanValue(value: string): (r: string)
    ensures r != [] ==> r[0] != '\'' && r[|r| - 1] != '\''
  {
    StripChar(StripChar(Strip(value), '"'), '\'')
  }

  /**
   * The assignment `env_vars[key] = value` one raw line performs, if any:
   * at most one, of a well-formed key to a value cleaned of quotes.
   */
  function LineWrite(raw: string): (w: seq<(string, string)>)
    ensures |w| <= 1
    ensures w != [] ==> IsEnvKey(w[0].0)
    ensures w != [] ==> var v := w[0].1; v != [] ==> v[0] != '\'' && v[|v| - 1] != '\''
  {
    var line := Strip(raw);
    if line == [] || StartsWith(line, "#") then []
    else
      match MatchAssignment(line)
      case None => []
      case Some(kv) => [(kv.0, CleanValue(kv.1))]
  }

  /** The assignments of each line, in order. */
  function LineWrites(lines: seq<string>): (ws: seq<seq<(string, string)>>)
    ensures |ws| == |lines| && forall i :: 0 <= i < |lines| ==> ws[i] == LineWrite(lines[i]) && |ws[i]| <= 1
  {
    seq(|lines|, i requires 0 <= i < |lines| => LineWrite(lines[i]))
  }

  /** The dict the loop of `parse_env_file` builds from a list of lines. */
  function EnvLines(lines: seq<string>): map<string, string> {
    Assign(Concat(LineWrites(lines)))
  }

  /** The dict `parse_env_file` returns. */
  function EnvFile(content: string): map<string, string> {
    EnvLines(Split(content, '\n'))
  }

  /** `parse_env_file`. */
  method ParseEnvFile(content: string) returns (envVars: map<string, string>)
    ensures envVars == EnvFile(content)
  {
    var lines := Split(content, '\n');
    ghost var ws := LineWrites(lines);
    envVars := map[];
    for i := 0 to |lines|
      invariant envVars == Assign(Concat(ws[..i]))
    {
      assert ws[..i + 1][..i] == ws[..i];
      var w := LineWrite(lines[i]);
      assert w == ws[i];
      assert Concat(ws[..i + 1]) == Concat(ws[..i]) + w;
      if w != [] {
        envVars := envVars[w[0].0 := w[0].1];
      }
      AssignAtMostOne(Concat(ws[..i]), w);
    }
    assert ws[..|lines|] == ws;
  }

  /** Blank lines, `#` lines and lines whose key is not upper-case add nothing. */
  lemma SkippedLines(raw: string)
    requires var line := Strip(raw); line == [] || StartsWith(line, "#") || !IsKeyStart(line[0])
    ensures LineWrite(raw) == []
  {
  }

  /** The non-empty characters that strip and the quote stripping leave alone. */
  predicate CleanChar(c: char) { !IsSpace(c) && c != '"' && c != '\'' }

  /** The regular expression splits `KEY=VALUE` at the `=`. */
  lemma MatchAssignmentOf(key: string, value: string)
    requires IsEnvKey(key) && value != [] && !IsSpace(value[0])
    ensures MatchAssignment(key + "=" + value) == Some((key, value))
  {
    var line := key + "=" + value;
    assert line[0] == key[0];
    assert forall i :: 0 <= i < |key| ==> line[i] == key[i];
    LeadingCountIs(line, IsKeyChar, |key|);
    assert line[..|key|] == key;
    var after := line[|key|..];
    assert after == "=" + value;
    LeadingCountIs(after, IsSpace, 0);
    assert after[0..] == after;
    var rest := after[1..];
    assert rest == value;
    LeadingCountIs(rest, IsSpace, 0);
    assert rest[0..] == rest;
  }

  /** A value whose ends are neither whitespace nor quotes is kept as it is. */
  lemma CleanValueKeeps(value: string)
    requires value != [] && CleanChar(value[0]) && CleanChar(value[|value| - 1])
    ensures CleanValue(value) == value
  {
    StripByNothing(value, IsSpace);
    StripByNothing(value, x => IsChar('"', x));
    StripByNothing(value, x => IsChar('\'', x));
  }

  /**
   * `KEY=VALUE` with a well-formed key and a value whose ends are neither
   * whitespace nor quotes is read back as that key and value.
   */
  lemma AssignmentReadBack(key: string, value: string)
    requires IsEnvKey(key) && value != [] && CleanChar(value[0]) && CleanChar(value[|value| - 1])
    ensures LineWrite(key + "=" + value) == [(key, value)]
  {
    var line := key + "=" + value;
    assert line[0] == key[0] && line[|line| - 1] == value[|value| - 1];
    StripByNothing(line, IsSpace);
    assert !StartsWith(line, "#") by {
      assert line[..1] == [key[0]];
    }
    MatchAssignmentOf(key, value);
    CleanValueKeeps(value);
  }

  /** The key of an entry and the line that set it: the last line that assigns the key. */
  lemma FileWritesEntry(lines: seq<string>, key: string)
    requires key in EnvLines(lines)
    ensures exists i :: 0 <= i < |lines| && LineWrite(lines[i]) == [(key, EnvLines(lines)[key])]
                        && forall j :: i < j < |lines| ==> LineWrite(lines[j]) == [] || LineWrite(lines[j])[0].0 != key
  {
    var ws: seq<seq<(string, string)>> := LineWrites(lines);
    ConcatEntry(ws, key);
    var i: nat :| LastIteration(ws, i, key, Assign(Concat(ws))[key]);
    assert LineWrite(lines[i]) == ws[i];
  }

  /** A line whose key no later line assigns decides that key's value: later duplicates overwrite earlier ones. */
  lemma FileWritesLastWins(lines: seq<string>, i: nat)
    requires i < |lines| && LineWrite(lines[i]) != []
    requires forall j :: i < j < |lines| ==> LineWrite(lines[j]) == [] || LineWrite(lines[j])[0].0 != LineWrite(lines[i])[0].0
    ensures var w := LineWrite(lines[i])[0]; w.0 in EnvLines(lines) && EnvLines(lines)[w.0] == w.1
  {
    var ws: seq<seq<(string, string)>> := LineWrites(lines);
    forall j | i < j < |ws| ensures ws[j] == [] || ws[j][0].0 != ws[i][0].0 {
      assert ws[j] == LineWrite(lines[j]);
    }
    ConcatLastWins(ws, i);
  }

  /** Every key of the result is a well-formed upper-case key. */
  lemma EnvFileKeys(content: string, key: string)
    requires key in EnvFile(content)
    ensures IsEnvKey(key)
  {
    var lines := Split(content, '\n');
    FileWritesEntry(lines, key);
    var i :| 0 <= i < |lines| && LineWrite(lines[i]) == [(key, EnvLines(lines)[key])];
  }

  // ---------------------------------------------------------------------
  // SERVICE_VERSION_MAP and generate_input_json
  // ---------------------------------------------------------------------

  /** One entry of `SERVICE_VERSION_MAP`. */
  datatype ServiceInfo = ServiceInfo(name: string, versionKey: string, repository: string)

  /** `SERVICE_VERSION_MAP`, in its declaration order. */
  const ServiceVersionMap: seq<ServiceInfo> := [
    ServiceInfo("ui", "APPCDUI_VERSION", "https://github.com/appcd-dev/appcd-ui"),
    ServiceInfo("appcd", "APPCD_VERSION", "https://github.com/appcd-dev/appcd"),
    ServiceInfo("iac-gen", "IACGEN_VERSION", "https://github.com/appcd-dev/iac-gen"),
    ServiceInfo("exporter", "STACK_EXPORTER_VERSION", "https://github.com/appcd-dev/stack-exporter"),
    ServiceInfo("vault", "STACKGEN_VAULT_VERSION", "https://github.com/appcd-dev/stackgen-vault"),
    ServiceInfo("integrations", "INTEGRATIONS_VERSION", "https://github.com/appcd-dev/integrations"),
    ServiceInfo("backstage-adapter", "BACKSTAGE_ADAPTER_VERSION", "https://github.com/appcd-dev/backstage-adapter"),
    ServiceInfo("infra-catalog-tracker", "INFRA_CATALOG_TRACKER_VERSION", "https://github.com/appcd-dev/infra-catalog-tracker"),
    ServiceInfo("sgai-orchestration", "SGAI_ORCHESTRATION", "https://github.com/appcd-dev/sgai-orchestration"),
    ServiceInfo("deployment-manager", "DEPLOYMENT_MANAGER_VERSION", "https://github.com/appcd-dev/deployment-manager"),
    ServiceInfo("notifications", "STACKGEN_NOTIFICATION", "https://github.com/appcd-dev/stackgen-notification"),
    ServiceInfo("tf-module-service", "TF_MODULE_SERVICE_VERSION", "https://github.com/appcd-dev/tf-module-service"),
    ServiceInfo("audit-manager", "AUDIT_MANAGER_VERSION", "https://github.com/appcd-dev/audit-manager"),
    ServiceInfo("aiden", "AIDEN_VERSION", "https://github.com/appcd-dev/aiden"),
    ServiceInfo("aiden-ui", "AIDEN_UI_VERSION", "https://github.com/appcd-dev/aiden-ui-v2")
  ]

  /** One record of `input.json`. The current tag is whatever JSON value `version.json` holds. */
  datatype InputEntry = InputEntry(service: string, repository: string, versionKey: string,
                                   currentTag: JsonValue, newTag: string)

  /** Python truthiness of a decoded JSON value. */
  predicate Truthy(v: JsonValue) {
    match v
    case JNull => false
    case JBool(b) => b
    case JNumber(n) => n != 0
    case JString(s) => s != ""
    case JArray(items) => items != []
    case JObject(members) => members != []
  }

  /** `current_versions.get(service_name, "v1.0.0")`. */
  function CurrentTag(current: map<string, JsonValue>, name: string): (t: JsonValue)
    ensures name !in current ==> t == JString("v1.0.0")
    ensures name in current ==> t == current[name]
  {
    if name in current then current[name] else JString("v1.0.0")
  }

  /** `new_versions.get(version_key, "")`. */
  function NewTag(newVersions: map<string, string>, versionKey: string): (t: string)
    ensures versionKey !in newVersions ==> t == ""
    ensures versionKey in newVersions ==> t == newVersions[versionKey]
  {
    if versionKey in newVersions then newVersions[versionKey] else ""
  }

  /** The record built for a table entry. */
  function EntryFor(info: ServiceInfo, current: map<string, JsonValue>, newVersions: map<string, string>): InputEntry {
    InputEntry(info.name, info.repository, info.versionKey, CurrentTag(current, info.name), NewTag(newVersions, info.versionKey))
  }

  /** `if current_tag or new_tag`. */
  predicate Included(info: ServiceInfo, current: map<string, JsonValue>, newVersions: map<string, string>) {
    Truthy(CurrentTag(current, info.name)) || NewTag(newVersions, info.versionKey) != ""
  }

  /** The list `generate_input_json` returns for the table `table`. */
  function Generated(table: seq<ServiceInfo>, current: map<string, JsonValue>, newVersions: map<string, string>): seq<InputEntry>
    decreases |table|
  {
    if table == [] then []
    else
      var info := table[|table| - 1];
      Generated(table[..|table| - 1], current, newVersions)
      + (if Included(info, current, newVersions) then [EntryFor(info, current, newVersions)] else [])
  }

  /** `generate_input_json`, iterating `SERVICE_VERSION_MAP`. */
  method GenerateInputJson(current: map<string, JsonValue>, newVersions: map<string, string>)
    returns (result: seq<InputEntry>)
    ensures result == Generated(ServiceVersionMap, current, newVersions)
  {
    result := GenerateFrom(ServiceVersionMap, current, newVersions);
  }

  /** The loop of `generate_input_json` over a table. */
  method GenerateFrom(table: seq<ServiceInfo>, current: map<string, JsonValue>, newVersions: map<string, string>)
    returns (result: seq<InputEntry>)
    ensures result == Generated(table, current, newVersions)
  {
    result := [];
    for i := 0 to |table|
      invariant result == Generated(table[..i], current, newVersions)
    {
      assert table[..i + 1][..i] == table[..i];
      var info := table[i];
      var currentTag := if info.name in current then current[info.name] else JString("v1.0.0");
      var newTag := if info.versionKey in newVersions then newVersions[info.versionKey] else "";
      if Truthy(currentTag) || newTag != "" {
        result := result + [InputEntry(info.name, info.repository, info.versionKey, currentTag, newTag)];
      }
    }
    assert table[..|table|] == table;
  }

  /** The table positions whose service is included, in increasing order. */
  function IncludedIndices(table: seq<ServiceInfo>, current: map<string, JsonValue>, newVersions: map<string, string>): seq<nat>
    decreases |table|
  {
    if table == [] then []
    else
      var n := |table| - 1;
      IncludedIndices(table[..n], current, newVersions) + (if Included(table[n], current, newVersions) then [n] else [])
  }

  /**
   * The positions lie in the table, increase, and hold exactly the table
   * entries that are included.
   */
  lemma {:induction false} IncludedIndicesSpec(table: seq<ServiceInfo>, current: map<string, JsonValue>, newVersions: map<string, string>)
    ensures var idx := IncludedIndices(table, current, newVersions);
            |idx| <= |table|
            && (forall k :: 0 <= k < |idx| ==> idx[k] < |table|)
            && (forall k, l :: 0 <= k < l < |idx| ==> idx[k] < idx[l])
            && (forall i :: 0 <= i < |table| ==> (i in idx <==> Included(table[i], current, newVersions)))
    decreases |table|
  {
    if table != [] {
      var n := |table| - 1;
      var init := table[..n];
      IncludedIndicesSpec(init, current, newVersions);
      var idx0 := IncludedIndices(init, current, newVersions);
      var idx := IncludedIndices(table, current, newVersions);
      assert idx == idx0 + (if Included(table[n], current, newVersions) then [n] else []);
      forall i | 0 <= i < |table| ensures i in idx <==> Included(table[i], current, newVersions) {
        if i < n {
          assert init[i] == table[i];
        }
      }
    }
  }

  /** Position `k` of the result is the record of table entry `idx[k]`. */
  lemma {:induction false} GeneratedRecords(table: seq<ServiceInfo>, current: map<string, JsonValue>, newVersions: map<string, string>)
    ensures var idx := IncludedIndices(table, current, newVersions);
            var r := Generated(table, current, newVersions);
            |r| == |idx|
            && forall k :: 0 <= k < |idx| ==> idx[k] < |table| && r[k] == EntryFor(table[idx[k]], current, newVersions)
    decreases |table|
  {
    if table != [] {
      var n := |table| - 1;
      var init := table[..n];
      GeneratedRecords(init, current, newVersions);
      var idx0 := IncludedIndices(init, current, newVersions);
      var r0 := Generated(init, current, newVersions);
      var idx := IncludedIndices(table, current, newVersions);
      var r := Generated(table, current, newVersions);
      forall k | 0 <= k < |idx| ensures idx[k] < |table| && r[k] == EntryFor(table[idx[k]], current, newVersions) {
        if k < |idx0| {
          assert idx[k] == idx0[k] && r[k] == r0[k];
          assert init[idx0[k]] == table[idx0[k]];
        }
      }
    }
  }

  /**
   * The records are those of the included table entries, in table order:
   * position `k` of the result is the record of table entry `idx[k]`, the
   * positions increase, and a table entry appears exactly when it is
   * included.
   */
  lemma GeneratedFollowsTable(table: seq<ServiceInfo>, current: map<string, JsonValue>, newVersions: map<string, string>)
    ensures var idx := IncludedIndices(table, current, newVersions);
            var r := Generated(table, current, newVersions);
            |r| == |idx| <= |table|
            && (forall k :: 0 <= k < |idx| ==> idx[k] < |table| && r[k] == EntryFor(table[idx[k]], current, newVersions))
            && (forall k, l :: 0 <= k < l < |idx| ==> idx[k] < idx[l])
            && (forall i :: 0 <= i < |table| ==> (i in idx <==> Included(table[i], current, newVersions)))
  {
    IncludedIndicesSpec(table, current, newVersions);
    GeneratedRecords(table, current, newVersions);
  }

  /**
   * Every record copies the service's table row and carries the two tags
   * with their defaults; an entry is left out only when the deployed map
   * holds a falsy value for it and the `.env` map has no non-empty tag.
   */
  lemma EntryDefaults(info: ServiceInfo, current: map<string, JsonValue>, newVersions: map<string, string>)
    ensures var e := EntryFor(info, current, newVersions);
            e.service == info.name && e.repository == info.repository && e.versionKey == info.versionKey
            && (info.name !in current ==> e.currentTag == JString("v1.0.0"))
            && (info.versionKey !in newVersions ==> e.newTag == "")
    ensures !Included(info, current, newVersions) <==>
              info.name in current && !Truthy(current[info.name])
              && (info.versionKey !in newVersions || newVersions[info.versionKey] == "")
  {
  }

  /** When every entry is included, the result has one record per table entry, in table order. */
  lemma {:induction false} AllIncluded(table: seq<ServiceInfo>, current: map<string, JsonValue>, newVersions: map<string, string>)
    requires forall i :: 0 <= i < |table| ==> Included(table[i], current, newVersions)
    ensures var r := Generated(table, current, newVersions);
            |r| == |table| && forall i :: 0 <= i < |table| ==> r[i] == EntryFor(table[i], current, newVersions)
    decreases |table|
  {
    if table != [] {
      var init := table[..|table| - 1];
      forall i | 0 <= i < |init| ensures Included(init[i], current, newVersions) {
        assert init[i] == table[i];
      }
      AllIncluded(init, current, newVersions);
    }
  }

  /** With no deployed versions at all, every service of the table is listed, each with the default current tag. */
  lemma AllListedWithoutDeployedVersions(newVersions: map<string, string>)
    ensures var r := Generated(ServiceVersionMap, map[], newVersions);
            |r| == |ServiceVersionMap|
            && forall i :: 0 <= i < |r| ==> r[i].service == ServiceVersionMap[i].name && r[i].currentTag == JString("v1.0.0")
  {
    forall i | 0 <= i < |ServiceVersionMap| ensures Included(ServiceVersionMap[i], map[], newVersions) {
    }
    AllIncluded(ServiceVersionMap, map[], newVersions);
  }
}
