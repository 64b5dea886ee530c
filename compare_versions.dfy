/**
 * `VersionComparator` of `compare_versions.py`: the `.env` parser, the
 * `version.json` flattener and the four-way comparison of the unified
 * records.
 */
module CompareVersions {
  import opened Wrappers
  import opened Text
  import opened Json
  import opened Dicts
  import opened EnvPatterns
  import opened ServiceMapping

  // ---------------------------------------------------------------------
  // parse_env_content
  // ---------------------------------------------------------------------

  /**
   * The entry one raw `.env` line contributes under the pattern list
   * `pats`: none for blank and `#` lines, otherwise the first match.
   */
  function LineEntry(raw: string, pats: seq<EnvPattern>): Option<Entry> {
    var line := Strip(raw);
    if line == [] || StartsWith(line, "#") then None else FirstMatch(line, pats)
  }

  /** The entry of every line, in order. */
  function LineEntries(lines: seq<string>, pats: seq<EnvPattern>): (es: seq<Option<Entry>>)
    ensures |es| == |lines|
  {
    seq(|lines|, j requires 0 <= j < |lines| => LineEntry(lines[j], pats))
  }

  /** The assignment `versions[service] = version` an entry performs, if any. */
  function EntryWrite(e: Option<Entry>): seq<(string, string)> {
    match e
    case None => []
    case Some(e) => [(e.service, e.version)]
  }

  /** The assignments the entries perform, in order. */
  function EnvWrites(es: seq<Option<Entry>>): seq<(string, string)>
    decreases |es|
  {
    if es == [] then [] else EnvWrites(es[..|es| - 1]) + EntryWrite(es[|es| - 1])
  }

  /** The dict `parse_env_content` returns for the lines of a `.env` file. */
  function ParsedEnvLines(lines: seq<string>): map<string, string> {
    Assign(EnvWrites(LineEntries(lines, VersionPatterns)))
  }

  function ParsedEnv(envContent: string): map<string, string> {
    ParsedEnvLines(Split(envContent, '\n'))
  }

  lemma EnvWritesSnoc(es: seq<Option<Entry>>, e: Option<Entry>)
    ensures EnvWrites(es + [e]) == EnvWrites(es) + EntryWrite(e)
  {
    assert (es + [e])[..|es|] == es;
  }

  /** `parse_env_content`, its pattern list fixed to `VersionPatterns`. */
  method ParseEnvContent(envContent: string) returns (versions: map<string, string>)
    ensures versions == ParsedEnv(envContent)
  {
    versions := ParseEnvLines(Split(envContent, '\n'), VersionPatterns);
  }

  /** The line loop of `parse_env_content`. */
  method ParseEnvLines(lines: seq<string>, pats: seq<EnvPattern>) returns (versions: map<string, string>)
    ensures versions == Assign(EnvWrites(LineEntries(lines, pats)))
  {
    versions := map[];
    var i := 0;
    while i < |lines|
      invariant 0 <= i <= |lines|
      invariant versions == ParsedPrefix(lines, i, pats)
    {
      var m := MatchLine(lines[i], pats);
      ParsedPrefixStep(lines, i, pats);
      if m.Some? {
        versions := versions[m.value.service := m.value.version];
      }
      i := i + 1;
    }
    assert lines[..|lines|] == lines;
  }

  /** What the loop of `parse_env_content` has stored after the first `i` lines. */
  ghost function ParsedPrefix(lines: seq<string>, i: nat, pats: seq<EnvPattern>): map<string, string>
    requires i <= |lines|
  {
    Assign(EnvWrites(LineEntries(lines[..i], pats)))
  }

  /** One more line stores its match, if it has one, over what the earlier lines stored. */
  lemma ParsedPrefixStep(lines: seq<string>, i: nat, pats: seq<EnvPattern>)
    requires i < |lines|
    ensures var before := ParsedPrefix(lines, i, pats);
            var m := LineEntry(lines[i], pats);
            ParsedPrefix(lines, i + 1, pats) == if m.Some? then before[m.value.service := m.value.version] else before
  {
    var prefix := lines[..i];
    var m := LineEntry(lines[i], pats);
    assert lines[..i + 1] == prefix + [lines[i]];
    LineEntriesSnoc(prefix, lines[i], pats);
    EnvWritesSnoc(LineEntries(prefix, pats), m);
    AssignSnocAll(EnvWrites(LineEntries(prefix, pats)), EntryWrite(m));
  }

  /** One line: skip blank and `#` lines, else try the patterns in order and stop at the first match. */
  method MatchLine(raw: string, pats: seq<EnvPattern>) returns (m: Option<Entry>)
    ensures m == LineEntry(raw, pats)
  {
    var line := Strip(raw);
    m := None;
    if line != [] && !StartsWith(line, "#") {
      var k := 0;
      while k < |pats|
        invariant 0 <= k <= |pats|
        invariant m == None
        invariant FirstMatch(line, pats) == FirstSome(MatchAll(line, pats), k)
      {
        var r := MatchPattern(line, pats[k]);
        if r.Some? {
          m := r;
          return;
        }
        k := k + 1;
      }
    }
  }

  /** Appending no write or one write. */
  lemma AssignSnocAll<K, V>(writes: seq<(K, V)>, more: seq<(K, V)>)
    requires |more| <= 1
    ensures more == [] ==> Assign(writes + more) == Assign(writes)
    ensures |more| == 1 ==> Assign(writes + more) == Assign(writes)[more[0].0 := more[0].1]
  {
    if more == [] {
      assert writes + more == writes;
    } else {
      AssignSnoc(writes, more[0]);
      assert more == [more[0]];
    }
  }

  /**
   * A line has no entry when it is blank or a `#` comment after stripping,
   * or when no pattern matches it.
   */
  lemma SkippedLine(raw: string, pats: seq<EnvPattern>)
    requires Strip(raw) == [] || StartsWith(Strip(raw), "#")
             || forall j :: 0 <= j < |pats| ==> MatchPattern(Strip(raw), pats[j]).None?
    ensures LineEntry(raw, pats) == None
  {
    FirstMatchSpec(Strip(raw), pats);
  }

  /**
   * A line that is not skipped has the entry of the first pattern that
   * matches it, the later patterns untried.
   */
  lemma MatchedLine(raw: string, pats: seq<EnvPattern>, j: nat)
    requires Strip(raw) != [] && !StartsWith(Strip(raw), "#")
    requires j < |pats| && MatchPattern(Strip(raw), pats[j]).Some?
    requires forall i :: 0 <= i < j ==> MatchPattern(Strip(raw), pats[i]).None?
    ensures LineEntry(raw, pats) == MatchPattern(Strip(raw), pats[j])
  {
    var line := Strip(raw);
    FirstMatchSpec(line, pats);
    var j' :| 0 <= j' < |pats| && MatchPattern(line, pats[j']) == FirstMatch(line, pats)
              && forall i :: 0 <= i < j' ==> MatchPattern(line, pats[i]).None?;
    assert j' == j;
  }

  /** A skipped line leaves the dict as it was. */
  lemma SkippedLineKeepsDict(lines: seq<string>, raw: string, pats: seq<EnvPattern>)
    requires LineEntry(raw, pats) == None
    ensures Assign(EnvWrites(LineEntries(lines + [raw], pats))) == Assign(EnvWrites(LineEntries(lines, pats)))
  {
    LineEntriesSnoc(lines, raw, pats);
    EnvWritesSnoc(LineEntries(lines, pats), None);
    assert EnvWrites(LineEntries(lines, pats)) + [] == EnvWrites(LineEntries(lines, pats));
  }

  /** A matched line stores its entry, replacing what the name held. */
  lemma MatchedLineStores(lines: seq<string>, raw: string, pats: seq<EnvPattern>)
    requires LineEntry(raw, pats).Some?
    ensures var e := LineEntry(raw, pats).value;
            Assign(EnvWrites(LineEntries(lines + [raw], pats)))
              == Assign(EnvWrites(LineEntries(lines, pats)))[e.service := e.version]
  {
    var e := LineEntry(raw, pats);
    LineEntriesSnoc(lines, raw, pats);
    EnvWritesSnoc(LineEntries(lines, pats), e);
    AssignSnoc(EnvWrites(LineEntries(lines, pats)), (e.value.service, e.value.version));
  }

  lemma LineEntriesSnoc(lines: seq<string>, raw: string, pats: seq<EnvPattern>)
    ensures LineEntries(lines + [raw], pats) == LineEntries(lines, pats) + [LineEntry(raw, pats)]
  {
  }

  /** A stored `.env` assignment: a lower-case name and a non-empty value free of whitespace and quotes. */
  predicate WellFormedWrite(w: (string, string)) {
    IsLower(w.0) && w.1 != [] && ValueChars(w.1)
  }

  /** An entry as `MatchPattern` produces it. */
  predicate WellFormedEntry(e: Option<Entry>) {
    e.Some? ==> WellFormedWrite((e.value.service, e.value.version))
  }

  lemma LineEntryShape(raw: string, pats: seq<EnvPattern>)
    ensures WellFormedEntry(LineEntry(raw, pats))
  {
    if LineEntry(raw, pats).Some? {
      FirstMatchSpec(Strip(raw), pats);
    }
  }

  lemma {:induction false} EnvWritesShape(es: seq<Option<Entry>>)
    requires forall j :: 0 <= j < |es| ==> WellFormedEntry(es[j])
    ensures forall i :: 0 <= i < |EnvWrites(es)| ==> WellFormedWrite(EnvWrites(es)[i])
    decreases |es|
  {
    if es != [] {
      var init := EnvWrites(es[..|es| - 1]);
      var last := EntryWrite(es[|es| - 1]);
      EnvWritesShape(es[..|es| - 1]);
      assert WellFormedEntry(es[|es| - 1]);
      forall i | 0 <= i < |init + last| ensures WellFormedWrite((init + last)[i]) {
        if i < |init| {
          assert (init + last)[i] == init[i];
        } else {
          assert (init + last)[i] == last[i - |init|];
        }
      }
    }
  }

  /**
   * Every key of the parsed `.env` dict is lower-case and every value is
   * non-empty and contains neither whitespace nor a quote.
   */
  lemma ParsedEnvShape(lines: seq<string>, k: string)
    requires k in ParsedEnvLines(lines)
    ensures IsLower(k)
    ensures ParsedEnvLines(lines)[k] != [] && ValueChars(ParsedEnvLines(lines)[k])
  {
    var es := LineEntries(lines, VersionPatterns);
    forall j | 0 <= j < |es| ensures WellFormedEntry(es[j]) {
      LineEntryShape(lines[j], VersionPatterns);
    }
    EnvWritesShape(es);
    AssignEntry(EnvWrites(es), k);
  }

  /**
   * A later entry overwrites an earlier one: the value stored for the
   * service of entry `i` is entry `i`'s own when no later entry names the
   * same service.
   */
  lemma {:induction false} LastEntryWins(es: seq<Option<Entry>>, i: nat)
    requires i < |es| && es[i].Some?
    requires forall j :: i < j < |es| && es[j].Some? ==> es[j].value.service != es[i].value.service
    ensures var parsed := Assign(EnvWrites(es));
            es[i].value.service in parsed && parsed[es[i].value.service] == es[i].value.version
    decreases |es|
  {
    var init := es[..|es| - 1];
    var last := es[|es| - 1];
    assert es == init + [last];
    EnvWritesSnoc(init, last);
    AssignSnocAll(EnvWrites(init), EntryWrite(last));
    if i < |es| - 1 {
      assert init[i] == es[i];
      forall j | i < j < |init| && init[j].Some? ensures init[j].value.service != init[i].value.service {
        assert init[j] == es[j];
      }
      LastEntryWins(init, i);
    }
  }

  /**
   * Last write wins for `.env` lines: a line's entry is what the dict holds
   * for its service when no later line stores the same service.
   */
  lemma LastLineWins(lines: seq<string>, i: nat)
    requires i < |lines| && LineEntry(lines[i], VersionPatterns).Some?
    requires forall j :: i < j < |lines| && LineEntry(lines[j], VersionPatterns).Some? ==>
               LineEntry(lines[j], VersionPatterns).value.service != LineEntry(lines[i], VersionPatterns).value.service
    ensures var e := LineEntry(lines[i], VersionPatterns).value;
            e.service in ParsedEnvLines(lines) && ParsedEnvLines(lines)[e.service] == e.version
  {
    LastEntryWins(LineEntries(lines, VersionPatterns), i);
  }


  // ---------------------------------------------------------------------
  // parse_version_json
  // ---------------------------------------------------------------------

  /** A nested member `sub_key: sub_value` stored as `<key>_<sub_key>`: a string whose lowered key contains `version`. */
  predicate SubVersionMember(sub: (string, JsonValue)) {
    Contains(Lower(sub.0), "version") && sub.1.JString?
  }

  /** The write one nested member performs, if any. */
  function SubWrite(prefix: string, sub: (string, JsonValue)): seq<(string, JsonValue)> {
    if SubVersionMember(sub) then [(prefix + "_" + Lower(sub.0), sub.1)] else []
  }

  /** The writes the items of a nested object without a `version` key perform, in order. */
  function SubWrites(prefix: string, subs: seq<(string, JsonValue)>): seq<(string, JsonValue)>
    decreases |subs|
  {
    if subs == [] then [] else SubWrites(prefix, subs[..|subs| - 1]) + SubWrite(prefix, subs[|subs| - 1])
  }

  /** The writes one top-level member `key: value` performs. */
  function MemberWrites(member: (string, JsonValue)): seq<(string, JsonValue)> {
    var (key, value) := member;
    match value
    case JString(_) => [(Lower(key), value)]
    case JObject(subs) =>
      if HasKey(subs, "version") then [(Lower(key), Get(subs, "version"))] else SubWrites(Lower(key), Items(subs))
    case _ => []
  }

  /** The writes the items of the top-level object perform, in order. */
  function ObjectWrites(items: seq<(string, JsonValue)>): seq<(string, JsonValue)>
    decreases |items|
  {
    if items == [] then [] else ObjectWrites(items[..|items| - 1]) + MemberWrites(items[|items| - 1])
  }

  /**
   * The dict `parse_version_json` returns. `decoded` is what `json.loads`
   * makes of `content`, `None` when it raises `JSONDecodeError`.
   */
  function VersionJson(content: string, decoded: Option<JsonValue>): map<string, JsonValue> {
    match decoded
    case None => map["content" := JString(Strip(content))]
    case Some(JObject(members)) => Assign(ObjectWrites(Items(members)))
    case Some(_) => map[]
  }

  /** `parse_version_json`, the decoder's outcome given as `decoded`. */
  method ParseVersionJson(content: string, decoded: Option<JsonValue>) returns (versions: map<string, JsonValue>)
    ensures versions == VersionJson(content, decoded)
  {
    if decoded.None? {
      versions := map["content" := JString(Strip(content))];
    } else if decoded.value.JObject? {
      versions := FlattenObject(Items(decoded.value.members));
    } else {
      versions := map[];
    }
  }

  /** The loop over `data.items()`, the top-level items. */
  method FlattenObject(items: seq<(string, JsonValue)>) returns (versions: map<string, JsonValue>)
    ensures versions == Assign(ObjectWrites(items))
  {
    versions := map[];
    var i := 0;
    while i < |items|
      invariant 0 <= i <= |items|
      invariant versions == Assign(ObjectWrites(items[..i]))
    {
      var (key, value) := items[i];
      ghost var before := versions;
      if value.JString? {
        versions := versions[Lower(key) := value];
      } else if value.JObject? && HasKey(value.members, "version") {
        versions := versions[Lower(key) := Get(value.members, "version")];
      } else if value.JObject? {
        versions := AddSubVersions(versions, Lower(key), Items(value.members));
      }
      MemberStep(before, items, i, versions);
      i := i + 1;
    }
    assert items[..|items|] == items;
  }

  /** One pass of the top-level loop performs the member's writes. */
  lemma MemberStep(before: map<string, JsonValue>, members: seq<(string, JsonValue)>, i: nat, after: map<string, JsonValue>)
    requires i < |members| && before == Assign(ObjectWrites(members[..i]))
    requires var (key, value) := members[i];
             if value.JString? then after == before[Lower(key) := value]
             else if value.JObject? && HasKey(value.members, "version") then after == before[Lower(key) := Get(value.members, "version")]
             else if value.JObject? then after == before + Assign(SubWrites(Lower(key), Items(value.members)))
             else after == before
    ensures after == Assign(ObjectWrites(members[..i + 1]))
  {
    assert members[..i + 1][..i] == members[..i];
    assert ObjectWrites(members[..i + 1]) == ObjectWrites(members[..i]) + MemberWrites(members[i]);
    MemberEffect(before, members[i], after);
    AssignAppend(ObjectWrites(members[..i]), MemberWrites(members[i]));
  }

  /** The updates of one pass of the top-level loop are the union with the dict of the member's writes. */
  lemma MemberEffect(before: map<string, JsonValue>, member: (string, JsonValue), after: map<string, JsonValue>)
    requires var (key, value) := member;
             if value.JString? then after == before[Lower(key) := value]
             else if value.JObject? && HasKey(value.members, "version") then after == before[Lower(key) := Get(value.members, "version")]
             else if value.JObject? then after == before + Assign(SubWrites(Lower(key), Items(value.members)))
             else after == before
    ensures after == before + Assign(MemberWrites(member))
  {
    var (key, value) := member;
    if value.JString? {
      AssignSingle(Lower(key), value);
    } else if value.JObject? && HasKey(value.members, "version") {
      AssignSingle(Lower(key), Get(value.members, "version"));
    } else if !value.JObject? {
      assert Assign(MemberWrites(member)) == map[];
    }
  }

  /** The inner loop over `value.items()` for a nested object without a `version` key. */
  method AddSubVersions(versions: map<string, JsonValue>, prefix: string, subs: seq<(string, JsonValue)>)
    returns (result: map<string, JsonValue>)
    ensures result == versions + Assign(SubWrites(prefix, subs))
  {
    result := versions;
    var j := 0;
    while j < |subs|
      invariant 0 <= j <= |subs|
      invariant result == versions + Assign(SubWrites(prefix, subs[..j]))
    {
      var (subKey, subValue) := subs[j];
      ghost var before := result;
      if Contains(Lower(subKey), "version") && subValue.JString? {
        result := result[prefix + "_" + Lower(subKey) := subValue];
      }
      SubStep(versions, prefix, subs, j, before, result);
      j := j + 1;
    }
    assert subs[..|subs|] == subs;
  }

  /** One pass of the inner loop performs the nested member's write, if any. */
  lemma SubStep(versions: map<string, JsonValue>, prefix: string, subs: seq<(string, JsonValue)>, j: nat,
                before: map<string, JsonValue>, after: map<string, JsonValue>)
    requires j < |subs| && before == versions + Assign(SubWrites(prefix, subs[..j]))
    requires if SubVersionMember(subs[j]) then after == before[prefix + "_" + Lower(subs[j].0) := subs[j].1]
             else after == before
    ensures after == versions + Assign(SubWrites(prefix, subs[..j + 1]))
  {
    assert subs[..j + 1][..j] == subs[..j];
    var w := SubWrites(prefix, subs[..j]);
    assert SubWrites(prefix, subs[..j + 1]) == w + SubWrite(prefix, subs[j]);
    SubEffect(before, prefix, subs[j], after);
    AssignAppend(w, SubWrite(prefix, subs[j]));
    UnionAssociative(versions, Assign(w), Assign(SubWrite(prefix, subs[j])));
  }

  /** The update of one pass of the inner loop is the union with the dict of the nested member's write. */
  lemma SubEffect(before: map<string, JsonValue>, prefix: string, sub: (string, JsonValue), after: map<string, JsonValue>)
    requires if SubVersionMember(sub) then after == before[prefix + "_" + Lower(sub.0) := sub.1] else after == before
    ensures after == before + Assign(SubWrite(prefix, sub))
  {
    if SubVersionMember(sub) {
      AssignSingle(prefix + "_" + Lower(sub.0), sub.1);
    } else {
      assert Assign(SubWrite(prefix, sub)) == map[];
    }
  }

  lemma AssignSingle<K, V>(k: K, v: V)
    ensures Assign([(k, v)]) == map[k := v]
  {
    assert [(k, v)][..0] == [];
  }

  /**
   * What a top-level item `k: value` can store under `key`: a string as is
   * under `lower(k)`, the `version` field of an object under `lower(k)`, or,
   * for an object without one, a string field whose lowered name contains
   * `version` under `lower(k) + "_" + lower(field)`. Fields are read as the
   * nested dict holds them: a repeated field name counts once, with the
   * value of its last member.
   */
  ghost predicate MemberProduces(member: (string, JsonValue), key: string, v: JsonValue) {
    var (k, value) := member;
    (value.JString? && key == Lower(k) && v == value)
    || (value.JObject? && HasKey(value.members, "version") && key == Lower(k) && v == Get(value.members, "version"))
    || (value.JObject? && !HasKey(value.members, "version") && SubProduces(Lower(k), value.members, key, v))
  }

  ghost predicate SubProduces(prefix: string, subs: seq<(string, JsonValue)>, key: string, v: JsonValue) {
    exists field :: HasKey(subs, field) && SubVersionMember((field, Get(subs, field)))
                    && key == prefix + "_" + Lower(field) && v == Get(subs, field)
  }

  /** What the items of a nested dict store, read item by item. */
  ghost predicate ItemProduces(prefix: string, items: seq<(string, JsonValue)>, key: string, v: JsonValue) {
    exists j :: 0 <= j < |items| && SubVersionMember(items[j]) && key == prefix + "_" + Lower(items[j].0) && v == items[j].1
  }

  lemma {:induction false} SubWritesFrom(prefix: string, items: seq<(string, JsonValue)>)
    ensures forall q :: 0 <= q < |SubWrites(prefix, items)| ==>
              ItemProduces(prefix, items, SubWrites(prefix, items)[q].0, SubWrites(prefix, items)[q].1)
    decreases |items|
  {
    if items != [] {
      var init := items[..|items| - 1];
      var ws: seq<(string, JsonValue)> := SubWrites(prefix, init);
      var last: seq<(string, JsonValue)> := SubWrite(prefix, items[|items| - 1]);
      assert SubWrites(prefix, items) == ws + last;
      SubWritesFrom(prefix, init);
      forall q | 0 <= q < |ws + last| ensures ItemProduces(prefix, items, (ws + last)[q].0, (ws + last)[q].1) {
        if q < |ws| {
          assert (ws + last)[q] == ws[q];
          var j :| 0 <= j < |init| && SubVersionMember(init[j]) && ws[q].0 == prefix + "_" + Lower(init[j].0) && ws[q].1 == init[j].1;
          assert init[j] == items[j];
        } else {
          assert (ws + last)[q] == last[q - |ws|];
          assert SubVersionMember(items[|items| - 1]);
        }
      }
    }
  }

  lemma MemberWritesFrom(member: (string, JsonValue))
    ensures forall q :: 0 <= q < |MemberWrites(member)| ==>
              MemberProduces(member, MemberWrites(member)[q].0, MemberWrites(member)[q].1)
  {
    var (k, value) := member;
    if value.JObject? && !HasKey(value.members, "version") {
      var items := Items(value.members);
      SubWritesFrom(Lower(k), items);
      ItemsValues(value.members);
      forall q | 0 <= q < |MemberWrites(member)| ensures MemberProduces(member, MemberWrites(member)[q].0, MemberWrites(member)[q].1) {
        var w := MemberWrites(member)[q];
        var j :| 0 <= j < |items| && SubVersionMember(items[j]) && w.0 == Lower(k) + "_" + Lower(items[j].0) && w.1 == items[j].1;
        var field := items[j].0;
        assert HasKey(value.members, field) && items[j] == (field, Get(value.members, field));
      }
    }
  }

  lemma {:induction false} ObjectWritesFrom(items: seq<(string, JsonValue)>)
    ensures forall q :: 0 <= q < |ObjectWrites(items)| ==>
              exists i :: 0 <= i < |items| && MemberProduces(items[i], ObjectWrites(items)[q].0, ObjectWrites(items)[q].1)
    decreases |items|
  {
    if items != [] {
      var init := items[..|items| - 1];
      var ws: seq<(string, JsonValue)> := ObjectWrites(init);
      var last: seq<(string, JsonValue)> := MemberWrites(items[|items| - 1]);
      assert ObjectWrites(items) == ws + last;
      ObjectWritesFrom(init);
      MemberWritesFrom(items[|items| - 1]);
      forall q | 0 <= q < |ObjectWrites(items)|
        ensures exists i :: 0 <= i < |items| && MemberProduces(items[i], ObjectWrites(items)[q].0, ObjectWrites(items)[q].1)
      {
        if q < |ws| {
          assert (ws + last)[q] == ws[q];
          var i :| 0 <= i < |init| && MemberProduces(init[i], ws[q].0, ws[q].1);
          assert init[i] == items[i];
        } else {
          assert (ws + last)[q] == last[q - |ws|];
          assert MemberProduces(items[|items| - 1], last[q - |ws|].0, last[q - |ws|].1);
        }
      }
    } else {
      assert ObjectWrites(items) == [];
    }
  }

  /**
   * Every entry of the flattened `version.json` dict was stored by some key
   * of the decoded object, read with the value `json.loads` keeps for it, in
   * one of the three ways `MemberProduces` lists.
   */
  lemma FlattenedEntry(members: seq<(string, JsonValue)>, key: string)
    requires key in Assign(ObjectWrites(Items(members)))
    ensures exists k :: HasKey(members, k) && MemberProduces((k, Get(members, k)), key, Assign(ObjectWrites(Items(members)))[key])
  {
    var items := Items(members);
    var ws := ObjectWrites(items);
    AssignEntry(ws, key);
    ObjectWritesFrom(items);
    var q: nat :| LastWrite(ws, q, key, Assign(ws)[key]);
    var i :| 0 <= i < |items| && MemberProduces(items[i], ws[q].0, ws[q].1);
    ItemsValues(members);
    var k := items[i].0;
    assert HasKey(members, k) && items[i] == (k, Get(members, k));
  }

  lemma {:induction false} SubWritesHas(prefix: string, items: seq<(string, JsonValue)>, j: nat)
    requires j < |items| && SubVersionMember(items[j])
    ensures exists q :: 0 <= q < |SubWrites(prefix, items)| && SubWrites(prefix, items)[q] == (prefix + "_" + Lower(items[j].0), items[j].1)
    decreases |items|
  {
    var init := items[..|items| - 1];
    var ws := SubWrites(prefix, init);
    var last := SubWrite(prefix, items[|items| - 1]);
    assert SubWrites(prefix, items) == ws + last;
    if j < |items| - 1 {
      assert init[j] == items[j];
      SubWritesHas(prefix, init, j);
      var q :| 0 <= q < |ws| && ws[q] == (prefix + "_" + Lower(items[j].0), items[j].1);
      assert (ws + last)[q] == ws[q];
    } else {
      assert (ws + last)[|ws|] == last[0];
    }
  }

  /** The item of the dict built from `members` that holds `key`. */
  lemma ItemAt(members: seq<(string, JsonValue)>, key: string) returns (j: nat)
    requires HasKey(members, key)
    ensures j < |Items(members)| && Items(members)[j] == (key, Get(members, key))
  {
    assert HasKey(Items(members), key);
    j :| 0 <= j < |Items(members)| && Items(members)[j].0 == key;
    ItemsValues(members);
  }

  lemma MemberWritesHas(member: (string, JsonValue), key: string, v: JsonValue)
    requires MemberProduces(member, key, v)
    ensures exists q :: 0 <= q < |MemberWrites(member)| && MemberWrites(member)[q] == (key, v)
  {
    var (k, value) := member;
    if value.JObject? && !HasKey(value.members, "version") {
      var field :| HasKey(value.members, field) && SubVersionMember((field, Get(value.members, field)))
                   && key == Lower(k) + "_" + Lower(field) && v == Get(value.members, field);
      var j := ItemAt(value.members, field);
      SubWritesHas(Lower(k), Items(value.members), j);
      assert MemberWrites(member) == SubWrites(Lower(k), Items(value.members));
    } else {
      assert MemberWrites(member)[0] == (key, v);
    }
  }

  lemma {:induction false} ObjectWritesHas(items: seq<(string, JsonValue)>, i: nat, key: string, v: JsonValue)
    requires i < |items| && MemberProduces(items[i], key, v)
    ensures exists q :: 0 <= q < |ObjectWrites(items)| && ObjectWrites(items)[q].0 == key
    decreases |items|
  {
    var init := items[..|items| - 1];
    var ws := ObjectWrites(init);
    var last := MemberWrites(items[|items| - 1]);
    assert ObjectWrites(items) == ws + last;
    if i < |items| - 1 {
      assert init[i] == items[i];
      ObjectWritesHas(init, i, key, v);
      var q :| 0 <= q < |ws| && ws[q].0 == key;
      assert (ws + last)[q] == ws[q];
    } else {
      MemberWritesHas(items[i], key, v);
      var q :| 0 <= q < |last| && last[q] == (key, v);
      assert (ws + last)[|ws| + q] == last[q];
    }
  }

  /**
   * Every key of the decoded object that can store `key`, read with the
   * value `json.loads` keeps for it, does store it: the key is in the
   * flattened dict (with the value of whichever item wrote it last).
   */
  lemma FlattenedCovers(members: seq<(string, JsonValue)>, k: string, key: string, v: JsonValue)
    requires HasKey(members, k) && MemberProduces((k, Get(members, k)), key, v)
    ensures key in Assign(ObjectWrites(Items(members)))
  {
    var i := ItemAt(members, k);
    ObjectWritesHas(Items(members), i, key, v);
    AssignKeys(ObjectWrites(Items(members)));
  }

  /**
   * A repeated top-level key counts once, with its last value: here the
   * nested object is overwritten by a number, which stores nothing.
   */
  lemma RepeatedKeyLastValue()
    ensures VersionJson("", Some(JObject([("svc", JObject([("version", JString("1"))])), ("svc", JNumber(5))]))) == map[]
  {
    ItemsOfRepeatedKey("svc", JObject([("version", JString("1"))]), JNumber(5));
    var items: seq<(string, JsonValue)> := [("svc", JNumber(5))];
    assert items[..0] == [];
    assert ObjectWrites(items) == [];
  }

  /** Every key a member can store is lower-case. */
  lemma ProducedKeyIsLower(member: (string, JsonValue), key: string, v: JsonValue)
    requires MemberProduces(member, key, v)
    ensures IsLower(key)
  {
    var (k, value) := member;
    LowerIsLower(k);
    if value.JObject? && !HasKey(value.members, "version") && key != Lower(k) {
      var field :| HasKey(value.members, field) && SubVersionMember((field, Get(value.members, field)))
                   && key == Lower(k) + "_" + Lower(field) && v == Get(value.members, field);
      LowerIsLower(field);
    }
  }

  /**
   * Every key of the dict `parse_version_json` returns is lower-case, the
   * plain-text fallback `content` included.
   */
  lemma VersionJsonKeysLower(content: string, decoded: Option<JsonValue>, key: string)
    requires key in VersionJson(content, decoded)
    ensures IsLower(key)
  {
    if decoded.Some? && decoded.value.JObject? {
      var members := decoded.value.members;
      var r := Assign(ObjectWrites(Items(members)));
      FlattenedEntry(members, key);
      var k :| HasKey(members, k) && MemberProduces((k, Get(members, k)), key, r[key]);
      ProducedKeyIsLower((k, Get(members, k)), key, r[key]);
    }
  }

  // ---------------------------------------------------------------------
  // compare_versions
  // ---------------------------------------------------------------------

  /** The four result buckets. */
  datatype Bucket = Differ | Match | OnlyInEnv | OnlyDeployed

  /**
   * The bucket of one unified record, tested in the source's order: no
   * `.env` version, then no deployed version, then unequal versions. A
   * deployed version that is not a string never equals an `.env` version.
   */
  function Classify(r: UnifiedRecord): Bucket {
    if r.envVersion.None? then OnlyDeployed
    else if r.deployedVersion.None? then OnlyInEnv
    else if r.deployedVersion.value != JString(r.envVersion.value) then Differ
    else Match
  }

  /** The `results` dict of `compare_versions`. */
  datatype Comparison = Comparison(
    differences: map<string, UnifiedRecord>,
    matches: map<string, UnifiedRecord>,
    envOnly: map<string, UnifiedRecord>,
    deployedOnly: map<string, UnifiedRecord>)
  {
    function Get(b: Bucket): map<string, UnifiedRecord> {
      match b
      case Differ => differences
      case Match => matches
      case OnlyInEnv => envOnly
      case OnlyDeployed => deployedOnly
    }
  }

  /** The records among the keys `done` of `unified` that fall into bucket `b`. */
  function BucketOf(unified: map<string, UnifiedRecord>, done: set<string>, b: Bucket): map<string, UnifiedRecord> {
    map k | k in done && k in unified && Classify(unified[k]) == b :: unified[k]
  }

  function Classified(unified: map<string, UnifiedRecord>): Comparison {
    var all := unified.Keys;
    Comparison(BucketOf(unified, all, Differ), BucketOf(unified, all, Match),
               BucketOf(unified, all, OnlyInEnv), BucketOf(unified, all, OnlyDeployed))
  }

  /** `has_differences`: some bucket other than the matches is non-empty. */
  function HasDifferences(c: Comparison): bool {
    |c.differences| > 0 || |c.envOnly| > 0 || |c.deployedOnly| > 0
  }

  /** What `compare_versions(deployed_versions, repo_versions)` returns. */
  function Compared(deployed: map<string, JsonValue>, repo: map<string, string>): Comparison {
    Classified(Unified(repo, deployed))
  }

  /** `compare_versions`: build the unified dict, then sort its records into the buckets. */
  method CompareVersions(deployedVersions: map<string, JsonValue>, repoVersions: map<string, string>)
    returns (results: Comparison, hasDifferences: bool)
    ensures results == Compared(deployedVersions, repoVersions)
    ensures hasDifferences == HasDifferences(results)
  {
    var unified := CreateUnifiedComparison(repoVersions, deployedVersions);
    results := ClassifyAll(unified);
    hasDifferences := |results.differences| > 0 || |results.envOnly| > 0 || |results.deployedOnly| > 0;
  }

  /** The loop over `unified.items()`. */
  method ClassifyAll(unified: map<string, UnifiedRecord>) returns (results: Comparison)
    ensures results == Classified(unified)
  {
    var differences, matches, envOnly, deployedOnly := map[], map[], map[], map[];
    var todo := unified.Keys;
    while todo != {}
      invariant todo <= unified.Keys
      invariant differences == BucketOf(unified, unified.Keys - todo, Differ)
      invariant matches == BucketOf(unified, unified.Keys - todo, Match)
      invariant envOnly == BucketOf(unified, unified.Keys - todo, OnlyInEnv)
      invariant deployedOnly == BucketOf(unified, unified.Keys - todo, OnlyDeployed)
      decreases |todo|
    {
      var service :| service in todo;
      var data := unified[service];
      ghost var done := unified.Keys - todo;
      BucketStep(unified, done, service);
      if data.envVersion.None? {
        deployedOnly := deployedOnly[service := data];
      } else if data.deployedVersion.None? {
        envOnly := envOnly[service := data];
      } else if data.deployedVersion.value != JString(data.envVersion.value) {
        differences := differences[service := data];
      } else {
        matches := matches[service := data];
      }
      todo := todo - {service};
      assert unified.Keys - todo == done + {service};
    }
    results := Comparison(differences, matches, envOnly, deployedOnly);
  }

  /** Classifying one more key adds it to its own bucket and leaves the others as they were. */
  lemma BucketStep(unified: map<string, UnifiedRecord>, done: set<string>, k: string)
    requires k in unified && k !in done
    ensures forall b :: BucketOf(unified, done + {k}, b) ==
              if Classify(unified[k]) == b then BucketOf(unified, done, b)[k := unified[k]] else BucketOf(unified, done, b)
  {
  }

  /**
   * The buckets partition the unified dict: every record lands, unchanged,
   * in the bucket its classification names and in no other.
   */
  lemma ClassifiedPartition(unified: map<string, UnifiedRecord>, k: string, b: Bucket)
    ensures k in Classified(unified).Get(b) <==> k in unified && Classify(unified[k]) == b
    ensures k in Classified(unified).Get(b) ==> Classified(unified).Get(b)[k] == unified[k]
  {
  }

  /** `has_differences` holds exactly when some record is not a match. */
  lemma HasDifferencesSpec(unified: map<string, UnifiedRecord>)
    ensures HasDifferences(Classified(unified)) <==> exists k :: k in unified && Classify(unified[k]) != Match
  {
    var c := Classified(unified);
    if exists k :: k in unified && Classify(unified[k]) != Match {
      var k :| k in unified && Classify(unified[k]) != Match;
      ClassifiedPartition(unified, k, Classify(unified[k]));
      assert k in c.Get(Classify(unified[k]));
    }
    if HasDifferences(c) {
      var b := if |c.differences| > 0 then Differ else if |c.envOnly| > 0 then OnlyInEnv else OnlyDeployed;
      NonEmptyHasKey(c.Get(b));
      var k :| k in c.Get(b);
      ClassifiedPartition(unified, k, b);
    }
  }

  /** A non-empty dict has a key. */
  lemma NonEmptyHasKey<V>(m: map<string, V>)
    requires |m| > 0
    ensures exists k :: k in m
  {
    assert |m.Keys| == |m|;
  }

  /**
   * How an `.env` service is bucketed: a match when its mapped deployed
   * service has the same version string, `.env`-only when it has no mapped
   * service or that service has no (non-null) deployed version, a
   * difference otherwise; never deployed-only.
   */
  lemma EnvServiceBucket(env: map<string, string>, deployed: map<string, JsonValue>, k: string)
    requires k in env && !DeployedOnlyKey(env, deployed, k)
    ensures var b := Classify(Unified(env, deployed)[k]);
            var d := MapEnvToDeployed(k);
            (b == Match <==> d.Some? && PyGet(deployed, d.value) == Some(JString(env[k])))
            && (b == OnlyInEnv <==> d.None? || PyGet(deployed, d.value).None?)
            && b != OnlyDeployed
  {
    UnifiedEnvEntry(env, deployed, k);
  }

  /** The deployed-only bucket holds exactly the `deployed_only_` keys of deployed services no `.env` key maps to. */
  lemma DeployedOnlyBucketKeys(env: map<string, string>, deployed: map<string, JsonValue>, key: string)
    ensures key in Compared(deployed, env).deployedOnly <==> DeployedOnlyKey(env, deployed, key)
  {
    var u := Unified(env, deployed);
    ClassifiedPartition(u, key, OnlyDeployed);
    NoEnvVersionKeys(env, deployed, key);
  }

  /** The unified records without a `.env` version are exactly the deployed-only ones. */
  lemma NoEnvVersionKeys(env: map<string, string>, deployed: map<string, JsonValue>, key: string)
    ensures key in Unified(env, deployed) && Unified(env, deployed)[key].envVersion.None? <==> DeployedOnlyKey(env, deployed, key)
  {
    if DeployedOnlyKey(env, deployed, key) {
      var d := key[|DeployedOnlyPrefix|..];
      assert key == DeployedOnlyPrefix + d;
      UnifiedDeployedOnlyEntry(env, deployed, d);
    } else if key in env {
      UnifiedEnvEntry(env, deployed, key);
    } else {
      UnifiedKeys(env, deployed, key);
    }
  }
}
