/**
 * `ServiceMapper`: the static table between `.env` service names and
 * `version.json` service names, and the unified per-service comparison built
 * from one version map of each kind.
 */
module ServiceMapping {
  import opened Wrappers
  import opened Text
  import opened Json
  import Dicts

  /**
   * `SERVICE_NAME_MAPPING`: lower-case `.env` name to `version.json` name;
   * `None` marks a service known to have no deployed counterpart. The source
   * lists `stackgen_notifications` twice with the same value; it appears once.
   */
  const ServiceNameMapping: map<string, Option<string>> := map[
    "appcd" := Some("appcd"),
    "iacgen" := Some("iac-gen"),
    "appcdui" := Some("ui"),
    "stack_exporter" := Some("exporter"),
    "stackgen_vault" := Some("vault"),
    "integrations" := Some("integrations"),
    "backstage_adapter" := Some("backstage-adapter"),
    "infra_catalog_tracker" := Some("infra-catalog-tracker"),
    "deployment_manager" := Some("deployment-manager"),
    "stackgen_notifications" := Some("notifications"),
    "tf_module_service" := Some("tf-module-service"),
    "audit_manager" := Some("audit-manager"),
    "sgai_orchestration" := Some("sgai-orchestration"),
    "appcd_analyzer" := None,
    "appcdvira" := None,
    "llm_gateway" := None,
    "sgai_knowledge" := None,
    "sgai_control" := None,
    "community_infra_gen" := None,
    "stackgen_subagents" := None
  ]

  /** `map_env_to_deployed`: the deployed name of an `.env` service, or `None`. */
  function MapEnvToDeployed(envServiceName: string): (r: Option<string>)
    ensures r.None? <==> Lower(envServiceName) !in ServiceNameMapping || ServiceNameMapping[Lower(envServiceName)].None?
  {
    var key := Lower(envServiceName);
    var mapped := if key in ServiceNameMapping then ServiceNameMapping[key] else None;
    if mapped.None? then None
    else if mapped.value != "" then mapped
    else Some(key)
  }

  /** No table entry maps to the empty string, so the `or lower(name)` fallback never fires. */
  lemma NoEmptyTarget()
    ensures forall k :: k in ServiceNameMapping && ServiceNameMapping[k].Some? ==> ServiceNameMapping[k].value != ""
  {
  }

  /**
   * The lookup is the table lookup of the lower-cased name: `None` both for a
   * name the table does not list and for one listed with `None`, the listed
   * deployed name otherwise.
   */
  lemma MapEnvToDeployedIsTableLookup(name: string)
    ensures MapEnvToDeployed(name).None? <==>
              Lower(name) !in ServiceNameMapping || ServiceNameMapping[Lower(name)].None?
    ensures MapEnvToDeployed(name).Some? ==>
              MapEnvToDeployed(name) == ServiceNameMapping[Lower(name)] && MapEnvToDeployed(name).value != ""
  {
    NoEmptyTarget();
  }

  /** The lookup ignores the case of its argument. */
  lemma {:induction false} MapEnvToDeployedIgnoresCase(name: string)
    ensures MapEnvToDeployed(name) == MapEnvToDeployed(Lower(name))
  {
    LowerIdempotent(name);
  }

  /** One entry of the `unified` dict. */
  datatype UnifiedRecord = UnifiedRecord(
    envVersion: Option<string>,
    deployedVersion: Option<JsonValue>,
    envName: Option<string>,
    deployedName: Option<string>)

  /**
   * Python's `d.get(k)` on a version map decoded from JSON: `None` for a
   * missing key and also for a key whose value is JSON `null`.
   */
  function PyGet(m: map<string, JsonValue>, k: string): (r: Option<JsonValue>)
    ensures r.Some? ==> k in m && r.value == m[k] && r.value != JNull
    ensures r.None? ==> k !in m || m[k] == JNull
  {
    if k in m && m[k] != JNull then Some(m[k]) else None
  }

  /** A Python value read from a dict: JSON `null` reads as `None`. */
  function NoneIfNull(v: JsonValue): Option<JsonValue> {
    if v == JNull then None else Some(v)
  }

  /** The record written for one `.env` service (source lines 104-121). */
  function EnvRecord(envService: string, envVersion: string, deployed: map<string, JsonValue>): UnifiedRecord {
    match MapEnvToDeployed(envService)
    case None => UnifiedRecord(Some(envVersion), None, Some(envService), None)
    case Some(d) => UnifiedRecord(Some(envVersion), PyGet(deployed, d), Some(envService), Some(d))
  }

  /** The key prefix of records for deployed services nobody references. */
  const DeployedOnlyPrefix: string := "deployed_only_"

  /** The truthy deployed names of the `.env` keys in `keys`. */
  function ReferencedBy(keys: set<string>): set<string> {
    set k | k in keys && MapEnvToDeployed(k).Some? && MapEnvToDeployed(k).value != "" :: MapEnvToDeployed(k).value
  }

  /** `mapped_deployed_services`: the truthy deployed names of all `.env` keys. */
  function ReferencedNames(env: map<string, string>): set<string> {
    ReferencedBy(env.Keys)
  }

  /** The record written for a deployed service that no `.env` key references. */
  function DeployedOnlyRecord(deployedService: string, deployedVersion: JsonValue): UnifiedRecord {
    UnifiedRecord(None, NoneIfNull(deployedVersion), None, Some(deployedService))
  }

  lemma PrefixInjective(a: string, b: string)
    ensures DeployedOnlyPrefix + a == DeployedOnlyPrefix + b ==> a == b
  {
    assert a == (DeployedOnlyPrefix + a)[|DeployedOnlyPrefix|..];
    assert b == (DeployedOnlyPrefix + b)[|DeployedOnlyPrefix|..];
  }

  /** The `.env` records of the keys in `keys`. */
  function EnvRecords(env: map<string, string>, deployed: map<string, JsonValue>, keys: set<string>): map<string, UnifiedRecord>
    requires keys <= env.Keys
  {
    map k | k in keys :: EnvRecord(k, env[k], deployed)
  }

  /** The `deployed_only_` keys of the names in `names`. */
  function Prefixed(names: set<string>): set<string> {
    set d | d in names :: DeployedOnlyPrefix + d
  }

  /** The deployed name a `deployed_only_` key was made from. */
  lemma PrefixedName(d: string)
    ensures (DeployedOnlyPrefix + d)[|DeployedOnlyPrefix|..] == d
  {
  }

  /** The deployed-only records of the deployed keys in `keys` outside `refs`, keyed `deployed_only_<name>`. */
  function DeployedOnlyRecords(deployed: map<string, JsonValue>, keys: set<string>, refs: set<string>): map<string, UnifiedRecord>
    requires keys <= deployed.Keys
  {
    map key | key in Prefixed(keys) && |DeployedOnlyPrefix| <= |key|
              && key[|DeployedOnlyPrefix|..] in keys && key[|DeployedOnlyPrefix|..] !in refs
      :: DeployedOnlyRecord(key[|DeployedOnlyPrefix|..], deployed[key[|DeployedOnlyPrefix|..]])
  }

  /**
   * The dict `create_unified_comparison` returns: every `.env` record, then
   * every deployed-only record, a later write replacing an earlier one of the
   * same key.
   */
  function Unified(env: map<string, string>, deployed: map<string, JsonValue>): map<string, UnifiedRecord> {
    EnvRecords(env, deployed, env.Keys) + DeployedOnlyRecords(deployed, deployed.Keys, ReferencedNames(env))
  }

  lemma EnvRecordsStep(env: map<string, string>, deployed: map<string, JsonValue>, keys: set<string>, k: string)
    requires keys <= env.Keys && k in env
    ensures EnvRecords(env, deployed, keys)[k := EnvRecord(k, env[k], deployed)] == EnvRecords(env, deployed, keys + {k})
  {
  }

  lemma ReferencedByStep(keys: set<string>, k: string)
    ensures ReferencedBy(keys + {k}) ==
      if MapEnvToDeployed(k).Some? && MapEnvToDeployed(k).value != "" then ReferencedBy(keys) + {MapEnvToDeployed(k).value}
      else ReferencedBy(keys)
  {
  }

  lemma DeployedOnlyRecordsStep(deployed: map<string, JsonValue>, keys: set<string>, refs: set<string>, d: string)
    requires keys <= deployed.Keys && d in deployed
    ensures DeployedOnlyRecords(deployed, keys + {d}, refs) ==
      if d in refs then DeployedOnlyRecords(deployed, keys, refs)
      else DeployedOnlyRecords(deployed, keys, refs)[DeployedOnlyPrefix + d := DeployedOnlyRecord(d, deployed[d])]
  {
    PrefixedName(d);
    var before := DeployedOnlyRecords(deployed, keys, refs);
    var after := DeployedOnlyRecords(deployed, keys + {d}, refs);
    forall key | key in after ensures key in before || (d !in refs && key == DeployedOnlyPrefix + d) {
      var e :| e in keys + {d} && key == DeployedOnlyPrefix + e;
      PrefixedName(e);
    }
    forall key | key in before ensures key in after && after[key] == before[key] {
      var e :| e in keys && key == DeployedOnlyPrefix + e;
      PrefixedName(e);
    }
  }

  lemma DeployedOnlyRecordsEmpty(deployed: map<string, JsonValue>, refs: set<string>)
    ensures DeployedOnlyRecords(deployed, {}, refs) == map[]
  {
    assert Prefixed({}) == {};
  }

  /** The first loop of `create_unified_comparison`: one record per `.env` service. */
  method EnvServiceRecords(envVersions: map<string, string>, deployedVersions: map<string, JsonValue>)
    returns (unified: map<string, UnifiedRecord>)
    ensures unified == EnvRecords(envVersions, deployedVersions, envVersions.Keys)
  {
    unified := map[];
    var done: set<string> := {};
    while done != envVersions.Keys
      invariant done <= envVersions.Keys
      invariant unified == EnvRecords(envVersions, deployedVersions, done)
      decreases |envVersions.Keys - done|
    {
      var envService :| envService in envVersions.Keys - done;
      var envVersion := envVersions[envService];
      var deployedService := MapEnvToDeployed(envService);
      EnvRecordsStep(envVersions, deployedVersions, done, envService);
      var record;
      if deployedService.None? {
        record := UnifiedRecord(Some(envVersion), None, Some(envService), None);
      } else {
        var deployedVersion := PyGet(deployedVersions, deployedService.value);
        record := UnifiedRecord(Some(envVersion), deployedVersion, Some(envService), deployedService);
      }
      assert record == EnvRecord(envService, envVersion, deployedVersions);
      unified := unified[envService := record];
      done := done + {envService};
    }
  }

  /** The second loop of `create_unified_comparison`: `mapped_deployed_services`. */
  method MappedDeployedServices(envVersions: map<string, string>) returns (mapped: set<string>)
    ensures mapped == ReferencedNames(envVersions)
  {
    mapped := {};
    var done: set<string> := {};
    while done != envVersions.Keys
      invariant done <= envVersions.Keys
      invariant mapped == ReferencedBy(done)
      decreases |envVersions.Keys - done|
    {
      var envService :| envService in envVersions.Keys - done;
      var deployedService := MapEnvToDeployed(envService);
      ReferencedByStep(done, envService);
      if deployedService.Some? && deployedService.value != "" {
        mapped := mapped + {deployedService.value};
      }
      done := done + {envService};
    }
  }

  /**
   * The third loop of `create_unified_comparison`: a `deployed_only_` record,
   * written over `unified`, for every deployed service outside `mapped`.
   */
  method AddDeployedOnlyRecords(envPart: map<string, UnifiedRecord>, deployedVersions: map<string, JsonValue>, mapped: set<string>)
    returns (unified: map<string, UnifiedRecord>)
    ensures unified == envPart + DeployedOnlyRecords(deployedVersions, deployedVersions.Keys, mapped)
  {
    unified := envPart;
    ghost var deployedOnly: map<string, UnifiedRecord> := map[];
    var seen: set<string> := {};
    DeployedOnlyRecordsEmpty(deployedVersions, mapped);
    while seen != deployedVersions.Keys
      invariant seen <= deployedVersions.Keys
      invariant deployedOnly == DeployedOnlyRecords(deployedVersions, seen, mapped)
      invariant unified == envPart + deployedOnly
      decreases |deployedVersions.Keys - seen|
    {
      var deployedService :| deployedService in deployedVersions.Keys - seen;
      DeployedOnlyRecordsStep(deployedVersions, seen, mapped, deployedService);
      if deployedService !in mapped {
        var key := DeployedOnlyPrefix + deployedService;
        var record := UnifiedRecord(None, NoneIfNull(deployedVersions[deployedService]), None, Some(deployedService));
        Dicts.UnionUpdate(envPart, deployedOnly, key, record);
        deployedOnly := deployedOnly[key := record];
        unified := unified[key := record];
      }
      seen := seen + {deployedService};
    }
  }

  /** `create_unified_comparison`: the three loops in order. */
  method CreateUnifiedComparison(envVersions: map<string, string>, deployedVersions: map<string, JsonValue>)
    returns (unified: map<string, UnifiedRecord>)
    ensures unified == Unified(envVersions, deployedVersions)
  {
    unified := EnvServiceRecords(envVersions, deployedVersions);
    var mapped := MappedDeployedServices(envVersions);
    unified := AddDeployedOnlyRecords(unified, deployedVersions, mapped);
  }

  /** The referenced set holds exactly the deployed names some `.env` key maps to. */
  lemma ReferencedNamesSpec(env: map<string, string>, name: string)
    ensures name in ReferencedNames(env) <==> exists k :: k in env && MapEnvToDeployed(k) == Some(name)
  {
    if exists k :: k in env && MapEnvToDeployed(k) == Some(name) {
      var k :| k in env && MapEnvToDeployed(k) == Some(name);
      MapEnvToDeployedIsTableLookup(k);
    }
  }

  /** `d` gets a `deployed_only_` record: it is deployed and no `.env` key maps to it. */
  predicate DeployedOnly(env: map<string, string>, deployed: map<string, JsonValue>, d: string) {
    d in deployed && d !in ReferencedNames(env)
  }

  /** `key` is the `deployed_only_` key of a deployed-only service. */
  predicate DeployedOnlyKey(env: map<string, string>, deployed: map<string, JsonValue>, key: string) {
    StartsWith(key, DeployedOnlyPrefix) && DeployedOnly(env, deployed, key[|DeployedOnlyPrefix|..])
  }

  lemma DeployedOnlyRecordsAt(deployed: map<string, JsonValue>, refs: set<string>, key: string)
    ensures key in DeployedOnlyRecords(deployed, deployed.Keys, refs) <==>
              StartsWith(key, DeployedOnlyPrefix) && key[|DeployedOnlyPrefix|..] in deployed && key[|DeployedOnlyPrefix|..] !in refs
  {
    if StartsWith(key, DeployedOnlyPrefix) {
      var d := key[|DeployedOnlyPrefix|..];
      assert key == DeployedOnlyPrefix + d;
      if d in deployed {
        assert key in Prefixed(deployed.Keys);
      }
    }
  }

  /** The keys of the unified dict: every `.env` key and every `deployed_only_` key, nothing else. */
  lemma UnifiedKeys(env: map<string, string>, deployed: map<string, JsonValue>, key: string)
    ensures key in Unified(env, deployed) <==> key in env || DeployedOnlyKey(env, deployed, key)
  {
    DeployedOnlyRecordsAt(deployed, ReferencedNames(env), key);
  }

  /**
   * Each `.env` key keeps its own record, carrying its version and name and
   * the mapped deployed name and version, unless it is itself the
   * `deployed_only_` key of a deployed-only service, which is written later.
   */
  lemma UnifiedEnvEntry(env: map<string, string>, deployed: map<string, JsonValue>, k: string)
    requires k in env && !DeployedOnlyKey(env, deployed, k)
    ensures k in Unified(env, deployed)
    ensures Unified(env, deployed)[k].envVersion == Some(env[k])
    ensures Unified(env, deployed)[k].envName == Some(k)
    ensures Unified(env, deployed)[k].deployedName == MapEnvToDeployed(k)
    ensures MapEnvToDeployed(k).None? ==> Unified(env, deployed)[k].deployedVersion.None?
    ensures MapEnvToDeployed(k).Some? ==>
              Unified(env, deployed)[k].deployedVersion == PyGet(deployed, MapEnvToDeployed(k).value)
  {
    DeployedOnlyRecordsAt(deployed, ReferencedNames(env), k);
  }

  /**
   * Each deployed-only service has one record, keyed `deployed_only_<name>`,
   * with no `.env` side.
   */
  lemma UnifiedDeployedOnlyEntry(env: map<string, string>, deployed: map<string, JsonValue>, d: string)
    requires DeployedOnly(env, deployed, d)
    ensures DeployedOnlyPrefix + d in Unified(env, deployed)
    ensures Unified(env, deployed)[DeployedOnlyPrefix + d] == UnifiedRecord(None, NoneIfNull(deployed[d]), None, Some(d))
  {
    var key := DeployedOnlyPrefix + d;
    PrefixedName(d);
    DeployedOnlyRecordsAt(deployed, ReferencedNames(env), key);
  }

  /**
   * A referenced deployed service gets no `deployed_only_` record: its key is
   * absent unless an `.env` key happens to spell it.
   */
  lemma UnifiedReferencedHasNoDeployedOnly(env: map<string, string>, deployed: map<string, JsonValue>, d: string)
    requires d in ReferencedNames(env)
    ensures DeployedOnlyPrefix + d in Unified(env, deployed) <==> DeployedOnlyPrefix + d in env
  {
    PrefixedName(d);
    UnifiedKeys(env, deployed, DeployedOnlyPrefix + d);
  }

  /** The shape every unified record has. */
  predicate WellFormedRecord(r: UnifiedRecord) {
    (r.envVersion.Some? <==> r.envName.Some?)
    && (r.envName.Some? || r.deployedName.Some?)
    && (r.deployedName.None? ==> r.deployedVersion.None?)
  }

  lemma UnifiedWellFormed(env: map<string, string>, deployed: map<string, JsonValue>, key: string)
    requires key in Unified(env, deployed)
    ensures WellFormedRecord(Unified(env, deployed)[key])
    ensures Unified(env, deployed)[key].envName.Some? ==> Unified(env, deployed)[key].envName == Some(key)
  {
    DeployedOnlyRecordsAt(deployed, ReferencedNames(env), key);
  }
}
