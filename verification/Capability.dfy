/** Node capabilities and the cluster-wide capability gate (capability.go). */
module Capability {
  import opened Common

  const LEGACY_PROTOCOL_VERSION: U32 := 1
  const LEGACY_COMMAND_VERSION: U32 := 1
  const LEGACY_MANIFEST_SCHEMA_VERSION: U32 := 1
  const LEGACY_DATASET_SCHEMA_VERSION: U32 := 1
  const CAPABILITY_LEVEL_MONOTONIC_SNAPSHOT_SEQUENCE: U32 := 3

  datatype VersionRange = VersionRange(min: U32, max: U32) {
    predicate Supports(version: U32) {
      min != 0 && min <= version <= max
    }
  }

  datatype NodeCapabilities = NodeCapabilities(
    level: U32,
    protocol: VersionRange,
    command: VersionRange,
    manifestSchema: VersionRange,
    datasetSchema: VersionRange)

  datatype CapabilityGate = CapabilityGate(
    protocolVersion: U32,
    commandVersion: U32,
    manifestSchemaVersion: U32,
    datasetSchemaVersions: map<string, U32>,
    minimumLeaderCapability: U32,
    minimumVoterCapability: U32)

  const LEGACY_GATE := CapabilityGate(
    LEGACY_PROTOCOL_VERSION, LEGACY_COMMAND_VERSION, LEGACY_MANIFEST_SCHEMA_VERSION,
    map["*" := LEGACY_DATASET_SCHEMA_VERSION], 1, 1)

  function OrLegacy(version: U32, legacy: U32): U32 {
    if version == 0 then legacy else version
  }

  function NormalizedVersions(versions: map<string, U32>): map<string, U32> {
    if |versions| == 0 then map["*" := LEGACY_DATASET_SCHEMA_VERSION]
    else map name | name in versions :: OrLegacy(versions[name], LEGACY_DATASET_SCHEMA_VERSION)
  }

  /** What normalization means: every zero stands for the legacy version. */
  function Normalized(gate: CapabilityGate): CapabilityGate {
    CapabilityGate(
      OrLegacy(gate.protocolVersion, LEGACY_PROTOCOL_VERSION),
      OrLegacy(gate.commandVersion, LEGACY_COMMAND_VERSION),
      OrLegacy(gate.manifestSchemaVersion, LEGACY_MANIFEST_SCHEMA_VERSION),
      NormalizedVersions(gate.datasetSchemaVersions),
      OrLegacy(gate.minimumLeaderCapability, 1),
      OrLegacy(gate.minimumVoterCapability, 1))
  }

  method NormalizeCapabilityGate(input: CapabilityGate) returns (gate: CapabilityGate)
    ensures gate == Normalized(input)
  {
    gate := input;
    if gate.protocolVersion == 0 { gate := gate.(protocolVersion := LEGACY_PROTOCOL_VERSION); }
    if gate.commandVersion == 0 { gate := gate.(commandVersion := LEGACY_COMMAND_VERSION); }
    if gate.manifestSchemaVersion == 0 { gate := gate.(manifestSchemaVersion := LEGACY_MANIFEST_SCHEMA_VERSION); }
    if gate.minimumLeaderCapability == 0 { gate := gate.(minimumLeaderCapability := 1); }
    if gate.minimumVoterCapability == 0 { gate := gate.(minimumVoterCapability := 1); }
    var versions := NormalizeVersions(gate.datasetSchemaVersions);
    gate := gate.(datasetSchemaVersions := versions);
  }

  method NormalizeVersions(versions: map<string, U32>) returns (copy: map<string, U32>)
    ensures copy == NormalizedVersions(versions)
  {
    if |versions| == 0 {
      return map["*" := LEGACY_DATASET_SCHEMA_VERSION];
    }
    copy := map[];
    var names := versions.Keys;
    while names != {}
      invariant names <= versions.Keys
      invariant copy.Keys == versions.Keys - names
      invariant forall name :: name in copy ==> copy[name] == OrLegacy(versions[name], LEGACY_DATASET_SCHEMA_VERSION)
      decreases names
    {
      var name :| name in names;
      names := names - {name};
      var version := versions[name];
      if version == 0 { version := LEGACY_DATASET_SCHEMA_VERSION; }
      copy := copy[name := version];
    }
  }

  /** Normalization is idempotent and leaves no zero anywhere, so `validateCapabilityGate`
      can only ever refuse an empty dataset name. */
  lemma NormalizedIsStable(gate: CapabilityGate)
    ensures Normalized(Normalized(gate)) == Normalized(gate)
    ensures ValidGate(Normalized(gate)) <==> "" !in gate.datasetSchemaVersions
    ensures forall name :: name in Normalized(gate).datasetSchemaVersions ==>
              Normalized(gate).datasetSchemaVersions[name] != 0
  {
    var versions := gate.datasetSchemaVersions;
    var once := NormalizedVersions(versions);
    if |versions| == 0 {
      assert versions == map[];
      assert NormalizedVersions(once) == once;
    } else {
      assert once.Keys == versions.Keys;
      assert |once.Keys| != 0;
      assert NormalizedVersions(once) == once;
    }
  }

  /** Normalization keeps every field that is set, and reads every field that is not as the legacy one; an
      empty dataset map is read as the legacy map. */
  lemma NormalizationKeepsWhatIsSet(gate: CapabilityGate)
    ensures var g := Normalized(gate);
            && g.protocolVersion in {gate.protocolVersion, LEGACY_GATE.protocolVersion}
            && g.commandVersion in {gate.commandVersion, LEGACY_GATE.commandVersion}
            && g.manifestSchemaVersion in {gate.manifestSchemaVersion, LEGACY_GATE.manifestSchemaVersion}
            && g.minimumLeaderCapability in {gate.minimumLeaderCapability, LEGACY_GATE.minimumLeaderCapability}
            && g.minimumVoterCapability in {gate.minimumVoterCapability, LEGACY_GATE.minimumVoterCapability}
            && (gate.protocolVersion != 0 ==> g.protocolVersion == gate.protocolVersion)
            && (gate.commandVersion != 0 ==> g.commandVersion == gate.commandVersion)
            && (gate.manifestSchemaVersion != 0 ==> g.manifestSchemaVersion == gate.manifestSchemaVersion)
            && (gate.minimumLeaderCapability != 0 ==> g.minimumLeaderCapability == gate.minimumLeaderCapability)
            && (gate.minimumVoterCapability != 0 ==> g.minimumVoterCapability == gate.minimumVoterCapability)
            && g.protocolVersion != 0 && g.commandVersion != 0 && g.manifestSchemaVersion != 0
            && g.minimumLeaderCapability != 0 && g.minimumVoterCapability != 0
    ensures var versions := Normalized(gate).datasetSchemaVersions;
            if gate.datasetSchemaVersions == map[] then versions == LEGACY_GATE.datasetSchemaVersions
            else
              && versions.Keys == gate.datasetSchemaVersions.Keys
              && forall name :: name in versions ==>
                   versions[name] == (var given := gate.datasetSchemaVersions[name]; if given != 0 then given else 1)
  {
    if gate.datasetSchemaVersions != map[] {
      assert |gate.datasetSchemaVersions.Keys| != 0;
    }
  }

  function DatasetSchemaVersion(gate: CapabilityGate, name: string): U32 {
    var versions := NormalizedVersions(gate.datasetSchemaVersions);
    if name in versions then versions[name]
    else if "*" in versions then versions["*"]
    else LEGACY_DATASET_SCHEMA_VERSION
  }

  /** The scan of `capabilityGatesEqual`: equal sizes plus one-sided lookups (an absent key
      reads as zero) decide equality of the normalized gates. */
  method CapabilityGatesEqual(left: CapabilityGate, right: CapabilityGate) returns (equal: bool)
    ensures equal <==> Normalized(left) == Normalized(right)
  {
    var l := NormalizeCapabilityGate(left);
    var r := NormalizeCapabilityGate(right);
    NormalizedIsStable(left);
    if l.protocolVersion != r.protocolVersion || l.commandVersion != r.commandVersion
       || l.manifestSchemaVersion != r.manifestSchemaVersion
       || l.minimumLeaderCapability != r.minimumLeaderCapability
       || l.minimumVoterCapability != r.minimumVoterCapability
       || |l.datasetSchemaVersions| != |r.datasetSchemaVersions| {
      return false;
    }
    var names := l.datasetSchemaVersions.Keys;
    while names != {}
      invariant names <= l.datasetSchemaVersions.Keys
      invariant forall name :: name in l.datasetSchemaVersions.Keys - names ==>
                  name in r.datasetSchemaVersions && r.datasetSchemaVersions[name] == l.datasetSchemaVersions[name]
      decreases names
    {
      var name :| name in names;
      names := names - {name};
      var found := if name in r.datasetSchemaVersions then r.datasetSchemaVersions[name] else 0;
      if found != l.datasetSchemaVersions[name] {
        return false;
      }
    }
    SubsetOfSameSize(l.datasetSchemaVersions.Keys, r.datasetSchemaVersions.Keys);
    assert l.datasetSchemaVersions == r.datasetSchemaVersions;
    return true;
  }

  lemma SubsetOfSameSize<T>(small: set<T>, large: set<T>)
    requires small <= large && |small| == |large|
    ensures small == large
  {
    assert |large - small| == |large| - |small|;
    assert large - small == {};
  }

  predicate SupportsGate(capabilities: NodeCapabilities, gate: CapabilityGate, leader: bool) {
    var g := Normalized(gate);
    && (if leader then g.minimumLeaderCapability else g.minimumVoterCapability) <= capabilities.level
    && capabilities.protocol.Supports(g.protocolVersion)
    && capabilities.command.Supports(g.commandVersion)
    && capabilities.manifestSchema.Supports(g.manifestSchemaVersion)
    && forall name :: name in g.datasetSchemaVersions ==>
         capabilities.datasetSchema.Supports(g.datasetSchemaVersions[name])
  }

  /** `validateCapabilityGate`. */
  predicate ValidGate(gate: CapabilityGate) {
    var g := Normalized(gate);
    && g.protocolVersion != 0 && g.commandVersion != 0 && g.manifestSchemaVersion != 0
    && g.minimumLeaderCapability != 0 && g.minimumVoterCapability != 0
    && forall name :: name in g.datasetSchemaVersions ==> name != "" && g.datasetSchemaVersions[name] != 0
  }

  predicate VersionIn(range: VersionRange, version: U32, legacy: U32) {
    var wanted := if version == 0 then legacy else version;
    range.min >= 1 && range.min <= wanted <= range.max
  }

  /** What supporting a gate takes, with every field read as it was given: the level that the role asks for
      and each version within its range, a missing level or version being 1; without any dataset, the
      legacy dataset schema. */
  lemma SupportIsExact(c: NodeCapabilities, gate: CapabilityGate, leader: bool)
    ensures SupportsGate(c, gate, leader) <==>
            && c.level >= 1
            && (leader ==> c.level >= gate.minimumLeaderCapability)
            && (!leader ==> c.level >= gate.minimumVoterCapability)
            && VersionIn(c.protocol, gate.protocolVersion, 1) && VersionIn(c.command, gate.commandVersion, 1)
            && VersionIn(c.manifestSchema, gate.manifestSchemaVersion, 1)
            && (gate.datasetSchemaVersions == map[] ==> VersionIn(c.datasetSchema, 1, 1))
            && (forall name :: name in gate.datasetSchemaVersions ==>
                  VersionIn(c.datasetSchema, gate.datasetSchemaVersions[name], 1))
  {
    var versions := gate.datasetSchemaVersions;
    var wanted := NormalizedVersions(versions);
    if versions == map[] {
      assert "*" in wanted;
    } else {
      assert |versions.Keys| != 0;
      assert forall name :: name in versions <==> name in wanted;
    }
  }
}
