/** Snapshot manifests: shape validation, hashing, the sequence rule and the gate check (snapshot.go). */
module Snapshots {
  import opened Common
  import opened Capability

  const HASH_PREFIX_SHA256 := "sha256:"
  const SHA256_HEX_LENGTH := 64

  datatype Generation = Generation(clusterId: string, leaderEpoch: U64, sequence: U64, manifestHash: string)

  datatype DatasetShardRef = DatasetShardRef(key: string, blobHash: string, recordCount: I64, uncompressedBytes: I64)

  datatype DatasetRef = DatasetRef(
    name: string,
    schemaVersion: U32,
    scope: string,
    blobHash: string,
    encoding: string,
    recordCount: I64,
    collectedAt: int,
    sourceSuccess: bool,
    sourceError: string,
    previousBlobHash: string,
    required: bool,
    stale: bool,
    uncompressedBytes: I64,
    shards: seq<DatasetShardRef>)

  datatype Manifest = Manifest(
    schemaVersion: U32,
    generation: Generation,
    voterConfigurationIndex: U64,
    createdAt: int,
    datasets: map<string, DatasetRef>)

  // ---------------------------------------------------------------- hashes

  predicate IsHex(text: string) {
    forall i :: 0 <= i < |text| ==>
      '0' <= text[i] <= '9' || 'a' <= text[i] <= 'f' || 'A' <= text[i] <= 'F'
  }

  predicate IsLowerHex(text: string) {
    forall i :: 0 <= i < |text| ==> '0' <= text[i] <= '9' || 'a' <= text[i] <= 'f'
  }

  /** `normalizeSHA256Hash`: the prefix is optional and the case of the digits is kept. */
  function NormalizeHash(hash: string): Option<string> {
    var hex := if HASH_PREFIX_SHA256 <= hash then hash[|HASH_PREFIX_SHA256|..] else hash;
    if |hex| == SHA256_HEX_LENGTH && IsHex(hex) then Some(hex) else None
  }

  /** The only spelling that `hashString` produces for the digest `hex`. */
  function Canonical(hex: string): string {
    HASH_PREFIX_SHA256 + hex
  }

  function WithoutHash(manifest: Manifest): Manifest {
    manifest.(generation := manifest.generation.(manifestHash := ""))
  }

  /** `ComputeManifestHash`; `sum` is SHA-256 over the JSON text of a manifest, which may fail to encode. */
  function ComputeManifestHash(sum: Manifest -> Option<string>, manifest: Manifest): Option<string> {
    match sum(WithoutHash(manifest))
    case None => None
    case Some(hex) => Some(HASH_PREFIX_SHA256 + hex)
  }

  /** Two different manifests with one SHA-256 sum, apart from the hashes they embed. */
  predicate Collide(sum: Manifest -> Option<string>, a: Manifest, b: Manifest) {
    && WithoutHash(a) != WithoutHash(b)
    && sum(WithoutHash(a)).Some? && sum(WithoutHash(a)) == sum(WithoutHash(b))
  }

  /** A manifest that embeds its own hash is determined by that hash, unless SHA-256 collides. */
  lemma HashDeterminesManifest(sum: Manifest -> Option<string>, a: Manifest, b: Manifest, hash: string)
    requires ComputeManifestHash(sum, a) == ComputeManifestHash(sum, b) == Some(hash)
    requires a.generation.manifestHash == hash == b.generation.manifestHash
    ensures a == b || Collide(sum, a, b)
  {
    var x, y := sum(WithoutHash(a)).value, sum(WithoutHash(b)).value;
    assert x == (HASH_PREFIX_SHA256 + x)[|HASH_PREFIX_SHA256|..];
    assert y == (HASH_PREFIX_SHA256 + y)[|HASH_PREFIX_SHA256|..];
  }

  // ------------------------------------------------- sequence and gate rules

  /** `validateNextSnapshotSequence`; `previous` is the sequence of the active manifest, if any. */
  predicate IsNextSequence(previous: Option<U64>, sequence: U64) {
    match previous
    case None => sequence == 1
    case Some(last) => last != MAX_U64 && sequence == last + 1
  }

  /** `validateManifestCapability`. */
  predicate AdmittedByGate(manifest: Manifest, gate: CapabilityGate) {
    && OrLegacy(manifest.schemaVersion, LEGACY_MANIFEST_SCHEMA_VERSION) == Normalized(gate).manifestSchemaVersion
    && forall name :: name in manifest.datasets ==>
         OrLegacy(manifest.datasets[name].schemaVersion, LEGACY_DATASET_SCHEMA_VERSION)
         == DatasetSchemaVersion(gate, name)
  }

  /** Which manifests a gate admits: those of its schema, each of whose datasets has the version the gate
      gives that dataset, or else every dataset, or else the legacy one. A missing version is 1. */
  lemma AdmissionIsExact(manifest: Manifest, gate: CapabilityGate)
    ensures AdmittedByGate(manifest, gate) <==>
            && SameVersion(manifest.schemaVersion, gate.manifestSchemaVersion)
            && forall name :: name in manifest.datasets ==>
                 var version, versions := manifest.datasets[name].schemaVersion, gate.datasetSchemaVersions;
                 && (name in versions ==> SameVersion(version, versions[name]))
                 && (name !in versions && "*" in versions ==> SameVersion(version, versions["*"]))
                 && (name !in versions && "*" !in versions ==> SameVersion(version, 1))
  {
    var versions := gate.datasetSchemaVersions;
    if versions != map[] {
      assert |versions.Keys| != 0;
    }
    forall name
      ensures name in versions ==> SameVersion(DatasetSchemaVersion(gate, name), versions[name])
      ensures name !in versions && "*" in versions ==> SameVersion(DatasetSchemaVersion(gate, name), versions["*"])
      ensures name !in versions && "*" !in versions ==> SameVersion(DatasetSchemaVersion(gate, name), 1)
      ensures DatasetSchemaVersion(gate, name) != 0
    {
    }
    hide DatasetSchemaVersion;
  }

  predicate SameVersion(a: U32, b: U32) {
    (if a == 0 then 1 else a) == (if b == 0 then 1 else b)
  }

  /** Every schema version that a manifest uses lies in the node's ranges. */
  predicate InRange(manifest: Manifest, capabilities: NodeCapabilities) {
    && capabilities.manifestSchema.Supports(OrLegacy(manifest.schemaVersion, LEGACY_MANIFEST_SCHEMA_VERSION))
    && forall name :: name in manifest.datasets ==>
         capabilities.datasetSchema.Supports(
           OrLegacy(manifest.datasets[name].schemaVersion, LEGACY_DATASET_SCHEMA_VERSION))
  }

  /** A node that supports the gate can read every manifest the gate admits exactly when the gate
      has a default entry or the node reads the legacy dataset schema: without either, a dataset
      the gate does not name falls back to a version nobody checked. */
  lemma AdmittedManifestsAreReadable(gate: CapabilityGate, capabilities: NodeCapabilities)
    requires SupportsGate(capabilities, gate, false)
    ensures (forall manifest :: AdmittedByGate(manifest, gate) ==> InRange(manifest, capabilities))
            <==> ("*" in Normalized(gate).datasetSchemaVersions
                  || capabilities.datasetSchema.Supports(LEGACY_DATASET_SCHEMA_VERSION))
  {
    var versions := Normalized(gate).datasetSchemaVersions;
    if "*" in versions || capabilities.datasetSchema.Supports(LEGACY_DATASET_SCHEMA_VERSION) {
      forall manifest | AdmittedByGate(manifest, gate) ensures InRange(manifest, capabilities) {
        forall name | name in manifest.datasets
          ensures capabilities.datasetSchema.Supports(DatasetSchemaVersion(gate, name))
        {
          assert name in versions || name !in versions;
        }
      }
    } else {
      var name := FreshName(versions.Keys);
      var dataset := DatasetRef(name, 0, "", "", "", 0, 0, true, "", "", false, false, 0, []);
      var manifest :=
        Manifest(Normalized(gate).manifestSchemaVersion, Generation("", 0, 0, ""), 0, 0, map[name := dataset]);
      assert AdmittedByGate(manifest, gate);
      assert name in manifest.datasets && manifest.datasets[name].schemaVersion == 0;
      assert !InRange(manifest, capabilities);
    }
  }

  /** Some name is outside any finite set of names. */
  lemma FreshName(names: set<string>) returns (unused: string)
    ensures unused !in names
  {
    unused := "a";
    var shorter := names;
    while shorter != {}
      invariant forall name :: name in names - shorter ==> |name| < |unused|
      decreases shorter
    {
      var name :| name in shorter;
      shorter := shorter - {name};
      if |name| >= |unused| {
        unused := name + "a";
      }
    }
  }

  // --------------------------------------------------------- shape validation

  function RecordTotal(shards: seq<DatasetShardRef>): int {
    if shards == [] then 0 else RecordTotal(shards[..|shards| - 1]) + shards[|shards| - 1].recordCount
  }

  function ByteTotal(shards: seq<DatasetShardRef>): int {
    if shards == [] then 0 else ByteTotal(shards[..|shards| - 1]) + shards[|shards| - 1].uncompressedBytes
  }

  predicate WellFormedShard(shard: DatasetShardRef) {
    && shard.key != ""
    && NormalizeHash(shard.blobHash).Some?
    && shard.recordCount >= 0 && shard.uncompressedBytes >= 0
  }

  predicate WellFormedShards(shards: seq<DatasetShardRef>) {
    && (forall i :: 0 <= i < |shards| ==> WellFormedShard(shards[i]))
    && (forall i, j :: 0 <= i < j < |shards| ==> shards[i].key != shards[j].key)
  }

  /** The storage shape of one dataset. The declared totals match the shard totals as `int64`
      arithmetic sees them. */
  predicate ValidDataset(name: string, dataset: DatasetRef) {
    && name != "" && dataset.name == name
    && dataset.recordCount >= 0 && dataset.uncompressedBytes >= 0
    && (dataset.previousBlobHash != "" ==> NormalizeHash(dataset.previousBlobHash).Some?)
    && (dataset.blobHash != "" <==> dataset.shards == [])
    && (dataset.blobHash != "" ==> NormalizeHash(dataset.blobHash).Some?)
    && (dataset.shards != [] ==>
          && WellFormedShards(dataset.shards)
          && Wrap64(RecordTotal(dataset.shards)) == dataset.recordCount
          && Wrap64(ByteTotal(dataset.shards)) == dataset.uncompressedBytes)
  }

  predicate ValidManifest(manifest: Manifest) {
    forall name :: name in manifest.datasets ==> ValidDataset(name, manifest.datasets[name])
  }

  /** Wrapping after every addition is wrapping once at the end. */
  lemma WrapStep(total: int, count: I64, next: int)
    requires next == total + count
    ensures Wrap64(Wrap64(total) + count) == Wrap64(next)
  {
    var shifted := total + TWO_63;
    assert shifted == shifted / TWO_64 * TWO_64 + shifted % TWO_64;
    assert Wrap64(total) + count + TWO_63 == (shifted + count) - shifted / TWO_64 * TWO_64;
    ModuloShift(shifted + count, shifted / TWO_64);
  }

  lemma ModuloShift(x: int, k: int)
    ensures (x - k * TWO_64) % TWO_64 == x % TWO_64
  {
    var q := x / TWO_64;
    assert x - k * TWO_64 == (q - k) * TWO_64 + x % TWO_64;
    EuclideanRemainder(x - k * TWO_64, q - k, x % TWO_64);
  }

  lemma EuclideanRemainder(x: int, q: int, r: int)
    requires x == q * TWO_64 + r && 0 <= r < TWO_64
    ensures x % TWO_64 == r
  {
  }

  /** `sum += count` on an `int64` that holds the wrapped value of `total`. */
  method AddWrapping(sum: I64, count: I64, ghost total: int, ghost next: int) returns (result: I64)
    requires sum == Wrap64(total) && next == total + count
    ensures result == Wrap64(next)
  {
    WrapStep(total, count, next);
    result := Wrap64(sum + count);
  }

  function ShardKeys(shards: seq<DatasetShardRef>): set<string> {
    set shard | shard in shards :: shard.key
  }

  lemma ShardPrefixTotals(shards: seq<DatasetShardRef>, index: nat)
    requires index < |shards|
    ensures RecordTotal(shards[..index + 1]) == RecordTotal(shards[..index]) + shards[index].recordCount
    ensures ByteTotal(shards[..index + 1]) == ByteTotal(shards[..index]) + shards[index].uncompressedBytes
  {
    assert shards[..index + 1][..index] == shards[..index];
  }

  lemma ShardPrefixStep(shards: seq<DatasetShardRef>, index: nat)
    requires index < |shards|
    ensures ShardKeys(shards[..index + 1]) == ShardKeys(shards[..index]) + {shards[index].key}
    ensures WellFormedShards(shards[..index + 1]) <==>
              && WellFormedShards(shards[..index])
              && WellFormedShard(shards[index])
              && shards[index].key !in ShardKeys(shards[..index])
  {
    hide WellFormedShard;
    var before, after := shards[..index], shards[..index + 1];
    assert after == before + [shards[index]];
    assert forall shard :: shard in after <==> shard in before || shard == shards[index];
    if WellFormedShards(after) {
      forall i, j | 0 <= i < j < |before| ensures before[i].key != before[j].key {
        assert before[i] == after[i] && before[j] == after[j];
      }
      forall i | 0 <= i < |before| ensures WellFormedShard(before[i]) && before[i].key != shards[index].key {
        assert before[i] == after[i] && after[index] == shards[index];
      }
    }
  }

  lemma IllFormedPrefix(shards: seq<DatasetShardRef>, index: nat)
    requires index <= |shards| && !WellFormedShards(shards[..index])
    ensures !WellFormedShards(shards)
  {
  }

  /** The shard loop of `ValidateManifest`: `seen`, `records` and `uncompressedBytes` run along the list. */
  method ValidateShards(dataset: DatasetRef) returns (accepted: bool)
    ensures accepted <==>
              && WellFormedShards(dataset.shards)
              && Wrap64(RecordTotal(dataset.shards)) == dataset.recordCount
              && Wrap64(ByteTotal(dataset.shards)) == dataset.uncompressedBytes
  {
    var shards := dataset.shards;
    var seen: set<string> := {};
    var records: I64, uncompressedBytes: I64 := 0, 0;
    for index := 0 to |shards|
      invariant WellFormedShards(shards[..index])
      invariant seen == ShardKeys(shards[..index])
      invariant records == Wrap64(RecordTotal(shards[..index]))
      invariant uncompressedBytes == Wrap64(ByteTotal(shards[..index]))
    {
      var shard := shards[index];
      ShardPrefixStep(shards, index);
      ShardPrefixTotals(shards, index);
      if shard.key == "" || shard.key in seen || NormalizeHash(shard.blobHash).None?
         || shard.recordCount < 0 || shard.uncompressedBytes < 0 {
        IllFormedPrefix(shards, index + 1);
        return false;
      }
      seen := seen + {shard.key};
      records :=
        AddWrapping(records, shard.recordCount, RecordTotal(shards[..index]), RecordTotal(shards[..index + 1]));
      uncompressedBytes := AddWrapping(
        uncompressedBytes, shard.uncompressedBytes, ByteTotal(shards[..index]), ByteTotal(shards[..index + 1]));
    }
    assert shards[..|shards|] == shards;
    accepted := records == dataset.recordCount && uncompressedBytes == dataset.uncompressedBytes;
  }

  method ValidateManifest(manifest: Manifest) returns (accepted: bool)
    ensures accepted <==> ValidManifest(manifest)
  {
    var names := manifest.datasets.Keys;
    while names != {}
      invariant names <= manifest.datasets.Keys
      invariant forall name :: name in manifest.datasets.Keys - names ==> ValidDataset(name, manifest.datasets[name])
      decreases names
    {
      var name :| name in names;
      names := names - {name};
      var dataset := manifest.datasets[name];
      if name == "" || dataset.name != name || dataset.recordCount < 0 || dataset.uncompressedBytes < 0 {
        return false;
      }
      if dataset.previousBlobHash != "" && NormalizeHash(dataset.previousBlobHash).None? {
        return false;
      }
      var hasBlob, hasShards := dataset.blobHash != "", |dataset.shards| > 0;
      if hasBlob == hasShards {
        return false;
      }
      if hasBlob {
        if NormalizeHash(dataset.blobHash).None? {
          return false;
        }
        continue;
      }
      var shardsAccepted := ValidateShards(dataset);
      if !shardsAccepted {
        return false;
      }
    }
    return true;
  }

  lemma TotalsAreNonNegative(shards: seq<DatasetShardRef>)
    requires WellFormedShards(shards)
    ensures RecordTotal(shards) >= 0 && ByteTotal(shards) >= 0
  {
    if shards != [] {
      TotalsAreNonNegative(shards[..|shards| - 1]);
    }
  }

  /** In an accepted sharded dataset the declared totals agree with the shards modulo 2^64, and they
      are the true totals exactly when the true totals stay below 2^63. */
  lemma AcceptedTotals(name: string, dataset: DatasetRef)
    requires ValidDataset(name, dataset) && dataset.shards != []
    ensures (RecordTotal(dataset.shards) - dataset.recordCount) % TWO_64 == 0
    ensures (ByteTotal(dataset.shards) - dataset.uncompressedBytes) % TWO_64 == 0
    ensures RecordTotal(dataset.shards) == dataset.recordCount <==> RecordTotal(dataset.shards) < TWO_63
    ensures ByteTotal(dataset.shards) == dataset.uncompressedBytes <==> ByteTotal(dataset.shards) < TWO_63
  {
    TotalsAreNonNegative(dataset.shards);
    WrapIsCongruent(RecordTotal(dataset.shards));
    WrapIsCongruent(ByteTotal(dataset.shards));
  }

  lemma WrapIsCongruent(x: int)
    ensures (x - Wrap64(x)) % TWO_64 == 0
    ensures 0 <= x < TWO_63 ==> Wrap64(x) == x
  {
    var shifted := x + TWO_63;
    assert x - Wrap64(x) == shifted / TWO_64 * TWO_64;
    EuclideanRemainder(x - Wrap64(x), shifted / TWO_64, 0);
  }

  /** Three shards whose counts add up to 2^64 are accepted under a declared total of zero. */
  lemma WrappedTotalsAreAccepted()
    ensures exists dataset: DatasetRef ::
              ValidDataset("d", dataset) && dataset.shards != [] && RecordTotal(dataset.shards) != dataset.recordCount
  {
    var hex := seq(64, i => 'a');
    var a := DatasetShardRef("a", hex, 0x7FFF_FFFF_FFFF_FFFF, 0);
    var b := DatasetShardRef("b", hex, 0x7FFF_FFFF_FFFF_FFFF, 0);
    var c := DatasetShardRef("c", hex, 2, 0);
    var dataset := DatasetRef("d", 0, "", "", "", 0, 0, true, "", "", false, false, 0, [a, b, c]);
    assert hex[0] == 'a' && !(HASH_PREFIX_SHA256 <= hex);
    assert NormalizeHash(hex) == Some(hex);
    assert [a, b, c][..2] == [a, b] && [a, b][..1] == [a] && [a][..0] == [];
    assert RecordTotal([]) == 0 && ByteTotal([]) == 0;
    assert RecordTotal([a]) == a.recordCount && ByteTotal([a]) == 0;
    assert RecordTotal([a, b]) == a.recordCount + b.recordCount && ByteTotal([a, b]) == 0;
    assert RecordTotal([a, b, c]) == TWO_64 && ByteTotal([a, b, c]) == 0;
    assert ValidDataset("d", dataset);
  }

  // ------------------------------------------------------- blobs of a dataset

  function NonEmptyShardHashes(shards: seq<DatasetShardRef>): seq<string> {
    if shards == [] then []
    else
      var last := shards[|shards| - 1].blobHash;
      NonEmptyShardHashes(shards[..|shards| - 1]) + (if last != "" then [last] else [])
  }

  function BlobHashes(dataset: DatasetRef): seq<string> {
    if |dataset.shards| > 0 then NonEmptyShardHashes(dataset.shards)
    else if dataset.blobHash == "" then []
    else [dataset.blobHash]
  }

  method DatasetBlobHashes(dataset: DatasetRef) returns (hashes: seq<string>)
    ensures hashes == BlobHashes(dataset)
  {
    if |dataset.shards| > 0 {
      hashes := [];
      for index := 0 to |dataset.shards|
        invariant hashes == NonEmptyShardHashes(dataset.shards[..index])
      {
        assert dataset.shards[..index + 1][..index] == dataset.shards[..index];
        if dataset.shards[index].blobHash != "" {
          hashes := hashes + [dataset.shards[index].blobHash];
        }
      }
      assert dataset.shards[..|dataset.shards|] == dataset.shards;
      return;
    }
    if dataset.blobHash == "" {
      return [];
    }
    return [dataset.blobHash];
  }

  lemma {:induction false} NoShardHashDropped(shards: seq<DatasetShardRef>)
    requires WellFormedShards(shards)
    ensures |NonEmptyShardHashes(shards)| == |shards|
    ensures forall i :: 0 <= i < |shards| ==> NonEmptyShardHashes(shards)[i] == shards[i].blobHash
  {
    if shards != [] {
      assert shards[|shards| - 1].blobHash != "";
      NoShardHashDropped(shards[..|shards| - 1]);
    }
  }

  /** An accepted dataset lists exactly the hashes of the form it chose: the single blob, or one
      hash per shard in shard order with none dropped. */
  lemma AcceptedBlobHashes(name: string, dataset: DatasetRef)
    requires ValidDataset(name, dataset)
    ensures BlobHashes(dataset) ==
            if dataset.shards == [] then [dataset.blobHash]
            else seq(|dataset.shards|, i requires 0 <= i < |dataset.shards| => dataset.shards[i].blobHash)
    ensures forall hash :: hash in BlobHashes(dataset) ==> NormalizeHash(hash).Some?
  {
    if dataset.shards != [] {
      NoShardHashDropped(dataset.shards);
    }
  }

  function FirstShard(shards: seq<DatasetShardRef>, key: string): Option<DatasetShardRef> {
    if shards == [] then None else if shards[0].key == key then Some(shards[0]) else FirstShard(shards[1..], key)
  }

  /** The lookup loop of `OpenSnapshotDatasetShardAt`: the first shard with the key. When shard keys
      are distinct, as acceptance guarantees, it is the only one. */
  method FindShard(shards: seq<DatasetShardRef>, key: string) returns (found: Option<DatasetShardRef>)
    ensures found == FirstShard(shards, key)
    ensures found.None? <==> forall i :: 0 <= i < |shards| ==> shards[i].key != key
    ensures found.Some? ==> found.value in shards && found.value.key == key
    ensures WellFormedShards(shards) && found.Some? ==>
              forall shard :: shard in shards && shard.key == key ==> shard == found.value
  {
    for index := 0 to |shards|
      invariant forall i :: 0 <= i < index ==> shards[i].key != key
      invariant FirstShard(shards, key) == FirstShard(shards[index..], key)
    {
      assert shards[index..][1..] == shards[index + 1..];
      if shards[index].key == key {
        return Some(shards[index]);
      }
    }
    return None;
  }

  // ---------------------------------------------------------- what is accepted

  predicate IsHexDigit(c: char) {
    '0' <= c <= '9' || 'a' <= c <= 'f' || 'A' <= c <= 'F'
  }

  /** A hash is 64 hexadecimal digits of either case, alone or after the prefix. */
  lemma HashFormIsExact(hash: string, hex: string)
    ensures NormalizeHash(hash) == Some(hex) <==>
            && |hex| == 64 && (forall i :: 0 <= i < |hex| ==> IsHexDigit(hex[i]))
            && (hash == hex || hash == "sha256:" + hex)
  {
    if HASH_PREFIX_SHA256 <= hash {
      assert hash == HASH_PREFIX_SHA256 + hash[|HASH_PREFIX_SHA256|..];
      assert hash[0] == 's';
    }
  }

  function KeysOf(shards: seq<DatasetShardRef>): set<string> {
    set i | 0 <= i < |shards| :: shards[i].key
  }

  /** Distinct keys are as many as the shards. */
  lemma {:induction false} DistinctKeysCount(shards: seq<DatasetShardRef>)
    ensures |KeysOf(shards)| <= |shards|
    ensures |KeysOf(shards)| == |shards| <==> forall i, j :: 0 <= i < j < |shards| ==> shards[i].key != shards[j].key
  {
    if shards != [] {
      var front, last := shards[..|shards| - 1], shards[|shards| - 1];
      DistinctKeysCount(front);
      assert KeysOf(shards) == KeysOf(front) + {last.key};
      if last.key in KeysOf(front) {
        var i :| 0 <= i < |front| && front[i].key == last.key;
        assert shards[i].key == shards[|shards| - 1].key;
        assert KeysOf(shards) == KeysOf(front);
      } else {
        assert |KeysOf(shards)| == |KeysOf(front)| + 1;
        assert forall i :: 0 <= i < |front| ==> front[i].key in KeysOf(front);
        assert forall i :: 0 <= i < |front| ==> shards[i] == front[i];
      }
    }
  }

  /** What acceptance of a manifest says, dataset by dataset: the embedded name is the key, counts are not
      negative, hashes have the form of hashes, there is either one blob or shards, and shards have as many
      keys as there are, none empty, and add up to the declared totals modulo 2^64. */
  lemma AcceptanceIsExact(manifest: Manifest)
    ensures ValidManifest(manifest) <==>
            forall name :: name in manifest.datasets ==>
              var d := manifest.datasets[name];
              && name != "" && d.name == name && d.recordCount >= 0 && d.uncompressedBytes >= 0
              && (d.previousBlobHash == "" || NormalizeHash(d.previousBlobHash).Some?)
              && ((|d.shards| == 0 && NormalizeHash(d.blobHash).Some?)
                  || (|d.shards| > 0 && d.blobHash == "" && AcceptedShards(d)))
  {
    forall name | name in manifest.datasets
      ensures |manifest.datasets[name].shards| > 0 ==>
                (AcceptedShards(manifest.datasets[name])
                 <==> WellFormedShards(manifest.datasets[name].shards)
                      && Wrap64(RecordTotal(manifest.datasets[name].shards)) == manifest.datasets[name].recordCount
                      && Wrap64(ByteTotal(manifest.datasets[name].shards)) == manifest.datasets[name].uncompressedBytes)
    {
      ShardsAreExact(manifest.datasets[name]);
    }
    hide AcceptedShards, WellFormedShards, Wrap64, RecordTotal, ByteTotal;
    assert NormalizeHash("").None?;
    hide NormalizeHash;
  }

  predicate AcceptedShards(d: DatasetRef) {
    && |KeysOf(d.shards)| == |d.shards| && "" !in KeysOf(d.shards)
    && (forall i :: 0 <= i < |d.shards| ==> NormalizeHash(d.shards[i].blobHash).Some?)
    && (forall i :: 0 <= i < |d.shards| ==> d.shards[i].recordCount >= 0 && d.shards[i].uncompressedBytes >= 0)
    && (RecordTotal(d.shards) - d.recordCount) % TWO_64 == 0
    && (ByteTotal(d.shards) - d.uncompressedBytes) % TWO_64 == 0
  }

  lemma WrapIsTheOnlyCongruent(x: int, y: I64)
    ensures Wrap64(x) == y <==> (x - y) % TWO_64 == 0
  {
    WrapIsCongruent(x);
    if (x - y) % TWO_64 == 0 {
      var w := Wrap64(x);
      assert (x - w) / TWO_64 * TWO_64 == x - w;
      assert (x - y) / TWO_64 * TWO_64 == x - y;
      var k := (x - y) / TWO_64 - (x - w) / TWO_64;
      assert w - y == k * TWO_64;
      assert -TWO_64 < w - y < TWO_64;
    }
  }

  lemma NoEmptyKey(shards: seq<DatasetShardRef>)
    ensures "" !in KeysOf(shards) <==> forall i :: 0 <= i < |shards| ==> shards[i].key != ""
  {
    assert forall i :: 0 <= i < |shards| ==> shards[i].key in KeysOf(shards);
  }

  lemma ShardFormIsExact(shards: seq<DatasetShardRef>)
    ensures WellFormedShards(shards) <==>
            && |KeysOf(shards)| == |shards| && "" !in KeysOf(shards)
            && (forall i :: 0 <= i < |shards| ==> NormalizeHash(shards[i].blobHash).Some?)
            && (forall i :: 0 <= i < |shards| ==> shards[i].recordCount >= 0 && shards[i].uncompressedBytes >= 0)
  {
    hide KeysOf, NormalizeHash;
    DistinctKeysCount(shards);
    NoEmptyKey(shards);
  }

  lemma ShardsAreExact(d: DatasetRef)
    ensures AcceptedShards(d) <==>
            && WellFormedShards(d.shards)
            && Wrap64(RecordTotal(d.shards)) == d.recordCount && Wrap64(ByteTotal(d.shards)) == d.uncompressedBytes
  {
    hide Wrap64, RecordTotal, ByteTotal, NormalizeHash, KeysOf, WellFormedShards;
    ShardFormIsExact(d.shards);
    WrapIsTheOnlyCongruent(RecordTotal(d.shards), d.recordCount);
    WrapIsTheOnlyCongruent(ByteTotal(d.shards), d.uncompressedBytes);
  }
}
