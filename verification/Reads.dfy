/** Reading a dataset of a given generation from the local store (node.go). */
module Reads {
  import opened Common
  import opened Capability
  import opened Snapshots
  import opened MetadataFsm
  import opened Runs
  import opened SnapshotIndex
  import opened BlobStores

  datatype ReadError = NotFound | IsSharded | StoreFailed(error: StoreError)

  /** The manifest filed for exactly this generation. */
  function Lookup(s: MetadataState, generation: Generation): Option<Manifest> {
    if generation.manifestHash in s.snapshots && s.snapshots[generation.manifestHash].generation == generation
    then Some(s.snapshots[generation.manifestHash])
    else None
  }

  function OpenBlob(sha: Sha, files: Files, hash: string): Result<Blob, ReadError> {
    match Read(sha, files, hash)
    case Ok(data) => Ok(data)
    case Err(error) => Err(StoreFailed(error))
  }

  /** `OpenSnapshotDatasetAt`. */
  function OpenDatasetAt(sha: Sha, s: MetadataState, files: Files, generation: Generation, name: string)
    : Result<Blob, ReadError>
  {
    var manifest := Lookup(s, generation);
    if manifest.None? || name !in manifest.value.datasets then Err(NotFound)
    else if |manifest.value.datasets[name].shards| > 0 then Err(IsSharded)
    else OpenBlob(sha, files, manifest.value.datasets[name].blobHash)
  }

  /** `OpenSnapshotDatasetShardAt`. */
  function OpenShardAt(sha: Sha, s: MetadataState, files: Files, generation: Generation, name: string,
                       key: string): Result<Blob, ReadError> {
    var manifest := Lookup(s, generation);
    if manifest.None? || name !in manifest.value.datasets then Err(NotFound)
    else
      match FirstShard(manifest.value.datasets[name].shards, key)
      case None => Err(NotFound)
      case Some(shard) => OpenBlob(sha, files, shard.blobHash)
  }

  /** Two sound indexes file the same manifest for a generation, or two manifests that collide. */
  lemma LookupsAgree(h: Hashes, s1: MetadataState, s2: MetadataState, generation: Generation)
    requires Indexed(h, s1) && Indexed(h, s2)
    requires Lookup(s1, generation).Some? && Lookup(s2, generation).Some?
    ensures Lookup(s1, generation) == Lookup(s2, generation)
            || Collide(h.manifestSum, Lookup(s1, generation).value, Lookup(s2, generation).value)
  {
    var a, b := Lookup(s1, generation).value, Lookup(s2, generation).value;
    HashDeterminesManifest(h.manifestSum, a, b, generation.manifestHash);
  }

  /** Two reads of one generation return the same bytes, unless SHA-256 collided: on the two filed
      manifests, or on the bytes that were returned. */
  predicate ReadsAgree(h: Hashes, sha: Sha, generation: Generation, s1: MetadataState, s2: MetadataState,
                       r1: Result<Blob, ReadError>, r2: Result<Blob, ReadError>) {
    r1.Ok? && r2.Ok? && r1 != r2 ==>
      || sha(r1.value) == sha(r2.value)
      || (Lookup(s1, generation).Some? && Lookup(s2, generation).Some?
          && Collide(h.manifestSum, Lookup(s1, generation).value, Lookup(s2, generation).value))
  }

  /** Any two nodes that open the same dataset, or the same shard, at the same generation return the
      same bytes or exhibit a collision of SHA-256: whatever binaries they run, whichever logs they
      applied and wherever they stopped or faulted, and whatever damage, repair or replication
      their stores went through. */
  lemma GenerationReadsAgree(
    h: Hashes, sha: Sha, generation: Generation, name: string, key: string,
    c1: NodeCapabilities, clusterId1: string, log1: seq<Entry>, files1: Files,
    c2: NodeCapabilities, clusterId2: string, log2: seq<Entry>, files2: Files)
    ensures var s1, s2 := Run(h, c1, InitialState(clusterId1), log1), Run(h, c2, InitialState(clusterId2), log2);
            && ReadsAgree(h, sha, generation, s1, s2,
                          OpenDatasetAt(sha, s1, files1, generation, name),
                          OpenDatasetAt(sha, s2, files2, generation, name))
            && ReadsAgree(h, sha, generation, s1, s2,
                          OpenShardAt(sha, s1, files1, generation, name, key),
                          OpenShardAt(sha, s2, files2, generation, name, key))
  {
    hide Step, Verify, Indexed, Collide;
    var s1, s2 := Run(h, c1, InitialState(clusterId1), log1), Run(h, c2, InitialState(clusterId2), log2);
    InitialIsIndexed(h, clusterId1);
    InitialIsIndexed(h, clusterId2);
    IndexOverRun(h, c1, InitialState(clusterId1), log1);
    IndexOverRun(h, c2, InitialState(clusterId2), log2);
    if Lookup(s1, generation).Some? && Lookup(s2, generation).Some? {
      LookupsAgree(h, s1, s2, generation);
      forall hash ensures OpenBlob(sha, files1, hash).Ok? && OpenBlob(sha, files2, hash).Ok?
                          ==> sha(OpenBlob(sha, files1, hash).value) == sha(OpenBlob(sha, files2, hash).value)
      {
        if Read(sha, files1, hash).Ok? && Read(sha, files2, hash).Ok? {
          StoresAgree(sha, files1, files2, hash);
        }
      }
    }
  }

  // ------------------------------------------------------- what a read returns

  /** The manifest was committed by the log. */
  ghost predicate CommittedBy(h: Hashes, c: NodeCapabilities, clusterId: string, log: seq<Entry>, m: Manifest) {
    exists i: nat :: CommittedAt(h, c, clusterId, log, i, m)
  }

  predicate CommittedAt(h: Hashes, c: NodeCapabilities, clusterId: string, log: seq<Entry>, i: nat, m: Manifest) {
    && i < |log|
    && var s := Run(h, c, InitialState(clusterId), log[..i]);
       CommitsManifest(h, c, s, log[i]) && Committed(h, c, s, log[i]) == m
  }

  /** The manifest is in the index. */
  ghost predicate Filed(s: MetadataState, m: Manifest) {
    exists key :: key in s.snapshots && s.snapshots[key] == m
  }

  lemma {:induction false} FiledIsCommitted(h: Hashes, c: NodeCapabilities, clusterId: string, log: seq<Entry>,
                                            m: Manifest)
    requires Filed(Run(h, c, InitialState(clusterId), log), m)
    ensures CommittedBy(h, c, clusterId, log, m)
  {
    hide Step, CommitsManifest, Committed;
    if log != [] {
      var n := |log| - 1;
      var front := log[..n];
      var before := Run(h, c, InitialState(clusterId), front);
      InitialIsIndexed(h, clusterId);
      IndexOverRun(h, c, InitialState(clusterId), front);
      StepOnIndex(h, c, before, log[n]);
      if Filed(before, m) {
        FiledIsCommitted(h, c, clusterId, front, m);
        var i: nat :| CommittedAt(h, c, clusterId, front, i, m);
        assert log[..i] == front[..i];
        assert CommittedAt(h, c, clusterId, log, i, m);
      } else {
        assert CommittedAt(h, c, clusterId, log, n, m);
      }
    }
  }

  lemma CommittedIsFiled(h: Hashes, c: NodeCapabilities, clusterId: string, log: seq<Entry>, i: nat, m: Manifest)
    requires CommittedAt(h, c, clusterId, log, i, m)
    ensures var s := Run(h, c, InitialState(clusterId), log);
            && m.generation.manifestHash in s.snapshots
            && (s.snapshots[m.generation.manifestHash] == m
                || Collide(h.manifestSum, m, s.snapshots[m.generation.manifestHash]))
  {
    var init := InitialState(clusterId);
    InitialIsIndexed(h, clusterId);
    IndexOverRun(h, c, init, log[..i]);
    StepOnIndex(h, c, Run(h, c, init, log[..i]), log[i]);
    RunStep(h, c, init, log, i);
    IndexIsSound(h, c, clusterId, log, i + 1);
    hide Step, Run, CommitsManifest, Committed, Indexed;
  }

  /** In every reachable state the index holds exactly the manifests that the log committed, as long as
      no two of them collide. */
  lemma IndexIsTheCommits(h: Hashes, c: NodeCapabilities, clusterId: string, log: seq<Entry>, m: Manifest)
    requires forall other :: CommittedBy(h, c, clusterId, log, other) ==> !Collide(h.manifestSum, m, other)
    ensures Filed(Run(h, c, InitialState(clusterId), log), m) <==> CommittedBy(h, c, clusterId, log, m)
  {
    var s := Run(h, c, InitialState(clusterId), log);
    hide Run, CommittedAt, Collide;
    if Filed(s, m) {
      FiledIsCommitted(h, c, clusterId, log, m);
    }
    if CommittedBy(h, c, clusterId, log, m) {
      var i: nat :| CommittedAt(h, c, clusterId, log, i, m);
      CommittedIsFiled(h, c, clusterId, log, i, m);
      var other := s.snapshots[m.generation.manifestHash];
      assert Filed(s, other);
      FiledIsCommitted(h, c, clusterId, log, other);
    }
  }

  /** The blob is in the store, undamaged, and the hash is its canonical one. */
  predicate Stores(sha: Sha, files: Files, hash: string, data: Blob) {
    hash == Canonical(sha(data)) && sha(data) in files && files[sha(data)] == data
  }

  ghost predicate HasDataset(s: MetadataState, generation: Generation, name: string, m: Manifest) {
    Filed(s, m) && m.generation == generation && name in m.datasets
  }

  lemma LookupIsFiled(h: Hashes, s: MetadataState, generation: Generation, m: Manifest)
    requires Indexed(h, s)
    ensures Lookup(s, generation) == Some(m) <==> Filed(s, m) && m.generation == generation
  {
  }

  lemma OpenBlobIsStored(sha: Sha, files: Files, hash: string, data: Blob)
    requires ProducesHex(sha)
    ensures OpenBlob(sha, files, hash) == Ok(data) <==> Stores(sha, files, hash, data)
  {
    ReadIsLookup(sha, files, hash, data);
    hide Read, Canonical;
  }

  /** What a read of a dataset returns, in every state with a sound index: the undamaged bytes of its own
      blob, if a filed manifest has exactly this generation and the dataset is in one piece. */
  lemma DatasetReadIsExact(h: Hashes, sha: Sha, s: MetadataState, files: Files, generation: Generation, name: string)
    requires Indexed(h, s) && ProducesHex(sha)
    ensures forall data :: OpenDatasetAt(sha, s, files, generation, name) == Ok(data) <==>
              exists m :: HasDataset(s, generation, name, m) && m.datasets[name].shards == []
                          && Stores(sha, files, m.datasets[name].blobHash, data)
    ensures OpenDatasetAt(sha, s, files, generation, name) == Err(NotFound) <==>
              !exists m :: HasDataset(s, generation, name, m)
    ensures OpenDatasetAt(sha, s, files, generation, name) == Err(IsSharded) <==>
              exists m :: HasDataset(s, generation, name, m) && m.datasets[name].shards != []
  {
    hide Indexed, ProducesHex, OpenBlob, Stores, Filed, Lookup;
    forall m ensures Lookup(s, generation) == Some(m) <==> Filed(s, m) && m.generation == generation {
      LookupIsFiled(h, s, generation, m);
    }
    forall hash, data ensures OpenBlob(sha, files, hash) == Ok(data) <==> Stores(sha, files, hash, data) {
      OpenBlobIsStored(sha, files, hash, data);
    }
    forall hash ensures OpenBlob(sha, files, hash) != Err(NotFound) && OpenBlob(sha, files, hash) != Err(IsSharded) {
      BlobErrorsComeFromStore(sha, files, hash);
    }
    var found := Lookup(s, generation);
    if found.Some? && name in found.value.datasets {
      assert HasDataset(s, generation, name, found.value);
    }
  }

  lemma BlobErrorsComeFromStore(sha: Sha, files: Files, hash: string)
    ensures OpenBlob(sha, files, hash) != Err(NotFound) && OpenBlob(sha, files, hash) != Err(IsSharded)
  {
  }

  /** The first shard with the key; in an accepted dataset, the only one. */
  predicate IsFirstShard(shards: seq<DatasetShardRef>, key: string, i: nat) {
    i < |shards| && shards[i].key == key && forall j :: 0 <= j < i ==> shards[j].key != key
  }

  lemma {:induction false} FirstShardIsFirst(shards: seq<DatasetShardRef>, key: string, i: nat)
    ensures IsFirstShard(shards, key, i) ==> FirstShard(shards, key) == Some(shards[i])
  {
    if IsFirstShard(shards, key, i) && i > 0 {
      FirstShardIsFirst(shards[1..], key, i - 1);
    }
  }

  lemma {:induction false} FirstShardHasPlace(shards: seq<DatasetShardRef>, key: string) returns (i: nat)
    requires FirstShard(shards, key).Some?
    ensures IsFirstShard(shards, key, i) && shards[i] == FirstShard(shards, key).value
  {
    if shards[0].key == key {
      i := 0;
    } else {
      i := FirstShardHasPlace(shards[1..], key);
      i := i + 1;
    }
  }

  ghost predicate ReadsShard(sha: Sha, files: Files, m: Manifest, name: string, key: string, i: nat, data: Blob)
    requires name in m.datasets
  {
    && IsFirstShard(m.datasets[name].shards, key, i)
    && Stores(sha, files, m.datasets[name].shards[i].blobHash, data)
  }

  /** The same for a shard: the undamaged bytes of the first shard with the key. */
  lemma ShardReadIsExact(h: Hashes, sha: Sha, s: MetadataState, files: Files, generation: Generation, name: string,
                         key: string, data: Blob)
    requires Indexed(h, s) && ProducesHex(sha)
    ensures OpenShardAt(sha, s, files, generation, name, key) == Ok(data) <==>
              exists m, i: nat :: HasDataset(s, generation, name, m) && ReadsShard(sha, files, m, name, key, i, data)
  {
    var r := OpenShardAt(sha, s, files, generation, name, key);
    forall m ensures Lookup(s, generation) == Some(m) <==> Filed(s, m) && m.generation == generation {
      LookupIsFiled(h, s, generation, m);
    }
    forall hash ensures OpenBlob(sha, files, hash) == Ok(data) <==> Stores(sha, files, hash, data) {
      OpenBlobIsStored(sha, files, hash, data);
    }
    hide Indexed, ProducesHex, OpenBlob, Stores, Filed, Lookup, FirstShard, IsFirstShard;
    if r == Ok(data) {
      var m := Lookup(s, generation).value;
      var i := FirstShardHasPlace(m.datasets[name].shards, key);
      assert HasDataset(s, generation, name, m) && ReadsShard(sha, files, m, name, key, i, data);
    } else if exists m, i: nat :: HasDataset(s, generation, name, m) && ReadsShard(sha, files, m, name, key, i, data) {
      var m, i: nat :| HasDataset(s, generation, name, m) && ReadsShard(sha, files, m, name, key, i, data);
      FirstShardIsFirst(m.datasets[name].shards, key, i);
    }
  }

  /** Both together with the log: in every reachable state, a dataset reads as `data` exactly when the log
      committed a manifest of this generation with the dataset in one piece and `data` is the
      undamaged blob it names, provided no two committed manifests collide. */
  lemma ReadsAreExact(h: Hashes, sha: Sha, c: NodeCapabilities, clusterId: string, log: seq<Entry>, files: Files,
                      generation: Generation, name: string, data: Blob)
    requires ProducesHex(sha)
    requires forall a, b :: CommittedBy(h, c, clusterId, log, a) && CommittedBy(h, c, clusterId, log, b) ==>
               !Collide(h.manifestSum, a, b)
    ensures OpenDatasetAt(sha, Run(h, c, InitialState(clusterId), log), files, generation, name) == Ok(data) <==>
              exists m :: CommittedBy(h, c, clusterId, log, m) && m.generation == generation && name in m.datasets
                          && m.datasets[name].shards == [] && Stores(sha, files, m.datasets[name].blobHash, data)
  {
    var s := Run(h, c, InitialState(clusterId), log);
    InitialIsIndexed(h, clusterId);
    IndexOverRun(h, c, InitialState(clusterId), log);
    hide Run, CommittedBy, Filed, Collide, OpenDatasetAt, Stores, Indexed;
    DatasetReadIsExact(h, sha, s, files, generation, name);
    forall m ensures Filed(s, m) <==> CommittedBy(h, c, clusterId, log, m) {
      if Filed(s, m) {
        FiledIsCommitted(h, c, clusterId, log, m);
      } else if CommittedBy(h, c, clusterId, log, m) {
        IndexIsTheCommits(h, c, clusterId, log, m);
      }
    }
  }

  lemma ShardReadsAreExact(h: Hashes, sha: Sha, c: NodeCapabilities, clusterId: string, log: seq<Entry>, files: Files,
                           generation: Generation, name: string, key: string, data: Blob)
    requires ProducesHex(sha)
    requires forall a, b :: CommittedBy(h, c, clusterId, log, a) && CommittedBy(h, c, clusterId, log, b) ==>
               !Collide(h.manifestSum, a, b)
    ensures OpenShardAt(sha, Run(h, c, InitialState(clusterId), log), files, generation, name, key) == Ok(data) <==>
              exists m, i: nat :: CommittedBy(h, c, clusterId, log, m) && m.generation == generation
                          && name in m.datasets && ReadsShard(sha, files, m, name, key, i, data)
  {
    var s := Run(h, c, InitialState(clusterId), log);
    InitialIsIndexed(h, clusterId);
    IndexOverRun(h, c, InitialState(clusterId), log);
    hide Run, CommittedBy, Filed, Collide, OpenShardAt, ReadsShard, Indexed;
    ShardReadIsExact(h, sha, s, files, generation, name, key, data);
    forall m ensures Filed(s, m) <==> CommittedBy(h, c, clusterId, log, m) {
      if Filed(s, m) {
        FiledIsCommitted(h, c, clusterId, log, m);
      } else if CommittedBy(h, c, clusterId, log, m) {
        IndexIsTheCommits(h, c, clusterId, log, m);
      }
    }
  }
}
