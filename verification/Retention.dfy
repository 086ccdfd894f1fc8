/** Which blobs survive: reference counts of publications in progress and the collection pass (node.go). */
module Retention {
  import opened Snapshots
  import opened MetadataFsm
  import opened BlobStores

  // --------------------------------------------------------- reference counts

  ghost function AnyName(datasets: map<string, DatasetRef>): (name: string)
    requires datasets != map[]
    ensures name in datasets
  {
    var name :| name in datasets; name
  }

  /** Every blob hash of the datasets, with multiplicity. */
  ghost function BlobsOf(datasets: map<string, DatasetRef>): multiset<string>
    decreases datasets.Keys
  {
    if datasets == map[] then multiset{}
    else
      var name := AnyName(datasets);
      multiset(BlobHashes(datasets[name])) + BlobsOf(datasets - {name})
  }

  /** The count does not depend on the order in which the datasets are visited. */
  lemma {:induction false} VisitAnyOrder(datasets: map<string, DatasetRef>, name: string)
    requires name in datasets
    ensures BlobsOf(datasets) == multiset(BlobHashes(datasets[name])) + BlobsOf(datasets - {name})
    decreases datasets.Keys
  {
    hide BlobHashes;
    var first := AnyName(datasets);
    if first != name {
      VisitAnyOrder(datasets - {first}, name);
      VisitAnyOrder(datasets - {name}, first);
      var rest := datasets - {first} - {name};
      assert rest == datasets - {name} - {first};
      var a, b, c := multiset(BlobHashes(datasets[first])), multiset(BlobHashes(datasets[name])), BlobsOf(rest);
      assert BlobsOf(datasets - {first}) == b + c && BlobsOf(datasets - {name}) == a + c;
      assert a + (b + c) == b + (a + c);
    }
  }

  lemma {:induction false} BlobIsCounted(datasets: map<string, DatasetRef>, name: string, hash: string)
    requires name in datasets && hash in BlobHashes(datasets[name])
    ensures hash in BlobsOf(datasets)
  {
    VisitAnyOrder(datasets, name);
  }

  lemma {:induction false} CountedIsABlob(datasets: map<string, DatasetRef>, hash: string)
    requires hash in BlobsOf(datasets)
    ensures exists name :: name in datasets && hash in BlobHashes(datasets[name])
    decreases datasets.Keys
  {
    hide BlobHashes;
    var name := AnyName(datasets);
    if hash !in BlobHashes(datasets[name]) {
      CountedIsABlob(datasets - {name}, hash);
    }
  }

  lemma NoDatasetsNoBlobs()
    ensures BlobsOf(map[]) == multiset{}
  {
  }

  ghost function TotalBlobs(manifests: seq<Manifest>): multiset<string> {
    if manifests == [] then multiset{}
    else TotalBlobs(manifests[1..]) + BlobsOf(manifests[0].datasets)
  }

  lemma {:induction false} TotalAfterRemoval(manifests: seq<Manifest>, i: nat)
    requires i < |manifests|
    ensures TotalBlobs(manifests) == TotalBlobs(manifests[..i] + manifests[i + 1..]) + BlobsOf(manifests[i].datasets)
  {
    hide BlobsOf;
    if i > 0 {
      TotalAfterRemoval(manifests[1..], i - 1);
      var rest := manifests[..i] + manifests[i + 1..];
      assert rest[0] == manifests[0];
      assert rest[1..] == manifests[1..][..i - 1] + manifests[1..][i..];
      assert manifests[1..][i - 1] == manifests[i];
    } else {
      assert manifests[..0] + manifests[1..] == manifests[1..];
    }
  }

  /** The counter map for a multiset: a key is present exactly when its count is positive. */
  ghost function CountersFor(blobs: multiset<string>): map<string, nat> {
    map hash | hash in blobs :: blobs[hash]
  }

  lemma CountOneMore(blobs: multiset<string>, hash: string)
    ensures var counters := CountersFor(blobs);
            CountersFor(blobs + multiset{hash})
            == counters[hash := (if hash in counters then counters[hash] else 0) + 1]
  {
  }

  lemma CountOneLess(blobs: multiset<string>, hash: string)
    ensures var counters := CountersFor(blobs + multiset{hash});
            && hash in counters
            && CountersFor(blobs)
               == if counters[hash] <= 1 then counters - {hash} else counters[hash := counters[hash] - 1]
  {
    var counters := CountersFor(blobs + multiset{hash});
    if counters[hash] <= 1 {
      assert CountersFor(blobs) == counters - {hash};
    } else {
      assert CountersFor(blobs) == counters[hash := counters[hash] - 1];
    }
  }

  // -------------------------------------------------------------- the pass

  function DatasetReferences(dataset: DatasetRef): set<string> {
    (set hash | hash in BlobHashes(dataset) :: hash)
    + (if dataset.previousBlobHash != "" then {dataset.previousBlobHash} else {})
  }

  function References(manifest: Manifest): set<string> {
    set name, hash | name in manifest.datasets && hash in DatasetReferences(manifest.datasets[name]) :: hash
  }

  /** An order that `sort.Slice` may leave the manifests in; ties may fall either way. */
  ghost predicate NewestFirst(snapshots: map<string, Manifest>, order: seq<string>) {
    && (forall i :: 0 <= i < |order| ==> order[i] in snapshots)
    && (forall key :: key in snapshots ==> key in order)
    && (forall i, j :: 0 <= i < j < |order| ==> order[i] != order[j])
    && (forall i, j :: 0 <= i < j < |order| ==> snapshots[order[i]].createdAt >= snapshots[order[j]].createdAt)
  }

  /** How long manifests are kept: the newest `retention` of them, and any younger than `pinTtl`. */
  datatype Policy = Policy(retention: nat, pinTtl: int)

  predicate KeptAt(s: MetadataState, order: seq<string>, policy: Policy, now: int, i: nat)
    requires i < |order| && order[i] in s.snapshots
  {
    var manifest := s.snapshots[order[i]];
    !(i >= policy.retention && manifest.createdAt < now - policy.pinTtl
      && manifest.generation.manifestHash != s.activeSnapshot)
  }

  ghost predicate Retained(s: MetadataState, staging: set<string>, order: seq<string>, policy: Policy, now: int,
                           hash: string)
    requires NewestFirst(s.snapshots, order)
  {
    || hash in staging
    || exists i :: 0 <= i < |order| && KeptAt(s, order, policy, now, i) && hash in References(s.snapshots[order[i]])
  }

  /** Other manifests that are at least as new. */
  function AsNew(snapshots: map<string, Manifest>, key: string): set<string>
    requires key in snapshots
  {
    set other | other in snapshots && other != key && snapshots[other].createdAt >= snapshots[key].createdAt
  }

  /** The manifest is active, unexpired, or among the newest `retention` however ties are broken. */
  predicate Served(s: MetadataState, policy: Policy, now: int, key: string)
    requires key in s.snapshots
  {
    || key == s.activeSnapshot
    || s.snapshots[key].createdAt >= now - policy.pinTtl
    || |AsNew(s.snapshots, key)| < policy.retention
  }

  /** Keys are the embedded hashes, as the state machine guarantees. */
  ghost predicate KeysAreHashes(s: MetadataState) {
    forall key :: key in s.snapshots ==> s.snapshots[key].generation.manifestHash == key
  }

  lemma {:induction false} DistinctPrefix(order: seq<string>, i: nat)
    requires i <= |order|
    requires forall a, b :: 0 <= a < b < |order| ==> order[a] != order[b]
    ensures |set a | 0 <= a < i :: order[a]| == i
  {
    if i > 0 {
      DistinctPrefix(order, i - 1);
      assert (set a | 0 <= a < i :: order[a]) == (set a | 0 <= a < i - 1 :: order[a]) + {order[i - 1]};
    }
  }

  lemma SubsetIsSmaller<T>(small: set<T>, large: set<T>)
    requires small <= large
    ensures |small| <= |large|
  {
    assert large == small + (large - small);
  }

  /** A position in the sorted list is at most the number of manifests that are at least as new. */
  lemma PositionIsBounded(snapshots: map<string, Manifest>, order: seq<string>, i: nat)
    requires NewestFirst(snapshots, order) && i < |order|
    ensures i <= |AsNew(snapshots, order[i])|
  {
    DistinctPrefix(order, i);
    var before := set a | 0 <= a < i :: order[a];
    forall other | other in before ensures other in AsNew(snapshots, order[i]) {
      var a :| 0 <= a < i && order[a] == other;
    }
    SubsetIsSmaller(before, AsNew(snapshots, order[i]));
  }

  /** Manifests that are strictly newer. */
  function Newer(snapshots: map<string, Manifest>, key: string): set<string>
    requires key in snapshots
  {
    set other | other in snapshots && snapshots[other].createdAt > snapshots[key].createdAt
  }

  /** The manifest is active, unexpired, or among the newest `retention` for some way to break ties. */
  predicate MayBeServed(s: MetadataState, policy: Policy, now: int, key: string)
    requires key in s.snapshots
  {
    || key == s.activeSnapshot
    || s.snapshots[key].createdAt >= now - policy.pinTtl
    || |Newer(s.snapshots, key)| < policy.retention
  }

  /** A pass keeps no other manifests: with `ServedIsRetained`, what it keeps is exactly what is served, up
      to manifests of equal age. */
  lemma KeptMayBeServed(s: MetadataState, order: seq<string>, policy: Policy, now: int, i: nat)
    requires NewestFirst(s.snapshots, order) && KeysAreHashes(s)
    requires i < |order| && KeptAt(s, order, policy, now, i)
    ensures MayBeServed(s, policy, now, order[i])
  {
    DistinctPrefix(order, i);
    var before := set a | 0 <= a < i :: order[a];
    forall other | other in Newer(s.snapshots, order[i]) ensures other in before {
      var a :| 0 <= a < |order| && order[a] == other;
    }
    SubsetIsSmaller(Newer(s.snapshots, order[i]), before);
  }

  /** A manifest of the accepted shape references the one blob or all the shards of each dataset, and the
      blob it had before, and nothing else. */
  lemma ReferencesAreExact(manifest: Manifest, hash: string)
    requires ValidManifest(manifest)
    ensures hash in References(manifest) <==>
            exists name :: name in manifest.datasets && NamesBlob(manifest.datasets[name], hash)
  {
    hide BlobHashes, ValidDataset;
    forall name | name in manifest.datasets
      ensures hash in DatasetReferences(manifest.datasets[name]) <==> NamesBlob(manifest.datasets[name], hash)
    {
      DatasetNamesItsBlobs(name, manifest.datasets[name], hash);
    }
    hide NamesBlob, DatasetReferences;
  }

  predicate NamesBlob(dataset: DatasetRef, hash: string) {
    || (dataset.shards == [] && hash == dataset.blobHash)
    || (exists i :: 0 <= i < |dataset.shards| && dataset.shards[i].blobHash == hash)
    || (hash == dataset.previousBlobHash && hash != "")
  }

  lemma HashesAreNamed(name: string, dataset: DatasetRef, hash: string)
    requires ValidDataset(name, dataset)
    ensures hash in BlobHashes(dataset) <==>
            (dataset.shards == [] && hash == dataset.blobHash)
            || (exists i :: 0 <= i < |dataset.shards| && dataset.shards[i].blobHash == hash)
  {
    if dataset.shards != [] {
      NoShardHashDropped(dataset.shards);
      var hashes := BlobHashes(dataset);
      assert |hashes| == |dataset.shards|;
      hide BlobHashes, ValidDataset, NonEmptyShardHashes;
      if i :| 0 <= i < |dataset.shards| && dataset.shards[i].blobHash == hash {
        assert hashes[i] == hash;
      }
    } else {
      assert BlobHashes(dataset) == [dataset.blobHash];
    }
  }

  lemma DatasetNamesItsBlobs(name: string, dataset: DatasetRef, hash: string)
    requires ValidDataset(name, dataset)
    ensures hash in DatasetReferences(dataset) <==> NamesBlob(dataset, hash)
  {
    hide BlobHashes, ValidDataset;
    HashesAreNamed(name, dataset, hash);
  }

  /** A pass retains every reference of every served manifest, whichever way the sort breaks ties. */
  lemma ServedIsRetained(s: MetadataState, staging: set<string>, order: seq<string>, policy: Policy, now: int,
                         key: string, hash: string)
    requires NewestFirst(s.snapshots, order) && KeysAreHashes(s)
    requires key in s.snapshots && Served(s, policy, now, key) && hash in References(s.snapshots[key])
    ensures Retained(s, staging, order, policy, now, hash)
  {
    var i :| 0 <= i < |order| && order[i] == key;
    PositionIsBounded(s.snapshots, order, i);
    assert KeptAt(s, order, policy, now, i);
  }

  // ------------------------------------------------------------- the node object

  /** The hash belongs to a manifest that may be served. */
  ghost predicate IsReferenced(s: MetadataState, policy: Policy, now: int, hash: string) {
    exists key :: key in s.snapshots && MayBeServed(s, policy, now, key) && hash in References(s.snapshots[key])
  }

  class SnapshotKeeper {
    const store: BlobStore
    const policy: Policy
    var staging: map<string, nat>
    /** The publications between their retain and their release. */
    ghost var inProgress: seq<Manifest>

    /** Conservation: each counter is the total multiplicity over the publications in progress. */
    ghost predicate Valid()
      reads this
    {
      staging == CountersFor(TotalBlobs(inProgress))
    }

    constructor (store: BlobStore, policy: Policy)
      ensures Valid() && inProgress == [] && this.store == store && this.policy == policy
    {
      this.store := store;
      this.policy := policy;
      staging := map[];
      inProgress := [];
    }

    method CountUp(hashes: seq<string>, ghost base: multiset<string>)
      requires staging == CountersFor(base)
      modifies this`staging
      ensures staging == CountersFor(base + multiset(hashes))
    {
      hide CountersFor;
      assert base + multiset([]) == base;
      for k := 0 to |hashes|
        invariant staging == CountersFor(base + multiset(hashes[..k]))
      {
        CountOneMore(base + multiset(hashes[..k]), hashes[k]);
        assert hashes[..k + 1] == hashes[..k] + [hashes[k]];
        assert base + multiset(hashes[..k + 1]) == base + multiset(hashes[..k]) + multiset{hashes[k]};
        var count := if hashes[k] in staging then staging[hashes[k]] else 0;
        staging := staging[hashes[k] := count + 1];
      }
      assert hashes[..|hashes|] == hashes;
    }

    method CountDown(hashes: seq<string>, ghost base: multiset<string>)
      requires staging == CountersFor(base + multiset(hashes))
      modifies this`staging
      ensures staging == CountersFor(base)
    {
      hide CountersFor;
      assert hashes[0..] == hashes;
      for k := 0 to |hashes|
        invariant staging == CountersFor(base + multiset(hashes[k..]))
      {
        CountOneLess(base + multiset(hashes[k + 1..]), hashes[k]);
        assert hashes[k..] == [hashes[k]] + hashes[k + 1..];
        assert base + multiset(hashes[k..]) == base + multiset(hashes[k + 1..]) + multiset{hashes[k]};
        if hashes[k] !in staging || staging[hashes[k]] <= 1 {
          staging := staging - {hashes[k]};
        } else {
          staging := staging[hashes[k] := staging[hashes[k]] - 1];
        }
      }
      assert hashes[|hashes|..] == [];
      assert base + multiset([]) == base;
    }

    method RetainStagingBlobs(manifest: Manifest)
      requires Valid()
      modifies this
      ensures Valid() && inProgress == [manifest] + old(inProgress)
    {
      hide CountersFor, BlobHashes, BlobsOf;
      var datasets := manifest.datasets;
      ghost var counted := TotalBlobs(inProgress);
      while datasets != map[]
        invariant staging == CountersFor(counted)
        invariant counted + BlobsOf(datasets) == TotalBlobs(inProgress) + BlobsOf(manifest.datasets)
        invariant inProgress == old(inProgress)
        decreases datasets.Keys
      {
        var name :| name in datasets;
        VisitAnyOrder(datasets, name);
        var hashes := DatasetBlobHashes(datasets[name]);
        CountUp(hashes, counted);
        counted := counted + multiset(hashes);
        datasets := datasets - {name};
      }
      NoDatasetsNoBlobs();
      assert counted == counted + BlobsOf(map[]);
      inProgress := [manifest] + inProgress;
      assert inProgress[1..] == old(inProgress);
    }

    method ReleaseStagingBlobs(manifest: Manifest, ghost i: nat)
      requires Valid() && i < |inProgress| && inProgress[i].datasets == manifest.datasets
      modifies this
      ensures Valid() && inProgress == old(inProgress)[..i] + old(inProgress)[i + 1..]
    {
      hide CountersFor, BlobHashes, BlobsOf;
      var datasets := manifest.datasets;
      ghost var rest := inProgress[..i] + inProgress[i + 1..];
      TotalAfterRemoval(inProgress, i);
      while datasets != map[]
        invariant staging == CountersFor(TotalBlobs(rest) + BlobsOf(datasets))
        invariant inProgress == old(inProgress)
        decreases datasets.Keys
      {
        var name :| name in datasets;
        VisitAnyOrder(datasets, name);
        var hashes := DatasetBlobHashes(datasets[name]);
        ghost var remaining := TotalBlobs(rest) + BlobsOf(datasets - {name});
        assert TotalBlobs(rest) + BlobsOf(datasets) == remaining + multiset(hashes);
        CountDown(hashes, remaining);
        datasets := datasets - {name};
      }
      NoDatasetsNoBlobs();
      assert TotalBlobs(rest) + BlobsOf(map[]) == TotalBlobs(rest);
      inProgress := rest;
    }

    /** `sort.Slice` by creation time, newest first. */
    method SortNewestFirst(snapshots: map<string, Manifest>) returns (order: seq<string>)
      ensures NewestFirst(snapshots, order)
    {
      order := [];
      var keys := snapshots.Keys;
      while keys != {}
        invariant keys <= snapshots.Keys
        invariant NewestFirst(map key | key in snapshots && key !in keys :: snapshots[key], order)
        decreases keys
      {
        ghost var sorted := map key | key in snapshots && key !in keys :: snapshots[key];
        var key :| key in keys;
        keys := keys - {key};
        var at := 0;
        while at < |order| && snapshots[order[at]].createdAt >= snapshots[key].createdAt
          invariant at <= |order|
          invariant forall i :: 0 <= i < at ==> snapshots[order[i]].createdAt >= snapshots[key].createdAt
        {
          at := at + 1;
        }
        InsertKeepsOrder(snapshots, sorted, order, key, at);
        order := order[..at] + [key] + order[at..];
        assert (map k | k in snapshots && k !in keys :: snapshots[k]) == sorted[key := snapshots[key]];
      }
      assert (map key | key in snapshots && key !in keys :: snapshots[key]) == snapshots;
    }

    /** Position `i` of the list with `key` inserted at `at`. */
    static lemma InsertedAt(order: seq<string>, key: string, at: nat, i: nat)
      requires at <= |order| && i <= |order|
      ensures (order[..at] + [key] + order[at..])[i]
              == if i < at then order[i] else if i == at then key else order[i - 1]
    {
    }

    static lemma InsertHoldsAll(order: seq<string>, key: string, at: nat)
      requires at <= |order|
      ensures forall k :: k in order[..at] + [key] + order[at..] <==> k == key || k in order
    {
      assert order == order[..at] + order[at..];
    }

    static lemma InsertKeepsOrder(snapshots: map<string, Manifest>, sorted: map<string, Manifest>, order: seq<string>,
                                  key: string, at: nat)
      requires NewestFirst(sorted, order) && key in snapshots && key !in sorted
      requires forall k :: k in sorted ==> k in snapshots && snapshots[k] == sorted[k]
      requires at <= |order|
      requires forall i :: 0 <= i < at ==> sorted[order[i]].createdAt >= snapshots[key].createdAt
      requires at < |order| ==> sorted[order[at]].createdAt < snapshots[key].createdAt
      ensures NewestFirst(sorted[key := snapshots[key]], order[..at] + [key] + order[at..])
    {
      var longer, extended := order[..at] + [key] + order[at..], sorted[key := snapshots[key]];
      InsertHoldsAll(order, key, at);
      forall i | 0 <= i < |longer| ensures longer[i] in extended {
        InsertedAt(order, key, at, i);
      }
      forall i, j | 0 <= i < j < |longer|
        ensures longer[i] != longer[j] && extended[longer[i]].createdAt >= extended[longer[j]].createdAt
      {
        InsertedAt(order, key, at, i);
        InsertedAt(order, key, at, j);
        PairStaysOrdered(snapshots, sorted, order, key, at, i, j);
      }
    }

    static lemma PairStaysOrdered(snapshots: map<string, Manifest>, sorted: map<string, Manifest>, order: seq<string>,
                                  key: string,
                                  at: nat, i: nat, j: nat)
      requires NewestFirst(sorted, order) && key in snapshots && key !in sorted
      requires at <= |order| && i < j <= |order|
      requires forall k :: 0 <= k < at ==> sorted[order[k]].createdAt >= snapshots[key].createdAt
      requires at < |order| ==> sorted[order[at]].createdAt < snapshots[key].createdAt
      ensures var extended := sorted[key := snapshots[key]];
              var a := if i < at then order[i] else if i == at then key else order[i - 1];
              var b := if j < at then order[j] else if j == at then key else order[j - 1];
              && a in extended && b in extended && a != b && extended[a].createdAt >= extended[b].createdAt
    {
      if i == at && j - 1 > at {
        assert sorted[order[at]].createdAt >= sorted[order[j - 1]].createdAt;
      }
    }

    method ManifestReferences(manifest: Manifest) returns (references: set<string>)
      ensures references == References(manifest)
    {
      references := {};
      var names := manifest.datasets.Keys;
      while names != {}
        invariant names <= manifest.datasets.Keys
        invariant references == set name, hash | name in manifest.datasets && name !in names
                                  && hash in DatasetReferences(manifest.datasets[name]) :: hash
        decreases names
      {
        var name :| name in names;
        names := names - {name};
        references := references + DatasetReferences(manifest.datasets[name]);
      }
    }

    method RetainedHashes(state: MetadataState, order: seq<string>, now: int) returns (retained: set<string>)
      requires NewestFirst(state.snapshots, order)
      ensures forall hash :: hash in retained <==> Retained(state, staging.Keys, order, policy, now, hash)
    {
      retained := staging.Keys;
      for index := 0 to |order|
        invariant forall hash :: hash in retained <==>
                    || hash in staging
                    || exists i | 0 <= i < index && KeptAt(state, order, policy, now, i) ::
                         hash in References(state.snapshots[order[i]])
      {
        var manifest := state.snapshots[order[index]];
        if index >= policy.retention && manifest.createdAt < now - policy.pinTtl
           && manifest.generation.manifestHash != state.activeSnapshot {
          continue;
        }
        var references := ManifestReferences(manifest);
        retained := retained + references;
      }
    }

    /** One collection pass over `state`, the metadata that it read when it began and that may be old by
        now; its keys are its manifests' hashes. Files named by a hash of a publication in progress, or of
        a manifest that `state` serves, are untouched, even when the walk fails midway. A walk that does not
        fail, which the program does not ask about, leaves no other file of a digest's length. */
    method GcSnapshotBlobs(state: MetadataState, now: int) returns (complete: bool)
      requires KeysAreHashes(state) && Valid()
      modifies store`files
      ensures forall hex :: hex in store.files ==> hex in old(store.files) && store.files[hex] == old(store.files)[hex]
      ensures forall hex :: hex in old(store.files) && Canonical(hex) in TotalBlobs(inProgress) ==> hex in store.files
      ensures forall key, hex | key in state.snapshots && Served(state, policy, now, key) && hex in old(store.files) ::
                Canonical(hex) in References(state.snapshots[key]) ==> hex in store.files
      ensures complete ==> forall hex :: hex in store.files && |hex| == SHA256_HEX_LENGTH ==>
                Canonical(hex) in TotalBlobs(inProgress) || IsReferenced(state, policy, now, Canonical(hex))
    {
      var order := SortNewestFirst(state.snapshots);
      var retained := RetainedHashes(state, order, now);
      forall key, hash | key in state.snapshots && Served(state, policy, now, key)
        && hash in References(state.snapshots[key])
        ensures hash in retained
      {
        ServedIsRetained(state, staging.Keys, order, policy, now, key, hash);
      }
      forall hash | hash in retained && hash !in TotalBlobs(inProgress) ensures IsReferenced(state, policy, now, hash) {
        var i :| 0 <= i < |order| && KeptAt(state, order, policy, now, i)
          && hash in References(state.snapshots[order[i]]);
        KeptMayBeServed(state, order, policy, now, i);
      }
      var removed;
      removed, complete := store.GC(retained);
    }
  }
}
