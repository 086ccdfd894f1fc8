/** Publishing a snapshot (node.go): stage, store, replicate to a voter quorum, then propose the commit. */
module Publication {
  import opened Common
  import opened Capability
  import opened Snapshots
  import opened MetadataFsm
  import opened BlobStores
  import opened Retention
  import opened Proposals
  import opened Runs
  import opened Replicas
  import opened Ledger
  import opened SnapshotIndex

  /** Every blob of the manifest is in the store and verifies. */
  predicate HoldsBlobs(sha: Sha, files: Files, manifest: Manifest) {
    forall name :: name in manifest.datasets ==> HoldsAll(sha, files, BlobHashes(manifest.datasets[name]))
  }

  predicate HoldsAll(sha: Sha, files: Files, hashes: seq<string>) {
    forall i :: 0 <= i < |hashes| ==> Verify(sha, files, hashes[i]).Ok?
  }

  method VerifyAll(sha: Sha, files: Files, hashes: seq<string>) returns (verified: bool)
    ensures verified <==> HoldsAll(sha, files, hashes)
  {
    hide Verify;
    for i := 0 to |hashes|
      invariant forall k :: 0 <= k < i ==> Verify(sha, files, hashes[k]).Ok?
    {
      if Verify(sha, files, hashes[i]).Err? {
        return false;
      }
    }
    return true;
  }

  method VerifyManifestBlobs(sha: Sha, files: Files, manifest: Manifest) returns (verified: bool)
    ensures verified <==> HoldsBlobs(sha, files, manifest)
  {
    hide HoldsAll, BlobHashes;
    var names := manifest.datasets.Keys;
    while names != {}
      invariant names <= manifest.datasets.Keys
      invariant forall name :: name in manifest.datasets && name !in names ==>
                  HoldsAll(sha, files, BlobHashes(manifest.datasets[name]))
      decreases names
    {
      var name :| name in names;
      names := names - {name};
      var hashes := DatasetBlobHashes(manifest.datasets[name]);
      var all := VerifyAll(sha, files, hashes);
      if !all {
        return false;
      }
    }
    return true;
  }

  /** A put of a blob that its sender holds never makes the receiver lose a blob. */
  lemma PutKeepsHeld(sha: Sha, local: Files, peer: Files, hash: string, other: string)
    requires ProducesHex(sha) && Verify(sha, local, hash).Ok?
    ensures NormalizeHash(hash) == Some(sha(Read(sha, local, hash).value))
    ensures var after := AfterPut(sha, peer, hash, Read(sha, local, hash).value);
            && Verify(sha, after, hash).Ok?
            && (Verify(sha, peer, other).Ok? ==> Verify(sha, after, other).Ok?)
  {
    var data := Read(sha, local, hash).value;
    CanonicalName(sha(data));
  }

  /** One blob to one peer. The request, the peer's disk or the reply may fail; only a success reply counts. */
  method PutBlobToPeer(sha: Sha, local: Files, peer: Files, hash: string) returns (after: Files, replied: bool)
    requires ProducesHex(sha)
    ensures replied ==> Verify(sha, after, hash).Ok?
    ensures forall other :: replied && Verify(sha, peer, other).Ok? ==> Verify(sha, after, other).Ok?
    ensures replied ==> Verify(sha, local, hash).Ok?
  {
    after := peer;
    var content := Read(sha, local, hash);
    if content.Err? {
      return peer, false;
    }
    var delivered := *;
    if !delivered {
      return peer, false;
    }
    var stored := *;
    if !stored && Verify(sha, peer, hash).Err? {
      return peer - {sha(content.value)}, false;
    }
    forall other
      ensures Verify(sha, peer, other).Ok? ==> Verify(sha, AfterPut(sha, peer, hash, content.value), other).Ok? {
      PutKeepsHeld(sha, local, peer, hash, other);
    }
    PutKeepsHeld(sha, local, peer, hash, hash);
    after := AfterPut(sha, peer, hash, content.value);
    replied := *;
  }

  method ReplicateManifestToPeer(sha: Sha, local: Files, peer: Files, manifest: Manifest)
    returns (after: Files, acked: bool)
    requires ProducesHex(sha)
    ensures acked ==> HoldsBlobs(sha, after, manifest) && HoldsBlobs(sha, local, manifest)
  {
    hide Verify, BlobHashes;
    after := peer;
    var names := manifest.datasets.Keys;
    while names != {}
      invariant names <= manifest.datasets.Keys
      invariant forall name :: name in manifest.datasets && name !in names ==>
                  HoldsAll(sha, after, BlobHashes(manifest.datasets[name]))
                  && HoldsAll(sha, local, BlobHashes(manifest.datasets[name]))
      decreases names
    {
      var name :| name in names;
      names := names - {name};
      var hashes := DatasetBlobHashes(manifest.datasets[name]);
      for i := 0 to |hashes|
        invariant HoldsAll(sha, after, hashes[..i]) && HoldsAll(sha, local, hashes[..i])
        invariant forall other :: other in manifest.datasets && other !in names && other != name ==>
                    HoldsAll(sha, after, BlobHashes(manifest.datasets[other]))
                    && HoldsAll(sha, local, BlobHashes(manifest.datasets[other]))
      {
        after, acked := PutBlobToPeer(sha, local, after, hashes[i]);
        if !acked {
          return after, false;
        }
      }
      assert hashes[..|hashes|] == hashes;
    }
    return after, true;
  }

  /** The first `i` voters. */
  function FirstVoters(voters: seq<string>, i: nat): set<string>
    requires i <= |voters|
  {
    set k | 0 <= k < i :: voters[k]
  }

  lemma NextVoter(voters: seq<string>, i: nat)
    requires i < |voters|
    requires forall k, j :: 0 <= k < j < |voters| ==> voters[k] != voters[j]
    ensures voters[i] !in FirstVoters(voters, i)
    ensures FirstVoters(voters, i + 1) == FirstVoters(voters, i) + {voters[i]}
  {
  }

  /** The nodes hold every blob of the manifest. */
  predicate AllHold(sha: Sha, stores: map<string, Files>, nodes: set<string>, manifest: Manifest) {
    forall node :: node in nodes ==> node in stores && HoldsBlobs(sha, stores[node], manifest)
  }

  lemma NobodyHoldsYet(sha: Sha, stores: map<string, Files>, manifest: Manifest)
    ensures AllHold(sha, stores, {}, manifest)
  {
  }

  lemma AddAcker(sha: Sha, stores: map<string, Files>, ackers: set<string>, server: string, after: Files,
                 manifest: Manifest)
    requires AllHold(sha, stores, ackers, manifest) && server !in ackers
    ensures AllHold(sha, stores[server := after], ackers, manifest)
    ensures HoldsBlobs(sha, after, manifest) ==> AllHold(sha, stores[server := after], ackers + {server}, manifest)
  {
    hide HoldsBlobs;
  }

  /** The acknowledgement loop. `ackers` are the voters whose store held every blob when they
      acknowledged; success needs a strict majority of the voters. */
  method ReplicateSnapshotBlobs(sha: Sha, self: string, local: Files, manifest: Manifest, voters: seq<string>,
                                peers: map<string, Files>)
    returns (stores: map<string, Files>, ackers: set<string>, durable: bool)
    requires ProducesHex(sha)
    requires forall i, j :: 0 <= i < j < |voters| ==> voters[i] != voters[j]
    requires self in peers && peers[self] == local
    ensures stores.Keys == peers.Keys && stores[self] == local
    ensures AllHold(sha, stores, ackers, manifest) && forall node :: node in ackers ==> node in voters
    ensures durable ==> 2 * |ackers| > |voters| && (self in voters ==> self in ackers)
    ensures !durable ==> 2 * |ackers| <= |voters| || (self in voters && !HoldsBlobs(sha, local, manifest))
  {
    hide HoldsBlobs, AllHold;
    var quorum := |voters| / 2 + 1;
    stores, ackers := peers, {};
    assert AllHold(sha, stores, {}, manifest) by {
      NobodyHoldsYet(sha, stores, manifest);
    }
    var acks := 0;
    for i := 0 to |voters|
      invariant stores.Keys == peers.Keys && stores[self] == local
      invariant acks == |ackers| && ackers <= FirstVoters(voters, i)
      invariant AllHold(sha, stores, ackers, manifest)
      invariant self in FirstVoters(voters, i) ==> self in ackers
    {
      var server := voters[i];
      NextVoter(voters, i);
      if server == self {
        var verified := VerifyManifestBlobs(sha, local, manifest);
        if !verified {
          return stores, ackers, false;
        }
        AddAcker(sha, stores, ackers, server, local, manifest);
        assert stores[server := local] == stores;
        acks, ackers := acks + 1, ackers + {server};
        continue;
      }
      if server !in stores {
        continue;
      }
      var after, acked := ReplicateManifestToPeer(sha, local, stores[server], manifest);
      AddAcker(sha, stores, ackers, server, after, manifest);
      stores := stores[server := after];
      if acked {
        acks, ackers := acks + 1, ackers + {server};
      }
    }
    durable := acks >= quorum;
  }

  /** Any other majority of the same voters contains one that acknowledged. */
  lemma MajoritiesIntersect(voters: set<string>, ackers: set<string>, majority: set<string>)
    requires ackers <= voters && majority <= voters
    requires 2 * |ackers| > |voters| && 2 * |majority| > |voters|
    ensures exists node :: node in ackers && node in majority
  {
    if ackers * majority == {} {
      assert |ackers + majority| == |ackers| + |majority|;
      SubsetIsSmaller(ackers + majority, voters);
      assert false;
    }
    assert ackers * majority != {};
    var node :| node in ackers * majority;
  }

  datatype Configuration = Configuration(index: U64, voters: seq<string>)

  /** The manifest that a publication proposes: the caller's, stamped with the voter configuration and
      with its own hash. */
  predicate IsStamped(h: Hashes, manifest: Manifest, index: U64, stamped: Manifest) {
    && ComputeManifestHash(h.manifestSum, stamped) == Some(stamped.generation.manifestHash)
    && stamped == manifest.(voterConfigurationIndex := index,
                            generation := manifest.generation.(manifestHash := stamped.generation.manifestHash))
  }

  datatype PublishError =
    | NotAdmitted | Malformed | OutOfOrder | StoreFailed | Unhashable | NotDurable | ConfigurationChanged

  /** What the local store owes to a publication, done or given up: every old file is still there or in
      quarantine, and every new one holds bytes of the digest of a blob that was given. */
  predicate KeepsLocalFiles(sha: Sha, blobs: map<string, Blob>, before: Files, quarantine: seq<(string, Blob)>,
                            after: Files, later: seq<(string, Blob)>) {
    && quarantine <= later
    && (forall name :: name in before ==>
          (name in after && after[name] == before[name]) || (name, before[name]) in later[|quarantine|..])
    && (forall name :: name in after ==>
          (name in before && after[name] == before[name]) || IsGivenBlob(sha, blobs, name, after[name]))
  }

  predicate IsGivenBlob(sha: Sha, blobs: map<string, Blob>, name: string, content: Blob) {
    sha(content) == name && exists hash :: hash in blobs && sha(blobs[hash]) == name
  }

  lemma PutKeepsLocalFiles(sha: Sha, blobs: map<string, Blob>, hash: string, before: Files, q0: seq<(string, Blob)>,
                           files: Files, q1: seq<(string, Blob)>, after: Files, q2: seq<(string, Blob)>)
    requires hash in blobs && KeepsLocalFiles(sha, blobs, before, q0, files, q1)
    requires NothingLost(files, q1, after, q2) && OnlyTouches(sha, sha(blobs[hash]), files, after)
    ensures KeepsLocalFiles(sha, blobs, before, q0, after, q2)
  {
    assert q2[|q0|..] == q1[|q0|..] + q2[|q1|..];
    forall name | name in after
      ensures (name in before && after[name] == before[name]) || IsGivenBlob(sha, blobs, name, after[name])
    {
      if name != sha(blobs[hash]) {
        assert name in after - {sha(blobs[hash])};
        assert name in files - {sha(blobs[hash])};
        assert after[name] == (after - {sha(blobs[hash])})[name] == (files - {sha(blobs[hash])})[name] == files[name];
      }
    }
  }

  /** The blob has the digest that its hash names, and is in the store undamaged. */
  predicate IsPut(sha: Sha, files: Files, hash: string, data: Blob) {
    NormalizeHash(hash) == Some(sha(data)) && sha(data) in files && sha(files[sha(data)]) == sha(data)
  }

  lemma PutStaysPut(sha: Sha, files: Files, hash: string, data: Blob, other: string, otherData: Blob)
    requires ProducesHex(sha) && NormalizeHash(hash) == Some(sha(data))
    ensures IsPut(sha, AfterPut(sha, files, hash, data), hash, data)
    ensures IsPut(sha, files, other, otherData) ==> IsPut(sha, AfterPut(sha, files, hash, data), other, otherData)
  {
    if Verify(sha, files, hash).Ok? {
      VerifiedDigest(sha, files, hash, data);
      CanonicalIsInjective(sha(files[sha(data)]), sha(data));
    }
    hide Verify, NormalizeHash, Canonical;
  }

  /** The manifest as it is hashed: stamped with the voter configuration. */
  function Unhashed(manifest: Manifest, index: U64): Manifest {
    manifest.(voterConfigurationIndex := index)
  }

  /** `PublishSnapshot` after its leadership check. `checked` is the metadata read when the manifest is
      validated, `proposed` the one read when the command is built, `encode` the JSON text of the payload,
      `before` and `after` the two reads of the voter configuration. It proposes or says why not. */
  method PublishSnapshot(keeper: SnapshotKeeper, h: Hashes, encode: Manifest -> string, self: string, id: string,
                         manifest: Manifest, blobs: map<string, Blob>,
                         checked: MetadataState, proposed: MetadataState,
                         before: Configuration, after: Configuration, peers: map<string, Files>)
    returns (command: Option<Command>, failure: Option<PublishError>, stores: map<string, Files>, ackers: set<string>)
    requires keeper.Valid() && ProducesHex(keeper.store.sha) && Indexed(h, checked)
    requires forall i, j :: 0 <= i < j < |before.voters| ==> before.voters[i] != before.voters[j]
    modifies keeper, keeper.store
    ensures keeper.Valid() && keeper.inProgress == old(keeper.inProgress) && keeper.staging == old(keeper.staging)
    ensures command.Some? ==>
              && command.value.body.CommitSnapshot? && command.value.body.commit.Some?
              && var stamped := command.value.body.commit.value;
                 && IsStamped(h, manifest, before.index, stamped) && after.index == before.index
                 && ValidManifest(stamped) && AdmittedByGate(stamped, checked.gate)
                 && (OrdersSequences(checked.gate) ==>
                       IsNextSequence(ActiveSequence(checked), stamped.generation.sequence))
                 && 2 * |ackers| > |before.voters|
                 && (forall node | node in ackers :: node in before.voters && node in stores
                       && HoldsBlobs(keeper.store.sha, stores[node], stamped))
                 && (self in before.voters ==> HoldsBlobs(keeper.store.sha, keeper.store.files, stamped))
    ensures command.Some? ==>
              && command.value.id == id && command.value.expectedRevision == Some(proposed.revision)
              && command.value.leaderEpoch == proposed.leaderEpoch
              && command.value.payloadText == encode(command.value.body.commit.value)
              && command.value.protocolVersion == Normalized(proposed.gate).protocolVersion
              && command.value.commandVersion == Normalized(proposed.gate).commandVersion
    ensures command.Some? && id != "" && CommandDigest(h, command.value).Some? ==>
              IsProposal(h, proposed, command.value)
    ensures command.Some? <==> failure.None?
    ensures failure == Some(NotAdmitted) <==> !AdmittedByGate(manifest, checked.gate)
    ensures failure == Some(Malformed) <==> AdmittedByGate(manifest, checked.gate) && !ValidManifest(manifest)
    ensures failure == Some(OutOfOrder) <==>
              && AdmittedByGate(manifest, checked.gate) && ValidManifest(manifest) && OrdersSequences(checked.gate)
              && !IsNextSequence(ActiveSequence(checked), manifest.generation.sequence)
    ensures failure in {Some(NotAdmitted), Some(Malformed), Some(OutOfOrder)} ==>
              keeper.store.files == old(keeper.store.files) && keeper.store.quarantined == old(keeper.store.quarantined)
    ensures KeepsLocalFiles(keeper.store.sha, blobs, old(keeper.store.files), old(keeper.store.quarantined),
                            keeper.store.files, keeper.store.quarantined)
    ensures failure !in {Some(NotAdmitted), Some(Malformed), Some(OutOfOrder)} ==>
              GivesUpForCause(keeper.store.sha, keeper.store.files, h, self, manifest, blobs, before, after, ackers,
                              failure)
  {
    hide HoldsBlobs, IsPut, GivesUpForCause, KeepsLocalFiles, OnlyTouches;
    command, stores, ackers := None, peers, {};
    NothingPutYet(keeper.store.sha, blobs, keeper.store.files, keeper.store.quarantined);
    var gate := NormalizeCapabilityGate(checked.gate);
    NormalizedIsStable(checked.gate);
    AdmissionSeesNormalizedGate(manifest, checked.gate, gate);
    if !AdmittedByGate(manifest, gate) {
      failure := Some(NotAdmitted);
      return;
    }
    var shapeAccepted := ValidateManifest(manifest);
    if !shapeAccepted {
      failure := Some(Malformed);
      return;
    }
    if OrdersSequences(checked.gate) && !IsNextSequence(ActiveSequence(checked), manifest.generation.sequence) {
      failure := Some(OutOfOrder);
      return;
    }
    keeper.RetainStagingBlobs(manifest);
    command, failure, stores, ackers :=
      PublishStaged(keeper, h, encode, self, id, manifest, blobs, proposed, before, after, peers);
    keeper.ReleaseStagingBlobs(manifest, 0);
    assert keeper.inProgress == old(keeper.inProgress);
  }

  lemma NothingPutYet(sha: Sha, blobs: map<string, Blob>, files: Files, quarantine: seq<(string, Blob)>)
    ensures KeepsLocalFiles(sha, blobs, files, quarantine, files, quarantine)
  {
  }

  /** After the checks, each failure has its cause, and no cause is passed over: whatever comes after the
      puts means that every given blob has the digest its hash names and is in place. */
  predicate GivesUpForCause(sha: Sha, files: Files, h: Hashes, self: string, manifest: Manifest,
                            blobs: map<string, Blob>, before: Configuration, after: Configuration, ackers: set<string>,
                            failure: Option<PublishError>) {
    var sum := ComputeManifestHash(h.manifestSum, Unhashed(manifest, before.index));
    && (failure != Some(StoreFailed) ==> forall hash :: hash in blobs ==> IsPut(sha, files, hash, blobs[hash]))
    && (failure == Some(StoreFailed) ==> blobs != map[])
    && (failure == Some(Unhashable) ==> sum.None?)
    && (failure != Some(StoreFailed) && sum.None? ==> failure == Some(Unhashable))
    && (failure == Some(NotDurable) ==> sum.Some?)
    && (failure == Some(NotDurable) && 2 * |ackers| > |before.voters| ==>
          self in before.voters && !HoldsBlobs(sha, files, WithHash(Unhashed(manifest, before.index), sum.value)))
    && (failure == Some(ConfigurationChanged) ==> 2 * |ackers| > |before.voters| && after.index != before.index)
    && (after.index != before.index ==> failure.Some?)
  }

  function WithHash(manifest: Manifest, hash: string): Manifest {
    manifest.(generation := manifest.generation.(manifestHash := hash))
  }

  /** The part between the retain and the deferred release. */
  method PublishStaged(keeper: SnapshotKeeper, h: Hashes, encode: Manifest -> string, self: string, id: string,
                       manifest: Manifest, blobs: map<string, Blob>,
                       proposed: MetadataState, before: Configuration, after: Configuration, peers: map<string, Files>)
    returns (command: Option<Command>, failure: Option<PublishError>, stores: map<string, Files>, ackers: set<string>)
    requires ProducesHex(keeper.store.sha)
    requires forall i, j :: 0 <= i < j < |before.voters| ==> before.voters[i] != before.voters[j]
    modifies keeper.store
    ensures command.Some? ==>
              && command.value.body.CommitSnapshot? && command.value.body.commit.Some?
              && var stamped := command.value.body.commit.value;
                 && IsStamped(h, manifest, before.index, stamped) && after.index == before.index
                 && 2 * |ackers| > |before.voters|
                 && (forall node | node in ackers :: node in before.voters && node in stores
                       && HoldsBlobs(keeper.store.sha, stores[node], stamped))
                 && (self in before.voters ==> HoldsBlobs(keeper.store.sha, keeper.store.files, stamped))
    ensures command.Some? ==>
              && command.value.id == id && command.value.expectedRevision == Some(proposed.revision)
              && command.value.leaderEpoch == proposed.leaderEpoch
              && command.value.payloadText == encode(command.value.body.commit.value)
              && command.value.protocolVersion == Normalized(proposed.gate).protocolVersion
              && command.value.commandVersion == Normalized(proposed.gate).commandVersion
    ensures command.Some? <==> failure.None?
    ensures failure !in {Some(NotAdmitted), Some(Malformed), Some(OutOfOrder)}
    ensures KeepsLocalFiles(keeper.store.sha, blobs, old(keeper.store.files), old(keeper.store.quarantined),
                            keeper.store.files, keeper.store.quarantined)
    ensures GivesUpForCause(keeper.store.sha, keeper.store.files, h, self, manifest, blobs, before, after, ackers,
                            failure)
  {
    hide HoldsBlobs, Verify, AfterPut, Displaced, IsPut, KeepsLocalFiles, OnlyTouches, NothingLost;
    command, stores, ackers := None, peers, {};
    var put := PutBlobs(keeper.store, blobs);
    if !put {
      failure := Some(StoreFailed);
      return;
    }
    var stamped := manifest.(voterConfigurationIndex := before.index);
    var sum := ComputeManifestHash(h.manifestSum, stamped);
    if sum.None? {
      failure := Some(Unhashable);
      return;
    }
    stamped := stamped.(generation := stamped.generation.(manifestHash := sum.value));
    var durable;
    stores, ackers, durable := ReplicateSnapshotBlobs(
      keeper.store.sha, self, keeper.store.files, stamped, before.voters, peers[self := keeper.store.files]);
    if !durable {
      failure := Some(NotDurable);
      return;
    }
    if after.index != before.index {
      failure := Some(ConfigurationChanged);
      return;
    }
    failure := None;
    command := Some(Command(Normalized(proposed.gate).protocolVersion, Normalized(proposed.gate).commandVersion, id,
                            Some(proposed.revision), proposed.leaderEpoch,
                            CommitSnapshot(Some(stamped)), encode(stamped)));
  }

  /** The loop that stores the given blobs and stops at the first failure. */
  method PutBlobs(store: BlobStore, blobs: map<string, Blob>) returns (put: bool)
    requires ProducesHex(store.sha)
    modifies store
    ensures put ==> forall hash :: hash in blobs ==> IsPut(store.sha, store.files, hash, blobs[hash])
    ensures !put ==> blobs != map[]
    ensures KeepsLocalFiles(store.sha, blobs, old(store.files), old(store.quarantined), store.files, store.quarantined)
  {
    hide Verify, AfterPut, Displaced, IsPut, KeepsLocalFiles, OnlyTouches, NothingLost;
    NothingPutYet(store.sha, blobs, store.files, store.quarantined);
    var hashes := blobs.Keys;
    while hashes != {}
      invariant hashes <= blobs.Keys
      invariant forall hash :: hash in blobs && hash !in hashes ==> IsPut(store.sha, store.files, hash, blobs[hash])
      invariant KeepsLocalFiles(store.sha, blobs, old(store.files), old(store.quarantined),
                                store.files, store.quarantined)
      decreases hashes
    {
      var hash :| hash in hashes;
      hashes := hashes - {hash};
      ghost var files, quarantine := store.files, store.quarantined;
      var stored := store.PutHash(hash, blobs[hash]);
      PutKeepsLocalFiles(store.sha, blobs, hash, old(store.files), old(store.quarantined),
                         files, quarantine, store.files, store.quarantined);
      if stored.Err? {
        return false;
      }
      forall other | other in blobs && (other == hash || other !in hashes)
        ensures IsPut(store.sha, store.files, other, blobs[other])
      {
        PutStaysPut(store.sha, files, hash, blobs[hash], other, blobs[other]);
      }
    }
    return true;
  }

  // ------------------------------------------------- what the proposal does

  /** The command that `PublishSnapshot` builds from the metadata it read last. */
  predicate IsProposal(h: Hashes, proposed: MetadataState, command: Command) {
    && command.id != "" && command.expectedRevision == Some(proposed.revision)
    && command.leaderEpoch == proposed.leaderEpoch
    && command.protocolVersion == Normalized(proposed.gate).protocolVersion
    && command.commandVersion == Normalized(proposed.gate).commandVersion
    && CommandDigest(h, command).Some?
    && command.body.CommitSnapshot? && command.body.commit.Some?
    && ComputeManifestHash(h.manifestSum, command.body.commit.value)
       == Some(command.body.commit.value.generation.manifestHash)
  }

  /** The manifest belongs to the cluster and the epoch that were read, and is next in order if order matters. */
  predicate FitsState(proposed: MetadataState, m: Manifest)
    requires proposed.activeSnapshot != "" ==> proposed.activeSnapshot in proposed.snapshots
  {
    && proposed.leaderOwner != ""
    && m.generation.clusterId == proposed.clusterId && m.generation.leaderEpoch == proposed.leaderEpoch
    && (OrdersSequences(proposed.gate) ==> IsNextSequence(ActiveSequence(proposed), m.generation.sequence))
  }

  /** What one node does with a proposal, when its state is the one that was read apart from the fault. */
  lemma ProposalAtItsRevision(h: Hashes, c: NodeCapabilities, s: MetadataState, command: Command, index: U64)
    requires s.applyFault.None? && SupportsGate(c, s.gate, false) && IsProposal(h, s, command)
    requires command.id !in s.applied
    requires s.activeSnapshot != "" ==> s.activeSnapshot in s.snapshots
    ensures var m, entry := command.body.commit.value, Entry(index, Some(command));
            var t := Step(h, c, s, entry).0;
            && (t.applyFault.Some? <==> FitsState(s, m) && !AdmittedByGate(m, s.gate))
            && (TakesEffect(h, c, s, entry) <==> FitsState(s, m) && AdmittedByGate(m, s.gate))
  {
    assert WithVersions(command) == command by {
      NormalizedIsStable(s.gate);
    }
    hide AdmittedByGate, ComputeManifestHash, IsNextSequence, OrdersSequences, CommandDigest;
  }

  /** At any other revision the proposal never takes effect, and halts the node only if the command
      versions changed meanwhile. */
  lemma ProposalAtAnotherRevision(h: Hashes, c: NodeCapabilities, s: MetadataState, proposed: MetadataState,
                                  command: Command, index: U64)
    requires s.applyFault.None? && SupportsGate(c, s.gate, false) && IsProposal(h, proposed, command)
    requires s.revision != proposed.revision || command.id in s.applied
    ensures var entry := Entry(index, Some(command));
            && (Step(h, c, s, entry).0.applyFault.Some? <==> !SameVersions(s.gate, proposed.gate))
            && !TakesEffect(h, c, s, entry)
  {
    assert WithVersions(command) == command by {
      NormalizedIsStable(proposed.gate);
    }
    hide EffectOf, CommandDigest;
  }

  /** The leader reads the metadata after entry `i` and proposes; any node applies the proposal as entry
      `j`. It halts that node exactly when the gate that the leader read does not admit the manifest
      and nothing was applied in between, or when an activation in between changed the command
      versions. It takes effect exactly when nothing was applied in between and that gate admits it. */
  lemma ProposalOutcome(h: Hashes, leader: NodeCapabilities, c: NodeCapabilities, clusterId: string, log: seq<Entry>,
                        i: nat, j: nat, command: Command)
    requires ValidLog(log) && i <= j < |log| && log[j].data == Some(command)
    requires SupportsGate(c, LEGACY_GATE, false)
    requires Run(h, leader, InitialState(clusterId), log[..i]).applyFault.None?
    requires Run(h, c, InitialState(clusterId), log[..j]).applyFault.None?
    requires IsProposal(h, Run(h, leader, InitialState(clusterId), log[..i]), command)
    ensures var proposed := Run(h, leader, InitialState(clusterId), log[..i]);
            var s := Run(h, c, InitialState(clusterId), log[..j]);
            var m := command.body.commit.value;
            var current := s.revision == proposed.revision && command.id !in s.applied;
            && Indexed(h, proposed)
            && (Step(h, c, s, log[j]).0.applyFault.Some? <==>
                  || (current && FitsState(proposed, m) && !AdmittedByGate(m, proposed.gate))
                  || !SameVersions(s.gate, proposed.gate))
            && (TakesEffect(h, c, s, log[j]) <==> current && FitsState(proposed, m) && AdmittedByGate(m, proposed.gate))
  {
    var init := InitialState(clusterId);
    var proposed, s := Run(h, leader, init, log[..i]), Run(h, c, init, log[..j]);
    InitialIsIndexed(h, clusterId);
    IndexOverRun(h, leader, init, log[..i]);
    IndexOverRun(h, c, init, log[..j]);
    UnfaultedRunIsIdeal(h, leader, init, log[..i]);
    UnfaultedRunIsIdeal(h, c, init, log[..j]);
    ApplyingKeepsGateSupported(h, c, init, log[..j]);
    hide Step, Run, AdmittedByGate, TakesEffect, Indexed, SupportsGate, FitsState, IsProposal, Normalized;
    assert log[j] == Entry(log[j].index, Some(command));
    if s.revision == proposed.revision {
      RevisionDeterminesState(h, FULLY_CAPABLE, clusterId, log, i, j);
      assert s == proposed;
    }
    if s.revision == proposed.revision && command.id !in s.applied {
      ActiveIsFiled(h, s);
      ProposalAtItsRevision(h, c, s, command, log[j].index);
    } else {
      ProposalAtAnotherRevision(h, c, s, proposed, command, log[j].index);
    }
  }

  lemma ActiveIsFiled(h: Hashes, s: MetadataState)
    requires Indexed(h, s)
    ensures s.activeSnapshot != "" ==> s.activeSnapshot in s.snapshots
  {
  }

  lemma AdmissionSeesNormalizedGate(manifest: Manifest, a: CapabilityGate, b: CapabilityGate)
    requires Normalized(a) == Normalized(b)
    ensures AdmittedByGate(manifest, a) == AdmittedByGate(manifest, b)
  {
  }
}
