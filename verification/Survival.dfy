/** Blobs over whole runs of one node: publications, incoming blobs, applied entries and collection
    passes, whose reads and removals are separate steps, in any interleaving. */
module Survival {
  import opened Common
  import opened Capability
  import opened Snapshots
  import opened MetadataFsm
  import opened BlobStores
  import opened Retention
  import opened SnapshotIndex

  datatype Env = Env(hashes: Hashes, capabilities: NodeCapabilities, sha: Sha, policy: Policy)

  /** A collection pass: it reads the metadata, then the staged hashes and the clock, and then walks
      the files with what it read, removing some of them one by one. */
  datatype Pass =
    | NoPass
    | Reading(seen: MetadataState)
    | Walking(seen: MetadataState, staged: set<string>, now: int, order: seq<string>)

  datatype NodeState = NodeState(meta: MetadataState, inProgress: seq<Manifest>, files: Files, pass: Pass)

  datatype Event =
    | BeginPublish(manifest: Manifest)
    | EndPublish(i: nat)
    | ReceiveBlob(hash: string, data: Blob, stored: bool)
    | ApplyEntry(entry: Entry)
    | ReadMetadata
    | ReadStaged(now: int, order: seq<string>)
    | Remove(hex: string)
    | EndPass

  /** What the event may do, as the contracts of the store allow. A put that is not `stored` failed
      somewhere; a walk may stop anywhere. */
  ghost predicate Happens(env: Env, s: NodeState, event: Event, t: NodeState) {
    match event
    case BeginPublish(manifest) => t == s.(inProgress := [manifest] + s.inProgress)
    case EndPublish(i) => i < |s.inProgress| && t == s.(inProgress := s.inProgress[..i] + s.inProgress[i + 1..])
    case ReceiveBlob(hash, data, stored) => t == s.(files := t.files) && PutMay(env.sha, s.files, event, t.files)
    case ApplyEntry(entry) => t == s.(meta := Step(env.hashes, env.capabilities, s.meta, entry).0)
    case ReadMetadata => s.pass.NoPass? && t == s.(pass := Reading(s.meta))
    case ReadStaged(now, order) =>
      && s.pass.Reading? && NewestFirst(s.pass.seen.snapshots, order)
      && t == s.(pass := Walking(s.pass.seen, StagedHashes(s), now, order))
    case Remove(hex) => MayRemove(env, s, hex) && t == s.(files := s.files - {hex})
    case EndPass => t == s.(pass := NoPass)
  }

  /** The outcomes that the contract of `PutHash` leaves open. */
  ghost predicate PutMay(sha: Sha, before: Files, event: Event, after: Files)
    requires event.ReceiveBlob?
  {
    && (event.stored ==> after == Perform(sha, before, PutBlob(event.hash, event.data)))
    && OnlyTouches(sha, sha(event.data), before, after)
    && (NormalizeHash(event.hash) != Some(sha(event.data)) ==> after == before)
    && (Verify(sha, before, event.hash).Ok? ==> after == before)
  }

  ghost function StagedHashes(s: NodeState): set<string> {
    CountersFor(TotalBlobs(s.inProgress)).Keys
  }

  /** The order of a pass was computed from the metadata it read. */
  ghost predicate PassIsOrdered(pass: Pass) {
    pass.Walking? ==> NewestFirst(pass.seen.snapshots, pass.order)
  }

  ghost predicate PassRetains(env: Env, pass: Pass, hash: string)
    requires pass.Walking? && PassIsOrdered(pass)
  {
    Retained(pass.seen, pass.staged, pass.order, env.policy, pass.now, hash)
  }

  /** The walk may remove the file now. */
  ghost predicate MayRemove(env: Env, s: NodeState, hex: string) {
    && s.pass.Walking? && PassIsOrdered(s.pass)
    && |hex| == SHA256_HEX_LENGTH && !PassRetains(env, s.pass, Canonical(hex))
  }

  ghost predicate IsRun(env: Env, states: seq<NodeState>, events: seq<Event>) {
    && |states| == |events| + 1
    && forall i :: 0 <= i < |events| ==> Happens(env, states[i], events[i], states[i + 1])
  }

  predicate Intact(sha: Sha, files: Files, hex: string) {
    hex in files && sha(files[hex]) == hex
  }

  ghost predicate Sound(env: Env, s: NodeState) {
    Indexed(env.hashes, s.meta) && (!s.pass.NoPass? ==> Indexed(env.hashes, s.pass.seen)) && PassIsOrdered(s.pass)
  }

  // ----------------------------------------------------------------- one event

  /** A failed put of these very bytes under the hash without its prefix: the intact file was moved away. */
  predicate MayDisplace(sha: Sha, event: Event, hex: string) {
    && event.ReceiveBlob? && !event.stored
    && sha(event.data) == hex && NormalizeHash(event.hash) == Some(hex) && !(HASH_PREFIX_SHA256 <= event.hash)
  }

  /** An intact file stays intact in every way a put can go if and only if the put is not a failing
      one under the bare digest of that file. */
  lemma PutKeepsIntact(env: Env, s: NodeState, event: Event, hex: string)
    requires ProducesHex(env.sha) && event.ReceiveBlob? && Intact(env.sha, s.files, hex)
    ensures (forall t :: Happens(env, s, event, t) ==> Intact(env.sha, t.files, hex))
            <==> !MayDisplace(env.sha, event, hex)
  {
    if MayDisplace(env.sha, event, hex) {
      var t := s.(files := s.files - {hex});
      FailedBarePutMayLose(env, s, event, hex);
      assert Happens(env, s, event, t) && !Intact(env.sha, t.files, hex);
    } else {
      forall t | Happens(env, s, event, t) ensures Intact(env.sha, t.files, hex) {
        StoredOrNamed(env, s, event, t, hex);
      }
    }
  }

  lemma FailedBarePutMayLose(env: Env, s: NodeState, event: Event, hex: string)
    requires MayDisplace(env.sha, event, hex) && Intact(env.sha, s.files, hex)
    ensures Happens(env, s, event, s.(files := s.files - {hex}))
  {
  }

  lemma StoredOrNamed(env: Env, s: NodeState, event: Event, t: NodeState, hex: string)
    requires ProducesHex(env.sha) && event.ReceiveBlob? && Intact(env.sha, s.files, hex) && Happens(env, s, event, t)
    requires !MayDisplace(env.sha, event, hex)
    ensures Intact(env.sha, t.files, hex)
  {
    var name := env.sha(event.data);
    if name != hex {
      assert hex in s.files - {name};
      assert hex in t.files - {name};
    } else if NormalizeHash(event.hash) == Some(hex) && !event.stored {
      assert event.hash == Canonical(hex);
      assert Verify(env.sha, s.files, event.hash).Ok?;
    }
  }

  /** An intact file stays intact in every way an event can go if and only if the event is neither a
      failing put under its bare digest nor its removal by a pass that does not retain it. */
  lemma EventKeepsIntact(env: Env, s: NodeState, event: Event, hex: string)
    requires ProducesHex(env.sha) && Intact(env.sha, s.files, hex)
    ensures (forall t :: Happens(env, s, event, t) ==> Intact(env.sha, t.files, hex))
            <==> !MayDisplace(env.sha, event, hex) && !(event == Remove(hex) && MayRemove(env, s, hex))
  {
    if event.ReceiveBlob? {
      PutKeepsIntact(env, s, event, hex);
    } else if event == Remove(hex) && MayRemove(env, s, hex) {
      assert Happens(env, s, event, s.(files := s.files - {hex}));
    }
    hide Step, Perform, Verify, NormalizeHash, OnlyTouches, PassRetains, NewestFirst, Indexed, PutMay, Canonical;
  }

  lemma EventKeepsSound(env: Env, s: NodeState, event: Event, t: NodeState)
    requires Happens(env, s, event, t) && Sound(env, s)
    ensures Sound(env, t)
  {
    if event.ApplyEntry? {
      StepKeepsIndex(env.hashes, env.capabilities, s.meta, event.entry);
    }
    hide Step, Indexed, PutMay, PassRetains, NewestFirst;
  }

  // ---------------------------------------------------------------- whole runs

  lemma {:induction false} SoundThroughout(env: Env, states: seq<NodeState>, events: seq<Event>, i: nat)
    requires IsRun(env, states, events) && Sound(env, states[0]) && i <= |events|
    ensures Sound(env, states[i])
  {
    hide Happens, Sound;
    if i > 0 {
      SoundThroughout(env, states, events, i - 1);
      assert Happens(env, states[i - 1], events[i - 1], states[i - 1 + 1]);
      EventKeepsSound(env, states[i - 1], events[i - 1], states[i]);
    }
  }

  /** The hash was staged when the pass looked, or belongs to a manifest that it saw and that is served. */
  ghost predicate PassProtects(env: Env, pass: Pass, hash: string)
    requires pass.Walking?
  {
    || hash in pass.staged
    || exists key :: key in pass.seen.snapshots && Served(pass.seen, env.policy, pass.now, key)
         && hash in References(pass.seen.snapshots[key])
  }

  lemma ProtectedIsRetained(env: Env, s: NodeState, hash: string)
    requires s.pass.Walking? && Sound(env, s) && PassProtects(env, s.pass, hash)
    ensures PassRetains(env, s.pass, hash)
  {
    var pass := s.pass;
    if hash !in pass.staged {
      var key :| key in pass.seen.snapshots && Served(pass.seen, env.policy, pass.now, key)
        && hash in References(pass.seen.snapshots[key]);
      ServedIsRetained(pass.seen, pass.staged, pass.order, env.policy, pass.now, key, hash);
    }
  }

  /** Over every interleaving, a blob that is intact at some point stays intact as long as each pass that
      walks found it staged or served in its two reads and no put under its bare digest fails. */
  lemma {:induction false} ProtectedBlobSurvives(env: Env, states: seq<NodeState>, events: seq<Event>, hex: string,
                                                 from: nat, to: nat)
    requires ProducesHex(env.sha) && IsRun(env, states, events) && Sound(env, states[0])
    requires from <= to <= |events| && Intact(env.sha, states[from].files, hex)
    requires forall i :: from <= i < to && states[i].pass.Walking? ==> PassProtects(env, states[i].pass, Canonical(hex))
    requires forall i :: from <= i < to ==> !MayDisplace(env.sha, events[i], hex)
    ensures Intact(env.sha, states[to].files, hex)
  {
    hide Happens, Sound, Intact, PassProtects, PassRetains, MayDisplace, Canonical, ProducesHex;
    if from < to {
      ProtectedBlobSurvives(env, states, events, hex, from, to - 1);
      assert Happens(env, states[to - 1], events[to - 1], states[to - 1 + 1]);
      SoundThroughout(env, states, events, to - 1);
      if states[to - 1].pass.Walking? {
        ProtectedIsRetained(env, states[to - 1], Canonical(hex));
      }
      EventKeepsIntact(env, states[to - 1], events[to - 1], hex);
    }
  }

  // ------------------------------------------------------ what a pass has read

  /** The last event before state `i` at which a pass read the metadata, if any. */
  function ReadBy(events: seq<Event>, i: nat): Option<nat>
    requires i <= |events|
  {
    if i == 0 then None else if events[i - 1].ReadMetadata? then Some(i - 1) else ReadBy(events, i - 1)
  }

  /** The last event before state `i` at which a pass read the staged hashes, if any. */
  function StagedBy(events: seq<Event>, i: nat): Option<nat>
    requires i <= |events|
  {
    if i == 0 then None else if events[i - 1].ReadStaged? then Some(i - 1) else StagedBy(events, i - 1)
  }

  /** What one event does to the metadata and to the pass. */
  lemma EventOnPass(env: Env, s: NodeState, event: Event, t: NodeState)
    requires Happens(env, s, event, t)
    ensures t.meta == if event.ApplyEntry? then Step(env.hashes, env.capabilities, s.meta, event.entry).0 else s.meta
    ensures match event {
              case ReadMetadata => t.pass == Reading(s.meta)
              case ReadStaged(_, _) => s.pass.Reading? && t.pass.Walking? && t.pass.seen == s.pass.seen
                                       && t.pass.staged == StagedHashes(s)
              case EndPass => t.pass == NoPass
              case _ => t.pass == s.pass
            }
  {
    hide Step, PutMay, PassRetains, NewestFirst;
  }

  ghost predicate PassMatches(states: seq<NodeState>, events: seq<Event>, i: nat)
    requires |states| == |events| + 1 && i <= |events|
  {
    && (!states[i].pass.NoPass? ==>
          match ReadBy(events, i)
          case Some(r) => r < i && states[i].pass.seen == states[r].meta
          case None => !states[0].pass.NoPass? && states[i].pass.seen == states[0].pass.seen)
    && (states[i].pass.Walking? ==>
          match StagedBy(events, i)
          case Some(q) => q < i && states[i].pass.staged == StagedHashes(states[q])
          case None => states[i].pass == states[0].pass)
  }

  lemma {:induction false} PassReadEarlier(env: Env, states: seq<NodeState>, events: seq<Event>, i: nat)
    requires IsRun(env, states, events) && i <= |events|
    ensures PassMatches(states, events, i)
  {
    hide Happens, StagedHashes;
    if i > 0 {
      PassReadEarlier(env, states, events, i - 1);
      assert Happens(env, states[i - 1], events[i - 1], states[i - 1 + 1]);
      EventOnPass(env, states[i - 1], events[i - 1], states[i]);
    }
  }

  // --------------------------------------------------------- one publication

  /** Where the publication that began at event `b` stands in the list of those in progress, at state
      `i`; `None` once it ended. Publications that begin later stand before it. */
  function Place(events: seq<Event>, b: nat, i: nat): Option<nat>
    requires b < i <= |events|
  {
    if i == b + 1 then Some(0)
    else
      match Place(events, b, i - 1)
      case None => None
      case Some(at) =>
        match events[i - 1]
        case BeginPublish(_) => Some(at + 1)
        case EndPublish(j) => if j == at then None else if j < at then Some(at - 1) else Some(at)
        case _ => Some(at)
  }

  lemma PlaceMoves(env: Env, s: NodeState, event: Event, t: NodeState, at: nat)
    requires Happens(env, s, event, t) && at < |s.inProgress|
    ensures match event {
              case BeginPublish(_) => at + 1 < |t.inProgress| && t.inProgress[at + 1] == s.inProgress[at]
              case EndPublish(j) =>
                && (j < at ==> at - 1 < |t.inProgress| && t.inProgress[at - 1] == s.inProgress[at])
                && (j > at ==> at < |t.inProgress| && t.inProgress[at] == s.inProgress[at])
              case _ => t.inProgress == s.inProgress
            }
  {
    hide Step, PutMay, PassRetains, NewestFirst;
  }

  lemma {:induction false} PlaceHoldsManifest(env: Env, states: seq<NodeState>, events: seq<Event>, b: nat, i: nat)
    requires IsRun(env, states, events) && b < i <= |events| && events[b].BeginPublish?
    ensures Place(events, b, i).Some? ==>
              Place(events, b, i).value < |states[i].inProgress|
              && states[i].inProgress[Place(events, b, i).value] == events[b].manifest
  {
    assert Happens(env, states[i - 1], events[i - 1], states[i - 1 + 1]);
    if i > b + 1 {
      PlaceHoldsManifest(env, states, events, b, i - 1);
      hide Happens;
      if Place(events, b, i - 1).Some? {
        PlaceMoves(env, states[i - 1], events[i - 1], states[i], Place(events, b, i - 1).value);
      }
    }
    hide Step, PutMay, PassRetains, NewestFirst;
  }

  /** The event files and activates a manifest. */
  ghost predicate Commits(env: Env, s: NodeState, event: Event) {
    event.ApplyEntry? && CommitsManifest(env.hashes, env.capabilities, s.meta, event.entry)
  }

  /** A publication begun at event `b` whose datasets are committed at event `c`. The commit may land
      before or after the publisher returns, and other commits may follow. */
  ghost predicate IsPublication(env: Env, states: seq<NodeState>, events: seq<Event>, b: nat, c: nat)
    requires |states| == |events| + 1
  {
    && b < c < |events| && events[b].BeginPublish?
    && Commits(env, states[c], events[c])
    && CommittedAt(env, states, events, c).datasets == events[b].manifest.datasets
  }

  ghost function CommittedAt(env: Env, states: seq<NodeState>, events: seq<Event>, c: nat): Manifest
    requires |states| == |events| + 1 && c < |events| && Commits(env, states[c], events[c])
  {
    Committed(env.hashes, env.capabilities, states[c].meta, events[c].entry)
  }

  /** No manifest of the run collides with the given one. */
  ghost predicate Unrivalled(env: Env, states: seq<NodeState>, m: Manifest) {
    forall k :: 0 <= k < |states| && m.generation.manifestHash in states[k].meta.snapshots ==>
      !Collide(env.hashes.manifestSum, m, states[k].meta.snapshots[m.generation.manifestHash])
  }

  predicate FiledIn(s: MetadataState, m: Manifest) {
    m.generation.manifestHash in s.snapshots && s.snapshots[m.generation.manifestHash] == m
  }

  /** A committed manifest stays filed, whatever is committed later. */
  lemma {:induction false} CommitStaysFiled(env: Env, states: seq<NodeState>, events: seq<Event>, c: nat, i: nat)
    requires IsRun(env, states, events) && Sound(env, states[0]) && c < i <= |events|
    requires Commits(env, states[c], events[c]) && Unrivalled(env, states, CommittedAt(env, states, events, c))
    ensures FiledIn(states[i].meta, CommittedAt(env, states, events, c))
  {
    hide Step, CommitsManifest, Committed, Happens, Indexed, Collide;
    SoundThroughout(env, states, events, i - 1);
    assert Happens(env, states[i - 1], events[i - 1], states[i - 1 + 1]);
    EventOnPass(env, states[i - 1], events[i - 1], states[i]);
    if i == c + 1 {
      StepOnIndex(env.hashes, env.capabilities, states[c].meta, events[c].entry);
    } else {
      CommitStaysFiled(env, states, events, c, i - 1);
      if events[i - 1].ApplyEntry? {
        StepKeepsIndex(env.hashes, env.capabilities, states[i - 1].meta, events[i - 1].entry);
      }
    }
  }

  ghost predicate ActiveHolds(s: MetadataState, datasets: map<string, DatasetRef>) {
    s.activeSnapshot != "" && s.activeSnapshot in s.snapshots && s.snapshots[s.activeSnapshot].datasets == datasets
  }

  /** Until another commit, it is the active manifest. */
  lemma {:induction false} CommitStaysActive(env: Env, states: seq<NodeState>, events: seq<Event>, c: nat, i: nat)
    requires IsRun(env, states, events) && Sound(env, states[0]) && c < i <= |events|
    requires Commits(env, states[c], events[c])
    requires forall k :: c < k < i ==> !Commits(env, states[k], events[k])
    ensures var m := CommittedAt(env, states, events, c);
            states[i].meta.activeSnapshot == m.generation.manifestHash && ActiveHolds(states[i].meta, m.datasets)
  {
    hide Step, CommitsManifest, Committed, Happens, Indexed;
    SoundThroughout(env, states, events, i - 1);
    assert Happens(env, states[i - 1], events[i - 1], states[i - 1 + 1]);
    EventOnPass(env, states[i - 1], events[i - 1], states[i]);
    if i > c + 1 {
      CommitStaysActive(env, states, events, c, i - 1);
      assert !Commits(env, states[i - 1], events[i - 1]);
    }
    if events[i - 1].ApplyEntry? {
      StepOnIndex(env.hashes, env.capabilities, states[i - 1].meta, events[i - 1].entry);
    }
  }

  // ------------------------------------------------- passes around a publication

  /** At event `q` the publication that began at `b` is in progress. */
  predicate InProgressAt(events: seq<Event>, b: nat, q: Option<nat>) {
    q.Some? && b < q.value <= |events| && Place(events, b, q.value).Some?
  }

  /** The pass does not skip the manifest filed under the key. */
  ghost predicate KeepsKey(env: Env, pass: Pass, key: string)
    requires pass.Walking? && PassIsOrdered(pass)
  {
    exists i :: 0 <= i < |pass.order| && pass.order[i] == key && KeptAt(pass.seen, pass.order, env.policy, pass.now, i)
  }

  /** The pass that walks at state `i` read the staged hashes while the publication was in progress, or
      the metadata after its commit and at a time when its manifest is to be kept. */
  ghost predicate Covers(env: Env, states: seq<NodeState>, events: seq<Event>, b: nat, c: nat, i: nat)
    requires |states| == |events| + 1 && i <= |events| && states[i].pass.Walking? && PassIsOrdered(states[i].pass)
    requires c < |events| && Commits(env, states[c], events[c])
  {
    || InProgressAt(events, b, StagedBy(events, i))
    || (ReadAfter(events, c, i)
        && KeepsKey(env, states[i].pass, CommittedAt(env, states, events, c).generation.manifestHash))
  }

  /** The pass that runs at state `i` read the metadata after event `c`. */
  predicate ReadAfter(events: seq<Event>, c: nat, i: nat)
    requires i <= |events|
  {
    ReadBy(events, i).Some? && ReadBy(events, i).value > c
  }

  /** Somebody else needs the hash: another publication in progress when the pass looked, or another
      manifest that it keeps. */
  ghost predicate NeededByOthers(env: Env, states: seq<NodeState>, events: seq<Event>, b: nat, c: nat, i: nat,
                                 hash: string)
    requires |states| == |events| + 1 && i <= |events| && states[i].pass.Walking? && PassIsOrdered(states[i].pass)
    requires c < |events| && Commits(env, states[c], events[c])
  {
    var pass, key := states[i].pass, CommittedAt(env, states, events, c).generation.manifestHash;
    || (StagedBy(events, i).None? && hash in pass.staged)
    || (exists at :: StagedByOther(states, events, b, StagedBy(events, i), at, hash))
    || (exists k :: 0 <= k < |pass.order| && KeptAt(pass.seen, pass.order, env.policy, pass.now, k)
          && !(ReadAfter(events, c, i) && pass.order[k] == key)
          && hash in References(pass.seen.snapshots[pass.order[k]]))
  }

  ghost predicate StagedByOther(states: seq<NodeState>, events: seq<Event>, b: nat, q: Option<nat>, at: nat,
                                hash: string) {
    && q.Some? && q.value <= |events| && q.value < |states| && at < |states[q.value].inProgress|
    && hash in BlobsOf(states[q.value].inProgress[at].datasets)
    && (b < q.value ==> Place(events, b, q.value) != Some(at))
  }

  lemma {:induction false} InProgressIsCounted(manifests: seq<Manifest>, at: nat, hash: string)
    requires at < |manifests| && hash in BlobsOf(manifests[at].datasets)
    ensures hash in TotalBlobs(manifests)
  {
    hide BlobsOf;
    if at > 0 {
      assert manifests[1..][at - 1] == manifests[at];
      InProgressIsCounted(manifests[1..], at - 1, hash);
    }
  }

  lemma {:induction false} CountedIsInProgress(manifests: seq<Manifest>, hash: string) returns (at: nat)
    requires hash in TotalBlobs(manifests)
    ensures at < |manifests| && hash in BlobsOf(manifests[at].datasets)
  {
    hide BlobsOf;
    if hash in BlobsOf(manifests[0].datasets) {
      at := 0;
    } else {
      var rest := CountedIsInProgress(manifests[1..], hash);
      at := rest + 1;
    }
  }

  lemma CoveredIsRetained(env: Env, states: seq<NodeState>, events: seq<Event>, b: nat, c: nat, i: nat, name: string,
                          hash: string)
    requires IsRun(env, states, events) && Sound(env, states[0]) && IsPublication(env, states, events, b, c)
    requires Unrivalled(env, states, CommittedAt(env, states, events, c))
    requires i <= |events| && states[i].pass.Walking? && Sound(env, states[i])
    requires name in events[b].manifest.datasets && hash in BlobHashes(events[b].manifest.datasets[name])
    requires Covers(env, states, events, b, c, i)
    ensures PassRetains(env, states[i].pass, hash)
  {
    var manifest, pass, q := events[b].manifest, states[i].pass, StagedBy(events, i);
    var m := CommittedAt(env, states, events, c);
    PassReadEarlier(env, states, events, i);
    hide Happens, BlobHashes, Place, ReadBy, Commits, CommittedAt, NewestFirst, Unrivalled, KeptAt;
    if InProgressAt(events, b, q) {
      PlaceHoldsManifest(env, states, events, b, q.value);
      BlobIsCounted(manifest.datasets, name, hash);
      InProgressIsCounted(states[q.value].inProgress, Place(events, b, q.value).value, hash);
    } else {
      CommitStaysFiled(env, states, events, c, ReadBy(events, i).value);
      assert hash in DatasetReferences(m.datasets[name]);
      assert hash in References(m);
    }
  }

  lemma RetainedIsCoveredOrNeeded(env: Env, states: seq<NodeState>, events: seq<Event>, b: nat, c: nat, i: nat,
                                  hash: string)
    requires IsRun(env, states, events) && IsPublication(env, states, events, b, c)
    requires i <= |events| && Sound(env, states[i]) && states[i].pass.Walking? && PassRetains(env, states[i].pass, hash)
    ensures Covers(env, states, events, b, c, i) || NeededByOthers(env, states, events, b, c, i, hash)
  {
    var pass, q := states[i].pass, StagedBy(events, i);
    PassReadEarlier(env, states, events, i);
    hide Happens, BlobsOf, References, Place, ReadBy, StagedBy, Commits, CommittedAt, NewestFirst, KeptAt, Indexed;
    if hash in pass.staged {
      if q.Some? {
        var at := CountedIsInProgress(states[q.value].inProgress, hash);
        if !InProgressAt(events, b, q) || Place(events, b, q.value) != Some(at) {
          assert StagedByOther(states, events, b, q, at, hash);
        }
      }
    } else {
      var k :| 0 <= k < |pass.order| && KeptAt(pass.seen, pass.order, env.policy, pass.now, k)
        && hash in References(pass.seen.snapshots[pass.order[k]]);
    }
  }

  lemma NeededIsRetained(env: Env, states: seq<NodeState>, events: seq<Event>, b: nat, c: nat, i: nat, hash: string)
    requires IsRun(env, states, events) && IsPublication(env, states, events, b, c)
    requires i <= |events| && Sound(env, states[i]) && states[i].pass.Walking?
    requires NeededByOthers(env, states, events, b, c, i, hash)
    ensures PassRetains(env, states[i].pass, hash)
  {
    var pass, q := states[i].pass, StagedBy(events, i);
    PassReadEarlier(env, states, events, i);
    hide Happens, BlobsOf, References, Place, ReadBy, StagedBy, Commits, CommittedAt, NewestFirst, KeptAt, Indexed;
    if exists at :: StagedByOther(states, events, b, q, at, hash) {
      var at :| StagedByOther(states, events, b, q, at, hash);
      InProgressIsCounted(states[q.value].inProgress, at, hash);
    }
  }

  /** The walk can remove a blob of the publication if and only if the pass read the staged hashes
      outside the publication, and read the metadata before the commit or skips the manifest, and
      nobody else needs the blob. */
  lemma RemovalIsExact(env: Env, states: seq<NodeState>, events: seq<Event>, b: nat, c: nat, i: nat, name: string,
                       hex: string)
    requires IsRun(env, states, events) && Sound(env, states[0]) && IsPublication(env, states, events, b, c)
    requires Unrivalled(env, states, CommittedAt(env, states, events, c))
    requires i <= |events| && states[i].pass.Walking? && Sound(env, states[i]) && |hex| == SHA256_HEX_LENGTH
    requires name in events[b].manifest.datasets && Canonical(hex) in BlobHashes(events[b].manifest.datasets[name])
    ensures MayRemove(env, states[i], hex) <==>
            !Covers(env, states, events, b, c, i) && !NeededByOthers(env, states, events, b, c, i, Canonical(hex))
  {
    var hash := Canonical(hex);
    hide Happens, BlobHashes, Canonical, Covers, NeededByOthers, PassRetains, Indexed, NewestFirst;
    if Covers(env, states, events, b, c, i) {
      CoveredIsRetained(env, states, events, b, c, i, name, hash);
    } else if NeededByOthers(env, states, events, b, c, i, hash) {
      NeededIsRetained(env, states, events, b, c, i, hash);
    } else if PassRetains(env, states[i].pass, hash) {
      RetainedIsCoveredOrNeeded(env, states, events, b, c, i, hash);
    }
  }

  /** A run in which the publication commits a manifest that nothing collides with, and a blob of it. */
  ghost predicate Publishes(env: Env, states: seq<NodeState>, events: seq<Event>, b: nat, c: nat, name: string,
                            hex: string) {
    && ProducesHex(env.sha) && IsRun(env, states, events) && Sound(env, states[0])
    && IsPublication(env, states, events, b, c) && Unrivalled(env, states, CommittedAt(env, states, events, c))
    && name in events[b].manifest.datasets && Canonical(hex) in BlobHashes(events[b].manifest.datasets[name])
  }

  /** The event can lose a blob of the publication: a failing put under its bare digest, or its removal by
      a pass that does not cover the publication while nobody else needs the blob. */
  ghost predicate Threatens(env: Env, states: seq<NodeState>, events: seq<Event>, b: nat, c: nat, i: nat, hex: string)
    requires |states| == |events| + 1 && i < |events| && IsPublication(env, states, events, b, c)
  {
    || MayDisplace(env.sha, events[i], hex)
    || (&& events[i] == Remove(hex) && |hex| == SHA256_HEX_LENGTH
        && states[i].pass.Walking? && PassIsOrdered(states[i].pass)
        && !Covers(env, states, events, b, c, i) && !NeededByOthers(env, states, events, b, c, i, Canonical(hex)))
  }

  /** An intact blob of the publication stays intact in every way an event can go if and only if the
      event does not threaten it. */
  lemma ThreatIsExact(env: Env, states: seq<NodeState>, events: seq<Event>, b: nat, c: nat, i: nat, name: string,
                      hex: string)
    requires Publishes(env, states, events, b, c, name, hex)
    requires i < |events| && Intact(env.sha, states[i].files, hex)
    ensures (forall t :: Happens(env, states[i], events[i], t) ==> Intact(env.sha, t.files, hex))
            <==> !Threatens(env, states, events, b, c, i, hex)
  {
    SoundThroughout(env, states, events, i);
    EventKeepsIntact(env, states[i], events[i], hex);
    hide Happens, BlobHashes, Canonical, Covers, NeededByOthers, PassRetains, Indexed, NewestFirst, Intact,
      MayDisplace, Unrivalled, CommittedAt, ProducesHex;
    if events[i] == Remove(hex) && states[i].pass.Walking? && |hex| == SHA256_HEX_LENGTH {
      RemovalIsExact(env, states, events, b, c, i, name, hex);
    }
  }

  lemma UnthreatenedEvent(env: Env, states: seq<NodeState>, events: seq<Event>, b: nat, c: nat, i: nat, name: string,
                          hex: string)
    requires Publishes(env, states, events, b, c, name, hex)
    requires i < |events| && Intact(env.sha, states[i].files, hex) && !Threatens(env, states, events, b, c, i, hex)
    ensures Intact(env.sha, states[i + 1].files, hex)
  {
    ThreatIsExact(env, states, events, b, c, i, name, hex);
    assert Happens(env, states[i], events[i], states[i + 1]);
    hide Happens, Intact, Threatens;
  }

  /** Whatever interleaves, every blob of a published manifest that is in place stays in place, as long as
      no event threatens it. */
  lemma {:induction false} PublishedBlobsSurvive(env: Env, states: seq<NodeState>, events: seq<Event>, b: nat, c: nat,
                                                 name: string, hex: string, from: nat, to: nat)
    requires Publishes(env, states, events, b, c, name, hex)
    requires from <= to <= |events| && Intact(env.sha, states[from].files, hex)
    requires forall i :: from <= i < to ==> !Threatens(env, states, events, b, c, i, hex)
    ensures Intact(env.sha, states[to].files, hex)
  {
    hide Happens, Intact, Threatens, BlobHashes, Canonical, Unrivalled, ProducesHex, Sound, CommittedAt, Commits;
    if from < to {
      PublishedBlobsSurvive(env, states, events, b, c, name, hex, from, to - 1);
      UnthreatenedEvent(env, states, events, b, c, to - 1, name, hex);
    }
  }

  /** After the commit a pass whose metadata is new enough keeps the manifest, whichever way ties are
      broken, while it is active, unexpired or among the newest. So such passes cover it even after
      later commits. */
  lemma ServedIsCovered(env: Env, states: seq<NodeState>, events: seq<Event>, b: nat, c: nat, i: nat)
    requires IsRun(env, states, events) && Sound(env, states[0]) && IsPublication(env, states, events, b, c)
    requires Unrivalled(env, states, CommittedAt(env, states, events, c))
    requires i <= |events| && states[i].pass.Walking? && Sound(env, states[i]) && ReadAfter(events, c, i)
    ensures var key := CommittedAt(env, states, events, c).generation.manifestHash;
            && key in states[i].pass.seen.snapshots
            && (Served(states[i].pass.seen, env.policy, states[i].pass.now, key) ==>
                  Covers(env, states, events, b, c, i))
  {
    var pass, key := states[i].pass, CommittedAt(env, states, events, c).generation.manifestHash;
    PassReadEarlier(env, states, events, i);
    hide IsRun, Happens, ReadBy, Commits, CommittedAt, Unrivalled;
    CommitStaysFiled(env, states, events, c, ReadBy(events, i).value);
    if Served(pass.seen, env.policy, pass.now, key) {
      ServedIsKept(env, pass, key);
    }
  }

  lemma ServedIsKept(env: Env, pass: Pass, key: string)
    requires pass.Walking? && PassIsOrdered(pass) && Indexed(env.hashes, pass.seen)
    requires key in pass.seen.snapshots && Served(pass.seen, env.policy, pass.now, key)
    ensures KeepsKey(env, pass, key)
  {
    var i :| 0 <= i < |pass.order| && pass.order[i] == key;
    PositionIsBounded(pass.seen.snapshots, pass.order, i);
  }

  /** The pass that walks at state `i` looked while the publication was in progress, or after the commit and
      at a time when the manifest was active, unexpired or among the newest. */
  ghost predicate LooksInTime(env: Env, states: seq<NodeState>, events: seq<Event>, b: nat, c: nat, i: nat)
    requires |states| == |events| + 1 && i <= |events| && states[i].pass.Walking?
    requires IsPublication(env, states, events, b, c)
  {
    var pass, key := states[i].pass, CommittedAt(env, states, events, c).generation.manifestHash;
    || InProgressAt(events, b, StagedBy(events, i))
    || (ReadAfter(events, c, i) && key in pass.seen.snapshots && Served(pass.seen, env.policy, pass.now, key))
  }

  lemma InTimeIsNoThreat(env: Env, states: seq<NodeState>, events: seq<Event>, b: nat, c: nat, i: nat, name: string,
                         hex: string)
    requires Publishes(env, states, events, b, c, name, hex) && i < |events|
    requires states[i].pass.Walking? ==> LooksInTime(env, states, events, b, c, i)
    requires !MayDisplace(env.sha, events[i], hex)
    ensures !Threatens(env, states, events, b, c, i, hex)
  {
    SoundThroughout(env, states, events, i);
    hide Happens, BlobHashes, Canonical, NeededByOthers, NewestFirst, MayDisplace, Unrivalled, CommittedAt,
      ProducesHex, Commits, Served, KeepsKey, ReadBy, StagedBy, Place;
    if states[i].pass.Walking? && ReadAfter(events, c, i) {
      ServedIsCovered(env, states, events, b, c, i);
    }
  }

  /** From staging through the commit and later commits, until the manifest expires, there is no gap as
      long as every pass looks in time. */
  lemma PublishedBlobsSurviveHandover(env: Env, states: seq<NodeState>, events: seq<Event>, b: nat, c: nat,
                                      name: string, hex: string, from: nat, to: nat)
    requires Publishes(env, states, events, b, c, name, hex)
    requires from <= to <= |events| && Intact(env.sha, states[from].files, hex)
    requires forall i :: from <= i < to && states[i].pass.Walking? ==> LooksInTime(env, states, events, b, c, i)
    requires forall i :: from <= i < to ==> !MayDisplace(env.sha, events[i], hex)
    ensures Intact(env.sha, states[to].files, hex)
  {
    hide Happens, Intact, Threatens, BlobHashes, Canonical, Unrivalled, ProducesHex, Sound, CommittedAt, Commits,
      LooksInTime;
    forall i | from <= i < to ensures !Threatens(env, states, events, b, c, i, hex) {
      InTimeIsNoThreat(env, states, events, b, c, i, name, hex);
    }
    PublishedBlobsSurvive(env, states, events, b, c, name, hex, from, to);
  }

  /** Until another commit, every pass that reads the metadata after this one looks in time. */
  lemma ActiveIsInTime(env: Env, states: seq<NodeState>, events: seq<Event>, b: nat, c: nat, i: nat)
    requires IsRun(env, states, events) && Sound(env, states[0]) && IsPublication(env, states, events, b, c)
    requires i <= |events| && states[i].pass.Walking? && ReadAfter(events, c, i)
    requires forall k :: c < k < i ==> !Commits(env, states[k], events[k])
    ensures LooksInTime(env, states, events, b, c, i)
  {
    PassReadEarlier(env, states, events, i);
    hide Happens, Commits, CommittedAt;
    CommitStaysActive(env, states, events, c, ReadBy(events, i).value);
  }
}
