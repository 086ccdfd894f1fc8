/** Runs that show where the program promises less than one might expect. */
module Scenarios {
  import opened Common
  import opened Capability
  import opened Snapshots
  import opened MetadataFsm
  import opened Runs
  import opened Replicas
  import opened Compaction
  import opened SnapshotIndex
  import opened BlobStores
  import opened Retention
  import opened Survival

  /** Every text has a sum. */
  ghost predicate AlwaysHashes(h: Hashes) {
    (forall input :: h.digestSum(input).Some?) && (forall manifest :: h.manifestSum(manifest).Some?)
  }

  function NewCommand(id: string, revision: Option<U64>, epoch: U64, body: Body): Command {
    Command(1, 1, id, revision, epoch, body, "")
  }

  /** A command under the legacy versions, at the current revision, whose effect is accepted. */
  lemma AcceptedStep(h: Hashes, s: MetadataState, id: string, revision: Option<U64>, epoch: U64, body: Body, index: U64)
    requires AlwaysHashes(h) && s.applyFault.None? && id != "" && id !in s.applied
    requires revision.Some? ==> revision.value == s.revision
    requires Normalized(s.gate).protocolVersion == 1 && Normalized(s.gate).commandVersion == 1
    requires EffectOf(h, FULLY_CAPABLE, s, NewCommand(id, revision, epoch, body), index).Accept?
    ensures var entry := Entry(index, Some(NewCommand(id, revision, epoch, body)));
            var t := Step(h, FULLY_CAPABLE, s, entry).0;
            && TakesEffect(h, FULLY_CAPABLE, s, entry)
            && t == EffectOf(h, FULLY_CAPABLE, s, NewCommand(id, revision, epoch, body), index).state.(
                      revision := Increment(s.revision), applied := t.applied)
            && t.applied.Keys == s.applied.Keys + {id}
  {
    hide EffectOf;
    var command := NewCommand(id, revision, epoch, body);
    assert WithVersions(command) == command;
    assert CommandDigest(h, command).Some?;
    assert TakesEffect(h, FULLY_CAPABLE, s, Entry(index, Some(command)));
    hide Step, CommandDigest, Normalized;
    StepCases(h, FULLY_CAPABLE, s, Entry(index, Some(command)));
  }

  /** The leader "a" of term 1, under the gate `gate`, at a revision and with a set of ids already used. */
  predicate Led(s: MetadataState, gate: CapabilityGate, revision: U64, ids: set<string>) {
    && s.clusterId == "c" && s.leaderEpoch == 1 && s.leaderOwner == "a" && s.applyFault.None?
    && s.gate == Normalized(gate) && s.revision == revision && s.applied.Keys == ids
  }

  function Stamped(h: Hashes, datasets: map<string, DatasetRef>, sequence: U64): Manifest
    requires AlwaysHashes(h)
  {
    var bare := Manifest(1, Generation("c", 1, sequence, ""), 1, 0, datasets);
    bare.(generation := bare.generation.(manifestHash := ComputeManifestHash(h.manifestSum, bare).value))
  }

  lemma StampedEmbedsItsHash(h: Hashes, datasets: map<string, DatasetRef>, sequence: U64)
    requires AlwaysHashes(h)
    ensures var m := Stamped(h, datasets, sequence);
            ComputeManifestHash(h.manifestSum, m) == Some(m.generation.manifestHash)
  {
    assert WithoutHash(Stamped(h, datasets, sequence)) == Manifest(1, Generation("c", 1, sequence, ""), 1, 0, datasets);
  }

  function AcquireEntry(): Entry {
    Entry(1, Some(NewCommand("1", None, 0, AcquireLeadership(Some(AcquirePayload("a", 1))))))
  }

  lemma AfterAcquire(h: Hashes)
    requires AlwaysHashes(h)
    ensures var t := Step(h, FULLY_CAPABLE, InitialState("c"), AcquireEntry()).0;
            Led(t, LEGACY_GATE, 1, {"1"}) && t.activeSnapshot == "" && t.snapshots == map[]
  {
    AcceptedStep(h, InitialState("c"), "1", None, 0, AcquireLeadership(Some(AcquirePayload("a", 1))), 1);
  }

  /** The legacy gate, with another manifest schema or another minimum for voters. */
  function GateWith(schema: U32, voters: U32): CapabilityGate {
    CapabilityGate(1, 1, schema, map["*" := 1], 1, voters)
  }

  function ActivateEntry(id: string, revision: U64, gate: CapabilityGate, index: U64): Entry {
    Entry(index, Some(NewCommand(id, Some(revision), 1, ActivateCapabilities(Some(gate)))))
  }

  lemma AfterActivate(h: Hashes, s: MetadataState, ids: set<string>, id: string, schema: U32, voters: U32, index: U64)
    requires AlwaysHashes(h) && Led(s, LEGACY_GATE, s.revision, ids) && id != "" && id !in ids && schema != 0
    requires voters != 0
    ensures var t := Step(h, FULLY_CAPABLE, s, ActivateEntry(id, s.revision, GateWith(schema, voters), index)).0;
            && Led(t, GateWith(schema, voters), Increment(s.revision), ids + {id})
            && t.activeSnapshot == s.activeSnapshot && t.snapshots == s.snapshots
  {
    var next := GateWith(schema, voters);
    NormalizedIsStable(next);
    FullyCapableSupportsEveryGate(Normalized(next), false);
    AcceptedStep(h, s, id, Some(s.revision), 1, ActivateCapabilities(Some(next)), index);
  }

  function CommitEntry(id: string, revision: U64, manifest: Manifest, index: U64): Entry {
    Entry(index, Some(NewCommand(id, Some(revision), 1, CommitSnapshot(Some(manifest)))))
  }

  /** Datasets in the legacy schema. */
  predicate LegacyDatasets(datasets: map<string, DatasetRef>) {
    forall name :: name in datasets ==> datasets[name].schemaVersion == 1
  }

  lemma LegacyManifestIsAdmitted(h: Hashes, datasets: map<string, DatasetRef>, sequence: U64, gate: CapabilityGate)
    requires AlwaysHashes(h) && LegacyDatasets(datasets)
    requires gate == Normalized(LEGACY_GATE) || gate == Normalized(GateWith(1, 3))
    ensures AdmittedByGate(Stamped(h, datasets, sequence), gate)
  {
  }

  lemma AfterCommit(h: Hashes, s: MetadataState, gate: CapabilityGate, ids: set<string>, id: string,
                    datasets: map<string, DatasetRef>, sequence: U64, index: U64)
    requires AlwaysHashes(h) && Led(s, gate, s.revision, ids) && id != "" && id !in ids && LegacyDatasets(datasets)
    requires gate == LEGACY_GATE || gate == GateWith(1, 3)
    requires gate == GateWith(1, 3) ==> s.activeSnapshot in s.snapshots && IsNextSequence(ActiveSequence(s), sequence)
    ensures var m := Stamped(h, datasets, sequence);
            var entry := CommitEntry(id, s.revision, m, index);
            var t := Step(h, FULLY_CAPABLE, s, entry).0;
            && TakesEffect(h, FULLY_CAPABLE, s, entry) && Led(t, gate, Increment(s.revision), ids + {id})
            && t.activeSnapshot == m.generation.manifestHash != ""
            && t.snapshots == s.snapshots[m.generation.manifestHash := m]
  {
    var m := Stamped(h, datasets, sequence);
    NormalizedIsStable(gate);
    StampedEmbedsItsHash(h, datasets, sequence);
    LegacyManifestIsAdmitted(h, datasets, sequence, s.gate);
    assert OrdersSequences(LEGACY_GATE) == false;
    hide AdmittedByGate, ComputeManifestHash;
    AcceptedStep(h, s, id, Some(s.revision), 1, CommitSnapshot(Some(m)), index);
  }

  // ------------------------------------------------------------- building logs

  function Reached(h: Hashes, log: seq<Entry>): MetadataState {
    Run(h, FULLY_CAPABLE, InitialState("c"), log)
  }

  lemma Extended(h: Hashes, log: seq<Entry>, entry: Entry)
    ensures Reached(h, log + [entry]) == Step(h, FULLY_CAPABLE, Reached(h, log), entry).0
  {
    assert (log + [entry])[..|log|] == log;
  }

  lemma FirstLeader(h: Hashes)
    requires AlwaysHashes(h)
    ensures var s := Reached(h, [AcquireEntry()]);
            Led(s, LEGACY_GATE, 1, {"1"}) && s.activeSnapshot == "" && s.snapshots == map[]
  {
    hide Step;
    Extended(h, [], AcquireEntry());
    assert [] + [AcquireEntry()] == [AcquireEntry()];
    AfterAcquire(h);
  }

  // ----------------------------------------------------- a manifest comes back

  lemma LegacyCommit(h: Hashes, log: seq<Entry>, ids: set<string>, id: string, sequence: U64, index: U64)
    returns (longer: seq<Entry>)
    requires AlwaysHashes(h) && Led(Reached(h, log), LEGACY_GATE, Reached(h, log).revision, ids) && id != ""
    requires id !in ids
    ensures var m := Stamped(h, map[], sequence);
            var t := Reached(h, longer);
            && Led(t, LEGACY_GATE, t.revision, ids + {id}) && t.activeSnapshot == m.generation.manifestHash
            && t.snapshots == Reached(h, log).snapshots[m.generation.manifestHash := m]
  {
    var entry := CommitEntry(id, Reached(h, log).revision, Stamped(h, map[], sequence), index);
    hide Step, Reached, Stamped, CommitEntry, TakesEffect, IsNextSequence, Normalized;
    longer := log + [entry];
    Extended(h, log, entry);
    AfterCommit(h, Reached(h, log), LEGACY_GATE, ids, id, map[], sequence, index);
  }

  /** Sequence 5 was committed, then sequence 4. */
  ghost predicate WentBack(h: Hashes, s: MetadataState)
    requires AlwaysHashes(h)
  {
    var five, four := Stamped(h, map[], 5), Stamped(h, map[], 4);
    && s.activeSnapshot == four.generation.manifestHash
    && s.snapshots == map[five.generation.manifestHash := five][four.generation.manifestHash := four]
  }

  lemma LegacyCommits(h: Hashes) returns (log: seq<Entry>)
    requires AlwaysHashes(h)
    ensures var s := Reached(h, log); Led(s, LEGACY_GATE, s.revision, {"1"} + {"2"} + {"3"}) && WentBack(h, s)
  {
    FirstLeader(h);
    hide Reached, Stamped, Normalized, AcquireEntry;
    log := LegacyCommit(h, [AcquireEntry()], {"1"}, "2", 5, 2);
    log := LegacyCommit(h, log, {"1"} + {"2"}, "3", 4, 3);
  }

  lemma OrderedCommit(h: Hashes, s: MetadataState, ids: set<string>)
    requires AlwaysHashes(h) && Led(s, GateWith(1, 3), s.revision, ids) && "5" !in ids && WentBack(h, s)
    ensures var m := Stamped(h, map[], 5);
            && OrdersSequences(s.gate) && m.generation.manifestHash in s.snapshots
            && TakesEffect(h, FULLY_CAPABLE, s, CommitEntry("5", s.revision, m, 5))
  {
    assert OrdersSequences(s.gate) by { NormalizedIsStable(GateWith(1, 3)); }
    hide Step, TakesEffect, EffectOf, CommitEntry, OrdersSequences;
    AfterCommit(h, s, GateWith(1, 3), ids, "5", map[], 5, 5);
  }

  /** Sequences may run backwards before the gate asks for order, so the first ordered commit can
      file a manifest that is already there: its key is not new. */
  lemma OldManifestComesBack(h: Hashes) returns (log: seq<Entry>)
    requires AlwaysHashes(h)
    ensures var s := Run(h, FULLY_CAPABLE, InitialState("c"), log);
            var m := Stamped(h, map[], 5);
            && OrdersSequences(s.gate) && m.generation.manifestHash in s.snapshots
            && TakesEffect(h, FULLY_CAPABLE, s, CommitEntry("5", s.revision, m, 5))
  {
    hide Step, TakesEffect, Stamped, EffectOf, CommitEntry, ActivateEntry, OrdersSequences, Run;
    var legacy := LegacyCommits(h);
    var ids := {"1"} + {"2"} + {"3"};
    var entry := ActivateEntry("4", Reached(h, legacy).revision, GateWith(1, 3), 4);
    log := legacy + [entry];
    Extended(h, legacy, entry);
    AfterActivate(h, Reached(h, legacy), ids, "4", 1, 3, 4);
    OrderedCommit(h, Reached(h, log), ids + {"4"});
  }

  // --------------------------------------- an activation during a publication

  /** The leader, then an activation of manifest schema 2. */
  function ActivatedLog(): seq<Entry> {
    [AcquireEntry(), ActivateEntry("2", 1, GateWith(2, 1), 2)]
  }

  lemma AfterActivation(h: Hashes)
    requires AlwaysHashes(h)
    ensures var s := Reached(h, ActivatedLog());
            Led(s, GateWith(2, 1), 2, {"1"} + {"2"}) && s.activeSnapshot == "" && s.snapshots == map[]
  {
    FirstLeader(h);
    assert [AcquireEntry()] + [ActivateEntry("2", 1, GateWith(2, 1), 2)] == ActivatedLog();
    hide Step, Reached, Normalized, AcquireEntry, ActivateEntry;
    Extended(h, [AcquireEntry()], ActivateEntry("2", 1, GateWith(2, 1), 2));
    AfterActivate(h, Reached(h, [AcquireEntry()]), {"1"}, "2", 2, 1, 2);
  }

  /** The proposal that `PublishSnapshot` makes from the metadata it reads after the activation. */
  function LateProposal(h: Hashes): Entry
    requires AlwaysHashes(h)
  {
    CommitEntry("3", 2, Stamped(h, map[], 1), 3)
  }

  lemma CommitHalts(h: Hashes, s: MetadataState)
    requires AlwaysHashes(h) && Led(s, GateWith(2, 1), 2, {"1"} + {"2"})
    ensures Step(h, FULLY_CAPABLE, s, LateProposal(h)).0.applyFault == Some(ApplyFault(3, ManifestNotAdmitted))
  {
    NormalizedIsStable(GateWith(2, 1));
    assert !OrdersSequences(s.gate);
    assert CommandDigest(h, LateProposal(h).data.value).Some?;
  }

  /** The gate admits the manifest when it is checked; an activation is ordered before the commit. */
  lemma ActivationDuringPublicationHaltsEveryNode(h: Hashes, c: NodeCapabilities)
    requires AlwaysHashes(h)
    ensures AdmittedByGate(Stamped(h, map[], 1), Reached(h, [AcquireEntry()]).gate)
    ensures Run(h, c, InitialState("c"), ActivatedLog() + [LateProposal(h)]).applyFault.Some?
  {
    FirstLeader(h);
    LegacyManifestIsAdmitted(h, map[], 1, Reached(h, [AcquireEntry()]).gate);
    AfterActivation(h);
    CommitHalts(h, Reached(h, ActivatedLog()));
    Extended(h, ActivatedLog(), LateProposal(h));
    var log := ActivatedLog() + [LateProposal(h)];
    hide Step, Run, Stamped, AdmittedByGate;
    if Run(h, c, InitialState("c"), log).applyFault.None? {
      UnfaultedRunIsIdeal(h, c, InitialState("c"), log);
    }
  }

  // -------------------------------------------------------------- a stale stamp

  const NEXT_COMMANDS := CapabilityGate(1, 2, 1, map["*" := 1], 1, 1)

  lemma AfterVersionChange(h: Hashes)
    requires AlwaysHashes(h)
    ensures var s := Reached(h, [AcquireEntry()] + [ActivateEntry("2", 1, NEXT_COMMANDS, 2)]);
            s.applyFault.None? && Normalized(s.gate).commandVersion == 2
  {
    FirstLeader(h);
    NormalizedIsStable(NEXT_COMMANDS);
    FullyCapableSupportsEveryGate(Normalized(NEXT_COMMANDS), false);
    var s := Reached(h, [AcquireEntry()]);
    Extended(h, [AcquireEntry()], ActivateEntry("2", 1, NEXT_COMMANDS, 2));
    AcceptedStep(h, s, "2", Some(1), 1, ActivateCapabilities(Some(NEXT_COMMANDS)), 2);
  }

  lemma StaleStampHaltsTheIdealNode(h: Hashes, s: MetadataState)
    requires s.applyFault.None? && Normalized(s.gate).commandVersion == 2
    ensures Step(h, FULLY_CAPABLE, s, PutEntry("3", 1, "k", "v", 3)).0.applyFault
            == Some(ApplyFault(3, InactiveVersion(1, 1)))
  {
    hide ApplyCommand, CommandDigest;
  }

  /** A put that was stamped before an activation of command version 2 is ordered after it: it halts every
      node, although its compare-and-set could not have succeeded anyway. */
  lemma StaleStampHaltsEveryNode(h: Hashes, c: NodeCapabilities)
    requires AlwaysHashes(h)
    ensures Run(h, c, InitialState("c"),
                [AcquireEntry()] + [ActivateEntry("2", 1, NEXT_COMMANDS, 2)] +
                [PutEntry("3", 1, "k", "v", 3)]).applyFault.Some?
  {
    var log := [AcquireEntry()] + [ActivateEntry("2", 1, NEXT_COMMANDS, 2)];
    var entry := PutEntry("3", 1, "k", "v", 3);
    AfterVersionChange(h);
    StaleStampHaltsTheIdealNode(h, Reached(h, log));
    Extended(h, log, entry);
    hide Step, Run;
    if Run(h, c, InitialState("c"), log + [entry]).applyFault.None? {
      UnfaultedRunIsIdeal(h, c, InitialState("c"), log + [entry]);
    }
  }

  // ------------------------------------------------------------ after a restore

  const LEGACY_ONLY := NodeCapabilities(
    1, VersionRange(1, 1), VersionRange(1, 1), VersionRange(1, 1), VersionRange(1, 1))

  /** A node of an old binary halts at the activation when it applies the log, but restores the
      snapshot of the same log without a fault, and then does not support its own gate. */
  lemma RestoredNodeLacksGate(compact: string -> string, h: Hashes)
    requires AlwaysHashes(h)
    ensures SupportsGate(LEGACY_ONLY, LEGACY_GATE, false)
    ensures Run(h, LEGACY_ONLY, InitialState("c"), ActivatedLog()).applyFault.Some?
    ensures var restored := AfterCompaction(compact, h, FULLY_CAPABLE, "c", ActivatedLog());
            restored.Some? && restored.value.applyFault.None? && !SupportsGate(LEGACY_ONLY, restored.value.gate, false)
  {
    AfterActivation(h);
    NormalizedIsStable(GateWith(2, 1));
    var s := Reached(h, ActivatedLog());
    assert !SupportsGate(LEGACY_ONLY, s.gate, false);
    RestoreOfEncode(compact, s, InitialState("c"));
    assert SupportsGate(LEGACY_ONLY, LEGACY_GATE, false);
    hide Step, Run, Encode, Restore, SupportsGate, Normalized;
    if Run(h, LEGACY_ONLY, InitialState("c"), ActivatedLog()).applyFault.None? {
      UnfaultedRunIsIdeal(h, LEGACY_ONLY, InitialState("c"), ActivatedLog());
      ApplyingKeepsGateSupported(h, LEGACY_ONLY, InitialState("c"), ActivatedLog());
    }
  }

  function PutEntry(id: string, revision: U64, key: string, value: string, index: U64): Entry {
    Entry(index, Some(NewCommand(id, Some(revision), 1, PutMetadata(Some(PutPayload(key, value))))))
  }

  /** A put whose payload has no value member stores the empty text. A node that applied it and a node
      that restored the snapshot taken after it hold different values. */
  lemma AbsentValueReachesSnapshot(compact: string -> string, h: Hashes)
    requires AlwaysHashes(h) && compact("") == "null"
    ensures var log := [AcquireEntry()] + [PutEntry("2", 1, "k", "", 2)];
            var restored := AfterCompaction(compact, h, FULLY_CAPABLE, "c", log);
            && "k" in Reached(h, log).values && Reached(h, log).values["k"] == ""
            && restored.Some? && "k" in restored.value.values && restored.value.values["k"] == "null"
  {
    var entry := PutEntry("2", 1, "k", "", 2);
    FirstLeader(h);
    var before, s := Reached(h, [AcquireEntry()]), Reached(h, [AcquireEntry()] + [entry]);
    Extended(h, [AcquireEntry()], entry);
    NormalizedIsStable(LEGACY_GATE);
    AcceptedStep(h, before, "2", Some(1), 1, PutMetadata(Some(PutPayload("k", ""))), 2);
    assert s.values == before.values["k" := ""] && s.gate == before.gate && s.clusterId == "c" && s.applyFault.None?;
    hide Step, Run, Encode, Restore, Normalized, AcquireEntry, PutEntry;
    AbsentValueBecomesNull(compact, s, InitialState("c"), "k");
    RestoreOfEncode(compact, s, InitialState("c"));
  }

  // ------------------------------------------------- a pass across a hand-over

  function OneBlob(hash: string): map<string, DatasetRef> {
    map["d" := DatasetRef("d", 1, "", hash, "", 0, 0, true, "", "", false, false, 0, [])]
  }

  function Publishing(h: Hashes, hash: string): Manifest
    requires AlwaysHashes(h)
  {
    Stamped(h, OneBlob(hash), 1)
  }

  lemma FirstPublication(h: Hashes, hash: string)
    requires AlwaysHashes(h)
    ensures var s, entry := Reached(h, [AcquireEntry()]), CommitEntry("2", 1, Publishing(h, hash), 2);
            var t := Step(h, FULLY_CAPABLE, s, entry).0;
            && Indexed(h, s) && s.snapshots == map[] && CommitsManifest(h, FULLY_CAPABLE, s, entry)
            && Committed(h, FULLY_CAPABLE, s, entry).datasets == OneBlob(hash)
            && Publishing(h, hash).datasets == OneBlob(hash)
            && ActiveHolds(t, OneBlob(hash))
  {
    FirstLeader(h);
    InitialIsIndexed(h, "c");
    hide Step, Run, Indexed;
    IndexOverRun(h, FULLY_CAPABLE, InitialState("c"), [AcquireEntry()]);
    AfterCommit(h, Reached(h, [AcquireEntry()]), LEGACY_GATE, {"1"}, "2", OneBlob(hash), 1, 2);
  }

  /** A pass that saw no manifest and nothing staged. */
  function BlindPass(s: MetadataState, now: int): Pass {
    Walking(s, {}, now, [])
  }

  lemma BlindPassBegins(env: Env, s: NodeState, now: int)
    requires s.inProgress == [] && s.pass.Reading? && s.pass.seen.snapshots == map[]
    ensures Happens(env, s, ReadStaged(now, []), s.(pass := BlindPass(s.pass.seen, now)))
  {
    assert StagedHashes(s) == {};
  }

  lemma BlindPassRemoves(env: Env, s: NodeState, seen: MetadataState, now: int, hex: string)
    requires s.pass == BlindPass(seen, now) && seen.snapshots == map[] && |hex| == SHA256_HEX_LENGTH
    ensures Happens(env, s, Remove(hex), s.(files := s.files - {hex}))
  {
  }

  lemma FirstBlobArrives(env: Env, s: NodeState, data: Blob)
    requires ProducesHex(env.sha) && s.files == map[]
    ensures Happens(env, s, ReceiveBlob(Canonical(env.sha(data)), data, true), s.(files := map[env.sha(data) := data]))
  {
    CanonicalName(env.sha(data));
  }

  lemma PublishEvents(env: Env, s: NodeState, m: Manifest, entry: Entry)
    ensures s.inProgress == [] ==> Happens(env, s, BeginPublish(m), s.(inProgress := [m]))
    ensures s.inProgress == [m] ==> Happens(env, s, EndPublish(0), s.(inProgress := []))
    ensures Happens(env, s, ApplyEntry(entry), s.(meta := Step(env.hashes, env.capabilities, s.meta, entry).0))
    ensures s.pass.NoPass? ==> Happens(env, s, ReadMetadata, s.(pass := Reading(s.meta)))
  {
    hide Step;
    assert [m][..0] + [m][1..] == [];
    assert [m] + [] == [m];
  }

  /** What each of the following runs shows: event `c` commits the datasets of the publication begun at
      `b`, its blob is in place before event `r` and gone after it, and at the end it is active. */
  ghost predicate LosesActiveBlob(env: Env, states: seq<NodeState>, events: seq<Event>, b: nat, c: nat, r: nat,
                                  hex: string) {
    && IsRun(env, states, events) && Sound(env, states[0]) && IsPublication(env, states, events, b, c)
    && events[b].manifest.datasets == OneBlob(Canonical(hex)) && r < |events|
    && Intact(env.sha, states[r].files, hex) && !Intact(env.sha, states[|events|].files, hex)
    && ActiveHolds(states[|events|].meta, OneBlob(Canonical(hex)))
  }

  lemma Setting(h: Hashes, sha: Sha, data: Blob, policy: Policy)
    returns (env: Env, s: MetadataState, t: MetadataState, m: Manifest, entry: Entry, hex: string)
    requires AlwaysHashes(h) && ProducesHex(sha)
    ensures env == Env(h, FULLY_CAPABLE, sha, policy) && hex == sha(data) && |hex| == SHA256_HEX_LENGTH
    ensures Indexed(h, s) && s.snapshots == map[] && t == Step(h, FULLY_CAPABLE, s, entry).0
    ensures CommitsManifest(h, FULLY_CAPABLE, s, entry)
    ensures Committed(h, FULLY_CAPABLE, s, entry).datasets == m.datasets == OneBlob(Canonical(hex))
    ensures ActiveHolds(t, OneBlob(Canonical(hex)))
  {
    env, hex := Env(h, FULLY_CAPABLE, sha, policy), sha(data);
    m, s := Publishing(h, Canonical(hex)), Reached(h, [AcquireEntry()]);
    entry := CommitEntry("2", 1, m, 2);
    FirstPublication(h, Canonical(hex));
    hide Step, Reached, Indexed, CommitsManifest, Committed, ActiveHolds, Canonical;
    t := Step(h, FULLY_CAPABLE, s, entry).0;
  }

  // The three runs: their events, their states, and the proof that they are runs.

  function StraddlingEvents(m: Manifest, entry: Entry, hex: string, now: int): seq<Event> {
    [ReadMetadata, BeginPublish(m), ApplyEntry(entry), EndPublish(0), ReadStaged(now, []), Remove(hex)]
  }

  function StraddlingStates(s: MetadataState, t: MetadataState, m: Manifest, files: Files, hex: string,
                            now: int): seq<NodeState> {
    [NodeState(s, [], files, NoPass), NodeState(s, [], files, Reading(s)), NodeState(s, [m], files, Reading(s)),
     NodeState(t, [m], files, Reading(s)), NodeState(t, [], files, Reading(s)),
     NodeState(t, [], files, BlindPass(s, now)),
     NodeState(t, [], files - {hex}, BlindPass(s, now))]
  }

  lemma StraddlingIsRun(env: Env, s: MetadataState, m: Manifest, entry: Entry, files: Files, hex: string, now: int)
    requires s.snapshots == map[] && |hex| == SHA256_HEX_LENGTH
    ensures var t := Step(env.hashes, env.capabilities, s, entry).0;
            IsRun(env, StraddlingStates(s, t, m, files, hex, now), StraddlingEvents(m, entry, hex, now))
  {
    hide Step, Happens;
    var t := Step(env.hashes, env.capabilities, s, entry).0;
    var states := StraddlingStates(s, t, m, files, hex, now);
    PublishEvents(env, states[0], m, entry);
    PublishEvents(env, states[1], m, entry);
    PublishEvents(env, states[2], m, entry);
    PublishEvents(env, states[3], m, entry);
    BlindPassBegins(env, states[4], now);
    BlindPassRemoves(env, states[5], s, now, hex);
  }

  function WalkingEvents(m: Manifest, entry: Entry, hex: string, data: Blob, now: int): seq<Event> {
    [ReadMetadata, ReadStaged(now, []), BeginPublish(m), ReceiveBlob(Canonical(hex), data, true), Remove(hex),
     ApplyEntry(entry), EndPublish(0)]
  }

  function WalkingStates(s: MetadataState, t: MetadataState, m: Manifest, data: Blob, hex: string,
                         now: int): seq<NodeState> {
    var pass, files := BlindPass(s, now), map[hex := data];
    [NodeState(s, [], map[], NoPass), NodeState(s, [], map[], Reading(s)), NodeState(s, [], map[], pass),
     NodeState(s, [m], map[], pass), NodeState(s, [m], files, pass), NodeState(s, [m], files - {hex}, pass),
     NodeState(t, [m], files - {hex}, pass), NodeState(t, [], files - {hex}, pass)]
  }

  lemma WalkingIsRun(env: Env, s: MetadataState, m: Manifest, entry: Entry, data: Blob, now: int)
    requires s.snapshots == map[] && ProducesHex(env.sha)
    ensures var t, hex := Step(env.hashes, env.capabilities, s, entry).0, env.sha(data);
            IsRun(env, WalkingStates(s, t, m, data, hex, now), WalkingEvents(m, entry, hex, data, now))
  {
    var hex := env.sha(data);
    assert |hex| == SHA256_HEX_LENGTH;
    hide Step, Happens, ProducesHex, Canonical;
    var t := Step(env.hashes, env.capabilities, s, entry).0;
    var states := WalkingStates(s, t, m, data, hex, now);
    PublishEvents(env, states[0], m, entry);
    BlindPassBegins(env, states[1], now);
    PublishEvents(env, states[2], m, entry);
    FirstBlobArrives(env, states[3], data);
    BlindPassRemoves(env, states[4], s, now, hex);
    PublishEvents(env, states[5], m, entry);
    PublishEvents(env, states[6], m, entry);
  }

  function LateEvents(m: Manifest, entry: Entry, hex: string, now: int): seq<Event> {
    [BeginPublish(m), EndPublish(0), ReadMetadata, ReadStaged(now, []), Remove(hex), ApplyEntry(entry)]
  }

  function LateStates(s: MetadataState, t: MetadataState, m: Manifest, files: Files, hex: string,
                      now: int): seq<NodeState> {
    [NodeState(s, [], files, NoPass), NodeState(s, [m], files, NoPass), NodeState(s, [], files, NoPass),
     NodeState(s, [], files, Reading(s)), NodeState(s, [], files, BlindPass(s, now)),
     NodeState(s, [], files - {hex}, BlindPass(s, now)), NodeState(t, [], files - {hex}, BlindPass(s, now))]
  }

  lemma LateIsRun(env: Env, s: MetadataState, m: Manifest, entry: Entry, files: Files, hex: string, now: int)
    requires s.snapshots == map[] && |hex| == SHA256_HEX_LENGTH
    ensures var t := Step(env.hashes, env.capabilities, s, entry).0;
            IsRun(env, LateStates(s, t, m, files, hex, now), LateEvents(m, entry, hex, now))
  {
    hide Step, Happens;
    var t := Step(env.hashes, env.capabilities, s, entry).0;
    var states := LateStates(s, t, m, files, hex, now);
    PublishEvents(env, states[0], m, entry);
    PublishEvents(env, states[1], m, entry);
    PublishEvents(env, states[2], m, entry);
    BlindPassBegins(env, states[3], now);
    BlindPassRemoves(env, states[4], s, now, hex);
    PublishEvents(env, states[5], m, entry);
  }

  /** A pass reads the metadata, a publication begins, commits and ends, and only then does the pass
      read the staged hashes: it removes the blob of the snapshot that is active by now. */
  lemma StraddlingPassRemovesActiveBlob(h: Hashes, sha: Sha, data: Blob, policy: Policy, now: int)
    returns (env: Env, states: seq<NodeState>, m: Manifest, entry: Entry)
    requires AlwaysHashes(h) && ProducesHex(sha)
    ensures env.hashes == h && env.sha == sha && env.policy == policy
    ensures LosesActiveBlob(env, states, StraddlingEvents(m, entry, sha(data), now), 1, 2, 5, sha(data))
  {
    var s, t, hex;
    env, s, t, m, entry, hex := Setting(h, sha, data, policy);
    states := StraddlingStates(s, t, m, map[hex := data], hex, now);
    StraddlingIsRun(env, s, m, entry, map[hex := data], hex, now);
    hide Step, Happens, IsRun, Indexed, CommitsManifest, Committed, ActiveHolds, OneBlob, Canonical, ProducesHex,
      AlwaysHashes;
  }

  /** A publication begins while a pass walks: the walk removes the blob that the publication just put,
      and the commit activates a manifest without it. */
  lemma WalkRemovesNewBlob(h: Hashes, sha: Sha, data: Blob, policy: Policy, now: int)
    returns (env: Env, states: seq<NodeState>, m: Manifest, entry: Entry)
    requires AlwaysHashes(h) && ProducesHex(sha)
    ensures env.hashes == h && env.sha == sha && env.policy == policy
    ensures LosesActiveBlob(env, states, WalkingEvents(m, entry, sha(data), data, now), 2, 5, 4, sha(data))
  {
    var s, t, hex;
    env, s, t, m, entry, hex := Setting(h, sha, data, policy);
    states := WalkingStates(s, t, m, data, hex, now);
    WalkingIsRun(env, s, m, entry, data, now);
    hide Step, Happens, IsRun, Indexed, CommitsManifest, Committed, ActiveHolds, OneBlob, Canonical, ProducesHex,
      AlwaysHashes;
  }

  /** The publisher gives up, as it does when it loses the leadership, and the entry still commits: a pass
      between the two removes the blob. */
  lemma LateCommitFindsBlobGone(h: Hashes, sha: Sha, data: Blob, policy: Policy, now: int)
    returns (env: Env, states: seq<NodeState>, m: Manifest, entry: Entry)
    requires AlwaysHashes(h) && ProducesHex(sha)
    ensures env.hashes == h && env.sha == sha && env.policy == policy
    ensures LosesActiveBlob(env, states, LateEvents(m, entry, sha(data), now), 0, 5, 4, sha(data))
  {
    var s, t, hex;
    env, s, t, m, entry, hex := Setting(h, sha, data, policy);
    states := LateStates(s, t, m, map[hex := data], hex, now);
    LateIsRun(env, s, m, entry, map[hex := data], hex, now);
    hide Step, Happens, IsRun, Indexed, CommitsManifest, Committed, ActiveHolds, OneBlob, Canonical, ProducesHex,
      AlwaysHashes;
  }
}
