/** What the state of a node says about the log it applied: each part of it is determined by the payloads
    of the entries that took effect. */
module Meaning {
  import opened Common
  import opened Capability
  import opened Snapshots
  import opened MetadataFsm
  import opened Runs
  import opened Ledger
  import opened Leadership
  import opened SnapshotIndex
  import opened Proposals

  /** Entry `i` of the log took effect at a node of the given capabilities. */
  predicate Effective(h: Hashes, c: NodeCapabilities, clusterId: string, log: seq<Entry>, i: nat) {
    i < |log| && TakesEffect(h, c, Run(h, c, InitialState(clusterId), log[..i]), log[i])
  }

  /** The command is delivered, new and at the revision it expects: only its effect can refuse it now. */
  predicate IsDue(h: Hashes, c: NodeCapabilities, s: MetadataState, entry: Entry) {
    && entry.data.Some? && entry.data.value.id != ""
    && Delivered(h, c, s, WithVersions(entry.data.value)) && IsCurrent(s, entry.data.value)
  }

  // --------------------------------------------------------------- leadership

  /** The entry acquires leadership, with this payload. */
  predicate Acquires(h: Hashes, c: NodeCapabilities, s: MetadataState, entry: Entry) {
    TakesEffect(h, c, s, entry) && entry.data.value.body.AcquireLeadership? && entry.data.value.body.acquire.Some?
  }

  /** The acquisitions that took effect, in order. */
  function Acquisitions(h: Hashes, c: NodeCapabilities, clusterId: string, log: seq<Entry>): seq<AcquirePayload> {
    if log == [] then []
    else
      var front, last := log[..|log| - 1], log[|log| - 1];
      Acquisitions(h, c, clusterId, front)
      + (if Acquires(h, c, Run(h, c, InitialState(clusterId), front), last)
         then [last.data.value.body.acquire.value] else [])
  }

  function LargestTerm(acquired: seq<AcquirePayload>): nat {
    if acquired == [] then 0
    else
      var before, term := LargestTerm(acquired[..|acquired| - 1]), acquired[|acquired| - 1].term;
      if term > before then term else before
  }

  /** How many acquisitions had a term above all before them. */
  function Epochs(acquired: seq<AcquirePayload>): nat {
    if acquired == [] then 0
    else
      var front := acquired[..|acquired| - 1];
      Epochs(front) + (if acquired[|acquired| - 1].term > LargestTerm(front) then 1 else 0)
  }

  /** The acquisition that first reached the largest term. */
  predicate Leads(acquired: seq<AcquirePayload>, i: nat) {
    && i < |acquired| && acquired[i].term == LargestTerm(acquired)
    && forall j :: 0 <= j < i ==> acquired[j].term < LargestTerm(acquired)
  }

  lemma {:induction false} LargestTermIsLargest(acquired: seq<AcquirePayload>)
    ensures forall i :: 0 <= i < |acquired| ==> acquired[i].term <= LargestTerm(acquired)
    ensures acquired == [] ==> LargestTerm(acquired) == 0
    ensures LargestTerm(acquired) > 0 ==> exists i :: 0 <= i < |acquired| && acquired[i].term == LargestTerm(acquired)
  {
    if acquired != [] {
      var front := acquired[..|acquired| - 1];
      LargestTermIsLargest(front);
      if LargestTerm(acquired) > LargestTerm(front) {
        assert acquired[|acquired| - 1].term == LargestTerm(acquired);
      } else if LargestTerm(front) > 0 {
        var i :| 0 <= i < |front| && front[i].term == LargestTerm(front);
        assert acquired[i].term == LargestTerm(acquired);
      }
    }
  }

  /** What one more acquisition does to the three numbers. */
  lemma OneMoreAcquisition(acquired: seq<AcquirePayload>, p: AcquirePayload)
    ensures LargestTerm(acquired + [p]) == if p.term > LargestTerm(acquired) then p.term else LargestTerm(acquired)
    ensures Epochs(acquired + [p]) == Epochs(acquired) + if p.term > LargestTerm(acquired) then 1 else 0
    ensures p.term > LargestTerm(acquired) ==> Leads(acquired + [p], |acquired|)
    ensures forall i :: p.term <= LargestTerm(acquired) && Leads(acquired, i) ==> Leads(acquired + [p], i)
  {
    assert (acquired + [p])[..|acquired|] == acquired;
    LargestTermIsLargest(acquired);
  }

  /** The owner is the node of the leading acquisition, and nobody before the first. */
  ghost predicate OwnerIs(acquired: seq<AcquirePayload>, owner: string) {
    if acquired == [] then owner == ""
    else exists i: nat :: Leads(acquired, i) && acquired[i].nodeId == owner
  }

  lemma AcquireStep(h: Hashes, c: NodeCapabilities, s: MetadataState, entry: Entry)
    requires HasOwnerFromFirstEpoch(s) && Acquires(h, c, s, entry)
    ensures var p, t := entry.data.value.body.acquire.value, Step(h, c, s, entry).0;
            && p.nodeId != "" && p.term != 0 && p.term >= s.lastLeadershipTerm
            && if p.term > s.lastLeadershipTerm
               then t.lastLeadershipTerm == p.term && t.leaderOwner == p.nodeId && t.leaderEpoch == s.leaderEpoch + 1
               else t.lastLeadershipTerm == s.lastLeadershipTerm && t.leaderOwner == s.leaderOwner
                    && t.leaderEpoch == s.leaderEpoch
  {
    StepCases(h, c, s, entry);
    EffectOnLeadership(h, c, s, WithVersions(entry.data.value), entry.index);
    hide Step, CommandDigest, Normalized;
  }

  lemma OtherStep(h: Hashes, c: NodeCapabilities, s: MetadataState, entry: Entry)
    requires !Acquires(h, c, s, entry)
    ensures var t := Step(h, c, s, entry).0;
            && t.lastLeadershipTerm == s.lastLeadershipTerm && t.leaderOwner == s.leaderOwner
            && t.leaderEpoch == s.leaderEpoch
  {
    StepCases(h, c, s, entry);
    hide Step, AdmittedByGate, ComputeManifestHash, SupportsGate, ValidGate, Normalized, CommandDigest;
  }

  /** Over every log the leadership of a node is told by the payloads of the acquisitions that took effect:
      its term is the largest of theirs, its owner the node that first acquired that term, and its
      epoch counts the acquisitions that raised the term. */
  lemma {:induction false} LeadershipFollowsLog(h: Hashes, c: NodeCapabilities, clusterId: string, log: seq<Entry>)
    ensures var s, acquired := Run(h, c, InitialState(clusterId), log), Acquisitions(h, c, clusterId, log);
            && s.lastLeadershipTerm == LargestTerm(acquired)
            && s.leaderEpoch == Epochs(acquired)
            && OwnerIs(acquired, s.leaderOwner)
  {
    if log != [] {
      var front, last := log[..|log| - 1], log[|log| - 1];
      LeadershipFollowsLog(h, c, clusterId, front);
      LeadershipOverRun(h, c, InitialState(clusterId), front, 0);
      var s, acquired := Run(h, c, InitialState(clusterId), front), Acquisitions(h, c, clusterId, front);
      hide Step, TakesEffect, Leads, LargestTerm, Epochs;
      if Acquires(h, c, s, last) {
        AcquireStep(h, c, s, last);
        hide Acquires;
        OwnerMoves(acquired, s.leaderOwner, last.data.value.body.acquire.value);
        OneMoreAcquisition(acquired, last.data.value.body.acquire.value);
      } else {
        OtherStep(h, c, s, last);
        hide Acquires, OwnerIs;
        assert Acquisitions(h, c, clusterId, log) == acquired;
      }
    }
  }

  lemma OwnerMoves(acquired: seq<AcquirePayload>, owner: string, p: AcquirePayload)
    requires OwnerIs(acquired, owner) && p.term != 0
    ensures OwnerIs(acquired + [p], if p.term > LargestTerm(acquired) then p.nodeId else owner)
  {
    OneMoreAcquisition(acquired, p);
    if p.term > LargestTerm(acquired) {
      assert Leads(acquired + [p], |acquired|) && (acquired + [p])[|acquired|] == p;
    } else {
      var i: nat :| Leads(acquired, i) && acquired[i].nodeId == owner;
      assert Leads(acquired + [p], i);
    }
  }

  /** A due acquisition takes effect exactly when it names a node and a term that is at least the largest
      acquired so far. */
  lemma AcquisitionIsExact(h: Hashes, c: NodeCapabilities, clusterId: string, log: seq<Entry>, entry: Entry)
    requires IsDue(h, c, Run(h, c, InitialState(clusterId), log), entry)
    requires entry.data.value.body.AcquireLeadership?
    ensures TakesEffect(h, c, Run(h, c, InitialState(clusterId), log), entry) <==>
            match entry.data.value.body.acquire {
              case None => false
              case Some(p) => p.nodeId != "" && p.term != 0 && p.term >= LargestTerm(Acquisitions(h, c, clusterId, log))
            }
  {
    LeadershipFollowsLog(h, c, clusterId, log);
    hide Step, Run, Normalized, CommandDigest;
  }

  // --------------------------------------------------------------------- values

  /** What an entry writes if it takes effect. */
  function WritesOf(body: Body): map<string, string> {
    match body
    case PutMetadata(Some(put)) => map[put.key := put.value]
    case PutMetadataBatch(Some(values)) => values
    case _ => map[]
  }

  predicate WritesKey(h: Hashes, c: NodeCapabilities, clusterId: string, log: seq<Entry>, i: nat, key: string) {
    Effective(h, c, clusterId, log, i) && key in WritesOf(log[i].data.value.body)
  }

  /** Among the first `k` entries, entry `i` is the last one that writes the key. */
  ghost predicate IsLastWrite(h: Hashes, c: NodeCapabilities, clusterId: string, log: seq<Entry>, k: nat, i: nat,
                              key: string) {
    && i < k <= |log| && WritesKey(h, c, clusterId, log, i, key)
    && forall j :: i < j < k ==> !WritesKey(h, c, clusterId, log, j, key)
  }

  lemma ValuesOfPut(s: MetadataState, payload: Option<PutPayload>)
    requires PutEffect(s, payload).Accept?
    ensures PutEffect(s, payload).state.values == s.values + WritesOf(PutMetadata(payload))
  {
  }

  lemma ValuesOfBatch(s: MetadataState, payload: Option<map<string, string>>)
    requires BatchEffect(s, payload).Accept?
    ensures BatchEffect(s, payload).state.values == s.values + WritesOf(PutMetadataBatch(payload))
  {
  }

  lemma ValuesOfOthers(h: Hashes, c: NodeCapabilities, s: MetadataState, command: Command, index: U64)
    requires EffectOf(h, c, s, command, index).Accept?
    requires !command.body.PutMetadata? && !command.body.PutMetadataBatch?
    ensures EffectOf(h, c, s, command, index).state.values == s.values
    ensures s.values + WritesOf(command.body) == s.values
  {
    hide AdmittedByGate, ComputeManifestHash, SupportsGate, ValidGate, Normalized, IsNextSequence, OrdersSequences,
      PutEffect, BatchEffect, Increment;
  }

  lemma ValuesOfEffect(h: Hashes, c: NodeCapabilities, s: MetadataState, command: Command, index: U64)
    requires EffectOf(h, c, s, command, index).Accept?
    ensures EffectOf(h, c, s, command, index).state.values == s.values + WritesOf(command.body)
  {
    hide PutEffect, BatchEffect, AcquireEffect, CommitEffect, ActivateEffect, WritesOf;
    if command.body.PutMetadata? {
      ValuesOfPut(s, command.body.put);
    } else if command.body.PutMetadataBatch? {
      ValuesOfBatch(s, command.body.batch);
    } else {
      ValuesOfOthers(h, c, s, command, index);
    }
  }

  lemma ValuesAfterStep(h: Hashes, c: NodeCapabilities, s: MetadataState, entry: Entry)
    ensures Step(h, c, s, entry).0.values ==
            if TakesEffect(h, c, s, entry) then s.values + WritesOf(entry.data.value.body) else s.values
  {
    StepCases(h, c, s, entry);
    if TakesEffect(h, c, s, entry) {
      ValuesOfEffect(h, c, s, WithVersions(entry.data.value), entry.index);
    }
    hide Step, EffectOf, CommandDigest, Normalized, WritesOf;
  }

  /** Over every log a key holds what the last effective entry that writes it wrote, alone or in a batch,
      and no key holds a value that no such entry wrote. */
  lemma {:induction false} LastWriteWins(h: Hashes, c: NodeCapabilities, clusterId: string, log: seq<Entry>, k: nat,
                                         key: string)
    requires k <= |log|
    ensures var values := Run(h, c, InitialState(clusterId), log[..k]).values;
            && (key in values <==> exists i: nat :: IsLastWrite(h, c, clusterId, log, k, i, key))
            && (forall i: nat :: IsLastWrite(h, c, clusterId, log, k, i, key) ==>
                  key in values && values[key] == WritesOf(log[i].data.value.body)[key])
  {
    hide Step, TakesEffect, Run, WritesOf;
    if k == 0 {
      assert log[..0] == [];
      assert Run(h, c, InitialState(clusterId), []).values == map[] by { EmptyRun(h, c, clusterId); }
    } else {
      var n := k - 1;
      var s := Run(h, c, InitialState(clusterId), log[..n]);
      LastWriteWins(h, c, clusterId, log, n, key);
      RunStep(h, c, InitialState(clusterId), log, n);
      ValuesAfterStep(h, c, s, log[n]);
      var writes := WritesKey(h, c, clusterId, log, n, key);
      hide WritesKey, Effective;
      assert writes ==> IsLastWrite(h, c, clusterId, log, k, n, key);
      forall i: nat ensures IsLastWrite(h, c, clusterId, log, k, i, key) <==>
                              if writes then i == n else IsLastWrite(h, c, clusterId, log, n, i, key)
      {
      }
    }
  }

  lemma EmptyRun(h: Hashes, c: NodeCapabilities, clusterId: string)
    ensures Run(h, c, InitialState(clusterId), []) == InitialState(clusterId)
  {
  }

  /** A due write of the current leader takes effect exactly when it names its keys: a put when its key is
      not empty, a batch when it is not empty and none of its keys is. */
  lemma WriteIsExact(h: Hashes, c: NodeCapabilities, s: MetadataState, entry: Entry)
    requires IsDue(h, c, s, entry) && HoldsCurrentEpoch(s, entry.data.value)
    requires entry.data.value.body.PutMetadata? || entry.data.value.body.PutMetadataBatch?
    ensures TakesEffect(h, c, s, entry) <==>
            WritesOf(entry.data.value.body) != map[] && "" !in WritesOf(entry.data.value.body)
  {
    hide Normalized, CommandDigest;
    var body := entry.data.value.body;
    if body.PutMetadata? && body.put.Some? {
      assert body.put.value.key in WritesOf(body);
    }
  }

  // ----------------------------------------------------------------------- gate

  predicate Activates(h: Hashes, c: NodeCapabilities, clusterId: string, log: seq<Entry>, i: nat) {
    Effective(h, c, clusterId, log, i) && log[i].data.value.body.ActivateCapabilities?
  }

  ghost predicate IsLastActivation(h: Hashes, c: NodeCapabilities, clusterId: string, log: seq<Entry>, k: nat, i: nat) {
    && i < k <= |log| && Activates(h, c, clusterId, log, i)
    && forall j :: i < j < k ==> !Activates(h, c, clusterId, log, j)
  }

  lemma GateAfterStep(h: Hashes, c: NodeCapabilities, s: MetadataState, entry: Entry)
    ensures var t := Step(h, c, s, entry).0;
            if TakesEffect(h, c, s, entry) && entry.data.value.body.ActivateCapabilities?
            then entry.data.value.body.activate.Some? && t.gate == Normalized(entry.data.value.body.activate.value)
            else t.gate == s.gate
  {
    StepCases(h, c, s, entry);
    hide Step, AdmittedByGate, ComputeManifestHash, SupportsGate, ValidGate, Normalized, CommandDigest;
  }

  /** Over every log the gate is the one that the last effective activation asked for, normalized, and the
      legacy gate before the first. */
  lemma {:induction false} GateIsLastActivation(h: Hashes, c: NodeCapabilities, clusterId: string, log: seq<Entry>,
                                                k: nat)
    requires k <= |log|
    ensures var gate := Run(h, c, InitialState(clusterId), log[..k]).gate;
            && ((forall i: nat :: i < k ==> !Activates(h, c, clusterId, log, i)) ==> gate == LEGACY_GATE)
            && (forall i: nat :: IsLastActivation(h, c, clusterId, log, k, i) ==>
                  log[i].data.value.body.activate.Some? && gate == Normalized(log[i].data.value.body.activate.value))
  {
    hide Step, TakesEffect, Run, Normalized;
    if k == 0 {
      assert log[..0] == [];
      EmptyRun(h, c, clusterId);
    } else {
      var n := k - 1;
      GateIsLastActivation(h, c, clusterId, log, n);
      RunStep(h, c, InitialState(clusterId), log, n);
      GateAfterStep(h, c, Run(h, c, InitialState(clusterId), log[..n]), log[n]);
      var activates := Activates(h, c, clusterId, log, n);
      hide Activates, Effective;
      forall i: nat | IsLastActivation(h, c, clusterId, log, k, i)
        ensures i == n || (!activates && IsLastActivation(h, c, clusterId, log, n, i))
      {
      }
    }
  }

  /** A due activation by the current leader takes effect exactly when the gate is valid and the node
      supports it; a valid gate that the node lacks halts it, an invalid one changes nothing. */
  lemma ActivationIsExact(h: Hashes, c: NodeCapabilities, s: MetadataState, entry: Entry)
    requires IsDue(h, c, s, entry) && HoldsCurrentEpoch(s, entry.data.value)
    requires entry.data.value.body.ActivateCapabilities? && entry.data.value.body.activate.Some?
    ensures var gate, t := entry.data.value.body.activate.value, Step(h, c, s, entry).0;
            && (TakesEffect(h, c, s, entry) <==> "" !in gate.datasetSchemaVersions && SupportsGate(c, gate, false))
            && (t.applyFault.Some? <==> "" !in gate.datasetSchemaVersions && !SupportsGate(c, gate, false))
  {
    NormalizedIsStable(entry.data.value.body.activate.value);
    hide CommandDigest, ValidGate, Normalized;
  }

  // ------------------------------------------------------------------- commits

  /** A due commit by the current leader of a manifest of this cluster and epoch that embeds its own hash and
      that the gate admits: where the gate orders sequences it takes effect exactly when its sequence is one
      above that of the active snapshot, so the first is 1; where it does not, always. */
  lemma NextSequenceIsExact(h: Hashes, c: NodeCapabilities, s: MetadataState, entry: Entry)
    requires Indexed(h, s) && IsDue(h, c, s, entry) && HoldsCurrentEpoch(s, entry.data.value)
    requires entry.data.value.body.CommitSnapshot? && entry.data.value.body.commit.Some?
    requires var m := entry.data.value.body.commit.value;
             && m.generation.clusterId == s.clusterId && m.generation.leaderEpoch == s.leaderEpoch
             && ComputeManifestHash(h.manifestSum, m) == Some(m.generation.manifestHash)
             && AdmittedByGate(m, s.gate)
    ensures CommitsManifest(h, c, s, entry) <==>
            (Normalized(s.gate).minimumVoterCapability >= 3 ==>
               entry.data.value.body.commit.value.generation.sequence == LastSequence(s) + 1)
  {
    hide AdmittedByGate, ComputeManifestHash, CommandDigest, FiledUnder, Normalized;
  }

  // ---------------------------------------------------------- the local check

  /** A node passes the local leadership check exactly when it leads its Raft group with a fresh quorum, has
      no fault, is capable of leading under the active gate, the leading acquisition of its log is its own
      in the current Raft term, and its cached epoch is the number of epochs of the log. */
  lemma LocalCheckIsExact(h: Hashes, c: NodeCapabilities, clusterId: string, log: seq<Entry>, nodeId: string,
                          view: LocalView)
    requires nodeId != ""
    ensures var s, acquired := Run(h, c, InitialState(clusterId), log), Acquisitions(h, c, clusterId, log);
            HoldsBusinessLeadership(nodeId, c, s, view) <==>
              && view.raftLeader && view.roleIsLeader && view.hasQuorum && view.quorumVerifiedRecently
              && s.applyFault.None? && SupportsGate(c, s.gate, true)
              && (exists i: nat :: Leads(acquired, i) && acquired[i] == AcquirePayload(nodeId, view.raftTerm))
              && view.statusEpoch == Epochs(acquired)
  {
    var s, acquired := Run(h, c, InitialState(clusterId), log), Acquisitions(h, c, clusterId, log);
    LeadershipFollowsLog(h, c, clusterId, log);
    LeadershipOverRun(h, c, InitialState(clusterId), log, 0);
    hide Run, Acquisitions, Epochs, LargestTerm, SupportsGate;
    if i, j :| Leads(acquired, i) && Leads(acquired, j) && i != j {
      OneLeads(acquired, i, j);
    }
  }

  lemma OneLeads(acquired: seq<AcquirePayload>, i: nat, j: nat)
    requires Leads(acquired, i) && Leads(acquired, j)
    ensures i == j
  {
  }

  // ------------------------------------------------------ halts, replies, digests

  /** The command's versions, a missing one being 1, are the active ones and the node speaks them. */
  predicate Spoken(c: NodeCapabilities, s: MetadataState, command: Command) {
    var p := if command.protocolVersion == 0 then 1 else command.protocolVersion;
    var v := if command.commandVersion == 0 then 1 else command.commandVersion;
    && c.protocol.Supports(p) && c.command.Supports(v)
    && p == Normalized(s.gate).protocolVersion && v == Normalized(s.gate).commandVersion
  }

  /** What halts a node without a fault: data that is no command, a command without an id, versions that are
      not active or that it does not speak, and, of commands that are new and at their revision, an unknown
      type or poison. The fault names the entry. */
  lemma HaltIsExact(h: Hashes, c: NodeCapabilities, s: MetadataState, entry: Entry)
    requires Indexed(h, s) && s.applyFault.None?
    ensures var t := Step(h, c, s, entry).0;
            && (t.applyFault.Some? <==>
                  || entry.data.None? || entry.data.value.id == ""
                  || !Spoken(c, s, entry.data.value)
                  || (&& CommandDigest(h, WithVersions(entry.data.value)).Some? && IsCurrent(s, entry.data.value)
                      && (entry.data.value.body.UnknownType? || Poisons(c, s, entry.data.value))))
            && (t.applyFault.Some? ==> t.applyFault.value.index == entry.index
                                       && Step(h, c, s, entry).1.error == Some(t.applyFault.value.error))
  {
    if entry.data.Some? {
      var command := WithVersions(entry.data.value);
      if !command.body.UnknownType? {
        StampedEffect(h, c, s, command, entry.index);
      }
    }
    hide EffectOf, Normalized, CommandDigest, Indexed;
  }

  /** Every reply carries the epoch after the entry, and the revision after it unless it answers for an id
      that was applied before. A command that expects another revision is told both. */
  lemma ReplyIsExact(h: Hashes, c: NodeCapabilities, s: MetadataState, entry: Entry)
    ensures var (t, result) := Step(h, c, s, entry);
            && result.leaderEpoch == t.leaderEpoch
            && (result.revision != t.revision ==>
                  result.error.None? && entry.data.Some? && entry.data.value.id in s.applied)
            && (entry.data.Some? && entry.data.value.id != "" && Delivered(h, c, s, WithVersions(entry.data.value))
                && entry.data.value.id !in s.applied && entry.data.value.expectedRevision.Some?
                && entry.data.value.expectedRevision.value != s.revision ==>
                  result.error == Some(RevisionConflict(entry.data.value.expectedRevision.value, s.revision)))
  {
    hide EffectOf, Normalized, CommandDigest;
  }

  /** A command without versions is one of version 1. */
  lemma UnversionedIsLegacy(h: Hashes, c: NodeCapabilities, s: MetadataState, index: U64, command: Command)
    requires command.protocolVersion == 0 && command.commandVersion == 0
    ensures Step(h, c, s, Entry(index, Some(command)))
            == Step(h, c, s, Entry(index, Some(command.(protocolVersion := 1, commandVersion := 1))))
  {
    hide EffectOf, Normalized;
  }

  predicate SameType(a: Body, b: Body) {
    && (a.AcquireLeadership? <==> b.AcquireLeadership?)
    && (a.PutMetadata? <==> b.PutMetadata?) && (a.PutMetadataBatch? <==> b.PutMetadataBatch?)
    && (a.CommitSnapshot? <==> b.CommitSnapshot?) && (a.ActivateCapabilities? <==> b.ActivateCapabilities?)
  }

  lemma TypeNamesDiffer(a: Body, b: Body)
    requires TypeName(a) == TypeName(b) && !a.UnknownType? && !b.UnknownType?
    ensures SameType(a, b)
  {
    assert |TypeName(a)| == |TypeName(b)|;
    assert TypeName(a)[0] == TypeName(b)[0];
  }

  /** Two commands with one digest agree in type, expected revision, epoch, versions and payload, or SHA-256
      collides on what they say. */
  lemma DigestTellsCommand(h: Hashes, a: Command, b: Command)
    requires CommandDigest(h, a).Some? && CommandDigest(h, a) == CommandDigest(h, b)
    ensures || (&& TypeName(a.body) == TypeName(b.body) && a.expectedRevision == b.expectedRevision
                && a.leaderEpoch == b.leaderEpoch && a.protocolVersion == b.protocolVersion
                && a.commandVersion == b.commandVersion && a.payloadText == b.payloadText)
            || (exists x, y :: x != y && h.digestSum(x).Some? && h.digestSum(x) == h.digestSum(y))
    ensures TypeName(a.body) == TypeName(b.body) ==>
              SameType(a.body, b.body) || a.body.UnknownType? || b.body.UnknownType?
  {
    var x := DigestInput(TypeName(a.body), a.expectedRevision, a.leaderEpoch, a.protocolVersion, a.commandVersion,
                         a.payloadText);
    var y := DigestInput(TypeName(b.body), b.expectedRevision, b.leaderEpoch, b.protocolVersion, b.commandVersion,
                         b.payloadText);
    var p, q := h.digestSum(x).value, h.digestSum(y).value;
    assert p == (HASH_PREFIX_SHA256 + p)[|HASH_PREFIX_SHA256|..];
    assert q == (HASH_PREFIX_SHA256 + q)[|HASH_PREFIX_SHA256|..];
    if TypeName(a.body) == TypeName(b.body) && !a.body.UnknownType? && !b.body.UnknownType? {
      TypeNamesDiffer(a.body, b.body);
    }
    hide TypeName;
  }
}
