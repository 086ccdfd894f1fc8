/** Log compaction: a node restored from a snapshot of a prefix behaves like a node that applied the
    whole log (consensus.go, `Snapshot`, `Persist`, `UnmarshalJSON`, `Restore`). */
module Compaction {
  import opened Common
  import opened Capability
  import opened Snapshots
  import opened MetadataFsm
  import opened Runs
  import opened Replicas
  import opened Ledger

  // ------------------------------------------------------------ the encoded form

  /** The `applied_commands` member: absent when empty, one record per id, or, from older binaries, a
      bare revision per id. */
  datatype EncodedLedger =
    | LedgerAbsent
    | LedgerNull
    | LedgerRecords(records: map<string, AppliedCommand>)
    | LegacyRevisions(revisions: map<string, U64>)
    | LedgerMalformed

  /** A snapshot as its JSON members; members marked `omitempty` are absent when empty. */
  datatype EncodedState = EncodedState(
    clusterId: string,
    revision: U64,
    leaderEpoch: U64,
    leaderOwner: Option<string>,
    lastLeadershipTerm: U64,
    values: Option<map<string, string>>,
    snapshots: Option<map<string, Manifest>>,
    activeSnapshot: Option<string>,
    activeSnapshotIndex: U64,
    gate: CapabilityGate,
    applyFault: Option<ApplyFault>,
    applied: EncodedLedger)

  function NonEmptyText(text: string): Option<string> {
    if text == "" then None else Some(text)
  }

  function TextOrEmpty(text: Option<string>): string {
    if text.None? then "" else text.value
  }

  function NonEmptyMap<V>(m: map<string, V>): Option<map<string, V>> {
    if |m| == 0 then None else Some(m)
  }

  function MapOrEmpty<V>(m: Option<map<string, V>>): map<string, V> {
    if m.None? then map[] else m.value
  }

  /** The JSON encoder rewrites every raw value: `compact` is its compaction of one value text. */
  function CompactValues(compact: string -> string, values: map<string, string>): map<string, string> {
    map key | key in values :: compact(values[key])
  }

  /** `Snapshot` followed by `Persist`: a faulted node refuses. */
  function Encode(compact: string -> string, s: MetadataState): Option<EncodedState> {
    if s.applyFault.Some? then None
    else
      Some(EncodedState(
        s.clusterId, s.revision, s.leaderEpoch, NonEmptyText(s.leaderOwner), s.lastLeadershipTerm,
        NonEmptyMap(CompactValues(compact, s.values)), NonEmptyMap(s.snapshots), NonEmptyText(s.activeSnapshot),
        s.activeSnapshotIndex, Normalized(s.gate), None,
        if |s.applied| == 0 then LedgerAbsent else LedgerRecords(s.applied)))
  }

  /** `UnmarshalJSON` on the ledger member. */
  function DecodeLedger(ledger: EncodedLedger): Option<map<string, AppliedCommand>> {
    match ledger
    case LedgerAbsent => Some(map[])
    case LedgerNull => Some(map[])
    case LedgerRecords(records) => Some(records)
    case LegacyRevisions(revisions) => Some(map id | id in revisions :: AppliedCommand(revisions[id], ""))
    case LedgerMalformed => None
  }

  datatype RestoreError = UndecodableSnapshot | ForeignSnapshot

  /** `Restore` on a node in state `current`: a fault in the snapshot wins, else the node keeps its own. */
  function Restore(current: MetadataState, encoded: EncodedState): Result<MetadataState, RestoreError> {
    var ledger := DecodeLedger(encoded.applied);
    if ledger.None? then Err(UndecodableSnapshot)
    else if encoded.clusterId != current.clusterId then Err(ForeignSnapshot)
    else
      Ok(MetadataState(
        encoded.clusterId, encoded.revision, encoded.leaderEpoch, TextOrEmpty(encoded.leaderOwner),
        encoded.lastLeadershipTerm, MapOrEmpty(encoded.values), MapOrEmpty(encoded.snapshots),
        TextOrEmpty(encoded.activeSnapshot), encoded.activeSnapshotIndex, Normalized(encoded.gate),
        if encoded.applyFault.Some? then encoded.applyFault else current.applyFault,
        ledger.value))
  }

  method RestoreSnapshot(fsm: FSM, encoded: EncodedState) returns (error: Option<RestoreError>)
    requires fsm.Valid()
    modifies fsm
    ensures fsm.Valid()
    ensures match Restore(old(fsm.state), encoded) {
              case Ok(restored) => error.None? && fsm.state == restored
              case Err(reason) => error == Some(reason) && fsm.state == old(fsm.state)
            }
  {
    var ledger := DecodeLedger(encoded.applied);
    if ledger.None? {
      return Some(UndecodableSnapshot);
    }
    if encoded.clusterId != fsm.state.clusterId {
      return Some(ForeignSnapshot);
    }
    var values, snapshots := MapOrEmpty(encoded.values), MapOrEmpty(encoded.snapshots);
    var gate := NormalizeCapabilityGate(encoded.gate);
    var fault := encoded.applyFault;
    if fault.Some? {
      fsm.applyFault := fault;
    } else if fsm.applyFault.Some? {
      fault := fsm.applyFault;
    }
    fsm.state := MetadataState(
      encoded.clusterId, encoded.revision, encoded.leaderEpoch, TextOrEmpty(encoded.leaderOwner),
      encoded.lastLeadershipTerm, values, snapshots, TextOrEmpty(encoded.activeSnapshot),
      encoded.activeSnapshotIndex, gate, fault, ledger.value);
    return None;
  }

  // --------------------------------------------------------------- preservation

  /** Every stored value is already in the form the encoder writes. */
  predicate ValuesAreCompact(compact: string -> string, values: map<string, string>) {
    forall key :: key in values ==> compact(values[key]) == values[key]
  }

  /** `t` is `s`, except that some values may have been rewritten once by the encoder. */
  predicate SameUpToCompaction(compact: string -> string, s: MetadataState, t: MetadataState) {
    && t == s.(values := t.values)
    && t.values.Keys == s.values.Keys
    && forall key :: key in s.values ==> t.values[key] == s.values[key] || t.values[key] == compact(s.values[key])
  }

  /** Restoring a snapshot gives the encoded state back with its values compacted, so exactly the
      same state if and only if every value was compact. */
  lemma RestoreOfEncode(compact: string -> string, s: MetadataState, current: MetadataState)
    requires s.applyFault.None? && GateIsNormal(s)
    requires current.clusterId == s.clusterId && current.applyFault.None?
    ensures var encoded := Encode(compact, s);
            && encoded.Some?
            && var restored := Restore(current, encoded.value);
               && restored.Ok?
               && restored.value == s.(values := CompactValues(compact, s.values))
               && SameUpToCompaction(compact, s, restored.value)
               && (restored.value == s <==> ValuesAreCompact(compact, s.values))
  {
    var values := CompactValues(compact, s.values);
    assert MapOrEmpty(NonEmptyMap(values)) == values;
    assert MapOrEmpty(NonEmptyMap(s.snapshots)) == s.snapshots;
    if !ValuesAreCompact(compact, s.values) {
      var key :| key in s.values && compact(s.values[key]) != s.values[key];
      assert values[key] != s.values[key];
    } else {
      assert values == s.values;
    }
  }

  lemma FaultedNodeIsNotCompacted(compact: string -> string, s: MetadataState)
    ensures Encode(compact, s).None? <==> s.applyFault.Some?
  {
  }

  /** All snapshots that any nodes take after the same log are the same, whatever binaries took them,
      and a node that took one could have taken one after every shorter log. */
  lemma SnapshotsOfReplicasAgree(compact: string -> string, h: Hashes, c1: NodeCapabilities, c2: NodeCapabilities,
                                 s: MetadataState, log: seq<Entry>, k: nat)
    requires k <= |log|
    requires Encode(compact, Run(h, c1, s, log)).Some? && Encode(compact, Run(h, c2, s, log)).Some?
    ensures Encode(compact, Run(h, c1, s, log)) == Encode(compact, Run(h, c2, s, log))
    ensures Encode(compact, Run(h, c1, s, log[..k])).Some?
    ensures Encode(compact, Run(h, c1, s, log[..k])) == Encode(compact, Run(h, c2, s, log[..k]))
  {
    hide Step, Encode;
    FaultedNodeIsNotCompacted(compact, Run(h, c1, s, log));
    FaultedNodeIsNotCompacted(compact, Run(h, c2, s, log));
    UnfaultedReplicasAgree(h, c1, c2, s, log);
    PrefixIsUnfaulted(h, c1, s, log, k);
    PrefixIsUnfaulted(h, c2, s, log, k);
    FaultedNodeIsNotCompacted(compact, Run(h, c1, s, log[..k]));
    UnfaultedReplicasAgree(h, c1, c2, s, log[..k]);
  }

  lemma PrefixIsUnfaulted(h: Hashes, c: NodeCapabilities, s: MetadataState, log: seq<Entry>, k: nat)
    requires k <= |log| && Run(h, c, s, log).applyFault.None?
    ensures Run(h, c, s, log[..k]).applyFault.None?
  {
    hide Step, Run;
    SplitRun(h, c, s, log, k);
    if Run(h, c, s, log[..k]).applyFault.Some? {
      FaultedNodeIsFrozen(h, c, Run(h, c, s, log[..k]), log[k..]);
    }
  }

  predicate EffectsMatch(compact: string -> string, e: Effect, f: Effect) {
    match e
    case Accept(after) => f.Accept? && SameUpToCompaction(compact, after, f.state)
    case Refuse(reason) => f == Refuse(reason)
    case Halt(fault) => f == Halt(fault)
  }

  lemma CommitIgnoresCompaction(compact: string -> string, h: Hashes, s: MetadataState, t: MetadataState,
                                payload: Option<Manifest>, index: U64)
    requires SameUpToCompaction(compact, s, t)
    ensures EffectsMatch(compact, CommitEffect(h, s, payload, index), CommitEffect(h, t, payload, index))
  {
    hide AdmittedByGate, ComputeManifestHash, IsNextSequence;
  }

  lemma OthersIgnoreCompaction(compact: string -> string, c: NodeCapabilities, s: MetadataState, t: MetadataState,
                               body: Body)
    requires SameUpToCompaction(compact, s, t)
    ensures body.AcquireLeadership? ==>
              EffectsMatch(compact, AcquireEffect(s, body.acquire), AcquireEffect(t, body.acquire))
    ensures body.PutMetadata? ==> EffectsMatch(compact, PutEffect(s, body.put), PutEffect(t, body.put))
    ensures body.PutMetadataBatch? ==> EffectsMatch(compact, BatchEffect(s, body.batch), BatchEffect(t, body.batch))
    ensures body.ActivateCapabilities? ==>
              EffectsMatch(compact, ActivateEffect(c, s, body.activate), ActivateEffect(c, t, body.activate))
  {
    hide ValidGate, SupportsGate;
  }

  /** No command looks at the stored values. */
  lemma EffectIgnoresCompaction(compact: string -> string, h: Hashes, c: NodeCapabilities,
                                s: MetadataState, t: MetadataState, command: Command, index: U64)
    requires SameUpToCompaction(compact, s, t)
    ensures EffectsMatch(compact, EffectOf(h, c, s, command, index), EffectOf(h, c, t, command, index))
  {
    OthersIgnoreCompaction(compact, c, s, t, command.body);
    if command.body.CommitSnapshot? {
      CommitIgnoresCompaction(compact, h, s, t, command.body.commit, index);
    }
    hide AcquireEffect, PutEffect, BatchEffect, CommitEffect, ActivateEffect;
  }

  lemma CommandIgnoresCompaction(compact: string -> string, h: Hashes, c: NodeCapabilities,
                                 s: MetadataState, t: MetadataState,
                                 command: Command, digest: string, index: U64)
    requires SameUpToCompaction(compact, s, t)
    ensures var (s', r) := ApplyCommand(h, c, s, command, digest, index);
            var (t', q) := ApplyCommand(h, c, t, command, digest, index);
            SameUpToCompaction(compact, s', t') && r == q
  {
    EffectIgnoresCompaction(compact, h, c, s, t, command, index);
    hide EffectOf;
  }

  lemma StepIgnoresCompaction(compact: string -> string, h: Hashes, c: NodeCapabilities,
                              s: MetadataState, t: MetadataState, entry: Entry)
    requires SameUpToCompaction(compact, s, t)
    ensures SameUpToCompaction(compact, Step(h, c, s, entry).0, Step(h, c, t, entry).0)
    ensures Step(h, c, s, entry).1 == Step(h, c, t, entry).1
  {
    assert t == s.(values := t.values);
    hide EffectOf, CommandDigest, ApplyCommand, Normalized;
    forall error {:trigger RecordFault(s, entry.index, error)}
      ensures SameUpToCompaction(compact, RecordFault(s, entry.index, error), RecordFault(t, entry.index, error))
    {
    }
    hide SameUpToCompaction, RecordFault;
    if entry.data.Some? {
      var command := WithVersions(entry.data.value);
      var digest := CommandDigest(h, command);
      if digest.Some? {
        CommandIgnoresCompaction(compact, h, c, s, t, command, digest.value, entry.index);
      }
    }
  }

  lemma {:induction false} RunIgnoresCompaction(compact: string -> string, h: Hashes, c: NodeCapabilities,
                                                s: MetadataState, t: MetadataState, log: seq<Entry>)
    requires SameUpToCompaction(compact, s, t)
    ensures SameUpToCompaction(compact, Run(h, c, s, log), Run(h, c, t, log))
    ensures Results(h, c, s, log) == Results(h, c, t, log)
  {
    hide Step, SameUpToCompaction;
    if log != [] {
      var front := log[..|log| - 1];
      RunIgnoresCompaction(compact, h, c, s, t, front);
      StepIgnoresCompaction(compact, h, c, Run(h, c, s, front), Run(h, c, t, front), log[|log| - 1]);
    }
  }

  /** The state of a fresh node of the cluster that restores a snapshot taken after `prefix`. */
  function AfterCompaction(compact: string -> string, h: Hashes, c: NodeCapabilities, clusterId: string,
                           prefix: seq<Entry>): Option<MetadataState> {
    var encoded := Encode(compact, Run(h, c, InitialState(clusterId), prefix));
    if encoded.None? then None
    else
      match Restore(InitialState(clusterId), encoded.value)
      case Ok(s) => Some(s)
      case Err(_) => None
  }

  /** For every log and every split point with an unfaulted prefix, a fresh node that restores the
      prefix's snapshot and applies the suffix reports the same results as a node that applied the
      whole log, and ends in the same state up to value compaction. When the prefix's values are
      compact, it ends in exactly the same state. */
  lemma CompactionPreservesRuns(compact: string -> string, h: Hashes, c: NodeCapabilities, clusterId: string,
                                prefix: seq<Entry>, suffix: seq<Entry>)
    returns (restored: MetadataState)
    requires Run(h, c, InitialState(clusterId), prefix).applyFault.None?
    ensures AfterCompaction(compact, h, c, clusterId, prefix) == Some(restored)
    ensures Results(h, c, InitialState(clusterId), prefix + suffix)
            == Results(h, c, InitialState(clusterId), prefix) + Results(h, c, restored, suffix)
    ensures SameUpToCompaction(compact, Run(h, c, InitialState(clusterId), prefix + suffix),
                               Run(h, c, restored, suffix))
    ensures ValuesAreCompact(compact, Run(h, c, InitialState(clusterId), prefix).values) ==>
              Run(h, c, restored, suffix) == Run(h, c, InitialState(clusterId), prefix + suffix)
  {
    hide Step, Encode, Restore;
    var before := Run(h, c, InitialState(clusterId), prefix);
    LegacyGateIsNormal();
    GateStaysNormal(h, c, InitialState(clusterId), prefix);
    ClusterIdIsFixed(h, c, InitialState(clusterId), prefix);
    RestoreOfEncode(compact, before, InitialState(clusterId));
    restored := AfterCompaction(compact, h, c, clusterId, prefix).value;
    RunConcat(h, c, InitialState(clusterId), prefix, suffix);
    RunIgnoresCompaction(compact, h, c, before, restored, suffix);
  }

  lemma {:induction false} ClusterIdIsFixed(h: Hashes, c: NodeCapabilities, s: MetadataState, log: seq<Entry>)
    ensures Run(h, c, s, log).clusterId == s.clusterId
  {
    if log != [] {
      ClusterIdIsFixed(h, c, s, log[..|log| - 1]);
      StepKeepsClusterId(h, c, Run(h, c, s, log[..|log| - 1]), log[|log| - 1]);
    }
    hide Step;
  }

  lemma StepKeepsClusterId(h: Hashes, c: NodeCapabilities, s: MetadataState, entry: Entry)
    ensures Step(h, c, s, entry).0.clusterId == s.clusterId
  {
    StepCases(h, c, s, entry);
    if TakesEffect(h, c, s, entry) {
      EffectKeepsLedger(h, c, s, WithVersions(entry.data.value), entry.index);
    }
    hide Step, EffectOf;
  }

  /** A put without a value is stored as the empty text; the encoder writes it as `null`. Such a
      value is enough to make the restored state differ, although nothing else does. */
  lemma AbsentValueBecomesNull(compact: string -> string, s: MetadataState, current: MetadataState, key: string)
    requires s.applyFault.None? && GateIsNormal(s)
    requires current.clusterId == s.clusterId && current.applyFault.None?
    requires key in s.values && s.values[key] == "" && compact("") == "null"
    ensures var restored := Restore(current, Encode(compact, s).value);
            restored.Ok? && restored.value != s && restored.value.values[key] == "null"
  {
    RestoreOfEncode(compact, s, current);
  }

  /** Restoring does not check that the node supports the snapshot's gate: it supports the active
      gate afterwards exactly when it supports the gate it was handed. */
  lemma RestoredGateIsUnchecked(c: NodeCapabilities, current: MetadataState, encoded: EncodedState)
    requires Restore(current, encoded).Ok?
    ensures SupportsGate(c, Restore(current, encoded).value.gate, false) <==> SupportsGate(c, encoded.gate, false)
  {
    NormalizedIsStable(encoded.gate);
  }

  /** The digest that a snapshot's ledger keeps for an id: none if an older binary wrote the ledger. */
  function KeptDigest(ledger: EncodedLedger, id: string): string {
    if ledger.LedgerRecords? && id in ledger.records then ledger.records[id].digest else ""
  }

  /** After restoring any snapshot, a redelivered id is refused exactly when the snapshot kept a digest
      for it and the digest differs. A ledger of an older binary keeps none, so it accepts any payload
      under a known id and reports the old revision. */
  lemma LegacyLedgerAcceptsAnyPayload(h: Hashes, c: NodeCapabilities, current: MetadataState, encoded: EncodedState,
                                      entry: Entry)
    requires Restore(current, encoded).Ok? && entry.data.Some? && entry.data.value.id != ""
    requires entry.data.value.id in Restore(current, encoded).value.applied
    requires Delivered(h, c, Restore(current, encoded).value, WithVersions(entry.data.value))
    ensures var s, kept := Restore(current, encoded).value, KeptDigest(encoded.applied, entry.data.value.id);
            var (t, result) := Step(h, c, s, entry);
            && t == s
            && (result.error.Some? <==> kept != "" && CommandDigest(h, WithVersions(entry.data.value)) != Some(kept))
            && (encoded.applied.LegacyRevisions? ==>
                  result == ApplyResult(encoded.applied.revisions[entry.data.value.id], s.leaderEpoch, None))
  {
    hide Step, Delivered, CommandDigest;
    var id := entry.data.value.id;
    if encoded.applied.LegacyRevisions? {
      assert Restore(current, encoded).value.applied[id] == AppliedCommand(encoded.applied.revisions[id], "");
    }
    StepOnKnownId(h, c, Restore(current, encoded).value, entry);
  }

  /** A fault in the snapshot wins; without one, the node keeps the fault it had. Either way a node that is
      halted after a restore stays so: it applies nothing, reports an error for every entry and takes
      no snapshot. */
  lemma RestoreKeepsNodesHalted(compact: string -> string, h: Hashes, c: NodeCapabilities, current: MetadataState,
                                encoded: EncodedState, log: seq<Entry>)
    requires Restore(current, encoded).Ok?
    ensures var t := Restore(current, encoded).value;
            && (encoded.applyFault.Some? ==> t.applyFault == encoded.applyFault)
            && (encoded.applyFault.None? ==> t.applyFault == current.applyFault)
            && (encoded.applyFault.Some? || current.applyFault.Some? ==>
                  && Run(h, c, t, log) == t && |Results(h, c, t, log)| == |log|
                  && (forall i :: 0 <= i < |log| ==> Results(h, c, t, log)[i].error.Some?)
                  && Encode(compact, t).None?)
  {
    hide Step, Run, Results;
    var t := Restore(current, encoded).value;
    if t.applyFault.Some? {
      FaultedNodeIsFrozen(h, c, t, log);
    }
  }

  /** A restore succeeds exactly for a snapshot of this cluster whose ledger decodes. Whatever fails, the
      node keeps its state. */
  lemma RestoreIsExact(current: MetadataState, encoded: EncodedState)
    ensures Restore(current, encoded).Ok? <==>
            encoded.clusterId == current.clusterId && !encoded.applied.LedgerMalformed?
    ensures Restore(current, encoded).Err? ==>
              Restore(current, encoded).error
              == if encoded.applied.LedgerMalformed? then UndecodableSnapshot else ForeignSnapshot
  {
  }

  /** A snapshot carries no fault, its gate is normalized, and every value in it was written by the encoder. */
  lemma SnapshotIsNormal(compact: string -> string, s: MetadataState)
    requires Encode(compact, s).Some?
    ensures var encoded := Encode(compact, s).value;
            && encoded.applyFault.None? && Normalized(encoded.gate) == encoded.gate
            && (encoded.values.Some? ==>
                  forall key :: key in encoded.values.value ==>
                    key in s.values && encoded.values.value[key] == compact(s.values[key]))
  {
    NormalizedIsStable(s.gate);
  }
}
