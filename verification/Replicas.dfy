/** Replicas with different binaries on one log: they all follow one ideal run. */
module Replicas {
  import opened Common
  import opened Capability
  import opened Snapshots
  import opened MetadataFsm
  import opened Runs

  const EVERY_VERSION := VersionRange(1, MAX_U32)

  /** A binary that understands every version and has every capability level. */
  const FULLY_CAPABLE := NodeCapabilities(MAX_U32, EVERY_VERSION, EVERY_VERSION, EVERY_VERSION, EVERY_VERSION)

  function WithoutFault(s: MetadataState): MetadataState {
    s.(applyFault := None)
  }

  lemma FullyCapableSupportsEveryGate(gate: CapabilityGate, leader: bool)
    ensures SupportsGate(FULLY_CAPABLE, gate, leader)
  {
    NormalizedIsStable(gate);
  }

  lemma UnfaultedEffectIsIdeal(h: Hashes, c: NodeCapabilities, s: MetadataState, command: Command, index: U64)
    requires !EffectOf(h, c, s, command, index).Halt?
    ensures EffectOf(h, c, s, command, index) == EffectOf(h, FULLY_CAPABLE, s, command, index)
  {
    if command.body.ActivateCapabilities? && command.body.activate.Some? {
      FullyCapableSupportsEveryGate(Normalized(command.body.activate.value), false);
    }
  }

  /** Where a node does not fault, it does exactly what a fully capable node does. */
  lemma UnfaultedStepIsIdeal(h: Hashes, c: NodeCapabilities, s: MetadataState, entry: Entry)
    requires Step(h, c, s, entry).0.applyFault.None?
    ensures Step(h, c, s, entry) == Step(h, FULLY_CAPABLE, s, entry)
  {
    if s.applyFault.None? && entry.data.Some? && entry.data.value.id != "" {
      var command := WithVersions(entry.data.value);
      if !EffectOf(h, c, s, command, entry.index).Halt? {
        UnfaultedEffectIsIdeal(h, c, s, command, entry.index);
      }
    }
  }

  /** `k` entries apply without a fault and the next one, if there is one, faults. */
  predicate IsFirstFault(h: Hashes, c: NodeCapabilities, s: MetadataState, log: seq<Entry>, k: nat) {
    && k <= |log|
    && (forall i :: 0 <= i <= k ==> Run(h, c, s, log[..i]).applyFault.None?)
    && (k < |log| ==> Run(h, c, s, log[..k + 1]).applyFault.Some?)
  }

  lemma {:induction false} FirstFaultExists(h: Hashes, c: NodeCapabilities, s: MetadataState, log: seq<Entry>)
    returns (k: nat)
    requires s.applyFault.None?
    ensures IsFirstFault(h, c, s, log, k)
  {
    hide Step;
    if log == [] {
      k := 0;
    } else {
      var front := log[..|log| - 1];
      assert forall i :: 0 <= i <= |front| ==> front[..i] == log[..i];
      k := FirstFaultExists(h, c, s, front);
      if k == |front| && Run(h, c, s, log).applyFault.None? {
        k := |log|;
        assert log[..k] == log;
        assert forall i :: 0 <= i <= k ==> i <= |front| || log[..i] == log;
      } else if k == |front| {
        assert log[..k + 1] == log;
      }
    }
  }

  /** A faulted node is frozen: later entries change nothing and all report an error. */
  lemma {:induction false} FaultedNodeIsFrozen(h: Hashes, c: NodeCapabilities, s: MetadataState, log: seq<Entry>)
    requires s.applyFault.Some?
    ensures Run(h, c, s, log) == s
    ensures |Results(h, c, s, log)| == |log|
    ensures forall i :: 0 <= i < |log| ==> Results(h, c, s, log)[i].error.Some?
  {
    hide Step;
    if log != [] {
      FaultedNodeIsFrozen(h, c, s, log[..|log| - 1]);
      StepCases(h, c, s, log[|log| - 1]);
    }
  }

  lemma {:induction false} UnfaultedRunIsIdeal(h: Hashes, c: NodeCapabilities, s: MetadataState, log: seq<Entry>)
    requires Run(h, c, s, log).applyFault.None?
    ensures Run(h, c, s, log) == Run(h, FULLY_CAPABLE, s, log)
    ensures Results(h, c, s, log) == Results(h, FULLY_CAPABLE, s, log)
  {
    hide Step;
    if log != [] {
      var front, last := log[..|log| - 1], log[|log| - 1];
      StepCases(h, c, Run(h, c, s, front), last);
      UnfaultedRunIsIdeal(h, c, s, front);
      UnfaultedStepIsIdeal(h, c, Run(h, c, s, front), last);
    }
  }

  lemma FaultingEntryFreezes(h: Hashes, c: NodeCapabilities, s: MetadataState, log: seq<Entry>)
    requires log != [] && s.applyFault.None? && Run(h, c, s, log[..1]).applyFault.Some?
    ensures WithoutFault(Run(h, c, s, log)) == s
    ensures |Results(h, c, s, log)| == |log|
    ensures forall i :: 0 <= i < |log| ==> Results(h, c, s, log)[i].error.Some?
  {
    hide Step;
    var first := log[..1];
    SplitRun(h, c, s, log, 1);
    RunOne(h, c, s, first);
    StepCases(h, c, s, log[0]);
    FaultedNodeIsFrozen(h, c, Run(h, c, s, first), log[1..]);
    forall i | 0 <= i < |log| ensures Results(h, c, s, log)[i].error.Some? {
      if i == 0 {
        assert Results(h, c, s, log)[0] == Results(h, c, s, log)[..1][0];
      } else {
        assert Results(h, c, s, log)[i] == Results(h, c, s, log)[1..][i - 1];
      }
    }
  }

  lemma FaultFreezesRest(h: Hashes, c: NodeCapabilities, s: MetadataState, log: seq<Entry>, k: nat)
    requires k < |log|
    requires Run(h, c, s, log[..k]).applyFault.None? && Run(h, c, s, log[..k + 1]).applyFault.Some?
    ensures WithoutFault(Run(h, c, s, log)) == Run(h, c, s, log[..k])
    ensures |Results(h, c, s, log)| == |log|
    ensures forall i :: k <= i < |log| ==> Results(h, c, s, log)[i].error.Some?
  {
    hide Step;
    assert log[..k + 1] == log[..k] + log[k..][..1];
    RunConcat(h, c, s, log[..k], log[k..][..1]);
    SplitRun(h, c, s, log, k);
    FaultingEntryFreezes(h, c, Run(h, c, s, log[..k]), log[k..]);
    forall i | k <= i < |log| ensures Results(h, c, s, log)[i].error.Some? {
      assert Results(h, c, s, log)[i] == Results(h, c, s, log)[k..][i - k];
    }
  }

  lemma {:induction false} IdealPrefix(h: Hashes, c: NodeCapabilities, s: MetadataState, log: seq<Entry>, k: nat)
    requires k <= |log| && Run(h, c, s, log[..k]).applyFault.None?
    ensures Run(h, c, s, log[..k]) == Run(h, FULLY_CAPABLE, s, log[..k])
    ensures |Results(h, c, s, log)| == |log|
    ensures Results(h, c, s, log)[..k] == Results(h, FULLY_CAPABLE, s, log[..k])
  {
    hide Step;
    UnfaultedRunIsIdeal(h, c, s, log[..k]);
    SplitRun(h, c, s, log, k);
  }

  /** For every log and every binary: apart from the fault, a node's state is the ideal state on the
      prefix before its first faulting entry, reached without a fault and with the same results;
      from there on it only reports errors. */
  lemma HeterogeneousReplicasRefineIdealRun(h: Hashes, c: NodeCapabilities, s: MetadataState, log: seq<Entry>, k: nat)
    requires s.applyFault.None? && IsFirstFault(h, c, s, log, k)
    ensures Run(h, FULLY_CAPABLE, s, log[..k]).applyFault.None?
    ensures WithoutFault(Run(h, c, s, log)) == Run(h, FULLY_CAPABLE, s, log[..k])
    ensures |Results(h, c, s, log)| == |log|
    ensures Results(h, c, s, log)[..k] == Results(h, FULLY_CAPABLE, s, log[..k])
    ensures forall i :: k <= i < |log| ==> Results(h, c, s, log)[i].error.Some?
  {
    hide Step;
    IdealPrefix(h, c, s, log, k);
    if k < |log| {
      FaultFreezesRest(h, c, s, log, k);
    } else {
      assert log[..k] == log;
    }
  }

  /** Unfaulted nodes agree on state and on every result, whatever their binaries. */
  lemma UnfaultedReplicasAgree(h: Hashes, c1: NodeCapabilities, c2: NodeCapabilities, s: MetadataState, log: seq<Entry>)
    requires Run(h, c1, s, log).applyFault.None? && Run(h, c2, s, log).applyFault.None?
    ensures Run(h, c1, s, log) == Run(h, c2, s, log)
    ensures Results(h, c1, s, log) == Results(h, c2, s, log)
  {
    UnfaultedRunIsIdeal(h, c1, s, log);
    UnfaultedRunIsIdeal(h, c2, s, log);
  }

  // ------------------------------------------------------- the gate a node runs

  predicate GateIsNormal(s: MetadataState) {
    Normalized(s.gate) == s.gate
  }

  lemma LegacyGateIsNormal()
    ensures Normalized(LEGACY_GATE) == LEGACY_GATE
  {
    assert |LEGACY_GATE.datasetSchemaVersions| == 1;
    assert NormalizedVersions(LEGACY_GATE.datasetSchemaVersions) == LEGACY_GATE.datasetSchemaVersions;
  }

  lemma EffectOnGate(h: Hashes, c: NodeCapabilities, s: MetadataState, command: Command, index: U64)
    ensures var effect := EffectOf(h, c, s, command, index);
            effect.Accept? ==>
              || effect.state.gate == s.gate
              || (GateIsNormal(effect.state) && SupportsGate(c, effect.state.gate, false))
  {
    if command.body.ActivateCapabilities? && command.body.activate.Some? {
      NormalizedIsStable(command.body.activate.value);
    }
  }

  lemma StepOnGate(h: Hashes, c: NodeCapabilities, s: MetadataState, entry: Entry)
    ensures var t := Step(h, c, s, entry).0;
            t.gate == s.gate || (GateIsNormal(t) && SupportsGate(c, t.gate, false))
  {
    StepCases(h, c, s, entry);
    if TakesEffect(h, c, s, entry) {
      EffectOnGate(h, c, s, WithVersions(entry.data.value), entry.index);
    }
  }

  lemma {:induction false} GateStaysNormal(h: Hashes, c: NodeCapabilities, s: MetadataState, log: seq<Entry>)
    requires GateIsNormal(s)
    ensures GateIsNormal(Run(h, c, s, log))
  {
    hide Step;
    if log != [] {
      GateStaysNormal(h, c, s, log[..|log| - 1]);
      StepOnGate(h, c, Run(h, c, s, log[..|log| - 1]), log[|log| - 1]);
    }
  }

  /** A node that supports the gate it starts from supports the active gate after applying any log. */
  lemma {:induction false} ApplyingKeepsGateSupported(h: Hashes, c: NodeCapabilities, s: MetadataState, log: seq<Entry>)
    requires SupportsGate(c, s.gate, false)
    ensures SupportsGate(c, Run(h, c, s, log).gate, false)
  {
    hide Step;
    if log != [] {
      ApplyingKeepsGateSupported(h, c, s, log[..|log| - 1]);
      StepOnGate(h, c, Run(h, c, s, log[..|log| - 1]), log[|log| - 1]);
    }
  }

  /** So no command in the active version is outside an unfaulted node's ranges, and no manifest that
      the active gate admits is, once the node reads the legacy dataset schema. */
  lemma ActiveTrafficIsInRange(h: Hashes, c: NodeCapabilities, clusterId: string, log: seq<Entry>, manifest: Manifest)
    requires SupportsGate(c, LEGACY_GATE, false)
    ensures var s := Run(h, c, InitialState(clusterId), log);
            && c.protocol.Supports(s.gate.protocolVersion) && c.command.Supports(s.gate.commandVersion)
            && (AdmittedByGate(manifest, s.gate) ==> InRange(manifest, c))
  {
    hide Step;
    var s := Run(h, c, InitialState(clusterId), log);
    LegacyGateIsNormal();
    GateStaysNormal(h, c, InitialState(clusterId), log);
    ApplyingKeepsGateSupported(h, c, InitialState(clusterId), log);
    assert "*" in LEGACY_GATE.datasetSchemaVersions;
    AdmittedManifestsAreReadable(s.gate, c);
  }
}
