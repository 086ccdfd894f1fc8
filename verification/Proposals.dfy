/** What becomes of a command that a leader stamps with what it reads locally (node.go): by the time it is
    applied, other entries may have come first. */
module Proposals {
  import opened Common
  import opened Capability
  import opened Snapshots
  import opened MetadataFsm
  import opened Runs
  import opened Replicas
  import opened Ledger
  import opened SnapshotIndex

  predicate SameVersions(a: CapabilityGate, b: CapabilityGate) {
    && Normalized(a).protocolVersion == Normalized(b).protocolVersion
    && Normalized(a).commandVersion == Normalized(b).commandVersion
  }

  /** A command of a known type under the versions active in the state that its proposer read. */
  predicate IsStampedFrom(h: Hashes, proposed: MetadataState, command: Command) {
    && command.id != "" && !command.body.UnknownType?
    && command.protocolVersion == Normalized(proposed.gate).protocolVersion
    && command.commandVersion == Normalized(proposed.gate).commandVersion
    && CommandDigest(h, command).Some?
  }

  /** The command is new and expects the revision that it meets, or none. */
  predicate IsCurrent(s: MetadataState, command: Command) {
    command.id !in s.applied && (command.expectedRevision.Some? ==> command.expectedRevision.value == s.revision)
  }

  /** The commands of the current leader that halt a node: a manifest of this cluster and epoch, in order if
      order matters, which the gate does not admit; a valid gate which the node does not support. */
  predicate Poisons(c: NodeCapabilities, s: MetadataState, command: Command)
    requires s.activeSnapshot != "" ==> s.activeSnapshot in s.snapshots
  {
    && HoldsCurrentEpoch(s, command)
    && match command.body
       case CommitSnapshot(Some(m)) =>
         && m.generation.clusterId == s.clusterId && m.generation.leaderEpoch == s.leaderEpoch
         && (OrdersSequences(s.gate) ==> IsNextSequence(ActiveSequence(s), m.generation.sequence))
         && !AdmittedByGate(m, s.gate)
       case ActivateCapabilities(Some(gate)) => ValidGate(Normalized(gate)) && !SupportsGate(c, Normalized(gate), false)
       case _ => false
  }

  /** At one node: a stale stamp always halts it, a good stamp never does by itself. */
  lemma StampedStep(h: Hashes, c: NodeCapabilities, s: MetadataState, proposed: MetadataState, command: Command,
                    index: U64)
    requires s.applyFault.None? && SupportsGate(c, s.gate, false) && IsStampedFrom(h, proposed, command)
    requires s.activeSnapshot != "" ==> s.activeSnapshot in s.snapshots
    ensures Step(h, c, s, Entry(index, Some(command))).0.applyFault.Some? <==>
            !SameVersions(s.gate, proposed.gate) || (IsCurrent(s, command) && Poisons(c, s, command))
  {
    assert WithVersions(command) == command by {
      NormalizedIsStable(proposed.gate);
    }
    hide AdmittedByGate, ComputeManifestHash, IsNextSequence, OrdersSequences, CommandDigest, ValidGate;
    StampedEffect(h, c, s, command, index);
    hide EffectOf;
  }

  lemma StampedEffect(h: Hashes, c: NodeCapabilities, s: MetadataState, command: Command, index: U64)
    requires !command.body.UnknownType?
    requires s.activeSnapshot != "" ==> s.activeSnapshot in s.snapshots
    ensures EffectOf(h, c, s, command, index).Halt? <==> Poisons(c, s, command)
    ensures EffectOf(h, c, s, command, index).Accept? ==>
              EffectOf(h, c, s, command, index).state.applyFault == s.applyFault
  {
    hide AdmittedByGate, ComputeManifestHash, IsNextSequence, OrdersSequences, ValidGate, SupportsGate, Normalized,
      Increment;
  }

  /** The leader reads the metadata after entry `i`, stamps any command with what it read, and any node
      applies it as entry `j`. It halts that node exactly when an activation in between changed the
      command versions, or when it is new, meets the revision it expects, and poisons the node. */
  lemma StaleStampHalts(h: Hashes, leader: NodeCapabilities, c: NodeCapabilities, clusterId: string, log: seq<Entry>,
                        i: nat, j: nat, command: Command)
    requires i <= |log| && j < |log| && log[j].data == Some(command)
    requires SupportsGate(c, LEGACY_GATE, false)
    requires Run(h, c, InitialState(clusterId), log[..j]).applyFault.None?
    requires IsStampedFrom(h, Run(h, leader, InitialState(clusterId), log[..i]), command)
    ensures var proposed := Run(h, leader, InitialState(clusterId), log[..i]);
            var s := Run(h, c, InitialState(clusterId), log[..j]);
            && (s.activeSnapshot != "" ==> s.activeSnapshot in s.snapshots)
            && (Step(h, c, s, log[j]).0.applyFault.Some? <==>
                  !SameVersions(s.gate, proposed.gate) || (IsCurrent(s, command) && Poisons(c, s, command)))
  {
    var init := InitialState(clusterId);
    InitialIsIndexed(h, clusterId);
    IndexOverRun(h, c, init, log[..j]);
    ApplyingKeepsGateSupported(h, c, init, log[..j]);
    hide Step, Run, IsStampedFrom, SupportsGate, SameVersions, IsCurrent, Poisons;
    assert log[j] == Entry(log[j].index, Some(command));
    StampedStep(h, c, Run(h, c, init, log[..j]), Run(h, leader, init, log[..i]), command, log[j].index);
  }

  /** A command that expects the revision it was stamped at, as all but the acquisition of leadership do,
      is judged by the very state that its proposer read: it is poison for a node of that state's gate
      exactly when it was so then. */
  lemma RevisionFixesPoison(h: Hashes, leader: NodeCapabilities, c: NodeCapabilities, clusterId: string,
                            log: seq<Entry>,
                            i: nat, j: nat, command: Command)
    requires ValidLog(log) && i <= j < |log|
    requires Run(h, leader, InitialState(clusterId), log[..i]).applyFault.None?
    requires Run(h, c, InitialState(clusterId), log[..j]).applyFault.None?
    requires command.expectedRevision == Some(Run(h, leader, InitialState(clusterId), log[..i]).revision)
    requires IsCurrent(Run(h, c, InitialState(clusterId), log[..j]), command)
    ensures Run(h, c, InitialState(clusterId), log[..j]) == Run(h, leader, InitialState(clusterId), log[..i])
  {
    var init := InitialState(clusterId);
    UnfaultedRunIsIdeal(h, leader, init, log[..i]);
    UnfaultedRunIsIdeal(h, c, init, log[..j]);
    hide Step, Run;
    RevisionDeterminesState(h, FULLY_CAPABLE, clusterId, log, i, j);
  }
}
