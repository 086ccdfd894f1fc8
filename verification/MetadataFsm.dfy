/** The replicated metadata state machine (consensus.go): what one log entry does to one node. */
module MetadataFsm {
  import opened Common
  import opened Capability
  import opened Snapshots

  // ------------------------------------------------------------- log entries

  datatype AcquirePayload = AcquirePayload(nodeId: string, term: U64)

  datatype PutPayload = PutPayload(key: string, value: string)

  /** The command type with its decoded payload; `None` is a payload that does not decode. */
  datatype Body =
    | AcquireLeadership(acquire: Option<AcquirePayload>)
    | PutMetadata(put: Option<PutPayload>)
    | PutMetadataBatch(batch: Option<map<string, string>>)
    | CommitSnapshot(commit: Option<Manifest>)
    | ActivateCapabilities(activate: Option<CapabilityGate>)
    | UnknownType(name: string)

  datatype Command = Command(
    protocolVersion: U32,
    commandVersion: U32,
    id: string,
    expectedRevision: Option<U64>,
    leaderEpoch: U64,
    body: Body,
    payloadText: string)

  /** One Raft log entry; `None` is data that does not decode to a command. */
  datatype Entry = Entry(index: U64, data: Option<Command>)

  function TypeName(body: Body): string {
    match body
    case AcquireLeadership(_) => "acquire_leadership"
    case PutMetadata(_) => "put_metadata"
    case PutMetadataBatch(_) => "put_metadata_batch"
    case CommitSnapshot(_) => "commit_snapshot"
    case ActivateCapabilities(_) => "activate_capabilities"
    case UnknownType(name) => name
  }

  // ------------------------------------------------------------------ hashing

  /** What `commandDigest` hashes: everything but the command id and the creation time. */
  datatype DigestInput = DigestInput(
    commandType: string,
    expectedRevision: Option<U64>,
    leaderEpoch: U64,
    protocolVersion: U32,
    commandVersion: U32,
    payloadText: string)

  /** SHA-256 sums of canonical texts, as hexadecimal; `None` is a text that cannot be built. */
  datatype Hashes = Hashes(digestSum: DigestInput -> Option<string>, manifestSum: Manifest -> Option<string>)

  function CommandDigest(hashes: Hashes, command: Command): Option<string> {
    var input := DigestInput(TypeName(command.body), command.expectedRevision, command.leaderEpoch,
                             command.protocolVersion, command.commandVersion, command.payloadText);
    match hashes.digestSum(input)
    case None => None
    case Some(hex) => Some(HASH_PREFIX_SHA256 + hex)
  }

  // -------------------------------------------------------------------- state

  datatype ApplyError =
    | UndecodableCommand
    | MissingCommandId
    | HaltedAfterFault(index: U64)
    | UnsupportedVersion(protocol: U32, command: U32)
    | InactiveVersion(protocol: U32, command: U32)
    | DigestUnavailable
    | IdReusedWithDifferentPayload
    | RevisionConflict(expected: U64, current: U64)
    | UndecodablePayload
    | MissingNodeOrTerm
    | TermMovedBackwards
    | EpochNotCurrent
    | MissingKey
    | EmptyBatch
    | ForeignCluster
    | SnapshotEpochNotCurrent
    | ActiveSnapshotMissing
    | SequenceNotNext
    | ManifestNotAdmitted
    | ManifestHashUnavailable
    | ManifestHashMismatch
    | InvalidGate
    | GateNotSupported
    | UnknownCommandType(name: string)

  datatype ApplyFault = ApplyFault(index: U64, error: ApplyError)

  datatype AppliedCommand = AppliedCommand(revision: U64, digest: string)

  datatype MetadataState = MetadataState(
    clusterId: string,
    revision: U64,
    leaderEpoch: U64,
    leaderOwner: string,
    lastLeadershipTerm: U64,
    values: map<string, string>,
    snapshots: map<string, Manifest>,
    activeSnapshot: string,
    activeSnapshotIndex: U64,
    gate: CapabilityGate,
    applyFault: Option<ApplyFault>,
    applied: map<string, AppliedCommand>)

  datatype ApplyResult = ApplyResult(revision: U64, leaderEpoch: U64, error: Option<ApplyError>)

  function InitialState(clusterId: string): MetadataState {
    MetadataState(clusterId, 0, 0, "", 0, map[], map[], "", 0, LEGACY_GATE, None, map[])
  }

  // ---------------------------------------------------------- effect by type

  /** What a command that passed every common check does: change the state, be refused, or halt the node. */
  datatype Effect = Accept(state: MetadataState) | Refuse(reason: ApplyError) | Halt(fault: ApplyError)

  function AcquireEffect(s: MetadataState, payload: Option<AcquirePayload>): Effect {
    if payload.None? then Refuse(UndecodablePayload)
    else if payload.value.nodeId == "" || payload.value.term == 0 then Refuse(MissingNodeOrTerm)
    else if payload.value.term < s.lastLeadershipTerm then Refuse(TermMovedBackwards)
    else if payload.value.term > s.lastLeadershipTerm then
      Accept(s.(leaderEpoch := Increment(s.leaderEpoch),
                lastLeadershipTerm := payload.value.term,
                leaderOwner := payload.value.nodeId))
    else Accept(s)
  }

  predicate HoldsCurrentEpoch(s: MetadataState, command: Command) {
    command.leaderEpoch == s.leaderEpoch && s.leaderOwner != ""
  }

  function PutEffect(s: MetadataState, payload: Option<PutPayload>): Effect {
    if payload.None? then Refuse(UndecodablePayload)
    else if payload.value.key == "" then Refuse(MissingKey)
    else Accept(s.(values := s.values[payload.value.key := payload.value.value]))
  }

  function BatchEffect(s: MetadataState, payload: Option<map<string, string>>): Effect {
    if payload.None? then Refuse(UndecodablePayload)
    else if |payload.value| == 0 then Refuse(EmptyBatch)
    else if "" in payload.value then Refuse(MissingKey)
    else Accept(s.(values := s.values + payload.value))
  }

  function ActiveSequence(s: MetadataState): Option<U64>
    requires s.activeSnapshot != "" ==> s.activeSnapshot in s.snapshots
  {
    if s.activeSnapshot == "" then None else Some(s.snapshots[s.activeSnapshot].generation.sequence)
  }

  predicate OrdersSequences(gate: CapabilityGate) {
    Normalized(gate).minimumVoterCapability >= CAPABILITY_LEVEL_MONOTONIC_SNAPSHOT_SEQUENCE
  }

  function CommitEffect(hashes: Hashes, s: MetadataState, payload: Option<Manifest>, index: U64): Effect {
    if payload.None? then Refuse(UndecodablePayload)
    else
      var m := payload.value;
      if m.generation.clusterId != s.clusterId then Refuse(ForeignCluster)
      else if m.generation.leaderEpoch != s.leaderEpoch then Refuse(SnapshotEpochNotCurrent)
      else if OrdersSequences(s.gate) && s.activeSnapshot != "" && s.activeSnapshot !in s.snapshots then
        Halt(ActiveSnapshotMissing)
      else if OrdersSequences(s.gate) && !IsNextSequence(ActiveSequence(s), m.generation.sequence) then
        Refuse(SequenceNotNext)
      else if !AdmittedByGate(m, s.gate) then Halt(ManifestNotAdmitted)
      else
        match ComputeManifestHash(hashes.manifestSum, m)
        case None => Refuse(ManifestHashUnavailable)
        case Some(hash) =>
          if hash != m.generation.manifestHash then Refuse(ManifestHashMismatch)
          else Accept(s.(snapshots := s.snapshots[hash := m], activeSnapshot := hash, activeSnapshotIndex := index))
  }

  function ActivateEffect(capabilities: NodeCapabilities, s: MetadataState, payload: Option<CapabilityGate>): Effect {
    if payload.None? then Refuse(UndecodablePayload)
    else
      var gate := Normalized(payload.value);
      if !ValidGate(gate) then Refuse(InvalidGate)
      else if !SupportsGate(capabilities, gate, false) then Halt(GateNotSupported)
      else Accept(s.(gate := gate))
  }

  function EffectOf(hashes: Hashes, capabilities: NodeCapabilities, s: MetadataState, command: Command,
                    index: U64): Effect {
    match command.body
    case AcquireLeadership(payload) => AcquireEffect(s, payload)
    case UnknownType(name) => Halt(UnknownCommandType(name))
    case _ =>
      if !HoldsCurrentEpoch(s, command) then Refuse(EpochNotCurrent)
      else match command.body {
        case PutMetadata(payload) => PutEffect(s, payload)
        case PutMetadataBatch(payload) => BatchEffect(s, payload)
        case CommitSnapshot(payload) => CommitEffect(hashes, s, payload, index)
        case ActivateCapabilities(payload) => ActivateEffect(capabilities, s, payload)
      }
  }

  /** No command touches the ledger, the cluster id or the fault by itself. */
  lemma EffectKeepsLedger(hashes: Hashes, capabilities: NodeCapabilities, s: MetadataState, command: Command,
                          index: U64)
    ensures var effect := EffectOf(hashes, capabilities, s, command, index);
            effect.Accept? ==>
              && effect.state.revision == s.revision && effect.state.applied == s.applied
              && effect.state.clusterId == s.clusterId && effect.state.applyFault == s.applyFault
  {
    hide Normalized, AdmittedByGate, ComputeManifestHash, SupportsGate, ValidGate, IsNextSequence, OrdersSequences,
      Increment;
  }

  // ------------------------------------------------------------ one log entry

  /** A command without versions is a legacy command. */
  function WithVersions(command: Command): Command {
    command.(protocolVersion := OrLegacy(command.protocolVersion, LEGACY_PROTOCOL_VERSION),
             commandVersion := OrLegacy(command.commandVersion, LEGACY_COMMAND_VERSION))
  }

  function Reply(s: MetadataState, error: Option<ApplyError>): ApplyResult {
    ApplyResult(s.revision, s.leaderEpoch, error)
  }

  /** `recordApplyFaultLocked`: the first fault sticks. */
  function RecordFault(s: MetadataState, index: U64, error: ApplyError): MetadataState {
    if s.applyFault.None? then s.(applyFault := Some(ApplyFault(index, error))) else s
  }

  /** A command that passed the version checks, with its digest: duplicate, conflict, or effect. */
  function ApplyCommand(hashes: Hashes, capabilities: NodeCapabilities, s: MetadataState,
                        command: Command, digest: string, index: U64): (MetadataState, ApplyResult) {
    if command.id in s.applied then
      var earlier := s.applied[command.id];
      if earlier.digest != "" && earlier.digest != digest then (s, Reply(s, Some(IdReusedWithDifferentPayload)))
      else (s, ApplyResult(earlier.revision, s.leaderEpoch, None))
    else if command.expectedRevision.Some? && command.expectedRevision.value != s.revision then
      (s, Reply(s, Some(RevisionConflict(command.expectedRevision.value, s.revision))))
    else
      match EffectOf(hashes, capabilities, s, command, index)
      case Refuse(reason) => (s, Reply(s, Some(reason)))
      case Halt(fault) => (RecordFault(s, index, fault), Reply(s, Some(fault)))
      case Accept(changed) =>
        var revision := Increment(s.revision);
        var after := changed.(revision := revision,
                              applied := s.applied[command.id := AppliedCommand(revision, digest)]);
        (after, Reply(after, None))
  }

  function Step(hashes: Hashes, capabilities: NodeCapabilities, s: MetadataState, entry: Entry)
    : (MetadataState, ApplyResult)
  {
    if entry.data.None? then
      (RecordFault(s, entry.index, UndecodableCommand), Reply(s, Some(UndecodableCommand)))
    else if entry.data.value.id == "" then
      (RecordFault(s, entry.index, MissingCommandId), Reply(s, Some(MissingCommandId)))
    else
      var command := WithVersions(entry.data.value);
      if s.applyFault.Some? then
        (s, Reply(s, Some(HaltedAfterFault(s.applyFault.value.index))))
      else if !capabilities.protocol.Supports(command.protocolVersion)
              || !capabilities.command.Supports(command.commandVersion) then
        var fault := UnsupportedVersion(command.protocolVersion, command.commandVersion);
        (RecordFault(s, entry.index, fault), Reply(s, Some(fault)))
      else if command.protocolVersion != Normalized(s.gate).protocolVersion
              || command.commandVersion != Normalized(s.gate).commandVersion then
        var fault := InactiveVersion(command.protocolVersion, command.commandVersion);
        (RecordFault(s, entry.index, fault), Reply(s, Some(fault)))
      else
        match CommandDigest(hashes, command)
        case None => (s, Reply(s, Some(DigestUnavailable)))
        case Some(digest) => ApplyCommand(hashes, capabilities, s, command, digest, entry.index)
  }

  // -------------------------------------------------------- the mutable object

  /** `metadataFSM`: the state and the fault are two fields that every method keeps in step. */
  class FSM {
    const hashes: Hashes
    const capabilities: NodeCapabilities
    var state: MetadataState
    var applyFault: Option<ApplyFault>

    ghost predicate Valid()
      reads this
    {
      state.applyFault == applyFault
    }

    constructor (clusterId: string, capabilities: NodeCapabilities, hashes: Hashes)
      ensures Valid() && state == InitialState(clusterId)
      ensures this.capabilities == capabilities && this.hashes == hashes
    {
      this.hashes := hashes;
      this.capabilities := capabilities;
      state := InitialState(clusterId);
      applyFault := None;
    }

    /** The source also copies an existing fault into a state that lacks it; `Valid` rules that case out. */
    method RecordApplyFault(index: U64, error: ApplyError) returns (result: ApplyResult)
      requires Valid()
      modifies this
      ensures Valid()
      ensures state == RecordFault(old(state), index, error)
      ensures result == Reply(old(state), Some(error))
    {
      if applyFault.None? {
        applyFault := Some(ApplyFault(index, error));
        state := state.(applyFault := applyFault);
      }
      result := Reply(state, Some(error));
    }

    /** The two loops of the batch case: validate every key into a copy, then write the copy. */
    method PutBatch(values: map<string, string>) returns (complete: bool)
      modifies this`state
      ensures complete <==> "" !in values
      ensures complete ==> state == old(state).(values := old(state).values + values)
      ensures !complete ==> state == old(state)
    {
      var validated: map<string, string> := map[];
      var keys := values.Keys;
      while keys != {}
        invariant keys <= values.Keys && "" !in values.Keys - keys
        invariant validated == map key | key in values && key !in keys :: values[key]
        invariant state == old(state)
        decreases keys
      {
        var key :| key in keys;
        keys := keys - {key};
        if key == "" {
          return false;
        }
        validated := validated[key := values[key]];
      }
      assert validated == values;
      keys := validated.Keys;
      while keys != {}
        invariant keys <= validated.Keys
        invariant state == old(state).(values := state.values)
        invariant state.values.Keys == old(state).values.Keys + (validated.Keys - keys)
        invariant forall key :: key in state.values ==>
                    state.values[key] == if key in validated && key !in keys then validated[key]
                      else old(state).values[key]
        decreases keys
      {
        var key :| key in keys;
        keys := keys - {key};
        state := state.(values := state.values[key := validated[key]]);
      }
      assert state.values == old(state).values + values;
      return true;
    }

    /** The `switch` of `Apply` on a command that passed the common checks; `None` means fall through
        to the revision increment. */
    method Dispatch(command: Command, index: U64) returns (stopped: Option<ApplyResult>)
      requires Valid() && applyFault.None?
      modifies this
      ensures Valid()
      ensures var effect := EffectOf(hashes, capabilities, old(state), command, index);
              match effect {
                case Accept(changed) => stopped.None? && state == changed
                case Refuse(reason) => stopped == Some(Reply(old(state), Some(reason))) && state == old(state)
                case Halt(fault) =>
                  stopped == Some(Reply(old(state), Some(fault))) && state == RecordFault(old(state), index, fault)
              }
    {
      match command.body {
        case AcquireLeadership(payload) =>
          if payload.None? { return Some(Reply(state, Some(UndecodablePayload))); }
          if payload.value.nodeId == "" || payload.value.term == 0 {
            return Some(Reply(state, Some(MissingNodeOrTerm)));
          }
          if payload.value.term < state.lastLeadershipTerm { return Some(Reply(state, Some(TermMovedBackwards))); }
          if payload.value.term > state.lastLeadershipTerm {
            state := state.(leaderEpoch := Increment(state.leaderEpoch));
            state := state.(lastLeadershipTerm := payload.value.term);
            state := state.(leaderOwner := payload.value.nodeId);
          }
        case PutMetadata(payload) =>
          if !HoldsCurrentEpoch(state, command) { return Some(Reply(state, Some(EpochNotCurrent))); }
          if payload.None? { return Some(Reply(state, Some(UndecodablePayload))); }
          if payload.value.key == "" { return Some(Reply(state, Some(MissingKey))); }
          state := state.(values := state.values[payload.value.key := payload.value.value]);
        case PutMetadataBatch(payload) =>
          if !HoldsCurrentEpoch(state, command) { return Some(Reply(state, Some(EpochNotCurrent))); }
          if payload.None? { return Some(Reply(state, Some(UndecodablePayload))); }
          if |payload.value| == 0 { return Some(Reply(state, Some(EmptyBatch))); }
          var complete := PutBatch(payload.value);
          if !complete { return Some(Reply(state, Some(MissingKey))); }
        case CommitSnapshot(payload) =>
          if !HoldsCurrentEpoch(state, command) { return Some(Reply(state, Some(EpochNotCurrent))); }
          stopped := Commit(payload, index);
        case ActivateCapabilities(payload) =>
          if !HoldsCurrentEpoch(state, command) { return Some(Reply(state, Some(EpochNotCurrent))); }
          if payload.None? { return Some(Reply(state, Some(UndecodablePayload))); }
          var gate := NormalizeCapabilityGate(payload.value);
          if !ValidGate(gate) { return Some(Reply(state, Some(InvalidGate))); }
          if !SupportsGate(capabilities, gate, false) {
            var halted := RecordApplyFault(index, GateNotSupported);
            return Some(halted);
          }
          state := state.(gate := gate);
        case UnknownType(name) =>
          var halted := RecordApplyFault(index, UnknownCommandType(name));
          return Some(halted);
      }
      if !command.body.CommitSnapshot? { stopped := None; }
    }

    method Commit(payload: Option<Manifest>, index: U64) returns (stopped: Option<ApplyResult>)
      requires Valid() && applyFault.None?
      modifies this
      ensures Valid()
      ensures match CommitEffect(hashes, old(state), payload, index) {
                case Accept(changed) => stopped.None? && state == changed
                case Refuse(reason) => stopped == Some(Reply(old(state), Some(reason))) && state == old(state)
                case Halt(fault) =>
                  stopped == Some(Reply(old(state), Some(fault))) && state == RecordFault(old(state), index, fault)
              }
    {
      if payload.None? { return Some(Reply(state, Some(UndecodablePayload))); }
      var manifest := payload.value;
      if manifest.generation.clusterId != state.clusterId { return Some(Reply(state, Some(ForeignCluster))); }
      if manifest.generation.leaderEpoch != state.leaderEpoch {
        return Some(Reply(state, Some(SnapshotEpochNotCurrent)));
      }
      if OrdersSequences(state.gate) {
        var previous: Option<U64> := None;
        if state.activeSnapshot != "" {
          if state.activeSnapshot !in state.snapshots {
            var halted := RecordApplyFault(index, ActiveSnapshotMissing);
            return Some(halted);
          }
          previous := Some(state.snapshots[state.activeSnapshot].generation.sequence);
        }
        if !IsNextSequence(previous, manifest.generation.sequence) { return Some(Reply(state, Some(SequenceNotNext))); }
      }
      if !AdmittedByGate(manifest, state.gate) {
        var halted := RecordApplyFault(index, ManifestNotAdmitted);
        return Some(halted);
      }
      var hash := ComputeManifestHash(hashes.manifestSum, manifest);
      if hash.None? { return Some(Reply(state, Some(ManifestHashUnavailable))); }
      if hash.value != manifest.generation.manifestHash { return Some(Reply(state, Some(ManifestHashMismatch))); }
      state := state.(snapshots := state.snapshots[hash.value := manifest]);
      state := state.(activeSnapshot := hash.value);
      state := state.(activeSnapshotIndex := index);
      return None;
    }

    method ApplyDigested(command: Command, digest: string, index: U64) returns (result: ApplyResult)
      requires Valid() && applyFault.None?
      modifies this
      ensures Valid()
      ensures (state, result) == ApplyCommand(hashes, capabilities, old(state), command, digest, index)
    {
      if command.id in state.applied {
        var earlier := state.applied[command.id];
        if earlier.digest != "" && earlier.digest != digest {
          return Reply(state, Some(IdReusedWithDifferentPayload));
        }
        return ApplyResult(earlier.revision, state.leaderEpoch, None);
      }
      if command.expectedRevision.Some? && command.expectedRevision.value != state.revision {
        return Reply(state, Some(RevisionConflict(command.expectedRevision.value, state.revision)));
      }
      EffectKeepsLedger(hashes, capabilities, state, command, index);
      var stopped := Dispatch(command, index);
      if stopped.Some? {
        return stopped.value;
      }
      state := state.(revision := Increment(state.revision));
      state := state.(applied := state.applied[command.id := AppliedCommand(state.revision, digest)]);
      return Reply(state, None);
    }

    method Apply(entry: Entry) returns (result: ApplyResult)
      requires Valid()
      modifies this
      ensures Valid()
      ensures (state, result) == Step(hashes, capabilities, old(state), entry)
    {
      if entry.data.None? {
        result := RecordApplyFault(entry.index, UndecodableCommand);
        return;
      }
      var command := entry.data.value;
      if command.id == "" {
        result := RecordApplyFault(entry.index, MissingCommandId);
        return;
      }
      if command.protocolVersion == 0 { command := command.(protocolVersion := LEGACY_PROTOCOL_VERSION); }
      if command.commandVersion == 0 { command := command.(commandVersion := LEGACY_COMMAND_VERSION); }
      if applyFault.Some? {
        return Reply(state, Some(HaltedAfterFault(applyFault.value.index)));
      }
      if !capabilities.protocol.Supports(command.protocolVersion)
         || !capabilities.command.Supports(command.commandVersion) {
        result := RecordApplyFault(entry.index, UnsupportedVersion(command.protocolVersion, command.commandVersion));
        return;
      }
      var gate := NormalizeCapabilityGate(state.gate);
      if command.protocolVersion != gate.protocolVersion || command.commandVersion != gate.commandVersion {
        result := RecordApplyFault(entry.index, InactiveVersion(command.protocolVersion, command.commandVersion));
        return;
      }
      var digest := CommandDigest(hashes, command);
      if digest.None? {
        return Reply(state, Some(DigestUnavailable));
      }
      result := ApplyDigested(command, digest.value, entry.index);
    }
  }
}
