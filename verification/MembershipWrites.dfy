/** How the membership protocol's writes reach the state machine: each is one command whose id names the
    operation and the phase. */
module MembershipWrites {
  import opened Common
  import opened Capability
  import opened Snapshots
  import opened MetadataFsm
  import opened Runs
  import opened Replicas
  import opened Ledger
  import opened Membership

  const OPERATION_KEY := "cluster/membership_operation"
  const MEMBERS_KEY := "cluster/members"

  function PhaseName(phase: Phase): string {
    match phase
    case Prepared => "prepared"
    case NonVoterAdded => "non_voter"
    case CaughtUp => "caught_up"
    case Promoted => "voter"
    case Removed => "removed"
    case Completed => "completed"
  }

  function CommandId(id: string, phase: Phase): string {
    id + "/" + PhaseName(phase)
  }

  lemma PhaseNamesHaveNoSlash(phase: Phase)
    ensures '/' !in PhaseName(phase)
  {
  }

  lemma PhaseNamesDiffer(a: Phase, b: Phase)
    requires PhaseName(a) == PhaseName(b)
    ensures a == b
  {
    assert |PhaseName(a)| == |PhaseName(b)|;
    assert PhaseName(a)[0] == PhaseName(b)[0];
  }

  /** Command ids tell operations and phases apart, although operation ids contain slashes themselves. */
  lemma CommandIdsDiffer(id1: string, phase1: Phase, id2: string, phase2: Phase)
    requires CommandId(id1, phase1) == CommandId(id2, phase2)
    ensures id1 == id2 && phase1 == phase2
  {
    hide PhaseName;
    var x, y := PhaseName(phase1), PhaseName(phase2);
    var text := id1 + "/" + x;
    PhaseNamesHaveNoSlash(phase1);
    PhaseNamesHaveNoSlash(phase2);
    assert text[|id1|] == '/' && text[|id2|] == '/';
    assert id1 == text[..|id1|] && x == text[|id1| + 1..];
    assert text == id2 + "/" + y;
    assert id2 == text[..|id2|] && y == text[|id2| + 1..];
    PhaseNamesDiffer(phase1, phase2);
  }

  /** The body of an operation write: one key, or the final batch of two. */
  function WriteBody(operation: string, members: Option<string>): Body {
    match members
    case None => PutMetadata(Some(PutPayload(OPERATION_KEY, operation)))
    case Some(text) => PutMetadataBatch(Some(map[MEMBERS_KEY := text, OPERATION_KEY := operation]))
  }

  function Written(values: map<string, string>, operation: string, members: Option<string>): map<string, string> {
    match members
    case None => values[OPERATION_KEY := operation]
    case Some(text) => values[MEMBERS_KEY := text][OPERATION_KEY := operation]
  }

  lemma WriteEffect(h: Hashes, c: NodeCapabilities, s: MetadataState, command: Command, index: U64,
                    operation: string, members: Option<string>)
    requires command.body == WriteBody(operation, members) && HoldsCurrentEpoch(s, command)
    ensures EffectOf(h, c, s, command, index) == Accept(s.(values := Written(s.values, operation, members)))
  {
    hide CommitEffect, ActivateEffect, AcquireEffect;
    if members.Some? {
      var batch := map[MEMBERS_KEY := members.value, OPERATION_KEY := operation];
      assert MEMBERS_KEY in batch && "" !in batch;
      assert s.values + batch == Written(s.values, operation, members);
    }
  }

  /** A write of the current leader at the current revision: it takes effect exactly when its id is new,
      and then it changes the named keys and adds the id; otherwise it changes nothing. */
  lemma WriteTakesEffectOnce(h: Hashes, c: NodeCapabilities, s: MetadataState, command: Command, index: U64,
                             operation: string, members: Option<string>)
    requires Delivered(h, c, s, WithVersions(command)) && command.id != ""
    requires command.body == WriteBody(operation, members)
    requires HoldsCurrentEpoch(s, command) && command.expectedRevision == Some(s.revision)
    ensures var t := Step(h, c, s, Entry(index, Some(command))).0;
            if command.id in s.applied then t == s
            else && t.values == Written(s.values, operation, members)
                 && t.applied.Keys == s.applied.Keys + {command.id}
                 && t.gate == s.gate && t.snapshots == s.snapshots && t.leaderOwner == s.leaderOwner
  {
    WriteEffect(h, c, s, WithVersions(command), index, operation, members);
    hide CommandDigest, EffectOf, Written, WriteBody;
  }

  // ------------------------------------------- the protocol's state in the state machine

  /** The JSON texts of the two records, and how they are read back. */
  datatype Codec = Codec(
    operation: Operation -> string,
    members: map<string, Member> -> string,
    readOperation: string -> Option<Operation>,
    readMembers: string -> Option<map<string, Member>>)

  /** The state machine holds the durable state of the protocol: the two records decode to it, and the
      applied ids that name an operation and a phase are its ledger. */
  ghost predicate Represents(codec: Codec, s: MetadataState, d: Durable) {
    && ReadOperation(codec, s.values) == d.op
    && MEMBERS_KEY in s.values && codec.readMembers(s.values[MEMBERS_KEY]) == Some(d.members)
    && s.gate == d.gate && GateIsNormal(s)
    && LedgerOf(s, d)
  }

  function ReadOperation(codec: Codec, values: map<string, string>): Option<Operation> {
    if OPERATION_KEY in values then codec.readOperation(values[OPERATION_KEY]) else None
  }

  ghost predicate LedgerOf(s: MetadataState, d: Durable) {
    forall id, phase :: CommandId(id, phase) in s.applied <==> (id, phase) in d.ledger
  }

  lemma LedgerAfterWrite(s: MetadataState, d: Durable, t: MetadataState, e: Durable, id: string, phase: Phase)
    requires LedgerOf(s, d) && t.applied.Keys == s.applied.Keys + {CommandId(id, phase)}
    requires e.ledger == d.ledger + {(id, phase)}
    ensures LedgerOf(t, e)
  {
    hide CommandId;
    forall id2, phase2 ensures CommandId(id2, phase2) in t.applied <==> (id2, phase2) in e.ledger {
      if CommandId(id2, phase2) == CommandId(id, phase) {
        CommandIdsDiffer(id2, phase2, id, phase);
      }
    }
  }

  /** The command by which the current leader writes a phase, with the member list if it is the last. */
  predicate IsWrite(codec: Codec, h: Hashes, c: NodeCapabilities, s: MetadataState, command: Command,
                    op: Operation, members: Option<map<string, Member>>) {
    && Delivered(h, c, s, WithVersions(command)) && HoldsCurrentEpoch(s, command)
    && command.expectedRevision == Some(s.revision) && command.id == CommandId(op.id, op.phase)
    && command.body == WriteBody(codec.operation(op),
                               if members.None? then None else Some(codec.members(members.value)))
    && codec.readOperation(codec.operation(op)) == Some(op)
    && (members.Some? ==> codec.readMembers(codec.members(members.value)) == members)
  }

  /** The records read back as they were written; a write of the operation alone keeps the member list. */
  lemma WrittenReadsBack(codec: Codec, values: map<string, string>, op: Operation, members: Option<map<string, Member>>)
    requires codec.readOperation(codec.operation(op)) == Some(op)
    requires members.Some? ==> codec.readMembers(codec.members(members.value)) == members
    ensures var written := Written(values, codec.operation(op),
                                   if members.None? then None else Some(codec.members(members.value)));
            && ReadOperation(codec, written) == Some(op)
            && (members.Some? ==> MEMBERS_KEY in written && codec.readMembers(written[MEMBERS_KEY]) == members)
            && (members.None? && MEMBERS_KEY in values ==>
                  MEMBERS_KEY in written && written[MEMBERS_KEY] == values[MEMBERS_KEY])
  {
    assert MEMBERS_KEY != OPERATION_KEY;
  }

  /** Every write of the protocol is one entry of the log. On a state that holds the protocol's durable
      state it does what the protocol's own step says: the new durable state, or nothing when the id
      was used. */
  lemma WriteIsOneEntry(codec: Codec, h: Hashes, c: NodeCapabilities, s: MetadataState, w: World, cluster: Cluster,
                        command: Command, index: U64, op: Operation, members: Option<map<string, Member>>)
    requires Represents(codec, s, cluster.d) && MayLead(w, cluster.d, cluster.leader)
    requires IsWrite(codec, h, c, s, command, op, members)
    ensures var t := Step(h, c, s, Entry(index, Some(command))).0;
            match Write(w, cluster, op) {
              case None => t == s
              case Some(d) => Represents(codec, t, if members.None? then d else d.(members := members.value))
            }
  {
    hide Step, CommandId, Delivered, WriteBody, MayLead, HoldsCurrentEpoch, Written, ReadOperation;
    var texts := if members.None? then None else Some(codec.members(members.value));
    assert command.id != "" by { CommandIdIsNamed(op.id, op.phase); }
    WriteTakesEffectOnce(h, c, s, command, index, codec.operation(op), texts);
    WrittenReadsBack(codec, s.values, op, members);
    var t := Step(h, c, s, Entry(index, Some(command))).0;
    if Write(w, cluster, op).Some? {
      var d := Write(w, cluster, op).value;
      LedgerAfterWrite(s, cluster.d, t, if members.None? then d else d.(members := members.value), op.id, op.phase);
    }
  }

  lemma CommandIdIsNamed(id: string, phase: Phase)
    ensures CommandId(id, phase) != ""
  {
  }

  /** What a move changes of the durable state apart from the Raft configuration is one such write, or
      the activation of the handler's gate, or nothing. */
  lemma MoveWritesAtMostOnce(w: World, s: Cluster, move: Move)
    returns (op: Operation, members: Option<map<string, Member>>)
    requires Next(w, s, move).Some?
    ensures var d := Next(w, s, move).value.d;
            || d == s.d.(servers := d.servers)
            || (&& MayLead(w, s.d, s.leader) && Write(w, s, op).Some?
                && d == (if members.None? then Write(w, s, op).value
                         else Write(w, s, op).value.(members := members.value)))
            || (MayLead(w, s.d, s.leader) && s.task.Activating? && d == s.d.(gate := s.task.gate))
  {
    hide SupportsGate, AllSupport, OneMayLead, MayLead;
    op, members := *, None;
    match s.task
    case Idle =>
    case Activating(_) =>
    case Beginning(began) => op := began;
    case Joining(at, local, _) =>
      op := local.(phase := match at case WriteNonvoter => NonVoterAdded case WriteCaughtUp => CaughtUp
                                     case WriteVoter => Promoted case _ => Completed);
      members := if at == CompleteJoin then Some(s.d.members[local.member.nodeId := local.member]) else None;
    case Removing(point, local) =>
      op := local.(phase := if point == WriteRemoved then Removed else Completed);
      members := if point == CompleteRemove then Some(s.d.members - {local.member.nodeId}) else None;
  }

  /** So is an activation that the node supports, under an id that no operation uses. */
  lemma ActivationIsOneEntry(codec: Codec, h: Hashes, c: NodeCapabilities, s: MetadataState, d: Durable,
                             command: Command, index: U64, gate: CapabilityGate)
    requires Represents(codec, s, d) && Delivered(h, c, s, WithVersions(command)) && HoldsCurrentEpoch(s, command)
    requires command.expectedRevision == Some(s.revision) && command.id != "" && command.id !in s.applied
    requires forall id, phase :: CommandId(id, phase) != command.id
    requires command.body == ActivateCapabilities(Some(gate))
    requires ValidGate(Normalized(gate)) && SupportsGate(c, Normalized(gate), false)
    ensures Represents(codec, Step(h, c, s, Entry(index, Some(command))).0, d.(gate := Normalized(gate)))
  {
    var entry := Entry(index, Some(command));
    NormalizedIsStable(gate);
    StepCases(h, c, s, entry);
    assert EffectOf(h, c, s, WithVersions(command), index) == Accept(s.(gate := Normalized(gate)));
    assert TakesEffect(h, c, s, entry);
    hide Step, EffectOf, CommandId, Normalized, ValidGate, SupportsGate;
  }

  /** An entry that is none of the protocol's: it writes neither record, activates nothing and its id
      names no operation's phase. */
  ghost predicate IsForeign(command: Command) {
    && !command.body.ActivateCapabilities?
    && (command.body.PutMetadata? && command.body.put.Some? ==>
          command.body.put.value.key !in {OPERATION_KEY, MEMBERS_KEY})
    && (command.body.PutMetadataBatch? && command.body.batch.Some? ==>
          OPERATION_KEY !in command.body.batch.value && MEMBERS_KEY !in command.body.batch.value)
    && forall id, phase :: CommandId(id, phase) != command.id
  }

  lemma ForeignEffect(h: Hashes, c: NodeCapabilities, s: MetadataState, command: Command, index: U64)
    requires IsForeign(command) && EffectOf(h, c, s, command, index).Accept?
    ensures var t := EffectOf(h, c, s, command, index).state;
            && t.gate == s.gate
            && (OPERATION_KEY in t.values <==> OPERATION_KEY in s.values)
            && (OPERATION_KEY in s.values ==> t.values[OPERATION_KEY] == s.values[OPERATION_KEY])
            && (MEMBERS_KEY in t.values <==> MEMBERS_KEY in s.values)
            && (MEMBERS_KEY in s.values ==> t.values[MEMBERS_KEY] == s.values[MEMBERS_KEY])
  {
    hide ValidGate, SupportsGate, AdmittedByGate, CommandId;
  }

  /** Every other entry, taken or refused, leaves the protocol's durable state alone. */
  lemma ForeignEntryKeepsDurable(codec: Codec, h: Hashes, c: NodeCapabilities, s: MetadataState, d: Durable,
                                 entry: Entry)
    requires Represents(codec, s, d) && (entry.data.Some? ==> IsForeign(entry.data.value))
    ensures Represents(codec, Step(h, c, s, entry).0, d)
  {
    StepCases(h, c, s, entry);
    if TakesEffect(h, c, s, entry) {
      assert IsForeign(WithVersions(entry.data.value));
      ForeignEffect(h, c, s, WithVersions(entry.data.value), entry.index);
    }
    hide Step, EffectOf, CommandId;
  }
}
