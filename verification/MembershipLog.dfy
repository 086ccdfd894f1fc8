/** Every run of the membership protocol is the effect of a log on the state machine. */
module MembershipLog {
  import opened Common
  import opened Capability
  import opened Snapshots
  import opened MetadataFsm
  import opened Runs
  import opened Replicas
  import opened Ledger
  import opened Proposals
  import opened Membership
  import opened MembershipInvariant
  import opened MembershipSafety
  import opened MembershipWrites

  const FIRST_MEMBERS_ID := "initialize/cluster-members/v1"

  /** The records read back as they were written, and every command has a digest. */
  ghost predicate TextsWork(codec: Codec, h: Hashes) {
    && (forall op :: codec.readOperation(codec.operation(op)) == Some(op))
    && (forall members :: codec.readMembers(codec.members(members)) == Some(members))
    && (forall input :: h.digestSum(input).Some?)
  }

  function Reached(h: Hashes, clusterId: string, log: seq<Entry>): MetadataState {
    Run(h, FULLY_CAPABLE, InitialState(clusterId), log)
  }

  predicate Numbered(log: seq<Entry>) {
    forall i :: 0 <= i < |log| ==> log[i].index == i + 1
  }

  /** The state machine after the log holds the protocol's durable state and knows its leader. */
  ghost predicate Logged(codec: Codec, h: Hashes, clusterId: string, log: seq<Entry>, s: Cluster) {
    var m := Reached(h, clusterId, log);
    && Numbered(log) && Represents(codec, m, s.d)
    && m.applyFault.None? && m.leaderOwner == s.leader != "" && m.lastLeadershipTerm <= |log|
  }

  // ------------------------------------------------------------------- commands

  /** The command that the current leader proposes on a state. */
  function Proposed(s: MetadataState, id: string, revision: Option<U64>, body: Body): Command {
    Command(Normalized(s.gate).protocolVersion, Normalized(s.gate).commandVersion,
            id, revision, s.leaderEpoch, body, "")
  }

  lemma ProposedIsDelivered(h: Hashes, s: MetadataState, id: string, revision: Option<U64>, body: Body)
    requires s.applyFault.None? && (forall input :: h.digestSum(input).Some?)
    ensures var command := Proposed(s, id, revision, body);
            && WithVersions(command) == command && Delivered(h, FULLY_CAPABLE, s, command)
            && (id != "" && !body.UnknownType? ==> IsStampedFrom(h, s, command))
  {
    NormalizedIsStable(s.gate);
    assert CommandDigest(h, Proposed(s, id, revision, body)).Some?;
  }

  /** Only the acquisition of leadership touches who leads. */
  lemma LeaderStays(h: Hashes, s: MetadataState, entry: Entry)
    requires entry.data.Some? && !entry.data.value.body.AcquireLeadership?
    ensures var t := Step(h, FULLY_CAPABLE, s, entry).0;
            && t.leaderOwner == s.leaderOwner && t.leaderEpoch == s.leaderEpoch
            && t.lastLeadershipTerm == s.lastLeadershipTerm
  {
    StepCases(h, FULLY_CAPABLE, s, entry);
    hide Step, AdmittedByGate, ComputeManifestHash, SupportsGate, ValidGate, Normalized, CommandDigest;
  }

  /** An id without a slash names no operation's phase; one that is new always exists. */
  lemma FreshId(ids: set<string>) returns (id: string)
    ensures id != "" && id !in ids && forall op, phase :: CommandId(op, phase) != id
  {
    var longest: nat, left := 0, ids;
    while left != {}
      invariant left <= ids && forall x :: x in ids && x !in left ==> |x| <= longest
      decreases left
    {
      var x :| x in left;
      left := left - {x};
      longest := if |x| > longest then |x| else longest;
    }
    id := seq(longest + 1, i => 'a');
    assert forall x :: x in ids ==> |x| < |id|;
    forall op, phase ensures CommandId(op, phase) != id {
      assert CommandId(op, phase)[|op|] == '/';
    }
  }

  lemma Extended(h: Hashes, clusterId: string, log: seq<Entry>, entry: Entry)
    requires Numbered(log) && entry.index == |log| + 1
    ensures Reached(h, clusterId, log + [entry]) == Step(h, FULLY_CAPABLE, Reached(h, clusterId, log), entry).0
    ensures Numbered(log + [entry])
  {
    hide Step;
    assert (log + [entry])[..|log|] == log;
  }

  // ---------------------------------------------------------------- single moves

  /** A leader takes over by one entry, in a new term. */
  lemma LeadershipIsLogged(codec: Codec, h: Hashes, s: MetadataState, d: Durable, leader: string, index: U64)
    returns (entry: Entry)
    requires TextsWork(codec, h) && Represents(codec, s, d) && s.applyFault.None?
    requires leader != "" && s.lastLeadershipTerm < MAX_U64
    ensures entry.index == index
    ensures var t := Step(h, FULLY_CAPABLE, s, entry).0;
            && Represents(codec, t, d) && t.applyFault.None? && t.leaderOwner == leader
            && t.lastLeadershipTerm == s.lastLeadershipTerm + 1
  {
    var id := FreshId(s.applied.Keys);
    var body := AcquireLeadership(Some(AcquirePayload(leader, s.lastLeadershipTerm + 1)));
    entry := Entry(index, Some(Proposed(s, id, None, body)));
    hide CommandId, Represents;
    ProposedIsDelivered(h, s, id, None, body);
    assert IsForeign(entry.data.value);
    ForeignEntryKeepsDurable(codec, h, FULLY_CAPABLE, s, d, entry);
    hide IsForeign, Normalized, CommandDigest;
  }

  lemma WriteIsLogged(codec: Codec, h: Hashes, s: MetadataState, w: World, cluster: Cluster, index: U64,
                      op: Operation, members: Option<map<string, Member>>) returns (entry: Entry)
    requires TextsWork(codec, h) && Represents(codec, s, cluster.d) && s.applyFault.None? && s.leaderOwner != ""
    requires MayLead(w, cluster.d, cluster.leader) && Write(w, cluster, op).Some?
    ensures entry.index == index
    ensures var t, d := Step(h, FULLY_CAPABLE, s, entry).0, Write(w, cluster, op).value;
            && Represents(codec, t, if members.None? then d else d.(members := members.value))
            && t.applyFault.None? && t.leaderOwner == s.leaderOwner && t.lastLeadershipTerm == s.lastLeadershipTerm
  {
    var texts := if members.None? then None else Some(codec.members(members.value));
    var body := WriteBody(codec.operation(op), texts);
    var command := Proposed(s, CommandId(op.id, op.phase), Some(s.revision), body);
    entry := Entry(index, Some(command));
    ProposedIsDelivered(h, s, command.id, Some(s.revision), body);
    CommandIdIsNamed(op.id, op.phase);
    hide CommandId, Represents, Delivered, MayLead, Normalized;
    WriteIsOneEntry(codec, h, FULLY_CAPABLE, s, w, cluster, command, index, op, members);
    LeaderStays(h, s, entry);
    WriteNeverHalts(h, s, command, index);
    hide IsWrite;
  }

  lemma WriteNeverHalts(h: Hashes, s: MetadataState, command: Command, index: U64)
    requires s.applyFault.None? && IsStampedFrom(h, s, command)
    requires command.body.PutMetadata? || command.body.PutMetadataBatch?
    ensures Step(h, FULLY_CAPABLE, s, Entry(index, Some(command))).0.applyFault.None?
  {
    NormalizedIsStable(s.gate);
    hide CommandDigest;
  }

  lemma ActivationIsLogged(codec: Codec, h: Hashes, s: MetadataState, d: Durable, index: U64, gate: CapabilityGate)
    returns (entry: Entry)
    requires TextsWork(codec, h) && Represents(codec, s, d) && s.applyFault.None? && s.leaderOwner != ""
    requires ValidGate(gate) && Normalized(gate) == gate
    ensures entry.index == index
    ensures var t := Step(h, FULLY_CAPABLE, s, entry).0;
            && Represents(codec, t, d.(gate := gate))
            && t.applyFault.None? && t.leaderOwner == s.leaderOwner && t.lastLeadershipTerm == s.lastLeadershipTerm
  {
    var id := FreshId(s.applied.Keys);
    var body := ActivateCapabilities(Some(gate));
    var command := Proposed(s, id, Some(s.revision), body);
    entry := Entry(index, Some(command));
    FullyCapableSupportsEveryGate(gate, false);
    ProposedIsDelivered(h, s, id, Some(s.revision), body);
    hide CommandId, Represents, SupportsGate, ValidGate, CommandDigest;
    ActivationIsOneEntry(codec, h, FULLY_CAPABLE, s, d, command, index, gate);
    LeaderStays(h, s, entry);
  }

  lemma ServersAreNotLogged(codec: Codec, m: MetadataState, d: Durable, servers: map<string, Suffrage>)
    requires Represents(codec, m, d)
    ensures Represents(codec, m, d.(servers := servers))
  {
  }

  lemma LoggedOn(codec: Codec, h: Hashes, clusterId: string, log: seq<Entry>, entry: Entry, s: Cluster, t: Cluster)
    requires Logged(codec, h, clusterId, log, s) && entry.index == |log| + 1
    requires var m, n := Reached(h, clusterId, log), Step(h, FULLY_CAPABLE, Reached(h, clusterId, log), entry).0;
             && Represents(codec, n, t.d) && n.applyFault.None? && n.leaderOwner == t.leader != ""
             && n.lastLeadershipTerm <= m.lastLeadershipTerm + 1
    ensures Logged(codec, h, clusterId, log + [entry], t)
  {
    hide Step, Represents;
    Extended(h, clusterId, log, entry);
  }

  /** A move that writes through the log, with the entry that does it. */
  lemma WritingMoveIsLogged(codec: Codec, h: Hashes, clusterId: string, w: World, s: Cluster, move: Move,
                            log: seq<Entry>)
    returns (entry: Entry)
    requires TextsWork(codec, h) && Inv(w, s) && Next(w, s, move).Some? && Logged(codec, h, clusterId, log, s)
    requires |log| + 1 < MAX_U64 && !move.LeaderChange?
    requires var d := Next(w, s, move).value.d; d != s.d.(servers := d.servers)
    ensures entry.index == |log| + 1
    ensures var n := Step(h, FULLY_CAPABLE, Reached(h, clusterId, log), entry).0;
            && Represents(codec, n, Next(w, s, move).value.d) && n.applyFault.None? && n.leaderOwner == s.leader
            && n.lastLeadershipTerm == Reached(h, clusterId, log).lastLeadershipTerm
  {
    var t, m := Next(w, s, move).value, Reached(h, clusterId, log);
    var op, members := MoveWritesAtMostOnce(w, s, move);
    ActivatingIsValid(w, s);
    hide Next, Inv, Reached, Represents, Write, TextsWork, ValidGate, Normalized, Step, MayLead, Numbered;
    if MayLead(w, s.d, s.leader) && s.task.Activating? && t.d == s.d.(gate := s.task.gate) {
      entry := ActivationIsLogged(codec, h, m, s.d, |log| + 1, s.task.gate);
    } else {
      entry := WriteIsLogged(codec, h, m, w, s, |log| + 1, op, members);
    }
  }

  /** A move costs the log at most one entry. */
  lemma MoveIsLogged(codec: Codec, h: Hashes, clusterId: string, w: World, s: Cluster, move: Move, log: seq<Entry>)
    returns (longer: seq<Entry>)
    requires TextsWork(codec, h) && Inv(w, s) && Next(w, s, move).Some? && Logged(codec, h, clusterId, log, s)
    requires |log| + 1 < MAX_U64 && move != LeaderChange("")
    ensures log <= longer && |longer| <= |log| + 1 && Logged(codec, h, clusterId, longer, Next(w, s, move).value)
  {
    var t, m := Next(w, s, move).value, Reached(h, clusterId, log);
    LeaderAfter(w, s, move);
    hide Next, Inv, Reached, Represents, TextsWork, Step, Numbered;
    if move.LeaderChange? {
      var entry := LeadershipIsLogged(codec, h, m, s.d, move.next, |log| + 1);
      LoggedOn(codec, h, clusterId, log, entry, s, t);
      longer := log + [entry];
    } else if t.d == s.d.(servers := t.d.servers) {
      longer := log;
      ServersAreNotLogged(codec, m, s.d, t.d.servers);
    } else {
      var entry := WritingMoveIsLogged(codec, h, clusterId, w, s, move, log);
      LoggedOn(codec, h, clusterId, log, entry, s, t);
      longer := log + [entry];
    }
  }

  lemma LeaderAfter(w: World, s: Cluster, move: Move)
    requires Next(w, s, move).Some?
    ensures Next(w, s, move).value.leader == if move.LeaderChange? then move.next else s.leader
    ensures move.LeaderChange? ==> Next(w, s, move).value.d == s.d
  {
    hide MayActivate, MayJoin, MayRemove, MayLead, SupportsGate;
  }

  lemma ActivatingIsValid(w: World, s: Cluster)
    requires Inv(w, s)
    ensures s.task.Activating? ==> ValidGate(s.task.gate) && Normalized(s.task.gate) == s.task.gate
  {
    hide DurableInv, LockMatches, AllSupport, OneMayLead;
  }

  // ------------------------------------------------------------------ whole runs

  lemma {:induction false} MovesAreLogged(codec: Codec, h: Hashes, clusterId: string, w: World, s: Cluster,
                                          moves: seq<Move>, log: seq<Entry>)
    returns (longer: seq<Entry>)
    requires TextsWork(codec, h) && Inv(w, s) && RunMoves(w, s, moves).Some? && Logged(codec, h, clusterId, log, s)
    requires |log| + |moves| + 1 < MAX_U64 && forall k :: 0 <= k < |moves| ==> moves[k] != LeaderChange("")
    ensures log <= longer && |longer| <= |log| + |moves|
    ensures Logged(codec, h, clusterId, longer, RunMoves(w, s, moves).value)
    decreases |moves|
  {
    hide Inv, Next, Logged, TextsWork;
    longer := log;
    if |moves| > 0 {
      longer := MoveIsLogged(codec, h, clusterId, w, s, moves[0], log);
      MoveKeeps(w, s, moves[0]);
      assert forall k :: 0 <= k < |moves[1..]| ==> moves[1..][k] == moves[k + 1];
      longer := MovesAreLogged(codec, h, clusterId, w, Next(w, s, moves[0]).value, moves[1..], longer);
    }
  }

  /** The first leader's two entries: its leadership, and the initial member list. */
  lemma FirstLeaderIsLogged(codec: Codec, h: Hashes, clusterId: string, w: World, init: Cluster)
    returns (log: seq<Entry>)
    requires TextsWork(codec, h) && Init(w, init) && init.leader != ""
    ensures |log| == 2 && Logged(codec, h, clusterId, log, init)
    ensures exists s: MetadataState :: log[1].data == Some(Proposed(s, FIRST_MEMBERS_ID, Some(s.revision),
                              PutMetadata(Some(PutPayload(MEMBERS_KEY, codec.members(init.d.members))))))
  {
    var id := FreshId({FIRST_MEMBERS_ID});
    FirstAcquire(h, clusterId, id, init.leader);
    NoPhaseInFirstId();
    hide Step, CommandId, TextsWork, Proposed, Normalized;
    var s0 := InitialState(clusterId);
    var acquire := Entry(1, Some(Proposed(s0, id, None, AcquireLeadership(Some(AcquirePayload(init.leader, 1))))));
    var s1 := Step(h, FULLY_CAPABLE, s0, acquire).0;
    var body := PutMetadata(Some(PutPayload(MEMBERS_KEY, codec.members(init.d.members))));
    var put := Entry(2, Some(Proposed(s1, FIRST_MEMBERS_ID, Some(s1.revision), body)));
    FirstMembers(codec, h, s1, init.d.members, put, id);
    log := [acquire, put];
    assert log == ([] + [acquire]) + [put];
    Extended(h, clusterId, [], acquire);
    Extended(h, clusterId, [] + [acquire], put);
    LegacyGateIsNormal();
  }

  lemma FirstAcquire(h: Hashes, clusterId: string, id: string, leader: string)
    requires (forall input :: h.digestSum(input).Some?) && leader != "" && id != ""
    ensures var s0 := InitialState(clusterId);
            var entry := Entry(1, Some(Proposed(s0, id, None, AcquireLeadership(Some(AcquirePayload(leader, 1))))));
            var t := Step(h, FULLY_CAPABLE, s0, entry).0;
            && t.applyFault.None? && t.leaderOwner == leader && t.leaderEpoch == 1 && t.lastLeadershipTerm == 1
            && t.gate == LEGACY_GATE && t.values == map[] && t.applied.Keys == {id}
  {
    ProposedIsDelivered(h, InitialState(clusterId), id, None, AcquireLeadership(Some(AcquirePayload(leader, 1))));
    hide Normalized, CommandDigest;
  }

  lemma FirstMembers(codec: Codec, h: Hashes, s: MetadataState, members: map<string, Member>, entry: Entry, id: string)
    requires (forall input :: h.digestSum(input).Some?) && s.applyFault.None? && s.leaderOwner != ""
    requires FIRST_MEMBERS_ID !in s.applied
    requires entry.data == Some(Proposed(s, FIRST_MEMBERS_ID, Some(s.revision),
                  PutMetadata(Some(PutPayload(MEMBERS_KEY, codec.members(members))))))
    ensures var t := Step(h, FULLY_CAPABLE, s, entry).0;
            && t.applyFault.None? && t.leaderOwner == s.leaderOwner && t.lastLeadershipTerm == s.lastLeadershipTerm
            && t.gate == s.gate && t.values == s.values[MEMBERS_KEY := codec.members(members)]
            && t.applied.Keys == s.applied.Keys + {FIRST_MEMBERS_ID}
  {
    ProposedIsDelivered(h, s, FIRST_MEMBERS_ID, Some(s.revision),
                        PutMetadata(Some(PutPayload(MEMBERS_KEY, codec.members(members)))));
    hide Normalized, CommandDigest;
  }

  lemma NoPhaseInFirstId()
    ensures forall op, phase :: CommandId(op, phase) != FIRST_MEMBERS_ID
  {
    forall op, phase ensures CommandId(op, phase) != FIRST_MEMBERS_ID {
      var text, name := CommandId(op, phase), PhaseName(phase);
      assert text[|text| - 1] == name[|name| - 1];
      assert name[|name| - 1] != '1';
      assert FIRST_MEMBERS_ID[|FIRST_MEMBERS_ID| - 1] == '1';
    }
  }

  /** Every run of the protocol from the bootstrapped cluster is the effect of a log: the first leader's two
      entries and at most one more per move. After it, a node that supports everything is unfaulted,
      knows the protocol's leader, and holds exactly the protocol's durable state. */
  lemma RunIsLogged(codec: Codec, h: Hashes, clusterId: string, w: World, init: Cluster, moves: seq<Move>)
    returns (log: seq<Entry>)
    requires TextsWork(codec, h) && Init(w, init) && init.leader != "" && RunMoves(w, init, moves).Some?
    requires |moves| + 3 < MAX_U64 && forall k :: 0 <= k < |moves| ==> moves[k] != LeaderChange("")
    ensures ValidLog(log) && |log| <= |moves| + 2
    ensures var m, s := Run(h, FULLY_CAPABLE, InitialState(clusterId), log), RunMoves(w, init, moves).value;
            Represents(codec, m, s.d) && m.applyFault.None? && m.leaderOwner == s.leader
  {
    InitHolds(w, init);
    log := FirstLeaderIsLogged(codec, h, clusterId, w, init);
    hide Init, Inv, Next, TextsWork, Represents, Run, RunMoves;
    log := MovesAreLogged(codec, h, clusterId, w, init, moves, log);
  }
}
