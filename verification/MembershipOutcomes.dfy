/** What an idle leader achieves when nothing interrupts it: an activation installs its gate, a join makes
    a voter and a member of a node, a removal leaves it neither. */
module MembershipOutcomes {
  import opened Common
  import opened Capability
  import opened Membership
  import opened MembershipInvariant
  import opened MembershipSafety
  import opened MembershipRecovery

  lemma {:induction false} MovesCompose(w: World, s: Cluster, a: seq<Move>, b: seq<Move>)
    requires RunMoves(w, s, a).Some?
    ensures RunMoves(w, s, a + b) == RunMoves(w, RunMoves(w, s, a).value, b)
    decreases |a|
  {
    hide Next;
    if |a| == 0 {
      assert a + b == b;
    } else {
      assert (a + b)[0] == a[0] && (a + b)[1..] == a[1..] + b;
      MovesCompose(w, Next(w, s, a[0]).value, a[1..], b);
    }
  }

  lemma TwoMoves(w: World, s: Cluster, first: Move, second: Move)
    requires Next(w, s, first).Some?
    ensures RunMoves(w, s, [first, second]) == Next(w, Next(w, s, first).value, second)
  {
    hide Next;
    var t := Next(w, s, first).value;
    assert [first, second][1..] == [second];
    if Next(w, t, second).Some? {
      assert RunMoves(w, Next(w, t, second).value, [second][1..]) == Next(w, t, second);
    }
    assert RunMoves(w, t, [second]) == Next(w, t, second);
  }

  // --------------------------------------------------------------- activation

  /** Every voter supports the gate, and one with a name could lead under it. */
  ghost predicate VotersAccept(w: World, d: Durable, gate: CapabilityGate) {
    && (forall node :: IsVoter(d, node) ==> SupportsGate(w.capabilities(node), gate, false))
    && (exists node :: IsVoter(d, node) && node != "" && SupportsGate(w.capabilities(node), gate, true))
  }

  lemma StatusesTell(w: World, d: Durable, gate: CapabilityGate)
    ensures VotersAccept(w, d, gate) <==>
            AllSupport(VoterStatuses(w, d), Normalized(gate)) && OneMayLead(VoterStatuses(w, d), Normalized(gate))
  {
    NormalizedIsStable(gate);
    var voters := VoterStatuses(w, d);
    assert forall node :: IsVoter(d, node) <==> node in voters;
    assert forall node, leader :: node in voters ==>
             SupportsGate(voters[node], Normalized(gate), leader) == SupportsGate(w.capabilities(node), gate, leader);
    hide SupportsGate;
  }

  /** An idle leader can start an activation exactly when no operation is active, the gate names no empty
      dataset and the voters accept it. Its next step installs the normalized gate and changes
      nothing else. */
  lemma ActivationInstallsGate(w: World, s: Cluster, gate: CapabilityGate)
    requires s.task == Idle && MayLead(w, s.d, s.leader)
    ensures Next(w, s, StartActivate(gate)).Some? <==>
            !Active(s.d) && "" !in gate.datasetSchemaVersions && VotersAccept(w, s.d, gate)
    ensures Next(w, s, StartActivate(gate)).Some? ==>
              RunMoves(w, s, [StartActivate(gate), Proceed]) == Some(s.(d := s.d.(gate := Normalized(gate))))
  {
    NormalizedIsStable(gate);
    StatusesTell(w, s.d, gate);
    hide SupportsGate, ValidGate, AllSupport, OneMayLead, VotersAccept, Normalized, RunMoves;
    if Next(w, s, StartActivate(gate)).Some? {
      TwoMoves(w, s, StartActivate(gate), Proceed);
    }
  }

  // --------------------------------------------------------- joins and removals

  /** All members are voters, and all servers are members. */
  predicate Settled(d: Durable) {
    && !Active(d) && d.servers.Keys == d.members.Keys
    && forall node :: node in d.servers ==> d.servers[node] == Voter
  }

  lemma InactiveIsSettled(w: World, s: Cluster)
    requires Inv(w, s) && !Active(s.d)
    ensures Settled(s.d)
  {
    assert RecordsMatch(s.d);
  }

  /** An operation that an idle leader recorded. */
  ghost predicate Recorded(w: World, s: Cluster, t: Cluster, op: Operation) {
    && Ready(w, t) && t.d.op == Some(op)
    && t.d.members == s.d.members && t.d.gate == s.d.gate && t.d.servers == s.d.servers
  }

  lemma JoinIsRecorded(w: World, s: Cluster, member: Member, id: string)
    requires Inv(w, s) && MayJoin(w, s, member) && (id, Prepared) !in s.d.ledger
    ensures RunMoves(w, s, [StartJoin(member, id), Proceed]).Some?
    ensures Recorded(w, s, RunMoves(w, s, [StartJoin(member, id), Proceed]).value,
                     Operation(id, Join, Prepared, member, w.capabilities(member.nodeId)))
  {
    hide SupportsGate, DurableInv, LockMatches, RunMoves;
    TwoMoves(w, s, StartJoin(member, id), Proceed);
    MoveKeeps(w, s, StartJoin(member, id));
    MoveKeeps(w, Next(w, s, StartJoin(member, id)).value, Proceed);
  }

  lemma RemovalIsRecorded(w: World, s: Cluster, node: string, id: string)
    requires Inv(w, s) && MayRemove(w, s, node) && (id, Prepared) !in s.d.ledger
    ensures RunMoves(w, s, [StartRemove(node, id), Proceed]).Some?
    ensures Recorded(w, s, RunMoves(w, s, [StartRemove(node, id), Proceed]).value,
                     Operation(id, Remove, Prepared, s.d.members[node], NO_CAPABILITIES))
  {
    assert s.d.members[node].nodeId == node by { assert TargetMatches(w, s.d); }
    hide SupportsGate, DurableInv, LockMatches, RunMoves;
    TwoMoves(w, s, StartRemove(node, id), Proceed);
    MoveKeeps(w, s, StartRemove(node, id));
    MoveKeeps(w, Next(w, s, StartRemove(node, id)).value, Proceed);
  }

  /** From idle through completion: once an idle leader has started the join of a new node that supports the
      gate, its uninterrupted handler ends with that node among the members as it was given and as a
      voter, with all others as they were. */
  lemma JoinCompletes(w: World, init: Cluster, past: seq<Move>, member: Member, id: string) returns (moves: seq<Move>)
    requires Init(w, init) && RunMoves(w, init, past).Some?
    requires var s := RunMoves(w, init, past).value;
             && s.task == Idle && MayLead(w, s.d, s.leader) && !Active(s.d) && (id, Prepared) !in s.d.ledger
             && member.nodeId != "" && member.addr != "" && member.internalApiUrl != ""
             && member.nodeId != s.leader && member.nodeId !in s.d.members && Supports(w, s.d, member.nodeId, false)
    ensures var s := RunMoves(w, init, past).value;
            var begin := [StartJoin(member, id), Proceed];
            && RunMoves(w, s, begin).Some? && FollowsReconcile(w, RunMoves(w, s, begin).value, moves)
            && RunMoves(w, s, begin + moves).Some?
            && var d := RunMoves(w, s, begin + moves).value.d;
               && d.members == s.d.members[member.nodeId := member] && Settled(d) && d.gate == s.d.gate
               && d.op == Some(Operation(id, Join, Completed, member, w.capabilities(member.nodeId)))
  {
    InitHolds(w, init);
    RunKeeps(w, init, past);
    var s := RunMoves(w, init, past).value;
    hide Init, Inv, Next, RunMoves, DurableInv, MayLead, Supports;
    JoinIsRecorded(w, s, member, id);
    moves := FinishRecorded(w, s, [StartJoin(member, id), Proceed],
                            Operation(id, Join, Prepared, member, w.capabilities(member.nodeId)));
  }

  /** The same for a removal: a member other than the leader ends as neither a member nor a server. */
  lemma RemovalCompletes(w: World, init: Cluster, past: seq<Move>, node: string, id: string) returns (moves: seq<Move>)
    requires Init(w, init) && RunMoves(w, init, past).Some?
    requires var s := RunMoves(w, init, past).value;
             && s.task == Idle && MayLead(w, s.d, s.leader) && !Active(s.d) && (id, Prepared) !in s.d.ledger
             && node != "" && node != s.leader && node in s.d.members && |s.d.members| > w.bootstrapExpect
    ensures var s := RunMoves(w, init, past).value;
            var begin := [StartRemove(node, id), Proceed];
            && RunMoves(w, s, begin).Some? && FollowsReconcile(w, RunMoves(w, s, begin).value, moves)
            && RunMoves(w, s, begin + moves).Some?
            && var d := RunMoves(w, s, begin + moves).value.d;
               && d.members == s.d.members - {node} && Settled(d) && node !in d.servers && d.gate == s.d.gate
               && d.op == Some(Operation(id, Remove, Completed, s.d.members[node], NO_CAPABILITIES))
  {
    InitHolds(w, init);
    RunKeeps(w, init, past);
    var s := RunMoves(w, init, past).value;
    assert s.d.members[node].nodeId == node by { assert TargetMatches(w, s.d); }
    hide Init, Inv, Next, RunMoves, DurableInv, MayLead, Supports;
    RemovalIsRecorded(w, s, node, id);
    moves := FinishRecorded(w, s, [StartRemove(node, id), Proceed],
                            Operation(id, Remove, Prepared, s.d.members[node], NO_CAPABILITIES));
  }

  lemma FinishRecorded(w: World, s: Cluster, begin: seq<Move>, op: Operation) returns (moves: seq<Move>)
    requires RunMoves(w, s, begin).Some? && Recorded(w, s, RunMoves(w, s, begin).value, op)
    ensures FollowsReconcile(w, RunMoves(w, s, begin).value, moves)
    ensures RunMoves(w, s, begin + moves).Some?
    ensures var d := RunMoves(w, s, begin + moves).value.d;
            && d.op == Some(op.(phase := Completed)) && Settled(d) && d.gate == s.d.gate
            && d.members == if op.kind == Join then s.d.members[op.member.nodeId := op.member]
                            else s.d.members - {op.member.nodeId}
  {
    var t := RunMoves(w, s, begin).value;
    hide Inv, Next, RunMoves, MayLead, Settled, FollowsReconcile;
    moves := ReconcileCompletes(w, t);
    MovesCompose(w, s, begin, moves);
    RunKeeps(w, t, moves);
    InactiveIsSettled(w, RunMoves(w, t, moves).value);
  }

  // -------------------------------------------------------------- named members

  predicate IsComplete(member: Member) {
    member.nodeId != "" && member.addr != "" && member.internalApiUrl != ""
  }

  predicate CompleteMembers(s: Cluster) {
    && (forall node :: node in s.d.members ==> IsComplete(s.d.members[node]))
    && (Active(s.d) && s.d.op.value.kind == Join ==> IsComplete(s.d.op.value.member))
    && (s.task.Beginning? && s.task.op.kind == Join ==> IsComplete(s.task.op.member))
  }

  lemma MoveKeepsComplete(w: World, s: Cluster, move: Move)
    requires TaskMatches(w, s) && CompleteMembers(s) && Next(w, s, move).Some?
    ensures CompleteMembers(Next(w, s, move).value)
  {
    hide SupportsGate, AllSupport, OneMayLead, MayLead, BeginMatches, MayActivate, IsComplete;
    if move.StartJoin? {
      assert IsComplete(move.member) by { NamedJoin(w, s, move.member, move.id); }
    }
  }

  lemma NamedJoin(w: World, s: Cluster, member: Member, id: string)
    requires Next(w, s, StartJoin(member, id)).Some?
    ensures IsComplete(member)
  {
  }

  /** No member without an id, a Raft address or an internal URL ever gets into the list. */
  lemma {:induction false} MembersStayComplete(w: World, s: Cluster, moves: seq<Move>)
    requires Inv(w, s) && CompleteMembers(s) && RunMoves(w, s, moves).Some?
    ensures CompleteMembers(RunMoves(w, s, moves).value)
    decreases |moves|
  {
    if |moves| > 0 {
      MoveKeeps(w, s, moves[0]);
      hide Next, DurableInv, LockMatches, CompleteMembers;
      MoveKeepsComplete(w, s, moves[0]);
      MembersStayComplete(w, Next(w, s, moves[0]).value, moves[1..]);
    }
  }

  /** Whatever state it is in, a join asks for a voter only if the joining node now reports capabilities for
      the active gate, starts only if the recorded ones suffice, and never writes unless its leader leads. */
  lemma PromotionIsChecked(w: World, s: Cluster)
    requires s.task.Joining? && Next(w, s, Proceed).Some?
    ensures s.task.at in {CatchUp, RequestVoter} ==>
              Supports(w, s.d, s.task.op.member.nodeId, false) && Normalized(s.d.gate) == Normalized(s.task.gate)
    ensures s.task.at == InspectJoin ==> SupportsGate(s.task.op.capabilities, s.task.gate, false)
    ensures Next(w, s, Proceed).value.d != s.d ==> MayLead(w, s.d, s.leader)
  {
    if s.task.at in {CatchUp, RequestVoter} {
      SameGateSameSupport(w.capabilities(s.task.op.member.nodeId), s.d.gate, s.task.gate);
    }
    hide SupportsGate, MayLead;
  }

  lemma SameGateSameSupport(c: NodeCapabilities, a: CapabilityGate, b: CapabilityGate)
    requires Normalized(a) == Normalized(b)
    ensures SupportsGate(c, a, false) == SupportsGate(c, b, false)
  {
    hide Normalized;
  }

  /** A node takes over exactly when it is a voter that is capable of leading under the active gate; it starts
      with no handler and a free lock, and what is durable is as its predecessor left it. */
  lemma TakeoverIsExact(w: World, s: Cluster, node: string)
    ensures Next(w, s, LeaderChange(node)).Some? <==>
            node in s.d.servers && s.d.servers[node] == Voter && SupportsGate(w.capabilities(node), s.d.gate, true)
    ensures Next(w, s, LeaderChange(node)).Some? ==>
              Next(w, s, LeaderChange(node)) == Some(Cluster(s.d, s.configIndex, node, Idle, Free))
  {
    hide SupportsGate;
  }

  /** Handlers start one at a time and only at a leader that may lead: a reconcile when an operation is active,
      all others when none is. No handler starts by itself and none changes anything by starting. */
  lemma HandlersStartAtLeader(w: World, s: Cluster, move: Move)
    requires move.StartJoin? || move.StartRemove? || move.StartActivate? || move.StartReconcile?
    requires Next(w, s, move).Some?
    ensures s.task == Idle && MayLead(w, s.d, s.leader) && (Active(s.d) <==> move.StartReconcile?)
    ensures Next(w, s, move) == Some(s.(task := Next(w, s, move).value.task))
  {
    hide SupportsGate, AllSupport, OneMayLead, ValidGate, MayLead;
  }
}
