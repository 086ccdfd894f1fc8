/** Every step of the membership protocol keeps the invariant, so every run does. */
module MembershipSafety {
  import opened Common
  import opened Capability
  import opened Membership
  import opened MembershipInvariant

  lemma InitHolds(w: World, s: Cluster)
    requires Init(w, s)
    ensures Inv(w, s)
  {
    assert MayLead(w, s.d, s.leader) && !ActiveOn(s.d, Remove, s.leader);
  }

  // ------------------------------------------- moves that write nothing durable

  /** Neither the durable state nor what a task relies on changes with the lock. */
  lemma LocalMoveKeeps(w: World, s: Cluster, move: Move)
    requires Inv(w, s) && Next(w, s, move).Some?
    requires move.LeaderChange? || move.Abort? || move.ChangeFails? || move.StartPublish? || move.EndPublish?
    ensures Inv(w, Next(w, s, move).value)
  {
    hide DurableInv, ValidGate, SupportsGate, AllSupport, OneMayLead, VoterStatuses;
  }

  lemma StartActivationKeeps(w: World, s: Cluster, gate: CapabilityGate)
    requires Inv(w, s) && Next(w, s, StartActivate(gate)).Some?
    ensures Inv(w, Next(w, s, StartActivate(gate)).value)
  {
    NormalizedIsStable(gate);
    hide SupportsGate, ValidGate, AllSupport, OneMayLead, VoterStatuses, DurableInv, Normalized;
  }

  lemma StartKeeps(w: World, s: Cluster, move: Move)
    requires Inv(w, s) && Next(w, s, move).Some?
    requires move.StartJoin? || move.StartRemove? || move.StartReconcile?
    ensures Inv(w, Next(w, s, move).value)
  {
    hide SupportsGate, ValidGate, AllSupport, OneMayLead, VoterStatuses, RecordsMatch, PhaseMatches, LedgerMatches;
  }

  // ---------------------------------------------------- configuration changes

  /** Without an active operation, a change left behind can only repeat what already happened. */
  lemma LateChangeIsNoChange(d: Durable, change: Change)
    requires ChangeMatches(d, change) && !Active(d)
    ensures Apply(d.servers, change) == d.servers
  {
  }

  lemma ChangeKeepsVoters(w: World, d: Durable, change: Change)
    requires DurableInv(w, d) && ChangeMatches(d, change)
    ensures VotersSupportGate(w, d.(servers := Apply(d.servers, change)))
    ensures SomeVoterMayLead(w, d.(servers := Apply(d.servers, change)))
  {
    hide SupportsGate, ValidGate, LedgerMatches, PhaseMatches, RecordsMatch;
    var t := d.(servers := Apply(d.servers, change));
    var node :| MayLead(w, d, node) && !ActiveOn(d, Remove, node);
    assert MayLead(w, t, node) && !ActiveOn(t, Remove, node);
  }

  lemma AdditionKeepsRecords(d: Durable, change: Change)
    requires RecordsMatch(d) && ChangeMatches(d, change) && !change.RemoveServer?
    requires forall node :: ActiveOn(d, Join, node) ==> node !in d.members
    ensures RecordsMatch(d.(servers := Apply(d.servers, change)))
  {
  }

  lemma RemovalKeepsRecords(d: Durable, change: Change)
    requires RecordsMatch(d) && ChangeMatches(d, change) && change.RemoveServer?
    ensures RecordsMatch(d.(servers := Apply(d.servers, change)))
  {
  }

  lemma ChangeKeepsRecords(w: World, d: Durable, change: Change)
    requires RecordsMatch(d) && TargetMatches(w, d) && ChangeMatches(d, change)
    ensures RecordsMatch(d.(servers := Apply(d.servers, change)))
    ensures TargetMatches(w, d.(servers := Apply(d.servers, change)))
  {
    hide SupportsGate, RecordsMatch, ChangeMatches, Apply;
    if change.RemoveServer? {
      RemovalKeepsRecords(d, change);
    } else {
      AdditionKeepsRecords(d, change);
    }
  }

  lemma ChangeKeepsPhase(w: World, d: Durable, change: Change)
    requires DurableInv(w, d) && ChangeMatches(d, change)
    ensures PhaseMatches(d.(servers := Apply(d.servers, change)))
    ensures LedgerMatches(d.(servers := Apply(d.servers, change)))
  {
    hide SupportsGate, ValidGate, VotersSupportGate, SomeVoterMayLead;
  }

  lemma ChangeKeepsActiveTask(w: World, s: Cluster)
    requires Inv(w, s) && s.lock.Changing? && Active(s.d)
    ensures TaskMatches(w, Next(w, s, ChangeApplies).value)
  {
    hide SupportsGate, ValidGate, VotersSupportGate, SomeVoterMayLead, LedgerMatches, RecordsMatch, TargetMatches,
      AllSupport, OneMayLead, BeginMatches;
  }

  lemma ChangeKeepsTask(w: World, s: Cluster)
    requires Inv(w, s) && s.lock.Changing?
    ensures TaskMatches(w, Next(w, s, ChangeApplies).value)
  {
    if Active(s.d) {
      ChangeKeepsActiveTask(w, s);
    } else {
      hide SupportsGate, ValidGate, DurableInv, AllSupport, OneMayLead, Apply;
      LateChangeIsNoChange(s.d, s.lock.change);
    }
  }

  lemma ChangeAppliesKeeps(w: World, s: Cluster)
    requires Inv(w, s) && s.lock.Changing?
    ensures Inv(w, Next(w, s, ChangeApplies).value)
  {
    hide VotersSupportGate, SomeVoterMayLead, RecordsMatch, TargetMatches, PhaseMatches, LedgerMatches, TaskMatches;
    ChangeKeepsVoters(w, s.d, s.lock.change);
    ChangeKeepsRecords(w, s.d, s.lock.change);
    ChangeKeepsPhase(w, s.d, s.lock.change);
    ChangeKeepsTask(w, s);
  }

  // ------------------------------------------------------- replicated writes

  lemma BeginKeeps(w: World, s: Cluster)
    requires Inv(w, s) && s.task.Beginning? && Next(w, s, Proceed).Some?
    ensures Inv(w, Next(w, s, Proceed).value)
  {
    hide SupportsGate, ValidGate;
    var t := Next(w, s, Proceed).value;
    assert MayLead(w, t.d, s.leader) && !ActiveOn(t.d, Remove, s.leader);
  }

  lemma ActivateKeeps(w: World, s: Cluster)
    requires Inv(w, s) && s.task.Activating? && Next(w, s, Proceed).Some?
    ensures Inv(w, Next(w, s, Proceed).value)
  {
    hide SupportsGate, ValidGate;
    var t := Next(w, s, Proceed).value;
    var voters := VoterStatuses(w, s.d);
    forall node | node in t.d.servers && t.d.servers[node] == Voter
      ensures SupportsGate(w.capabilities(node), t.d.gate, false)
    {
      assert node in voters;
    }
    var node :| node in voters && node != "" && SupportsGate(voters[node], s.task.gate, true);
    assert MayLead(w, t.d, node) && !ActiveOn(t.d, Remove, node);
  }

  /** Moving the active operation forward to a phase that the configuration already matches. */
  lemma WriteKeepsDurable(w: World, s: Cluster, op: Operation, phase: Phase)
    requires DurableInv(w, s.d) && Active(s.d) && s.d.op.value == op && phase != Completed
    requires op.phase == phase || Rank(op.phase) < Rank(phase)
    requires WritePhase(w, s, op, phase).Some? && PhaseMatches(WritePhase(w, s, op, phase).value)
    ensures DurableInv(w, WritePhase(w, s, op, phase).value)
  {
    hide SupportsGate, ValidGate;
    var t := WritePhase(w, s, op, phase).value;
    var node :| MayLead(w, s.d, node) && !ActiveOn(s.d, Remove, node);
    assert MayLead(w, t, node) && !ActiveOn(t, Remove, node);
  }

  lemma CompletedKeepsDurable(w: World, s: Cluster, op: Operation, members: map<string, Member>)
    requires DurableInv(w, s.d) && Active(s.d) && s.d.op.value == op && WriteCompleted(w, s, op, members).Some?
    requires |members| >= w.bootstrapExpect && NamedByKey(members)
    requires forall node :: node in members <==> node in s.d.servers
    requires forall node :: node in s.d.servers ==> s.d.servers[node] == Voter
    ensures DurableInv(w, WriteCompleted(w, s, op, members).value)
  {
    hide SupportsGate, ValidGate;
    var t := WriteCompleted(w, s, op, members).value;
    var node :| MayLead(w, s.d, node) && !ActiveOn(s.d, Remove, node);
    assert MayLead(w, t, node) && !ActiveOn(t, Remove, node);
  }

  // ------------------------------------------------------ moves of the handler

  lemma JoinKeepsDurable(w: World, s: Cluster)
    requires Inv(w, s) && s.task.Joining? && Next(w, s, Proceed).Some?
    ensures DurableInv(w, Next(w, s, Proceed).value.d)
  {
    hide SupportsGate, ValidGate, VotersSupportGate, SomeVoterMayLead, LedgerMatches, LockMatches;
    var op := s.task.op;
    match s.task.at
    case WriteNonvoter => WriteKeepsDurable(w, s, op, NonVoterAdded);
    case WriteCaughtUp => WriteKeepsDurable(w, s, op, CaughtUp);
    case WriteVoter => WriteKeepsDurable(w, s, op, Promoted);
    case CompleteJoin =>
      CompletedKeepsDurable(w, s, op, s.d.members[op.member.nodeId := op.member]);
    case _ =>
  }

  lemma JoinKeepsLock(w: World, s: Cluster)
    requires Inv(w, s) && s.task.Joining? && Next(w, s, Proceed).Some?
    ensures LockMatches(Next(w, s, Proceed).value)
  {
    hide SupportsGate, ValidGate, VotersSupportGate, SomeVoterMayLead, LedgerMatches, RecordsMatch, TargetMatches;
  }

  lemma JoinKeepsTask(w: World, s: Cluster)
    requires Inv(w, s) && s.task.Joining? && Next(w, s, Proceed).Some?
    ensures TaskMatches(w, Next(w, s, Proceed).value)
  {
    hide SupportsGate, ValidGate, VotersSupportGate, SomeVoterMayLead, LedgerMatches, RecordsMatch, TargetMatches,
      LockMatches;
  }

  lemma RemoveKeepsDurable(w: World, s: Cluster)
    requires Inv(w, s) && s.task.Removing? && Next(w, s, Proceed).Some?
    ensures DurableInv(w, Next(w, s, Proceed).value.d)
  {
    hide SupportsGate, ValidGate, VotersSupportGate, SomeVoterMayLead, LedgerMatches, LockMatches;
    var op := s.task.op;
    match s.task.point
    case WriteRemoved => WriteKeepsDurable(w, s, op, Removed);
    case CompleteRemove =>
      assert s.d.members.Keys == (s.d.members - {op.member.nodeId}).Keys + {op.member.nodeId};
      CompletedKeepsDurable(w, s, op, s.d.members - {op.member.nodeId});
    case _ =>
  }

  lemma RemoveKeepsLocals(w: World, s: Cluster)
    requires Inv(w, s) && s.task.Removing? && Next(w, s, Proceed).Some?
    ensures LockMatches(Next(w, s, Proceed).value) && TaskMatches(w, Next(w, s, Proceed).value)
  {
    hide SupportsGate, ValidGate, VotersSupportGate, SomeVoterMayLead, LedgerMatches, RecordsMatch, TargetMatches,
      AllSupport, OneMayLead;
  }

  lemma MoveKeeps(w: World, s: Cluster, move: Move)
    requires Inv(w, s) && Next(w, s, move).Some?
    ensures Inv(w, Next(w, s, move).value)
  {
    hide DurableInv, LockMatches, TaskMatches, ProceedJoin, ProceedRemove, MayActivate, MayJoin, MayRemove;
    match move
    case StartJoin(_, _) => StartKeeps(w, s, move);
    case StartRemove(_, _) => StartKeeps(w, s, move);
    case StartActivate(gate) => StartActivationKeeps(w, s, gate);
    case StartReconcile => StartKeeps(w, s, move);
    case ChangeApplies => ChangeAppliesKeeps(w, s);
    case Proceed =>
      if s.task.Beginning? {
        BeginKeeps(w, s);
      } else if s.task.Activating? {
        ActivateKeeps(w, s);
      } else if s.task.Joining? {
        JoinKeepsDurable(w, s);
        JoinKeepsLock(w, s);
        JoinKeepsTask(w, s);
      } else if s.task.Removing? {
        RemoveKeepsDurable(w, s);
        RemoveKeepsLocals(w, s);
      }
    case _ => LocalMoveKeeps(w, s, move);
  }

  // ------------------------------------------------------------- whole runs

  lemma {:induction false} RunKeeps(w: World, s: Cluster, moves: seq<Move>)
    requires Inv(w, s) && RunMoves(w, s, moves).Some?
    ensures Inv(w, RunMoves(w, s, moves).value)
    decreases |moves|
  {
    hide Inv, Next;
    if |moves| > 0 {
      MoveKeeps(w, s, moves[0]);
      RunKeeps(w, Next(w, s, moves[0]).value, moves[1..]);
    }
  }

  /** In every reachable state all voters support the active gate, and one of them may lead. */
  lemma GateSafety(w: World, s: Cluster, moves: seq<Move>)
    requires Init(w, s) && RunMoves(w, s, moves).Some?
    ensures var d := RunMoves(w, s, moves).value.d;
            && (forall node :: IsVoter(d, node) ==> Supports(w, d, node, false))
            && (exists node :: MayLead(w, d, node))
  {
    InitHolds(w, s);
    RunKeeps(w, s, moves);
    hide Init, Next, RunMoves, SupportsGate;
    var d := RunMoves(w, s, moves).value.d;
    assert VotersSupportGate(w, d) && SomeVoterMayLead(w, d);
  }

  lemma RecordsAreConsistent(w: World, s: Cluster)
    requires Inv(w, s)
    ensures var d := s.d;
            && |d.members| >= w.bootstrapExpect
            && d.servers.Keys <= d.members.Keys + (set node | node in d.servers && ActiveOn(d, Join, node))
            && d.members.Keys <= d.servers.Keys + (set node | node in d.members && ActiveOn(d, Remove, node))
            && (!Active(d) ==> d.servers.Keys == d.members.Keys && d.servers.Values <= {Voter})
  {
    assert RecordsMatch(s.d) && TargetMatches(w, s.d);
    hide SupportsGate, LockMatches, TaskMatches, VotersSupportGate, SomeVoterMayLead, PhaseMatches, LedgerMatches;
  }

  /** In every reachable state the records and the configuration differ by at most the active target,
      there are enough members, and with no active operation both lists are the same voters. */
  lemma MembershipConsistency(w: World, s: Cluster, moves: seq<Move>)
    requires Init(w, s) && RunMoves(w, s, moves).Some?
    ensures var d := RunMoves(w, s, moves).value.d;
            && |d.members| >= w.bootstrapExpect
            && d.servers.Keys <= d.members.Keys + (set node | node in d.servers && ActiveOn(d, Join, node))
            && d.members.Keys <= d.servers.Keys + (set node | node in d.members && ActiveOn(d, Remove, node))
            && (!Active(d) ==> d.servers.Keys == d.members.Keys && d.servers.Values <= {Voter})
  {
    InitHolds(w, s);
    RunKeeps(w, s, moves);
    hide Init, Inv, Next, RunMoves;
    RecordsAreConsistent(w, RunMoves(w, s, moves).value);
  }

  /** A change in flight holds the configuration lock until it ends, whether its caller waits or has given
      up, and meanwhile nothing else changes the configuration or publishes. */
  lemma ChangeHoldsLock(w: World, s: Cluster, move: Move)
    requires Inv(w, s) && s.lock.Changing? && Next(w, s, move).Some?
    requires !move.ChangeApplies? && !move.ChangeFails? && !move.LeaderChange?
    ensures var t := Next(w, s, move).value;
            && t.lock.Changing? && t.lock.change == s.lock.change
            && t.d.servers == s.d.servers && t.configIndex == s.configIndex && !move.StartPublish?
            && (t.lock.awaited ==> s.lock.awaited)
            && (move.Abort? ==> !t.lock.awaited)
  {
    hide SupportsGate, ValidGate, AllSupport, OneMayLead, DurableInv;
  }

  /** What Raft makes of a change that takes effect. */
  predicate TookEffect(before: map<string, Suffrage>, change: Change, after: map<string, Suffrage>) {
    match change
    case AddVoter(node) => after == before[node := Voter]
    case RemoveServer(node) => after == before - {node}
    case AddNonvoter(node) =>
      && node in after && after.Keys == before.Keys + {node}
      && (forall other :: other in before ==> after[other] == before[other])
      && (node !in before ==> after[node] == NonVoter)
  }

  /** A change that takes effect makes the configuration it asked for and frees the lock; its caller goes on
      if it still waits. */
  lemma ChangeTakesEffect(w: World, s: Cluster, t: Cluster)
    requires Inv(w, s) && Next(w, s, ChangeApplies) == Some(t)
    ensures s.lock.Changing? && t.lock == Free && t.configIndex == s.configIndex + 1
    ensures t.d == s.d.(servers := t.d.servers) && TookEffect(s.d.servers, s.lock.change, t.d.servers)
    ensures if s.lock.awaited then t.task != s.task && t.task != Idle else t.task == s.task
  {
    hide DurableInv, TaskMatches;
  }

  /** A change that fails frees the lock and changes nothing; its caller gives up if it still waits. */
  lemma ChangeThatFails(w: World, s: Cluster, t: Cluster)
    requires Inv(w, s) && Next(w, s, ChangeFails) == Some(t)
    ensures s.lock.Changing? && t.lock == Free && t.configIndex == s.configIndex && t.d == s.d
    ensures t.task == if s.lock.awaited then Idle else s.task
  {
    hide DurableInv, TaskMatches;
  }
}
