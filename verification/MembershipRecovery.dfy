/** Recovery of the membership protocol: phases only move forward, no command id is ever proposed twice,
    and from every crash point a leader can finish the active operation. */
module MembershipRecovery {
  import opened Common
  import opened Capability
  import opened MetadataFsm
  import opened Membership
  import opened MembershipInvariant
  import opened MembershipSafety

  // ------------------------------------------------------------------- phases

  /** The same operation, in the same phase or a later one. */
  predicate Advanced(before: Operation, after: Operation) {
    && after == before.(phase := after.phase)
    && (before.phase == after.phase || Rank(before.phase) < Rank(after.phase))
  }

  /** What one step may do to the operation record: only an operation that is over makes room for a
      new one, whose id was never used. */
  predicate OperationAdvances(before: Durable, after: Durable) {
    || before.op == after.op
    || (Active(before) && after.op.Some? && Advanced(before.op.value, after.op.value))
    || (!Active(before) && after.op.Some? && (after.op.value.id, Prepared) !in before.ledger)
  }

  lemma JoinAdvances(w: World, s: Cluster)
    requires TaskMatches(w, s) && PhaseMatches(s.d) && s.task.Joining? && Next(w, s, Proceed).Some?
    ensures OperationAdvances(s.d, Next(w, s, Proceed).value.d)
    ensures s.d.ledger <= Next(w, s, Proceed).value.d.ledger
  {
    hide SupportsGate, MayLead, BeginMatches, AllSupport, OneMayLead;
  }

  lemma RemoveAdvances(w: World, s: Cluster)
    requires TaskMatches(w, s) && PhaseMatches(s.d) && s.task.Removing? && Next(w, s, Proceed).Some?
    ensures OperationAdvances(s.d, Next(w, s, Proceed).value.d)
    ensures s.d.ledger <= Next(w, s, Proceed).value.d.ledger
  {
    hide SupportsGate, MayLead, BeginMatches, AllSupport, OneMayLead;
  }

  /** Outside the reconciling handlers only the beginning of an operation writes the record. */
  lemma OtherMovesAdvance(w: World, s: Cluster, move: Move)
    requires TaskMatches(w, s) && Next(w, s, move).Some? && !(move.Proceed? && (s.task.Joining? || s.task.Removing?))
    ensures OperationAdvances(s.d, Next(w, s, move).value.d)
    ensures s.d.ledger <= Next(w, s, move).value.d.ledger
  {
    hide ProceedJoin, ProceedRemove, MayActivate, MayJoin, MayRemove, MayLead, Advanced, BeginMatches, AllSupport,
      OneMayLead, JoinPointMatches, RemovePointMatches;
  }

  lemma StepAdvances(w: World, s: Cluster, move: Move)
    requires Inv(w, s) && Next(w, s, move).Some?
    ensures OperationAdvances(s.d, Next(w, s, move).value.d)
    ensures s.d.ledger <= Next(w, s, move).value.d.ledger
  {
    hide Next, OperationAdvances, LockMatches, TaskMatches, VotersSupportGate, SomeVoterMayLead, RecordsMatch,
      TargetMatches, LedgerMatches, PhaseMatches;
    if move.Proceed? && s.task.Joining? {
      JoinAdvances(w, s);
    } else if move.Proceed? && s.task.Removing? {
      RemoveAdvances(w, s);
    } else {
      OtherMovesAdvance(w, s, move);
    }
  }

  /** An operation that was replaced never comes back. */
  lemma {:induction false} OldOperationStaysGone(w: World, s: Cluster, moves: seq<Move>, id: string)
    requires Inv(w, s) && RunMoves(w, s, moves).Some?
    requires (id, Prepared) in s.d.ledger && s.d.op.Some? && s.d.op.value.id != id
    ensures var d := RunMoves(w, s, moves).value.d; d.op.Some? && d.op.value.id != id
    decreases |moves|
  {
    hide Next, Inv;
    if |moves| > 0 {
      MoveKeeps(w, s, moves[0]);
      StepAdvances(w, s, moves[0]);
      OldOperationStaysGone(w, Next(w, s, moves[0]).value, moves[1..], id);
    }
  }

  lemma RecordedIdWasPrepared(w: World, s: Cluster)
    requires Inv(w, s) && s.d.op.Some?
    ensures (s.d.op.value.id, Prepared) in s.d.ledger
  {
    assert LedgerMatches(s.d);
  }

  /** Over every run, whatever leaders come and go, an operation's phase never goes back, and an
      operation is replaced only after it completed. */
  lemma {:induction false} PhasesMoveForward(w: World, s: Cluster, moves: seq<Move>)
    requires Inv(w, s) && RunMoves(w, s, moves).Some? && s.d.op.Some?
    ensures var d := RunMoves(w, s, moves).value.d;
            d.op.Some? && (d.op.value.id == s.d.op.value.id ==> Advanced(s.d.op.value, d.op.value))
    decreases |moves|
  {
    hide Next, Inv;
    if |moves| > 0 {
      MoveKeeps(w, s, moves[0]);
      StepAdvances(w, s, moves[0]);
      RecordedIdWasPrepared(w, s);
      var t := Next(w, s, moves[0]).value;
      if t.d.op.value.id == s.d.op.value.id {
        PhasesMoveForward(w, t, moves[1..]);
      } else {
        OldOperationStaysGone(w, t, moves[1..], s.d.op.value.id);
      }
    }
  }

  // ------------------------------------------------------------ eligible voters

  lemma EligibleVoterStep(w: World, s: Cluster, move: Move, node: string)
    requires Inv(w, s) && Next(w, s, move).Some? && Active(s.d)
    requires MayLead(w, s.d, node) && !ActiveOn(s.d, Remove, node)
    ensures MayLead(w, Next(w, s, move).value.d, node)
  {
    hide SupportsGate, VotersSupportGate, SomeVoterMayLead, LedgerMatches, RecordsMatch, TargetMatches, PhaseMatches,
      AllSupport, OneMayLead, BeginMatches, JoinPointMatches, RemovePointMatches;
  }

  /** Whoever may lead while an operation is active, and is not being removed by it, stays able to lead
      until the operation is over, whatever leaders come and go. */
  lemma {:induction false} EligibleVoterStays(w: World, s: Cluster, moves: seq<Move>, node: string)
    requires Inv(w, s) && RunMoves(w, s, moves).Some? && Active(s.d)
    requires MayLead(w, s.d, node) && !ActiveOn(s.d, Remove, node)
    ensures var d := RunMoves(w, s, moves).value.d;
            Active(d) && d.op.value.id == s.d.op.value.id ==> MayLead(w, d, node)
    decreases |moves|
  {
    hide Next, Inv, MayLead;
    if |moves| > 0 {
      var t := Next(w, s, moves[0]).value;
      MoveKeeps(w, s, moves[0]);
      StepAdvances(w, s, moves[0]);
      RecordedIdWasPrepared(w, s);
      EligibleVoterStep(w, s, moves[0], node);
      if t.d.op.value.id != s.d.op.value.id {
        OldOperationStaysGone(w, t, moves[1..], s.d.op.value.id);
      } else if Active(t.d) {
        EligibleVoterStays(w, t, moves[1..], node);
      } else {
        PhasesMoveForward(w, t, moves[1..]);
      }
    }
  }

  lemma BeginnerMayLead(w: World, s: Cluster)
    requires TaskMatches(w, s) && s.task.Beginning? && Next(w, s, Proceed).Some?
    ensures var d := Next(w, s, Proceed).value.d;
            d.op == Some(s.task.op) && Active(d) && MayLead(w, d, s.leader) && !ActiveOn(d, Remove, s.leader)
  {
    hide SupportsGate, AllSupport, OneMayLead;
  }

  /** In particular the leader that begins an operation: it is never the node that it removes. */
  lemma BeginnerStaysEligible(w: World, s: Cluster, moves: seq<Move>)
    requires Inv(w, s) && s.task.Beginning? && Next(w, s, Proceed).Some?
    requires RunMoves(w, Next(w, s, Proceed).value, moves).Some?
    ensures var d := RunMoves(w, Next(w, s, Proceed).value, moves).value.d;
            Active(d) && d.op.value.id == s.task.op.id ==> MayLead(w, d, s.leader)
  {
    MoveKeeps(w, s, Proceed);
    BeginnerMayLead(w, s);
    hide Next, Inv, RunMoves, MayLead;
    EligibleVoterStays(w, Next(w, s, Proceed).value, moves, s.leader);
  }

  // ----------------------------------------------------------------- progress

  /** A running reconcile waits for the lock, for Raft and for the joining node to report that it caught
      up, which it is taken to do in the end. It is never refused: no write meets an id that was
      applied before, no capability check fails. */
  lemma ReconcileIsNeverRefused(w: World, s: Cluster)
    requires Inv(w, s) && Active(s.d) && s.task != Idle && s.lock == Free && MayLead(w, s.d, s.leader)
    ensures Next(w, s, Proceed).Some?
  {
    hide SupportsGate, ValidGate, AllSupport, OneMayLead, VotersSupportGate, SomeVoterMayLead, RecordsMatch;
  }

  /** A leader that the active operation does not remove. */
  ghost predicate Ready(w: World, s: Cluster) {
    Inv(w, s) && Active(s.d) && MayLead(w, s.d, s.leader) && !ActiveOn(s.d, Remove, s.leader)
  }

  /** An uninterrupted reconcile: what holds the lock ends, then the handler goes on. */
  function Uninterrupted(s: Cluster): Move {
    match s.lock
    case Publishing(_) => EndPublish
    case Changing(_, _) => ChangeApplies
    case Free => if s.task == Idle then StartReconcile else Proceed
  }

  /** How far the handler is from its end. */
  function Distance(s: Cluster): nat {
    (if s.lock == Free then 0 else 1) + 2 * (
      match s.task
      case Joining(InspectJoin, _, _) => 10
      case Joining(RequestNonvoter, _, _) => 9
      case Joining(AwaitNonvoter, _, _) => 8
      case Joining(WriteNonvoter, _, _) => 7
      case Joining(CatchUp, _, _) => 6
      case Joining(WriteCaughtUp, _, _) => 5
      case Joining(RequestVoter, _, _) => 4
      case Joining(AwaitVoter, _, _) => 3
      case Joining(WriteVoter, _, _) => 2
      case Joining(CompleteJoin, _, _) => 1
      case Removing(InspectRemove, _) => 5
      case Removing(RequestRemoval, _) => 4
      case Removing(AwaitRemoval, _) => 3
      case Removing(WriteRemoved, _) => 2
      case Removing(CompleteRemove, _) => 1
      case _ => 11)
  }

  /** The member list that the active operation is meant to leave behind. */
  function Outcome(d: Durable): map<string, Member>
    requires Active(d)
  {
    var member := d.op.value.member;
    if d.op.value.kind == Join then d.members[member.nodeId := member] else d.members - {member.nodeId}
  }

  /** The operation is over, and did what it was asked to do. */
  predicate Finished(before: Durable, after: Durable)
    requires Active(before)
  {
    && after.op == Some(before.op.value.(phase := Completed))
    && after.members == Outcome(before) && after.gate == before.gate
  }

  /** One step closer to the end, with the same end in view. */
  ghost predicate Closer(w: World, s: Cluster, t: Cluster)
    requires Active(s.d)
  {
    && Active(t.d) && Advanced(s.d.op.value, t.d.op.value)
    && t.d.members == s.d.members && t.d.gate == s.d.gate
    && t.leader == s.leader && MayLead(w, t.d, t.leader) && Distance(t) < Distance(s)
  }

  lemma WaitingStep(w: World, s: Cluster)
    requires Ready(w, s) && (s.lock != Free || s.task == Idle)
    ensures Next(w, s, Uninterrupted(s)).Some? && Closer(w, s, Next(w, s, Uninterrupted(s)).value)
  {
    hide SupportsGate, ValidGate, AllSupport, OneMayLead, DurableInv;
  }

  lemma JoiningComesCloser(w: World, s: Cluster)
    requires s.lock == Free && s.task.Joining? && s.task.at != CompleteJoin && Next(w, s, Proceed).Some?
    ensures Distance(Next(w, s, Proceed).value) < Distance(s)
  {
    hide SupportsGate, ValidGate, MayLead;
  }

  lemma JoiningStep(w: World, s: Cluster)
    requires Ready(w, s) && s.lock == Free && s.task.Joining? && Next(w, s, Proceed).Some?
    ensures var t := Next(w, s, Proceed).value; Finished(s.d, t.d) || Closer(w, s, t)
  {
    hide SupportsGate, ValidGate, VotersSupportGate, SomeVoterMayLead, LedgerMatches, RecordsMatch, TargetMatches,
      Distance, LockMatches;
    if s.task.at != CompleteJoin {
      JoiningComesCloser(w, s);
    }
  }

  lemma RemovingStep(w: World, s: Cluster)
    requires Ready(w, s) && s.lock == Free && s.task.Removing? && Next(w, s, Proceed).Some?
    ensures var t := Next(w, s, Proceed).value; Finished(s.d, t.d) || Closer(w, s, t)
  {
    hide SupportsGate, ValidGate, VotersSupportGate, SomeVoterMayLead, LedgerMatches, RecordsMatch, TargetMatches;
  }

  lemma ScheduledStep(w: World, s: Cluster)
    requires Ready(w, s)
    ensures Next(w, s, Uninterrupted(s)).Some?
    ensures var t := Next(w, s, Uninterrupted(s)).value; Finished(s.d, t.d) || Closer(w, s, t)
  {
    hide DurableInv, LockMatches, Next, Closer, Finished;
    if s.lock != Free || s.task == Idle {
      WaitingStep(w, s);
    } else {
      ReconcileIsNeverRefused(w, s);
      if s.task.Joining? {
        JoiningStep(w, s);
      } else {
        RemovingStep(w, s);
      }
    }
  }

  /** Every move is the one that the uninterrupted reconcile makes next. */
  ghost predicate FollowsReconcile(w: World, s: Cluster, moves: seq<Move>)
    decreases |moves|
  {
    |moves| > 0 ==>
      && moves[0] == Uninterrupted(s)
      && Next(w, s, moves[0]).Some?
      && FollowsReconcile(w, Next(w, s, moves[0]).value, moves[1..])
  }

  /** From every state in which a leader other than the removed node takes over, its uninterrupted
      reconcile completes the operation, in no more moves than the handler is away from its end. */
  lemma {:induction false} ReconcileCompletes(w: World, s: Cluster) returns (moves: seq<Move>)
    requires Ready(w, s)
    ensures FollowsReconcile(w, s, moves) && |moves| <= Distance(s)
    ensures RunMoves(w, s, moves).Some? && Finished(s.d, RunMoves(w, s, moves).value.d)
    decreases Distance(s)
  {
    var move := Uninterrupted(s);
    ScheduledStep(w, s);
    MoveKeeps(w, s, move);
    hide Inv, Next, Uninterrupted, Distance;
    var t := Next(w, s, move).value;
    if Finished(s.d, t.d) {
      moves := [move];
      DistanceIsPositive(s);
      assert RunMoves(w, t, []) == Some(t);
    } else {
      var rest := ReconcileCompletes(w, t);
      moves := [move] + rest;
      assert moves[1..] == rest;
    }
  }

  lemma DistanceIsPositive(s: Cluster)
    ensures Distance(s) > 0
  {
  }

  /** Every reachable state with an active operation has a run that completes it: some voter may
      lead and is not the removed node. */
  lemma EveryOperationCanFinish(w: World, init: Cluster, past: seq<Move>) returns (moves: seq<Move>)
    requires Init(w, init) && RunMoves(w, init, past).Some?
    requires Active(RunMoves(w, init, past).value.d)
    ensures var s := RunMoves(w, init, past).value;
            RunMoves(w, s, moves).Some? && Finished(s.d, RunMoves(w, s, moves).value.d)
  {
    InitHolds(w, init);
    RunKeeps(w, init, past);
    var s := RunMoves(w, init, past).value;
    assert SomeVoterMayLead(w, s.d);
    var node :| MayLead(w, s.d, node) && !ActiveOn(s.d, Remove, node);
    var move := LeaderChange(node);
    MoveKeeps(w, s, move);
    var t := Next(w, s, move).value;
    hide Inv, Next, Init;
    var rest := ReconcileCompletes(w, t);
    moves := [move] + rest;
    assert moves[1..] == rest;
  }

  // ------------------------------------------------------------------ locking

  /** While a publication runs, no configuration change happens: it sees one voter set throughout. */
  lemma {:induction false} PublicationSeesOneConfiguration(w: World, s: Cluster, moves: seq<Move>)
    requires Inv(w, s) && s.lock.Publishing? && RunMoves(w, s, moves).Some?
    requires forall k :: 0 <= k < |moves| ==> !moves[k].EndPublish? && !moves[k].LeaderChange?
    ensures var t := RunMoves(w, s, moves).value;
            t.lock == s.lock && t.lock.index == t.configIndex && t.d.servers == s.d.servers
    decreases |moves|
  {
    if |moves| > 0 {
      MoveKeeps(w, s, moves[0]);
      PublishingStep(w, s, moves[0]);
      hide Next, Inv;
      assert forall k :: 0 <= k < |moves[1..]| ==> moves[1..][k] == moves[k + 1];
      PublicationSeesOneConfiguration(w, Next(w, s, moves[0]).value, moves[1..]);
    }
  }

  lemma PublishingStep(w: World, s: Cluster, move: Move)
    requires Inv(w, s) && s.lock.Publishing? && Next(w, s, move).Some? && !move.EndPublish? && !move.LeaderChange?
    ensures var t := Next(w, s, move).value; t.lock == s.lock && t.d.servers == s.d.servers
  {
    hide SupportsGate, ValidGate, AllSupport, OneMayLead, DurableInv, TaskMatches;
  }

  // --------------------------------------------------------------- activation

  /** A gate that passed the activation checks halts no server of the configuration: every server's
      state machine accepts the command. */
  lemma ActivationHaltsNoServer(w: World, s: Cluster, node: string, state: MetadataState)
    requires Inv(w, s) && s.task.Activating? && node in s.d.servers
    ensures ActivateEffect(w.capabilities(node), state, Some(s.task.gate)).Accept?
  {
    var gate := s.task.gate;
    NormalizedIsStable(gate);
    assert RecordsMatch(s.d);
    assert s.d.servers[node] == Voter;
    assert node in VoterStatuses(w, s.d);
    assert SupportsGate(w.capabilities(node), gate, false);
    assert SupportsGate(w.capabilities(node), Normalized(gate), false);
    assert ValidGate(Normalized(gate));
  }
}
