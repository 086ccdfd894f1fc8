/** The inductive invariant of the membership protocol. */
module MembershipInvariant {
  import opened Common
  import opened Capability
  import opened Membership

  /** Every voter supports the active gate. */
  ghost predicate VotersSupportGate(w: World, d: Durable) {
    forall node :: node in d.servers && d.servers[node] == Voter ==> SupportsGate(w.capabilities(node), d.gate, false)
  }

  /** Some voter may lead, and an active removal does not target it. */
  ghost predicate SomeVoterMayLead(w: World, d: Durable) {
    exists node :: MayLead(w, d, node) && !ActiveOn(d, Remove, node)
  }

  /** Raft servers are members or the node being joined, and members are Raft servers or the node being removed. */
  ghost predicate RecordsMatch(d: Durable) {
    && (forall node :: node in d.servers ==> node in d.members || ActiveOn(d, Join, node))
    && (forall node :: node in d.members ==> node in d.servers || ActiveOn(d, Remove, node))
    && (forall node :: node in d.servers && node in d.members ==> d.servers[node] == Voter)
  }

  /** What the active operation may count on, and what there is to remove from. */
  ghost predicate TargetMatches(w: World, d: Durable) {
    && |d.members| >= w.bootstrapExpect && NamedByKey(d.members)
    && (Active(d) ==> if d.op.value.kind == Join then JoinTargetMatches(w, d, d.op.value)
                      else d.op.value.member.nodeId in d.members && |d.members| > w.bootstrapExpect)
  }

  predicate JoinTargetMatches(w: World, d: Durable, op: Operation) {
    && op.member.nodeId !in d.members
    && op.capabilities == w.capabilities(op.member.nodeId)
    && SupportsGate(op.capabilities, d.gate, false)
  }

  /** The recorded phase never runs ahead of, or too far behind, the Raft configuration. */
  predicate PhaseMatches(d: Durable) {
    Active(d) ==> if d.op.value.kind == Join then JoinPhaseMatches(d, d.op.value) else RemovePhaseMatches(d, d.op.value)
  }

  predicate JoinPhaseMatches(d: Durable, op: Operation) {
    && !op.phase.Removed?
    && (!op.phase.Prepared? ==> op.member.nodeId in d.servers)
    && (IsVoter(d, op.member.nodeId) ==> op.phase.CaughtUp? || op.phase.Promoted?)
    && (op.phase.Promoted? ==> IsVoter(d, op.member.nodeId))
  }

  predicate RemovePhaseMatches(d: Durable, op: Operation) {
    && (op.phase.Prepared? || op.phase.Removed?)
    && (op.phase.Removed? ==> op.member.nodeId !in d.servers)
  }

  function Rank(phase: Phase): nat {
    match phase
    case Prepared => 0
    case NonVoterAdded => 1
    case CaughtUp => 2
    case Promoted => 3
    case Removed => 3
    case Completed => 4
  }

  /** Every operation began with `prepared`; the active one has written nothing beyond its phase. */
  ghost predicate LedgerMatches(d: Durable) {
    && (forall id, phase :: (id, phase) in d.ledger ==> (id, Prepared) in d.ledger)
    && (d.op.Some? ==> (d.op.value.id, Prepared) in d.ledger)
    && (Active(d) ==> forall phase :: (d.op.value.id, phase) in d.ledger ==> Rank(phase) <= Rank(d.op.value.phase))
  }

  ghost predicate DurableInv(w: World, d: Durable) {
    && VotersSupportGate(w, d) && SomeVoterMayLead(w, d)
    && RecordsMatch(d) && TargetMatches(w, d) && PhaseMatches(d) && LedgerMatches(d)
  }

  /** A change in flight is one the active operation asks for, or repeats one that already happened. */
  predicate ChangeMatches(d: Durable, change: Change) {
    match change
    case AddNonvoter(node) => ActiveOn(d, Join, node) && !IsVoter(d, node)
    case AddVoter(node) =>
      IsVoter(d, node) || (ActiveOn(d, Join, node) && node in d.servers && d.op.value.phase == CaughtUp)
    case RemoveServer(node) => node !in d.servers || ActiveOn(d, Remove, node)
  }

  /** The change that the handler waits for. */
  function AwaitedBy(task: Task): Option<Change> {
    match task
    case Joining(AwaitNonvoter, op, _) => Some(AddNonvoter(op.member.nodeId))
    case Joining(AwaitVoter, op, _) => Some(AddVoter(op.member.nodeId))
    case Removing(AwaitRemoval, op) => Some(RemoveServer(op.member.nodeId))
    case _ => None
  }

  /** The lock is held by what it names, and a change is awaited by exactly the handler that asked for it. */
  predicate LockMatches(s: Cluster) {
    && (s.lock.Publishing? ==> s.lock.index == s.configIndex)
    && (s.lock.Changing? ==> ChangeMatches(s.d, s.lock.change))
    && (s.lock.Changing? && s.lock.awaited ==> AwaitedBy(s.task) == Some(s.lock.change))
    && (AwaitedBy(s.task).Some? ==> s.lock == Changing(AwaitedBy(s.task).value, true))
  }

  /** What the handler's local variables still tell about the durable state. */
  ghost predicate TaskMatches(w: World, s: Cluster) {
    match s.task
    case Idle => true
    case Beginning(op) => !Active(s.d) && op.phase == Prepared && BeginMatches(w, s, op)
    case Activating(gate) =>
      && !Active(s.d) && ValidGate(gate) && Normalized(gate) == gate
      && AllSupport(VoterStatuses(w, s.d), gate) && OneMayLead(VoterStatuses(w, s.d), gate)
    case Joining(at, op, gate) =>
      && Active(s.d) && s.d.op.value == op && op.kind == Join && gate == s.d.gate && JoinPointMatches(s.d, at, op)
    case Removing(point, op) =>
      && Active(s.d) && s.d.op.value == op && op.kind == Remove && RemovePointMatches(s.d, point, op)
  }

  predicate BeginMatches(w: World, s: Cluster, op: Operation) {
    var node := op.member.nodeId;
    if op.kind == Join
    then node !in s.d.members && op.capabilities == w.capabilities(node)
         && SupportsGate(op.capabilities, s.d.gate, false)
    else node in s.d.members && node != s.leader && |s.d.members| > w.bootstrapExpect
  }

  predicate JoinPointMatches(d: Durable, at: JoinPoint, op: Operation) {
    var node := op.member.nodeId;
    match at
    case InspectJoin => true
    case RequestNonvoter => op.phase == Prepared
    case AwaitNonvoter => op.phase == Prepared
    case WriteNonvoter => op.phase == Prepared && node in d.servers
    case CatchUp => node in d.servers && op.phase != Promoted
    case WriteCaughtUp => node in d.servers && op.phase != Promoted
    case RequestVoter => node in d.servers && op.phase == CaughtUp
    case AwaitVoter => node in d.servers && op.phase == CaughtUp
    case WriteVoter => IsVoter(d, node)
    case CompleteJoin => IsVoter(d, node) && op.phase == Promoted
  }

  predicate RemovePointMatches(d: Durable, point: RemovePoint, op: Operation) {
    var node := op.member.nodeId;
    match point
    case InspectRemove => true
    case RequestRemoval => op.phase == Prepared
    case AwaitRemoval => op.phase == Prepared
    case WriteRemoved => node !in d.servers
    case CompleteRemove => node !in d.servers && op.phase == Removed
  }

  ghost predicate Inv(w: World, s: Cluster) {
    DurableInv(w, s.d) && LockMatches(s) && TaskMatches(w, s)
  }
}
