/** Joining and removing voters and activating capabilities (node.go) as a transition system. Its durable
    state is the gate, the operation record, the member list, the applied command ids and the Raft
    configuration; the handler that the current leader runs is a program point with local variables,
    which vanish with the leader. */
module Membership {
  import opened Common
  import opened Capability

  // -------------------------------------------------------------------- state

  datatype Member = Member(nodeId: string, addr: string, internalApiUrl: string)

  datatype Suffrage = Voter | NonVoter

  datatype Kind = Join | Remove

  datatype Phase = Prepared | NonVoterAdded | CaughtUp | Promoted | Removed | Completed

  datatype Operation = Operation(id: string, kind: Kind, phase: Phase, member: Member, capabilities: NodeCapabilities)

  const NO_CAPABILITIES := NodeCapabilities(
    0, VersionRange(0, 0), VersionRange(0, 0), VersionRange(0, 0), VersionRange(0, 0))

  datatype Change = AddNonvoter(node: string) | AddVoter(node: string) | RemoveServer(node: string)

  /** Who holds `configurationMu`: nobody, a publication that read configuration `index`, or a change
      in flight. When the caller of a change gave up, the change is no longer awaited and the
      goroutine it left behind holds the lock until the change ends. */
  datatype Lock = Free | Publishing(index: nat) | Changing(change: Change, awaited: bool)

  datatype JoinPoint =
    | InspectJoin | RequestNonvoter | AwaitNonvoter | WriteNonvoter | CatchUp
    | WriteCaughtUp | RequestVoter | AwaitVoter | WriteVoter | CompleteJoin

  datatype RemovePoint = InspectRemove | RequestRemoval | AwaitRemoval | WriteRemoved | CompleteRemove

  /** The one handler that holds `membershipMu`, with its local copy of the operation and the gate. */
  datatype Task =
    | Idle
    | Beginning(op: Operation)
    | Activating(gate: CapabilityGate)
    | Joining(at: JoinPoint, op: Operation, gate: CapabilityGate)
    | Removing(point: RemovePoint, op: Operation)

  /** What survives a crash of the leader. The ledger holds the command ids `op.ID + "/" + phase`. */
  datatype Durable = Durable(
    gate: CapabilityGate,
    op: Option<Operation>,
    members: map<string, Member>,
    ledger: set<(string, Phase)>,
    servers: map<string, Suffrage>)

  datatype Cluster = Cluster(
    d: Durable,
    configIndex: nat,
    leader: string,
    task: Task,
    lock: Lock)

  /** Each node's true capabilities, which do not change, and the configured minimum membership. */
  datatype World = World(capabilities: string -> NodeCapabilities, bootstrapExpect: nat)

  predicate IsVoter(d: Durable, node: string) {
    node in d.servers && d.servers[node] == Voter
  }

  predicate Supports(w: World, d: Durable, node: string, leader: bool) {
    SupportsGate(w.capabilities(node), d.gate, leader)
  }

  /** Raft leaders are voters, and business leadership needs the leader capability. */
  predicate MayLead(w: World, d: Durable, node: string) {
    IsVoter(d, node) && Supports(w, d, node, true)
  }

  predicate Active(d: Durable) {
    d.op.Some? && d.op.value.phase != Completed
  }

  predicate ActiveOn(d: Durable, kind: Kind, node: string) {
    Active(d) && d.op.value.kind == kind && d.op.value.member.nodeId == node
  }

  predicate NamedByKey(members: map<string, Member>) {
    forall node :: node in members ==> members[node].nodeId == node
  }

  /** The initial members are voters of the legacy gate, and one of them leads. */
  ghost predicate Init(w: World, s: Cluster) {
    && s.d.gate == LEGACY_GATE && s.d.op.None? && s.d.ledger == {}
    && NamedByKey(s.d.members) && s.d.members.Keys == s.d.servers.Keys && |s.d.members| >= w.bootstrapExpect
    && (forall node :: node in s.d.servers ==> s.d.servers[node] == Voter && Supports(w, s.d, node, false))
    && MayLead(w, s.d, s.leader)
    && s.task == Idle && s.lock == Free
  }

  // --------------------------------------------------------- activation check

  ghost predicate AllSupport(voters: map<string, NodeCapabilities>, gate: CapabilityGate) {
    forall node :: node in voters ==> SupportsGate(voters[node], gate, false)
  }

  /** Some named voter could lead: the scan takes an empty name for "none found". */
  ghost predicate OneMayLead(voters: map<string, NodeCapabilities>, gate: CapabilityGate) {
    exists node :: node in voters && node != "" && SupportsGate(voters[node], gate, true)
  }

  /** The scan stops at the first voter that lacks the gate, and remembers one that may lead. */
  method ValidateCapabilityActivationVoters(voters: map<string, NodeCapabilities>, gate: CapabilityGate)
    returns (ok: bool)
    ensures ok <==> AllSupport(voters, gate) && OneMayLead(voters, gate)
  {
    var leaderEligibleVoter := "";
    var nodes := voters.Keys;
    while nodes != {}
      invariant nodes <= voters.Keys
      invariant forall node :: node in voters && node !in nodes ==> SupportsGate(voters[node], gate, false)
      invariant leaderEligibleVoter == "" ==>
                  forall node :: node in voters && node !in nodes && node != "" ==>
                    !SupportsGate(voters[node], gate, true)
      invariant leaderEligibleVoter != "" ==>
                  leaderEligibleVoter in voters && SupportsGate(voters[leaderEligibleVoter], gate, true)
      decreases nodes
    {
      var node :| node in nodes;
      nodes := nodes - {node};
      if !SupportsGate(voters[node], gate, false) {
        return false;
      }
      if leaderEligibleVoter == "" && SupportsGate(voters[node], gate, true) {
        leaderEligibleVoter := node;
      }
    }
    return leaderEligibleVoter != "";
  }

  /** What the voters of the current configuration report. */
  function VoterStatuses(w: World, d: Durable): map<string, NodeCapabilities> {
    map node | node in d.servers && d.servers[node] == Voter :: w.capabilities(node)
  }

  // -------------------------------------------------------------------- steps

  datatype Move =
    | LeaderChange(next: string)
    | Abort
    | StartJoin(member: Member, id: string)
    | StartRemove(node: string, id: string)
    | StartActivate(gate: CapabilityGate)
    | StartReconcile
    | Proceed
    | ChangeApplies
    | ChangeFails
    | StartPublish
    | EndPublish

  function Apply(servers: map<string, Suffrage>, change: Change): map<string, Suffrage> {
    match change
    case AddNonvoter(node) => if node in servers then servers else servers[node := NonVoter]
    case AddVoter(node) => servers[node := Voter]
    case RemoveServer(node) => servers - {node}
  }

  /** One replicated write of the operation record, by the business leader. A command id that the
      ledger has seen is refused. */
  function Write(w: World, s: Cluster, op: Operation): Option<Durable> {
    if !MayLead(w, s.d, s.leader) || (op.id, op.phase) in s.d.ledger then None
    else Some(s.d.(op := Some(op), ledger := s.d.ledger + {(op.id, op.phase)}))
  }

  /** `updateMembershipOperation`: nothing to write if the local copy is already in that phase. */
  function WritePhase(w: World, s: Cluster, op: Operation, phase: Phase): Option<Durable> {
    if op.phase == phase then Some(s.d) else Write(w, s, op.(phase := phase))
  }

  /** The final batch: the new member list together with the completed operation. */
  function WriteCompleted(w: World, s: Cluster, op: Operation, members: map<string, Member>): Option<Durable> {
    match Write(w, s, op.(phase := Completed))
    case None => None
    case Some(d) => Some(d.(members := members))
  }

  function Acquire(s: Cluster, lock: Lock): Option<Cluster> {
    if s.lock == Free then Some(s.(lock := lock)) else None
  }

  function Release(s: Cluster): Cluster {
    s.(lock := Free)
  }

  /** The handler goes on to `task` if what it asked for was granted. */
  function After(s: Cluster, d: Option<Durable>, task: Task): Option<Cluster> {
    if d.None? then None else Some(s.(d := d.value, task := task))
  }

  /** The handler takes `configurationMu` and hands the change to Raft. */
  function Request(s: Cluster, change: Change, task: Task): Option<Cluster> {
    match Acquire(s, Changing(change, true))
    case None => None
    case Some(t) => Some(t.(task := task))
  }

  /** The catch-up wait ends well: the joining node reports capabilities for the gate it was given,
      and the gate is still the active one. */
  predicate CaughtUpOn(w: World, s: Cluster, node: string, gate: CapabilityGate) {
    SupportsGate(w.capabilities(node), gate, false) && Normalized(s.d.gate) == Normalized(gate)
  }

  function ProceedJoin(w: World, s: Cluster, at: JoinPoint, op: Operation, gate: CapabilityGate): Option<Cluster> {
    var node := op.member.nodeId;
    match at
    case InspectJoin =>
      if !SupportsGate(op.capabilities, gate, false) then None
      else if node !in s.d.servers then Some(s.(task := Joining(RequestNonvoter, op, gate)))
      else if s.d.servers[node] == NonVoter then Some(s.(task := Joining(CatchUp, op, gate)))
      else Some(s.(task := Joining(WriteVoter, op, gate)))
    case RequestNonvoter => Request(s, AddNonvoter(node), Joining(AwaitNonvoter, op, gate))
    case AwaitNonvoter => None
    case WriteNonvoter =>
      After(s, WritePhase(w, s, op, NonVoterAdded), Joining(CatchUp, op.(phase := NonVoterAdded), gate))
    case CatchUp =>
      if CaughtUpOn(w, s, node, gate) then Some(s.(task := Joining(WriteCaughtUp, op, gate))) else None
    case WriteCaughtUp =>
      After(s, WritePhase(w, s, op, CaughtUp), Joining(RequestVoter, op.(phase := CaughtUp), gate))
    case RequestVoter =>
      if CaughtUpOn(w, s, node, gate) then Request(s, AddVoter(node), Joining(AwaitVoter, op, gate)) else None
    case AwaitVoter => None
    case WriteVoter =>
      After(s, WritePhase(w, s, op, Promoted), Joining(CompleteJoin, op.(phase := Promoted), gate))
    case CompleteJoin => After(s, WriteCompleted(w, s, op, s.d.members[node := op.member]), Idle)
  }

  function ProceedRemove(w: World, s: Cluster, point: RemovePoint, op: Operation): Option<Cluster> {
    var node := op.member.nodeId;
    match point
    case InspectRemove =>
      Some(s.(task := Removing(if node in s.d.servers then RequestRemoval else WriteRemoved, op)))
    case RequestRemoval => Request(s, RemoveServer(node), Removing(AwaitRemoval, op))
    case AwaitRemoval => None
    case WriteRemoved => After(s, WritePhase(w, s, op, Removed), Removing(CompleteRemove, op.(phase := Removed)))
    case CompleteRemove => After(s, WriteCompleted(w, s, op, s.d.members - {node}), Idle)
  }

  /** The next successful step of the running handler. */
  function ProceedTask(w: World, s: Cluster): Option<Cluster> {
    match s.task
    case Idle => None
    case Beginning(op) => if Active(s.d) then None else After(s, Write(w, s, op), Idle)
    case Activating(gate) => if MayLead(w, s.d, s.leader) then Some(s.(d := s.d.(gate := gate), task := Idle)) else None
    case Joining(at, op, gate) => ProceedJoin(w, s, at, op, gate)
    case Removing(point, op) => ProceedRemove(w, s, point, op)
  }

  /** Where an awaited change lets its caller go on. */
  function AfterChange(task: Task): Task {
    match task
    case Joining(AwaitNonvoter, op, gate) => Joining(WriteNonvoter, op, gate)
    case Joining(AwaitVoter, op, gate) => Joining(WriteVoter, op, gate)
    case Removing(AwaitRemoval, op) => Removing(WriteRemoved, op)
    case _ => task
  }

  /** Every handler starts with `membershipMu` and `VerifyBusinessLeadership`. */
  predicate MayStart(w: World, s: Cluster) {
    s.task == Idle && MayLead(w, s.d, s.leader)
  }

  ghost predicate MayActivate(w: World, s: Cluster, gate: CapabilityGate) {
    && MayStart(w, s) && !Active(s.d) && ValidGate(gate)
    && AllSupport(VoterStatuses(w, s.d), gate) && OneMayLead(VoterStatuses(w, s.d), gate)
  }

  predicate MayJoin(w: World, s: Cluster, member: Member) {
    && MayStart(w, s) && !Active(s.d)
    && member.nodeId != "" && member.addr != "" && member.internalApiUrl != ""
    && member.nodeId != s.leader && member.nodeId !in s.d.members && Supports(w, s.d, member.nodeId, false)
  }

  predicate MayRemove(w: World, s: Cluster, node: string) {
    && MayStart(w, s) && !Active(s.d)
    && node != "" && node != s.leader && node in s.d.members && |s.d.members| > w.bootstrapExpect
  }

  /** `reconcileMembershipOperationLocked`: take a local copy of the record and the gate. */
  function Reconcile(d: Durable): Task
    requires Active(d)
  {
    if d.op.value.kind == Join then Joining(InspectJoin, d.op.value, d.gate) else Removing(InspectRemove, d.op.value)
  }

  /** The result of a step, or `None` if it cannot happen. A new leader has none of the old one's
      locals or locks. */
  ghost function Next(w: World, s: Cluster, move: Move): Option<Cluster> {
    match move
    case LeaderChange(next) =>
      if MayLead(w, s.d, next) then Some(s.(leader := next, task := Idle, lock := Free))
      else None
    case Abort =>
      Some(s.(task := Idle, lock := if s.lock.Changing? then s.lock.(awaited := false) else s.lock))
    case StartJoin(member, id) =>
      if !MayJoin(w, s, member) then None
      else Some(s.(task := Beginning(Operation(id, Join, Prepared, member, w.capabilities(member.nodeId)))))
    case StartRemove(node, id) =>
      if !MayRemove(w, s, node) then None
      else Some(s.(task := Beginning(Operation(id, Remove, Prepared, s.d.members[node], NO_CAPABILITIES))))
    case StartActivate(gate) =>
      if MayActivate(w, s, Normalized(gate)) then Some(s.(task := Activating(Normalized(gate)))) else None
    case StartReconcile => if MayStart(w, s) && Active(s.d) then Some(s.(task := Reconcile(s.d))) else None
    case Proceed => ProceedTask(w, s)
    case ChangeApplies =>
      if s.lock.Changing?
      then Some(Release(s).(d := s.d.(servers := Apply(s.d.servers, s.lock.change)), configIndex := s.configIndex + 1,
                            task := if s.lock.awaited then AfterChange(s.task) else s.task))
      else None
    case ChangeFails =>
      if s.lock.Changing? then Some(Release(s).(task := if s.lock.awaited then Idle else s.task)) else None
    case StartPublish => Acquire(s, Publishing(s.configIndex))
    case EndPublish => if s.lock.Publishing? then Some(Release(s)) else None
  }

  /** A whole run; `None` if some move cannot happen. */
  ghost function RunMoves(w: World, s: Cluster, moves: seq<Move>): Option<Cluster>
    decreases |moves|
  {
    if |moves| == 0 then Some(s)
    else match Next(w, s, moves[0])
      case None => None
      case Some(t) => RunMoves(w, t, moves[1..])
  }
}
