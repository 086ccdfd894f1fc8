/** Nodes that start, apply entries, take snapshots and install each other's, in any order and with any
    binaries: a node without a fault is where one ideal run would be. */
module Histories {
  import opened Common
  import opened Capability
  import opened MetadataFsm
  import opened Runs
  import opened Replicas
  import opened SnapshotIndex
  import opened Compaction

  /** What every node shares: the log, the hashes and the JSON encoder. */
  datatype Shared = Shared(h: Hashes, compact: string -> string, clusterId: string, log: seq<Entry>)

  datatype Node = Node(capabilities: NodeCapabilities, position: nat, state: MetadataState)

  /** A snapshot, and how much of the log it stands for. */
  datatype Held = Held(position: nat, encoded: EncodedState)

  datatype Cluster = Cluster(nodes: map<string, Node>, snapshots: seq<Held>)

  datatype Move =
    | Start(node: string, capabilities: NodeCapabilities)
    | ApplyNext(node: string)
    | TakeSnapshot(node: string)
    | Install(node: string, k: nat)

  const NOBODY := Cluster(map[], [])

  /** The result of a move, or `None` if it cannot happen. A node may start again at any time, with another
      binary and an empty state; any node may install any snapshot that was ever taken. */
  function Next(w: Shared, s: Cluster, move: Move): Option<Cluster> {
    if move.Start? then Some(s.(nodes := s.nodes[move.node := Node(move.capabilities, 0, InitialState(w.clusterId))]))
    else if move.node !in s.nodes then None
    else
      var node := s.nodes[move.node];
      match move
      case Start(_, _) => None
      case ApplyNext(id) =>
        if node.position >= |w.log| then None
        else Some(s.(nodes := s.nodes[id := Applied(w, node)]))
      case TakeSnapshot(_) =>
        var encoded := Encode(w.compact, node.state);
        if encoded.None? then None else Some(s.(snapshots := s.snapshots + [Held(node.position, encoded.value)]))
      case Install(id, k) =>
        if k >= |s.snapshots| then None
        else
          match Restore(node.state, s.snapshots[k].encoded)
          case Err(_) => None
          case Ok(restored) =>
            Some(s.(nodes := s.nodes[id := Node(node.capabilities, s.snapshots[k].position, restored)]))
  }

  function Applied(w: Shared, node: Node): Node
    requires node.position < |w.log|
  {
    Node(node.capabilities, node.position + 1, Step(w.h, node.capabilities, node.state, w.log[node.position]).0)
  }

  function RunMoves(w: Shared, s: Cluster, moves: seq<Move>): Option<Cluster>
    decreases |moves|
  {
    if |moves| == 0 then Some(s)
    else match Next(w, s, moves[0])
      case None => None
      case Some(t) => RunMoves(w, t, moves[1..])
  }

  /** The state of a node that supports everything, after that much of the log. */
  function Ideal(w: Shared, position: nat): MetadataState
    requires position <= |w.log|
  {
    Run(w.h, FULLY_CAPABLE, InitialState(w.clusterId), w.log[..position])
  }

  // ---------------------------------------------------------------- invariant

  /** Compacting a JSON text twice is compacting it once. */
  ghost predicate CompactsOnce(compact: string -> string) {
    forall text :: compact(compact(text)) == compact(text)
  }

  predicate IsIdeal(w: Shared, position: nat, state: MetadataState) {
    position <= |w.log| && SameUpToCompaction(w.compact, Ideal(w, position), state)
  }

  predicate NodeMatches(w: Shared, node: Node) {
    && node.position <= |w.log| && node.state.clusterId == w.clusterId
    && (node.state.applyFault.None? ==> IsIdeal(w, node.position, node.state))
  }

  predicate HeldMatches(w: Shared, held: Held) {
    var restored := Restore(InitialState(w.clusterId), held.encoded);
    restored.Ok? && restored.value.applyFault.None? && IsIdeal(w, held.position, restored.value)
  }

  ghost predicate Inv(w: Shared, s: Cluster) {
    && (forall id :: id in s.nodes ==> NodeMatches(w, s.nodes[id]))
    && (forall k :: 0 <= k < |s.snapshots| ==> HeldMatches(w, s.snapshots[k]))
  }

  lemma CompactionComposes(compact: string -> string, s: MetadataState, t: MetadataState, u: MetadataState)
    requires CompactsOnce(compact) && SameUpToCompaction(compact, s, t) && SameUpToCompaction(compact, t, u)
    ensures SameUpToCompaction(compact, s, u)
  {
  }

  lemma StartMatches(w: Shared, capabilities: NodeCapabilities)
    ensures NodeMatches(w, Node(capabilities, 0, InitialState(w.clusterId)))
  {
    assert w.log[..0] == [];
  }

  /** Where a node ends up without a fault, it did what the ideal run does, with the same result. */
  lemma ApplyingMatches(w: Shared, node: Node)
    requires NodeMatches(w, node) && node.position < |w.log|
    ensures NodeMatches(w, Applied(w, node))
    ensures Applied(w, node).state.applyFault.None? ==>
              Step(w.h, node.capabilities, node.state, w.log[node.position]).1
              == Step(w.h, FULLY_CAPABLE, Ideal(w, node.position), w.log[node.position]).1
  {
    hide Step, SameUpToCompaction;
    var entry := w.log[node.position];
    StepKeepsClusterId(w.h, node.capabilities, node.state, entry);
    if Applied(w, node).state.applyFault.None? {
      StepCases(w.h, node.capabilities, node.state, entry);
      UnfaultedStepIsIdeal(w.h, node.capabilities, node.state, entry);
      StepIgnoresCompaction(w.compact, w.h, FULLY_CAPABLE, Ideal(w, node.position), node.state, entry);
      RunStep(w.h, FULLY_CAPABLE, InitialState(w.clusterId), w.log, node.position);
    }
  }

  lemma TakingMatches(w: Shared, node: Node)
    requires CompactsOnce(w.compact) && NodeMatches(w, node) && Encode(w.compact, node.state).Some?
    ensures HeldMatches(w, Held(node.position, Encode(w.compact, node.state).value))
  {
    FaultedNodeIsNotCompacted(w.compact, node.state);
    LegacyGateIsNormal();
    GateStaysNormal(w.h, FULLY_CAPABLE, InitialState(w.clusterId), w.log[..node.position]);
    assert node.state.gate == Ideal(w, node.position).gate;
    hide Step, Run, Encode, Restore, Normalized;
    RestoreOfEncode(w.compact, node.state, InitialState(w.clusterId));
    var restored := Restore(InitialState(w.clusterId), Encode(w.compact, node.state).value).value;
    CompactionComposes(w.compact, Ideal(w, node.position), node.state, restored);
  }

  lemma InstallingMatches(w: Shared, node: Node, held: Held)
    requires NodeMatches(w, node) && HeldMatches(w, held) && Restore(node.state, held.encoded).Ok?
    ensures NodeMatches(w, Node(node.capabilities, held.position, Restore(node.state, held.encoded).value))
  {
    var clean := Restore(InitialState(w.clusterId), held.encoded).value;
    assert Restore(node.state, held.encoded).value == clean.(applyFault := node.state.applyFault);
    hide Run, Restore;
  }

  lemma MoveKeeps(w: Shared, s: Cluster, move: Move)
    requires CompactsOnce(w.compact) && Inv(w, s) && Next(w, s, move).Some?
    ensures Inv(w, Next(w, s, move).value)
  {
    hide NodeMatches, HeldMatches, Encode, Restore, Applied;
    match move
    case Start(_, capabilities) => StartMatches(w, capabilities);
    case ApplyNext(id) => ApplyingMatches(w, s.nodes[id]);
    case TakeSnapshot(id) => TakingMatches(w, s.nodes[id]);
    case Install(id, k) => InstallingMatches(w, s.nodes[id], s.snapshots[k]);
  }

  lemma {:induction false} RunKeeps(w: Shared, s: Cluster, moves: seq<Move>)
    requires CompactsOnce(w.compact) && Inv(w, s) && RunMoves(w, s, moves).Some?
    ensures Inv(w, RunMoves(w, s, moves).value)
    decreases |moves|
  {
    hide Inv, Next;
    if |moves| > 0 {
      MoveKeeps(w, s, moves[0]);
      RunKeeps(w, Next(w, s, moves[0]).value, moves[1..]);
    }
  }

  /** After any history of starts, entries, snapshots and installations, a node without a fault is in the
      ideal state of its position, up to compaction of values; the ideal run has no fault there, and
      the node's snapshot index is sound. */
  lemma MixedHistoriesAreIdeal(w: Shared, moves: seq<Move>, id: string)
    requires CompactsOnce(w.compact) && RunMoves(w, NOBODY, moves).Some?
    requires id in RunMoves(w, NOBODY, moves).value.nodes
    requires RunMoves(w, NOBODY, moves).value.nodes[id].state.applyFault.None?
    ensures var node := RunMoves(w, NOBODY, moves).value.nodes[id];
            && node.position <= |w.log|
            && SameUpToCompaction(w.compact, Ideal(w, node.position), node.state)
            && Ideal(w, node.position).applyFault.None?
            && Indexed(w.h, node.state)
  {
    RunKeeps(w, NOBODY, moves);
    hide Step, Run, RunMoves;
    var node := RunMoves(w, NOBODY, moves).value.nodes[id];
    assert NodeMatches(w, node);
    InitialIsIndexed(w.h, w.clusterId);
    IndexOverRun(w.h, FULLY_CAPABLE, InitialState(w.clusterId), w.log[..node.position]);
  }

  /** Two nodes without a fault at one position hold the same state, whatever brought them there, but for
      compaction of values. */
  lemma NodesOfOnePositionAgree(w: Shared, moves: seq<Move>, id1: string, id2: string)
    requires CompactsOnce(w.compact) && RunMoves(w, NOBODY, moves).Some?
    requires var nodes := RunMoves(w, NOBODY, moves).value.nodes;
             && id1 in nodes && id2 in nodes && nodes[id1].position == nodes[id2].position
             && nodes[id1].state.applyFault.None? && nodes[id2].state.applyFault.None?
    ensures var nodes := RunMoves(w, NOBODY, moves).value.nodes;
            var a, b := nodes[id1].state, nodes[id2].state;
            && a == b.(values := a.values) && a.values.Keys == b.values.Keys
            && forall key :: key in a.values ==> w.compact(a.values[key]) == w.compact(b.values[key])
  {
    MixedHistoriesAreIdeal(w, moves, id1);
    MixedHistoriesAreIdeal(w, moves, id2);
    hide RunMoves, Run, Indexed;
  }

  // ------------------------------------------------------------- halted nodes

  predicate IsHalted(s: Cluster, id: string) {
    id in s.nodes && s.nodes[id].state.applyFault.Some?
  }

  /** The snapshot brings a fault of its own. */
  predicate CarriesFault(held: Held) {
    held.encoded.applyFault.Some?
  }

  /** A halted node applies no entry and takes no snapshot. */
  lemma HaltedNodeRefuses(w: Shared, s: Cluster, id: string)
    requires IsHalted(s, id)
    ensures Next(w, s, TakeSnapshot(id)).None?
    ensures s.nodes[id].position < |w.log| ==>
              var node, entry := s.nodes[id], w.log[s.nodes[id].position];
              && Applied(w, node).state == node.state
              && Step(w.h, node.capabilities, node.state, entry).1.error.Some?
  {
    if s.nodes[id].position < |w.log| {
      var node, entry := s.nodes[id], w.log[s.nodes[id].position];
      StepCases(w.h, node.capabilities, node.state, entry);
      hide Step, TakesEffect;
    }
  }

  lemma MoveKeepsHalted(w: Shared, s: Cluster, move: Move, id: string)
    requires IsHalted(s, id) && Next(w, s, move).Some? && !(move.Start? && move.node == id)
    ensures var t := Next(w, s, move).value;
            && IsHalted(t, id)
            && (move.Install? && move.node == id && CarriesFault(s.snapshots[move.k]) ==>
                  t.nodes[id].state.applyFault == s.snapshots[move.k].encoded.applyFault)
            && (!(move.Install? && move.node == id && CarriesFault(s.snapshots[move.k])) ==>
                  t.nodes[id].state.applyFault == s.nodes[id].state.applyFault)
  {
    HaltedNodeRefuses(w, s, id);
    hide Step;
  }

  /** Some snapshot that the node installs during the moves carries a fault. */
  ghost predicate InstallsFault(w: Shared, s: Cluster, moves: seq<Move>, id: string)
    decreases |moves|
  {
    |moves| > 0 && Next(w, s, moves[0]).Some? &&
    ((moves[0].Install? && moves[0].node == id && CarriesFault(s.snapshots[moves[0].k]))
     || InstallsFault(w, Next(w, s, moves[0]).value, moves[1..], id))
  }

  /** Over every history, only a start of its own un-halts a node: no entry and no snapshot does. It keeps
      its very fault until it installs a snapshot that carries one. */
  lemma {:induction false} HaltedStaysHalted(w: Shared, s: Cluster, moves: seq<Move>, id: string)
    requires IsHalted(s, id) && RunMoves(w, s, moves).Some?
    requires forall k :: 0 <= k < |moves| ==> !(moves[k].Start? && moves[k].node == id)
    ensures var t := RunMoves(w, s, moves).value;
            && IsHalted(t, id)
            && (!InstallsFault(w, s, moves, id) ==> t.nodes[id].state.applyFault == s.nodes[id].state.applyFault)
    decreases |moves|
  {
    hide Next;
    if |moves| > 0 {
      MoveKeepsHalted(w, s, moves[0], id);
      assert forall k :: 0 <= k < |moves[1..]| ==> moves[1..][k] == moves[k + 1];
      HaltedStaysHalted(w, Next(w, s, moves[0]).value, moves[1..], id);
    }
  }

  lemma MoveMakesNoFaultySnapshot(w: Shared, s: Cluster, move: Move)
    requires Next(w, s, move).Some? && forall k :: 0 <= k < |s.snapshots| ==> !CarriesFault(s.snapshots[k])
    ensures var t := Next(w, s, move).value;
            forall k :: 0 <= k < |t.snapshots| ==> !CarriesFault(t.snapshots[k])
  {
    hide Step, Restore;
  }

  /** And since only nodes without a fault take snapshots, among snapshots taken by these nodes that never
      happens: from the empty cluster on, a node that halted keeps that fault until it starts anew. */
  lemma {:induction false} NoSnapshotCarriesFault(w: Shared, s: Cluster, moves: seq<Move>, id: string)
    requires RunMoves(w, s, moves).Some? && forall k :: 0 <= k < |s.snapshots| ==> !CarriesFault(s.snapshots[k])
    ensures !InstallsFault(w, s, moves, id)
    ensures var t := RunMoves(w, s, moves).value;
            forall k :: 0 <= k < |t.snapshots| ==> !CarriesFault(t.snapshots[k])
    decreases |moves|
  {
    if |moves| > 0 {
      MoveMakesNoFaultySnapshot(w, s, moves[0]);
      NoSnapshotCarriesFault(w, Next(w, s, moves[0]).value, moves[1..], id);
    }
    hide Step, Restore, Encode, Applied;
  }
}
