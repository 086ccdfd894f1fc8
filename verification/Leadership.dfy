/** Business leadership: one leader per epoch, and fencing of everything an older leader proposes. */
module Leadership {
  import opened Common
  import opened Capability
  import opened MetadataFsm
  import opened Runs
  import opened Replicas

  predicate HasOwnerFromFirstEpoch(s: MetadataState) {
    && (s.leaderOwner == "" <==> s.leaderEpoch == 0)
    && s.leaderEpoch <= s.lastLeadershipTerm
  }

  /** Epochs never go back, one epoch keeps its term and owner, and a new epoch has a later term. */
  predicate Succeeds(s: MetadataState, t: MetadataState) {
    && s.leaderEpoch <= t.leaderEpoch
    && (s.leaderEpoch == t.leaderEpoch ==>
          s.lastLeadershipTerm == t.lastLeadershipTerm && s.leaderOwner == t.leaderOwner)
    && (s.leaderEpoch < t.leaderEpoch ==> s.lastLeadershipTerm < t.lastLeadershipTerm)
  }

  lemma EffectOnLeadership(h: Hashes, c: NodeCapabilities, s: MetadataState, command: Command, index: U64)
    requires HasOwnerFromFirstEpoch(s)
    ensures var effect := EffectOf(h, c, s, command, index);
            effect.Accept? ==>
              && HasOwnerFromFirstEpoch(effect.state) && Succeeds(s, effect.state)
              && (effect.state.leaderEpoch != s.leaderEpoch ==> effect.state.leaderEpoch == s.leaderEpoch + 1)
  {
    if command.body.AcquireLeadership? && command.body.acquire.Some? {
      var term: U64 := command.body.acquire.value.term;
      assert term > s.lastLeadershipTerm ==> Increment(s.leaderEpoch) == s.leaderEpoch + 1;
    }
  }

  lemma StepOnLeadership(h: Hashes, c: NodeCapabilities, s: MetadataState, entry: Entry)
    requires HasOwnerFromFirstEpoch(s)
    ensures var t := Step(h, c, s, entry).0; HasOwnerFromFirstEpoch(t) && Succeeds(s, t)
  {
    StepCases(h, c, s, entry);
    if TakesEffect(h, c, s, entry) {
      EffectOnLeadership(h, c, s, WithVersions(entry.data.value), entry.index);
    }
  }

  lemma {:induction false} LeadershipOverRun(h: Hashes, c: NodeCapabilities, s: MetadataState, log: seq<Entry>, i: nat)
    requires HasOwnerFromFirstEpoch(s) && i <= |log|
    ensures HasOwnerFromFirstEpoch(Run(h, c, s, log))
    ensures Succeeds(Run(h, c, s, log[..i]), Run(h, c, s, log))
  {
    hide Step;
    if i == |log| {
      assert log[..i] == log;
      if log != [] {
        LeadershipOverRun(h, c, s, log[..|log| - 1], 0);
        StepOnLeadership(h, c, Run(h, c, s, log[..|log| - 1]), log[|log| - 1]);
      }
    } else {
      var front := log[..|log| - 1];
      assert front[..i] == log[..i];
      LeadershipOverRun(h, c, s, front, i);
      StepOnLeadership(h, c, Run(h, c, s, front), log[|log| - 1]);
    }
  }

  /** Over every log each epoch belongs to one (term, owner) pair; terms strictly increase with epochs,
      no epoch exceeds its term, and so the epoch counter never wraps. */
  lemma OneOwnerPerEpoch(h: Hashes, c: NodeCapabilities, clusterId: string, log: seq<Entry>, i: nat, j: nat)
    requires i <= j <= |log|
    ensures var s, t := Run(h, c, InitialState(clusterId), log[..i]), Run(h, c, InitialState(clusterId), log[..j]);
            && Succeeds(s, t)
            && t.leaderEpoch <= t.lastLeadershipTerm
            && (t.leaderOwner == "" <==> t.leaderEpoch == 0)
  {
    assert log[..j][..i] == log[..i];
    LeadershipOverRun(h, c, InitialState(clusterId), log[..j], i);
  }

  // ---------------------------------------------------- the local check of a node

  /** What a node knows besides its state machine: its Raft role and term, and its cached status. */
  datatype LocalView = LocalView(
    raftLeader: bool,
    raftTerm: U64,
    roleIsLeader: bool,
    hasQuorum: bool,
    statusEpoch: U64,
    quorumVerifiedRecently: bool)

  /** `checkLocalBusinessLeadership`. */
  predicate HoldsBusinessLeadership(nodeId: string, c: NodeCapabilities, s: MetadataState, view: LocalView) {
    && view.raftLeader
    && s.applyFault.None?
    && SupportsGate(c, s.gate, true)
    && s.leaderOwner == nodeId && s.leaderEpoch != 0 && s.lastLeadershipTerm == view.raftTerm
    && view.roleIsLeader && view.hasQuorum && view.statusEpoch == s.leaderEpoch && view.quorumVerifiedRecently
  }

  /** Two nodes that applied prefixes of one log and both pass the local check in the same epoch, or in
      the same Raft term, are the same node, even when they run different binaries. */
  lemma LeadersOfOneEpochAreOneNode(
    h: Hashes, clusterId: string, log: seq<Entry>,
    id1: string, c1: NodeCapabilities, i: nat, view1: LocalView,
    id2: string, c2: NodeCapabilities, j: nat, view2: LocalView)
    requires i <= |log| && j <= |log|
    requires HoldsBusinessLeadership(id1, c1, Run(h, c1, InitialState(clusterId), log[..i]), view1)
    requires HoldsBusinessLeadership(id2, c2, Run(h, c2, InitialState(clusterId), log[..j]), view2)
    requires view1.statusEpoch == view2.statusEpoch || view1.raftTerm == view2.raftTerm
    ensures id1 == id2 && view1.raftTerm == view2.raftTerm && view1.statusEpoch == view2.statusEpoch
  {
    hide Step;
    UnfaultedRunIsIdeal(h, c1, InitialState(clusterId), log[..i]);
    UnfaultedRunIsIdeal(h, c2, InitialState(clusterId), log[..j]);
    if i <= j {
      OneOwnerPerEpoch(h, FULLY_CAPABLE, clusterId, log, i, j);
    } else {
      OneOwnerPerEpoch(h, FULLY_CAPABLE, clusterId, log, j, i);
    }
  }

  /** Everything but `acquire_leadership` carries the epoch of the leader that proposed it. */
  predicate IsFenced(command: Command) {
    !command.body.AcquireLeadership?
  }

  lemma EffectNeedsCurrentEpoch(h: Hashes, c: NodeCapabilities, s: MetadataState, entry: Entry)
    requires HasOwnerFromFirstEpoch(s)
    requires TakesEffect(h, c, s, entry) && IsFenced(entry.data.value)
    ensures entry.data.value.leaderEpoch == s.leaderEpoch != 0
  {
  }

  /** A put, batch, commit or activation whose epoch was superseded anywhere before it in the log, or
      is zero, never takes effect. */
  lemma SupersededLeadersAreFenced(h: Hashes, c: NodeCapabilities, clusterId: string, log: seq<Entry>, i: nat, j: nat)
    requires i <= j < |log|
    requires log[j].data.Some? && IsFenced(log[j].data.value)
    requires log[j].data.value.leaderEpoch < Run(h, c, InitialState(clusterId), log[..i]).leaderEpoch
             || log[j].data.value.leaderEpoch == 0
    ensures !TakesEffect(h, c, Run(h, c, InitialState(clusterId), log[..j]), log[j])
  {
    hide Step;
    OneOwnerPerEpoch(h, c, clusterId, log, i, j);
    var s := Run(h, c, InitialState(clusterId), log[..j]);
    if TakesEffect(h, c, s, log[j]) {
      EffectNeedsCurrentEpoch(h, c, s, log[j]);
      assert false;
    }
  }
}
