/** The snapshot index of the state machine: integrity of its keys, and the order of generations. */
module SnapshotIndex {
  import opened Common
  import opened Capability
  import opened Snapshots
  import opened MetadataFsm
  import opened Runs
  import opened Leadership

  /** The manifest is filed under its computed and embedded hash, belongs to this cluster and was
      committed in this epoch or an earlier one. */
  predicate FiledUnder(h: Hashes, s: MetadataState, key: string, manifest: Manifest) {
    && ComputeManifestHash(h.manifestSum, manifest) == Some(key)
    && manifest.generation.manifestHash == key
    && manifest.generation.clusterId == s.clusterId
    && manifest.generation.leaderEpoch <= s.leaderEpoch
  }

  ghost predicate Indexed(h: Hashes, s: MetadataState) {
    && HasOwnerFromFirstEpoch(s)
    && (s.activeSnapshot != "" ==> s.activeSnapshot in s.snapshots)
    && forall key :: key in s.snapshots ==> FiledUnder(h, s, key, s.snapshots[key])
  }

  lemma InitialIsIndexed(h: Hashes, clusterId: string)
    ensures Indexed(h, InitialState(clusterId))
  {
  }

  /** No key is dropped, and a key changes its manifest only for one that collides with it. */
  predicate Keeps(h: Hashes, s: MetadataState, t: MetadataState) {
    forall key :: key in s.snapshots ==>
      && key in t.snapshots
      && (t.snapshots[key] == s.snapshots[key] || Collide(h.manifestSum, s.snapshots[key], t.snapshots[key]))
  }

  /** The active snapshot only ever moves to the same or a later epoch, and is never dropped. */
  predicate ActiveAdvances(s: MetadataState, t: MetadataState) {
    s.activeSnapshot != "" ==>
      && s.activeSnapshot in s.snapshots && t.activeSnapshot != "" && t.activeSnapshot in t.snapshots
      && s.snapshots[s.activeSnapshot].generation.leaderEpoch <= t.snapshots[t.activeSnapshot].generation.leaderEpoch
  }

  predicate CommitsManifest(h: Hashes, c: NodeCapabilities, s: MetadataState, entry: Entry) {
    TakesEffect(h, c, s, entry) && entry.data.value.body.CommitSnapshot?
  }

  function Committed(h: Hashes, c: NodeCapabilities, s: MetadataState, entry: Entry): Manifest
    requires CommitsManifest(h, c, s, entry)
  {
    entry.data.value.body.commit.value
  }

  lemma CommitOnIndex(h: Hashes, s: MetadataState, payload: Option<Manifest>, index: U64)
    requires Indexed(h, s)
    ensures var effect := CommitEffect(h, s, payload, index);
            && effect != Halt(ActiveSnapshotMissing)
            && (effect.Accept? ==>
                  && payload.Some?
                  && var m := payload.value;
                     && effect.state == s.(snapshots := s.snapshots[m.generation.manifestHash := m],
                                           activeSnapshot := m.generation.manifestHash, activeSnapshotIndex := index)
                     && m.generation.manifestHash != ""
                     && FiledUnder(h, s, m.generation.manifestHash, m) && m.generation.leaderEpoch == s.leaderEpoch
                     && (OrdersSequences(s.gate) ==> IsNextSequence(ActiveSequence(s), m.generation.sequence)))
  {
    hide AdmittedByGate, OrdersSequences;
  }

  lemma EffectOnIndex(h: Hashes, c: NodeCapabilities, s: MetadataState, command: Command, index: U64)
    requires Indexed(h, s)
    ensures var effect := EffectOf(h, c, s, command, index);
            && effect != Halt(ActiveSnapshotMissing)
            && (command.body.CommitSnapshot? && effect.Accept? ==>
                  effect == CommitEffect(h, s, command.body.commit, index))
            && (!command.body.CommitSnapshot? && effect.Accept? ==>
                  effect.state.snapshots == s.snapshots && effect.state.activeSnapshot == s.activeSnapshot
                  && effect.state.activeSnapshotIndex == s.activeSnapshotIndex)
  {
    if command.body.CommitSnapshot? {
      CommitOnIndex(h, s, command.body.commit, index);
    }
    hide CommitEffect, Indexed, ValidGate, SupportsGate;
  }

  /** What one entry does to the index: a commit files its manifest, which passed the sequence rule,
      and makes it active; every other entry leaves the index alone. */
  lemma StepOnIndex(h: Hashes, c: NodeCapabilities, s: MetadataState, entry: Entry)
    requires Indexed(h, s)
    ensures var t := Step(h, c, s, entry).0;
            && s.leaderEpoch <= t.leaderEpoch && t.clusterId == s.clusterId && HasOwnerFromFirstEpoch(t)
            && if CommitsManifest(h, c, s, entry) then
                 var m := Committed(h, c, s, entry);
                 var key := m.generation.manifestHash;
                 && t.snapshots == s.snapshots[key := m] && t.activeSnapshot == key && key != ""
                 && t.activeSnapshotIndex == entry.index
                 && FiledUnder(h, t, key, m) && m.generation.leaderEpoch == s.leaderEpoch == t.leaderEpoch
                 && (OrdersSequences(s.gate) ==> IsNextSequence(ActiveSequence(s), m.generation.sequence))
               else
                 t.snapshots == s.snapshots && t.activeSnapshot == s.activeSnapshot
                 && t.activeSnapshotIndex == s.activeSnapshotIndex
  {
    StepCases(h, c, s, entry);
    StepOnLeadership(h, c, s, entry);
    if TakesEffect(h, c, s, entry) {
      EffectOnIndex(h, c, s, WithVersions(entry.data.value), entry.index);
      EffectKeepsLedger(h, c, s, WithVersions(entry.data.value), entry.index);
      if entry.data.value.body.CommitSnapshot? {
        CommitOnIndex(h, s, entry.data.value.body.commit, entry.index);
      }
    }
    hide Step, EffectOf, CommitEffect, ComputeManifestHash;
  }

  lemma StepKeepsIndex(h: Hashes, c: NodeCapabilities, s: MetadataState, entry: Entry)
    requires Indexed(h, s)
    ensures var t := Step(h, c, s, entry).0;
            && Indexed(h, t) && ActiveAdvances(s, t)
            && Keeps(h, s, t)
  {
    hide Step;
    StepOnIndex(h, c, s, entry);
    if CommitsManifest(h, c, s, entry) {
      var m := Committed(h, c, s, entry);
      var key := m.generation.manifestHash;
      if key in s.snapshots {
        HashDeterminesManifest(h.manifestSum, s.snapshots[key], m, key);
      }
    }
  }

  lemma KeepsOn(h: Hashes, s: MetadataState, t: MetadataState, u: MetadataState)
    requires Indexed(h, s) && Indexed(h, u) && Keeps(h, s, t) && Keeps(h, t, u)
    ensures Keeps(h, s, u)
  {
    forall key | key in s.snapshots
      ensures u.snapshots[key] == s.snapshots[key] || Collide(h.manifestSum, s.snapshots[key], u.snapshots[key])
    {
      HashDeterminesManifest(h.manifestSum, s.snapshots[key], u.snapshots[key], key);
    }
  }

  lemma StepNeverMissesActive(h: Hashes, c: NodeCapabilities, s: MetadataState, entry: Entry)
    requires Indexed(h, s)
    requires s.applyFault.Some? ==> s.applyFault.value.error != ActiveSnapshotMissing
    ensures var t := Step(h, c, s, entry).0; t.applyFault.Some? ==> t.applyFault.value.error != ActiveSnapshotMissing
  {
    if entry.data.Some? && entry.data.value.id != "" {
      var command := WithVersions(entry.data.value);
      EffectOnIndex(h, c, s, command, entry.index);
      EffectKeepsLedger(h, c, s, command, entry.index);
    }
    hide EffectOf, Indexed;
  }

  lemma {:induction false} IndexOverRun(h: Hashes, c: NodeCapabilities, s: MetadataState, log: seq<Entry>)
    requires Indexed(h, s)
    ensures var t := Run(h, c, s, log);
            && Indexed(h, t) && s.leaderEpoch <= t.leaderEpoch && t.clusterId == s.clusterId
            && ActiveAdvances(s, t)
            && Keeps(h, s, t)
  {
    hide Step;
    if log != [] {
      var front := log[..|log| - 1];
      IndexOverRun(h, c, s, front);
      StepOnIndex(h, c, Run(h, c, s, front), log[|log| - 1]);
      StepKeepsIndex(h, c, Run(h, c, s, front), log[|log| - 1]);
      KeepsOn(h, s, Run(h, c, s, front), Run(h, c, s, log));
    }
  }

  /** In every reachable state the index is sound. Along the run the active epoch never goes back and
      the index is append-only, unless SHA-256 collides on two manifests that were committed. */
  lemma IndexIsSound(h: Hashes, c: NodeCapabilities, clusterId: string, log: seq<Entry>, i: nat)
    requires i <= |log|
    ensures var s, t := Run(h, c, InitialState(clusterId), log[..i]), Run(h, c, InitialState(clusterId), log);
            && Indexed(h, s) && Indexed(h, t) && t.clusterId == clusterId
            && ActiveAdvances(s, t)
            && Keeps(h, s, t)
  {
    IndexOverRun(h, c, InitialState(clusterId), log[..i]);
    IndexOverRun(h, c, Run(h, c, InitialState(clusterId), log[..i]), log[i..]);
    SplitRun(h, c, InitialState(clusterId), log, i);
  }

  /** So the guard for an active snapshot without a manifest never fires. */
  lemma {:induction false} ActiveManifestIsNeverMissing(h: Hashes, c: NodeCapabilities, clusterId: string,
                                                        log: seq<Entry>)
    ensures var fault := Run(h, c, InitialState(clusterId), log).applyFault;
            fault.Some? ==> fault.value.error != ActiveSnapshotMissing
  {
    hide Step;
    if log != [] {
      var front := log[..|log| - 1];
      ActiveManifestIsNeverMissing(h, c, clusterId, front);
      IndexOverRun(h, c, InitialState(clusterId), front);
      StepNeverMissesActive(h, c, Run(h, c, InitialState(clusterId), front), log[|log| - 1]);
    }
  }

  lemma {:induction false} ActiveIndexIsInThePast(h: Hashes, c: NodeCapabilities, clusterId: string, log: seq<Entry>)
    requires ValidLog(log)
    ensures Run(h, c, InitialState(clusterId), log).activeSnapshotIndex
            <= (if log == [] then 0 else log[|log| - 1].index)
  {
    hide Step;
    if log != [] {
      var front := log[..|log| - 1];
      ActiveIndexIsInThePast(h, c, clusterId, front);
      assert front != [] ==> front[|front| - 1] == log[|log| - 2];
      IndexOverRun(h, c, InitialState(clusterId), front);
      StepOnIndex(h, c, Run(h, c, InitialState(clusterId), front), log[|log| - 1]);
    }
  }

  /** The index of the active snapshot never goes back, and every commit moves it strictly forward. */
  lemma ActiveIndexAdvances(h: Hashes, c: NodeCapabilities, clusterId: string, log: seq<Entry>, i: nat)
    requires ValidLog(log) && i < |log|
    ensures var s, t := Run(h, c, InitialState(clusterId), log[..i]), Run(h, c, InitialState(clusterId), log[..i + 1]);
            if CommitsManifest(h, c, s, log[i]) then s.activeSnapshotIndex < t.activeSnapshotIndex == log[i].index
            else t.activeSnapshotIndex == s.activeSnapshotIndex
  {
    hide Step;
    ActiveIndexIsInThePast(h, c, clusterId, log[..i]);
    IndexOverRun(h, c, InitialState(clusterId), log[..i]);
    RunStep(h, c, InitialState(clusterId), log, i);
    StepOnIndex(h, c, Run(h, c, InitialState(clusterId), log[..i]), log[i]);
  }

  // ------------------------------------------------- the order of generations

  /** The generations that a run commits, in order. */
  function Commits(h: Hashes, c: NodeCapabilities, s: MetadataState, log: seq<Entry>): seq<Generation> {
    if log == [] then []
    else
      var front := log[..|log| - 1];
      var before, last := Run(h, c, s, front), log[|log| - 1];
      Commits(h, c, s, front)
      + (if CommitsManifest(h, c, before, last) then [Committed(h, c, before, last).generation] else [])
  }

  /** The gate demands consecutive sequences before every entry of the segment. */
  ghost predicate OrderedThroughout(h: Hashes, c: NodeCapabilities, s: MetadataState, log: seq<Entry>) {
    forall i :: 0 <= i < |log| ==> OrdersSequences(Run(h, c, s, log[..i]).gate)
  }

  function LastSequence(s: MetadataState): int
    requires s.activeSnapshot != "" ==> s.activeSnapshot in s.snapshots
  {
    if s.activeSnapshot == "" then 0 else s.snapshots[s.activeSnapshot].generation.sequence
  }

  lemma OrderedFront(h: Hashes, c: NodeCapabilities, s: MetadataState, log: seq<Entry>)
    requires OrderedThroughout(h, c, s, log) && log != []
    ensures OrderedThroughout(h, c, s, log[..|log| - 1])
    ensures OrdersSequences(Run(h, c, s, log[..|log| - 1]).gate)
  {
    var front := log[..|log| - 1];
    assert forall i :: 0 <= i < |front| ==> front[..i] == log[..i];
  }

  /** The commits carry start+1, start+2, ... and their epochs grow from `low` to at most `high`. */
  predicate Consecutive(start: int, low: int, commits: seq<Generation>, high: int) {
    && (forall i :: 0 <= i < |commits| ==>
          commits[i].sequence == start + 1 + i && low <= commits[i].leaderEpoch <= high)
    && (forall i, j :: 0 <= i < j < |commits| ==> commits[i].leaderEpoch <= commits[j].leaderEpoch)
  }

  lemma AppendConsecutive(start: int, low: int, commits: seq<Generation>, high: int, next: Generation)
    requires Consecutive(start, low, commits, high) && low <= high
    requires next.sequence == start + 1 + |commits| && next.leaderEpoch == high
    ensures Consecutive(start, low, commits + [next], high)
  {
  }

  lemma LastSequenceStep(h: Hashes, c: NodeCapabilities, s: MetadataState, entry: Entry)
    requires Indexed(h, s) && OrdersSequences(s.gate)
    ensures var t := Step(h, c, s, entry).0;
            && Indexed(h, t) && s.leaderEpoch <= t.leaderEpoch
            && if CommitsManifest(h, c, s, entry) then
                 var next := Committed(h, c, s, entry).generation;
                 && LastSequence(t) == next.sequence == LastSequence(s) + 1
                 && next.leaderEpoch == t.leaderEpoch == s.leaderEpoch
               else LastSequence(t) == LastSequence(s)
  {
    StepOnIndex(h, c, s, entry);
    StepKeepsIndex(h, c, s, entry);
    hide Step, CommitsManifest, FiledUnder;
  }

  /** While the gate orders sequences, commits carry s0+1, s0+2, ... across any number of leaders, with
      no gap, no repeat and no wrap of the 64-bit counter, and their epochs never decrease: the pair
      (epoch, sequence) grows with every commit. */
  lemma {:induction false} CommitsAreConsecutive(h: Hashes, c: NodeCapabilities, s: MetadataState, log: seq<Entry>)
    requires Indexed(h, s) && OrderedThroughout(h, c, s, log)
    ensures var t := Run(h, c, s, log);
            && Indexed(h, t) && s.leaderEpoch <= t.leaderEpoch
            && LastSequence(t) == LastSequence(s) + |Commits(h, c, s, log)|
            && Consecutive(LastSequence(s), s.leaderEpoch, Commits(h, c, s, log), t.leaderEpoch)
  {
    hide Step, CommitsManifest, FiledUnder, LastSequence;
    if log != [] {
      var front, last := log[..|log| - 1], log[|log| - 1];
      OrderedFront(h, c, s, log);
      CommitsAreConsecutive(h, c, s, front);
      var before := Run(h, c, s, front);
      LastSequenceStep(h, c, before, last);
      if CommitsManifest(h, c, before, last) {
        AppendConsecutive(LastSequence(s), s.leaderEpoch, Commits(h, c, s, front), before.leaderEpoch,
                          Committed(h, c, before, last).generation);
      }
    }
  }

  /** Keys that the segment added hold sequences above the segment's start. */
  ghost predicate NewKeysAreLater(s: MetadataState, t: MetadataState)
    requires s.activeSnapshot != "" ==> s.activeSnapshot in s.snapshots
    requires t.activeSnapshot != "" ==> t.activeSnapshot in t.snapshots
  {
    forall key :: key in t.snapshots && key !in s.snapshots ==>
      LastSequence(s) < t.snapshots[key].generation.sequence <= LastSequence(t)
  }

  lemma {:induction false} SegmentAddsLaterKeys(h: Hashes, c: NodeCapabilities, s: MetadataState, log: seq<Entry>)
    requires Indexed(h, s) && OrderedThroughout(h, c, s, log)
    ensures Indexed(h, Run(h, c, s, log)) && LastSequence(s) <= LastSequence(Run(h, c, s, log))
    ensures NewKeysAreLater(s, Run(h, c, s, log))
  {
    hide Step;
    IndexOverRun(h, c, s, log);
    CommitsAreConsecutive(h, c, s, log);
    if log != [] {
      var front := log[..|log| - 1];
      OrderedFront(h, c, s, log);
      SegmentAddsLaterKeys(h, c, s, front);
      StepOnIndex(h, c, Run(h, c, s, front), log[|log| - 1]);
    }
  }

  /** A commit inside an ordered segment files a key that was not there before exactly when that key
      was not there when the segment began, unless the manifest collides with one filed meanwhile:
      two commits of one segment never share a key, only a manifest from before it can come back. */
  lemma CommitKeyIsFresh(h: Hashes, c: NodeCapabilities, s: MetadataState, log: seq<Entry>, entry: Entry)
    requires Indexed(h, s) && OrderedThroughout(h, c, s, log + [entry])
    requires CommitsManifest(h, c, Run(h, c, s, log), entry)
    ensures var before, m := Run(h, c, s, log).snapshots, Committed(h, c, Run(h, c, s, log), entry);
            var key := m.generation.manifestHash;
            && (key !in before ==> key !in s.snapshots)
            && (key !in s.snapshots ==> key !in before || Collide(h.manifestSum, m, before[key]))
  {
    hide Step;
    assert (log + [entry])[..|log + [entry]| - 1] == log;
    OrderedFront(h, c, s, log + [entry]);
    var before := Run(h, c, s, log);
    IndexOverRun(h, c, s, log);
    SegmentAddsLaterKeys(h, c, s, log);
    StepOnIndex(h, c, before, entry);
    var m := Committed(h, c, before, entry);
    var key := m.generation.manifestHash;
    if key in before.snapshots {
      HashDeterminesManifest(h.manifestSum, m, before.snapshots[key], key);
    }
  }
}
