/** The command-id ledger with revision compare-and-set: every command takes effect at most once. */
module Ledger {
  import opened Common
  import opened Capability
  import opened MetadataFsm
  import opened Runs

  predicate HasRevision(s: MetadataState, revision: int) {
    exists id :: id in s.applied && s.applied[id].revision == revision
  }

  /** Applied ids stand one to one for the revisions 1 to `revision`. */
  ghost predicate OneToOne(s: MetadataState) {
    && |s.applied| == s.revision
    && (forall id :: id in s.applied ==> 1 <= s.applied[id].revision <= s.revision && s.applied[id].digest != "")
    && (forall a, b :: a in s.applied && b in s.applied && s.applied[a].revision == s.applied[b].revision ==> a == b)
    && (forall revision :: 1 <= revision <= s.revision ==> HasRevision(s, revision))
  }

  /** Ledger lines are never removed or rewritten. */
  predicate Extends(s: MetadataState, t: MetadataState) {
    forall id :: id in s.applied ==> id in t.applied && t.applied[id] == s.applied[id]
  }

  lemma AddLine(s: MetadataState, t: MetadataState, id: string, digest: string)
    requires OneToOne(s) && s.revision < MAX_U64
    requires id !in s.applied && digest != ""
    requires t.revision == s.revision + 1
    requires t.applied == s.applied[id := AppliedCommand(s.revision + 1, digest)]
    ensures OneToOne(t)
  {
    forall revision | 1 <= revision <= t.revision ensures HasRevision(t, revision) {
      if revision <= s.revision {
        assert HasRevision(s, revision);
        var other :| other in s.applied && s.applied[other].revision == revision;
        assert other in t.applied && t.applied[other].revision == revision;
      } else {
        assert id in t.applied && t.applied[id].revision == revision;
      }
    }
  }

  lemma StepOnLedger(h: Hashes, c: NodeCapabilities, s: MetadataState, entry: Entry)
    requires OneToOne(s) && s.revision < MAX_U64
    ensures var t := Step(h, c, s, entry).0;
            && OneToOne(t) && Extends(s, t)
            && t.revision == s.revision + (if TakesEffect(h, c, s, entry) then 1 else 0)
  {
    StepCases(h, c, s, entry);
    var t := Step(h, c, s, entry).0;
    if TakesEffect(h, c, s, entry) {
      var command := WithVersions(entry.data.value);
      AddLine(s, t, command.id, CommandDigest(h, command).value);
    } else {
      assert t.applied == s.applied && t.revision == s.revision;
      assert forall revision :: HasRevision(s, revision) ==> HasRevision(t, revision);
    }
  }

  /** In every run the applied ids map one to one onto the revisions, and no run is long enough to
      wrap the revision counter. */
  lemma {:induction false} LedgerIsOneToOne(h: Hashes, c: NodeCapabilities, clusterId: string, log: seq<Entry>)
    requires ValidLog(log)
    ensures OneToOne(Run(h, c, InitialState(clusterId), log))
    ensures Run(h, c, InitialState(clusterId), log).revision <= |log|
  {
    hide Step;
    if log != [] {
      var front := log[..|log| - 1];
      IndexesCountEntries(log);
      LedgerIsOneToOne(h, c, clusterId, front);
      StepOnLedger(h, c, Run(h, c, InitialState(clusterId), front), log[|log| - 1]);
    }
  }

  lemma PrefixIsValid(log: seq<Entry>, i: nat)
    requires ValidLog(log) && i <= |log|
    ensures ValidLog(log[..i])
  {
  }

  lemma LedgerAtPrefix(h: Hashes, c: NodeCapabilities, clusterId: string, log: seq<Entry>, i: nat)
    requires ValidLog(log) && i <= |log|
    ensures OneToOne(Run(h, c, InitialState(clusterId), log[..i]))
    ensures Run(h, c, InitialState(clusterId), log[..i]).revision <= i
    ensures i < MAX_U64 || i == |log|
  {
    PrefixIsValid(log, i);
    LedgerIsOneToOne(h, c, clusterId, log[..i]);
    IndexesCountEntries(log);
  }

  lemma LedgerStepAt(h: Hashes, c: NodeCapabilities, clusterId: string, log: seq<Entry>, i: nat)
    requires ValidLog(log) && i < |log|
    ensures var s, t := Run(h, c, InitialState(clusterId), log[..i]), Run(h, c, InitialState(clusterId), log[..i + 1]);
            Extends(s, t) && s.revision <= t.revision
  {
    hide Step;
    LedgerAtPrefix(h, c, clusterId, log, i);
    IndexesCountEntries(log);
    RunStep(h, c, InitialState(clusterId), log, i);
    StepOnLedger(h, c, Run(h, c, InitialState(clusterId), log[..i]), log[i]);
  }

  lemma {:induction false} LedgerOnlyGrows(h: Hashes, c: NodeCapabilities, clusterId: string, log: seq<Entry>, i: nat,
                                           j: nat)
    requires ValidLog(log) && i <= j <= |log|
    ensures var s, t := Run(h, c, InitialState(clusterId), log[..i]), Run(h, c, InitialState(clusterId), log[..j]);
            Extends(s, t) && s.revision <= t.revision
    decreases j
  {
    hide Step;
    if i < j {
      LedgerOnlyGrows(h, c, clusterId, log, i, j - 1);
      LedgerStepAt(h, c, clusterId, log, j - 1);
    }
  }

  /** Reachable state and effect of entry `i` in one place. */
  predicate EffectAt(h: Hashes, c: NodeCapabilities, clusterId: string, log: seq<Entry>, i: nat)
    requires i < |log|
  {
    TakesEffect(h, c, Run(h, c, InitialState(clusterId), log[..i]), log[i])
  }

  lemma EffectWritesLine(h: Hashes, c: NodeCapabilities, clusterId: string, log: seq<Entry>, i: nat)
    requires ValidLog(log) && i < |log| && EffectAt(h, c, clusterId, log, i)
    ensures var s, t := Run(h, c, InitialState(clusterId), log[..i]), Run(h, c, InitialState(clusterId), log[..i + 1]);
            && t.revision == s.revision + 1
            && log[i].data.value.id !in s.applied && log[i].data.value.id in t.applied
            && t.applied[log[i].data.value.id]
               == AppliedCommand(t.revision, CommandDigest(h, WithVersions(log[i].data.value)).value)
  {
    hide Step;
    LedgerAtPrefix(h, c, clusterId, log, i);
    IndexesCountEntries(log);
    RunStep(h, c, InitialState(clusterId), log, i);
    StepCases(h, c, Run(h, c, InitialState(clusterId), log[..i]), log[i]);
  }

  /** At an unfaulted node, a command whose versions are active gets past the version checks. */
  predicate Delivered(h: Hashes, c: NodeCapabilities, s: MetadataState, command: Command) {
    && s.applyFault.None?
    && c.protocol.Supports(command.protocolVersion) && c.command.Supports(command.commandVersion)
    && command.protocolVersion == Normalized(s.gate).protocolVersion
    && command.commandVersion == Normalized(s.gate).commandVersion
    && CommandDigest(h, command).Some?
  }

  lemma LineHasDigest(h: Hashes, c: NodeCapabilities, clusterId: string, log: seq<Entry>, i: nat)
    requires i < |log| && EffectAt(h, c, clusterId, log, i)
    ensures var digest := CommandDigest(h, WithVersions(log[i].data.value)); digest.Some? && digest.value != ""
  {
  }

  /** A redelivery of an applied command, any time later, changes nothing. With the same digest it
      returns the revision the first delivery got; with another digest it is refused. */
  lemma RedeliveryIsExactlyOnce(h: Hashes, c: NodeCapabilities, clusterId: string, log: seq<Entry>, i: nat, j: nat)
    requires ValidLog(log) && i < j < |log| && EffectAt(h, c, clusterId, log, i)
    requires log[j].data.Some? && log[j].data.value.id == log[i].data.value.id
    requires Delivered(h, c, Run(h, c, InitialState(clusterId), log[..j]), WithVersions(log[j].data.value))
    ensures var first := Run(h, c, InitialState(clusterId), log[..i + 1]);
            var s := Run(h, c, InitialState(clusterId), log[..j]);
            var (t, result) := Step(h, c, s, log[j]);
            && t == s
            && (CommandDigest(h, WithVersions(log[j].data.value)) == CommandDigest(h, WithVersions(log[i].data.value))
                ==> result == ApplyResult(first.revision, s.leaderEpoch, None))
            && (CommandDigest(h, WithVersions(log[j].data.value)) != CommandDigest(h, WithVersions(log[i].data.value))
                ==> result == Reply(s, Some(IdReusedWithDifferentPayload)))
  {
    hide Step, Run, Delivered, CommandDigest;
    LineHasDigest(h, c, clusterId, log, i);
    EffectWritesLine(h, c, clusterId, log, i);
    LedgerOnlyGrows(h, c, clusterId, log, i + 1, j);
    StepOnKnownId(h, c, Run(h, c, InitialState(clusterId), log[..j]), log[j]);
  }

  /** In every state, a known id changes nothing. It is refused exactly when its line has a digest and
      the digest differs; otherwise it reports the revision of its line. */
  lemma StepOnKnownId(h: Hashes, c: NodeCapabilities, s: MetadataState, entry: Entry)
    requires entry.data.Some? && entry.data.value.id != "" && entry.data.value.id in s.applied
    requires Delivered(h, c, s, WithVersions(entry.data.value))
    ensures var line := s.applied[entry.data.value.id];
            Step(h, c, s, entry) ==
            if line.digest != "" && CommandDigest(h, WithVersions(entry.data.value)) != Some(line.digest)
            then (s, Reply(s, Some(IdReusedWithDifferentPayload)))
            else (s, ApplyResult(line.revision, s.leaderEpoch, None))
  {
    hide EffectOf, CommandDigest;
  }

  /** Of all entries that expect one revision, at most one ever takes effect. */
  lemma CompareAndSetSucceedsOnce(h: Hashes, c: NodeCapabilities, clusterId: string, log: seq<Entry>, i: nat, j: nat)
    requires ValidLog(log) && i < |log| && j < |log|
    requires EffectAt(h, c, clusterId, log, i) && EffectAt(h, c, clusterId, log, j)
    requires log[i].data.value.expectedRevision.Some?
    requires log[i].data.value.expectedRevision == log[j].data.value.expectedRevision
    ensures i == j
  {
    hide Step;
    var a, b := if i <= j then i else j, if i <= j then j else i;
    if a < b {
      EffectWritesLine(h, c, clusterId, log, a);
      LedgerOnlyGrows(h, c, clusterId, log, a + 1, b);
      assert false;
    }
  }

  /** Along one log the revision determines everything but the fault. */
  lemma RevisionDeterminesState(h: Hashes, c: NodeCapabilities, clusterId: string, log: seq<Entry>, i: nat, j: nat)
    requires ValidLog(log) && i <= j <= |log|
    requires Run(h, c, InitialState(clusterId), log[..i]).revision ==
             Run(h, c, InitialState(clusterId), log[..j]).revision
    ensures var s, t := Run(h, c, InitialState(clusterId), log[..i]), Run(h, c, InitialState(clusterId), log[..j]);
            t == s.(applyFault := t.applyFault)
    decreases j
  {
    hide Step, Run, TakesEffect;
    if i < j {
      LedgerOnlyGrows(h, c, clusterId, log, i, j - 1);
      LedgerOnlyGrows(h, c, clusterId, log, j - 1, j);
      RevisionDeterminesState(h, c, clusterId, log, i, j - 1);
      var before := Run(h, c, InitialState(clusterId), log[..j - 1]);
      RunStep(h, c, InitialState(clusterId), log, j - 1);
      StepCases(h, c, before, log[j - 1]);
      RevisionTellsEffect(h, c, before, log[j - 1]);
    }
  }
}
