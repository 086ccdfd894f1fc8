/** Runs of the state machine over a log, and the two-way split of every step: it takes effect, or it
    leaves everything but the fault alone. */
module Runs {
  import opened Common
  import opened Capability
  import opened MetadataFsm

  /** The state of a node that started in `s` and applied `log`. */
  function Run(h: Hashes, c: NodeCapabilities, s: MetadataState, log: seq<Entry>): MetadataState {
    if log == [] then s else Step(h, c, Run(h, c, s, log[..|log| - 1]), log[|log| - 1]).0
  }

  function Results(h: Hashes, c: NodeCapabilities, s: MetadataState, log: seq<Entry>): seq<ApplyResult> {
    if log == [] then []
    else
      var front := log[..|log| - 1];
      Results(h, c, s, front) + [Step(h, c, Run(h, c, s, front), log[|log| - 1]).1]
  }

  /** What Raft promises about the entries it delivers: indexes start above zero and increase. */
  predicate ValidLog(log: seq<Entry>) {
    && (forall i :: 0 <= i < |log| ==> log[i].index >= 1)
    && (forall i, j :: 0 <= i < j < |log| ==> log[i].index < log[j].index)
  }

  /** Since indexes are `uint64`, a log never grows to 2^64 entries. */
  lemma {:induction false} IndexesCountEntries(log: seq<Entry>)
    requires ValidLog(log)
    ensures |log| < TWO_64
    ensures log != [] ==> |log| <= log[|log| - 1].index
  {
    if log != [] {
      var front, last: U64 := log[..|log| - 1], log[|log| - 1].index;
      IndexesCountEntries(front);
      assert front != [] ==> front[|front| - 1] == log[|log| - 2];
      assert |log| <= last < TWO_64;
    }
  }

  lemma RunStep(h: Hashes, c: NodeCapabilities, s: MetadataState, log: seq<Entry>, i: nat)
    requires i < |log|
    ensures Run(h, c, s, log[..i + 1]) == Step(h, c, Run(h, c, s, log[..i]), log[i]).0
    ensures Results(h, c, s, log[..i + 1])
            == Results(h, c, s, log[..i]) + [Step(h, c, Run(h, c, s, log[..i]), log[i]).1]
  {
    assert log[..i + 1][..i] == log[..i];
  }

  lemma RunOne(h: Hashes, c: NodeCapabilities, s: MetadataState, log: seq<Entry>)
    requires |log| == 1
    ensures Run(h, c, s, log) == Step(h, c, s, log[0]).0
    ensures Results(h, c, s, log) == [Step(h, c, s, log[0]).1]
  {
    assert log[..0] == [];
    assert Results(h, c, s, []) == [];
  }

  lemma {:induction false} RunConcat(h: Hashes, c: NodeCapabilities, s: MetadataState, a: seq<Entry>, b: seq<Entry>)
    ensures Run(h, c, s, a + b) == Run(h, c, Run(h, c, s, a), b)
    ensures Results(h, c, s, a + b) == Results(h, c, s, a) + Results(h, c, Run(h, c, s, a), b)
    decreases |b|
  {
    hide Step;
    if b == [] {
      assert a + b == a;
    } else {
      var front := b[..|b| - 1];
      RunConcat(h, c, s, a, front);
      assert (a + b)[..|a + b| - 1] == a + front;
      assert (a + b)[|a + b| - 1] == b[|b| - 1];
    }
  }

  lemma {:induction false} ResultPerEntry(h: Hashes, c: NodeCapabilities, s: MetadataState, log: seq<Entry>)
    ensures |Results(h, c, s, log)| == |log|
  {
    hide Step;
    if log != [] {
      ResultPerEntry(h, c, s, log[..|log| - 1]);
    }
  }

  lemma SplitRun(h: Hashes, c: NodeCapabilities, s: MetadataState, log: seq<Entry>, k: nat)
    requires k <= |log|
    ensures Run(h, c, s, log) == Run(h, c, Run(h, c, s, log[..k]), log[k..])
    ensures |Results(h, c, s, log)| == |log|
    ensures Results(h, c, s, log)[..k] == Results(h, c, s, log[..k])
    ensures Results(h, c, s, log)[k..] == Results(h, c, Run(h, c, s, log[..k]), log[k..])
  {
    hide Step;
    assert log[..k] + log[k..] == log;
    RunConcat(h, c, s, log[..k], log[k..]);
    ResultPerEntry(h, c, s, log);
    ResultPerEntry(h, c, s, log[..k]);
  }

  // ------------------------------------------------- what a step can do at all

  /** The entry passes every check of `Apply` and changes the replicated state. */
  predicate TakesEffect(h: Hashes, c: NodeCapabilities, s: MetadataState, entry: Entry) {
    && s.applyFault.None?
    && entry.data.Some? && entry.data.value.id != ""
    && var command := WithVersions(entry.data.value);
       && c.protocol.Supports(command.protocolVersion) && c.command.Supports(command.commandVersion)
       && command.protocolVersion == Normalized(s.gate).protocolVersion
       && command.commandVersion == Normalized(s.gate).commandVersion
       && CommandDigest(h, command).Some?
       && command.id !in s.applied
       && (command.expectedRevision.Some? ==> command.expectedRevision.value == s.revision)
       && EffectOf(h, c, s, command, entry.index).Accept?
  }

  /** The state after an entry that takes effect. */
  function Effected(h: Hashes, c: NodeCapabilities, s: MetadataState, entry: Entry): MetadataState
    requires TakesEffect(h, c, s, entry)
  {
    var command := WithVersions(entry.data.value);
    var revision := Increment(s.revision);
    EffectOf(h, c, s, command, entry.index).state.(
      revision := revision,
      applied := s.applied[command.id := AppliedCommand(revision, CommandDigest(h, command).value)])
  }

  /** Every entry either takes effect, with the next revision and one new ledger line, or changes
      nothing but the fault. In the second case it reports an error, unless it is a redelivery of
      an applied id, which reports that id's revision. A batch with one bad key is such an entry. */
  lemma StepCases(h: Hashes, c: NodeCapabilities, s: MetadataState, entry: Entry)
    ensures var (t, result) := Step(h, c, s, entry);
            if TakesEffect(h, c, s, entry) then
              && t == Effected(h, c, s, entry) && t.applyFault.None?
              && result == ApplyResult(t.revision, t.leaderEpoch, None)
            else
              && t == s.(applyFault := t.applyFault)
              && (s.applyFault.Some? ==> t == s)
              && (t.applyFault.Some? ==> result.error.Some?)
              && (result.error.None? ==>
                    && entry.data.Some? && entry.data.value.id in s.applied
                    && result.revision == s.applied[entry.data.value.id].revision)
  {
    if entry.data.Some? && entry.data.value.id != "" {
      var command := WithVersions(entry.data.value);
      EffectKeepsLedger(h, c, s, command, entry.index);
    }
  }

  lemma RevisionTellsEffect(h: Hashes, c: NodeCapabilities, s: MetadataState, entry: Entry)
    ensures TakesEffect(h, c, s, entry) <==> Step(h, c, s, entry).0.revision != s.revision
  {
    StepCases(h, c, s, entry);
    assert Increment(s.revision) != s.revision;
  }
}
