# go-clusterha: a verified model

go-clusterha puts its own replicated state machine on top of HashiCorp Raft: a metadata store with a command
ledger and leadership epochs, a capability gate that lets old and new binaries share one log, a workflow that
joins and removes voters, and content-addressed snapshots that are published to a voter quorum and collected
later. This project models those parts in Dafny and proves what they promise over every log, every run and
every reachable state. Raft itself is one shared log of which every node has applied a prefix, plus a voter
configuration that changes atomically.

`dafny verify dfyconfig.toml` checks everything.

## How the model is laid out

| module | models |
|---|---|
| `Common`, `Capability` | fixed-width integers; gate normalization, comparison and support (capability.go) |
| `Snapshots`, `Generations` | manifest validation, hashing, the sequence rule, printing and parsing generations |
| `MetadataFsm`, `Runs` | one log entry on one node, as a function (`Step`) and as the mutable object (`FSM`) proved equal to it; whole logs |
| `Replicas`, `Ledger`, `Leadership`, `SnapshotIndex`, `Meaning`, `Compaction`, `Histories` | what every run keeps: agreement, exactly-once, fencing, the manifest index, what each part of the state says about the log, log compaction, and all of it among nodes that restore each other's snapshots |
| `BlobStores`, `Retention`, `Survival`, `Publication`, `Proposals`, `Reads` | the blob store, staging counters and collection, publication to a quorum, what becomes of any proposal, reads by generation |
| `Membership`, `MembershipInvariant`, `MembershipSafety`, `MembershipRecovery`, `MembershipOutcomes`, `MembershipWrites`, `MembershipLog` | joins, removals and activations as a transition system in which the leader may vanish between any two durable steps |
| `ConfigurationLock` | the goroutines around `configurationMu`: caller, Raft worker and the drainer of a cancelled change |
| `Scenarios` | concrete runs on which the program gives less than one might expect |

The objects whose methods change fields (`metadataFSM`, `BlobStore`, the staging counters of `Node`) are classes;
the loops of the source are loops here. The membership handlers are the exception: a crash may come between any
two of their lines, so they are program points of one transition system, with the local copies they carry.

SHA-256 (FIPS 180-4) and JSON texts are function parameters. Where a property fails only if two texts share a sum,
the lemma says so: its conclusion names the two that collide, or it asks that the blobs in play do not. A payload
that does not decode is a value of its own, and so is a text that cannot be hashed.

What the membership results assume: a node's capabilities never change and its status reports are true; the voters
at bootstrap support the legacy gate; applications do not write `cluster/members` or `cluster/membership_operation`,
and their command ids do not look like an operation's; a handler's checks and its commit fall into one leadership (a
new leader starts with no handler and no lock); a configuration change happens at one instant or not at all; a
joining node reports in the end that it caught up. A compare-and-set lost to another writer, a timeout and a
cancelled request all appear as `Abort`, which can strike at any point.

## What turned out to be weaker than it looks

- Shard totals are summed in wrapping `int64`, so a manifest whose true totals are not the declared ones can be
  accepted (`Snapshots.WrappedTotalsAreAccepted`); they are exact if and only if the true sums stay below 2^63.
- A generation survives printing and parsing if and only if the cluster id has no slash and the hash has the
  prefix `sha256:` (`Generations.PrintParseRoundTrip`).
- A gate without a `*` entry makes unnamed datasets fall back to a version that `SupportsGate` never looked at
  (`Snapshots.AdmittedManifestsAreReadable` gives the exact condition).
- A commit under an ordered gate can file a key that is already there, if the same manifest was committed before
  the gate ordered sequences (`Scenarios.OldManifestComesBack`, and `SnapshotIndex.CommitKeyIsFresh` for exactly when).
- `ActivateCapabilities` does not take the lock that `PublishSnapshot` holds. An activation that lands between the
  manifest check and the last metadata read halts every node (`Scenarios.ActivationDuringPublicationHaltsEveryNode`).
  `Publication.ProposalOutcome` gives the exact condition, over the gate that the publisher reads last.
- A put under the bare digest of an intact blob quarantines the intact file, and loses it if the disk fails then:
  only that spelling does (`BlobStores.BareDigestQuarantinesIntactBlob`, `Survival.PutKeepsIntact`).
- A collection pass reads the metadata, then the staged hashes, and then removes files one by one. It can remove blobs
  of a snapshot that is active or about to be in three ways: the publication is committed and ends between the two
  reads; it begins after the second read, while the pass walks; or it has ended and its commit lands later. There is a run
  for each (`Scenarios.StraddlingPassRemovesActiveBlob`, `Scenarios.WalkRemovesNewBlob`, `Scenarios.LateCommitFindsBlobGone`).
  `Survival.RemovalIsExact` is the condition that covers them all, and exactly them.
- Every proposal is stamped with command versions that its proposer reads locally. If an activation changes them before the
  proposal is applied, it halts every node (`Scenarios.StaleStampHaltsEveryNode`; `Proposals.StaleStampHalts` for exactly when).
- Encoding a snapshot compacts JSON values and writes an absent value as `null`; `Restore` does not check
  that the node supports the snapshot's gate, and a ledger from an older binary accepts any payload under a known id
  (`Scenarios.AbsentValueReachesSnapshot` with `Compaction.RestoreOfEncode`, `Scenarios.RestoredNodeLacksGate` with
  `Compaction.RestoredGateIsUnchecked`, and `Compaction.LegacyLedgerAcceptsAnyPayload` give a run and the exact condition).

## Model

| member | source | states |
|---|---|---|
| Replicas.HeterogeneousReplicasRefineIdealRun | consensus.go:138-320 | for every log and every binary, a node's state apart from the fault is a fully capable node's state on the prefix before its first faulting entry, with the same results there and only errors after |
| Replicas.UnfaultedReplicasAgree | consensus.go:138-303 | two unfaulted nodes that applied the same log agree on the state and on every result, whatever their capabilities |
| Replicas.FaultedNodeIsFrozen | consensus.go:158-161 | once faulted, no entry changes the state and every entry reports an error |
| Replicas.FirstFaultExists | consensus.go:305-320 | every run has a first faulting entry or none, so the refinement applies to every log |
| Replicas.UnfaultedStepIsIdeal | consensus.go:138-303 | where a node does not fault it does exactly what a fully capable node does |
| Replicas.ApplyingKeepsGateSupported | consensus.go:280-295 | over every apply-only run, a node that supports the gate it starts from supports the active gate |
| Replicas.ActiveTrafficIsInRange | consensus.go:162-169 | a node that supports the legacy gate can read every command in the active version and every manifest the active gate admits, after any log |
| Runs.StepCases | consensus.go:138-303 | every entry either takes effect, with the next revision and one new ledger line, or leaves everything but the fault unchanged; the second kind reports an error unless it redelivers an applied id. A half-valid batch is of the second kind |
| Runs.RevisionTellsEffect | consensus.go:300-302 | the revision moves if and only if the entry took effect |
| Runs.RunConcat | consensus.go:138-303 | applying a log in two parts is applying it at once, in state and results |
| MetadataFsm.FSM.Apply | consensus.go:138-303 | the in-place state machine leaves the state and returns the result that the step function on values says, in every branch |
| MetadataFsm.FSM.ApplyDigested | consensus.go:174-302 | duplicate, conflict and effect, in this order, change the object as the step function says |
| MetadataFsm.FSM.Dispatch | consensus.go:186-298 | each command type changes the object as its effect on values says, or not at all |
| MetadataFsm.FSM.Commit | consensus.go:236-279 | a snapshot commit refuses, halts or files the manifest under its hash, in the order of the checks |
| MetadataFsm.FSM.PutBatch | consensus.go:226-235 | a batch is written whole if no key is empty, otherwise nothing is written |
| MetadataFsm.FSM.RecordApplyFault | consensus.go:305-320 | the first fault sticks and is in both places that hold it |
| MetadataFsm.FSM.constructor | consensus.go:128-136 | a new machine is empty, unfaulted and on the legacy gate |
| Ledger.LedgerIsOneToOne | consensus.go:174-301 | in every run the applied ids map one to one onto the revisions 1..Revision, which never wrap |
| Ledger.LedgerOnlyGrows | consensus.go:300-302 | no ledger line is ever changed or removed |
| Ledger.EffectWritesLine | consensus.go:300-302 | an entry that takes effect adds its id with the next revision and its digest |
| Ledger.RedeliveryIsExactlyOnce | consensus.go:170-180 | a later redelivery under the active version changes nothing; with the same digest it returns the first revision, with another it is refused |
| Ledger.CompareAndSetSucceedsOnce | consensus.go:181-184 | of all entries expecting one revision at most one takes effect |
| Leadership.OneOwnerPerEpoch | consensus.go:187-204 | over every log each epoch has one term and one owner, terms grow strictly with epochs, no epoch exceeds its term, and an owner exists exactly from epoch 1 on |
| Meaning.LeadershipFollowsLog | consensus.go:187-202 | over every log the recorded term is the largest of the acquisitions that took effect, the owner the node that first acquired it, and the epoch counts the acquisitions that raised the term |
| Meaning.AcquisitionIsExact | consensus.go:192-202 | a delivered, new acquisition takes effect if and only if it names a node and a term at least the largest acquired so far |
| Meaning.LocalCheckIsExact | node.go:1969-1993 | a node passes the local check if and only if it leads its Raft group with a fresh quorum, is unfaulted and capable, and the leading acquisition of its log is its own in the current term |
| Meaning.LastWriteWins | consensus.go:214-235 | over every log a key holds what the last effective put or batch that names it wrote, and no key holds anything else |
| Meaning.WriteIsExact | consensus.go:203-235 | a due write of the current leader takes effect if and only if it names its keys: a put a key, a batch at least one and no empty one |
| Meaning.GateIsLastActivation | consensus.go:280-295 | over every log the gate is the normalized one of the last effective activation, and the legacy gate before the first |
| Meaning.ActivationIsExact | consensus.go:288-295 | a due activation takes effect if and only if the gate names no empty dataset and the node supports it, and halts the node if and only if only the support is missing |
| Meaning.NextSequenceIsExact | consensus.go:250-279 | a due, stamped and admitted commit takes effect under an ordered gate if and only if its sequence is one above the active one, the first being 1, and always under any other gate |
| Meaning.HaltIsExact | consensus.go:138-169 | an unfaulted node halts if and only if the data is no command, has no id, is of versions not active or not spoken, or is current and of an unknown type or poison; the fault names the entry and the error |
| Meaning.ReplyIsExact | consensus.go:174-184 | replies carry the new epoch, and the new revision unless they answer for an applied id; a command that expects another revision is told both |
| Meaning.UnversionedIsLegacy | consensus.go:150-155 | a command without versions does what the same command of version 1 does |
| Meaning.DigestTellsCommand | consensus.go:395-423 | commands with one digest agree in type, expected revision, epoch, versions and payload, or SHA-256 collides on them |
| Leadership.LeadersOfOneEpochAreOneNode | node.go:1969-1993 | two nodes on prefixes of one log that both pass the local check in one epoch or one Raft term are the same node |
| Leadership.SupersededLeadersAreFenced | consensus.go:203-283 | no put, batch, commit or activation with a superseded epoch, or epoch 0, ever takes effect |
| SnapshotIndex.IndexIsSound | consensus.go:236-279 | in every reachable state the active snapshot resolves, every key is its manifest's embedded and computed hash, manifests belong to this cluster and to no later epoch; the active epoch never goes back and the index is append-only unless two committed manifests collide |
| SnapshotIndex.ActiveManifestIsNeverMissing | consensus.go:252-258 | the fault for an active snapshot without a manifest is unreachable |
| SnapshotIndex.ActiveIndexAdvances | consensus.go:277-279 | a commit moves the active index strictly forward, nothing else moves it |
| SnapshotIndex.StepOnIndex | consensus.go:236-279 | a commit that takes effect files a manifest that passed the sequence rule and makes it active; every other entry leaves the index alone |
| SnapshotIndex.CommitsAreConsecutive | snapshot.go:48-60 | while the gate orders sequences, commits carry s0+1, s0+2, ... across leaders with no gap, repeat or wrap, and epochs never decrease |
| SnapshotIndex.CommitKeyIsFresh | consensus.go:250-279 | unless two manifests collide, a commit in an ordered segment adds a new key if and only if the key was not there when the segment began |
| Compaction.CompactionPreservesRuns | consensus.go:425-469 | for every log and every split with an unfaulted prefix, snapshot, encode, restore into a fresh node and apply the suffix: same results and same state up to JSON compaction of values, exactly the same when values were compact |
| Compaction.RestoreOfEncode | consensus.go:433-469 | restoring an encoded unfaulted state succeeds and returns it with compacted values: the same state if and only if all values were compact |
| Compaction.SnapshotIsNormal | consensus.go:481-508 | a snapshot carries no fault and a normalized gate, and each of its values was written by the encoder |
| Compaction.RunIgnoresCompaction | consensus.go:138-303 | states that differ only by compaction of values give the same results on every log and stay so related |
| Compaction.RestoreSnapshot | consensus.go:433-469 | in place, a restore either replaces the state by the decoded one or reports why not and changes nothing |
| Compaction.RestoreIsExact | consensus.go:433-448 | a restore succeeds if and only if the snapshot is of this cluster and its ledger decodes |
| Compaction.RestoreKeepsNodesHalted | consensus.go:455-466 | a fault in the snapshot wins, without one the node keeps its own; a node that is halted after a restore applies nothing, reports an error for every entry and takes no snapshot |
| Histories.HaltedStaysHalted | consensus.go:455-466 | over every history of entries, snapshots and installations a halted node stays halted until it starts anew, with the same fault until it installs a snapshot that carries one |
| Histories.NoSnapshotCarriesFault | consensus.go:425-432 | among snapshots that nodes take, none ever carries a fault |
| Histories.HaltedNodeRefuses | consensus.go:158-161 | a halted node changes nothing on an entry, reports an error and takes no snapshot |
| Compaction.SnapshotsOfReplicasAgree | consensus.go:425-432 | all snapshots that nodes of any binaries take after one log are the same, and a node that can take one could have taken one after every shorter log |
| Histories.MixedHistoriesAreIdeal | consensus.go:425-469 | after any history of starts, entries, snapshots and installations among nodes of any binaries, a node without a fault is in the ideal state of its position up to compaction of values, and its snapshot index is sound |
| Histories.NodesOfOnePositionAgree | consensus.go:425-469 | two such nodes at one position hold the same state but for compaction of values, whatever brought them there |
| Histories.ApplyingMatches | consensus.go:138-303 | and an entry that leaves such a node without a fault gives the result it gives in the ideal run |
| Scenarios.AbsentValueReachesSnapshot | consensus.go:481-487 | a log of two entries after which a node that applied it holds the empty value and a node restored from its snapshot holds `null` |
| Compaction.RestoredGateIsUnchecked | consensus.go:433-468 | a restored node supports its active gate if and only if it supports the gate in the snapshot |
| Scenarios.RestoredNodeLacksGate | consensus.go:433-468 | a concrete node of an old binary that halts when it applies a log, but restores the snapshot of the same log without a fault and does not support its own gate |
| Compaction.LegacyLedgerAcceptsAnyPayload | consensus.go:51-78 | after restoring any snapshot, a known id is refused if and only if the snapshot kept a digest for it that differs; a ledger without digests reports the old revision whatever the payload |
| Ledger.StepOnKnownId | consensus.go:174-180 | in every state a delivered known id changes nothing and is refused if and only if its line has a digest that differs; otherwise it reports the revision of its line |
| Ledger.RevisionDeterminesState | consensus.go:300-302 | along one log two states with the same revision are the same apart from the fault |
| MembershipSafety.GateSafety | node.go:586-633 | in every reachable state, over joins, removals, activations, abandoned changes and leader crashes, every voter supports the active gate and some voter may lead under it |
| MembershipSafety.MembershipConsistency | node.go:1338-1415 | in every reachable state Raft servers are members or the join target, members are servers or the remove target, members never drop below `BootstrapExpect`, and with no active operation both lists are the same voters |
| MembershipSafety.MoveKeeps | node.go:1143-1229 | every step of every handler, of Raft and of a failing leader keeps the whole invariant |
| MembershipSafety.RunKeeps | node.go:1143-1426 | so does every run |
| MembershipSafety.InitHolds | node.go:293-303 | the bootstrapped cluster satisfies the invariant |
| MembershipSafety.ChangeAppliesKeeps | node.go:1465-1489 | a configuration change that takes effect keeps the invariant, whether its caller still waits or has given up |
| MembershipSafety.ChangeHoldsLock | node.go:1465-1489 | a change in flight holds the configuration lock until it ends, awaited or abandoned, and meanwhile nothing else changes the configuration or publishes |
| MembershipSafety.ChangeTakesEffect | node.go:1447-1463 | a change that takes effect makes exactly the configuration it asked for, frees the lock and lets its caller go on if it still waits |
| MembershipSafety.ChangeThatFails | node.go:1475-1488 | a change that fails frees the lock, changes nothing and ends its caller if it still waits |
| MembershipSafety.LateChangeIsNoChange | node.go:1474-1489 | a change left behind by an operation that is over cannot change the configuration any more |
| MembershipSafety.ActivateKeeps | node.go:596-617 | a new gate keeps the invariant: it was checked against the voters that still are the voters |
| MembershipOutcomes.ActivationInstallsGate | node.go:586-617 | an idle leader can start an activation if and only if no operation is active, the gate names no empty dataset and the voters accept it; its next step installs the normalized gate and changes nothing else |
| MembershipOutcomes.JoinCompletes | node.go:1179-1229 | from every reachable idle state, a join that is started and not interrupted ends with the new node a member as it was given and a voter, and everything else as it was |
| MembershipOutcomes.RemovalCompletes | node.go:1143-1177 | from every reachable idle state, a removal that is started and not interrupted ends with the node neither a member nor a server, and everything else as it was |
| MembershipOutcomes.MembersStayComplete | node.go:1185-1187 | no member without an id, a Raft address or an internal URL ever gets into the list |
| MembershipOutcomes.PromotionIsChecked | node.go:1338-1376 | in any state, a join asks for a voter only if the joining node reports capabilities for the active gate, starts only if the recorded ones suffice, and writes only if its leader leads |
| MembershipOutcomes.TakeoverIsExact | node.go:1969-1993 | a node takes over if and only if it is a voter capable of leading under the active gate, with no handler and a free lock |
| MembershipOutcomes.HandlersStartAtLeader | node.go:1143-1201 | handlers start one at a time and only at a leader that may lead: a reconcile while an operation is active, all others while none is |
| MembershipSafety.BeginKeeps | node.go:1271-1283 | recording an operation keeps the invariant |
| MembershipRecovery.BeginnerStaysEligible | node.go:1150-1176 | over every run, the leader that began an operation may lead as long as the operation is active: it is never the node that the operation removes |
| MembershipRecovery.EligibleVoterStays | node.go:1311-1415 | so may every voter that may lead while an operation is active and does not remove it |
| MembershipRecovery.EveryOperationCanFinish | node.go:1311-1415 | from every reachable state with an active operation there is a run that completes it: some voter may lead and is not being removed |
| MembershipRecovery.ReconcileCompletes | node.go:1338-1415 | from every crash point, the uninterrupted reconcile of a leader other than the removed node, move by move, completes the operation with the member list it asked for, in a bounded number of moves |
| MembershipRecovery.ReconcileIsNeverRefused | node.go:1417-1426 | a running reconcile waits for the lock, for Raft and for the joining node to report that it caught up, and is never refused: no write meets a command id that was applied before and no capability check fails |
| MembershipRecovery.PhasesMoveForward | node.go:1417-1426 | over every run an operation that is still recorded has kept everything but its phase, which only moved forward |
| MembershipRecovery.OldOperationStaysGone | node.go:1271-1283 | over every run an operation that was replaced never returns |
| MembershipRecovery.StepAdvances | node.go:1271-1283 | an operation is replaced only when it is over, by one with a new id; applied ids stay applied |
| MembershipRecovery.ActivationHaltsNoServer | node.go:619-633 | an activation that passed its checks is accepted by the state machine of every server of the configuration |
| ConfigurationLock.LockIsReleasedOnce | node.go:1465-1489 | over every interleaving of callers, workers and drainers, nobody unlocks a free mutex, the lock is held if and only if some call owes the unlock, one call at most owes it, and in it the caller or its drainer but not both; so it is free once all have ended |
| ConfigurationLock.EveryLockIsReleased | node.go:1465-1489 | over every run each call released the lock as often as it took it, but for the debt it still has |
| ConfigurationLock.StepKeeps | node.go:1475-1488 | every step, either choice of a `select` with both cases ready included, keeps the result in the channel exactly as long as somebody waits for it |
| ConfigurationLock.SelectMayChooseEither | node.go:1476-1488 | a waiting caller may always give up, receives if and only if the result is there, and with both ready may do either |
| ConfigurationLock.SendNeverBlocks | node.go:1474-1475 | the worker of a change is never stuck in its send, cancelled or not |
| ConfigurationLock.OwnerFreesLock | node.go:1475-1488 | from every reachable state the goroutines of the call that holds the lock free it in at most three steps of their own, once Raft ends the change |
| ConfigurationLock.StepsRefineView | node.go:1465-1489 | seen from the membership protocol these goroutines are one lock value: taken when free, no longer awaited after a cancellation, given back when the change ends |
| MembershipRecovery.PublicationSeesOneConfiguration | node.go:697-698 | while a publication holds the lock, no step changes the configuration or its index |
| MembershipWrites.CommandIdsDiffer | node.go:1417-1426 | command ids built from operation id and phase name are distinct for distinct pairs, although operation ids contain slashes |
| MembershipWrites.WriteTakesEffectOnce | node.go:546-584 | a membership write at the current revision and epoch changes the named keys if and only if its id is new, otherwise nothing |
| MembershipWrites.WriteIsOneEntry | node.go:1417-1426 | on a state machine that holds the protocol's durable state, each write of the protocol is one log entry that leaves the durable state of the protocol's own step, or nothing when the id was used |
| MembershipWrites.MoveWritesAtMostOnce | node.go:1338-1415 | apart from the Raft configuration, a move of the protocol changes the durable state by one such write, by one activation, or not at all |
| MembershipWrites.ActivationIsOneEntry | node.go:606-616 | an activation is one log entry that replaces the gate of the durable state by the normalized one |
| MembershipWrites.ForeignEntryKeepsDurable | consensus.go:138-303 | every other entry of the log, accepted, refused or halting, leaves the protocol's durable state alone |
| MembershipLog.RunIsLogged | node.go:487-584 | every run of the protocol is the effect of a log, the first leader's two entries and at most one more per move: after it a node that supports everything is unfaulted, knows the protocol's leader and holds exactly the protocol's durable state |
| MembershipLog.FirstLeaderIsLogged | node.go:487-514 | the acquisition of leadership and the first write of `cluster/members` give the durable state that the protocol starts from |
| Membership.ValidateCapabilityActivationVoters | node.go:619-633 | the scan accepts if and only if every voter supports the gate and one with a name supports it as leader |
| BlobStores.StoreRefinesMap | snapshot.go:214-453 | over every sequence of puts, outside damage and collections in which no two of the blobs in play share a digest, the undamaged files are what a plain map from digest to bytes would hold |
| BlobStores.CollisionFreeDigestExists | snapshot.go:474-476 | for any blobs, as long as there are enough digests, some function to 64 hexadecimal digits has no collision among them, so the condition above can be met |
| BlobStores.ReadIsLookup | snapshot.go:309-339 | a read succeeds if and only if the hash is canonical and in the plain map, and then returns the map's bytes |
| BlobStores.StoresAgree | snapshot.go:404-411 | two stores that both read a hash return the same bytes, or two blobs that collide |
| BlobStores.BlobStore.PutHash | snapshot.go:341-402 | success means the data has the hash and is stored and no other file was touched; a mismatch changes nothing; a file that verifies is never touched; succeeding or failing, every old file is still there or was added to quarantine under its name with its bytes, and nothing else was |
| BlobStores.BlobStore.Put | snapshot.go:214-273 | success returns the canonical hash of the data, which then reads; only that file may have changed, and its old bytes are there or in quarantine |
| BlobStores.BlobStore.Store | snapshot.go:252-273 | the locked tail keeps a file that verifies and moves any other of that name to quarantine, bytes and all, before it places the new one, with a disk that may fail at every step |
| BlobStores.BlobStore.Quarantine | snapshot.go:275-295 | the file moves to quarantine with its name and content, or nothing changes |
| BlobStores.BlobStore.GC | snapshot.go:419-453 | a complete walk removes exactly the files with a digest-long name that are not retained, an incomplete one never loses any other file; the count is exact |
| BlobStores.BareDigestQuarantinesIntactBlob | snapshot.go:324-326 | a put of bytes whose file is intact moves nothing to quarantine if and only if the hash is spelled with its prefix |
| Retention.SnapshotKeeper.RetainStagingBlobs | node.go:1023-1031 | after retaining, each counter is the total multiplicity over the publications in progress, a key present exactly when positive |
| Retention.SnapshotKeeper.ReleaseStagingBlobs | node.go:1033-1045 | releasing one publication takes back exactly what it added |
| Retention.SnapshotKeeper.RetainedHashes | node.go:995-1014 | the pass retains exactly the staged hashes and the references of the manifests it keeps |
| Retention.SnapshotKeeper.GcSnapshotBlobs | node.go:988-1021 | a pass over metadata that may be old touches no file of a publication in progress now nor of a manifest that was active, unexpired or among the newest in that metadata, even when it fails midway; one that does not fail leaves no other file |
| Retention.KeptMayBeServed | node.go:1002-1005 | a pass keeps no manifest that is inactive, expired and not among the newest for some way to break ties |
| Retention.ReferencesAreExact | node.go:1006-1013 | an accepted manifest references the one blob or all the shards of each dataset, and the blob it had before, and nothing else |
| Retention.SnapshotKeeper.SortNewestFirst | node.go:990-994 | the manifests in some order from newest to oldest, each once |
| Retention.ServedIsRetained | node.go:1002-1014 | every reference of a served manifest is retained, whichever way the sort breaks ties |
| Retention.VisitAnyOrder | node.go:1023-1031 | the counts do not depend on the order in which the datasets are visited |
| Survival.ProtectedBlobSurvives | node.go:988-1045 | over every interleaving of publications, incoming blobs, applied entries and passes, whose two reads and single removals are separate steps, an intact blob stays intact as long as each walking pass had found it staged or served and no put under its bare digest fails |
| Survival.PutKeepsIntact | snapshot.go:341-402 | an intact file stays intact however a put goes if and only if the put is not a failing one of its bytes under the hash without prefix |
| Survival.EventKeepsIntact | snapshot.go:341-453 | an intact file stays intact however an event goes if and only if the event is neither a failing put under its bare digest nor its removal by a pass that does not retain it |
| Survival.RemovalIsExact | node.go:988-1021 | a pass can remove a blob of a publication if and only if it read the staged hashes outside the publication, and read the metadata before the commit or skips the manifest, and nobody else needs the blob |
| Survival.ThreatIsExact | node.go:988-1045 | so an intact blob of a publication stays intact in every way an event can go if and only if the event is no such removal and no failing put under its bare digest |
| Survival.PublishedBlobsSurvive | node.go:718-752 | over every run, with the commit before or after the publisher returns and with later commits, a blob of a publication stays in place as long as no event threatens it |
| Survival.PublishedBlobsSurviveHandover | node.go:718-752 | hence there is no gap from staging through the commit and later commits, as long as every pass read the staged hashes during the publication, or the metadata after the commit while the manifest was active, unexpired or among the newest |
| Survival.ServedIsCovered | node.go:1002-1014 | after the commit the manifest is filed in all metadata read later, and a pass that reads it while it is served covers the publication, however many commits came since |
| Survival.ActiveIsInTime | node.go:1002-1014 | until the next commit every pass that reads the metadata after this one is such a pass |
| Survival.CommitStaysActive | consensus.go:236-279 | from its commit on, and until another one, the manifest is the active one |
| Survival.CommitStaysFiled | consensus.go:236-279 | from its commit on, and for ever, the manifest is filed under its hash, unless another one collides with it |
| Scenarios.StraddlingPassRemovesActiveBlob | node.go:988-1000 | a run in which a publication is committed and ends between the two reads of a pass, which then removes the blob of the active snapshot |
| Scenarios.WalkRemovesNewBlob | node.go:1015-1020 | a run in which a publication begins while a pass walks: the walk removes the blob it just put, and the commit activates a manifest without it |
| Scenarios.LateCommitFindsBlobGone | node.go:527-530 | a run in which the publisher gives up, a pass removes the blob, and the entry commits all the same |
| Publication.PublishSnapshot | node.go:693-753 | a commit is proposed only for the stamped, valid manifest that was admitted when checked, after a strict majority of the voters of the stamped configuration held every blob and the configuration index was unchanged; otherwise the failure is the first check that failed, refused manifests leave the store alone, and staging is given back on every path |
| Publication.PublishStaged | node.go:720-752 | every failure after the checks has its cause and no cause is passed over; done or given up, every old local file is still there or in quarantine, and every new one is a blob that was given |
| Publication.PutBlobs | node.go:721-725 | success means that every given blob has the digest its hash names and is in place undamaged |
| Publication.ReplicateSnapshotBlobs | node.go:862-883 | success if and only if a strict majority of distinct voters, and this node if it votes, held every blob when it acknowledged |
| Publication.ReplicateManifestToPeer | node.go:1081-1098 | an acknowledgement means the peer and this node hold every blob of the manifest |
| Publication.PutBlobToPeer | node.go:1100-1127 | a success reply means the blob verifies at the peer and nothing that verified before was lost |
| Publication.VerifyManifestBlobs | node.go:1064-1079 | the scan accepts if and only if every blob of the manifest verifies |
| Publication.MajoritiesIntersect | node.go:862-883 | every other majority of the same voters contains one that acknowledged |
| Publication.ProposalOutcome | node.go:741-751 | wherever and by whatever binary a proposal is applied, it halts the node if and only if nothing was applied since the metadata was read and the gate read there does not admit the manifest, or an activation since then changed the command versions; it takes effect if and only if nothing was applied since and that gate admits it |
| Proposals.StaleStampHalts | consensus.go:166-168 | any command stamped with the versions its proposer read halts the node that applies it if and only if an activation in between changed the command versions, or it is current there and is a manifest that the gate does not admit or a gate that the node does not support |
| Proposals.RevisionFixesPoison | consensus.go:181-184 | where a command that expects the revision its proposer read is current, the state is the very one that was read |
| Scenarios.StaleStampHaltsEveryNode | node.go:546-562 | a run in which a put stamped before an activation of new command versions halts every node |
| Reads.GenerationReadsAgree | node.go:794-840 | any two nodes that open the same dataset or shard at the same generation return the same bytes, or exhibit a collision of SHA-256, whatever they applied and whatever their stores went through |
| Reads.ReadsAreExact | node.go:794-815 | over every log a dataset reads as some bytes if and only if the log committed a manifest of exactly this generation with the dataset in one piece and the bytes are the undamaged blob it names, provided no two committed manifests collide |
| Reads.ShardReadsAreExact | node.go:817-840 | the same for the first shard of a key, which in an accepted dataset is the only one |
| Reads.DatasetReadIsExact | node.go:794-815 | in every state with a sound index: which bytes a dataset reads as, and when it is not found or sharded |
| Reads.IndexIsTheCommits | consensus.go:274-279 | in every reachable state the index holds exactly the manifests that the log committed, as long as no two of them collide |
| Reads.LookupsAgree | node.go:764-767 | two sound indexes file the same manifest for a generation, or two manifests that collide |
| Snapshots.ValidateManifest | snapshot.go:126-178 | the loops accept exactly the well-formed manifests: unique non-empty shard keys, valid hashes, one storage form, totals equal modulo 2^64 |
| Snapshots.AcceptanceIsExact | snapshot.go:126-178 | what acceptance says: embedded names, counts that are not negative, hash forms, one blob or shards, as many keys as shards, and totals modulo 2^64 |
| Snapshots.HashFormIsExact | snapshot.go:463-472 | a hash is 64 hexadecimal digits of either case, alone or after the prefix |
| Snapshots.ValidateShards | snapshot.go:153-175 | the shard loop with its seen-set and wrapping sums decides well-formedness and the totals |
| Snapshots.AcceptedTotals | snapshot.go:169-175 | for an accepted dataset the declared totals are the true sums if and only if the true sums are below 2^63 |
| Snapshots.WrappedTotalsAreAccepted | snapshot.go:169-175 | a concrete accepted dataset whose declared total is not the true sum |
| Snapshots.DatasetBlobHashes | snapshot.go:86-100 | the hashes of the chosen storage form, in order |
| Snapshots.NoShardHashDropped | snapshot.go:86-100 | no shard hash of a well-formed list is dropped |
| Snapshots.AcceptedBlobHashes | snapshot.go:86-100 | for an accepted dataset the result is precisely the single blob hash or every shard hash |
| Snapshots.FindShard | node.go:817-840 | the scan returns the shard with the key if there is one; in an accepted dataset it is the only one |
| Snapshots.AdmittedManifestsAreReadable | snapshot.go:102-121 | a node that supports a gate can read every manifest it admits if and only if the gate has a `*` entry or the node reads the legacy dataset schema |
| Snapshots.AdmissionIsExact | snapshot.go:102-121 | a gate admits the manifests of its schema whose datasets have the version it gives that dataset, else every dataset, else the legacy one, a missing version being 1 |
| Snapshots.HashDeterminesManifest | snapshot.go:190-198 | two manifests that embed the same hash as their own are equal or collide |
| Generations.PrintParseRoundTrip | node.go:842-860 | parsing a printed generation of this cluster returns it if and only if the cluster id has no slash and the hash has the sha256 prefix |
| Generations.ParseIsExact | node.go:842-860 | the parser accepts exactly this node's cluster without a slash, two decimal numbers below 2^64 with or without leading zeros, and a hash with its prefix |
| Generations.PrintIsInjective | snapshot.go:36-38 | printing is injective on those generations |
| Generations.DecimalRoundTrip | node.go:847-854 | every `uint64` is parsed back from its decimal digits |
| Capability.NormalizeCapabilityGate | capability.go:74-104 | the field by field normalization gives every zero its legacy value |
| Capability.NormalizedIsStable | capability.go:74-104 | normalization is idempotent, leaves no zero, and the result is valid if and only if no dataset name is empty |
| Capability.NormalizationKeepsWhatIsSet | capability.go:74-104 | every field that is set keeps its value, every other reads as the legacy one, and so do the datasets |
| Capability.SupportIsExact | capability.go:135-151 | a node supports a gate for a role if and only if it has the level that the role asks for and every version in its range, a missing one being 1 |
| Capability.CapabilityGatesEqual | capability.go:117-133 | the one-sided scan decides equality of the normalized gates |
| Scenarios.OldManifestComesBack | consensus.go:250-279 | a run after which an ordered commit takes effect although its key is already filed |
| Scenarios.ActivationDuringPublicationHaltsEveryNode | node.go:693-753 | a run in which a manifest admitted when it was checked halts every node, because an activation came before the proposal read the metadata |

## Left out

- Raft itself, BoltDB and Raft's snapshot store: a shared log, applied prefixes and an atomic configuration stand for them.
- An uncommitted configuration that a new Raft leader rolls back: a change in the model happens once and for good, or not at all.
- JSON text: payloads, snapshots and the operation record are decoded values; a nil and an empty dataset map are the same value. In the program they are not: `cloneManifest` turns a nil map into an empty one, so after a restore such a manifest reads `{}` instead of `null` and no longer hashes to the key it is filed under.
- The sidecar file that keeps an apply fault across restarts (consensus.go:334-393), file sync, temporary files and the path layout. The documentation names `cas/objects`; the code's layout is not modelled either way.
- TLS, certificates, HTTP routing, proxying and header copying: peers' replies are arbitrary.
- Wall-clock liveness and readiness texts; time is a parameter of the pin rule only.
- Leadership subscription channels (node.go:1921-1959) and the peer registry with its pending members (node.go:1616-1652).
- Configuration defaults, address validation and durations (config.go, duration.go).
- The background pull of missing blobs by followers (node.go:927-986): on the store it is another put.
- The lock map of the blob store (snapshot.go:297-307): puts and passes are atomic on one node. The lock is keyed by the spelling of the hash, so two spellings of one digest do not exclude each other in the program.
- Publication.ReplicateSnapshotBlobs: states durability at the moment of each acknowledgement; what a peer does with the blob afterwards is the subject of its own passes.
- The revision and the command versions of a proposal come from two metadata reads (node.go:746-747); they are taken as one.
- Retention.SnapshotKeeper.GcSnapshotBlobs: runs a pass without interruption, over metadata that may be old. `Survival` takes the two reads and every removal of a pass as separate steps.
- Removals by a walk are single steps in any order, and a walk may remove a name more than once; the program visits each directory once.
- MembershipLog.RunIsLogged: leadership and activation entries have ids of the proof's choice that name no operation; the program's `acquire/<term>/<node>` would name one if a node were called like a phase.
- Blobs that a follower received for a commit still to come are not staged there: they are protected once the manifest is active.
- The configuration lock of a deposed leader: `Membership` gives each leadership a free lock of its own. `ConfigurationLock` follows the lock of one node through its whole life.
- Replicas.ApplyingKeepsGateSupported: covers apply-only runs; a restored snapshot may bring a gate that the node does not support.
- Reads that name no generation and strict reads with a quorum check (node.go:769-792, node.go:1834-1919): the first is the same lookup at the active generation, the second is I/O.
