# Verified model of the pending-transaction core

A Dafny model of the parts of the repository that have to agree with each other about
pending transactions, with proofs of what they keep. Run `dafny verify dfyconfig.toml` to
check it.

## What is modelled

**Scheduler** (`SchedulerModel`, `Scheduler`, `NonceGap`, `Fees`, `Counting`, `Transitions`,
`Decisions`, `History`). A hash-to-transaction map and one nonce queue per sender. A queue is
Ready up to its first missing nonce and Blocked after it; a taken slot changes hands only for
a bid at or above a fee threshold. `Decisions` reads each decision off the fields of the
transactions, the queues and the configuration. `SchedulerModel` says what one admission does
to values, the class in `Scheduler` does it in place, one actor command at a time, with
incrementally maintained counts, and is proved to follow it. `Handoff` holds the candidates,
their generations and the rule by which a simulation result is accepted.

**Replay** (`EventLog`, `EventOrder`, `Mempool`, `MempoolMachine`, `ReplayFrames`). A second
machine, written independently in the repository, that rebuilds the queues from logged
events, and the frames, checkpoints and parity report built on it.

**The bridge between them** (`LogRefinement`, `Worker`). The order in which one worker
appends events for one admission, and the main result: replaying the log gives back what
the scheduler holds.

**Restarts** (`Snapshot`, `Rejections`, `Sanitize`, `Recovery`, `Rehydration`,
`Accounting`, `Restart`, `Bootstrap`, `Reorged`). Persisted snapshots, their restoration or
rejection, sanitising by the events above the watermark, and recovery when snapshot and
replayed events overlap. `Recovery` proves it for lists of submissions, `Rehydration` for
the logged events, cut at any point, `Bootstrap` for what a ring of any capacity still
retains, `Reorged` for logs with reorgs among the events. `Rejections` says which snapshots
are rejected, and for what. `Accounting` is about the admission counters.

**Resuming a replay** (`Resume`, `CheckpointResume`, `ResumeLog`, `ResumeLabels`,
`ResumeFrames`, `ResumeReturns`, `ResumeAdmissions`). A resumed state knows neither the slots
of the transactions it was seeded with, nor their labels, nor what was confirmed before.
`Resume` and `CheckpointResume` prove when it shows the same transactions in the same slots
all the same; `ResumeLog` and `ResumeReturns` read that condition off the log; `ResumeLabels`
and `ResumeFrames` add the labels, on any log; `ResumeAdmissions` proves that they come right
by themselves on the logs of admissions.

**Storage and lifecycles** (`EventStore`, `EventPages`, `Tables`, `Features`, `Lifecycle`).
The ring of events and its sorted index, the paging loop over it, the bounded tables with
their counts, and the agreement of the status rows with the replayed status.

**Block assembly and simulation requests** (`Assembly`, `AssemblyMachine`, `AssemblyLaws`,
`SimulationRequest`). `AssemblyLaws` says in the candidates' own fields what the engine does.

Conventions: hashes, addresses, candidate ids and source ids are naturals, which is the
order of the byte strings they stand for; `usize` is 64 bits wide; a B-tree map is a `map`
whose keys are visited in ascending order (`Ordered`); `u64` and `u128` arithmetic is
bounded and saturates where the code saturates. A definition whose last argument counts
elements speaks of the first that many.

Terms used in the hypotheses: a bid is in the raising range when bump and fee are at least
one and 10000 times the fee is below the largest `u128`, and hashes name one transaction
when no two submissions share a hash but differ. The recovery results assume only that
hashes name one transaction. The raising range is assumed where a transaction admitted again
on its own, or one that returns, would break the statement: `History.ReadmissionIsNoOp`,
`RefusedFromThenOn`, `SlotChain` and `ReplacementsAreBounded`, `Rehydration.RemovalIsRefilled`
and `RemovedNeverReturns`, and `Reorged.ReorgsAreHarmless`.
`History.ReadmissionChangesOutsideRange` and `Reorged.ReplacedReorgIff` show what happens
without it.

A log records a run when, leaving out events without lifecycle effect and *foreign* ones
(drops at a full ingress queue, confirmations), it lists the events of the run's admissions.

## A comment that says more than the code does

`crates/scheduler/src/lib.rs:522-524` says that replacement accounting is rebuilt exactly as
during live ingest. Pending transactions and queues are; the admission counters restart at
zero and count only the re-admitted transactions, so they equal the live ones only after a
restart from nothing that re-admits everything (`Accounting.RestartedTotalsIff`).

## Properties that fail

- Sanitising often defeats the snapshot it is meant to clean: a single transaction replaced
  inside a ready run after the snapshot makes the restored frontier differ from the recorded
  one, and the snapshot is rejected (`Rehydration.ReplacementInsideRunRejects`, and
  `Rehydration.RejectedSnapshot` for one concrete run). `Sanitize.SanitizedRestore` says
  exactly when.
- A restart that replays the reorg of a transaction the run had refused can end with that
  transaction in place of the run's own (`Reorged.RefusedReorgFails`, and
  `Reorged.RefusedReorgIff` for every contest of three bids for one slot). For reorgs of
  transactions the run had admitted `Reorged.ReorgedRestartIff` says exactly when a restart
  recovers it.
- A resumed replay misses reorgs whose confirmation, or whose place in the queue, it has
  forgotten (`ResumeLog.ForgottenIsMissed`); `ResumeReturns.TailReorgsIff` says exactly which.
- The ring may evict the decoding of an admission above the watermark without asking for a
  rebuild (`Bootstrap.EvictedAdmissionIsLost`); `Bootstrap.BootstrapRecoversIff` says exactly
  when that does harm.

## Model

| member | source | states |
|---|---|---|
| `NonceGap.LabelRule` | crates/scheduler/src/lib.rs:1127-1148 | an entry is Ready exactly when every nonce from the queue's lowest up to it is present; every Blocked entry expects the same nonce, the first one missing |
| `NonceGap.StepFollowsRule` | crates/scheduler/src/lib.rs:1127-1148 | one step of the two-variable cursor gives the declarative label and keeps the cursor right, including at nonce 2^64 - 1 |
| `NonceGap.VisitNext` | crates/scheduler/src/lib.rs:1056-1078 | each turn of an ascending traversal labels its entry by the declarative rule |
| `NonceGap.SkipNext` | crates/replay/src/mempool_state.rs:542-574 | a traversal that skips non-pending entries labels the others by the rule among the live ones only |
| `Fees.ThresholdRaisesIff` | crates/scheduler/src/lib.rs:1150-1170 | a replacement must strictly outbid its incumbent exactly when bump and fee are at least one and 10000 times the fee stays below the largest u128 |
| `Fees.ThresholdMonotone` | crates/scheduler/src/lib.rs:1150-1159 | a higher incumbent bid never lowers the threshold |
| `Fees.ThresholdNeverFalls` | crates/scheduler/src/lib.rs:1150-1159 | whatever may replace a bid is at least as hard to replace itself, saturated products included |
| `Fees.ThresholdScales` | crates/scheduler/src/lib.rs:1150-1159 | below saturation the threshold is at least the bid times (10000 + bump) / 10000 |
| `SchedulerModel.AdmitKeepsInvariants` | crates/scheduler/src/lib.rs:761-848 | every admission keeps queued entries pending in their own slot, and keeps every pending transaction queued if it was so before |
| `SchedulerModel.RunKeepsBijection` | crates/scheduler/src/lib.rs:761-848 | over every run each queued hash is pending under that sender and nonce and each pending transaction is queued there |
| `SchedulerModel.AdmitIsPut` | crates/scheduler/src/lib.rs:790-847 | an admitted transaction was not pending, and exactly the former occupant of its slot, if any, leaves the pending map |
| `Scheduler.SchedulerState.Admit` | crates/scheduler/src/lib.rs:761-848 | one admission: new pending map, queues, counters and reported transitions are those of the specification; the cached counts stay exact; the missing-incumbent branch is unreachable |
| `Scheduler.SchedulerState.AdmitToOccupiedSlot` | crates/scheduler/src/lib.rs:777-826 | an occupied slot is replaced or the newcomer refused, by the fee threshold alone |
| `Scheduler.SchedulerState.ReplaceIncumbent` | crates/scheduler/src/lib.rs:797-817 | replacement removes the incumbent, puts the newcomer in the same slot and counts both an admission and a replacement |
| `Scheduler.SchedulerState.AdmitToFreeSlot` | crates/scheduler/src/lib.rs:829-847 | a free slot is filled unless the sender's queue is at its limit |
| `Decisions.OccupiedSlotDecision` | crates/scheduler/src/lib.rs:790-826 | at an occupied slot a fresh submission replaces the incumbent exactly when ten thousand times its bid reaches the incumbent's bid times ten thousand and the bump, capped at the largest u128; types 0 and 1 bid their gas price, any other type its max fee or else its gas price, and a missing bid is zero |
| `Decisions.MaxFeesDecide` | crates/scheduler/src/lib.rs:1150-1170 | between two later-type transactions with max fees only these decide, whatever their gas prices |
| `Decisions.GasPricesDecide` | crates/scheduler/src/lib.rs:1150-1170 | between two transactions of types 0 and 1 only the gas prices decide, whatever their max fees |
| `Decisions.FreeSlotDecision` | crates/scheduler/src/lib.rs:829-847 | at a free slot a fresh submission is admitted exactly when its sender has fewer queued than the limit |
| `Decisions.DuplicateIff` | crates/scheduler/src/lib.rs:766-773 | a submission is refused as a duplicate exactly when its hash is pending, before anything else is looked at |
| `Decisions.AdmittedState` | crates/scheduler/src/lib.rs:797-847 | an admission changes the submitted and the replaced hash and the one slot, and nothing else; a refusal changes nothing |
| `Scheduler.SchedulerState.RefreshSenderCounts` | crates/scheduler/src/lib.rs:1029-1044 | takes a sender's old counts out of both totals and adds a fresh classification, without clamping |
| `Scheduler.SchedulerState.RecomputeQueueCounts` | crates/scheduler/src/lib.rs:1046-1054 | recounting every sender makes all cached counts and totals exact |
| `Scheduler.CountQueue` | crates/scheduler/src/lib.rs:1104-1124 | the counting traversal returns the numbers of Ready and Blocked entries by the declarative rule |
| `Scheduler.PositionsInQueue` | crates/scheduler/src/lib.rs:1056-1078 | the position traversal lists the queue in nonce order with declarative labels |
| `Scheduler.ClassifyQueue` | crates/scheduler/src/lib.rs:955-975 | the classification traversal splits a queue's transactions by the same labels |
| `Scheduler.QueueFrontier` | crates/scheduler/src/lib.rs:977-998 | the frontier traversal lists the hashes of the Ready entries by the same labels |
| `Scheduler.FrontierOfKind` | crates/scheduler/src/lib.rs:746-751 | the hashes of the classified ready transactions are the executable frontier |
| `Scheduler.CountsAreClassified` | crates/scheduler/src/lib.rs:1104-1124 | a queue's counts are the sizes of the sender's from-scratch classification |
| `Counting.TotalsAfterAdmit` | crates/scheduler/src/lib.rs:1029-1044 | replacing one sender's share of the totals gives the totals of the new state, and no subtraction or addition saturates |
| `Counting.CountsStayExact` | crates/scheduler/src/lib.rs:1029-1044 | after an admission only the sender's cached counts need refreshing for all of them to be exact |
| `Counting.RecountComplete` | crates/scheduler/src/lib.rs:1046-1054 | counting every queue once counts every classified transaction once |
| `Transitions.TransitionsComplete` | crates/scheduler/src/lib.rs:1080-1102 | removing the replaced hash from the old hash-to-state view and applying the reported transitions gives exactly the new view |
| `Transitions.FollowedViewIsCurrent` | crates/scheduler/src/lib.rs:1080-1102 | folding the reported transitions over a whole run gives the current classification |
| `Transitions.TransitionsAreChanges` | crates/scheduler/src/lib.rs:1080-1102 | every reported transition is the current state of a hash that was new or in another state |
| `Transitions.ReplacementReportsOne` | crates/scheduler/src/lib.rs:797-817 | a replacement reports exactly one transition: the newcomer, in its incumbent's state |
| `Transitions.TransitionsInNonceOrder` | crates/scheduler/src/lib.rs:1080-1102 | the transitions of an admission are reported by ascending nonce |
| `History.SlotStep` | crates/scheduler/src/lib.rs:761-848 | an admission leaves a slot alone, fills it, or hands it to a bid at or above the threshold |
| `History.SlotHeldOn` | crates/scheduler/src/lib.rs:797-825 | a filled slot stays filled, and no later occupant is easier to replace, whatever the bids |
| `History.ReadmissionIsNoOp` | crates/scheduler/src/lib.rs:761-848 | after any run, admitting any transaction of it again, whatever its first outcome was, changes neither pending nor queues, when all bids are in the raising range |
| `History.RefusedFromThenOn` | crates/scheduler/src/lib.rs:761-848 | a submitted transaction is never admitted again at any later point of the run |
| `History.ReadmissionChangesOutsideRange` | crates/scheduler/src/lib.rs:1150-1170 | outside the raising range the previous result fails: two equal bids swap back and forth |
| `History.SlotChain` | crates/scheduler/src/lib.rs:797-825 | a filled slot stays filled, and its occupants only get more expensive |
| `History.BidsGrowGeometrically` | crates/scheduler/src/lib.rs:797-825 | after k replacements at a slot, bid * 10000^k is at least the first bid times (10000 + bump)^k |
| `History.ReplacementsAreBounded` | crates/scheduler/src/lib.rs:797-825 | the number of replacements at a slot is at most the rise of its bid |
| `Handoff.AcceptedAtMostOnce` | crates/scheduler/src/lib.rs:887-920 | over any interleaving of commands, two accepted results of one candidate quote strictly increasing generations |
| `Handoff.AcceptedTwiceIffSaturated` | crates/scheduler/src/lib.rs:887-920 | an accepted result can be accepted again exactly at the largest generation |
| `Handoff.TaskAcceptedIff` | crates/scheduler/src/lib.rs:850-945 | a task's result is accepted exactly when its registration is the latest, no member was invalidated, no result was accepted in between, and the head is back at its block |
| `Handoff.InvalidatedTaskNeverAccepted` | crates/scheduler/src/lib.rs:926-945 | after a hash is invalidated, no earlier task that carries it, as its hash or among its members, is ever accepted |
| `Handoff.OtherHashIsHarmless` | crates/scheduler/src/lib.rs:926-945 | invalidating a hash that a task does not carry leaves the task's acceptance as it was, at every point of every interleaving |
| `Handoff.TaskCarries` | crates/scheduler/src/lib.rs:850-885 | an issued task carries its candidate's hash, its members or else the hash alone, the head block, and generation one or one more than the last |
| `Handoff.AcceptedIff` | crates/scheduler/src/lib.rs:887-905 | a result is accepted exactly when it quotes a live candidate's hash, members, block and generation while the head is at that block |
| `Handoff.AppliedEntries` | crates/scheduler/src/lib.rs:907-920 | an accepted result retires its own candidate's generation and nothing else; a stale one changes nothing |
| `Handoff.InvalidatedEntries` | crates/scheduler/src/lib.rs:926-945 | invalidation retires the generation of exactly the candidates that carry the hash, as hash or as member |
| `Scheduler.SchedulerState.RegisterCandidates` | crates/scheduler/src/lib.rs:850-885 | registers candidates one by one with their next generation and issues the task of each |
| `Scheduler.SchedulerState.ApplySimulationResult` | crates/scheduler/src/lib.rs:887-920 | accepts a result exactly when it matches the live entry and the head; hands off an approved one and retires its generation |
| `Scheduler.SchedulerState.InvalidateCandidateHash` | crates/scheduler/src/lib.rs:926-945 | retires the generation of exactly the candidates that mention the hash |
| `Scheduler.SchedulerState.AdvanceHead` | crates/scheduler/src/lib.rs:922-924 | sets the head block and changes no entry |
| `Snapshot.RoundTripIff` | crates/scheduler/src/lib.rs:697-759 | a live snapshot restores to the state it was taken from exactly unless it has pending transactions and no queue at all |
| `Snapshot.RestoreWithFrontier` | crates/scheduler/src/lib.rs:746-756 | restoring what a live state wrote succeeds exactly when the recorded frontier is empty or the state's own |
| `Snapshot.RestoredIsWellFormed` | crates/scheduler/src/lib.rs:712-759 | whatever snapshot is accepted, restored queues are non-empty and hold only pending transactions of their own sender and nonce |
| `Snapshot.OrphansDoNotRoundTrip` | crates/scheduler/src/lib.rs:723-727 | pending transactions without any queue do not survive a round trip, because an empty queue list is rebuilt |
| `Scheduler.SchedulerState.PersistedSnapshot` | crates/scheduler/src/lib.rs:697-710 | writes pending transactions, frontier and queues as the specification lists them |
| `Scheduler.SchedulerState.FromPersistedSnapshot` | crates/scheduler/src/lib.rs:712-759 | restores or rejects a snapshot with the same error as the specification; a restored state has exact counts, no candidates and all admission counters at zero |
| `Scheduler.BuildSenderQueuesFromSnapshot` | crates/scheduler/src/lib.rs:1187-1209 | rebuilds the queues entry by entry and stops at the first unknown hash, mismatch or duplicate |
| `Scheduler.BuildSenderQueuesFromPending` | crates/scheduler/src/lib.rs:1172-1185 | rebuilds the queues from the pending transactions and stops at the first duplicate slot |
| `Rejections.PendingLoadsIff` | crates/scheduler/src/lib.rs:715-721 | the pending list loads exactly when no hash repeats, to the map from its hashes |
| `Rejections.PendingRejectedFor` | crates/scheduler/src/lib.rs:715-721 | otherwise the first repeated hash is reported |
| `Rejections.QueuesLoadIff` | crates/scheduler/src/lib.rs:1187-1222 | recorded queues load exactly when every entry points at a pending transaction of its own sender and nonce and no slot is recorded twice; otherwise the first faulty entry is reported, by its fault |
| `Rejections.RebuildsIff` | crates/scheduler/src/lib.rs:1172-1185 | without recorded queues they are rebuilt exactly when no two transactions want one slot, and then fill exactly their slots |
| `Rejections.RebuildRejectedFor` | crates/scheduler/src/lib.rs:1172-1185 | otherwise the first clash in ascending order of the hashes is reported, by its slot |
| `Rejections.RestoreStages` | crates/scheduler/src/lib.rs:712-756 | pending list, queues, frontier: the first stage that fails decides the error, and an empty frontier is never compared |
| `Mempool.RelabelKeeps` | crates/replay/src/mempool_state.rs:526-592 | a recomputation touches only queue states, and only of hashes in the queue |
| `Mempool.RelabelSets` | crates/replay/src/mempool_state.rs:536-592 | after a recomputation each live entry carries its label among the live entries |
| `Mempool.EndedEntry` | crates/replay/src/mempool_state.rs:400-426 | a transaction whose spell ends keeps what is known of its slot and loses its label |
| `Mempool.SeededPending` | crates/replay/src/mempool_state.rs:186-204 | a pending hash of a checkpoint is seeded with nothing known of its slot, queued or not |
| `Mempool.SeededQueued` | crates/replay/src/mempool_state.rs:186-204 | a queued hash that is not listed as pending is seeded with the slot and the label of its first entry |
| `Mempool.SeededSlot` | crates/replay/src/mempool_state.rs:186-204 | every slot of a checkpoint is seeded with its last entry, whether the hash was known before or not |
| `MempoolMachine.MempoolState.ApplyEvent` | crates/replay/src/mempool_state.rs:207-304 | one event does to the table and the queues what the specification says for its kind |
| `MempoolMachine.MempoolState.ApplyDecodedEvent` | crates/replay/src/mempool_state.rs:375-398 | a decoded transaction marks another occupant of its slot replaced, takes the slot and relabels the queue |
| `MempoolMachine.MempoolState.SettleAndLeave` | crates/replay/src/mempool_state.rs:400-426 | a settled transaction gets its status, leaves its recorded slot and has its sender's queue relabelled |
| `MempoolMachine.MempoolState.ApplyStateEvent` | crates/replay/src/mempool_state.rs:465-492 | a queue event queues its hash, relabels the queue and then stores the reported state |
| `MempoolMachine.MempoolState.ApplyReorgedEvent` | crates/replay/src/mempool_state.rs:428-463 | a reorg of the confirming block reopens a transaction in its recorded slot; any other reorg changes nothing |
| `MempoolMachine.MempoolState.EnsureSenderQueueEntry` | crates/replay/src/mempool_state.rs:494-508 | records sender, nonce and pending status and puts the hash into the slot |
| `MempoolMachine.MempoolState.RemoveSenderQueueEntry` | crates/replay/src/mempool_state.rs:510-524 | empties the slot only if the hash still holds it and drops a queue left empty |
| `MempoolMachine.MempoolState.RecomputeSenderQueueStates` | crates/replay/src/mempool_state.rs:526-592 | clears all states of the queue, labels the live entries and drops the stale ones |
| `MempoolMachine.RemovingStaleKeepsLive` | crates/replay/src/mempool_state.rs:576-585 | removing the collected stale nonces leaves exactly the live entries |
| `MempoolMachine.StoringLabels` | crates/replay/src/mempool_state.rs:587-591 | storing the collected updates afterwards is labelling entry by entry |
| `MempoolMachine.MempoolState.SenderQueues` | crates/replay/src/mempool_state.rs:323-373 | lists each non-empty live queue with the stored state of an entry or, without one, its computed label |
| `MempoolMachine.MempoolState.SortedPendingHashes` | crates/replay/src/mempool_state.rs:312-320 | lists the pending hashes in the order every caller sorts them into |
| `LogRefinement.ReplayRebuildsScheduler` | crates/runtime-core/src/live_rpc.rs:2050-2111 | for every run of admissions by one worker, and any log of it with other events mixed in, replay from an empty state shows exactly the scheduler's pending hashes, queues and Ready/Blocked labels |
| `LogRefinement.LogKeepsAgreement` | crates/runtime-core/src/live_rpc.rs:2050-2111 | agreement of the two machines survives every run of admissions, from any agreeing pair of states |
| `LogRefinement.DecisionAgrees` | crates/runtime-core/src/live_rpc.rs:2050-2095 | the replaced, decoded or dropped events of one admission take the replayed state to the admitted state |
| `LogRefinement.TransitionsAreIdle` | crates/runtime-core/src/live_rpc.rs:2100-2111 | the queue transition events that follow repeat labels replay has already computed and change nothing |
| `LogRefinement.RecomputeAgrees` | crates/replay/src/mempool_state.rs:526-592 | recomputing a sender's queue is all it takes to bring stale labels back into agreement |
| `LogRefinement.SettledEvicts` | crates/replay/src/mempool_state.rs:274-294 | dropping, confirming or replacing a pending transaction evicts exactly it and relabels its sender's queue |
| `LogRefinement.RefusedIsHarmless` | crates/replay/src/mempool_state.rs:400-426 | the drop event of a refused transaction that is not pending leaves the queues in agreement |
| `LogRefinement.QueueFullAgreesIff` | crates/runtime-core/src/live_rpc.rs:1924-1929 | a transaction dropped because the ingress queue was full leaves the machines in agreement exactly when the scheduler was not holding it |
| `LogRefinement.ReorgUndoesConfirmation` | crates/replay/src/mempool_state.rs:428-463 | a confirmation followed by a reorg of its own block brings the machines back into agreement |
| `LogRefinement.QuietEventsIgnored` | crates/replay/src/mempool_state.rs:295-302 | events without lifecycle effect can be dropped from a log before replay |
| `LogRefinement.SubmissionIsLogged` | crates/runtime-core/src/live_rpc.rs:2050-2111 | the events of a submission: seen and fetched first and once, decoded exactly when it was admitted, the replaced hash exactly when there is one, a drop exactly when it was refused and with that refusal's reason, and exactly the reported transitions |
| `Worker.ProcessFetched` | crates/runtime-core/src/live_rpc.rs:1919-2111 | asks the scheduler, appends the events in emission order and makes the candidates of a replaced incumbent stale |
| `Worker.ProcessQueueFull` | crates/runtime-core/src/live_rpc.rs:1924-1929 | with a full ingress queue appends the seen, fetched and dropped events and leaves the scheduler alone |
| `Worker.AppendTransitions` | crates/runtime-core/src/live_rpc.rs:2304-2331 | appends one event per transition, with the expected nonce of a blocked one |
| `Worker.IngestThenReplay` | crates/runtime-core/src/live_rpc.rs:2050-2111 | running both machines side by side, the replayed pending hashes and queues are the scheduler's own |
| `Sanitize.RemovedIff` | crates/viz-api/src/lib.rs:1608-1641 | a hash is removed exactly when its last removing event has no reviving event after it |
| `Sanitize.RemovedHashes` | crates/viz-api/src/lib.rs:1608-1641 | the single pass over the events computes that set |
| `Sanitize.SanitizeSnapshot` | crates/viz-api/src/lib.rs:1604-1660 | cuts the removed hashes out of pending list, frontier and queues and drops queues left empty |
| `Sanitize.SanitizedIs` | crates/viz-api/src/lib.rs:1641-1660 | for any snapshot, foreign ones included: nothing removed leaves it as it is, empty queues too; otherwise exactly the removed hashes leave pending list, frontier and queues, and emptied queues are dropped |
| `Sanitize.SanitizedShape` | crates/viz-api/src/lib.rs:1645-1660 | a sanitised live snapshot is what the state without the removed transactions would write, except for its frontier |
| `Sanitize.KeepsRunIff` | crates/scheduler/src/lib.rs:746-756 | a kept queue classifies every kept entry as before exactly when part of the ready run is kept, without holes |
| `Sanitize.SanitizedRestore` | crates/viz-api/src/lib.rs:1604-1660 | for any state and any removed set: the sanitised snapshot restores to the state without them exactly when no ready entry survives or every sender left keeps part of its ready run without holes; the only other outcome is a frontier mismatch |
| `Recovery.OverlapIsHarmless` | crates/scheduler/src/lib.rs:511-527 | a snapshot taken later than its watermark, followed by admitting everything above the watermark again, ends in the state of the uninterrupted run |
| `Recovery.OnCourseTracks` | crates/scheduler/src/lib.rs:511-527 | while every slot holds the occupant of the snapshot or of the run so far, admitting the next submission again keeps it so |
| `Recovery.CompletedTracks` | crates/scheduler/src/lib.rs:511-527 | any part of an earlier state is on track from a given submission on when each slot of the final state has its final occupant already or is filled from then on |
| `Recovery.ReadmissionTracks` | crates/scheduler/src/lib.rs:521-525 | re-admitting what the run admitted keeps a restored state on track to the final state |
| `Recovery.AnyReadmissionTracks` | crates/scheduler/src/lib.rs:521-525 | the same for any submission, admitted then or not, when the state covers every filled slot |
| `Recovery.TracksToTheEnd` | crates/scheduler/src/lib.rs:511-527 | a state on track at the end of the run is the final state |
| `Recovery.SnapshotTracks` | crates/viz-api/src/lib.rs:1519-1528 | a snapshot that lost only slots refilled later is on track from every watermark read before it was taken |
| `Rehydration.CrashRecoveryIff` | crates/viz-api/src/lib.rs:1449-1477 | for any run, any snapshot, and whatever part of the log a restart still sees: either sanitising breaks a ready run and the snapshot is rejected, or the kept transactions are restored and the restart ends in the uninterrupted run's state if and only if every transaction pending in the end was kept or is decoded by an event it sees |
| `Rehydration.CrashRecoveryWithForeignIff` | crates/viz-api/src/lib.rs:1604-1660 | when everything unseen was recorded before the snapshot, drops at a full ingress queue and confirmations do harm exactly where they remove a transaction pending in snapshot and end that no seen event decodes |
| `Rehydration.CrashRecovery` | crates/viz-api/src/lib.rs:1449-1477 | without such events, for any log split at a watermark read before the snapshot: the restart ends in the uninterrupted run's state when no ready entry survives or every sender left keeps its ready run, and otherwise is rejected for its frontier |
| `Rehydration.RemovedAboveIsGone` | crates/viz-api/src/lib.rs:1608-1641 | what the part of the log above the watermark removes, and does not decode again, is not pending in the end |
| `Rehydration.RemovedNeverReturns` | crates/viz-api/src/lib.rs:1608-1641 | with raising bids, a transaction whose removal the run records is not pending in the end |
| `Rehydration.UnsanitisedRecovery` | crates/viz-api/src/lib.rs:1449-1477 | without sanitising the same restart always succeeds and ends in the same state |
| `Rehydration.RemovalIsRefilled` | crates/viz-api/src/lib.rs:1608-1641 | with raising bids, a snapshot entry whose removal is logged above the watermark has its slot filled again after the snapshot |
| `Rehydration.RemovalInsideRunRejects` | crates/viz-api/src/lib.rs:1645-1660 | of any valid state: removing one ready transaction between two ready neighbours is enough to have the snapshot rejected |
| `Rehydration.ReplacementInsideRunRejects` | crates/viz-api/src/lib.rs:1604-1660 | of every run: when the next submission replaces such a transaction, a snapshot taken just before it is rejected with the logged events of that replacement as the replayed tail |
| `Rehydration.RejectedSnapshot` | crates/viz-api/src/lib.rs:1604-1660 | an instance: three ready bids, a ten per cent higher bid for the middle one, and the snapshot taken in between is rejected |
| `Accounting.SubmissionsCountOnce` | crates/scheduler/src/lib.rs:761-848 | over every run each submission counts once, as admitted or under one reason for refusing it |
| `Accounting.CountersAreCounts` | crates/scheduler/src/lib.rs:761-848 | over every run each admission counter is the number of submissions with its outcome |
| `Accounting.PendingIsAccounted` | crates/scheduler/src/lib.rs:761-848 | over every run the pending transactions are those admitted less those replaced |
| `Accounting.RestartedTotalsIff` | crates/scheduler/src/lib.rs:521-526 | after a restart the admission counters equal those of the uninterrupted run exactly when the restart begins with nothing and re-admits every submission |
| `Restart.RestartFromPlan` | crates/viz-api/src/lib.rs:1449-1477 | sanitises, restores and re-admits, counting from zero; a rejected snapshot gives an empty scheduler and a rebuild request |
| `Restart.Rehydrate` | crates/scheduler/src/lib.rs:511-527 | restores an optional snapshot, reports its error, and admits the replay transactions in order, counting from zero |
| `Restart.CollectReplayTxs` | crates/viz-api/src/lib.rs:1701-1728 | takes decoded transactions from their events and reorged ones from their stored rows, in event order |
| `Restart.RestartRecovers` | crates/viz-api/src/lib.rs:1449-1477 | for a log split at the watermark, the restart from its upper part yields the uninterrupted run's state, or the fallback, under exactly the condition of the recovery theorem |
| `Bootstrap.ReadWatermark` | crates/viz-api/src/lib.rs:1521-1528 | a snapshot is stamped with the id of the last event that had arrived, or zero for a ring that retains none |
| `Bootstrap.SeenIsTail` | crates/storage/src/lib.rs:562-586 | what the plan replays is exactly the arrivals after the later of watermark and eviction |
| `Bootstrap.Bootstrap` | crates/viz-api/src/lib.rs:1438-1477 | the executed restart: nothing without a snapshot, a rebuild for one that is too old, and otherwise the sanitised snapshot with everything the ring retains above its watermark re-admitted |
| `Bootstrap.BootstrapRecoversIff` | crates/storage/src/lib.rs:562-586 | for any run, snapshot, watermark and ring capacity: the executed restart rejects the snapshot, or ends in the run's state if and only if every transaction pending in the end was kept in the snapshot or is decoded by a retained event above the watermark |
| `Bootstrap.BootstrapRecovers` | crates/storage/src/lib.rs:562-586 | eviction does no harm as long as everything the restart does not see records submissions the snapshot holds |
| `Bootstrap.EvictedAdmissionIsLost` | crates/storage/src/lib.rs:562-586 | one admission after an empty snapshot and a ring too small for its decoding: no rebuild is asked for, and the restarted scheduler holds nothing |
| `Reorged.AnyReadmissionsIff` | crates/scheduler/src/lib.rs:521-525 | whatever transactions the run had admitted are re-admitted to part of an earlier state, in any order and at any bids: it ends in the run's state if and only if every transaction pending in the end was there or is re-admitted, and every one that bids enough to replace a slot's final occupant is followed by it |
| `Reorged.ReorgedRestartIff` | crates/viz-api/src/lib.rs:1701-1728 | the recovery theorem for a log with reorgs: when the run had admitted each reorged transaction that has a row, the restart rejects the snapshot, or ends in the run's state under exactly that condition on what it re-admits |
| `Reorged.ReorgsAreHarmless` | crates/viz-api/src/lib.rs:1701-1728 | with raising bids such a restart recovers the run exactly when each transaction pending in snapshot and end that an event removes is also decoded or reorged by one |
| `Reorged.NobodyChallenges` | crates/scheduler/src/lib.rs:1150-1170 | with raising bids no transaction the run admitted bids enough to replace the final occupant of its slot |
| `Reorged.BootstrapWithReorgsIff` | crates/storage/src/lib.rs:562-586 | the same for the executed restart, with reorgs among the arrivals and a ring of any capacity |
| `Reorged.RefusedReorgIff` | crates/viz-api/src/lib.rs:1701-1728 | when the run had refused the reorged transaction and replaced its rival later, a restart that replays the reorg first ends in the run's state exactly when the replacement bids enough to replace the refused one too |
| `Reorged.RefusedReorgFails` | crates/viz-api/src/lib.rs:1701-1728 | an instance: bids of 100, 109 and 110 under a ten per cent bump, and the restart does not end in the run's state |
| `Reorged.ReplacedReorgIff` | crates/viz-api/src/lib.rs:1701-1728 | a reorg of a replaced transaction does no harm exactly when its bid is below the threshold of the one that replaced it |
| `EventOrder.SortIsStable` | crates/event-log/src/lib.rs:305-312 | sorting orders a log and keeps, key by key, exactly its events in their order |
| `EventOrder.SortedBy` | crates/event-log/src/lib.rs:20-30 | a sorted log stands by sequence id, then by source, then by transaction hash |
| `EventOrder.SortsAlikeIff` | crates/event-log/src/lib.rs:305-312 | two logs sort to the same log exactly when they list the events of each key in the same order |
| `EventOrder.PermutationSortsAlike` | crates/event-log/src/lib.rs:305-312 | with distinct order keys, logs with the same events sort alike |
| `ReplayFrames.ReplayDeterministic` | crates/replay/src/lib.rs:215-238 | emits one frame for every stride begun, each with the state at the end of its stride, the last one with that of the whole log |
| `ReplayFrames.ReplaySnapshot` | crates/replay/src/lib.rs:280-305 | the counter-based loop emits the same frames, the last one again with the whole log |
| `ReplayFrames.ReplayInMode` | crates/replay/src/lib.rs:89-98 | both replay modes give the same frames; a zero stride counts as one |
| `ReplayFrames.FramesClose` | crates/replay/src/lib.rs:215-238 | there is one frame for every stride begun; frame k shows id, time, pending list and queues after (k + 1) strides or at the end of the log, so the last frame always shows the whole log |
| `ReplayFrames.FramesIgnoreDelivery` | crates/replay/src/lib.rs:215-238 | with distinct order keys any delivery order of a log gives identical frames |
| `ReplayFrames.LifecycleCheckpoints` | crates/replay/src/lib.rs:101-126 | takes a checkpoint after every event with a requested sequence id |
| `ReplayFrames.LifecycleParity` | crates/replay/src/lib.rs:308-329 | reports exactly the requested ids that occur, and true for each of them, also when ids repeat |
| `Resume.StepShowsSame` | crates/replay/src/mempool_state.rs:207-304 | any event but a reorg keeps two states that show the same pending slots showing the same, stale slots or not |
| `Resume.SettledShows` | crates/replay/src/mempool_state.rs:400-426 | ending a pending spell removes exactly that hash from what is shown, whether its slot is known or not |
| `Resume.DecodedShows` | crates/replay/src/mempool_state.rs:375-398 | a decoded transaction displaces at most the live occupant of its slot and then holds it |
| `Resume.ReorgShowsSameIff` | crates/replay/src/mempool_state.rs:428-463 | a reorg keeps two states showing the same exactly when it reopens in both or in neither, and queues what it reopens in both or in neither |
| `Resume.LandingShows` | crates/replay/src/mempool_state.rs:428-463 | a reopened transaction whose slot is recorded, or that never left its queue, is queued in that slot again and displaces whoever holds it |
| `Resume.ReplayFromLog` | crates/replay/src/mempool_state.rs:494-508 | every slot of a replayed state is one the log names for that hash |
| `CheckpointResume.CheckpointShowsSame` | crates/replay/src/mempool_state.rs:186-204 | a state seeded from a checkpoint shows what the checkpointed state shows |
| `CheckpointResume.SameFrames` | crates/replay/src/mempool_state.rs:323-373 | states that show the same yield the same pending list and the same queues apart from labels |
| `CheckpointResume.ResumeShowsTheSameIff` | crates/replay/src/lib.rs:240-278 | resuming from any checkpoint applies exactly the later events, and shows after each of them the pending list and the queues of the full replay, nonce by nonce and hash by hash, if and only if no reorg among them takes another branch in the resumed state |
| `CheckpointResume.ResumeShowsTheSame` | crates/replay/src/lib.rs:240-278 | in particular, every tail without reorgs is shown as in the full replay |
| `ResumeLog.FullReopensIff` | crates/replay/src/mempool_state.rs:428-463 | a reorg reopens a hash in the full replay exactly when the log has confirmed it in that block and no later event undid that |
| `ResumeLog.FullLandsIff` | crates/replay/src/mempool_state.rs:428-463 | what a reorg reopens in the full replay is queued exactly when the log has placed it |
| `ResumeLog.ReplayIsTidy` | crates/replay/src/mempool_state.rs:494-592 | in a replay from the start, whatever is queued is pending and knows its slot |
| `ResumeLog.ResumeByLogIff` | crates/replay/src/lib.rs:240-278 | the condition for resuming without the full replay: every reorg of the tail finds in the resumed state exactly what the log says it should |
| `ResumeLog.PlainReorgsIff` | crates/replay/src/lib.rs:240-278 | the same on the log alone, when every reorged hash was placed in the tail before or not touched in it: frames agree exactly when no untouched one undoes a confirmation from before the checkpoint |
| `ResumeReturns.TailReorgsIff` | crates/replay/src/lib.rs:240-278 | the same for every log: frames agree exactly when each reorg of the tail that undoes a confirmation is of a hash the tail has placed before, or that has kept its place in the queue since the checkpoint, or that was confirmed in the tail and never placed at all |
| `ResumeReturns.ConfirmedThenReorgedIff` | crates/replay/src/mempool_state.rs:428-463 | a transaction queued at the checkpoint, confirmed in the tail and then reorged is met alike exactly when the reorg is of another block, or no event since the checkpoint takes its slot and none since the confirmation relabels its queue |
| `ResumeReturns.SeatedStep` | crates/replay/src/mempool_state.rs:526-592 | one event leaves in the resumed queue the entry of a hash whose slot is unknown there, with the full replay's status, unless it takes the slot or relabels the queue while the hash is not pending; then the hash is in no queue |
| `ResumeReturns.RelabelsIff` | crates/replay/src/mempool_state.rs:526-592 | which events make the resumed replay relabel a sender's queue, read off the log |
| `ResumeLog.ForgottenIsMissed` | crates/replay/src/mempool_state.rs:428-463 | wherever it stands, a reorg that undoes a confirmation from before the checkpoint, of a hash the tail has not touched, is missed by the resumed replay |
| `ResumeLog.FateStep` | crates/replay/src/mempool_state.rs:207-304 | once the tail has placed a hash, both replays agree on its status at every later event |
| `CheckpointResume.ReorgOfEarlierBlock` | crates/replay/src/mempool_state.rs:428-463 | as the first event of the tail, a reorg is missed exactly when it reopens a transaction in the full replay |
| `CheckpointResume.FramesShow` | crates/replay/src/mempool_state.rs:323-373 | conversely, states with the same pending list and the same queues apart from labels show the same |
| `ResumeLabels.SameViewsIff` | crates/replay/src/mempool_state.rs:323-373 | of states that show the same slots, the whole frames agree exactly when all shown labels do |
| `ResumeLabels.CheckpointFrameIff` | crates/replay/src/mempool_state.rs:186-204 | the frame at the checkpoint is kept, labels included, exactly when every label stored there is what the gap rule gives |
| `ResumeLabels.CheckpointLabelIff` | crates/replay/src/mempool_state.rs:186-204 | the same entry by entry |
| `ResumeLabels.ReportedLabelIsForgotten` | crates/replay/src/mempool_state.rs:465-492 | resuming right after a TxReady for a transaction that the gap rule blocks shows it Blocked, where the full replay shows it Ready |
| `ResumeLabels.LabelsAgreeIff` | crates/replay/src/mempool_state.rs:526-592 | after a transaction ends whose slot only the full replay knows, another one of its queue carries the same label in both exactly when the resumed state stores none for it or the one the gap rule gives without the ended one |
| `ResumeFrames.EventStoresFor` | crates/replay/src/mempool_state.rs:207-304 | after any event, each live entry of the relabelled queue stores the reported label or the gap rule's, and every other entry what it stored before |
| `ResumeFrames.LabelsStepIff` | crates/replay/src/mempool_state.rs:207-304 | one event keeps whole frames equal exactly when, if only the full replay relabels a queue, the resumed state has that queue settled afterwards |
| `ResumeFrames.WholeFramesIff` | crates/replay/src/lib.rs:240-278 | for any log and any checkpoint: the resumed replay shows at the checkpoint and after each later event exactly what the full replay shows, labels included, if and only if the checkpoint's labels are what the gap rule gives and every tail event meets a condition on the log and the resumed state |
| `ResumeFrames.FrameIsShown` | crates/replay/src/lib.rs:240-278 | the emitted frame of a later event is the full replay's frame exactly when the two states show the same |
| `ResumeAdmissions.ResumedShadows` | crates/replay/src/mempool_state.rs:186-204 | resuming where the full replay agrees with the scheduler forgets slots and labels but gets none wrong |
| `ResumeAdmissions.ShadowReplaced` | crates/replay/src/mempool_state.rs:375-426 | both events of a replacement together lead a resumed state to the admitted state, whether or not it knew the incumbent's slot |
| `ResumeAdmissions.ResumedFramesOfRun` | crates/replay/src/lib.rs:240-278 | on any log of a run of admissions, from any checkpoint, whole frames agree at every later position that is not between the two events of a replacement |
| `ResumeAdmissions.ResumedReplayOfRun` | crates/replay/src/lib.rs:240-278 | the same for the emitted frames of the resumed replay |
| `ResumeAdmissions.ResumedFrameIsScheduler` | crates/replay/src/lib.rs:240-278 | at the end of any admission after the checkpoint the resumed replay shows exactly what the scheduler shows then, labels included |
| `ResumeAdmissions.MidReplacementIff` | crates/replay/src/mempool_state.rs:400-426 | between the two events of a replacement the pending lists agree, and the queues exactly when the resumed state knows the incumbent's slot or has stored no label that the gap in its place makes wrong |
| `ResumeLabels.LabelsMayLag` | crates/replay/src/mempool_state.rs:186-204 | labels do differ: with 7 and 8 queued at the checkpoint, then 9 decoded and 8 dropped, the full replay blocks 9 and the resumed one shows it Ready |
| `CheckpointResume.ReplayFromCheckpoint` | crates/replay/src/lib.rs:240-278 | the resumed replay emits one frame for every stride begun of the tail, from the seeded state, the last one with the whole tail |
| `MempoolMachine.MempoolState.FromCheckpoint` | crates/replay/src/mempool_state.rs:186-204 | seeding inserts pending hashes first, so queue entries never overwrite their unknown slots |
| `Lifecycle.StepKeepsRowsIff` | crates/storage/src/lib.rs:719-777 | exactly when one event keeps the newest storage row of every hash saying what the replayed state says |
| `Lifecycle.StepKeepsCoverIff` | crates/storage/src/lib.rs:719-777 | one event keeps every hash of the replayed table provided with a row exactly when it is not a label report of a hash without one |
| `Lifecycle.ProjectionsAgree` | crates/viz-api/src/lib.rs:1139-1156 | on every log of the admission path the newest retained row of a hash says what replay says of it, however many of the oldest rows were evicted; and a hash was given a row exactly when the replayed table has it |
| `Lifecycle.WordedAs` | crates/viz-api/src/lib.rs:1813-1833 | word by word, the status and reason that each event makes storage record and the API derive; only a row remembers that a reorg reopened its hash |
| `Lifecycle.StatusAfter` | crates/replay/src/mempool_state.rs:207-304 | which statuses one event changes, and to what |
| `Lifecycle.EvictionKeepsNewest` | crates/storage/src/lib.rs:1201-1213 | evicting the oldest rows never changes which row of a hash is the newest |
| `Tables.BoundedTable.Push` | crates/storage/src/lib.rs:1185-1214 | over every sequence of pushes: the rows are the latest of all rows ever pushed, up to the capacity; counts are multiplicities and the lookup holds the newest retained row |
| `Tables.DropOldestKeepsExact` | crates/storage/src/lib.rs:1201-1213 | evicting the oldest row keeps counts and lookup exact |
| `Tables.AppendKeepsExact` | crates/storage/src/lib.rs:1196-1199 | appending a row keeps counts and lookup exact |
| `Features.FeatureTable.Upsert` | crates/storage/src/lib.rs:387-416 | over every sequence of inserts: the same, and the count of every label equals the number of hashes whose newest row has it, with no zero entry |
| `Features.RecountKeepsSummary` | crates/storage/src/lib.rs:391-394 | moving a hash from its old label to its new one keeps every label count exact |
| `Features.EvictKeepsSummary` | crates/storage/src/lib.rs:399-416 | a hash leaves its label's count exactly when its last row is evicted |
| `EventStore.EventRing.AppendEvent` | crates/storage/src/lib.rs:779-796 | over all appends in any order: the ring holds the latest of all arrivals and the index is a sorted permutation of them |
| `EventStore.RemoveFromIndex` | crates/storage/src/lib.rs:1216-1233 | removes one copy of the evicted event wherever it stands among events with equal keys, and nothing else |
| `EventStore.InsertIntoIndex` | crates/storage/src/lib.rs:779-790 | puts an event at the tail or at its partition point and keeps the index sorted |
| `EventStore.EventRing.ScanEvents` | crates/storage/src/lib.rs:806-814 | returns the first events above the cursor, at least one, up to the limit |
| `EventStore.EventRing.LatestSeqId` | crates/storage/src/lib.rs:816-818 | returns the largest retained sequence id |
| `EventStore.SequencedWriter.AppendPayload` | crates/storage/src/lib.rs:1127-1146 | arrivals at the single writer are numbered upwards from the latest id it found, and the index has unique ids and lists the retained ones as they arrived |
| `EventPages.CollectEventsUpToSeq` | crates/viz-api/src/lib.rs:2592-2626 | with unique ids the paging loop ends and collects exactly the events up to the target, cut at the scan cap |
| `EventPages.ConsumePage` | crates/viz-api/src/lib.rs:2605-2618 | one page is taken whole or up to the target, where the scan stops |
| `EventPages.Page` | crates/viz-api/src/lib.rs:899-917 | a page is the first events above the cursor |
| `EventPages.RehydrationPlan` | crates/storage/src/lib.rs:562-586 | without a snapshot the plan is empty, with one that is too old it asks for a rebuild, otherwise it replays every retained event above the watermark, in order |
| `EventPages.TooOldIff` | crates/storage/src/lib.rs:562-580 | a snapshot is too old exactly when some block was finalized more than the allowed gap after its capture; a gap of the largest signed integer or more allows any |
| `Assembly.RunsStaySound` | crates/builder/src/assembly.rs:252-396 | over every run of inserts and removals: candidates share no transaction, all are approved, cached totals are the folds, counters balance, and gas is within a limit below the largest integer |
| `AssemblyLaws.RunsStaySafe` | crates/builder/src/assembly.rs:252-388 | the same in the candidates' own fields: no shared hash, all approved, exact gas within a limit below the largest integer, exact total score as long as it fits |
| `AssemblyLaws.InsertionIs` | crates/builder/src/assembly.rs:252-322 | one insertion, exactly and from exact sums: the reason it is refused for, checked in order, or the ids it replaces and the set afterwards |
| `AssemblyLaws.TakenIff` | crates/builder/src/assembly.rs:252-322 | a candidate not in the set gets in exactly when it is approved, outweighs everything it shares a transaction with, and the exact gas fits |
| `AssemblyLaws.RemovalIs` | crates/builder/src/assembly.rs:324-341 | removal takes out the first candidate with the id and changes nothing if there is none |
| `AssemblyLaws.CountersAreCounts` | crates/builder/src/assembly.rs:343-388 | over every run each counter is the number of commands of its kind, refusals reason by reason |
| `Assembly.InsertNeverLowersScore` | crates/builder/src/assembly.rs:284-293 | no insertion lowers the exact total score, and one that replaces anything raises it |
| `Assembly.GasStaysWithin` | crates/builder/src/assembly.rs:295-305 | the saturating gas check is exact below the largest limit |
| `Assembly.GasTotalIsExact` | crates/builder/src/assembly.rs:383-388 | the cached gas total is the exact sum and within the limit |
| `Assembly.LargestLimitIsExceeded` | crates/builder/src/assembly.rs:295-305 | with the largest limit two candidates can exceed it, because the check saturates |
| `AssemblyMachine.AssemblyEngine.Insert` | crates/builder/src/assembly.rs:252-322 | decides and applies an insertion as specified and keeps the invariants |
| `AssemblyMachine.RemoveConflicts` | crates/builder/src/assembly.rs:308-310 | removing the conflicting positions from the highest down leaves exactly the candidates without a conflict, in order |
| `AssemblyMachine.AssemblyEngine.RemoveCandidate` | crates/builder/src/assembly.rs:324-341 | removes the first candidate with the id, or reports that there is none |
| `AssemblyMachine.AssemblyEngine.Reject` | crates/builder/src/assembly.rs:343-367 | counts a rejection once in total and once by reason |
| `AssemblyMachine.AssemblyEngine.RefreshLiveMetrics` | crates/builder/src/assembly.rs:369-388 | refreshes the cached totals to the folds over the current set |
| `SimulationRequest.BuildRequest` | crates/runtime-core/src/live_rpc.rs:2681-2720 | the nested loops select, per requested member, all executable transactions of its sender at or below its nonce, and give up at a member that is not executable |
| `SimulationRequest.RequestIsClosure` | crates/runtime-core/src/live_rpc.rs:2681-2720 | a request exists exactly when every member is executable, and then holds exactly the transactions some member of the same sender has to wait for, itself included |
| `SimulationRequest.RequestIs` | crates/runtime-core/src/live_rpc.rs:2681-2720 | over the ready frontier a request exists exactly when every requested hash is ready, and then holds exactly the ready transactions that some requested one of their sender has at its nonce or above |
| `SimulationRequest.SenderPartIs` | crates/runtime-core/src/live_rpc.rs:2601-2613 | each sender's part of a request is exactly its ready run from the lowest queued nonce up to its highest requested one |
| `SimulationRequest.RequestIsNonceClosed` | crates/runtime-core/src/live_rpc.rs:2601-2613 | over the ready frontier a request holds every member and, with each transaction, every lower nonce of its sender down to the lowest queued one |
| `SimulationRequest.RequestIsOrdered` | crates/runtime-core/src/live_rpc.rs:2704-2708 | the transactions of a request stand by sender and by ascending nonce |

## Left out

- Tokio channels, semaphores, worker tasks, websocket and HTTP fetching, JSON and hex decoding, configuration parsing: each scheduler command is one atomic step, and one worker emits the log.
- Several workers interleaving their events: the log refinement is about one worker; with several, events of two admissions can be appended in another order than they were admitted.
- Drops at the storage queue (an event that was never appended): the log refinement assumes none; a full scheduler ingress queue is covered by `LogRefinement.QueueFullAgreesIff` and `Rehydration.CrashRecoveryWithForeignIff`.
- Observation times, source ids and calldata of transactions: the modelled code stores them and never branches on them.
- `validate_config`: two zero checks.
- `snapshot`, `sender_queue_snapshots` and `pending_transactions` of the scheduler: lookups over the proved state.
- `crates/sim-engine` and every SHA-256 digest (checkpoint hashes, template hashes): foreign code; results and hashes are arbitrary inputs.
- `block_confirmations`, the returned `StateTransition` lists and `CandidateLifecycleState`: last-write projections.
- Reorged.ReorgedRestartIff: for stored rows of transactions the run had admitted; of refused ones only the contest of three bids for one slot is settled (`Reorged.RefusedReorgIff`), because elsewhere the end depends on every later submission.
- The pending map reaching the largest `usize`: the admission methods require one free place.
- `Handoff.TaskAcceptedIff`: for generations below the largest u64, because generations saturate there.
- `EventStore.SequencedWriter.AppendPayload`: for a counter below its saturation.
- `crates/storage/src/wal.rs`, sink flushing, write latencies, peer statistics, market statistics: file I/O and counters.
- `crates/viz-api/src/stream_broadcast.rs`: snapshot and subscription are not one atomic step.
- `from_simulated_opportunity`, relay templates and decision latencies of the builder.
- Opportunity ranking, feature analysis, alerts, rate limits, ingest caches, relay client, metrics text, web UI and CLI.
