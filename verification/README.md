# A model of decentralized MLS coordination

MLS (RFC 9420) leaves it to a delivery service to put commits in order. The application under `app/coordination`
does without one: the members of a group elect a *token holder* per epoch by a deterministic argmin over hashes, only
the holder turns buffered proposals into a commit, everybody else checks that the commit came from the peer they would
have elected, and messages for a later epoch wait in a buffer that is drained when the epoch is reached. Around this
core sit failover (a timeout suspends the holder for the rest of the epoch), a hash chain over the commits with a
weight-based fork detector, a crash-resumable fork-heal job with a batched outbox, the reconciliation of durable
membership operations, a hybrid logical clock and a liveness view.

This project models those parts in Dafny and proves what they promise, over whole runs wherever the promise is about
runs.

## Layout

| files | contents |
|---|---|
| `Bytes`, `Sorting`, `Types` | byte order, insertion sort and uniqueness of sorted forms, wire messages |
| `Election`, `SingleWriter`, `Agreement`, `IssuedCommits`, `Failover` | the election, the proposal buffer, agreement between nodes, issued commits at their judges, timeouts |
| `EpochTracker`, `HybridClock`, `ClockRuns` | the future buffer, the clock in machine arithmetic, runs of many clocks |
| `Operations`, `Reconciliation`, `OperationRuns`, `NodeOperations` | pending operations: rules, loops, runs, coordinator runs |
| `ReleasedChain`, `Unwinding`, `StaleKeys`, `KeyWitness` | idempotency keys when one call reconciles several commits, and the call that leaves one behind |
| `Coordinator`, `CoordinatorObject` | one node's commit pipeline on values, and as an object updated in place |
| `Transitions`, `NodeRuns`, `Network` | elementary changes, events of one node, the network and the absence of forks |
| `Admission`, `EngineStates`, `EarlyMessages`, `Receiving` | which commits are let in, where states and tree hashes come from, messages before their epoch, modes, verdicts and restarts |
| `Proposals`, `Issuing` | what is proposed and adopted, and when and what a node commits |
| `Confluence`, `Ledger`, `CrashWitness`, `CursorSafety` | out-of-order delivery, history chain and exactly-once, a crash that looks like a fork, sync cursors |
| `ForkDetector`, `DetectorRuns`, `ActiveView` | branch comparison, what a detector knows, liveness counters |
| `Outbox`, `HealJob`, `HealSwaps`, `HealRuns`, `Healer` | crash-safe replay, the heal state machine, what lies behind a swapped job, runs of it, the heal methods |

Hash functions, MLS calls, peer-ID encoding and the authorisation policy are fields of total function type (`Group`,
`Mls`, `Env`), so every theorem holds for all of them. Where the design relies on a collision-free hash, the theorem
ends in "or here is a collision among the inputs these two nodes hashed".

## Conditions of the main theorems

- No forks: one fixed view, a policy that ignores the batch, nobody proposes to remove or re-join a view member, and no
  suspensions; messages may be lost, repeated, reordered and replayed, and nodes may restart or crash between writes. The
  view outlives a restart, where the code starts from the local node and the peers it is seeded with.
- Admission: views are sorted snapshots; senders, messages and MLS are arbitrary.
- Early messages: no restart and no crash between arrival and turn; memory alone holds them.
- Confluence: the node has no proposal, operation or buffered message of its own, and every commit of the chain is accepted
  in its turn.
- Exactly-once: between heals, crashes included. Cursor safety also needs a clock that does not go back.
- Lineage: between heals, and no crash between the two writes of a commit, the record and the history chain.
- Clock condition: physical readings are non-negative and far from the end of int64, and the first stamp after a restart
  passes the last one before it; the clock is not stored and starts again at zero.
- Verdict agreement: every node announces one state, equal within a branch, and no commit is known to be invalid. The code
  counts a peer that moved on both branches.
- Failover: view and buffered batch stay fixed between timeouts.
- Idempotency keys: a commit moves a target one way, names operations with their own kind and target and tells the truth
  about whom it adds and removes; proposals and messages remove nobody from the group; and no event overtakes an operation.
- Bounded rebasing: the operation's ID is not submitted again.
- Heal: MLS refuses an empty group state and returns none, and storage writes succeed, or the process dies before them. When
  a heal succeeds is stated for a start without a signal left over from an earlier Welcome.

## What the code does not deliver

Some promises hold only under a condition. Each has a concrete counterexample or both directions of the condition.

- A received clock counter of 2^32−1 wraps (`HybridClock.LargestCounterWraps`); `MergeDominatesExactlyWhen` says exactly when.
- The clock is not stored. A node whose clock ran ahead of its readings can restart and stamp a message earlier than its last
  one (`ClockRuns.RestartCanStepBack`, `ClockConditionExactly`).
- Beyond the batching cap the batch depends on arrival order (`Agreement.OrderIndependentExactlyWithinCap`).
- The synchronous paths decide holdership from a whole buffer but commit one proposal, so peers may refuse the commit, and
  always refuse a holder's removal of itself (`Agreement.SyncAddRefused`, `SyncSelfRemovalRefused`,
  `SyncCommitAcceptedExactlyWhen`).
- A commit that releases a waiting one is reconciled after it. If the first serves an open operation and the second takes that
  back, the operation ends settled and keeps its idempotency key, and a later request is answered with it
  (`KeyWitness.DrainLeavesKey`, `WitnessOvertakes`, `StaleKeys.FreshExactly`). A crash after ApplyCommit likewise leaves a
  settled operation that the commit opposes with its key (`StaleKeys.EventExact`).
- A crash after ApplyCommit and before the history chain is stored makes the next start root the chain again, and a peer with
  the same log is then taken for a fork (`CrashWitness.SameLogForked`, `Ledger.ForkedAfterCrash`,
  `ChainSurvivesExactly`).
- Submitting the ID of a failed, superseded or pending operation again overwrites it (`NodeOperations.ResubmissionReopens`,
  `ReopensExactly`).
- On a full weight tie both sides of a fork yield (`ForkDetector.TieMovesBoth`, `ExactlyOneYields`).
- A resume works on a copy of the job loaded at startup and writes it before it takes the healing flag, so it can take a
  finished job back to STATE_SWAPPED (`HealJob.StatusCanMoveBack`, `StatusForwardExactly`, `StatusOnlyForward`).
- For operations other than ADD_MEMBER and REMOVE_MEMBER the retry counter is raised in memory but never stored, so
  rebasing never ends them (`OperationRuns.OtherKindsEndExactlyByExpiry`).

## Model

| member | source | states |
|---|---|---|
| Election.BeforeTotal | app/coordination/single_writer.go:20-58 | of two different peers one comes before the other in the election order of an epoch, even if their hashes collide |
| Election.BeforeTransitive | app/coordination/single_writer.go:20-58 | the election order is transitive, so argmin is well defined |
| Election.BeforeAsymmetric | app/coordination/single_writer.go:20-58 | no two peers come before each other |
| Election.TokenHashesSeparate | app/coordination/single_writer.go:20-48 | two epochs or peers share a token hash only if the hash function collides on inputs that begin with the group ID |
| Election.FirstMinimalIsFirst | app/coordination/single_writer.go:20-48 | over a sorted view the scan that keeps the smallest hash returns the one peer that comes first in the election order |
| Election.ComputeTokenHolder | app/coordination/single_writer.go:20-48 | the loop: error exactly on the empty view, otherwise the first peer of the order |
| Election.FilterPeers | app/coordination/single_writer.go:116-127 | the filter loop keeps exactly the wanted candidates, in order |
| Election.HolderIsFirst | app/coordination/single_writer.go:345-357 | the holder is p if and only if the policy answers and p is first among view ∩ authorised − removed − suspended; no holder if and only if that set is empty |
| Election.HolderNotRemoved | app/coordination/coordinator_helpers.go:138-148 | an elected holder is never removed by the batch that elected it |
| Election.ComputeHolder | app/coordination/single_writer.go:345-399 | the three filter loops followed by the argmin compute that holder |
| SingleWriter.SingleWriter.constructor | app/coordination/single_writer.go:87-95 | a fresh writer has an empty buffer and nobody suspended |
| SingleWriter.SingleWriter.Suspend | app/coordination/single_writer.go:107-114 | adds one peer to the suspensions, nothing else |
| SingleWriter.SingleWriter.BufferProposal | app/coordination/single_writer.go:187-216 | appends while below the cap; a proposal whose reference is already buffered is dropped and the old entry stays |
| SingleWriter.SingleWriter.SnapshotNextBatch | app/coordination/single_writer.go:221-239 | the next batch is a sorted permutation of the buffer; the buffer is untouched |
| SingleWriter.SingleWriter.HolderForBatch | app/coordination/single_writer.go:169-181 | a validator's holder for a received batch is first among those that may hold |
| SingleWriter.SingleWriter.CurrentTokenHolder | app/coordination/single_writer.go:152-165 | the holder for the node's own next batch |
| SingleWriter.SingleWriter.DrainBatchByRefs | app/coordination/single_writer.go:251-275 | keeps exactly the unreferenced entries and returns the others sorted |
| SingleWriter.SingleWriter.DrainBatchByData | app/coordination/single_writer.go:282-303 | keeps exactly the entries whose bytes were not committed and returns the others; none is lost |
| SingleWriter.SingleWriter.AdvanceEpoch | app/coordination/single_writer.go:330-336 | a new epoch starts with an empty buffer and no suspensions |
| SingleWriter.DrainConserves | app/coordination/single_writer.go:251-275 | draining by reference loses and invents no proposal (multisets) |
| Agreement.SameSetSameBatch | app/coordination/single_writer.go:187-239 | the same set of distinctly referenced proposals, in any arrival order and with repeats, gives the same batch sequence |
| Agreement.OrderIndependentExactlyWithinCap | app/coordination/single_writer.go:187-239 | arrival order is immaterial if and only if the proposals fit under the cap |
| Agreement.BeyondCapDiffers | app/coordination/single_writer.go:187-216 | beyond the cap two arrival orders of the same set give different batches |
| Agreement.SameHolderEverywhere | app/coordination/single_writer.go:131-181 | nodes with equal epoch, view set, suspensions and proposal set elect the same holder, so at most one believes it holds |
| Agreement.SameViewSameMembers | app/coordination/active_view.go:171-180 | the sorted snapshot is a function of the set of members |
| Agreement.ProposalMsgsFromBatch | app/coordination/coordinator_helpers.go:52-71 | the loop to the wire form, with its inverse |
| Agreement.BufferedBatchFromProposalMsgs | app/coordination/coordinator_helpers.go:73-92 | the loop back from the wire form |
| Agreement.BatchRoundTrip | app/coordination/coordinator_helpers.go:52-92 | a batch survives the trip to messages and back unchanged |
| Agreement.CommitterValidatorAgree | app/coordination/coordinator_commit.go:49-71 | a commit issued from the holder's whole buffer passes the sender check and the self-removal check at every peer with the same epoch, view and suspensions |
| Agreement.SyncCommitAcceptedExactlyWhen | app/coordination/coordinator_members.go:189-241 | a one-proposal commit by a holder passes at peers if and only if the proposal does not remove the committer and repeats whatever removal cleared a higher-ranked peer; whether the proposal is in the deciding buffer plays no part |
| Agreement.SyncAddRefused | app/coordination/coordinator_members.go:189-241 | a concrete holder whose synchronous add every peer refuses, with room in the buffer and with a full one |
| Agreement.SyncSelfRemovalRefused | app/coordination/coordinator_members.go:391-420 | a concrete holder whose synchronous removal of itself every peer refuses |
| IssuedCommits.TimedCommitPasses | app/coordination/coordinator_commit.go:380-461 | the commit that tryCommitLocked publishes passes at every like-minded peer, from the envelope's sender text on |
| IssuedCommits.SyncCommitPassesExactly | app/coordination/coordinator_members.go:42-486 | the same for the commits of AddMember and RemoveMember, as an if-and-only-if on the buffer that decided: with the new proposal for an add, if there was room, without it for a removal |
| Agreement.ProposalRefSetsEqual | app/coordination/coordinator_helpers.go:116-136 | sorting both lists decides equality as multisets |
| Failover.FailoverTimeout | app/coordination/coordinator_commit.go:353-375 | one firing suspends the current holder if it is another peer and proposals wait, and changes nothing else |
| Failover.TimeoutExactly | app/coordination/coordinator_commit.go:353-375 | a timeout suspends the first electable peer if and only if proposals wait and that is a real peer other than the local node; otherwise nothing changes |
| Failover.TimeoutTakesFirst | app/coordination/coordinator_commit.go:353-375 | a timeout removes exactly the first electable peer, never the local node |
| Failover.SuspensionsAscend | app/coordination/coordinator_commit.go:323-377 | over any number of timeouts peers are suspended in strictly increasing election order, nobody twice, never the local node |
| Failover.HolderAfterExactlyThoseAhead | app/coordination/coordinator_commit.go:323-377 | an electable local node is holder after k timeouts if and only if k is at least the number of electable peers ahead of it, and exactly those are then suspended |
| Failover.BystanderExhausts | app/coordination/coordinator_commit.go:323-377 | a node that may not hold sees no holder left if and only if there were as many timeouts as electable peers |
| EpochTracker.EpochTracker.constructor | app/coordination/epoch.go:42-50 | a fresh tracker buffers nothing |
| EpochTracker.EpochTracker.BufferFuture | app/coordination/epoch.go:102-113 | appends in arrival order under the message's epoch; ignores epochs that are not ahead |
| EpochTracker.EpochTracker.Advance | app/coordination/epoch.go:70-89 | hands out the new epoch's queue and keeps exactly the queues still ahead |
| EpochTracker.EpochTracker.FutureBufferSize | app/coordination/epoch.go:117-125 | the loop counts every buffered message |
| EpochTracker.SizeAdvance | app/coordination/epoch.go:70-89 | a one-step advance splits the buffer size into the returned queue and the rest |
| EpochTracker.BufferHoldsWhatIsAhead | app/coordination/epoch.go:70-113 | in every run the buffer lies strictly ahead of the epoch and holds exactly what was offered in time |
| EpochTracker.AdvanceHandsOutExactly | app/coordination/epoch.go:70-113 | each advance of a run returns every message offered in time for its epoch, once, in arrival order |
| EpochTracker.BufferConserves | app/coordination/epoch.go:70-113 | accepted messages = returned messages + buffered messages, in every run |
| HybridClock.BeforeStrictTotal | app/coordination/types.go:25-40 | the timestamp order is a strict total order |
| HybridClock.HLC.Now | app/coordination/hlc.go:46-73 | the new clock with wrap-around and overflow guard, strictly later than the old one whenever the wall component is not the largest int64 |
| HybridClock.HLC.Update | app/coordination/hlc.go:77-118 | rejects exactly on excessive drift and then changes nothing; otherwise the merged clock in machine arithmetic |
| HybridClock.MergeDominatesExactlyWhen | app/coordination/hlc.go:77-118 | an accepted receive is later than what it received unless the received counter is 2^32−1 and its wall time is at least the clock's and the reading; and later than the clock was unless, besides, the clock stood at that wall time with no guard due; both as if-and-only-if on the inputs |
| HybridClock.LargestCounterWraps | app/coordination/hlc.go:97-110 | the concrete input on which the counter wraps and the receive is stamped before the send |
| HybridClock.TickIsLeast | app/coordination/hlc.go:46-73 | a tick is the least clock after the old one and not behind the reading; with the guard due, the least with a later wall component |
| HybridClock.MergeIsLeast | app/coordination/hlc.go:77-118 | a receive is the least clock after the old one and after what was received, and not behind the reading |
| ClockRuns.NothingWraps | app/coordination/hlc.go:46-118 | when every received timestamp came from some node's Now, at every event each argument of the uint32 and int64 arithmetic is its own result |
| ClockRuns.ClockCondition | app/coordination/hlc.go:46-118 | happens-before between stamped events implies a strictly smaller timestamp, across restarts whose first stamp passes the last one before them |
| ClockRuns.ClockConditionExactly | app/coordination/hlc.go:28-118 | over every run with restarts: the clock condition holds along all chains of events if and only if every restart's first stamp passes the last one before it |
| ClockRuns.GapExactly | app/coordination/hlc.go:37-118 | when a first stamp passes the last one before the restart, on the inputs: a send needs a later physical reading, a receive may also get there by the stamp it takes |
| ClockRuns.RestartCanStepBack | app/coordination/hlc.go:37-73 | a concrete run in which a clock that was ahead of its readings restarts and stamps the next message earlier |
| ClockRuns.StampsDistinct | app/coordination/hlc.go:46-118 | under the same condition no two stamped events of a run carry the same timestamp |
| ClockRuns.DriftBound | app/coordination/hlc.go:50-98 | with non-decreasing readings the wall component exceeds the latest reading by at most MaxClockDriftMs plus the number of guard bumps |
| Reconciliation.OperationStore.ReconcileAfterCommit | app/coordination/coordinator_reconcile.go:10-60 | after the loops every operation is settled by the first matching delivery or removal and then reviewed for staleness |
| Reconciliation.OperationStore.Supersede | app/coordination/coordinator_reconcile.go:117-200 | exactly the settled opposite operations that the commit does not carry become SUPERSEDED and lose their key |
| Reconciliation.SubmittedExactly | app/coordination/coordinator_members.go:62-127 | a submission is answered if and only if the row with its ID or the first with its key is committed, satisfied or proposed, or another open row holds its key; otherwise it replaces the row with its ID or becomes a new one |
| Reconciliation.OperationStore.Submit | app/coordination/coordinator_members.go:62-127 | a submission is answered by an existing row, refused by the unique index, or stored by an upsert on its ID; open operations never share a key |
| Reconciliation.FirstDeliveryDecides | app/coordination/coordinator_reconcile.go:22-36 | the first delivery that carries an add or adds its target decides: COMMITTED by its own, SATISFIED_BY_OTHER otherwise; without one the status stays |
| Reconciliation.FirstRemovalDecides | app/coordination/coordinator_reconcile.go:37-51 | the first removal of its target decides a removal in the same way |
| Reconciliation.MatchDeliveries | app/coordination/coordinator_reconcile.go:22-36 | the inner loop over the add deliveries |
| Reconciliation.MatchRemovals | app/coordination/coordinator_reconcile.go:37-51 | the inner loop over the included removals |
| Reconciliation.Collect | app/coordination/coordinator_reconcile.go:117-148 | the two collecting loops find exactly whom the commit added and removed and which operations it carries |
| OperationRuns.FinalStaysFinal | app/coordination/coordinator_reconcile.go:202-390 | a final status never returns to PENDING or PROPOSED, and a final operation is never re-proposed |
| OperationRuns.BoundedProposals | app/coordination/coordinator_reconcile.go:257-310 | any run re-proposes an operation at most maxRetries times; every re-proposal is counted in its retry count |
| OperationRuns.OpenCostsRetries | app/coordination/coordinator_reconcile.go:257-310 | an add or remove that is still open after epoch changes at growing epochs has paid one retry for each |
| OperationRuns.FinalAfterRetries | app/coordination/coordinator_reconcile.go:257-310 | an add or remove is final after maxRetries+1 reconciliations at growing epochs |
| OperationRuns.OtherKindsEndExactlyByExpiry | app/coordination/coordinator_reconcile.go:282-386 | any other kind of operation is never saved by rebasing: it ends if and only if it expires or its budget was spent from the start |
| OperationRuns.SurvivesExactlyWhenCarried | app/coordination/coordinator_reconcile.go:117-200 | a settled operation survives a commit in the opposite direction exactly when the commit carries it, and is then untouched |
| OperationRuns.NoStaleOperation | app/coordination/coordinator_reconcile.go:10-53 | in the order of reconciliation calls, no settled operation opposes the last reconciled change of its target |
| Unwinding.OpenUnwound | app/coordination/coordinator_commit.go:96-114 | an open operation under a chain of commits reconciled last to first: when it is still open and when it is settled, exactly |
| Unwinding.UnwoundStaleExactly | app/coordination/coordinator_commit.go:96-114 | it is stale after the call if and only if it was open, can stay open at the final epoch, and the chain first serves it and then takes that back |
| StaleKeys.CommitUnwinds | app/coordination/coordinator_commit.go:12-132 | what handleCommitLocked with its drains makes of one operation: the commits it adds to the log are reconciled last to first |
| StaleKeys.EventExact | app/coordination/coordinator_reconcile.go:10-200 | one event leaves a settled operation against the last applied change of its target if and only if it overtakes an operation: by such a chain, or by a crash before reconciliation |
| StaleKeys.FreshExactly | app/coordination/coordinator_reconcile.go:10-200 | over every coordinator run, with the last change read from the applied commits: no stale operation at any point if and only if no event overtakes one |
| StaleKeys.KeysReleased | app/coordination/coordinator_reconcile.go:117-200 | then after the last applied removal of a peer no settled add for it holds a key, and symmetrically |
| StaleKeys.OpponentWaited | app/coordination/coordinator_commit.go:543-564 | an event that is no crash overtakes an operation only if a commit in the future buffer opposes it and another commit of the call serves it |
| StaleKeys.NothingWaiting | app/coordination/coordinator_commit.go:543-564 | while no commit in the future buffer opposes an operation for the target, no event but a crash overtakes anything |
| ReleasedChain.AppliedGrows | app/coordination/coordinator_commit.go:506-565 | the commits an event adds to the log are those computed from the state before it: its first commit and what that releases from the buffer, queue by queue |
| ReleasedChain.AppliedWaited | app/coordination/coordinator_commit.go:543-564 | every commit of an event after its first was waiting in the future buffer |
| KeyWitness.DrainLeavesKey | app/coordination/coordinator_commit.go:96-114 | a concrete call that applies an add and then the waiting removal, and leaves the add COMMITTED with its key |
| KeyWitness.WitnessOvertakes | app/coordination/coordinator_commit.go:96-114 | at that call every hypothesis of the exact theorem holds, and its condition singles the call out |
| NodeOperations.RebaseOneIsStep | app/coordination/coordinator_reconcile.go:202-390 | the coordinator's own rebasing of an operation, with its proposal step, is one event of the operation's run |
| NodeOperations.OperationsStayBounded | app/coordination/coordinator_reconcile.go:202-390 | over every coordinator run, drains and crashes included, that does not submit the ID again: final stays final, intent is kept, retries stay within the budget |
| NodeOperations.FinalOnceEpochsRise | app/coordination/coordinator_reconcile.go:202-390 | an add or remove that is not submitted again is final once more commits have been finished than it has retries left |
| NodeOperations.ReopensExactly | app/coordination/coordinator_members.go:62-127 | an event reopens a final operation if and only if it submits the same ID again and the row does not answer for it |
| NodeOperations.FinalForeverExactly | app/coordination/coordinator_members.go:62-127 | over a run a final operation stays final at every point if and only if no event reopens it so |
| NodeOperations.ResubmissionReopens | app/coordination/coordinator_members.go:62-127 | the failing family: a failed or superseded operation submitted again is PENDING with no retry used |
| Coordinator.HandleCommit | app/coordination/coordinator_commit.go:12-132 | the mutual recursion of commit handling and epoch advance terminates because handling a message that is not ahead never grows the future buffer; the epoch never falls and the buffer stays ahead |
| Coordinator.AdvanceAndDrain | app/coordination/coordinator_commit.go:506-565 | the epoch rises and the drain never re-buffers |
| Coordinator.Drain | app/coordination/coordinator_commit.go:543-564 | the drain loop decreases buffer size plus queue length |
| Coordinator.HandleProposal | app/coordination/coordinator_proposal.go:12-159 | a proposal never touches epoch, history, log or operations; it is buffered ahead of time, adopted or dropped |
| Coordinator.SentExactly | app/coordination/coordinator_application.go:192-267 | a message goes out exactly if MLS encrypts it to a non-empty state and its envelope is new; then it is stored, marked applied, logged and published under the new stamp; the clock ticks in any case and nothing else changes |
| Admission.AdmittedExactly | app/coordination/coordinator_commit.go:12-95 | handleCommitLocked applies a commit if and only if it is new and of the current epoch, comes from the first peer that may hold the token for its proposals (unless it has none or its sender does not decode), removes not that peer, announces the staged references if any, and MLS makes a non-empty state of it |
| Admission.RefusedIsMarked | app/coordination/coordinator_commit.go:28-84 | a new commit of the current epoch that is not applied joins the invalid hashes, and nothing else changes; only an empty MLS state leaves no mark |
| Admission.AppliedJustified | app/coordination/coordinator_commit.go:12-132 | every commit an event adds to the log, over arbitrary senders: its own as holder for the deciding buffer, a received one from the holder under the node's view and suspensions, and each released one from the holder of its epoch with nobody suspended |
| Admission.LogJustified | app/coordination/coordinator_commit.go:12-132 | over every run with sorted views: each commit of the log was justified so at the event that added it |
| EngineStates.OneCommitMoves | app/coordination/coordinator_commit.go:506-541 | a commit with nothing waiting behind it, received or issued: group state and tree hash are MLS's answer to it, and epoch, commit hash, log, marker and first-seen time move with them |
| EngineStates.CrashKeepsAnswer | app/coordination/coordinator_commit.go:82-96 | a crash after ApplyCommit leaves MLS's answer in the record, whether or not the chain was stored |
| EngineStates.EventFollows | app/coordination/coordinator_commit.go:506-565 | after any event the tree hash is the one MLS gave for the last commit it applied, however many it released |
| EngineStates.TreeOfTheLog | app/coordination/coordinator_commit.go:506-565 | over every run, crashes included, the tree hash is the one MLS gave for the last commit of the log |
| EngineStates.InOrderStates | app/coordination/coordinator_commit.go:12-96 | along a valid chain each state and tree hash is processCommit's answer to the state before |
| EarlyMessages.AsideKept | app/coordination/coordinator_application.go:69-74 | an early proposal, commit or message goes to the end of the queue of its epoch, and nothing else happens |
| EarlyMessages.QueuesHold | app/coordination/coordinator_commit.go:543-564 | over every run without a restart, until its epoch is reached a queue holds exactly what was put aside for it, in order of arrival |
| EarlyMessages.EventTurns | app/coordination/coordinator_commit.go:543-564 | the event that reaches an epoch hands each message waiting for it to its handler once, in order; a turn applies an admissible commit, delivers a deliverable message, adopts an adoptable proposal, and otherwise leaves the logs alone |
| EarlyMessages.EarlyDelivered | app/coordination/coordinator_application.go:17-166 | so an early message is delivered if, at its turn, its hash is new, it is in the window, the clock accepts its stamp and it decrypts to a non-empty state |
| Receiving.LoggedOnly | app/coordination/coordinator_message.go:18-96 | while catching up or frozen a node only records the first-seen time of commits and messages, while catching up only with offline sync on |
| Receiving.LiveDispatch | app/coordination/coordinator_message.go:18-96 | a live node drops its own, foreign and future-dated envelopes and hands the others to the handler of their type |
| Receiving.VerdictExactly | app/coordination/coordinator_replay.go:16-89 | each replay verdict says exactly what happened, and a cursor may pass an envelope if and only if it is applied or has left the window |
| Receiving.RestartExactly | app/coordination/coordinator.go:320-375 | a restart keeps what is stored, starts memory afresh and gives a chain without a link for the stored epoch the initial one |
| Proposals.ProposeExactly | app/coordination/coordinator_proposal.go:187-262 | a proposal of one's own goes out once, as MLS made it, and into the buffer; or nothing happens |
| Proposals.RebaseOneExactly | app/coordination/coordinator_reconcile.go:209-390 | one round of rebasing: a due add or removal sends and buffers one proposal of its own kind, ID, target and payload and records its hash; if MLS makes none, nothing goes out and the status stays; any other operation is settled or left alone, by conditions on its fields |
| Proposals.RebaseSends | app/coordination/coordinator_reconcile.go:202-390 | a whole pass sends one envelope per re-proposed row, in row order, each made in the group state the one before left, and buffers the same proposals in turn |
| Proposals.ReconcileSends | app/coordination/coordinator_commit.go:108-114 | the same at the end of every commit, after the operations are settled by it |
| Proposals.AdoptedExactly | app/coordination/coordinator_proposal.go:96-142 | a received proposal joins the buffer under MLS's reference if and only if it is of the current epoch, MLS processes it and an announced reference matches; otherwise nothing changes |
| Proposals.JoinExactly | app/coordination/coordinator_proposal.go:30-94 | a join in the window becomes a removal of the stale member, if MLS has it, and an add, both buffered and not sent |
| Proposals.DeliveriesExactly | app/coordination/coordinator_helpers.go:25-50 | an issued commit delivers each of its adds once, in batch order, with the add's metadata and the Welcome's hash |
| Proposals.IssuedCarries | app/coordination/coordinator_commit.go:401-461 | an issued commit includes exactly its batch, and what it says it adds and removes is what the batch adds and removes |
| Issuing.TimerExactly | app/coordination/coordinator_commit.go:380-487 | the commit timer commits if and only if proposals wait, the node holds the token for them, it need not wait for an unseen authorised peer, and MLS makes a usable commit; otherwise at most the clock ticks |
| Issuing.AtOnceExactly | app/coordination/coordinator_members.go:189-290 | AddMember and RemoveMember: nothing, one sent and buffered proposal, or a commit of it, each exactly when |
| Issuing.DroppedExactly | app/coordination/coordinator_commit.go:97-107 | after a commit exactly the proposals in it, by reference or by non-empty bytes, leave the buffer |
| Issuing.CommittedLeave | app/coordination/coordinator_commit.go:96-114 | once a received commit is applied, a proposal in it is in the buffer only if the node has just proposed it again |
| NodeRuns.HandledByCommit | app/coordination/coordinator_commit.go:12-132 | every event that applies a commit ends as that commit's advance, drain and reconciliation end |
| NodeRuns.HandledWithoutCommit | app/coordination/coordinator_message.go:18-96 | every other event but a restart or a submission leaves epoch, history, commit log and operations alone and applies at most one message |
| Coordinator.Reconcile | app/coordination/coordinator_reconcile.go:202-390 | reconciliation after a commit leaves the protocol core and the future buffer alone |
| CoordinatorObject.Coordinator.constructor | app/coordination/coordinator.go:320-375 | a started coordinator with its tracker, writer, clock and store, its history rooted at the initial hash: the ledger invariant holds |
| CoordinatorObject.Coordinator.CreateLocal | app/coordination/coordinator_proposal.go:227-262 | in place: MLS and storage must accept, else nothing changes |
| CoordinatorObject.Coordinator.Broadcast | app/coordination/coordinator_proposal.go:187-225 | in place: stamps with the clock and publishes |
| CoordinatorObject.Coordinator.Propose | app/coordination/coordinator_proposal.go:187-225 | in place: create, broadcast, buffer |
| CoordinatorObject.Coordinator.HandleJoin | app/coordination/coordinator_proposal.go:12-159 | in place: a join becomes a removal of the stale leaf and an add |
| CoordinatorObject.Coordinator.AdoptProposal | app/coordination/coordinator_proposal.go:12-159 | in place: adopted only if MLS accepts and the reference is the announced one |
| CoordinatorObject.Coordinator.HandleProposal | app/coordination/coordinator_proposal.go:12-159 | in place: dispatch by kind and epoch agrees with the value model |
| CoordinatorObject.Coordinator.HandleApplication | app/coordination/coordinator_application.go:17-166 | in place: duplicate, stale, future, undecodable, undecryptable and applied messages, with their verdicts |
| CoordinatorObject.Coordinator.Deliver | app/coordination/coordinator_application.go:84-150 | in place: clock merge, decryption, message and marker stored together |
| CoordinatorObject.Coordinator.LogArrival | app/coordination/coordinator_application.go:84-150 | in place: the first-seen time of an envelope, kept if there is one |
| CoordinatorObject.Coordinator.Take | app/coordination/coordinator_application.go:84-150 | in place: message, marker and ratchet state stored together |
| CoordinatorObject.Coordinator.Rebase | app/coordination/coordinator_reconcile.go:202-390 | the rebasing loop with its proposals |
| CoordinatorObject.Coordinator.Repropose | app/coordination/coordinator_reconcile.go:288-345 | in place: the re-proposal of one operation |
| CoordinatorObject.Coordinator.Reconcile | app/coordination/coordinator_commit.go:108-114 | both reconciliation passes |
| CoordinatorObject.Coordinator.Examine | app/coordination/coordinator_commit.go:28-79 | the checks on a commit for the current epoch, in order |
| CoordinatorObject.Coordinator.MarkInvalid | app/coordination/coordinator_replay.go:180-185 | remembers the hash of a refused commit |
| CoordinatorObject.Coordinator.HandleCommit | app/coordination/coordinator_commit.go:12-132 | in place: the whole handler with its recursion agrees with the value model |
| CoordinatorObject.Coordinator.DropCommitted | app/coordination/coordinator_commit.go:97-107 | in place: drains by reference and by data |
| CoordinatorObject.Coordinator.AdvanceEpoch | app/coordination/coordinator_commit.go:506-565 | in place: the epoch change followed by the drain |
| CoordinatorObject.Coordinator.MoveOn | app/coordination/coordinator_commit.go:506-540 | in place: fields, tracker and writer move to the new epoch and the waiting queue is handed out |
| CoordinatorObject.Coordinator.DrainQueue | app/coordination/coordinator_commit.go:547-564 | the loop over the waiting messages |
| CoordinatorObject.Coordinator.HandleQueued | app/coordination/coordinator_commit.go:547-564 | its switch on the message type |
| CoordinatorObject.Coordinator.IsHolder | app/coordination/single_writer.go:131-149 | whether the local node holds the token |
| CoordinatorObject.Coordinator.CommitBatch | app/coordination/coordinator_commit.go:401-487 | in place: create, persist, publish, advance, reconcile |
| CoordinatorObject.Coordinator.TryCommit | app/coordination/coordinator_commit.go:380-396 | in place: commits only as holder, with state, batch and a ready view; nothing is applied twice and the history chain stays linked |
| CoordinatorObject.Coordinator.CommitOne | app/coordination/coordinator_members.go:189-290 | in place: the synchronous one-proposal commit, with the same guarantees |
| CoordinatorObject.Coordinator.HandleRaw | app/coordination/coordinator_message.go:18-96 | in place: drops own, foreign and future-dated messages, and only logs while catching up or frozen; nothing is applied twice and the history chain stays linked |
| CoordinatorObject.Coordinator.HandleCommitDetailed | app/coordination/coordinator_commit.go:134-186 | in place: the commit handler with its replay verdict |
| CoordinatorObject.Coordinator.ReplayOne | app/coordination/coordinator_replay.go:25-87 | in place: one envelope of a replay; a cursor-safe verdict means applied or never applicable |
| CoordinatorObject.Coordinator.ReplayEnvelopes | app/coordination/coordinator_replay.go:16-89 | the replay loop is a run of re-synchronisation events; at its end every envelope with a cursor-safe verdict is applied or never applicable, nothing is applied twice and the chain stays linked |
| CoordinatorObject.Coordinator.HolderTimedOut | app/coordination/coordinator_commit.go:353-375 | in place: the failover timer's suspension, never of the local node |
| CoordinatorObject.Coordinator.SendMessage | app/coordination/coordinator_application.go:192-267 | in place: the own message is marked applied and published; nothing is applied twice |
| CoordinatorObject.Coordinator.Request | app/coordination/coordinator_members.go:62-127 | in place: an operation is stored unless an existing one answers for it; open operations never share a key |
| Transitions.CommitPath | app/coordination/coordinator_commit.go:12-132 | commit handling with all its nested drains decomposes into elementary changes, each keeping the structural invariant |
| Transitions.ProposalPath | app/coordination/coordinator_proposal.go:12-159 | the same for proposals |
| Transitions.ApplicationPath | app/coordination/coordinator_application.go:17-166 | the same for application messages |
| Transitions.AfterAdvancePath | app/coordination/coordinator_commit.go:506-565 | the same for what follows an epoch change |
| Network.ActionShape | app/coordination/coordinator_commit.go:12-132 | one action of one node either sends only harmless proposals or is the epoch's holder issuing one commit |
| Network.HolderByEpoch | app/coordination/single_writer.go:345-357 | with batches that spare the view the holder depends on the epoch alone |
| Network.NoRival | app/coordination/coordinator_commit.go:380-461 | a second commit for an epoch would mean its holder had already moved on |
| Network.ActionKeeps | app/coordination/coordinator_commit.go:12-132 | every permitted action keeps the network invariant |
| Network.NoForks | app/coordination/coordinator_commit.go:12-132 | in every state of every run, under loss, duplication, reordering, replay, restarts and crashes between writes, at most one commit exists per epoch and of any two nodes' commit logs one is a prefix of the other |
| Confluence.CatchUp | app/coordination/coordinator_commit.go:506-565 | delivering the missing commit runs through everything that waited behind it |
| Confluence.OutOfOrder | app/coordination/coordinator_commit.go:12-96 | after any deliveries the node stands at the first commit it has not seen, exactly as after in-order delivery |
| Confluence.Confluence | app/coordination/coordinator_commit.go:12-96 | a valid chain delivered in any order and with repeats ends in the in-order state, field by field |
| Ledger.EventLedger | app/coordination/coordinator_commit.go:519-541 | every event keeps the applied markers and the past of the chain, and keeps the chain linked if and only if it is not a crash that severs it |
| Ledger.ChainSurvivesExactly | app/coordination/coordinator_commit.go:519-541 | over every run between heals the chain's epochs are a gap-free interval that links the logged commits if and only if no crash fell between ApplyCommit and the storing of the chain |
| Ledger.RunKept | app/coordination/coordinator_commit.go:519-532 | then chain and markers hold together at the end of the run |
| Ledger.ForkedAfterCrash | app/coordination/coordinator.go:337-361 | after such a crash the restart roots the chain again, and a peer with the same log is judged forked if and only if the lost link differs from the initial hash |
| CrashWitness.SameLogForked | app/coordination/coordinator_commit.go:506-541 | a concrete pair: both apply the same commit, one dies before its link is stored, and the peer's reply is judged a fork |
| Ledger.AppliedAtMostOnce | app/coordination/coordinator_replay.go:132-143 | any mix of live delivery, sending, replay, restarts and crashes applies each commit or application envelope at most once |
| Ledger.SameLogSameHash | app/coordination/coordinator_replay.go:165-178 | equal commit sequences from one anchor give equal history hashes |
| Ledger.SameHashSameLog | app/coordination/coordinator_replay.go:165-178 | equal history hashes mean equal commit sequences, or the two logs exhibit an explicit collision of the hash function |
| Ledger.ReplyDecidesPrefix | app/coordination/coordinator_message.go:204-291 | a matching history reply means the local log is a prefix of the remote one (or a collision), a mismatch means it is not, and no answer means the remote is behind |
| CursorSafety.CursorSafeMeans | app/coordination/coordinator_replay.go:16-89 | an envelope reported cursor-safe is applied, or is buried for good |
| CursorSafety.RunProgress | app/coordination/coordinator_replay.go:16-89 | over every run with a non-decreasing clock what is applied stays applied and what is buried stays buried |
| CursorSafety.NeverAppliedAgain | app/coordination/coordinator_replay.go:16-89 | after a cursor-safe report no later event of any run applies the envelope again |
| ForkDetector.OutweighsStrictTotal | app/coordination/fork_healing.go:19-65 | outweighing is a strict total order on weights |
| ForkDetector.CompareByWeight | app/coordination/fork_healing.go:19-65 | the cascade of comparisons on different branches is the weight order; anything but a win is a loss |
| ForkDetector.ExactlyOneYields | app/coordination/fork_healing.go:19-65 | of two different branches exactly one yields if and only if their weights differ; on a full tie both do |
| ForkDetector.TieMovesBoth | app/coordination/fork_healing.go:60-64 | a concrete full tie on which both sides are told to move |
| ForkDetector.ForkDetector.constructor | app/coordination/fork_healing.go:120-125 | a fresh detector knows no branch, no peer and no invalid commit |
| ForkDetector.ForkDetector.UpdateLocal | app/coordination/fork_healing.go:127-141 | takes the new announcement, and forgets the known branches exactly when the epoch rises |
| ForkDetector.ForkDetector.MarkInvalidCommit | app/coordination/fork_healing.go:261-268 | remembers a non-empty hash |
| ForkDetector.ForkDetector.Reset | app/coordination/fork_healing.go:272-276 | forgets every known branch, keeps the invalid commits |
| ForkDetector.ForkDetector.ProcessRemote | app/coordination/fork_healing.go:150-218 | files the announcement and reports a fork exactly for a different branch, with the verdict |
| DetectorRuns.KnownExactly | app/coordination/fork_healing.go:127-276 | after any calls a branch is known if and only if an announcement of it still counts: heard with an own announcement in place, and no reset or rise of the own epoch since; then its peers, its first time and its last words are those of the announcements that count |
| DetectorRuns.VerdictExactly | app/coordination/fork_healing.go:150-218 | after any calls an announcement of another branch is judged by weight, with the supports then filed and the commits ever marked: the node stays if and only if its own branch outweighs |
| DetectorRuns.InvalidExactly | app/coordination/fork_healing.go:261-276 | the invalid hashes are the non-empty ones ever marked |
| ForkDetector.HeardFiles | app/coordination/fork_healing.go:150-218 | whatever the order and repeats, the detector files exactly the peers it heard, each under its branch |
| ForkDetector.TrueSupports | app/coordination/fork_healing.go:278-284 | once every other node was heard, support counts are the true branch sizes |
| ForkDetector.VerdictByWeight | app/coordination/fork_healing.go:150-218 | then a repeated announcement asks for an external join exactly unless the receiver's branch outweighs the announcer's |
| ForkDetector.HeaviestStays | app/coordination/fork_healing.go:150-218 | a node is on the branch that outweighs all others if and only if no announcement tells it to move |
| ActiveView.ActiveView.constructor | app/coordination/active_view.go:36-46 | a new view holds the local node alone |
| ActiveView.ActiveView.Seed | app/coordination/active_view.go:52-64 | adds absent non-empty peers with a fresh counter and leaves the others |
| ActiveView.ActiveView.RecordHeartbeat | app/coordination/active_view.go:73-93 | resets the counter and returns true exactly on an absent-to-present change |
| ActiveView.ActiveView.CheckLiveness | app/coordination/active_view.go:100-124 | counts one missed check for every remote peer and evicts exactly those that reach PeerDeadAfter |
| ActiveView.ActiveView.CheckEach | app/coordination/active_view.go:100-124 | the loop over the members |
| ActiveView.ActiveView.Evict | app/coordination/active_view.go:128-145 | removes the peer unless it is the local node |
| ActiveView.ActiveView.SortedMembers | app/coordination/active_view.go:171-180 | the snapshot is strictly sorted and holds exactly the members |
| ActiveView.CountersAgree | app/coordination/active_view.go:52-145 | after every trace the counter is the number of checks since the last sign of life that counts |
| ActiveView.ViewRefinesTrace | app/coordination/active_view.go:52-145 | after every trace a remote peer is in the view if and only if fewer than PeerDeadAfter checks passed since its last insertion or heartbeat with no eviction since; the local node always is |
| Outbox.Split | app/coordination/coordinator_batch.go:110-121 | payloads and events are cut into the same chunks of at most 50 |
| Outbox.Replay.constructor | app/coordination/coordinator_heal.go:259-371 | the outbox of a fresh snapshot |
| Outbox.Replay.SaveEvent | app/coordination/coordinator_batch.go:28-32 | one event write, unless the crash comes first; every stored status stays justified |
| Outbox.Replay.HandOver | app/coordination/coordinator_batch.go:15-26 | one publication before the BROADCASTED record, with a crash possible before either |
| Outbox.Replay.Settle | app/coordination/coordinator_batch.go:28-40 | the loop that marks every event of a broadcast entry, unless the crash comes first |
| Outbox.Replay.Broadcast | app/coordination/coordinator_batch.go:15-42 | publish, record, settle |
| Outbox.Replay.Rebroadcast | app/coordination/coordinator_heal.go:516-536 | after a crash every enqueued entry with events is broadcast again, so no event is left stuck |
| Outbox.Replay.Matching | app/coordination/coordinator_heal.go:521-527 | the events tied to an entry |
| Outbox.Replay.GiveUp | app/coordination/coordinator_batch.go:131-140 | a refused chunk is recorded as failed, event by event |
| Outbox.Replay.Enqueue | app/coordination/coordinator_batch.go:142-169 | stores the encrypted batch as a new entry |
| Outbox.Replay.Assign | app/coordination/coordinator_batch.go:171-178 | ties every event of the chunk to its entry |
| Outbox.Replay.ReplayChunk | app/coordination/coordinator_batch.go:123-183 | unless it crashes, one chunk is published once, in a new entry recorded as broadcast with all its events REPLAYED; or, refused by MLS, all its events fail and nothing goes out |
| Outbox.Replay.PrepareOne | app/coordination/coordinator_batch.go:56-104 | an event after the first pass, exactly: another author's payload is erased; an own one that waits is counted as an attempt and collected, fails to open, or lacks its payload |
| Outbox.Replay.Prepare | app/coordination/coordinator_batch.go:44-104 | the first pass collects exactly the own events that still wait and open |
| Outbox.Replay.BatchAndReplay | app/coordination/coordinator_batch.go:44-186 | without a crash nothing is left waiting or stuck |
| Outbox.Replay.Attempt | app/coordination/coordinator_heal.go:510-546 | one attempt of the replay phase with a crash after any number of writes and publications; if no crash comes within a bound on its writes, it completes |
| Outbox.Replay.ReplayJob | app/coordination/coordinator_heal.go:510-546 | the phase under any sequence of crashes keeps the invariant, completes only when nothing is left, and completes in an attempt that no crash cuts short |
| Outbox.Replay.EveryOwnEventIsOut | app/coordination/coordinator_batch.go:15-186 | when the phase completes, every own orphaned event whose payload opens is in a batch handed to the transport, unless MLS refused to encrypt a batch with it |
| Outbox.Replay.OnlyOwnPayloadsAreOut | app/coordination/coordinator_batch.go:15-186 | at every moment every published batch has at most 50 payloads, each of an own event of the job |
| HealJob.StepKeeps | app/coordination/coordinator_heal.go:180-601 | every step of the heal, the Welcome, ordinary steps, restarts and resumes keeps the invariant |
| HealJob.StatusForwardExactly | app/coordination/coordinator_heal.go:664-682 | a step takes a stored status back if and only if it is a resume whose startup copy was overtaken |
| HealSwaps.SwapsExactly | app/coordination/coordinator_heal.go:478-508 | a step takes a stored job to STATE_SWAPPED if and only if runHeal stores it after the swap, or a resume with a joined copy finds memory on its branch |
| HealSwaps.SwappedHasCause | app/coordination/coordinator_heal.go:642-682 | over every run: a job at or past STATE_SWAPPED had its own pending state installed as the record, or a resume found those epochs and hashes in memory |
| HealSwaps.StoredStays | app/coordination/coordinator_heal.go:373-508 | from the join on only the status of a stored job changes |
| HealRuns.JobsRemember | app/coordination/coordinator_heal.go:217-247 | over every run: before the join a stored job has no pending state and names the branch it was created for; from then on it holds the state, epoch and tree hash that a Welcome brought for it |
| HealRuns.WaitIsSilent | app/coordination/coordinator_heal.go:373-477 | while runHeal waits for a Welcome memory holds no group, no ordinary step happens and the record stays |
| HealRuns.WelcomeEndsWait | app/coordination/coordinator_heal.go:426-477 | a Welcome that comes during the wait wakes runHeal, which goes on with the joined job and the state it brought |
| HealRuns.TimeoutsBounded | app/coordination/coordinator_heal.go:426-477 | one wait times out at most twice |
| HealRuns.RestartResumes | app/coordination/coordinator.go:326-405 | a restart loads the newest unfinished job, and after its check runHeal takes it up |
| HealJob.RecordReplaced | app/coordination/coordinator_heal.go:784-826 | a step leaves the stored group, is an ordinary step from an agreeing memory, or installs a non-empty joined state |
| HealJob.NeverLosesGroup | app/coordination/coordinator_heal.go:180-194 | over every interleaving the stored state is non-empty, and on every exit and restart memory is non-empty and equal to it |
| HealJob.RecordHasSource | app/coordination/coordinator_heal.go:480-508 | every stored state of a run is the first one, an ordinary step's, or one a Welcome delivered |
| HealJob.StatusForward | app/coordination/coordinator_heal.go:373-508 | between two points of a run a status moves back only through an overtaken resume |
| HealJob.StatusOnlyForward | app/coordination/coordinator_heal.go:664-688 | if every resume does its check before another heal begins, statuses only move forward |
| HealJob.StatusCanMoveBack | app/coordination/coordinator_heal.go:664-688 | a concrete run from every initial state that takes a job from CLEANED back to STATE_SWAPPED |
| Healer.Healer.constructor | app/coordination/coordinator.go:320-340 | a node with a stored group and no job |
| Healer.Healer.Finish | app/coordination/coordinator_heal.go:180-194 | the deferred restore: on every exit memory is non-empty and equals the record |
| Healer.Healer.LoadOrCreate | app/coordination/coordinator_heal.go:217-247 | the newest unfinished job, or a new one |
| Healer.Healer.TakeSnapshot | app/coordination/coordinator_heal.go:259-371 | INITIATED to SNAPSHOT_CREATED |
| Healer.Healer.RequestJoin | app/coordination/coordinator_heal.go:373-425 | memory is dropped, PROPOSAL_SENT is stored with the key bundle, and the first Welcome decides |
| Healer.Healer.AwaitWelcome | app/coordination/coordinator_heal.go:426-477 | the loop of at most three attempts: it ends joined if and only if a Welcome comes before a cancellation, with the state that Welcome brought |
| Healer.Healer.Look | app/coordination/coordinator_heal.go:426-477 | one round of the wait: without a stale signal runHeal wakes if and only if a Welcome came, and then holds the job joined with exactly what it brought |
| Healer.Healer.Reload | app/coordination/coordinator_heal.go:438-447 | the signal is consumed and the job read again |
| Healer.Healer.SwapState | app/coordination/coordinator_heal.go:480-508 | record, memory and job move to the joined state, in that order |
| Healer.Healer.ReplayPhase | app/coordination/coordinator_heal.go:510-546 | each encryption moves memory and record together, then LOCAL_COMPLETE |
| Healer.Healer.FinishJob | app/coordination/coordinator_heal.go:510-559 | LOCAL_COMPLETE to CLEANED |
| Healer.Healer.Join | app/coordination/coordinator_heal.go:258-477 | the first phases: a job past its request passes through unchanged; otherwise runHeal goes on if and only if there is a key package and a Welcome before a cancellation |
| Healer.Healer.Conclude | app/coordination/coordinator_heal.go:478-601 | from the swap on: the job ends CLEANED if and only if it is past the swap or joined with a state to install, and the record is then the last encryption or the joined state |
| Healer.Healer.RunHeal | app/coordination/coordinator_heal.go:180-601 | every path through runHeal is a run of the state machine and ends with memory equal to the non-empty record; it finishes the job if and only if it is not aborted and the job is past the swap, or holds or gets by a Welcome a non-empty state; and then that state, or the last one encrypted on it, is the record |
| Healer.Healer.ProcessWelcome | app/coordination/coordinator_heal.go:710-765 | accepted exactly while the active job waits with its key; then the joined state is stored and signalled |
| Healer.Healer.TryBegin | app/coordination/coordinator_heal.go:136-146 | only one heal runs |
| Healer.Healer.RestartNode | app/coordination/coordinator.go:326-405 | memory is rebuilt from the record and an unfinished job is loaded |
| Healer.Healer.CheckJob | app/coordination/coordinator_heal.go:642-688 | the check on the loaded copy: STATE_SWAPPED is stored exactly if the copy is joined and memory has the pending epoch and tree hash, or at no such epoch the winning ones |
| Healer.Healer.ResumeJob | app/coordination/coordinator_heal.go:664-705 | the check followed by the race for the healing flag |

## Left out

- Ledger.AppliedAtMostOnce: batched application envelopes on the receiving side are no events; their handler stores without the applied marker's protection.
- CoordinatorObject.Coordinator.DrainQueue: batched application envelopes in the queue are passed over, for the same reason.
- CoordinatorObject.Coordinator.HandleQueued: passes over batched application envelopes likewise.
- CoordinatorObject.Coordinator.HandleRaw: heartbeats, announcements, history queries and batched envelopes change nothing here; `ActiveView`, `ForkDetector` and `Ledger.JudgeReply` model the first three on their own.
- CoordinatorObject.Coordinator.Propose: the started and access-revoked guards, which refuse the call, are not modelled.
- CoordinatorObject.Coordinator.SendMessage: the healing, started and access-revoked guards, which refuse the call, are not modelled.
- CoordinatorObject.Coordinator.CommitOne: the operation record is stored by `Request`, a separate event before it.
- Agreement.CommitterValidatorAgree: takes the sender as decoded; `IssuedCommits.TimedCommitPasses` starts from the envelope's text.
- The sealing of a node's own messages after each commit and the background replay that follows: the code stores these events under one job ID and looks them up under another, so that replay finds nothing to send.
- Delivery acknowledgements, direct retries, metrics, audit callbacks and logging: plumbing without protocol state.
- Timers and goroutines: a timer firing or a message arrival is a step that may happen at any time; deadlines and fairness are not modelled.
- A zero batching delay: rebasing would then commit recursively; the model schedules commits as separate steps.
- Callbacks to the application and Welcome delivery.
- JSON and SQLite: envelopes are values, storage writes are atomic, and a crash is a point between two writes. The SQLite adapter keeps no private key bundle in a heal job; the model does.
- MLS, SHA-256 and AES-GCM: total functions without laws, except that digests have 32 bytes where lineage needs it.
- The history chain that a start seeds in memory counts as stored; the code stores it with the next commit or view change.
- StaleKeys.EventExact: a crash comes before reconciliation; one between the saves of two operations inside it is not an event of `NodeRuns`.
- StaleKeys.FreshExactly: its runs have no crash inside reconciliation either.
- Outbox.Replay.Enqueue: the group state that encryption advances and the first write saves is not tracked.
- A hybrid clock shared by several groups of one process: each node has its own.
- Epochs as uint64: unbounded naturals, so `epoch + 1` never wraps.
- Pruning of the envelope log, and clocks that go back, in the cursor theorem.
- Heals inside node runs: `Ledger`, `Network` and `CursorSafety` speak of the time between two heals, since a heal may lower the epoch and re-roots the chain.
- ForkDetector.ForkDetector.ProcessRemote: the order of the other winner peers is left open, as Go's map iteration leaves it.
- Healer.Healer.RunHeal: interleavings and crashes inside the method are in the state machine of HealJob; the method runs alone, with Welcomes arriving while it waits.
- Outbox.Replay.EveryOwnEventIsOut: replay operation IDs are positions, so they never collide; the group state advanced by encryption is not tracked.
- Identical display order on all nodes and liveness of a heal after a Welcome timeout: the code does not promise them.
- `app/service`, `app/admin`, `app/cli`, the Rust engine, the front end and the evaluation scripts.
