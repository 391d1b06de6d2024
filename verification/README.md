# Verified model of the AuRa protocol and Gnosis execution rules

This project models the consensus and execution rules that a Gnosis node adds to an Ethereum node,
and proves what they guarantee. The main results are for all inputs: all chains, all sequences of
operations, all streams of transactions. Beside them, `ConcreteRuns.dfy` and the underpriced transaction
of `FeeCollector.dfy` are examples, which show that the surprising cases do occur.

The core is AuRa rolling finality. A tracker keeps a queue of unfinalized blocks and counts their
distinct signers; a block is final once a strict majority of the validators has signed from it on. When
a final block carried an `InitiateChange` event, the next block calls `finalizeChange` on the validator
contract. Three parties drive the tracker: the context of each block takes the schedule, the executor of
each block refreshes validators and records events and signers, and a startup replay rebuilds the
tracker from recent history.

| file | what it models |
|---|---|
| `RollingFinality.dfy` | the tracker object, and its meaning through the longest suffix without a majority |
| `FinalityHistory.dfy` | finality time, defined over the whole history of pushes |
| `PendingLifecycle.dfy` | what arbitrary sequences of tracker operations keep |
| `ValidatorSets.dfy` | block-keyed validator sets and the list-to-contract boundary |
| `AbiAddressArray.dfy` | decoding the answer of `getValidators()` |
| `AuraProtocol.dfy` | the protocol steps of one block, as functions and as the objects that carry them out |
| `BlockEffects.dfy` | what one block records, when it succeeds, what a failing one leaves, and blocks after the merge |
| `ProtocolRuns.dfy` | invariants over runs of consecutive blocks |
| `FinalizeChangeSafety.dfy` | causes and times of `finalizeChange` calls, and sealing of the validator set |
| `FinalityInRuns.dfy` | when a block becomes final and an event takes effect, in any run |
| `Recovery.dfy` | the startup replay, when it agrees with the live run, and runs after a restart |
| `ConcreteRuns.dfy` | short runs in which the surprising cases occur |
| `AuraHeaders.dfy` | difficulty, steps and round-robin proposers over header chains |
| `SealPreimage.dfy` | RLP, and the bytes an AuRa validator signs |
| `NetGasMetering.dfy` | EIP-1283 gas and refunds of `SSTORE` |
| `FeeCollector.dfy` | fee handling with the Gnosis fee collector |
| `PayloadSelection.dfy` | the transaction-selection loop of the payload builder |
| `ForkIds.dfy` | EIP-2124 fork identifiers |

Code of the repository that works by changing state is modelled by methods: the tracker, the
configuration, the block executor, the interpreter step and the journal are classes, and the loops of the
replay, the ABI decoder, the payload builder and the fork identifier are loops. Each such method is proved
equal to a function of its inputs and the old state, and the theorems are about those functions. A run is
recorded with the tracker at the start of every block, the tracker each block pushes its signer onto, and
the blocks each push finalizes; `ProtocolRuns.ExtendedIsRun` shows that every sequence of successful
executions is such a run. Runs start from a new tracker or from a recovered one
(`RecoveryAgreement.RecoveredStarts`).

Five findings about when calls are made:

* A schedule made at block n fires at block n + 1, except when n + 1 is the block after a
  list-to-contract boundary. The boundary call then takes precedence without clearing the schedule, and
  the scheduled call follows at n + 2, unless block n + 1 schedules another one over it
  (`ScheduleExact`; `BoundaryCallsTwice` is a run in which both calls are made).
* A block's push happens on a sealed validator set exactly if some POSDAO block of the run up to it has
  asked for the validators (`SealedPushExact`): as a contract-typed first POSDAO block, as the block after
  a list-to-contract boundary, or because a schedule was due. From a list-typed first POSDAO block on, the
  pushes are unsealed through the block that switches to a contract, whose initialization asks for an
  empty set only, unless a schedule was due at that first block, left by a pre-POSDAO event or a restart
  (`UnsealedInLists`). A switch that lasts for two blocks ends this with the boundary call of the second
  (`SealedFromBoundary`; `UnsealedUntilBoundary` is such a run).
* In any run, and also while validators are being discovered, block j finalizes block m exactly if no block
  after m up to j has called, the signer of m counts, and j is the first block by which a strict majority
  of the set then in force has signed from m on (`FinalityTimeInRun`).
* A call clears the window, so it strands every older event that is still pending: its block is never
  finalized, in any continuation of the run (`CallStrandsOlderEvents`; `SecondEventStranded` is such a
  run). An event is still pending at block n exactly if its signer does not count, or no block before n and
  before the next call has completed that majority (`PendingBySigners`).
* A schedule is taken when a block begins. If that block then fails, the call is lost: another attempt at
  the same block does not make it (`FailedAttemptLosesCall`; `CallLost` is such a case). An attempt leaves
  the next one's target as it was exactly if it took no schedule (`RetryExact`).

Two about recovery:

* The replay reads receipts only, while the live executor also reads the logs of the reward call, which
  the code says is where POSDAO events appear (src/block.rs, lines 520 to 523). When the receipts show
  every event of the window the two agree (`ReplayAgreesWithLive`, with the other assumptions listed
  below; `ReceiptEventRecovered` is such a run, replayed from the genesis block). When the receipts show none, they agree exactly if every event of the window has taken effect
  before the head block, and no older event becomes final with it (`HiddenEventsExact`); through signers, that
  means that before the head block, and before any call, there was a block by which a strict majority had
  signed from the event block on (`SettledBySigners`). In between, any event that is missing from the
  receipts and not final by the head block makes them disagree, whatever the other receipts show
  (`HiddenPendingEventIsLost`). `RewardEventLost` and `RewardEventSettled` are runs of both kinds.
* The recovered tracker starts with an empty queue. So the transitions it recovers are never finalized:
  they stay pending in every run that starts from it (`OlderTransitionsStay`).

One about fees: where the base-fee check is disabled, which is before the merge only, a transaction can
offer less than the base fee, and the collector is then credited more than the sender paid
(`UnderpricedTransactionMints`). Where no blob fee is burned, a sequence of transactions conserves the
supply exactly if each that is paid for is free, pays at least the base fee, uses no gas, or is in a block
before London (`FeesConserveSupply`).

The documentation says that a block is final when a majority has signed *after* it; the code counts the
block's own signer too, and so does the model.

## Model

| member | source | states |
|---|---|---|
| `RollingFinalityTracker.RollingFinality.constructor` | src/aura/finality.rs:48-57 | a new tracker is unsealed, with an empty window, no pending transition and no schedule, and satisfies the count invariant |
| `RollingFinalityTracker.RollingFinality.FromRecovered` | src/aura/finality.rs:61-73 | a recovered tracker has no validators and an empty window, is unsealed, and keeps exactly the given transitions and schedule, field by field |
| `RollingFinalityTracker.RollingFinality.CountsDecideMajority` | src/aura/finality.rs:77-79 | the incremental count of map keys decides whether a strict majority of distinct signers is queued |
| `RollingFinalityTracker.RollingFinality.Push` | src/aura/finality.rs:82-177 | a push admits or drops the signer, finalizes everything before the longest suffix without a majority, and applies the batch to transitions and schedule; the count invariant is kept |
| `RollingFinalityTracker.RollingFinality.PopFinalized` | src/aura/finality.rs:119-134 | the pop loop removes exactly the entries before the cut, in order; its exit on an empty queue is unreachable |
| `RollingFinalityTracker.RollingFinality.ScheduleFinalized` | src/aura/finality.rs:136-153 | the transition loop removes and schedules the batch's pending blocks one after the other |
| `RollingFinalityTracker.RollingFinality.SetImmediateFinalize` | src/aura/finality.rs:181-183 | overwrites the schedule and nothing else |
| `RollingFinalityTracker.RollingFinality.AddPendingTransition` | src/aura/finality.rs:186-189 | records the block's contract as pending and changes nothing else |
| `RollingFinalityTracker.RollingFinality.TakeFinalizeChange` | src/aura/finality.rs:194-206 | hands out a due schedule once and clears the window, and otherwise changes nothing |
| `RollingFinalityTracker.RollingFinality.SetValidators` | src/aura/finality.rs:211-217 | replaces and seals the set and clears the window, keeping transitions and schedule |
| `RollingFinalityTracker.CountsAfterPop` | src/aura/finality.rs:122-129 | popping an entry keeps each address mapped to exactly its positive number of occurrences |
| `FinalityRules.CutIsLeast` | src/aura/finality.rs:119-134 | an entry is before the cut iff a strict majority signed the queue from it on |
| `FinalityRules.CommitPending` | src/aura/finality.rs:136-138 | a batch removes exactly its own block numbers from the pending transitions |
| `FinalityRules.CommitSchedule` | src/aura/finality.rs:136-153 | in block order, a batch schedules the contract of its highest pending block, or keeps the schedule |
| `FinalityHistory.QueueIsLongestSuffix` | src/aura/finality.rs:115-134 | in a sealed window the queue is always the longest suffix of the known pushes that no majority has signed |
| `FinalityHistory.BatchBetweenCuts` | src/aura/finality.rs:115-134 | each push returns exactly the known pushes between the old and the new cut |
| `FinalityHistory.FinalizedThenQueueIsHistory` | src/aura/finality.rs:115-134 | all finalized batches followed by the queue are the history of known pushes, in order |
| `FinalityHistory.UnknownSignerStutters` | src/aura/finality.rs:93-112 | in a sealed tracker a push is a stutter step iff its signer is unknown |
| `FinalityHistory.FinalityTimeExact` | src/aura/finality.rs:82-134 | block i is returned by push j iff its signer is known and j is the first push by which a strict majority of the validators has signed from i on |
| `FinalityHistory.FinalizedOnce` | src/aura/finality.rs:119-134 | no block is finalized by two pushes |
| `FinalityHistory.DiscoveryExact` | src/aura/finality.rs:93-106 | before the set is sealed, it is what it started with and every signer pushed, each once, in the order of first pushes |
| `PendingLifecycle.ReachableBounded` | src/aura/finality.rs:77-79 | after any operations the queue's signers are validators and never a strict majority |
| `PendingLifecycle.ReachableIncreasing` | src/aura/finality.rs:18-22 | under the append-only rule the queue is in increasing block order |
| `PendingLifecycle.PendingEndsWithOwnFinalization` | src/aura/finality.rs:136-153 | an operation removes a pending transition iff it is the push that finalizes that block |
| `PendingLifecycle.PendingSurvives` | src/aura/finality.rs:186-217 | a pending transition survives any operations that do not finalize its block |
| `PendingLifecycle.BatchSchedulesHighest` | src/aura/finality.rs:136-153 | over any history of increasing pushes, a batch with several pending blocks schedules the highest one's contract for the next block |
| `ValidatorSets.KindAt` | src/aura/validators.rs:57-62 | no set covers a block iff every activation is later |
| `ValidatorSets.KindAtIsLatestActivation` | src/aura/validators.rs:57-62 | the set at a block is that of the highest activation not above it |
| `ValidatorSets.LookupExact` | src/aura/validators.rs:57-81 | the list or contract at a block is that of the latest activation entry, if that is of the kind asked for |
| `ValidatorSets.KindConstantBetweenActivations` | src/aura/validators.rs:57-81 | the set changes only at activation blocks |
| `ValidatorSets.BoundaryExact` | src/evm_config.rs:619-649 | the detector fires with c iff n and n - 1 resolve to contract c and n - 2 exists and to none, and at block 0 with its contract |
| `ValidatorSets.FiringAtContractEntry` | src/evm_config.rs:627-646 | a firing stems from an activation entry of its contract, at n - 1 or at genesis |
| `ValidatorSets.FiringsSeparated` | src/evm_config.rs:633-646 | two firings have a block without a contract between them |
| `ValidatorSets.FiringsAtMostContractEntries` | src/evm_config.rs:619-649 | over any range there are at most as many firings as contract entries |
| `AbiAddressArray.DecodeAddressArray` | src/block.rs:235-255 | accepts iff offset word, length word and all elements are in bounds, and returns the low 20 bytes of each element word, as `Decoded` defines it |
| `AbiAddressArray.DecodedExact` | src/block.rs:235-255 | in terms of the bytes: which inputs are accepted, and each result as the low 20 bytes of its word; higher bytes of the words are ignored |
| `AbiAddressArray.RoundTrip` | src/block.rs:235-255 | decoding the ABI encoding of a list, followed by anything, returns the list |
| `AbiAddressArray.StrictPrefixRejected` | src/block.rs:236-250 | every strict prefix of an encoding is rejected |
| `AbiAddressArray.EncodingsPrefixFree` | src/block.rs:714-732 | no list's encoding is a prefix of another's |
| `BigEndian.FirstByte` | src/block.rs:239-243 | the first byte is the most significant one |
| `AuraExecution.GnosisEvmConfig.ContextForBlock` | src/evm_config.rs:409-438 | the boundary rule comes first; only without it is the schedule taken; there is a context iff the block is before the merge, and otherwise the tracker is left alone |
| `AuraExecution.GnosisBlockExecutor.RefreshValidatorsViaGetValidators` | src/block.rs:175-227 | a decodable answer replaces the set; any other outcome fails and leaves the tracker alone |
| `AuraExecution.GnosisBlockExecutor.ApplyPreExecutionChanges` | src/block.rs:278-350 | initialization, finalizeChange and refresh in order, with the failure of each |
| `AuraExecution.GnosisBlockExecutor.Finish` | src/block.rs:516-574 | the tracker is left as `Finished` says; what that records is stated by the two rows below |
| `BlockEffects.PendingRecordedExact` | src/block.rs:524-552 | from POSDAO on a block becomes pending iff some log of its receipts or reward call comes from the contract in force and has the literal topic first |
| `BlockEffects.ScheduleRecordedExact` | src/block.rs:542-566 | before POSDAO it schedules a call for the next block iff it has such a log, and records nothing as pending |
| `AuraExecution.ExecuteBlock` | src/block.rs:270-599 | a block's effect on the tracker and its system calls, including what a block leaves behind that fails before, in, or after the protocol's steps |
| `BlockEffects.SuccessExact` | src/block.rs:285-350 | a pre-merge block succeeds iff getValidators answers with a list wherever asked, finalizeChange runs when called, and execution and balance increments succeed |
| `BlockEffects.FailedBlockLeaves` | src/block.rs:285-599 | a block failing at its very end leaves what success would; one failing before records no event and pushes nobody |
| `BlockEffects.PostMergeBlock` | src/evm_config.rs:409-413 | a block from the merge on gets no context, makes no system call, leaves the tracker alone, and succeeds iff it executes and settles |
| `BlockEffects.PostMergeBlocks` | src/evm_config.rs:409-413 | however many blocks follow the merge, the tracker stays what it was and no system call is made |
| `FinalizeChangeSafety.SystemCallsOfBlock` | src/block.rs:285-349 | finalizeChange is called exactly on the finalize target; getValidators exactly when initializing or after that call, and never before POSDAO |
| `FinalizeChangeSafety.CallsOfBlock` | src/block.rs:285-349 | the calls of a successful block in their order: getValidators to initialize, finalizeChange, getValidators again |
| `FinalizeChangeSafety.RetryExact` | src/evm_config.rs:414-430 | an attempt at a block leaves the finalize target of the next attempt as it was iff it took no schedule |
| `FinalizeChangeSafety.FailedAttemptLosesCall` | src/aura/finality.rs:194-206 | a scheduled call is lost with a failing attempt: the successful attempt after it calls nothing, though it would have in its place |
| `FinalizeChangeSafety.ValidatorsInForce` | src/block.rs:285-349 | which decoded answer, if any, the block's push counts against |
| `ProtocolRuns.QueueInvariant` | src/block.rs:567-573 | in every run the window holds POSDAO blocks of the run with their own signers, in order, without a majority |
| `ProtocolRuns.PendingInvariant` | src/block.rs:542-552 | in every run a transition of the run belongs to an earlier POSDAO event block and carries the contract in force there |
| `ProtocolRuns.OlderTransitionsStay` | src/aura/finality.rs:61-73 | a transition from before the run is never finalized in it and stays pending for ever, with its contract |
| `ProtocolRuns.UnqueuedStaysPending` | src/aura/finality.rs:136-153 | a block missing from the queue at a later push is never finalized any more, and its transition stays pending for ever |
| `ProtocolRuns.CallStrandsOlderEvents` | src/aura/finality.rs:194-217 | a finalizeChange call from POSDAO on leaves every older pending event pending for ever |
| `ProtocolRuns.PendingExact` | src/block.rs:542-573 | of the blocks of a run, pending are exactly the POSDAO event blocks not finalized yet |
| `ProtocolRuns.FinalizedOnceInRun` | src/aura/finality.rs:115-134 | no block is finalized by two blocks of a run, whatever clears and refreshes happen in between |
| `ProtocolRuns.ScheduleInvariant` | src/aura/finality.rs:136-153 | in every run a held schedule is due or passed over once, and is justified by an event block or was there at the start |
| `ProtocolRuns.FinalizedByStretch` | src/aura/finality.rs:115-134 | a block finalized in a run was followed, itself included, by blocks of a strict majority of the validators |
| `ProtocolRuns.ExtendedIsRun` | src/block.rs:270-374 | extending a run by a successfully executed block gives a run |
| `FinalizeChangeSafety.FinalizeChangeIsCaused` | src/evm_config.rs:414-430 | every finalizeChange call is a boundary call, stems from an earlier event of the same contract, signed over by a strict majority from POSDAO on, or is the one that a restarted run began with |
| `FinalizeChangeSafety.EachEventCallsAtMostOnce` | src/aura/finality.rs:136-153 | two scheduled calls have different event blocks as causes; at most the first is the one the run began with |
| `FinalizeChangeSafety.NeverDeferred` | src/aura/finality.rs:194-206 | at the start of every block a held schedule is already due, from a new or a recovered tracker |
| `FinalizeChangeSafety.ScheduleExact` | src/evm_config.rs:414-430 | the finalize target of a block, from the boundary rule and the schedules of the last two blocks alone |
| `FinalizeChangeSafety.HeldExact` | src/aura/finality.rs:181-206 | the schedule held at the start of a block is the one the run began with, the one made by the block before, or the one a boundary block passed over |
| `FinalizeChangeSafety.SchedulesExact` | src/aura/finality.rs:136-153 | a block schedules a call on a contract iff that contract is the one of its own event before POSDAO, or of the highest event block it finalizes from POSDAO on |
| `FinalizeChangeSafety.CallExact` | src/evm_config.rs:414-430 | away from boundaries, block n + 1 calls finalizeChange on c iff block n has such an event of c |
| `FinalizeChangeSafety.SealedPushExact` | src/block.rs:285-305 | a push is on a sealed set iff a POSDAO block up to it was the contract-typed first one, followed a list-to-contract boundary, or had a schedule due |
| `FinalizeChangeSafety.UnsealedInLists` | src/block.rs:285-305 | with list-typed sets up to its parent a block pushes unsealed, also when it switches to a contract, iff no schedule was due at the first POSDAO block |
| `FinalizeChangeSafety.SealedFromBoundary` | src/evm_config.rs:619-649 | a switch to a contract that lasts two blocks seals every push after the switching block |
| `FinalizeChangeSafety.AutoDiscoveryUnreachable` | src/aura/finality.rs:87-112 | with contract-typed sets from POSDAO on, no push auto-discovers, from a new or a recovered tracker |
| `FinalityInRuns.FinalityTimeInRun` | src/block.rs:567-573 | in any run, sealed or not, block m is finalized by block j iff no call came after m up to j, the signer of m counts, and j is the first block by which a strict majority of the set then in force has signed from m on |
| `FinalityInRuns.FinalityTimeSealed` | src/block.rs:567-573 | for a block pushed onto a sealed set: iff no call came after it up to j, its signer is in that set, and a strict majority of the set signed from it on by j but not before |
| `FinalityInRuns.PendingBySigners` | src/aura/finality.rs:194-217 | an event is pending at n iff its signer does not count or there was no block before n, and before any call after the event, by which a strict majority had signed from it on |
| `FinalityInRuns.EventStillPending` | src/block.rs:542-552 | an event stays pending as long as no call is made after it, sealed or not |
| `FinalityInRuns.EventTakesEffect` | src/evm_config.rs:414-430 | in any run the block after the one that makes an event block final calls finalizeChange, on the contract of the last event block that became final with it |
| `FinalityInRuns.CallBySigners` | src/evm_config.rs:414-430 | away from boundaries, block j + 1 calls finalizeChange on c iff the last of the event blocks that j makes final is one of c, with finality in terms of signers and earlier calls |
| `FinalityRecovery.ReconstructFinalityState` | src/aura/recovery.rs:42-101 | rebuilds exactly the pending transitions and schedule of the replay of the last 32 blocks, without validators or queue; nothing for list-typed sets |
| `FinalityRecovery.WindowIsLast32` | src/aura/recovery.rs:52-53 | the window is the last 32 blocks up to the head |
| `FinalityRecovery.SimulateBlock` | src/aura/recovery.rs:81-98 | one replayed block: take, scan, push; a missing header only takes |
| `FinalityRecovery.DiscoveredExactly` | src/aura/recovery.rs:66-73 | the first pass finds each beneficiary of the window exactly once, in order of appearance |
| `RecoveryAgreement.ReplayAgreesWithLive` | src/aura/recovery.rs:52-100 | the replay of the window yields the live run's schedule and its pending transitions of the window, also across POSDAO activation, and from the genesis block when the run is shorter than the window |
| `RecoveryAgreement.ScanExact` | src/aura/recovery.rs:87-96 | a replayed block records a transition or a schedule iff some log of its receipts comes from the contract and has the literal topic first |
| `RecoveryAgreement.MissingHeaderOnlyTakes` | src/aura/recovery.rs:81-86 | a block without a header only takes a due schedule |
| `RecoveryAgreement.RestartContinues` | src/aura/recovery.rs:42-101 | a run from the rebuilt tracker starts with the live run's schedule and pending transitions of the last 32 blocks, without validators, unsealed, with an empty queue, and its first finalize target is the live one |
| `RecoveryAgreement.NothingRecovered` | src/aura/recovery.rs:81-100 | without an event in the receipts of the window nothing is recovered, so older events are not |
| `RecoveryAgreement.RewardOnlyEventIsLost` | src/aura/recovery.rs:87-100 | an event of the head block that only the reward call logs, with no event in the window's receipts, always makes the replay disagree with the live run |
| `RecoveryAgreement.HiddenEventsExact` | src/aura/recovery.rs:81-100 | with no event in the window's receipts, replay and live run agree iff every event of the window took effect before the head block, no older event becomes final with it, and the run began without a transition of the window |
| `RecoveryAgreement.SettledBySigners` | src/block.rs:567-573 | an event has taken effect before the head block iff before it, and before any call after the event, there was a block by which a strict majority had signed from the event on; with a sealed set and no call, iff a majority signed up to the parent of the head |
| `RecoveryAgreement.HiddenPendingEventIsLost` | src/aura/recovery.rs:87-100 | an event of the window that is missing from the receipts and not final by the head block makes the replay disagree, whatever else the receipts show |
| `RecoveryAgreement.RecoveredStarts` | src/aura/recovery.rs:42-101 | a run after a restart starts with an empty queue and only past transitions and schedule, as all results about runs assume |
| `RecoveryAgreement.PushBehindPrefix` | src/aura/finality.rs:115-153 | entries in front of the window's own that hit no pending block do not change which of the window's entries are finalized |
| `RecoveryAgreement.MidQueueIsTaken` | src/block.rs:285-349 | refreshes clear no more of the window than the take has |
| `ConcreteRuns.BoundaryCallsTwice` | src/evm_config.rs:414-430 | a run with an event at the switch to a contract, whose blocks 2 and 3 both call that contract |
| `ConcreteRuns.UnsealedUntilBoundary` | src/block.rs:285-349 | a run that discovers signers up to and including the switching block, and is sealed by the boundary call after it |
| `ConcreteRuns.RewardEventLost` | src/aura/recovery.rs:81-100 | a run whose one event the reward call logs: pending live, lost in the replay |
| `ConcreteRuns.RewardEventSettled` | src/aura/recovery.rs:81-100 | a run with such an event that takes effect: replay and live run disagree before it has, and agree afterwards |
| `ConcreteRuns.ReceiptEventRecovered` | src/aura/recovery.rs:52-100 | a run whose event the receipts show: the replay from genesis recovers it, with the genesis beneficiary counted among the signers |
| `ConcreteRuns.CallLost` | src/evm_config.rs:414-430 | a due call that a failing attempt at block 2 makes and a later successful one does not |
| `ConcreteRuns.RestartKeepsCall` | src/aura/finality.rs:61-73 | a restart between a pre-POSDAO event and its call: the rebuilt tracker makes the call |
| `ConcreteRuns.OtherLogsIgnored` | src/block.rs:527-541 | contract logs with another topic, no topic, or the topic in second place, and the topic from elsewhere, record nothing before and after POSDAO |
| `AuraHeaders.DifficultyDoesNotWrap` | src/aura/seal.rs:119-125 | for all u64 steps the wrapping formula equals exact arithmetic |
| `AuraHeaders.AcceptanceExact` | src/aura/mod.rs:189-288 | a header is accepted iff hash, number, time, base fee, steps, difficulty and seal are all right, the seal by the list entry in force at the parent; the answer is its step |
| `AuraHeaders.RejectionExact` | src/aura/mod.rs:189-250 | which error a rejected header gets: that of the first check that fails |
| `AuraHeaders.ProposerErrors` | src/aura/mod.rs:254-273 | the proposer errors: an empty list, or a signer other than the one at step modulo length |
| `AuraHeaders.DifficultyTelescopes` | src/aura/mod.rs:230-244 | k validated blocks from step s0 to s weigh k times (2^128 - 1) minus (s - s0), and s is at least s0 + k |
| `AuraHeaders.HeavierChain` | src/aura/seal.rs:115-125 | from a common ancestor a chain is heavier iff it has more blocks, or equally many and the smaller final step |
| `AuraHeaders.AuthorIsProposer` | src/aura/mod.rs:254-273 | in a list region every accepted block is signed by the validator at its step modulo the list length |
| `AuraHeaders.SameSignerExact` | src/aura/validators.rs:89-96 | with distinct validators two blocks have the same signer iff their steps differ by a multiple of the list length |
| `AuraHeaders.ShortSpanDistinctSigners` | src/aura/validators.rs:89-96 | blocks spanning fewer steps than the list length have pairwise distinct signers |
| `SealPreimage.SealHashPayloadLength` | src/aura/seal.rs:57-77 | the separately computed length equals the number of payload bytes, for every header |
| `SealPreimage.ComputeSealPreimage` | src/aura/seal.rs:18-55 | the bytes appended are the RLP list of the signed fields |
| `SealPreimage.PreimageLayout` | src/aura/seal.rs:18-55 | decoded, the pre-image is a list of the 13 fixed fields in their order, then the base fee if there is one, and nothing else |
| `SealPreimage.PreimageInjective` | src/aura/seal.rs:18-55 | two headers have the same pre-image iff they agree on the 13 fixed fields and the optional base fee; step and seal do not matter |
| `Rlp.DecodeEncodeString` | src/aura/seal.rs:33-52 | decoding an RLP string, followed by anything, returns it |
| `Rlp.EncodeStringExact` | src/aura/seal.rs:33-52 | the bytes of a string encoding: single small byte, short and long form with a minimal length |
| `Rlp.EncodeListExact` | src/aura/seal.rs:21-26 | the bytes of a list framing, short and long form |
| `Rlp.DecodeEncodeItems` | src/aura/seal.rs:33-52 | decoding a payload returns its strings and leaves nothing over |
| `Rlp.EncodeItemsInjective` | src/aura/seal.rs:33-52 | the payload bytes determine the items and their number |
| `ConcreteRuns.SecondEventStranded` | src/aura/finality.rs:194-217 | a run with two events in turn, the first of which is final and calls, while the call strands the second |
| `NetGasMetering.TableMatchesEip` | src/evm_config.rs:122-134 | with the overridden table and forced net metering, gas and refund are those of EIP-1283 for all original, present and new values |
| `NetGasMetering.OverrideExact` | src/evm_config.rs:122-134 | the table is overridden entry by entry on pre-merge Constantinople blocks and left alone everywhere else |
| `NetGasMetering.AbsentSlotIsZero` | src/evm/gnosis_evm.rs:450-484 | a slot that has no value yet counts as zero |
| `NetGasMetering.Interpreter.SstoreEip1283` | src/evm/gnosis_evm.rs:429-485 | halts in the order of the checks; otherwise charges, refunds and stores exactly once |
| `NetGasMetering.SlotTelescopes` | src/evm/gnosis_evm.rs:450-484 | n stores to a slot, interleaved with any others, cost 200 n plus the net cost of its first to last value |
| `NetGasMetering.SlotRefundNonNegative` | src/evm/gnosis_evm.rs:478-484 | a slot's cumulative refund is never negative |
| `NetGasMetering.TransactionTelescopes` | src/evm/gnosis_evm.rs:450-484 | all stores of a transaction cost 200 each plus the net cost of every touched slot, in any order |
| `NetGasMetering.RunStores` | src/evm/gnosis_evm.rs:429-485 | the instruction, run for any stores in turn, succeeds iff the gas covers their total, and then spends, refunds and stores what the totals say |
| `FeeCollector.Journal.ValidateAgainstStateAndDeductCaller` | src/evm/gnosis_evm.rs:55-87 | deducts gas and blob cost up front, and from Prague on credits the blob cost to the collector |
| `FeeCollector.Journal.RewardBeneficiary` | src/evm/gnosis_evm.rs:89-122 | credits the tip to the beneficiary and, for transactions that are not free, the base fee to the collector |
| `FeeCollector.Journal.HandleTransaction` | src/evm/gnosis_evm.rs:55-122 | the handler, step by step in place, has the effect that the supply results speak of |
| `FeeCollector.PriceExact` | src/evm/gnosis_evm.rs:55-122 | the effective gas price: the gas price, capped by base fee plus priority fee if there is one |
| `FeeCollector.BlobCostExact` | src/evm/gnosis_evm.rs:64-71 | the blob cost: price times blob gas for blob transactions where there is a price, 0 otherwise |
| `FeeCollector.RefusedExact` | src/evm/gnosis_evm.rs:55-62 | a transaction is refused iff the sender cannot cover gas limit times price plus the blob cost |
| `FeeCollector.CreditExact` | src/evm/gnosis_evm.rs:73-83 | a credit adds its amount, up to the largest 256-bit number, to one account only |
| `FeeCollector.FreeRewardsNobody` | src/evm/gnosis_evm.rs:98-120 | a transaction with neither gas price nor priority fee leaves every balance as it is when rewards are paid |
| `FeeCollector.FreeConserves` | src/evm/gnosis_evm.rs:98-120 | such a transaction conserves the supply whatever the base fee |
| `FeeCollector.CollectorCreditedExactly` | src/evm/gnosis_evm.rs:98-120 | any other transaction of a London block credits the collector exactly the base fee times the gas used; before London it credits nothing |
| `FeeCollector.FeeChangeExact` | src/evm/gnosis_evm.rs:55-122 | who pays and who gets what, in terms of price, base fee, gas used and blob cost |
| `FeeCollector.SupplyHandled` | src/evm/gnosis_evm.rs:55-122 | the exact change of the total supply by one transaction |
| `FeeCollector.BalancesHandled` | src/evm/gnosis_evm.rs:55-122 | the exact change of every account, also when sender, beneficiary and collector coincide |
| `FeeCollector.ConservedExactly` | src/evm/gnosis_evm.rs:98-120 | where no blob fee is burned (from Prague on, or without blobs), supply is conserved iff the block is before London or the transaction is free, pays at least the base fee, or uses no gas |
| `FeeCollector.FeesConserveSupply` | src/evm/gnosis_evm.rs:55-122 | where no blob fee is burned, any sequence of transactions leaves the sum of all balances unchanged iff each that is paid for covers the base fee in that sense |
| `FeeCollector.SupplyHandledAll` | src/evm/gnosis_evm.rs:55-122 | the exact change of the total supply by any sequence of transactions |
| `FeeCollector.UnderpricedTransactionMints` | src/evm_config.rs:108-113 | in a London block before Prague with base fee 10, a transaction of 21000 gas at price 1 turns a supply of 21000 into 210000 |
| `FeeCollector.UnderpricedExists` | src/evm_config.rs:108-113 | such a block, transaction and balances exist |
| `PayloadSelection.EffectiveMaxBlobsExact` | src/payload.rs:235-240 | without a user limit the protocol's maximum; with one the largest number within both, or one if there is no positive one |
| `PayloadSelection.BuildPayload` | src/payload.rs:203-401 | the loop ends with its exit, having marked what was to drop before it, or with exactly the included transactions, their fees and sidecars, having marked exactly the transactions to drop |
| `PayloadSelection.Consider` | src/payload.rs:250-389 | one turn of the loop: keep, skip, skip and mark, cancel or fail, with the totals brought up to date |
| `PayloadSelection.TotalsExact` | src/payload.rs:364-388 | an included transaction adds its gas, blobs, length, fee and sidecar to the totals |
| `PayloadSelection.BudgetsHold` | src/payload.rs:250-389 | whatever is skipped, gas, blobs and the Osaka size estimate stay within their limits |
| `PayloadSelection.IncludedIsSubsequence` | src/payload.rs:250-389 | the included list is a subsequence of the stream |
| `PayloadSelection.SidecarsMatchBlobTxs` | src/payload.rs:311-339 | sidecars match the included blob transactions one by one, in the fork's format |
| `PayloadSelection.LeftOutForCause` | src/payload.rs:252-339 | a transaction that would execute is left out iff a budget has no room for it or its sidecar is unusable |
| `PayloadSelection.ExitIsFirstStop` | src/payload.rs:264-266 | the loop exits early exactly at the first transaction that calls for it |
| `PayloadSelection.StopsForCause` | src/payload.rs:252-361 | the loop exits at a transaction iff it fits the gas and the build is cancelled, or it fits all budgets and the pool or the execution fails |
| `PayloadSelection.MarkedExactly` | src/payload.rs:343-361 | a transaction is marked iff it is not included and did not merely have a nonce that is too low |
| `PayloadSelection.MarkedForCause` | src/payload.rs:252-361 | a transaction is marked iff it is not included, unless it fits all budgets and fails for a nonce that is too low |
| `ForkIds.ForkIdOf` | src/spec/gnosis_spec.rs:171-231 | two passes with early return compute the fold of the passed fork points and the first point not passed |
| `ForkIds.LogAllForkIds` | src/spec/gnosis_spec.rs:537-587 | the logged hash is the fold of all fork points |
| `ForkIds.ForkIdMeaning` | src/spec/gnosis_spec.rs:171-231 | for sorted forks the hash folds exactly the distinct nonzero passed points in order, and next is the least point not passed |
| `ForkIds.ForkIdOfEntries` | src/spec/gnosis_spec.rs:171-231 | in terms of the fork entries: the hash folds exactly the nonzero forks passed, in increasing order, and next is the least fork ahead |
| `ForkIds.PointsExact` | src/spec/gnosis_spec.rs:180-210 | which entries are forks: block entries and TTD entries with a fork block, and timestamps after genesis |
| `ForkIds.FoldInOrder` | src/spec/gnosis_spec.rs:185-213 | the fold takes the values from the first to the last |
| `ForkIds.AdvancingHeadExtends` | src/spec/gnosis_spec.rs:171-231 | advancing the head only extends the list of applied values |
| `ForkIds.ParisEntryInvisible` | src/spec/gnosis_spec.rs:382-392 | a TTD entry without a fork block, inserted anywhere, changes no identifier |
| `ForkIds.PastEveryFork` | src/spec/gnosis_spec.rs:227-230 | at a head past every fork the hash is the logged one and nothing is next |

## Left out

- Block numbers and gas sums near 2^64: block numbers, cumulative gas, offsets and lengths are unbounded here, so the overflow of `n + 1`, of the gas check or of the ABI offset at the end of the u64 range is not modelled.
- Hashes and signatures: Keccak, CRC32 and secp256k1 recovery are not computed. The seal model ends with the bytes that are hashed, a header carries the outcome of seal recovery, and the fork checksum step is a parameter.
- The EVM: contract answers, receipts, reward logs, gas used, value transfers and execution failures are free inputs. The dynamic gas and refund formulas of `SSTORE`, the caller deduction, the reimbursement and the beneficiary's tip come from the revm library, which is not part of this model, and are stated as its documentation and EIP-1283 give them.
- FeeCollector.Journal.ValidateAgainstStateAndDeductCaller: refuses a sender who cannot cover what is deducted; revm also checks the transaction's maximum cost, which is larger.
- RecoveryAgreement.ReplayAgreesWithLive: assumes one contract and no boundary in the window's blocks of the run, their headers present, no event in the receipts of earlier blocks of the window, events visible in receipts, live pushes onto sets that know the signer and have the size of the discovered set (which includes the genesis beneficiary when the window reaches back to it), and no still-queued older block pending at the start of the window. Without them the two need not agree: the replay sizes its set by the signers it sees. For events outside the receipts, HiddenEventsExact is exact where the receipts show none, and HiddenPendingEventIsLost covers mixed windows in one direction.
- RecoveryAgreement.RecoveredStarts: what a run after a restart schedules is covered by the results about runs; that it differs from what the node would have scheduled without the restart is stated by OlderTransitionsStay, not block by block.
- AbiAddressArray.DecodeAddressArray: offsets and lengths are unbounded integers, so an offset sum that exceeds the machine word is rejected as out of bounds here.
- FinalityInRuns.CallBySigners: says which block calls away from list-to-contract boundaries; at and right after a boundary, `FinalizeChangeSafety.ScheduleExact` gives the target in terms of schedules.
- Failing blocks: runs consist of successful blocks. What a failing block leaves behind, which includes its event and its signer if only the balance increments after the protocol's steps fail, is stated by `AuraExecution.ExecuteBlock`, and what that means for the next attempt's call by `FinalizeChangeSafety.RetryExact`.
- Header checks of the surrounding library (base fee against parent, extra data, gas): the base-fee check is a free flag; `validate_aura_header` and post-merge validation are not modelled. The v byte normalization of the seal is not modelled.
- Parent checks: a wrong parent hash and a wrong block number are one error (`ParentMismatch`) in the header model; the source reports them apart.
- PayloadSelection.BuildPayload: the pool's reaction to marks and to the signal that blob transactions may be skipped is part of the arbitrary stream; the sealed block's final size check and block assembly are not modelled.
- ForkIds.ForkIdOf: the construction of the fork list from a genesis file is not modelled beyond the Paris entry.
- Vector capacity, mutexes, logging, async code, and the contexts for payload building and the Engine API, which do not drive the tracker.
- Bytecode rewrites, block-reward sums, configuration parsing and the choice of the revm specification: each would only add easy members.
