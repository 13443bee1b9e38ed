# GenLayer Studio consensus model

GenLayer Studio simulates a consensus chain. Transactions are rows of one table. Workers claim rows
with timed leases and drive them through proposing, committing and revealing until a committee of
validators agrees, or the rotations run out; agreed rows wait for a finality window in which they can be
appealed, and are then finalized in order. Contracts hold balances, send messages to other contracts and
to the outside, and keep their storage as base64 text. The project models these parts and proves what
they keep over whole runs.

| file | what it models |
|---|---|
| `Wrappers.dfy`, `Rows.dfy`, `Sums.dfy`, `Sequences.dfy` | result types, the transaction row, sums over maps, lists without repetition |
| `Scheduler.dfy` | the three claim queries, release, reset, recovery, rollback, cancellation, and the worker that performs them |
| `SchedulerRuns.dfy`, `SchedulerExamples.dfy` | any run of the scheduler: lease exclusion, finalization order, bounded recovery; and runs, event by event, in which the code breaks a promise |
| `Progress.dfy` | no contract queue is stuck, no cycle of waiting |
| `Voting.dfy`, `CommitWave.dfy`, `WaveReceipts.dfy` | the vote tally, its early stop, the committing loop with replacement validators, and what its receipts say |
| `Rounds.dfy`, `RoundMachine.dfy`, `History.dfy` | which round each state records, leader rotation from pending to an agreed state, the recorded rounds |
| `Drivers.dfy` | the transaction context and the three drivers that run it, and when they meet a round they do not know |
| `AppealCommittee.dfy` | the growing committee of repeated validator appeals |
| `Decisions.dfy`, `AwaitingTimestamp.dfy` | effect lists, their execution and their prefixes, and the timestamp that finalization needs |
| `Accounts.dfy`, `Conservation.dfy` | balances, one-time credit, refunds, and the conservation law |
| `Messages.dfy` | withdrawals for messages, and the freeze for external messages due at finalization |
| `Base64.dfy`, `StorageView.dfy`, `CodeSlot.dfy` | contract storage under four caches, and the contract code kept in it |
| `RateLimiter.dfy` | the two sliding-window limiters |

`dafny verify dfyconfig.toml` checks the whole project.

## How the model stands to the source

- Hashes, addresses and worker ids are numbers that are only compared. Times are reals and enter as
  parameters or as the clock of the queue.
- Every SQL statement is one atomic step. A step of consensus, a transfer, an upgrade or a finalization
  fires only for the holder of a live lease; release and reset check the owner as the source does. In the
  runs any candidate of a claim query may be claimed, which includes the one the query picks.
- Rows of a contract are inserted in non-decreasing creation time.
- A run of the round machine is a function of a script: the draws and shuffles, how each leader ends, the
  events of each vote wave, and whether accepting fails. Every script that fits the states is allowed.
- Validators are drawn by stake in the source; here any draw of the right size without repetition may
  occur. A validator's execution is any vote, a fatal error or a timeout. Registered addresses, and the
  member names of rate-limited requests, are distinct.
- One clock reading serves one effect list. Fees are zero. Message values and funded amounts are not negative.

## Where the code does less than it says

- An appeal claim looks only at other appealed leases, so it can run beside a worker on the same
  contract (`SchedulerRuns.AppealClaimKeepsExclusionIff`).
- A reset and a processing step find their row by hash and worker, whatever its status. A row canceled by
  another worker can so come back to life behind rows that were finalized meanwhile, and its rollback
  takes them back to pending (`SchedulerRuns.StepKeepsOrderedIff`,
  `SchedulerExamples.ResetUnsealsFinalizedRow`).
- A rollback has no status filter. Started by a row that is not terminal it never touches a row finalized
  in order, but it revives canceled rows, also past the recovery cap
  (`SchedulerRuns.RollbackKeepsCountersIff`, `SchedulerExamples.RollbackRevivesExhaustedRow`).
- A refund leaves no mark in the row, and neither a cancellation nor an activation looks at the status.
  A refunded row is refunded once more when a retry handler cancels it again, and its value is credited
  when the worker that holds it activates it, or when a rollback revives it
  (`Conservation.StepKeepsBalancedIff`, `Conservation.RefundedTwice`, `Conservation.RefundedAndCredited`,
  `Conservation.RevivedValueIsPaidTwice`).
- Canceling a pending plain transfer refunds its sender, who pays only when the transfer is executed
  (`Conservation.UnpaidTransferIsRefunded`).
- The driver of a leader-timeout appeal knows one round only. If the committee rotates before it accepts,
  accepting returns another round, and the driver fails after the row was accepted, before the rollback.
  This can happen exactly when rotations are configured, validators vote and a second leader is left
  (`Drivers.LeaderTimeoutAppealCanBreakIff`).
- A leader that times out in such an appeal leaves the flag of the appeal in the row. After a rollback to
  pending the driver of an ordinary execution fails on it (`Drivers.SurvivingFlagBreaksExecutionIff`).
- From the third failed appeal on, the merge recovers the committee size correctly only if enough unused
  validators were left (`AppealCommittee.MergeOnlyAppendsIff`).
- The conservation check counts a user's plain transfer as in transit while the sender still has the money
  (`Conservation.UserTransferBreaksTheCheck`).
- The cap of internal messages at finalization counts older freezes only
  (`Messages.FinalizeKeepsSolventIff`).

## Model

| member | source | states |
|---|---|---|
| Scheduler.PickFirst | backend/consensus/worker.py:260-276 | The chosen candidate comes before or equals every other candidate in the order of the query |
| Scheduler.ConsensusWorker.ClaimNextFinalization | backend/consensus/worker.py:217-300 | Nothing is claimed only if no row may be finalized; otherwise exactly one row changes, the oldest that may be, and it gets this worker's lease at the current time |
| Scheduler.ConsensusWorker.ClaimNextAppeal | backend/consensus/worker.py:348-400 | The same for appealed rows; only other appealed leases of the contract keep a row back |
| Scheduler.ConsensusWorker.ClaimNextTransaction | backend/consensus/worker.py:459-545 | The same for pending and activated rows: the claimed row is first on its contract and, in terms of the rows' fields, first among the contracts' firsts: never recovered before recovered, then upgrades, then age, then hash |
| Scheduler.FinalizationCandidateIff | backend/consensus/worker.py:217-255 | A row may be claimed for finalization exactly if it is agreed and not appealed, its window has passed or it was left without a timestamp, everything older is terminal and nothing else on the contract is leased |
| Scheduler.AppealCandidateIff | backend/consensus/worker.py:348-366 | A row may be claimed for appeal exactly if it is agreed and appealed, free, and no other appealed row of the contract is leased |
| Scheduler.TransactionCandidateIff | backend/consensus/worker.py:459-500 | A row may be claimed for execution exactly if it is pending or activated and free, nothing else on the contract is leased, and no older row is due for finalization |
| Scheduler.FirstOnContractMeans | backend/consensus/worker.py:510-516 | No candidate of the contract is an upgrade unless the first one is, and none of the same kind is older |
| Scheduler.FirstTransactionMeans | backend/consensus/worker.py:519-530 | Among the first rows of all contracts one that needed recovery is taken only if every one did; among equals upgrades, then age, then hash |
| Scheduler.LeaseMeans | backend/consensus/worker.py:272-276 | A claim marks its row with worker and time and touches nothing else |
| Scheduler.SomeFirstOnContract | backend/consensus/worker.py:510-516 | A contract with a claimable row always has a first one, so the two-level choice never comes up empty |
| Scheduler.ConsensusWorker.ReleaseTransaction | backend/consensus/worker.py:589-637 | Only the owner's lease is cleared; a foreign worker changes nothing |
| Scheduler.ConsensusWorker.ResetTransaction | backend/consensus/worker.py:639-700 | Only for the owner: lease and history cleared, counter raised, back to pending with no data, or canceled with the error record once the counter reaches the cap |
| Scheduler.ConsensusWorker.RecoverStuckTransactions | backend/consensus/worker.py:881-1035 | A pass is the three updates in order; a row whose consensus is agreed at most loses a stale lease and keeps status and data; the result counts the rows whose counter rose |
| Scheduler.PassOnRow | backend/consensus/worker.py:881-1035 | What a whole pass makes of each row, in terms of its fields: canceled at the cap or requeued when it was in processing without recent progress, freed of a stale lease when agreed, unchanged otherwise |
| Scheduler.RecoverRow | backend/consensus/worker.py:881-1035 | On one row the three updates do not interfere: with agreed consensus it only loses a stale lease, and the last update changes a row exactly when its counter rises |
| Scheduler.TransactionsProcessor.CancelTransactionIfAvailable | backend/database_handler/transactions_processor.py:925-947 | Cancels exactly a pending or activated row without a lease, and says whether it did |
| Scheduler.TransactionsProcessor.RollbackTransactions | backend/consensus/base.py:1228-1248 | Exactly the rows of the contract created later go back to pending, whatever their status; nothing else changes |
| SchedulerRuns.LeaseExclusion | backend/consensus/worker.py:249-262 | Over every run without appeal claims at most one row per contract, the NULL address included, has a live lease |
| SchedulerRuns.LiveLeaseIsKept | backend/consensus/worker.py:249-280 | In every state and for every event, appeal claims included, a row with a live lease stays with its worker until that worker releases or resets it |
| SchedulerRuns.AppealClaimKeepsExclusionIff | backend/consensus/worker.py:354-366 | An appeal claim keeps the exclusion exactly when no other row of the contract is leased |
| SchedulerRuns.AppealClaimBreaksExclusion | backend/consensus/worker.py:354-366 | A concrete queue in which the first appeal is claimed beside a live lease of the same contract |
| SchedulerRuns.StepOnRow | backend/consensus/worker.py:639-682 | No event deletes a row or changes its origin, and a terminal row stays terminal exactly unless its worker resets or processes it or an older row rolls back; none of these looks at the status |
| SchedulerRuns.StepKeepsOlderTerminal | backend/consensus/worker.py:241-248 | Once everything older on the contract is terminal it stays terminal under every event that revives none of it |
| SchedulerRuns.StepKeepsOrderedIff | backend/consensus/worker.py:639-682 | An event keeps the order of finalization exactly when it revives neither a finalized row nor a row before one claimed for finalization |
| SchedulerRuns.UnfinishedRowsRunInOrder | backend/consensus/base.py:1228-1248 | Every run whose resets, processing steps and rollbacks act on rows that are not terminal is in order |
| SchedulerRuns.FinalizedRowsSurviveRollback | backend/consensus/base.py:1228-1248 | After every run in order a row finalized through a finalization claim is terminal and has only terminal rows before it, and a rollback started by any row that is not terminal leaves it as it is although rollbacks filter on no status |
| SchedulerExamples.ResetUnsealsFinalizedRow | backend/consensus/worker.py:1354-1368 | A concrete run: the older row is canceled by another worker while it is held, the younger one is finalized, the holder resets and claims the older one again, and its rollback takes the finalized row back to pending |
| SchedulerRuns.StepOnCounters | backend/consensus/worker.py:652-682 | A return to pending by reset or recovery raises the counter by one to at most the cap; nothing lowers a counter |
| SchedulerRuns.RecoveryReturnsAtMostMax | backend/consensus/worker.py:883-1035 | In every run, rollbacks included, resets and recovery together return a row to pending at most the configured number of times |
| SchedulerRuns.CountersStayBounded | backend/consensus/worker.py:883-960 | In every run without rollbacks a row that is not canceled stays within the cap and no row exceeds it by more than one |
| SchedulerRuns.RollbackKeepsCountersIff | backend/database_handler/transactions_processor.py:1281-1297 | A rollback keeps that bound exactly when no newer row of the contract was canceled beyond the cap |
| SchedulerExamples.RollbackRevivesExhaustedRow | backend/database_handler/transactions_processor.py:1281-1297 | A concrete run: a younger row is requeued up to the cap, claimed, reset and canceled beyond it, and the rollback of the appealed older row brings it back to pending with its counter above the cap |
| Progress.OldestIsAdmittedIff | backend/consensus/worker.py:225-262 | With no live lease on the contract, the oldest unfinished row is taken by a claim query or by recovery exactly when its time bound (lease, finality window, stranded or orphan age) has passed |
| Progress.NoContractIsStuck | backend/consensus/worker.py:459-500 | For a queue of any length and any leases left behind there is a time after which some row of the contract is always admitted |
| Progress.ChainGoesBack | backend/consensus/base.py:596-621 | Every chain of waits (deferral to a finalization, finalization order, the check of the previous transaction, rank behind an upgrade) leads to an older row, or from another row to an upgrade that is ready |
| Progress.NoWaitingCycle | backend/consensus/worker.py:473-526 | No chain of waits visits a row twice |
| Progress.HeadWaitsOnNothing | backend/consensus/worker.py:241-248 | The oldest unfinished row of a contract waits for nothing but an upgrade that is ready, and the first ready upgrade waits for nothing |
| Progress.DueFinalizationComesFirst | backend/consensus/worker.py:473-500 | Once the oldest unfinished row may be finalized, no other row of the contract can be claimed for execution or finalization, so new rows cannot keep it waiting |
| Voting.MajorityIsMoreThanHalf | backend/consensus/utils.py:17-35 | Each majority result is exactly a strict majority of all votes, idle counted with disagree |
| Voting.ConsensusIgnoresOrder | backend/consensus/utils.py:17-35 | Only how often each vote occurs matters |
| Voting.EarlyStopIsExact | backend/consensus/base.py:2498-2514 | When the four uniform probes stop a wave, every completion, mixtures and deterministic violations included, gives what filling with idle gives |
| Voting.QuorumIffDecided | backend/consensus/base.py:2498-2514 | The probes stop a wave exactly when all completions agree on one majority result |
| CommitWave.StartIsValid | backend/consensus/base.py:2314-2328 | The replacement pool holds exactly registered validators that are not assigned, so committee and pool start disjoint |
| CommitWave.RunKeepsValid | backend/consensus/base.py:2409-2475 | For every completion order, fatal error and timeout, no validator ever occupies two slots or a slot and the pool |
| CommitWave.CommittingLoopTerminates | backend/consensus/base.py:2570-2605 | Every schedule has at most a number of events linear in the committee, and one that cannot go on has finished |
| CommitWave.OneReceiptPerSlot | backend/consensus/base.py:2527-2605 | A finished loop has one receipt per slot from distinct validators of the committee or the pool, each pool validator used at most once |
| WaveReceipts.EveryReceiptIsEarned | backend/consensus/base.py:2409-2475 | Over every schedule each final receipt is what an attempt of its signer amounts to: a returned vote as it was, a timeout for an expired attempt, idle for a fatal error after the fifth replacement or with an empty pool; only a wave cut short has made-up idle receipts, in the name of the slot |
| WaveReceipts.ExpiredAttemptsTimeOut | backend/consensus/base.py:2409-2475 | When every attempt runs out of time the result is the timeout, with a timeout in every receipt of a wave that was not cut short |
| WaveReceipts.FatalErrorsLeaveIdle | backend/consensus/base.py:2607-2616 | When every attempt dies of a fatal error every receipt is idle, so the loop raises |
| WaveReceipts.TimedOutSlotsAreRefilled | backend/consensus/base.py:2570-2605 | Between waves the slots that timed out, and no others, get the next validators of the pool in order; the loop ends exactly if there are none, the pool is empty, or it has done so five times |
| WaveReceipts.BatchStopsIffDecided | backend/consensus/base.py:2498-2566 | A batch stops the wave exactly when the votes cast so far leave one majority result only |
| CommitWave.TallyVotes | backend/consensus/base.py:2644-2650 | The address-keyed vote map has one entry per receipt in order, so it tallies as the receipt list does |
| CommitWave.CancelledVotesDoNotMatter | backend/consensus/base.py:2556-2566 | When a wave is cut short the result of the round is the one that any votes of the cancelled slots would have led to |
| CommitWave.UnanimousWave | backend/consensus/base.py:2482-2566 | Every committee can agree and every committee can disagree: some schedule ends with one such vote per slot and that majority |
| CommitWave.AllIdleReadsAsDisagreement | backend/consensus/base.py:2607-2616 | Why the loop raises when every receipt is idle: the tally would read a majority against although nobody voted against |
| RoundMachine.GetValidators | backend/consensus/vrf.py:6-30 | A draw of distinct nodes, as many as asked for or all of them |
| RoundMachine.AddNewValidator | backend/consensus/base.py:1387-1419 | Succeeds exactly when leaders and validators together are fewer than the registered ones; the new first member is registered and in neither list |
| RoundMachine.SomeoneIsLeft | backend/consensus/base.py:1402-1415 | The guard, which only counts, always leaves a candidate |
| RoundMachine.CheckedAppealHasCommittee | backend/consensus/base.py:1965-2008 | The check an appeal driver makes beforehand rules out the exceptions of the pending state: the committee is the stored one, enlarged by registered validators that neither were in it nor ever led |
| RoundMachine.WhoIsInvolved | backend/consensus/base.py:1941-2036 | The members of the committee of each kind of row: stored validators, stored leader or not, drawn ones |
| RoundMachine.FirstCommittee | backend/consensus/base.py:2033-2036 | A new row draws as many distinct nodes as it asks for, or all of them |
| RoundMachine.PendingKeeps | backend/consensus/base.py:1870-2059 | Every kind of row starts with a committee without a duplicate or with an exception; the stored rotation count starts at zero, and only the flags of leader appeals survive |
| RoundMachine.WhoProposes | backend/consensus/base.py:2138-2213 | The first attempt without a fatal error decides, made by the validator whose turn it is then; without one there is no proposal |
| RoundMachine.ProposersAreMembers | backend/consensus/base.py:2138-2213 | Through fatal errors and replacements the leader and the remaining validators stay distinct members of the committee |
| RoundMachine.ProposingKeeps | backend/consensus/base.py:2070-2263 | For every shuffle, sequence of leader outcomes and mode: one leader of the committee produces a receipt, it has not led in this run before and no remaining validator has; or nobody does and it raises |
| RoundMachine.WaveDelivers | backend/consensus/base.py:2271-2634 | With the committee of a run the committing loop ends with one receipt per slot, from distinct signers, each the leader, a remaining validator or a registered node |
| RoundMachine.WhereVotesLead | backend/consensus/base.py:2690-2777 | The next state of an ordinary round by its votes: accepted exactly with more than half agreeing, validators' timeout exactly with more than half timing out, otherwise a rotation exactly while rotations and nodes are left |
| RoundMachine.WhereAppealVotesLead | backend/consensus/decisions.py:614-646 | Under an appeal of the validators: the old answer exactly with more than half of the votes for it, otherwise the appeal succeeds |
| RoundMachine.RotatingKeeps | backend/consensus/base.py:2725-2777 | A rotation records the old leader, raises both rotation counts by one, forgets the appeal of a leader timeout and yields a committee without a duplicate nobody of which has led in this run |
| RoundMachine.RevealingKeeps | backend/consensus/base.py:2690-2723 | Without a rotation, revealing changes no count and leads to a final state, or raises and changes nothing |
| RoundMachine.FinalKeeps | backend/consensus/base.py:2787-2971 | Every final state records exactly one completed round with the last leader, keeps the counts, and leaves no appeal flag but that of a leader timeout, which outlives another timeout or an accepted leader appeal |
| RoundMachine.WhatFinalStatesStore | backend/consensus/base.py:2914-2937 | Each final state appends one record; a leader timeout alone stores the remaining validators; only accepting may raise |
| Rounds.WhatIsRecorded | backend/consensus/decisions.py:41-474 | For each round, exactly the final state and appeal flags that record it, and that only failed appeals of the validators name no leader |
| Rounds.WhatIsReturned | backend/consensus/decisions.py:455-474 | For each round, exactly the flags with which accepting returns it |
| Rounds.WhatFlagsAreLeft | backend/consensus/decisions.py:454-474 | For each flag, exactly when a final state leaves it in the row |
| Rounds.WhatVotesLeadTo | backend/consensus/decisions.py:605-694 | The decision of revealing in numbers of votes, for ordinary rounds and under appeals |
| RoundMachine.RunIsOver | backend/consensus/base.py:622-634 | Every run has at most five steps and three more for each configured rotation; where it stops, its history has grown by one record per replaced leader and one completed round, with leaders that are all different |
| Drivers.TransactionContext.RunDriver | backend/consensus/base.py:622-634 | The driver's loop ends for whatever happens and finishes as the script of its run says; at most one proposal more than the configured rotations, each by another leader; stored and in-memory counts agree; it breaks exactly on the scripts that break it |
| RoundMachine.RecordedRunIsProduced | backend/consensus/decisions.py:660-691 | What a run records stays within the configured rotations and makes all its leaders count as used |
| Drivers.BreaksOnAcceptance | backend/consensus/decisions.py:460-474 | A run breaks its driver exactly when it accepts and the appeal flags left at that moment make it return another round than the driver's |
| Drivers.ExecutionCanBreakIff | backend/consensus/base.py:613-634 | Some draws, leaders and votes break an ordinary execution exactly when its row can start and still carries the flag of an appeal |
| Drivers.LeaderAppealNeverBreaks | backend/consensus/base.py:923-971 | The driver reads the stored validators before it starts; with them no draw, leader or vote ever breaks the appeal of an undetermined row |
| Drivers.LeaderTimeoutAppealCanBreakIff | backend/consensus/base.py:1057-1076 | Some draws, leaders and votes break the appeal of a leader timeout exactly when a rotation is configured, the mode has a vote, the check of the driver passes, and one node more than the leaders so far is registered |
| Drivers.LeaderTimeoutAppealBreaks | backend/consensus/base.py:1057-1076 | A concrete pair of runs on three nodes: the leader times out, its appeal rotates once and accepts, and the driver breaks |
| Drivers.SurvivingFlagBreaksExecutionIff | backend/consensus/decisions.py:163-175 | When the leader of the appeal times out too, the flag stays, and an ordinary execution of the row can break exactly when its committee can be formed |
| Drivers.SecondTimeoutBreaksExecution | backend/consensus/base.py:2914-2937 | With one node more than the appeal itself needs such a run exists |
| History.ActualLeaderRotationsByRound | backend/consensus/history.py:36-59 | The keys are exactly 0 to k-1 for k completed rounds, each with the rotations that trailed when its round completed; no history gives no keys |
| History.RotationsAreConserved | backend/consensus/history.py:36-59 | The values and the trailing rotations sum to the number of rotation events |
| History.RotationsByPart | backend/consensus/history.py:38-59 | Any history falls into parts ending with a completed round each, and the value of a round is the number of rotations in its part |
| History.WhichItemsCount | backend/consensus/history.py:10-15 | Rotations, in an appeal or not, complete no round; every other record does, one without a round included |
| History.RunAppendsOneValue | backend/database_handler/transactions_processor.py:1299-1355 | A run that records rotations and then a completed round adds one value |
| History.ProducedRoundsStayWithinLimit | backend/consensus/decisions.py:660-691 | In every history the round machine writes, each value is at most the configured rotations and nothing trails |
| History.LatestRoundIsLargestKey | backend/consensus/history.py:32-33 | The index of the latest completed round is the largest key |
| History.IndexOfLatestRound | backend/consensus/history.py:34-35 | The index of the latest completed round, and zero while there is none |
| AppealCommittee.AllRegisteredAreCurrent | backend/consensus/base.py:1341-1384 | While the stored validators are registered and distinct, reading them back gives them in order |
| AppealCommittee.MergeOnlyAppendsIff | backend/consensus/decisions.py:534-547 | Merging keeps the old addresses and appends the drawn ones always for a first or second appeal, and later exactly when at least one full committee's worth of unused validators was left |
| AppealCommittee.ShortDrawDoublesValidators | backend/consensus/decisions.py:534-547 | A concrete third appeal with one validator too few, after which four addresses are stored twice |
| AppealCommittee.BothRecoverTheInitialSize | backend/consensus/base.py:1317-1336 | The size recovered by division when the committee is chosen and by subtraction when it is merged are both the original one |
| AppealCommittee.CommitteeAfterFailedAppeals | backend/consensus/base.py:1256-1284 | After any number k of failed appeals of a committee of n the list has n-1, 2n+1 or (2k-1)n+2 validators: the first ones followed by every drawn one, all distinct, each receipt agreeing with the vote map |
| Decisions.EffectExecutor.Execute | backend/consensus/effect_executor.py:45-47 | Executing a list, or stopping inside it, is executing that many effects one after the other |
| Decisions.UndeterminedConcludes | backend/consensus/decisions.py:41-129 | For every combination of flags the list records exactly one round and writes exactly one status, the record first |
| Decisions.LeaderTimeoutConcludes | backend/consensus/decisions.py:135-213 | The same for leader timeouts |
| Decisions.ValidatorsTimeoutConcludes | backend/consensus/decisions.py:219-299 | The same for validator timeouts |
| Decisions.AcceptedConcludes | backend/consensus/decisions.py:305-474 | The same for the two lists of acceptance, one after the other |
| Decisions.StatusOnlyWithRecord | backend/consensus/effect_executor.py:45-47 | Wherever such a list is cut off, its status is not in the row without its record in the history |
| Decisions.UndeterminedOutcome | backend/consensus/decisions.py:78-88 | The whole list turns any row into one exact row: a failed leader appeal keeps the window, prolongs it and counts, otherwise the window starts now |
| Decisions.LeaderTimeoutOutcome | backend/consensus/decisions.py:163-175 | The same for leader timeouts: a successful leader appeal opens a new window, a failed timeout appeal prolongs the old one |
| Decisions.ValidatorsTimeoutOutcome | backend/consensus/decisions.py:241-258 | The same for validator timeouts |
| Decisions.AcceptedOutcome | backend/consensus/decisions.py:343-359 | The same for acceptance: a failed validator appeal keeps and prolongs the window and counts, a successful leader appeal opens a new one and forgets the failures |
| Decisions.UndeterminedFields | backend/consensus/decisions.py:41-129 | The whole list on the row, field by field |
| Decisions.LeaderTimeoutFields | backend/consensus/decisions.py:135-213 | The same for leader timeouts |
| Decisions.ValidatorsTimeoutFields | backend/consensus/decisions.py:219-299 | The same for validator timeouts |
| Decisions.AcceptedFields | backend/consensus/decisions.py:305-474 | The same for acceptance |
| Decisions.RevealingFields | backend/consensus/decisions.py:585-694 | Revealing on the row: a rotation raises the stored count up to its limit, a successful appeal clears the failures and the appeal's clock, other answers change neither |
| Decisions.PostProposalFields | backend/consensus/decisions.py:782-823 | The proposal on the row: the result is stored, and the appeal of a leader timeout that did not time out again opens a new window |
| Decisions.AnnouncementFields | backend/consensus/base.py:1870-1881 | The lists that conclude nothing: each announces its state, pending resets the stored rotations |
| Decisions.DecisionsLeaveFlags | backend/consensus/decisions.py:454-474 | The appeal flags in the row after each of the four decisions are those the round machine goes on with |
| AwaitingTimestamp.PrefixKeepsStamped | backend/consensus/effect_executor.py:45-47 | Every prefix of a list that stamps first leaves the row stamped, and no list removes a stamp |
| AwaitingTimestamp.EveryHandlerStampsFirst | backend/consensus/decisions.py:78-88 | Every list that any state, driver or failed transfer writes sets the timestamp before a status or flag that needs it, given the flags in memory |
| AwaitingTimestamp.DriverFields | backend/consensus/base.py:912-1066 | What the appeal drivers and the pending state leave in the row, field by field |
| AwaitingTimestamp.PoorTransferStampsFirst | backend/consensus/base.py:720-737 | A transfer the sender cannot pay stamps before it becomes undetermined |
| AwaitingTimestamp.AwaitingRowsAreStamped | backend/database_handler/transactions_processor.py:1151-1188 | In every interleaving of any number of workers, users and crashes inside any list, a row in a finalization-eligible status or with an appeal flag has its timestamp, which is never lost |
| AwaitingTimestamp.FreshRowsNeverStrand | backend/consensus/worker.py:205-216 | A row that starts pending never needs the branch of the finalization query for rows without a timestamp |
| Accounts.AccountsManager.DebitAccountBalance | backend/database_handler/accounts_manager.py:100-111 | Fails, and changes nothing, exactly when a positive amount is not covered; otherwise exactly that account loses it |
| Accounts.AccountsManager.CreditAccountBalance | backend/database_handler/accounts_manager.py:113-131 | Exactly that account gains a positive amount, and comes into being if need be |
| Accounts.AccountsManager.CreditTxValueOnce | backend/database_handler/accounts_manager.py:133-168 | Pays exactly the target and marks the row exactly when the amount is positive and the row was not marked |
| Accounts.AccountsManager.RefundTxValue | backend/database_handler/accounts_manager.py:170-185 | Pays exactly the sender exactly when the row carries value nobody was credited with, and leaves no mark |
| Accounts.AccountsManager.SandboxDebitSender | backend/protocol_rpc/endpoints.py:1733-1741 | The sender pays in full, what it lacks being minted, and nobody else does |
| Accounts.AccountsManager.ExecuteTransfer | backend/consensus/base.py:678-771 | The row and every single balance after a transfer: a credited row only becomes final, a sender who cannot pay leaves it undetermined, otherwise the sender, unless it was prepaid, loses the value and the recipient gains it |
| Accounts.TransferMovesValue | backend/consensus/base.py:705-771 | Account by account: who pays, who is paid, and that no other account changes, for paid, prepaid and self transfers |
| Conservation.StepKeepsBalancedIff | backend/database_handler/accounts_manager.py:133-185 | Every event, on a row of any status, keeps balances plus owed, dropped and lost value equal to minted value exactly unless it credits, transfers, revives, accepts with an error or refunds a canceled row that still carries its value, or refunds an unpaid transfer |
| Conservation.StepKeepsPaidOnceIff | backend/database_handler/accounts_manager.py:133-185 | Every event keeps each value paid at most once, only when it was paid in, and not while the row owes it, exactly unless it is one of those events on a row that was refunded or never paid |
| Conservation.EveryPaymentIsAccountedFor | backend/database_handler/invariants.py:32-50 | In every run, without any condition, balances, for each row what was paid in less what was paid out, and the value lost in crashes add up to minted value; so the check holds exactly when the value in transit and minted on demand equal what is due and lost |
| Conservation.ValueIsConserved | backend/database_handler/invariants.py:32-50 | In every run that leaves canceled rows with value alone and refunds no unpaid transfer: balances plus value in transit never exceed minted value and the transfers counted too early; they are equal exactly when nothing was dropped or lost and no uncredited value sits in a row past activation; each value was paid at most once |
| Conservation.StepKeepsExactIff | backend/consensus/worker.py:1246-1257 | While the check is exact, an event of such a run keeps it exact exactly when it is no error acceptance or escalation of a row that still owes, no cancellation without a sender to refund, and no crash that loses children |
| Conservation.EqualUntilTheFirstLoss | backend/database_handler/invariants.py:32-50 | In every such run up to the first loss balances plus value in transit equal minted value and the transfers counted too early; that event ends the equality, and it is never a mere change of status, since activation credits the row first |
| Conservation.DroppedIsLostForGood | backend/database_handler/invariants.py:32-50 | Once value was dropped or lost the sum stays below, whatever such a run goes on with |
| Conservation.UserTransferBreaksTheCheck | backend/protocol_rpc/endpoints.py:2105-2113 | A transfer that its sender pays only at execution keeps the check true exactly when its value is zero |
| Conservation.RefundedTwice | backend/consensus/worker.py:1295-1305 | A run from the start: submitted, canceled and refunded, canceled and refunded again; the same excess |
| Conservation.RefundedAndCredited | backend/consensus/base.py:2041-2053 | A run from the start: submitted, canceled and refunded, then credited by the worker that holds the row; the same excess |
| Conservation.UnpaidTransferIsRefunded | backend/protocol_rpc/endpoints.py:955-974 | A run from the start: a plain transfer is inserted, canceled and refunded; its sender, who never paid, has the value |
| Conservation.RevivedValueIsPaidTwice | backend/consensus/base.py:2041-2053 | A run from the start: submitted, canceled and refunded, revived by a rollback and activated; the value was paid twice and balances exceed minted value by it |
| Conservation.ChildrenCarryTheWithdrawal | backend/consensus/base.py:3051-3105 | Child rows built from the messages of a phase carry exactly what the contract was debited |
| Conservation.FundAccount | backend/protocol_rpc/endpoints.py:318-341 | Funding inserts the row and credits it once |
| Conservation.ActivateTransaction | backend/consensus/base.py:2038-2059 | Activation is a credit followed by the change of status whatever the status was: the target, and no other account, gets the value unless it has it already, and the row becomes proposing owing nothing |
| Conservation.SendRawTransaction | backend/protocol_rpc/endpoints.py:2105-2135 | Debit, minting what is missing, and insert; a plain transfer is inserted without a debit; a known hash changes nothing |
| Conservation.CancelTransaction | backend/protocol_rpc/endpoints.py:955-990 | Succeeds exactly on a pending or activated row without a worker, and then refunds the sender unless the value was credited; this disturbs the books exactly for an unpaid transfer of some value |
| Conservation.CancelRow | backend/consensus/worker.py:1354-1384 | A retry handler cancels by hash whatever the status; the sender, and no other account, gets back what was not credited |
| Messages.AdjustUnbackedMessageValues | backend/consensus/base.py:1817-1838 | Unbacked external messages of the phase are dropped, unbacked internal ones lose their value, in order, and nothing else changes |
| Messages.ApplyMessageValueWithdrawals | backend/consensus/base.py:1841-1862 | External value first, then internal value up to what the freeze leaves; only the contract's balance changes |
| Messages.AdjustedValue | backend/consensus/base.py:1817-1838 | The value left in the phase for each of the four combinations; the other phase is untouched |
| Messages.AdjustedOfOne | backend/consensus/base.py:1817-1838 | What becomes of each message on its own, for every phase, kind, value and backing |
| Messages.AdjustedAdds | backend/consensus/base.py:1817-1838 | A list is adjusted message by message, in order |
| Messages.AffordableIsPaid | backend/consensus/base.py:1734-1765 | Whatever fits beside the freezes is paid in full, in both phases |
| Messages.WhatIsPaid | backend/consensus/base.py:1841-1862 | External messages of the phase are paid exactly if the balance covers them together, internal ones exactly if they fit into what the freezes leave |
| Messages.FreezeCheckIff | backend/consensus/base.py:1514-1552 | A receipt keeps its messages exactly if it succeeded and what it sends outside fits beside the older freezes |
| Messages.ReservedForOne | backend/consensus/base.py:1582-1622 | A transaction is reserved for exactly while it is accepted and before later ones |
| Messages.DebitEqualsEmittedValue | backend/consensus/base.py:3108-3116 | In each phase the amount debited equals the value of the messages emitted in it, for any message list |
| Messages.WithdrawalRespectsFreeze | backend/consensus/base.py:1768-1779 | Internal value is paid only out of what older freezes, and the own one, leave free |
| Messages.PendingFreezeTotal | backend/consensus/base.py:1582-1622 | The total of the finalization values of accepted transactions created earlier |
| Messages.AcceptKeepsSolvent | backend/consensus/base.py:1514-1552 | Accepting any messages keeps the balance above all freezes, its own included |
| Messages.FinalizeKeepsSolventIff | backend/consensus/base.py:1768-1779 | Finalizing the oldest pays its external messages in full, and the younger freezes stay covered exactly when its internal messages leave them alone |
| Messages.FrozenValueIsAlwaysThere | backend/consensus/base.py:1711-1731 | Over every run in creation order, rows that are never accepted included, with only external messages at finalization the balance covers all freezes, so every such debit succeeds |
| Messages.InternalMessagesEatYoungerFreezes | backend/consensus/base.py:1568-1622 | A run from an empty contract: two creations, a deposit, two acceptances; then the older transaction's internal message takes what the younger one has frozen, whose external debit fails |
| StorageView.SnapshotView.GetSnapshot | backend/node/base.py:202-234 | Own snapshot, private cache, shared cache or database: the answer is the state the database holds, or not found |
| StorageView.SnapshotView.GetPrimaryDecoded | backend/node/base.py:246-278 | The decoded primary state is the decoding of every stored entry, whatever the shared cache held |
| StorageView.SnapshotView.ReadCrossSlot | backend/node/base.py:283-318 | A slot of another contract decodes to the same value through every cache |
| StorageView.SnapshotView.StorageRead | backend/node/base.py:330-348 | Reads are zero-padded, of the asked length, and never change the state |
| StorageView.SnapshotView.StorageWrite | backend/node/base.py:350-371 | A write replaces exactly its bytes in its slot, extends with zeros, and keeps the base64 text in step; a read-only view changes nothing |
| StorageView.ShowsAfterWrite | backend/node/base.py:350-371 | The base64 text after a write decodes to the memory after the write |
| StorageView.PerformOne | backend/node/base.py:330-371 | One operation of one view keeps every other view in step although they share caches |
| StorageView.RunSchedule | backend/node/base.py:202-371 | For every interleaving by any number of views sharing caches in any way, every read returns what a private zero-padded memory changed by that view's own writes holds |
| StorageView.StateProxyNone.StorageRead | backend/node/base.py:561-566 | The proxy without caches reads the same zero-padded memory |
| StorageView.StateProxyNone.StorageWrite | backend/node/base.py:568-578 | A write changes exactly its bytes in its slot, as in the view with caches |
| Base64.DecodeOfEncode | backend/database_handler/contract_snapshot.py:93-104 | Decoding the base64 text of any bytes gives them back (section 4 of RFC 4648) |
| Base64.GroupOfText | backend/database_handler/contract_snapshot.py:93-104 | The text is that of section 4 of RFC 4648: each group of three bytes is a number of 24 bits and its four characters are the digits to base 64, padded where no byte has a bit |
| Base64.AlphabetByCodePoints | backend/database_handler/contract_snapshot.py:93-104 | The alphabet of the RFC by code points |
| Base64.LengthRoundTrip | backend/consensus/worker.py:1550-1574 | Reading the four-byte little-endian prefix gives back every length below 2^32 |
| CodeSlot.ExtractionFindsCode | backend/database_handler/contract_snapshot.py:83-106 | Extraction finds the code whatever follows it in the slot |
| CodeSlot.LayoutOfBlob | backend/consensus/worker.py:1551-1557 | Four bytes of length, the lowest first, then the code; fails exactly when the length does not fit |
| CodeSlot.WhatIsExtracted | backend/database_handler/contract_snapshot.py:93-106 | What is extracted from any stored text: nothing exactly if it is missing, empty or not base64, otherwise the bytes its header announces, as far as they are there |
| CodeSlot.UpgradeThenExtract | backend/consensus/worker.py:1550-1574 | After an upgrade extraction returns exactly the new code and no other slot changed; the upgrade fails exactly when the length does not fit |
| CodeSlot.PutCodeTo | backend/node/base.py:790-798 | After a deployment through the storage view extraction returns exactly the code, even over a longer older one |
| RateLimiter.AllowedMeansRoomInEveryWindow | backend/protocol_rpc/rate_limiter.py:41-48 | A request is allowed exactly when every window of the whole history has room |
| RateLimiter.AllowedByMinuteHourAndDay | backend/protocol_rpc/rate_limiter.py:31-48 | The same with the windows of 60, 3600 and 86400 seconds written out |
| RateLimiter.DeniedNamesTheFirstFull | backend/protocol_rpc/rate_limiter.py:41-48 | A denial names the first full window with its limit, its count and its length |
| RateLimiter.RateLimiterService.CheckAndRecord | backend/protocol_rpc/rate_limiter.py:31-57 | The pruned and expiring sets decide exactly as the unpruned history, with the same window, limit and count; a denied request is not recorded, an allowed one is |
| RateLimiter.NoWindowExceedsItsLimit | backend/protocol_rpc/rate_limiter.py:41-57 | For every request sequence with non-decreasing times no window of a minute, an hour or a day, wherever it lies, has more accepted requests than its limit |
| RateLimiter.NoMinuteHourOrDayExceedsItsLimit | backend/protocol_rpc/rate_limiter.py:41-57 | The same for 60, 3600 and 86400 seconds, wherever the window lies |
| RateLimiter.DeniedUsesNoQuota | backend/protocol_rpc/rate_limiter.py:45-48 | Striking a denied request from any run changes nothing that follows |
| RateLimiter.WhatIsRecent | backend/protocol_rpc/endpoints.py:111-127 | The log keeps exactly the times after the cutoff, each as often as it occurs |
| RateLimiter.AddressLimiter.CheckRateLimit | backend/protocol_rpc/endpoints.py:111-127 | Decides exactly as the unpruned log of the address; a rejected call changes nothing |
| RateLimiter.NoAddressExceedsItsLimit | backend/protocol_rpc/endpoints.py:111-127 | No window of the configured length has more accepted calls than the limit |

## Left out

- SchedulerRuns.LeaseExclusion: leaves appeal claims out, because the code lets them break the exclusion; AppealClaimKeepsExclusionIff states when.
- SchedulerRuns.CountersStayBounded: leaves rollbacks out, because the code lets them break the bound; RollbackKeepsCountersIff states when.
- SchedulerRuns.FinalizedRowsSurviveRollback: leaves out runs that are not in order, because the code lets them break the claim; StepKeepsOrderedIff states when.
- Drivers.TransactionContext.RunDriver: leaves an exception's effect on the row to the scheduler, whose reset and recovery clear the history; the consensus data a run writes is read by later runs only.
- Drivers.LeaderTimeoutAppealCanBreakIff: the row carries the flag of this appeal alone, as its driver clears the others first.
- AppealCommittee.CommitteeAfterFailedAppeals: no slot of an appeal was replaced and enough unused validators were left, because with replaced slots the pool may return earlier validators.
- Conservation.ValueIsConserved: leaves out runs with an event on a canceled row that still carries its value, and with a refund of an unpaid transfer, because the code lets them break the law; StepKeepsBalancedIff states when, and EveryPaymentIsAccountedFor holds for all runs.
- Messages.FrozenValueIsAlwaysThere: leaves out internal messages due at finalization, which break the claim; FinalizeKeepsSolventIff states when. A second acceptance of the same transaction is left out as well.
- StorageView.SnapshotView.StorageRead: the primary snapshot is the view's own value; one snapshot object handed to two writing views is not modelled, since the source copies it.
- StorageView.SnapshotView.GetPrimaryDecoded: stored keys and values are base64 text as the source writes it; the lenient decoding of other text is not modelled.
- RateLimiter.RateLimiterService.CheckAndRecord: two requests with the same member name are left out, since the name holds a random part.
- GenVM execution, language models and validator timing: any outcome is allowed.
- Advisory locks, row locks and snapshot isolation: each claim is one step.
- Fee accounting and settlement, appeal bonds: not part of this model.
- Rollup events, messages to clients, log redaction, metrics and monitoring beyond the latest progress time: they do not change the modelled state.
- The retry counters and backoff of the workers: a retry handler may cancel at any moment.
- The rollback decision after an ordinary acceptance (`should_rollback_after_accepted`): it only reads the last recorded round.
- The administrative status endpoint, snapshots of the database, provider registries and request routing.
