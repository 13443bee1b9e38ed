/** The transaction row that the scheduler, the consensus states and the value ledger share. */
module Rows {
  import opened Wrappers

  // Hashes, addresses and worker ids are only compared; hashes of one length sort like numbers.
  type Hash = nat
  type Address = nat
  type WorkerId = nat

  datatype Status =
    | Pending | Activated | Canceled | Proposing | Committing | Revealing
    | Accepted | Finalized | Undetermined | LeaderTimeout | ValidatorsTimeout

  predicate Terminal(s: Status) {
    s.Finalized? || s.Canceled?
  }

  /** The consensus result is agreed and the row waits for its finality window. */
  predicate FinalizationEligible(s: Status) {
    s.Accepted? || s.Undetermined? || s.LeaderTimeout? || s.ValidatorsTimeout?
  }

  predicate ConsensusRecoverable(s: Status) {
    s.Pending? || s.Activated? || s.Proposing? || s.Committing? || s.Revealing?
  }

  predicate Processing(s: Status) {
    s.Proposing? || s.Committing? || s.Revealing?
  }

  predicate Claimable(s: Status) {
    s.Pending? || s.Activated?
  }

  datatype ConsensusData = NoData | Exhausted(cycles: nat) | Agreed(content: nat)

  const SEND: nat := 0
  const DEPLOY: nat := 1
  const UPGRADE: nat := 3

  /** What is fixed when the row is inserted. */
  datatype Origin = Origin(
    address: Option<Address>,         // to_address
    sender: Option<Address>,          // from_address
    kind: nat,                        // transaction type
    createdAt: real,
    immediate: bool,                  // execution mode other than NORMAL
    value: nat,
    triggered: bool)

  datatype Appeal = Appeal(
    appealed: bool,
    undetermined: bool,               // appeal_undetermined
    leaderTimeout: bool,              // appeal_leader_timeout
    validatorsTimeout: bool,          // appeal_validators_timeout
    failed: nat,                      // appeal_failed
    processingTime: int,              // appeal_processing_time
    since: Option<int>)               // timestamp_appeal

  datatype Row = Row(
    origin: Origin,
    status: Status,
    appeal: Appeal,
    credited: bool,
    awaitingSince: Option<int>,       // timestamp_awaiting_finalization
    rotationCount: nat,
    blockedAt: Option<real>,
    worker: Option<WorkerId>,
    recoveryCount: nat,
    lastProgress: Option<real>,       // latest entry of the current monitoring timestamps
    data: ConsensusData,
    hasHistory: bool)

  type Table = map<Hash, Row>
}
