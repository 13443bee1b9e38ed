/** Claiming, releasing, resetting and recovering transaction rows. */
module Scheduler {
  import opened Wrappers
  import opened Rows

  datatype Config = Config(
    timeout: real,      // lease length
    window: real,       // finality window
    reduction: real,    // window reduction per failed appeal
    stranded: real,     // age at which a row without a timestamp is drained
    maxCycles: nat)     // recovery cap

  const ORPHAN_TIMEOUT: real := 300.0

  function Pow(base: real, n: nat): real {
    if n == 0 then 1.0 else base * Pow(base, n - 1)
  }

  datatype Queue = Queue(cfg: Config, now: real, rows: Table) {

    // ---- Leases ---------------------------------------------------------------------------

    predicate LiveLease(row: Row) {
      row.blockedAt.Some? && row.blockedAt.value > now - cfg.timeout
    }

    predicate LeaseFree(row: Row) {
      row.blockedAt.None? || row.blockedAt.value < now - cfg.timeout
    }

    /** Another row of the same contract holds a live lease. NULL addresses count as one contract. */
    predicate ContractBusy(h: Hash)
      requires h in rows
    {
      exists other :: other in rows && other != h && rows[other].origin.address == rows[h].origin.address
        && LiveLease(rows[other])
    }

    predicate AppealBusy(h: Hash)
      requires h in rows
    {
      exists other :: other in rows && other != h && rows[other].origin.address == rows[h].origin.address
        && rows[other].appeal.appealed && LiveLease(rows[other])
    }

    // ---- Finality -------------------------------------------------------------------------

    predicate WindowElapsed(row: Row)
      requires row.awaitingSince.Some?
    {
      now - row.awaitingSince.value as real - row.appeal.processingTime as real
        > cfg.window * Pow(1.0 - cfg.reduction, row.appeal.failed)
    }

    predicate FinalizationDue(row: Row)
      requires row.awaitingSince.Some?
    {
      row.origin.immediate || WindowElapsed(row)
    }

    predicate Older(a: Hash, b: Hash)
      requires a in rows && b in rows
    {
      rows[a].origin.address == rows[b].origin.address && rows[a].origin.createdAt < rows[b].origin.createdAt
    }

    // ---- The three claim queries -----------------------------------------------------------

    predicate FinalizationCandidate(h: Hash) {
      && h in rows
      && FinalizationEligible(rows[h].status)
      && !rows[h].appeal.appealed
      && (if rows[h].awaitingSince.Some? then FinalizationDue(rows[h])
        else rows[h].origin.createdAt < now - cfg.stranded)
      && LeaseFree(rows[h])
      && (forall e :: e in rows && e != h && Older(e, h) ==> Terminal(rows[e].status))
      && !ContractBusy(h)
    }

    predicate AppealCandidate(h: Hash) {
      && h in rows
      && rows[h].appeal.appealed
      && FinalizationEligible(rows[h].status)
      && LeaseFree(rows[h])
      && !AppealBusy(h)
    }

    /** A finalization that a younger pending row gives way to. */
    predicate DefersTo(h: Hash, e: Hash)
      requires h in rows && e in rows
    {
      && Older(e, h)
      && FinalizationEligible(rows[e].status)
      && !rows[e].appeal.appealed
      && rows[e].awaitingSince.Some?
      && FinalizationDue(rows[e])
      && LeaseFree(rows[e])
    }

    predicate TransactionCandidate(h: Hash) {
      && h in rows
      && Claimable(rows[h].status)
      && LeaseFree(rows[h])
      && !ContractBusy(h)
      && (forall e :: e in rows ==> !DefersTo(h, e))
    }

    // ---- Orderings ------------------------------------------------------------------------

    predicate AheadOnContract(a: Hash, b: Hash)
      requires a in rows && b in rows
    {
      var ua, ub := rows[a].origin.kind == UPGRADE, rows[b].origin.kind == UPGRADE;
      if ua != ub then ua else rows[a].origin.createdAt <= rows[b].origin.createdAt
    }

    /** Rows that never needed recovery first, then upgrades, then age, then hash. */
    predicate AheadOverall(a: Hash, b: Hash)
      requires a in rows && b in rows
    {
      var ra, rb := rows[a].recoveryCount > 0, rows[b].recoveryCount > 0;
      var ua, ub := rows[a].origin.kind == UPGRADE, rows[b].origin.kind == UPGRADE;
      if ra != rb then rb
      else if ua != ub then ua
      else if rows[a].origin.createdAt != rows[b].origin.createdAt then
        rows[a].origin.createdAt < rows[b].origin.createdAt
      else a <= b
    }

    predicate FirstFinalization(h: Hash) {
      && FinalizationCandidate(h)
      && forall o :: o in rows && FinalizationCandidate(o) ==> rows[h].origin.createdAt <= rows[o].origin.createdAt
    }

    predicate FirstAppeal(h: Hash) {
      && AppealCandidate(h)
      && forall o :: o in rows && AppealCandidate(o) ==> rows[h].origin.createdAt <= rows[o].origin.createdAt
    }

    predicate FirstOnContract(h: Hash) {
      && TransactionCandidate(h)
      && forall o :: o in rows && TransactionCandidate(o) && rows[o].origin.address == rows[h].origin.address ==>
          AheadOnContract(h, o)
    }

    predicate FirstTransaction(h: Hash) {
      && FirstOnContract(h)
      && forall o :: o in rows && FirstOnContract(o) ==> AheadOverall(h, o)
    }

    // ---- Updates --------------------------------------------------------------------------

    function Lease(h: Hash, w: WorkerId): Queue
      requires h in rows
    {
      this.(rows := rows[h := rows[h].(blockedAt := Some(now), worker := Some(w))])
    }

    function Release(h: Hash, w: WorkerId): Queue {
      if h in rows && rows[h].worker == Some(w) then this.(rows := rows[h := Unblocked(rows[h])]) else this
    }

    /** After an internal error: back to the start, or canceled at the cap. */
    function Reset(h: Hash, w: WorkerId): Queue {
      if h in rows && rows[h].worker == Some(w) then
        var count := rows[h].recoveryCount + 1;
        var capped := count >= cfg.maxCycles;
        this.(rows := rows[h := Unblocked(rows[h]).(
          recoveryCount := count,
          hasHistory := false,
          status := if capped then Canceled else Pending,
          data := if capped then Exhausted(count) else NoData)])
      else this
    }

    /** Neither the lease nor the consensus monitoring shows recent progress, or a processing row
        has lost its lease altogether. */
    predicate Stuck(row: Row) {
      || (&& row.blockedAt.Some?
          && row.blockedAt.value < now - cfg.timeout
          && (if row.lastProgress.Some? then row.lastProgress.value else row.blockedAt.value) < now - cfg.timeout)
      || (&& row.blockedAt.None?
          && Processing(row.status)
          && row.origin.createdAt < now - ORPHAN_TIMEOUT)
    }

    function EscalateRow(row: Row): Row {
      if row.recoveryCount >= cfg.maxCycles && ConsensusRecoverable(row.status) && Stuck(row)
      then Unblocked(row).(status := Canceled, data := Exhausted(row.recoveryCount))
      else row
    }

    function ReleaseOrphanRow(row: Row): Row {
      if row.blockedAt.Some? && row.blockedAt.value < now - cfg.timeout && FinalizationEligible(row.status)
      then Unblocked(row)
      else row
    }

    function RequeueRow(row: Row): Row {
      if row.recoveryCount < cfg.maxCycles && ConsensusRecoverable(row.status) && Stuck(row)
      then Unblocked(row).(status := Pending, data := NoData, hasHistory := false,
        recoveryCount := row.recoveryCount + 1)
      else row
    }

    function Escalate(): Queue {
      this.(rows := map h | h in rows :: EscalateRow(rows[h]))
    }

    function ReleaseOrphans(): Queue {
      this.(rows := map h | h in rows :: ReleaseOrphanRow(rows[h]))
    }

    function Requeue(): Queue {
      this.(rows := map h | h in rows :: RequeueRow(rows[h]))
    }

    /** Every newer row of the contract goes back to pending, whatever its status. */
    function Rollback(h: Hash): Queue
      requires h in rows
    {
      this.(rows := map o | o in rows :: if Older(h, o) then rows[o].(status := Pending) else rows[o])
    }

    /** A user may cancel a row that no worker has taken. */
    function CancelIfAvailable(h: Hash): Queue {
      if h in rows && Claimable(rows[h].status) && rows[h].blockedAt.None?
      then this.(rows := rows[h := rows[h].(status := Canceled)])
      else this
    }
  }

  function Unblocked(row: Row): Row {
    row.(blockedAt := None, worker := None)
  }

  // ---- The worker ---------------------------------------------------------------------------

  /** The shared table, changed only by atomic updates. */
  class Database {
    var queue: Queue

    constructor (queue: Queue)
      ensures this.queue == queue
    {
      this.queue := queue;
    }
  }

  datatype Order = ByAge | ByPriority

  predicate Ahead(q: Queue, order: Order, a: Hash, b: Hash)
    requires a in q.rows && b in q.rows
  {
    match order
    case ByAge => q.rows[a].origin.createdAt <= q.rows[b].origin.createdAt
    case ByPriority => q.AheadOverall(a, b)
  }

  method PickFirst(q: Queue, candidates: set<Hash>, order: Order) returns (best: Hash)
    requires candidates != {} && candidates <= q.rows.Keys
    ensures best in candidates && forall h :: h in candidates ==> Ahead(q, order, best, h)
  {
    best :| best in candidates;
    var rest := candidates - {best};
    while rest != {}
      invariant rest <= candidates && best in candidates - rest
      invariant forall h :: h in candidates - rest ==> Ahead(q, order, best, h)
    {
      var next :| next in rest;
      if !Ahead(q, order, best, next) {
        forall h | h in candidates - rest ensures Ahead(q, order, next, h) {
          assert Ahead(q, order, best, h);
        }
        best := next;
      }
      rest := rest - {next};
    }
  }

  class ConsensusWorker {
    const id: WorkerId
    const db: Database

    constructor (id: WorkerId, db: Database)
      ensures this.id == id && this.db == db
    {
      this.id, this.db := id, db;
    }

    /** At most one row changes: the oldest row that may be finalized gets this worker's lease. */
    method ClaimNextFinalization() returns (claimed: Option<Hash>)
      modifies db
      ensures claimed.None? ==> db.queue == old(db.queue) && forall h :: !db.queue.FinalizationCandidate(h)
      ensures claimed.Some? ==> old(db.queue).FirstFinalization(claimed.value)
      ensures claimed.Some? ==> forall o :: old(db.queue).FinalizationCandidate(o) ==>
        old(db.queue.rows)[claimed.value].origin.createdAt <= old(db.queue.rows)[o].origin.createdAt
      ensures claimed.Some? ==> db.queue == old(db.queue).Lease(claimed.value, id)
    {
      var q := db.queue;
      var candidates: set<Hash> := set h: Hash | h in q.rows && q.FinalizationCandidate(h);
      if candidates == {} {
        assert forall h :: q.FinalizationCandidate(h) ==> h in candidates;
        return None;
      }
      var h := PickFirst(q, candidates, ByAge);
      assert forall o :: q.FinalizationCandidate(o) ==> o in candidates;
      db.queue := q.Lease(h, id);
      return Some(h);
    }

    method ClaimNextAppeal() returns (claimed: Option<Hash>)
      modifies db
      ensures claimed.None? ==> db.queue == old(db.queue) && forall h :: !db.queue.AppealCandidate(h)
      ensures claimed.Some? ==> old(db.queue).FirstAppeal(claimed.value)
      ensures claimed.Some? ==> forall o :: old(db.queue).AppealCandidate(o) ==>
        old(db.queue.rows)[claimed.value].origin.createdAt <= old(db.queue.rows)[o].origin.createdAt
      ensures claimed.Some? ==> db.queue == old(db.queue).Lease(claimed.value, id)
    {
      var q := db.queue;
      var candidates: set<Hash> := set h: Hash | h in q.rows && q.AppealCandidate(h);
      if candidates == {} {
        assert forall h :: q.AppealCandidate(h) ==> h in candidates;
        return None;
      }
      var h := PickFirst(q, candidates, ByAge);
      assert forall o :: q.AppealCandidate(o) ==> o in candidates;
      db.queue := q.Lease(h, id);
      return Some(h);
    }

    /** The claimed row is first on its contract, and first among the contracts' firsts. */
    method ClaimNextTransaction() returns (claimed: Option<Hash>)
      modifies db
      ensures claimed.None? ==> db.queue == old(db.queue) && forall h :: !db.queue.TransactionCandidate(h)
      ensures claimed.Some? ==> old(db.queue).FirstTransaction(claimed.value)
      ensures claimed.Some? ==> db.queue == old(db.queue).Lease(claimed.value, id)
      // rows that never needed recovery go first; among equals upgrades, then age, then hash
      ensures claimed.Some? ==> forall o :: old(db.queue).FirstOnContract(o) ==>
        var mine, other := old(db.queue.rows)[claimed.value], old(db.queue.rows)[o];
        && (other.recoveryCount == 0 ==> mine.recoveryCount == 0)
        && ((mine.recoveryCount == 0 <==> other.recoveryCount == 0) ==>
              && (other.origin.kind == UPGRADE ==> mine.origin.kind == UPGRADE)
              && ((mine.origin.kind == UPGRADE <==> other.origin.kind == UPGRADE) ==>
                    && mine.origin.createdAt <= other.origin.createdAt
                    && (mine.origin.createdAt == other.origin.createdAt ==> claimed.value <= o)))
    {
      var q := db.queue;
      var candidates: set<Hash> := set h: Hash | h in q.rows && q.TransactionCandidate(h);
      if candidates == {} {
        assert forall h :: q.TransactionCandidate(h) ==> h in candidates;
        return None;
      }
      assert forall o :: q.TransactionCandidate(o) ==> o in candidates;
      var firsts: set<Hash> := set h: Hash | h in candidates && q.FirstOnContract(h);
      var some :| some in candidates;
      SomeFirstOnContract(q, some);
      ghost var one: Hash :| q.FirstOnContract(one);
      assert one in firsts;
      var h := PickFirst(q, firsts, ByPriority);
      assert forall o :: q.FirstOnContract(o) ==> o in firsts;
      db.queue := q.Lease(h, id);
      return Some(h);
    }

    method ReleaseTransaction(h: Hash)
      modifies db
      ensures db.queue == old(db.queue).Release(h, id)
      ensures db.queue.rows.Keys == old(db.queue.rows.Keys)
      ensures forall o :: o in db.queue.rows ==>
        var row := old(db.queue.rows)[o];
        db.queue.rows[o] ==
          if o == h && row.worker == Some(id) then row.(blockedAt := None, worker := None) else row
    {
      var q := db.queue;
      if h in q.rows && q.rows[h].worker == Some(id) {
        db.queue := q.(rows := q.rows[h := q.rows[h].(blockedAt := None, worker := None)]);
      }
    }

    method ResetTransaction(h: Hash)
      modifies db
      ensures db.queue == old(db.queue).Reset(h, id)
      ensures db.queue.rows.Keys == old(db.queue.rows.Keys)
      ensures forall o :: o in db.queue.rows && !(o == h && old(db.queue.rows)[o].worker == Some(id)) ==>
        db.queue.rows[o] == old(db.queue.rows)[o]
      ensures h in db.queue.rows && old(db.queue.rows)[h].worker == Some(id) ==>
        var row, count := old(db.queue.rows)[h], old(db.queue.rows)[h].recoveryCount + 1;
        db.queue.rows[h] == row.(
          blockedAt := None, worker := None, hasHistory := false, recoveryCount := count,
          status := if count < db.queue.cfg.maxCycles then Pending else Canceled,
          data := if count < db.queue.cfg.maxCycles then NoData else Exhausted(count))
    {
      var q := db.queue;
      if h in q.rows && q.rows[h].worker == Some(id) {
        var row := q.rows[h].(blockedAt := None, worker := None, hasHistory := false);
        row := row.(recoveryCount := row.recoveryCount + 1);
        if row.recoveryCount >= q.cfg.maxCycles {
          row := row.(status := Canceled, data := Exhausted(row.recoveryCount));
        } else {
          row := row.(status := Pending, data := NoData);
        }
        db.queue := q.(rows := q.rows[h := row]);
      }
    }

    /** One recovery pass. Rows whose consensus is agreed keep their status and their data. */
    method RecoverStuckTransactions() returns (recovered: nat)
      modifies db
      ensures db.queue == old(db.queue).Escalate().ReleaseOrphans().Requeue()
      ensures db.queue.rows.Keys == old(db.queue.rows.Keys)
      ensures forall h :: h in old(db.queue.rows) && FinalizationEligible(old(db.queue.rows[h].status)) ==>
        db.queue.rows[h] == old(db.queue).ReleaseOrphanRow(old(db.queue.rows[h]))
      ensures recovered == |set h | h in old(db.queue.rows)
              && db.queue.rows[h].recoveryCount > old(db.queue.rows[h].recoveryCount)|
    {
      hide Queue.EscalateRow, Queue.ReleaseOrphanRow, Queue.RequeueRow;
      var before := db.queue;
      db.queue := db.queue.Escalate();
      db.queue := db.queue.ReleaseOrphans();
      var q := db.queue;
      db.queue := q.Requeue();
      var requeued: set<Hash> := set h: Hash | h in q.rows && q.RequeueRow(q.rows[h]) != q.rows[h];
      forall h | h in before.rows
        ensures FinalizationEligible(before.rows[h].status) ==>
                  db.queue.rows[h] == before.ReleaseOrphanRow(before.rows[h])
        ensures h in requeued <==> db.queue.rows[h].recoveryCount > before.rows[h].recoveryCount
      {
        RecoverRow(before, before.Escalate(), q, before.rows[h]);
      }
      assert requeued == set h | h in before.rows && db.queue.rows[h].recoveryCount > before.rows[h].recoveryCount;
      recovered := |requeued|;
    }
  }

  /** The row updates that do not depend on a worker. */
  class TransactionsProcessor {
    const db: Database

    constructor (db: Database)
      ensures this.db == db
    {
      this.db := db;
    }

    method CancelTransactionIfAvailable(h: Hash) returns (canceled: bool)
      modifies db
      ensures canceled <==>
        (h in old(db.queue.rows) && Claimable(old(db.queue.rows[h].status)) && old(db.queue.rows[h].blockedAt).None?)
      ensures db.queue == old(db.queue).CancelIfAvailable(h)
      ensures db.queue.rows.Keys == old(db.queue.rows.Keys)
      ensures forall o :: o in db.queue.rows ==>
        var row := old(db.queue.rows)[o];
        db.queue.rows[o] == if canceled && o == h then row.(status := Canceled) else row
    {
      var rows := db.queue.rows;
      canceled := h in rows && Claimable(rows[h].status) && rows[h].blockedAt.None?;
      if canceled {
        db.queue := db.queue.(rows := rows[h := rows[h].(status := Canceled)]);
      }
    }

    /** The newer rows of the contract go back to pending, one after the other. */
    method RollbackTransactions(h: Hash)
      requires h in db.queue.rows
      modifies db
      ensures db.queue == old(db.queue).Rollback(h)
      ensures db.queue.rows.Keys == old(db.queue.rows.Keys)
      ensures forall o :: o in db.queue.rows ==>
        var start, row := old(db.queue.rows)[h].origin, old(db.queue.rows)[o];
        db.queue.rows[o] ==
          if row.origin.address == start.address && row.origin.createdAt > start.createdAt
          then row.(status := Pending) else row
    {
      var q := db.queue;
      var newer: set<Hash> := set o: Hash | o in q.rows && q.Older(h, o);
      var todo := newer;
      while todo != {}
        invariant todo <= newer && db.queue.cfg == q.cfg && db.queue.now == q.now && db.queue.rows.Keys == q.rows.Keys
        invariant forall o :: o in q.rows ==>
          db.queue.rows[o] == if o in newer - todo then q.rows[o].(status := Pending) else q.rows[o]
        decreases todo
      {
        var next :| next in todo;
        db.queue := db.queue.(rows := db.queue.rows[next := db.queue.rows[next].(status := Pending)]);
        todo := todo - {next};
      }
      assert db.queue.rows == q.Rollback(h).rows;
    }
  }

  /** What the three updates of a pass do to one row. */
  lemma RecoverRow(q: Queue, q1: Queue, q2: Queue, row: Row)
    requires q1.cfg == q2.cfg == q.cfg && q1.now == q2.now == q.now
    ensures var mid := q1.ReleaseOrphanRow(q.EscalateRow(row));
            var end := q2.RequeueRow(mid);
            && (FinalizationEligible(row.status) ==> end == q.ReleaseOrphanRow(row))
            && (end != mid <==> end.recoveryCount > row.recoveryCount)
  {
    assert q1.Stuck(row) == q2.Stuck(row) == q.Stuck(row);
  }

  /** What a pass makes of a row: canceled or requeued if it was in processing and shows no progress, freed
      of a stale lease if its consensus is agreed, and left alone otherwise. */
  function Recovered(cfg: Config, now: real, row: Row): Row {
    var stale := row.blockedAt.Some? && row.blockedAt.value < now - cfg.timeout;
    var silent := row.lastProgress.Some? ==> row.lastProgress.value < now - cfg.timeout;
    var orphan :=
      row.blockedAt.None? && row.status in {Proposing, Committing, Revealing} && row.origin.createdAt < now - 300.0;
    var free := row.(blockedAt := None, worker := None);
    if row.status in {Pending, Activated, Proposing, Committing, Revealing} then
      if !((stale && silent) || orphan) then row
      else if row.recoveryCount >= cfg.maxCycles then free.(status := Canceled, data := Exhausted(row.recoveryCount))
      else free.(status := Pending, data := NoData, hasHistory := false, recoveryCount := row.recoveryCount + 1)
    else if row.status in {Accepted, Undetermined, LeaderTimeout, ValidatorsTimeout} && stale then free
    else row
  }

  lemma RowAfterPass(q: Queue, q1: Queue, q2: Queue, row: Row)
    requires q1.cfg == q2.cfg == q.cfg && q1.now == q2.now == q.now
    ensures q2.RequeueRow(q1.ReleaseOrphanRow(q.EscalateRow(row))) == Recovered(q.cfg, q.now, row)
  {
    assert q1.Stuck(row) == q2.Stuck(row) == q.Stuck(row);
    var free := Unblocked(row);
    if ConsensusRecoverable(row.status) {
      if q.Stuck(row) && row.recoveryCount >= q.cfg.maxCycles {
        assert q.EscalateRow(row) == free.(status := Canceled, data := Exhausted(row.recoveryCount));
      } else {
        assert q1.ReleaseOrphanRow(q.EscalateRow(row)) == row;
      }
    } else {
      assert q.EscalateRow(row) == row;
    }
  }

  /** The three updates, one after the other: a row in processing without recent progress is requeued, or
      canceled at the cap, an agreed one loses a stale lease, and any other stays as it is. */
  lemma PassOnRow(q: Queue, h: Hash)
    requires h in q.rows
    ensures var end, row, late := q.Escalate().ReleaseOrphans().Requeue(), q.rows[h], q.now - q.cfg.timeout;
            var free := row.(blockedAt := None, worker := None);
            var stale := row.blockedAt.Some? && row.blockedAt.value < late;
            var stuck :=
              || (stale && (row.lastProgress.Some? ==> row.lastProgress.value < late))
              || (row.blockedAt.None? && row.status in {Proposing, Committing, Revealing}
                  && row.origin.createdAt < q.now - 300.0);
            var running := row.status in {Pending, Activated, Proposing, Committing, Revealing};
            var agreed := row.status in {Accepted, Undetermined, LeaderTimeout, ValidatorsTimeout};
            && end.rows.Keys == q.rows.Keys
            && (running && stuck && row.recoveryCount >= q.cfg.maxCycles ==>
                  end.rows[h] == free.(status := Canceled, data := Exhausted(row.recoveryCount)))
            && (running && stuck && row.recoveryCount < q.cfg.maxCycles ==>
                  end.rows[h] ==
                    free.(status := Pending, data := NoData, hasHistory := false,
                          recoveryCount := row.recoveryCount + 1))
            && (agreed && stale ==> end.rows[h] == free)
            && (!(running && stuck) && !(agreed && stale) ==> end.rows[h] == row)
  {
    hide Queue.EscalateRow, Queue.ReleaseOrphanRow, Queue.RequeueRow;
    RowAfterPass(q, q.Escalate(), q.Escalate().ReleaseOrphans(), q.rows[h]);
  }

  /** What makes a row claimable for finalization, in terms of its fields and those of its contract. */
  lemma FinalizationCandidateIff(q: Queue, h: Hash)
    requires h in q.rows
    ensures var row := q.rows[h];
            var elapsed := if row.awaitingSince.Some? then
                             q.now - row.awaitingSince.value as real - row.appeal.processingTime as real else 0.0;
            q.FinalizationCandidate(h) <==>
              && row.status in {Accepted, Undetermined, LeaderTimeout, ValidatorsTimeout} && !row.appeal.appealed
              && (row.awaitingSince.Some? ==>
                    row.origin.immediate || elapsed > q.cfg.window * Pow(1.0 - q.cfg.reduction, row.appeal.failed))
              && (row.awaitingSince.None? ==> row.origin.createdAt < q.now - q.cfg.stranded)
              && (row.blockedAt.Some? ==> row.blockedAt.value < q.now - q.cfg.timeout)
              && (forall o :: o in q.rows && o != h && q.rows[o].origin.address == row.origin.address ==>
                    && (q.rows[o].origin.createdAt < row.origin.createdAt ==> q.rows[o].status in {Finalized, Canceled})
                    && (q.rows[o].blockedAt.Some? ==> q.rows[o].blockedAt.value <= q.now - q.cfg.timeout))
  {
    hide Pow;
  }

  lemma AppealCandidateIff(q: Queue, h: Hash)
    requires h in q.rows
    ensures var row := q.rows[h];
            q.AppealCandidate(h) <==>
              && row.status in {Accepted, Undetermined, LeaderTimeout, ValidatorsTimeout} && row.appeal.appealed
              && (row.blockedAt.Some? ==> row.blockedAt.value < q.now - q.cfg.timeout)
              && (forall o :: o in q.rows && o != h && q.rows[o].origin.address == row.origin.address ==>
                    q.rows[o].appeal.appealed && q.rows[o].blockedAt.Some? ==>
                      q.rows[o].blockedAt.value <= q.now - q.cfg.timeout)
  {
    hide Pow;
  }

  /** The same for execution; an older row whose finalization is due comes first. */
  lemma TransactionCandidateIff(q: Queue, h: Hash)
    requires h in q.rows
    ensures var row := q.rows[h];
            q.TransactionCandidate(h) <==>
              && row.status in {Pending, Activated}
              && (row.blockedAt.Some? ==> row.blockedAt.value < q.now - q.cfg.timeout)
              && (forall o :: o in q.rows && o != h && q.rows[o].origin.address == row.origin.address ==>
                    q.rows[o].blockedAt.Some? ==> q.rows[o].blockedAt.value <= q.now - q.cfg.timeout)
              && !(exists o :: o in q.rows && IsDueBefore(q, q.rows[o], row.origin))
  {
    hide Pow;
    assert forall o :: o in q.rows ==> (q.DefersTo(h, o) <==> IsDueBefore(q, q.rows[o], q.rows[h].origin));
  }

  /** Agreed, not appealed, stamped, its window over, not being worked on, and older on the contract. */
  predicate IsDueBefore(q: Queue, row: Row, other: Origin) {
    && row.origin.address == other.address && row.origin.createdAt < other.createdAt
    && row.status in {Accepted, Undetermined, LeaderTimeout, ValidatorsTimeout} && !row.appeal.appealed
    && row.awaitingSince.Some?
    && (row.origin.immediate ||
        q.now - row.awaitingSince.value as real - row.appeal.processingTime as real
          > q.cfg.window * Pow(1.0 - q.cfg.reduction, row.appeal.failed))
    && (row.blockedAt.Some? ==> row.blockedAt.value < q.now - q.cfg.timeout)
  }

  /** Upgrades first, then age: no candidate of the contract is an upgrade unless the first one is, and none
      of the same kind is older. */
  lemma FirstOnContractMeans(q: Queue, h: Hash, o: Hash)
    requires q.FirstOnContract(h) && q.TransactionCandidate(o) && q.rows[o].origin.address == q.rows[h].origin.address
    ensures var mine, other := q.rows[h].origin, q.rows[o].origin;
            && (other.kind == UPGRADE ==> mine.kind == UPGRADE)
            && ((mine.kind == UPGRADE <==> other.kind == UPGRADE) ==> mine.createdAt <= other.createdAt)
  {
    hide Queue.LeaseFree, Queue.ContractBusy, Queue.DefersTo;
    assert q.AheadOnContract(h, o);
  }

  /** Among the first rows of all contracts: one that needed recovery is taken only if every one did; among
      equals there upgrades go first, then older rows, then smaller hashes. */
  lemma FirstTransactionMeans(q: Queue, h: Hash, o: Hash)
    requires q.FirstTransaction(h) && q.FirstOnContract(o)
    ensures var mine, other := q.rows[h], q.rows[o];
            && (other.recoveryCount == 0 ==> mine.recoveryCount == 0)
            && ((mine.recoveryCount == 0 <==> other.recoveryCount == 0) ==>
                  && (other.origin.kind == UPGRADE ==> mine.origin.kind == UPGRADE)
                  && ((mine.origin.kind == UPGRADE <==> other.origin.kind == UPGRADE) ==>
                        && mine.origin.createdAt <= other.origin.createdAt
                        && (mine.origin.createdAt == other.origin.createdAt ==> h <= o)))
  {
    hide Queue.FirstOnContract;
    assert h in q.rows && o in q.rows by { AreKnown(q, h, o); }
    assert q.AheadOverall(h, o);
  }

  lemma AreKnown(q: Queue, h: Hash, o: Hash)
    requires q.FirstOnContract(h) && q.FirstOnContract(o)
    ensures h in q.rows && o in q.rows
  {
  }

  /** A claim marks its row with the worker and the time, and touches nothing else. */
  lemma LeaseMeans(q: Queue, h: Hash, w: WorkerId)
    requires h in q.rows
    ensures var q' := q.Lease(h, w);
            && q'.cfg == q.cfg && q'.now == q.now && q'.rows.Keys == q.rows.Keys
            && q'.rows[h] == q.rows[h].(blockedAt := Some(q.now), worker := Some(w))
            && forall o :: o in q.rows && o != h ==> q'.rows[o] == q.rows[o]
  {
  }

  /** A contract with a candidate has a first one. */
  lemma SomeFirstOnContract(q: Queue, some: Hash)
    requires q.TransactionCandidate(some)
    ensures exists h :: q.FirstOnContract(h) && q.rows[h].origin.address == q.rows[some].origin.address
  {
    var contract := q.rows[some].origin.address;
    var todo: set<Hash> :=
      set h: Hash | h in q.rows && q.TransactionCandidate(h) && q.rows[h].origin.address == contract && h != some;
    var best := some;
    while todo != {}
      invariant q.TransactionCandidate(best) && q.rows[best].origin.address == q.rows[some].origin.address
      invariant forall o ::
        (q.TransactionCandidate(o) && q.rows[o].origin.address == q.rows[some].origin.address && o !in todo) ==>
          q.AheadOnContract(best, o)
      decreases |todo|
    {
      var next :| next in todo;
      if q.TransactionCandidate(next) && q.rows[next].origin.address == q.rows[some].origin.address
        && !q.AheadOnContract(best, next) {
        best := next;
      }
      todo := todo - {next};
    }
    assert q.FirstOnContract(best);
  }
}
