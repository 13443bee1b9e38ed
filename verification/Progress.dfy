/** No contract queue is ever stuck: its oldest unfinished row is always due at some time, and no chain
    of waits between the rows of a contract closes. */
module Progress {
  import opened Wrappers
  import opened Rows
  import opened Scheduler
  import opened Sequences

  predicate OldestUnfinished(q: Queue, h: Hash) {
    && h in q.rows
    && !Terminal(q.rows[h].status)
    && forall e :: e in q.rows && q.Older(e, h) ==> Terminal(q.rows[e].status)
  }

  predicate NoLiveLease(q: Queue, address: Option<Address>) {
    forall h :: h in q.rows && q.rows[h].origin.address == address ==> !q.LiveLease(q.rows[h])
  }

  /** One of the three claim queries or the recovery pass takes the row. */
  predicate Admitted(q: Queue, h: Hash) {
    || q.TransactionCandidate(h)
    || q.AppealCandidate(h)
    || q.FinalizationCandidate(h)
    || (h in q.rows && (q.EscalateRow(q.rows[h]) != q.rows[h] || q.RequeueRow(q.rows[h]) != q.rows[h]))
  }

  // ---- When the oldest row is due ------------------------------------------------------------

  function LeaseEnd(cfg: Config, row: Row): Option<real> {
    if row.blockedAt.None? then None else Some(row.blockedAt.value + cfg.timeout)
  }

  /** The time after which a row waits for its finality window, or for the stranded-row drain. */
  function FinalityEnd(cfg: Config, row: Row): Option<real> {
    if row.awaitingSince.None? then Some(row.origin.createdAt + cfg.stranded)
    else if row.origin.immediate then None
    else Some(row.awaitingSince.value as real + row.appeal.processingTime as real
              + cfg.window * Pow(1.0 - cfg.reduction, row.appeal.failed))
  }

  /** The time after which recovery considers a processing row stuck. */
  function RecoveryDue(cfg: Config, row: Row): Option<real> {
    if row.blockedAt.None? then Some(row.origin.createdAt + ORPHAN_TIMEOUT)
    else Later(LeaseEnd(cfg, row), if row.lastProgress.Some? then Some(row.lastProgress.value + cfg.timeout) else None)
  }

  function Later(a: Option<real>, b: Option<real>): Option<real> {
    if a.None? then b else if b.None? || a.value >= b.value then a else b
  }

  predicate Past(now: real, due: Option<real>) {
    due.None? || now > due.value
  }

  /** The time bound of a row that is not terminal. */
  function Deadline(cfg: Config, row: Row): Option<real> {
    if Processing(row.status) then RecoveryDue(cfg, row)
    else if FinalizationEligible(row.status) && !row.appeal.appealed then
      Later(LeaseEnd(cfg, row), FinalityEnd(cfg, row))
    else LeaseEnd(cfg, row)
  }

  lemma ClaimableIsAdmittedIff(q: Queue, h: Hash)
    requires OldestUnfinished(q, h) && NoLiveLease(q, q.rows[h].origin.address) && Claimable(q.rows[h].status)
    ensures Admitted(q, h) <==> Past(q.now, Deadline(q.cfg, q.rows[h]))
  {
    hide Queue.FinalizationDue;
    forall e | e in q.rows ensures !q.DefersTo(h, e) {
      if q.Older(e, h) {
        assert Terminal(q.rows[e].status);
      }
    }
  }

  lemma ProcessingIsAdmittedIff(q: Queue, h: Hash)
    requires OldestUnfinished(q, h) && Processing(q.rows[h].status)
    ensures Admitted(q, h) <==> Past(q.now, Deadline(q.cfg, q.rows[h]))
  {
    hide Queue.DefersTo, Queue.FinalizationDue, Queue.ContractBusy, Queue.AppealBusy;
  }

  lemma EligibleIsAdmittedIff(q: Queue, h: Hash)
    requires OldestUnfinished(q, h) && NoLiveLease(q, q.rows[h].origin.address)
             && FinalizationEligible(q.rows[h].status)
    ensures Admitted(q, h) <==> Past(q.now, Deadline(q.cfg, q.rows[h]))
  {
    hide Queue.DefersTo, Pow;
    assert !q.ContractBusy(h) && !q.AppealBusy(h);
  }

  /** With no live lease on a contract, its oldest unfinished row is taken by a claim query or by
      recovery exactly when its time bound has passed. */
  lemma OldestIsAdmittedIff(q: Queue, h: Hash)
    requires OldestUnfinished(q, h) && NoLiveLease(q, q.rows[h].origin.address)
    ensures Admitted(q, h) <==> Past(q.now, Deadline(q.cfg, q.rows[h]))
  {
    hide Admitted, Deadline;
    match q.rows[h].status
    case Pending => ClaimableIsAdmittedIff(q, h);
    case Activated => ClaimableIsAdmittedIff(q, h);
    case Proposing => ProcessingIsAdmittedIff(q, h);
    case Committing => ProcessingIsAdmittedIff(q, h);
    case Revealing => ProcessingIsAdmittedIff(q, h);
    case Accepted => EligibleIsAdmittedIff(q, h);
    case Undetermined => EligibleIsAdmittedIff(q, h);
    case LeaderTimeout => EligibleIsAdmittedIff(q, h);
    case ValidatorsTimeout => EligibleIsAdmittedIff(q, h);
  }

  // ---- A queue of any length -----------------------------------------------------------------

  lemma {:induction false} OldestExists(q: Queue, h: Hash) returns (first: Hash)
    requires h in q.rows && !Terminal(q.rows[h].status)
    ensures OldestUnfinished(q, first) && q.rows[first].origin.address == q.rows[h].origin.address
    decreases |Ahead(q, h)|
  {
    if OldestUnfinished(q, h) {
      first := h;
    } else {
      var e :| e in q.rows && q.Older(e, h) && !Terminal(q.rows[e].status);
      assert e in Ahead(q, h) && e !in Ahead(q, e);
      SubsetIsSmaller(Ahead(q, e), Ahead(q, h));
      first := OldestExists(q, e);
    }
  }

  function Ahead(q: Queue, h: Hash): set<Hash>
    requires h in q.rows
  {
    set o: Hash | o in q.rows && q.Older(o, h)
  }

  /** A time after which no lease of the table is live and every deadline has passed. */
  lemma {:induction false} CommonBound(cfg: Config, rows: Table) returns (bound: real)
    ensures forall h :: h in rows ==>
      Past(bound + 1.0, LeaseEnd(cfg, rows[h])) && Past(bound + 1.0, Deadline(cfg, rows[h]))
    decreases |rows|
  {
    if rows.Keys == {} {
      bound := 0.0;
    } else {
      var h :| h in rows;
      var rest := rows - {h};
      assert rest.Keys < rows.Keys;
      SubsetIsSmaller(rest.Keys, rows.Keys);
      bound := CommonBound(cfg, rest);
      var mine := Later(LeaseEnd(cfg, rows[h]), Deadline(cfg, rows[h]));
      if mine.Some? && mine.value > bound {
        bound := mine.value;
      }
      forall o | o in rows
        ensures Past(bound + 1.0, LeaseEnd(cfg, rows[o])) && Past(bound + 1.0, Deadline(cfg, rows[o]))
      {
        assert o != h ==> o in rest && rest[o] == rows[o];
      }
    }
  }

  /** Whatever leases the workers left behind, a contract with an unfinished row has a row that some
      claim query or recovery admits at every time after some bound. */
  lemma NoContractIsStuck(q: Queue, h: Hash) returns (bound: real, first: Hash)
    requires h in q.rows && !Terminal(q.rows[h].status)
    ensures first in q.rows && q.rows[first].origin.address == q.rows[h].origin.address
    ensures forall t: real :: t > bound ==> Admitted(q.(now := t), first)
  {
    first := OldestExists(q, h);
    bound := CommonBound(q.cfg, q.rows);
    bound := bound + 1.0;
    forall t: real | t > bound ensures Admitted(q.(now := t), first) {
      hide Admitted, Deadline;
      var later := q.(now := t);
      forall o | o in later.rows ensures !later.LiveLease(later.rows[o]) && Past(t, Deadline(q.cfg, q.rows[o])) {
        assert Past(bound, LeaseEnd(q.cfg, q.rows[o])) && Past(bound, Deadline(q.cfg, q.rows[o]));
      }
      assert forall o :: o in q.rows && q.Older(o, first) <==> o in later.rows && later.Older(o, first);
      OldestIsAdmittedIff(later, first);
    }
  }

  // ---- Waiting ---------------------------------------------------------------------------------

  /** The previous row of the contract in creation order, which execution looks at once more. */
  predicate Previous(q: Queue, h: Hash, p: Hash)
    requires h in q.rows && p in q.rows
  {
    q.Older(p, h) && forall o :: o in q.rows && q.Older(o, h) ==>
        q.rows[o].origin.createdAt <= q.rows[p].origin.createdAt
  }

  /** Execution starts only when the previous row is decided or under appeal. */
  predicate LetsStart(row: Row) {
    || row.appeal.appealed || row.appeal.undetermined || row.appeal.leaderTimeout || row.appeal.validatorsTimeout
    || FinalizationEligible(row.status) || Terminal(row.status)
  }

  /** The query would take `b` before `a`: an upgrade goes before older rows of other types. */
  predicate Outranked(q: Queue, a: Hash, b: Hash)
    requires a in q.rows && b in q.rows
  {
    && q.TransactionCandidate(a) && q.TransactionCandidate(b) && a != b
    && q.rows[a].origin.address == q.rows[b].origin.address
    && q.AheadOnContract(b, a) && !q.AheadOnContract(a, b)
  }

  /** Deployments have no previous row, and upgrades run without looking at it. */
  predicate LooksBack(row: Row) {
    row.origin.kind != DEPLOY && row.origin.kind != UPGRADE
  }

  /** Row `a` cannot move on until `b` does. */
  predicate WaitsOn(q: Queue, a: Hash, b: Hash) {
    && a in q.rows && b in q.rows
    && (|| (Claimable(q.rows[a].status) && q.DefersTo(a, b))
        || Outranked(q, a, b)
        || (Claimable(q.rows[a].status) && LooksBack(q.rows[a]) && Previous(q, a, b) && !LetsStart(q.rows[b]))
        || (FinalizationEligible(q.rows[a].status) && q.Older(b, a) && !Terminal(q.rows[b].status)))
  }

  predicate WaitingChain(q: Queue, chain: seq<Hash>) {
    forall i :: 0 <= i < |chain| - 1 ==> WaitsOn(q, chain[i], chain[i + 1])
  }

  predicate ReadyUpgrade(q: Queue, h: Hash) {
    q.TransactionCandidate(h) && q.rows[h].origin.kind == UPGRADE
  }

  /** One wait leads to an older row, or from another row to an upgrade that is ready. */
  lemma WaitGoesBack(q: Queue, a: Hash, b: Hash)
    requires WaitsOn(q, a, b)
    ensures ReadyUpgrade(q, a) ==> ReadyUpgrade(q, b)
    ensures q.Older(b, a) || (ReadyUpgrade(q, b) && !ReadyUpgrade(q, a))
  {
    hide Queue.FinalizationDue, Queue.ContractBusy, Queue.LeaseFree;
  }

  /** A chain of waits ends at an older row, or at a ready upgrade when it did not start at one. */
  lemma {:induction false} ChainGoesBack(q: Queue, chain: seq<Hash>)
    requires |chain| >= 2 && WaitingChain(q, chain)
    ensures var first, last := chain[0], chain[|chain| - 1];
            && first in q.rows && last in q.rows
            && (ReadyUpgrade(q, first) ==> ReadyUpgrade(q, last))
            && (q.Older(last, first) || (ReadyUpgrade(q, last) && !ReadyUpgrade(q, first)))
    decreases |chain|
  {
    hide ReadyUpgrade, WaitsOn;
    assert WaitsOn(q, chain[0], chain[1]);
    WaitGoesBack(q, chain[0], chain[1]);
    WaitIsKnown(q, chain[0], chain[1]);
    if |chain| > 2 {
      forall i | 0 <= i < |chain[1..]| - 1 ensures WaitsOn(q, chain[1..][i], chain[1..][i + 1]) {
        assert WaitsOn(q, chain[i + 1], chain[i + 2]);
      }
      ChainGoesBack(q, chain[1..]);
    }
  }

  lemma WaitIsKnown(q: Queue, a: Hash, b: Hash)
    requires WaitsOn(q, a, b)
    ensures a in q.rows && b in q.rows
  {
  }

  /** No chain of waits, however long, comes back to a row it has visited. */
  lemma NoWaitingCycle(q: Queue, chain: seq<Hash>)
    requires WaitingChain(q, chain)
    ensures forall i, j :: 0 <= i < j < |chain| ==> chain[i] != chain[j]
  {
    hide WaitsOn, ReadyUpgrade;
    forall i, j | 0 <= i < j < |chain| ensures chain[i] != chain[j] {
      var part := chain[i..j + 1];
      forall k | 0 <= k < |part| - 1 ensures WaitsOn(q, part[k], part[k + 1]) {
        assert WaitsOn(q, chain[i + k], chain[i + k + 1]);
      }
      ChainGoesBack(q, part);
    }
  }

  /** The oldest unfinished row of a contract waits for nothing but an upgrade that is ready, and the
      first ready upgrade waits for nothing. */
  lemma HeadWaitsOnNothing(q: Queue, h: Hash, other: Hash)
    requires OldestUnfinished(q, h)
    ensures WaitsOn(q, h, other) ==> ReadyUpgrade(q, other) && !ReadyUpgrade(q, h)
    ensures ReadyUpgrade(q, other) && q.FirstOnContract(other) ==> forall o :: !WaitsOn(q, other, o)
  {
    hide Queue.FinalizationDue, Queue.ContractBusy, Queue.LeaseFree;
    if other in q.rows && q.Older(other, h) {
      assert Terminal(q.rows[other].status);
    }
    if ReadyUpgrade(q, other) && q.FirstOnContract(other) {
      forall o ensures !WaitsOn(q, other, o) {
        assert o in q.rows ==> !q.DefersTo(other, o);
      }
    }
  }

  /** Once the oldest unfinished row of a contract may be finalized, nothing else on the contract can be
      claimed for execution or finalization: a steady inflow of new rows cannot keep it waiting. */
  lemma DueFinalizationComesFirst(q: Queue, h: Hash, other: Hash)
    requires OldestUnfinished(q, h) && q.FinalizationCandidate(h) && q.rows[h].awaitingSince.Some?
    requires other in q.rows && other != h && q.rows[other].origin.address == q.rows[h].origin.address
    requires q.rows[other].origin.createdAt != q.rows[h].origin.createdAt
    ensures !q.TransactionCandidate(other) && !q.FinalizationCandidate(other)
  {
    hide Queue.WindowElapsed, Pow;
    if q.Older(h, other) {
      assert q.DefersTo(other, h);
    } else {
      assert q.Older(other, h);
    }
  }
}
