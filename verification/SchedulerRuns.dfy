/** What holds in every run of the scheduler: lease exclusion, finalization order, bounded recovery. */
module SchedulerRuns {
  import opened Wrappers
  import opened Rows
  import opened Scheduler

  datatype ClaimKind = ForTransaction | ForFinalization | ForAppeal

  /** The queue with history variables that no query reads: what each row was last claimed for, which
      rows were ever claimed for finalization, which of them that claim finalized, and how often
      recovery or a reset sent a row back to pending. */
  datatype System = System(
    q: Queue,
    kinds: map<Hash, ClaimKind>,
    claimed: set<Hash>,
    sealed: set<Hash>,
    returned: map<Hash, nat>)

  datatype Event =
    | Tick(seconds: real)
    | Insert(h: Hash, row: Row)
    | ClaimTransaction(h: Hash, w: WorkerId)
    | ClaimFinalization(h: Hash, w: WorkerId)
    | ClaimAppeal(h: Hash, w: WorkerId)
    | Release(h: Hash, w: WorkerId)
    | Reset(h: Hash, w: WorkerId)
    | EscalatePass
    | ReleasePass
    | RequeuePass
    | Process(h: Hash, w: WorkerId, row: Row)   // a consensus, transfer, upgrade or appeal step
    | Finalize(h: Hash, w: WorkerId)            // the holder of a finalization claim finishes it
    | Rollback(h: Hash, w: WorkerId)
    | UserCancel(h: Hash)
    | UserAppeal(h: Hash)
    | CancelAfterErrors(h: Hash)                // retry handlers, whatever state the row is in

  predicate Holds(q: Queue, h: Hash, w: WorkerId) {
    h in q.rows && q.rows[h].worker == Some(w) && q.LiveLease(q.rows[h])
  }

  /** A processing step may rewrite everything but the row's origin, its lease and its counter. */
  predicate SameCustody(a: Row, b: Row) {
    a.origin == b.origin && a.blockedAt == b.blockedAt && a.worker == b.worker && a.recoveryCount == b.recoveryCount
  }

  predicate Enabled(s: System, e: Event) {
    var q := s.q;
    match e
    case Tick(seconds) => seconds >= 0.0
    case Insert(h, row) =>
      && h !in q.rows && row.status.Pending? && row.blockedAt.None? && row.worker.None? && row.recoveryCount == 0
      && forall o :: o in q.rows && q.rows[o].origin.address == row.origin.address
           ==> q.rows[o].origin.createdAt <= row.origin.createdAt
    case ClaimTransaction(h, w) => q.TransactionCandidate(h)
    case ClaimFinalization(h, w) => q.FinalizationCandidate(h)
    case ClaimAppeal(h, w) => q.AppealCandidate(h)
    case Release(h, w) => true
    case Reset(h, w) => true
    case EscalatePass => true
    case ReleasePass => true
    case RequeuePass => true
    case Process(h, w, row) =>
      Holds(q, h, w) && SameCustody(row, q.rows[h]) && (h in s.kinds ==> !s.kinds[h].ForFinalization?)
    case Finalize(h, w) => Holds(q, h, w) && h in s.kinds && s.kinds[h].ForFinalization?
    case Rollback(h, w) => Holds(q, h, w)
    case UserCancel(h) => true
    case UserAppeal(h) => h in q.rows && FinalizationEligible(q.rows[h].status)
    case CancelAfterErrors(h) => h in q.rows
  }

  function SetRow(q: Queue, h: Hash, row: Row): Queue {
    q.(rows := q.rows[h := row])
  }

  function Step(s: System, e: Event): System
    requires Enabled(s, e)
  {
    var q := s.q;
    match e
    case Tick(seconds) => s.(q := q.(now := q.now + seconds))
    case Insert(h, row) => s.(q := SetRow(q, h, row))
    case ClaimTransaction(h, w) => s.(q := q.Lease(h, w), kinds := s.kinds[h := ForTransaction])
    case ClaimFinalization(h, w) =>
      s.(q := q.Lease(h, w), kinds := s.kinds[h := ForFinalization], claimed := s.claimed + {h})
    case ClaimAppeal(h, w) => s.(q := q.Lease(h, w), kinds := s.kinds[h := ForAppeal])
    case Release(h, w) => s.(q := q.Release(h, w))
    case Reset(h, w) =>
      var q' := q.Reset(h, w);
      var counts := q' != q && q'.rows[h].status.Pending?;
      s.(q := q', returned := if counts then s.returned[h := Returned(s, h) + 1] else s.returned)
    case EscalatePass => s.(q := q.Escalate())
    case ReleasePass => s.(q := q.ReleaseOrphans())
    case RequeuePass =>
      s.(q := q.Requeue(),
         returned := map h | h in q.rows :: Returned(s, h) + if q.RequeueRow(q.rows[h]) != q.rows[h] then 1 else 0)
    case Process(h, w, row) => s.(q := SetRow(q, h, row))
    case Finalize(h, w) => s.(q := SetRow(q, h, q.rows[h].(status := Finalized)), sealed := s.sealed + {h})
    case Rollback(h, w) => s.(q := q.Rollback(h))
    case UserCancel(h) => s.(q := q.CancelIfAvailable(h))
    case UserAppeal(h) => s.(q := SetRow(q, h, q.rows[h].(appeal := q.rows[h].appeal.(appealed := true))))
    case CancelAfterErrors(h) => s.(q := SetRow(q, h, q.rows[h].(status := Canceled)))
  }

  function Returned(s: System, h: Hash): nat {
    if h in s.returned then s.returned[h] else 0
  }

  predicate ValidRun(s: System, events: seq<Event>)
    decreases |events|
  {
    events == [] || (Enabled(s, events[0]) && ValidRun(Step(s, events[0]), events[1..]))
  }

  function Run(s: System, events: seq<Event>): System
    requires ValidRun(s, events)
    decreases |events|
  {
    if events == [] then s else Run(Step(s, events[0]), events[1..])
  }

  lemma {:induction false} RunOneMore(s: System, events: seq<Event>, e: Event)
    requires ValidRun(s, events) && Enabled(Run(s, events), e)
    ensures ValidRun(s, events + [e]) && Run(s, events + [e]) == Step(Run(s, events), e)
    decreases |events|
  {
    hide Enabled, Step;
    if events == [] {
      assert ([] + [e])[1..] == [];
    } else {
      RunOneMore(Step(s, events[0]), events[1..], e);
      assert (events + [e])[1..] == events[1..] + [e];
    }
  }

  function Initial(cfg: Config, now: real): System {
    System(Queue(cfg, now, map[]), map[], {}, {}, map[])
  }

  // ---- At most one live lease per contract ---------------------------------------------------

  ghost predicate Exclusive(q: Queue) {
    forall a, b ::
      (a in q.rows && b in q.rows && a != b && q.rows[a].origin.address == q.rows[b].origin.address
        && q.LiveLease(q.rows[a]))
      ==> !q.LiveLease(q.rows[b])
  }

  lemma FewerLeasesKeepExclusive(q: Queue, q': Queue)
    requires Exclusive(q)
    requires forall h :: (h in q'.rows && q'.LiveLease(q'.rows[h])) ==>
      (h in q.rows && q.LiveLease(q.rows[h]) && q.rows[h].origin.address == q'.rows[h].origin.address)
    ensures Exclusive(q')
  {
  }

  lemma LeaseKeepsExclusive(q: Queue, h: Hash, w: WorkerId)
    requires Exclusive(q) && h in q.rows && !q.ContractBusy(h)
    ensures Exclusive(q.Lease(h, w))
  {
    var q' := q.Lease(h, w);
    forall a, b | a in q'.rows && b in q'.rows && a != b && q'.rows[a].origin.address == q'.rows[b].origin.address
      && q'.LiveLease(q'.rows[a])
      ensures !q'.LiveLease(q'.rows[b])
    {
      assert a != h ==> q'.rows[a] == q.rows[a];
      assert b != h ==> q'.rows[b] == q.rows[b];
    }
  }

  lemma StepKeepsExclusive(s: System, e: Event)
    requires Exclusive(s.q) && Enabled(s, e) && !e.ClaimAppeal?
    ensures Exclusive(Step(s, e).q)
  {
    hide Pow, Queue.DefersTo, Queue.Stuck, Queue.ContractBusy, Queue.FinalizationDue, Exclusive;
    hide Terminal, FinalizationEligible;
    if e.ClaimTransaction? || e.ClaimFinalization? {
      LeaseKeepsExclusive(s.q, e.h, e.w);
    } else {
      FewerLeasesKeepExclusive(s.q, Step(s, e).q);
    }
  }

  /** Over any run without appeal claims, no contract ever has two live leases, rows without an
      address included. */
  lemma {:induction false} LeaseExclusion(s: System, events: seq<Event>)
    requires Exclusive(s.q) && ValidRun(s, events)
    requires forall e :: e in events ==> !e.ClaimAppeal?
    ensures Exclusive(Run(s, events).q)
    decreases |events|
  {
    if events != [] {
      StepKeepsExclusive(s, events[0]);
      LeaseExclusion(Step(s, events[0]), events[1..]);
    }
  }

  /** An appeal claim looks only at other appealed leases. It keeps the exclusion exactly when nothing
      else on the contract is leased, which the caller could check. */
  lemma AppealClaimKeepsExclusionIff(q: Queue, h: Hash, w: WorkerId)
    requires Exclusive(q) && q.AppealCandidate(h) && q.cfg.timeout > 0.0
    ensures Exclusive(q.Lease(h, w)) <==> !q.ContractBusy(h)
  {
    hide Pow;
    var q' := q.Lease(h, w);
    assert q'.LiveLease(q'.rows[h]);
    if o :| o in q.rows && o != h && q.rows[o].origin.address == q.rows[h].origin.address && q.LiveLease(q.rows[o]) {
      assert q'.rows[o] == q.rows[o] && q'.LiveLease(q'.rows[o]);
    }
  }

  function SampleRow(status: Status, createdAt: real, appealed: bool, blockedAt: Option<real>): Row {
    Row(Origin(Some(1), Some(2), 2, createdAt, false, 0, false), status,
        Appeal(appealed, false, false, false, 0, 0, None), false, None, 0,
        blockedAt, if blockedAt.Some? then Some(7) else None, 0, None, NoData, false)
  }

  /** Two live leases on one contract: a worker processes a pending row while another takes the
      appeal of an older accepted row. */
  lemma AppealClaimBreaksExclusion() returns (q: Queue, h: Hash, w: WorkerId)
    ensures Exclusive(q) && q.FirstAppeal(h) && !Exclusive(q.Lease(h, w))
  {
    var accepted := SampleRow(Accepted, 1.0, true, None);
    var running := SampleRow(Proposing, 2.0, false, Some(99.0));
    q := Queue(Config(20.0, 30.0, 0.2, 600.0, 3), 100.0, map[0 := accepted, 1 := running]);
    h, w := 0, 8;
    var q' := q.Lease(h, w);
    assert q'.rows[0].origin.address == q'.rows[1].origin.address && q'.LiveLease(q'.rows[0])
           && q'.LiveLease(q'.rows[1]);
  }

  /** A live lease is never taken over: whatever any worker or user does, the row stays with its worker
      until that worker releases or resets it. */
  lemma LiveLeaseIsKept(s: System, e: Event, h: Hash, w: WorkerId)
    requires Enabled(s, e) && Holds(s.q, h, w)
    ensures var rows := Step(s, e).q.rows;
            && h in rows
            && (rows[h].worker == Some(w) ||
                (rows[h].worker == None && rows[h].blockedAt == None
                  && (e == Event.Release(h, w) || e == Event.Reset(h, w))))
  {
    hide Pow, Queue.DefersTo, Queue.ContractBusy, Queue.AppealBusy, Queue.FinalizationDue, Terminal;
    var q, row := s.q, s.q.rows[h];
    assert !q.Stuck(row) && !q.LeaseFree(row) && q.ReleaseOrphanRow(row) == row;
  }

  // ---- Finalization order --------------------------------------------------------------------

  ghost predicate OlderAreTerminal(q: Queue, h: Hash)
    requires h in q.rows
  {
    forall e :: e in q.rows && q.Older(e, h) ==> Terminal(q.rows[e].status)
  }

  ghost predicate Ordered(s: System) {
    && (forall h :: h in s.claimed ==> h in s.q.rows && OlderAreTerminal(s.q, h))
    && (forall h :: h in s.kinds && s.kinds[h].ForFinalization? ==> h in s.claimed)
    && s.sealed <= s.claimed
    && (forall h :: h in s.sealed ==> Terminal(s.q.rows[h].status))
  }

  /** The terminal rows that an event brings back: a reset or a processing step acts on its row by
      hash and worker, a rollback on everything newer, and none of them looks at the status. */
  predicate Revives(s: System, e: Event, o: Hash) {
    var q := s.q;
    o in q.rows && Terminal(q.rows[o].status) &&
    match e
    case Reset(h, w) => o == h && q.rows[o].worker == Some(w) && q.rows[o].recoveryCount + 1 < q.cfg.maxCycles
    case Process(h, w, row) => o == h && !Terminal(row.status)
    case Rollback(h, w) => h in q.rows && q.Older(h, o)
    case _ => false
  }

  /** What one event does to one row: a row is never deleted, its origin never changes, and a terminal
      row stays terminal exactly unless the event revives it. */
  lemma StepOnRow(s: System, e: Event, o: Hash)
    requires Enabled(s, e)
    ensures o in Step(s, e).q.rows <==> o in s.q.rows || (e.Insert? && e.h == o)
    ensures o in s.q.rows ==> Step(s, e).q.rows[o].origin == s.q.rows[o].origin
    ensures o in s.q.rows && Terminal(s.q.rows[o].status) ==>
      (!Terminal(Step(s, e).q.rows[o].status) <==> Revives(s, e, o))
  {
    hide Pow, Queue.Stuck, Queue.DefersTo, Queue.ContractBusy, Queue.AppealBusy, Queue.FinalizationDue;
    hide Queue.LiveLease, Queue.LeaseFree;
  }

  /** The row is sealed, or stands before a row claimed for finalization: it has to stay terminal. */
  ghost predicate MustStay(s: System, o: Hash) {
    o in s.q.rows && (o in s.sealed || exists c :: c in s.claimed && c in s.q.rows && s.q.Older(o, c))
  }

  ghost predicate InOrder(s: System, e: Event) {
    forall o :: Revives(s, e, o) ==> !MustStay(s, o)
  }

  /** A step of a row that is not terminal is always in order, rollbacks included. */
  lemma UnfinishedRowsActInOrder(s: System, e: Event)
    requires Ordered(s) && Enabled(s, e)
    requires e.Reset? || e.Process? || e.Rollback? ==> e.h !in s.q.rows || !Terminal(s.q.rows[e.h].status)
    ensures InOrder(s, e)
  {
    forall o | Revives(s, e, o) ensures !MustStay(s, o) {
      assert s.q.Older(e.h, o);
      assert o in s.claimed ==> OlderAreTerminal(s.q, o);
      forall c | c in s.claimed && c in s.q.rows ensures !s.q.Older(o, c) {
        assert OlderAreTerminal(s.q, c);
      }
    }
  }

  lemma StepKeepsOlderTerminal(s: System, e: Event, h: Hash)
    requires Enabled(s, e) && h in s.q.rows && OlderAreTerminal(s.q, h)
    requires forall o :: o in s.q.rows && Revives(s, e, o) ==> !s.q.Older(o, h)
    ensures h in Step(s, e).q.rows && OlderAreTerminal(Step(s, e).q, h)
  {
    hide Step, Revives;
    var q, q' := s.q, Step(s, e).q;
    StepOnRow(s, e, h);
    forall o | o in q'.rows && q'.Older(o, h) ensures Terminal(q'.rows[o].status) {
      StepOnRow(s, e, o);
      if o in q.rows {
        assert q.Older(o, h);
      } else {
        InsertedIsYoungest(s, e, h);
      }
    }
  }

  lemma InsertedIsYoungest(s: System, e: Event, h: Hash)
    requires Enabled(s, e) && e.Insert? && h in s.q.rows
    ensures !Step(s, e).q.Older(e.h, h)
  {
  }

  lemma StepOnHistory(s: System, e: Event)
    requires Ordered(s) && Enabled(s, e)
    ensures var s' := Step(s, e);
            && s'.claimed == (if e.ClaimFinalization? then s.claimed + {e.h} else s.claimed)
            && s'.sealed == (if e.Finalize? then s.sealed + {e.h} else s.sealed)
            && (forall h :: h in s'.kinds && s'.kinds[h].ForFinalization? ==> h in s'.claimed)
            && (e.Finalize? ==> e.h in s.claimed && e.h in s'.q.rows && Terminal(s'.q.rows[e.h].status))
            && (e.ClaimFinalization? ==>
                  e.h in s.q.rows && OlderAreTerminal(s.q, e.h) && forall o :: !Revives(s, e, o))
  {
    hide Pow, Queue.Stuck, Queue.DefersTo, Queue.ContractBusy, Queue.AppealBusy, Queue.FinalizationDue;
    hide Queue.LiveLease, Queue.LeaseFree;
    if e.ClaimFinalization? {
      assert OlderAreTerminal(s.q, e.h);
    }
  }

  lemma StepKeepsSealed(s: System, e: Event, h: Hash)
    requires Ordered(s) && Enabled(s, e) && InOrder(s, e) && h in Step(s, e).sealed
    ensures h in Step(s, e).q.rows && Terminal(Step(s, e).q.rows[h].status)
  {
    hide Step, Revives;
    StepOnHistory(s, e);
    StepOnRow(s, e, h);
    if h in s.sealed {
      assert OlderAreTerminal(s.q, h);
    }
  }

  lemma OrderlyStepKeepsOrdered(s: System, e: Event)
    requires Ordered(s) && Enabled(s, e) && InOrder(s, e)
    ensures Ordered(Step(s, e))
  {
    hide Step, Enabled, OlderAreTerminal, Terminal, Revives;
    var s' := Step(s, e);
    StepOnHistory(s, e);
    forall h | h in s'.claimed ensures h in s'.q.rows && OlderAreTerminal(s'.q, h) {
      StepKeepsOlderTerminal(s, e, h);
    }
    forall h | h in s'.sealed ensures Terminal(s'.q.rows[h].status) {
      StepKeepsSealed(s, e, h);
    }
  }

  lemma DisorderlyStepBreaksOrdered(s: System, e: Event, o: Hash)
    requires Ordered(s) && Enabled(s, e) && Revives(s, e, o) && MustStay(s, o)
    ensures !Ordered(Step(s, e))
  {
    hide Step, Enabled, Revives;
    StepOnHistory(s, e);
    StepOnRow(s, e, o);
    if o !in s.sealed {
      var c :| c in s.claimed && c in s.q.rows && s.q.Older(o, c);
      StepOnRow(s, e, c);
      assert Step(s, e).q.Older(o, c);
    }
  }

  /** An event keeps the order of finalization exactly when it revives no sealed row and no row that
      stands before one claimed for finalization. */
  lemma StepKeepsOrderedIff(s: System, e: Event)
    requires Ordered(s) && Enabled(s, e)
    ensures Ordered(Step(s, e)) <==> InOrder(s, e)
  {
    hide Step, Enabled, Revives, Ordered;
    if InOrder(s, e) {
      OrderlyStepKeepsOrdered(s, e);
    } else {
      var o :| Revives(s, e, o) && MustStay(s, o);
      DisorderlyStepBreaksOrdered(s, e, o);
    }
  }

  ghost predicate OrderlyRun(s: System, events: seq<Event>)
    decreases |events|
  {
    events == [] ||
    (Enabled(s, events[0]) && InOrder(s, events[0]) && OrderlyRun(Step(s, events[0]), events[1..]))
  }

  lemma {:induction false} RunKeepsOrdered(s: System, events: seq<Event>)
    requires Ordered(s) && OrderlyRun(s, events)
    ensures ValidRun(s, events) && Ordered(Run(s, events))
    decreases |events|
  {
    if events != [] {
      StepKeepsOrderedIff(s, events[0]);
      RunKeepsOrdered(Step(s, events[0]), events[1..]);
    }
  }

  /** Every reset, processing step and rollback of the run acts on a row that is not terminal. */
  predicate OnUnfinishedRows(s: System, events: seq<Event>)
    requires ValidRun(s, events)
    decreases |events|
  {
    events == [] ||
    var e := events[0];
    && (e.Reset? || e.Process? || e.Rollback? ==> e.h !in s.q.rows || !Terminal(s.q.rows[e.h].status))
    && OnUnfinishedRows(Step(s, e), events[1..])
  }

  lemma {:induction false} UnfinishedRowsRunInOrder(s: System, events: seq<Event>)
    requires Ordered(s) && ValidRun(s, events) && OnUnfinishedRows(s, events)
    ensures OrderlyRun(s, events)
    decreases |events|
  {
    if events != [] {
      UnfinishedRowsActInOrder(s, events[0]);
      StepKeepsOrderedIff(s, events[0]);
      UnfinishedRowsRunInOrder(Step(s, events[0]), events[1..]);
    }
  }

  /** After every run whose steps are in order, a row finalized through a finalization claim is terminal
      and has only terminal rows before it, so a rollback started by any row that is not terminal leaves
      it as it is, although rollbacks filter on no status. */
  lemma FinalizedRowsSurviveRollback(cfg: Config, now: real, events: seq<Event>, h: Hash, initiator: Hash)
    requires OrderlyRun(Initial(cfg, now), events) && ValidRun(Initial(cfg, now), events)
    requires h in Run(Initial(cfg, now), events).sealed
    requires initiator in Run(Initial(cfg, now), events).q.rows
    requires !Terminal(Run(Initial(cfg, now), events).q.rows[initiator].status)
    ensures var q := Run(Initial(cfg, now), events).q;
            && h in q.rows && Terminal(q.rows[h].status) && OlderAreTerminal(q, h)
            && h in q.Rollback(initiator).rows && q.Rollback(initiator).rows[h] == q.rows[h]
  {
    RunKeepsOrdered(Initial(cfg, now), events);
  }

  // ---- Bounded recovery ----------------------------------------------------------------------

  ghost predicate ReturnsBounded(s: System) {
    forall h :: h in s.q.rows ==>
      Returned(s, h) <= s.q.rows[h].recoveryCount && Returned(s, h) <= s.q.cfg.maxCycles
  }

  ghost predicate OnlyKnownReturned(s: System) {
    s.returned.Keys <= s.q.rows.Keys
  }

  /** A return to pending raises the row's counter to at most the cap; nothing lowers a counter. */
  lemma StepOnCounters(s: System, e: Event, o: Hash)
    requires Enabled(s, e) && OnlyKnownReturned(s) && o in Step(s, e).q.rows
    ensures Step(s, e).q.cfg == s.q.cfg && OnlyKnownReturned(Step(s, e))
    ensures o in s.q.rows ==>
      var before, after := s.q.rows[o].recoveryCount, Step(s, e).q.rows[o].recoveryCount;
      if Returned(Step(s, e), o) == Returned(s, o) then before <= after
      else Returned(Step(s, e), o) == Returned(s, o) + 1 && before + 1 == after <= s.q.cfg.maxCycles
    ensures o !in s.q.rows ==> Returned(Step(s, e), o) == 0
  {
    hide Pow, Queue.Stuck, Queue.DefersTo, Queue.ContractBusy, Queue.AppealBusy, Queue.FinalizationDue;
    hide Queue.LiveLease, Queue.LeaseFree, Terminal, FinalizationEligible;
  }

  lemma StepKeepsReturnsBounded(s: System, e: Event)
    requires ReturnsBounded(s) && OnlyKnownReturned(s) && Enabled(s, e)
    ensures ReturnsBounded(Step(s, e)) && OnlyKnownReturned(Step(s, e)) && Step(s, e).q.cfg == s.q.cfg
  {
    hide Step, Enabled, Returned;
    var s' := Step(s, e);
    forall o | o in s'.q.rows
      ensures Returned(s', o) <= s'.q.rows[o].recoveryCount && Returned(s', o) <= s'.q.cfg.maxCycles
    {
      StepOnCounters(s, e, o);
    }
    ConfigNeverChanges(s, e);
  }

  lemma ConfigNeverChanges(s: System, e: Event)
    requires Enabled(s, e) && OnlyKnownReturned(s)
    ensures Step(s, e).q.cfg == s.q.cfg && OnlyKnownReturned(Step(s, e))
  {
    hide Pow, Queue.Stuck, Queue.DefersTo, Queue.ContractBusy, Queue.AppealBusy, Queue.FinalizationDue;
    hide Queue.LiveLease, Queue.LeaseFree;
  }

  lemma {:induction false} RunKeepsReturnsBounded(s: System, events: seq<Event>)
    requires ReturnsBounded(s) && OnlyKnownReturned(s) && ValidRun(s, events)
    ensures ReturnsBounded(Run(s, events)) && Run(s, events).q.cfg == s.q.cfg
    decreases |events|
  {
    if events != [] {
      StepKeepsReturnsBounded(s, events[0]);
      RunKeepsReturnsBounded(Step(s, events[0]), events[1..]);
    }
  }

  /** In every run, rollbacks included, recovery passes and resets together send a row back to pending
      at most the configured number of times. */
  lemma RecoveryReturnsAtMostMax(cfg: Config, now: real, events: seq<Event>, h: Hash)
    requires ValidRun(Initial(cfg, now), events) && h in Run(Initial(cfg, now), events).q.rows
    ensures Returned(Run(Initial(cfg, now), events), h) <= cfg.maxCycles
  {
    RunKeepsReturnsBounded(Initial(cfg, now), events);
  }

  ghost predicate CountersBounded(q: Queue) {
    forall h :: h in q.rows ==>
      || q.rows[h].recoveryCount <= q.cfg.maxCycles
      || (q.rows[h].recoveryCount == q.cfg.maxCycles + 1 && q.rows[h].status.Canceled? && q.rows[h].worker.None?)
  }

  lemma StepKeepsCountersBounded(s: System, e: Event)
    requires CountersBounded(s.q) && Enabled(s, e) && !e.Rollback?
    ensures CountersBounded(Step(s, e).q)
  {
    hide Pow, Queue.Stuck, Queue.DefersTo, Queue.ContractBusy, Queue.AppealBusy, Queue.FinalizationDue, Queue.LiveLease;
  }

  /** Without rollbacks a row that is not canceled never exceeds the cap, and no row exceeds it by
      more than one. */
  lemma {:induction false} CountersStayBounded(s: System, events: seq<Event>)
    requires CountersBounded(s.q) && ValidRun(s, events) && forall e :: e in events ==> !e.Rollback?
    ensures CountersBounded(Run(s, events).q)
    decreases |events|
  {
    if events != [] {
      StepKeepsCountersBounded(s, events[0]);
      CountersStayBounded(Step(s, events[0]), events[1..]);
    }
  }

  /** A rollback keeps the bound exactly when no newer row of the contract is canceled beyond the
      cap: such a row would come back to life. */
  lemma RollbackKeepsCountersIff(q: Queue, h: Hash)
    requires CountersBounded(q) && h in q.rows
    ensures CountersBounded(q.Rollback(h)) <==>
      forall o :: o in q.rows && q.Older(h, o) ==> q.rows[o].recoveryCount <= q.cfg.maxCycles
  {
    forall o | o in q.rows && q.Older(h, o) ensures q.Rollback(h).rows[o] == q.rows[o].(status := Pending) {}
  }
}
