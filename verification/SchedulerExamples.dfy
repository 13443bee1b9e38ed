/** Runs of the scheduler in which a promise is broken, event by event. */
module SchedulerExamples {
  import opened Wrappers
  import opened Rows
  import opened Scheduler
  import opened SchedulerRuns

  function Settings(maxCycles: nat): Config {
    Config(10.0, 1000.0, 0.2, 600.0, maxCycles)
  }

  /** Two pending rows of one contract; the younger finalizes without a window. */
  function Fresh(h: Hash): Row {
    Row(Origin(Some(1), Some(2), 2, if h == 0 then 1.0 else 2.0, h != 0, 0, false), Pending,
        Appeal(false, false, false, false, 0, 0, None), false, None, 0, None, None, 0, None, NoData, false)
  }

  function Leased(row: Row, now: real, w: WorkerId): Row {
    row.(blockedAt := Some(now), worker := Some(w))
  }

  function Two(maxCycles: nat, now: real, a: Row, b: Row): Queue {
    Queue(Settings(maxCycles), now, map[0 := a, 1 := b])
  }

  /** The claim queries on the two rows while the older one is not due for finalization. */
  lemma TwoRows(maxCycles: nat, now: real, a: Row, b: Row)
    requires a.origin == Fresh(0).origin && b.origin == Fresh(1).origin
    requires FinalizationEligible(a.status) && a.awaitingSince.Some? ==>
      a.appeal.failed == 0 && a.appeal.processingTime == 0 && now - a.awaitingSince.value as real <= 1000.0
    ensures var q := Two(maxCycles, now, a, b);
            && q.Older(0, 1) && !q.Older(1, 0)
            && (q.TransactionCandidate(0) <==> Claimable(a.status) && q.LeaseFree(a) && !q.LiveLease(b))
            && (q.TransactionCandidate(1) <==> Claimable(b.status) && q.LeaseFree(b) && !q.LiveLease(a))
            && (Terminal(a.status) && FinalizationEligible(b.status) && !b.appeal.appealed && b.awaitingSince.Some? ==>
                  (q.FinalizationCandidate(1) <==> q.LeaseFree(b) && !q.LiveLease(a)))
            && (q.AppealCandidate(0) <==> a.appeal.appealed && FinalizationEligible(a.status) && q.LeaseFree(a)
                                          && !(b.appeal.appealed && q.LiveLease(b)))
  {
    hide Queue.LeaseFree, Queue.LiveLease;
    var q := Two(maxCycles, now, a, b);
    assert 0 in q.rows && 1 in q.rows && q.rows[0] == a && q.rows[1] == b;
    assert q.ContractBusy(0) <==> q.LiveLease(b);
    assert q.ContractBusy(1) <==> q.LiveLease(a);
    assert q.AppealBusy(0) <==> b.appeal.appealed && q.LiveLease(b);
    assert !q.DefersTo(1, 0);
  }

  /** One event more at the end of a run. */
  lemma Then(start: System, events: seq<Event>, s: System, e: Event) returns (events': seq<Event>, s': System)
    requires ValidRun(start, events) && Run(start, events) == s && Enabled(s, e)
    ensures events' == events + [e] && ValidRun(start, events') && Run(start, events') == s' == Step(s, e)
  {
    RunOneMore(start, events, e);
    events', s' := events + [e], Step(s, e);
  }

  function Accepted(row: Row, now: int): Row {
    row.(status := Status.Accepted, awaitingSince := Some(now))
  }

  /** Both rows are inserted and the older one is claimed. */
  lemma OlderClaimed(maxCycles: nat) returns (events: seq<Event>, s: System)
    ensures ValidRun(Initial(Settings(maxCycles), 1.0), events) && Run(Initial(Settings(maxCycles), 1.0), events) == s
    ensures s.q == Two(maxCycles, 1.0, Leased(Fresh(0), 1.0, 7), Fresh(1))
    ensures s == System(s.q, map[0 := ForTransaction], {}, {}, map[])
  {
    hide ValidRun, Run, Queue.TransactionCandidate;
    var start := Initial(Settings(maxCycles), 1.0);
    events, s := [], start;
    NoEvents(start);
    events, s := Then(start, events, s, Insert(0, Fresh(0)));
    events, s := Then(start, events, s, Insert(1, Fresh(1)));
    assert s.q == Two(maxCycles, 1.0, Fresh(0), Fresh(1));
    TwoRows(maxCycles, 1.0, Fresh(0), Fresh(1));
    events, s := Then(start, events, s, ClaimTransaction(0, 7));
  }

  /** The older row is canceled after errors while a worker still holds it; the younger one goes on. */
  lemma YoungerClaimed() returns (events: seq<Event>, s: System)
    ensures ValidRun(Initial(Settings(3), 1.0), events) && Run(Initial(Settings(3), 1.0), events) == s
    ensures s == System(Two(3, 31.0, Leased(Fresh(0), 1.0, 7).(status := Canceled), Leased(Fresh(1), 31.0, 8)),
                        map[0 := ForTransaction, 1 := ForTransaction], {}, {}, map[])
  {
    hide ValidRun, Run, Queue.TransactionCandidate;
    var start := Initial(Settings(3), 1.0);
    events, s := OlderClaimed(3);
    events, s := Then(start, events, s, CancelAfterErrors(0));
    events, s := Then(start, events, s, Tick(30.0));
    var canceled := Leased(Fresh(0), 1.0, 7).(status := Canceled);
    assert s.q == Two(3, 31.0, canceled, Fresh(1));
    TwoRows(3, 31.0, canceled, Fresh(1));
    events, s := Then(start, events, s, ClaimTransaction(1, 8));
  }

  lemma YoungerAccepted() returns (events: seq<Event>, s: System)
    ensures ValidRun(Initial(Settings(3), 1.0), events) && Run(Initial(Settings(3), 1.0), events) == s
    ensures s.sealed == {} && s.q == Two(3, 31.0, Leased(Fresh(0), 1.0, 7).(status := Canceled), Accepted(Fresh(1), 31))
  {
    hide ValidRun, Run;
    var start := Initial(Settings(3), 1.0);
    events, s := YoungerClaimed();
    events, s := Then(start, events, s, Process(1, 8, Accepted(Leased(Fresh(1), 31.0, 8), 31)));
    events, s := Then(start, events, s, Release(1, 8));
  }

  /** The younger row is finalized in order: everything older is terminal. */
  lemma YoungerSealed() returns (events: seq<Event>, s: System)
    ensures ValidRun(Initial(Settings(3), 1.0), events) && Run(Initial(Settings(3), 1.0), events) == s
    ensures s.sealed == {1}
    ensures s.q == Two(3, 31.0, Leased(Fresh(0), 1.0, 7).(status := Canceled),
            Accepted(Fresh(1), 31).(status := Finalized))
  {
    hide ValidRun, Run, Queue.FinalizationCandidate;
    var start := Initial(Settings(3), 1.0);
    events, s := YoungerAccepted();
    TwoRows(3, 31.0, Leased(Fresh(0), 1.0, 7).(status := Canceled), Accepted(Fresh(1), 31));
    events, s := Then(start, events, s, ClaimFinalization(1, 9));
    events, s := Then(start, events, s, Finalize(1, 9));
    events, s := Then(start, events, s, Release(1, 9));
  }

  lemma NoEvents(s: System)
    ensures ValidRun(s, []) && Run(s, []) == s
  {
  }

  /** A reset does not look at the status: the canceled row comes back to its worker, and its rollback
      takes the finalized younger row back to pending. */
  lemma ResetUnsealsFinalizedRow() returns (events: seq<Event>, s: System)
    ensures ValidRun(Initial(Settings(3), 1.0), events) && Run(Initial(Settings(3), 1.0), events) == s
    ensures 1 in s.sealed && 1 in s.q.rows && s.q.rows[1].status.Finalized?
    ensures 0 in s.q.rows && !Terminal(s.q.rows[0].status) && Enabled(s, Rollback(0, 7))
    ensures 1 in s.q.Rollback(0).rows && s.q.Rollback(0).rows[1].status.Pending?
  {
    hide ValidRun, Run, Queue.TransactionCandidate, Queue.FinalizationCandidate, Queue.AppealCandidate, Pow;
    var start := Initial(Settings(3), 1.0);
    events, s := YoungerSealed();
    var sealed := Accepted(Fresh(1), 31).(status := Finalized);
    events, s := Then(start, events, s, Reset(0, 7));
    var reset := Fresh(0).(recoveryCount := 1);
    assert s.q == Two(3, 31.0, reset, sealed);
    TwoRows(3, 31.0, reset, sealed);
    events, s := Then(start, events, s, ClaimTransaction(0, 7));
    assert s.q == Two(3, 31.0, Leased(reset, 31.0, 7), sealed);
    TwoRows(3, 31.0, Leased(reset, 31.0, 7), sealed);
  }

  lemma OlderAccepted() returns (events: seq<Event>, s: System)
    ensures ValidRun(Initial(Settings(1), 1.0), events) && Run(Initial(Settings(1), 1.0), events) == s
    ensures s.q == Two(1, 1.0, Accepted(Fresh(0), 1), Fresh(1))
  {
    hide ValidRun, Run;
    var start := Initial(Settings(1), 1.0);
    events, s := OlderClaimed(1);
    events, s := Then(start, events, s, Process(0, 7, Accepted(Leased(Fresh(0), 1.0, 7), 1)));
    events, s := Then(start, events, s, Release(0, 7));
  }

  /** The younger row is claimed, gets stuck and is requeued, which brings it to the cap. */
  lemma YoungerRequeued() returns (events: seq<Event>, s: System)
    ensures ValidRun(Initial(Settings(1), 1.0), events) && Run(Initial(Settings(1), 1.0), events) == s
    ensures s.q == Two(1, 31.0, Accepted(Fresh(0), 1), Fresh(1).(recoveryCount := 1))
  {
    hide ValidRun, Run, Queue.Requeue;
    events, s := YoungerHeld();
    Requeued();
    events, s := Then(Initial(Settings(1), 1.0), events, s, RequeuePass);
  }

  lemma YoungerHeld() returns (events: seq<Event>, s: System)
    ensures ValidRun(Initial(Settings(1), 1.0), events) && Run(Initial(Settings(1), 1.0), events) == s
    ensures s.q == Two(1, 31.0, Accepted(Fresh(0), 1), Leased(Fresh(1), 1.0, 8))
  {
    hide ValidRun, Run, Queue.TransactionCandidate;
    var start := Initial(Settings(1), 1.0);
    events, s := OlderAccepted();
    TwoRows(1, 1.0, Accepted(Fresh(0), 1), Fresh(1));
    events, s := Then(start, events, s, ClaimTransaction(1, 8));
    events, s := Then(start, events, s, Tick(30.0));
  }

  lemma Requeued()
    ensures Two(1, 31.0, Accepted(Fresh(0), 1), Leased(Fresh(1), 1.0, 8)).Requeue()
      == Two(1, 31.0, Accepted(Fresh(0), 1), Fresh(1).(recoveryCount := 1))
  {
    var q := Two(1, 31.0, Accepted(Fresh(0), 1), Leased(Fresh(1), 1.0, 8));
    assert q.RequeueRow(q.rows[0]) == q.rows[0];
    assert q.RequeueRow(q.rows[1]) == Fresh(1).(recoveryCount := 1);
  }

  /** Claimed again and then reset, it is canceled one beyond the cap. */
  lemma YoungerExhausted() returns (events: seq<Event>, s: System)
    ensures ValidRun(Initial(Settings(1), 1.0), events) && Run(Initial(Settings(1), 1.0), events) == s
    ensures s.q == Two(1, 31.0, Accepted(Fresh(0), 1),
            Fresh(1).(recoveryCount := 2, status := Canceled, data := Exhausted(2)))
  {
    hide ValidRun, Run, Queue.TransactionCandidate;
    var start := Initial(Settings(1), 1.0);
    events, s := YoungerRequeued();
    TwoRows(1, 31.0, Accepted(Fresh(0), 1), Fresh(1).(recoveryCount := 1));
    events, s := Then(start, events, s, ClaimTransaction(1, 8));
    events, s := Then(start, events, s, Reset(1, 8));
  }

  /** The appeal of the older row rolls it back to life, beyond the cap. */
  lemma RollbackRevivesExhaustedRow() returns (events: seq<Event>, s: System)
    ensures ValidRun(Initial(Settings(1), 1.0), events) && Run(Initial(Settings(1), 1.0), events) == s
    ensures CountersBounded(s.q) && Enabled(s, Rollback(0, 9)) && 1 in s.q.rows
    ensures var q := s.q.Rollback(0);
            q.rows[1].status.Pending? && q.rows[1].recoveryCount == q.cfg.maxCycles + 1 && !CountersBounded(q)
  {
    hide ValidRun, Run, Queue.AppealCandidate;
    var start := Initial(Settings(1), 1.0);
    events, s := YoungerExhausted();
    events, s := Then(start, events, s, UserAppeal(0));
    var appealed := Accepted(Fresh(0), 1).(appeal := Fresh(0).appeal.(appealed := true));
    var exhausted := Fresh(1).(recoveryCount := 2, status := Canceled, data := Exhausted(2));
    assert s.q == Two(1, 31.0, appealed, exhausted);
    TwoRows(1, 31.0, appealed, exhausted);
    events, s := Then(start, events, s, ClaimAppeal(0, 9));
    RevivedBeyondCap(s, appealed, exhausted);
  }

  lemma RevivedBeyondCap(s: System, a: Row, b: Row)
    requires a.origin == Fresh(0).origin && b.origin == Fresh(1).origin && a.recoveryCount == 0
    requires b.recoveryCount == 2 && b.status.Canceled? && b.worker.None?
    requires s.q == Two(1, 31.0, Leased(a, 31.0, 9), b)
    ensures CountersBounded(s.q) && Enabled(s, Rollback(0, 9))
    ensures s.q.Rollback(0).rows[1] == b.(status := Pending) && !CountersBounded(s.q.Rollback(0))
  {
    var q := s.q.Rollback(0);
    assert s.q.Older(0, 1) && q.rows[1] == b.(status := Pending);
    assert q.rows[1].recoveryCount == q.cfg.maxCycles + 1;
  }
}
