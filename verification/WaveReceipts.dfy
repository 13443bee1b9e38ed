/** What the receipts of a finished committing loop say, and where the replacements go. */
module WaveReceipts {
  import opened Wrappers
  import opened Rows
  import opened Voting
  import opened CommitWave

  // ---- Every receipt has an attempt behind it -------------------------------------------------

  /** An execution attempt as it happened: who executed, after how many replacements of the slot, how it
      ended, and whether a replacement was left in the pool. */
  datatype Attempted = Attempted(validator: Address, replacements: nat, outcome: Attempt, spare: bool)

  function AttemptOf(w: Wave, e: Event): seq<Attempted>
    requires Enabled(w, e)
  {
    if !e.Try? then []
    else [Attempted(w.slots[e.slot].task.current, w.slots[e.slot].task.attempt, e.outcome, w.pool != [])]
  }

  function Attempts(w: Wave, events: seq<Event>): seq<Attempted>
    requires ValidRun(w, events)
    decreases |events|
  {
    if events == [] then [] else AttemptOf(w, events[0]) + Attempts(Step(w, events[0]), events[1..])
  }

  /** A returned vote stands as it is, running out of time is a timeout, and a fatal error is idle once
      there is no replacement, or the fifth one has failed too. */
  predicate Explains(a: Attempted, r: Receipt) {
    && a.validator == r.validator
    && match a.outcome
       case Expired => r.vote == Timeout
       case Finished(vote, fatal) =>
         if fatal then r.vote == Idle && (a.replacements >= 5 || !a.spare) else r.vote == vote
  }

  ghost predicate Explained(r: Receipt, log: seq<Attempted>) {
    exists a :: a in log && Explains(a, r)
  }

  /** Only in a wave that was cut short may a receipt be made up, idle and in the name of the slot. */
  ghost predicate Earned(slot: Slot, log: seq<Attempted>, cut: bool) {
    || slot.task.Running?
    || Explained(slot.task.receipt, log)
    || (cut && slot.task == Collected(Receipt(slot.validator, Idle)))
  }

  ghost predicate AllEarned(w: Wave, log: seq<Attempted>, cut: bool) {
    forall i :: 0 <= i < |w.slots| ==> Earned(w.slots[i], log, cut)
  }

  lemma MoreAttempts(w: Wave, log: seq<Attempted>, more: seq<Attempted>, cut: bool)
    requires AllEarned(w, log, false)
    ensures AllEarned(w, log + more, cut)
  {
    forall i | 0 <= i < |w.slots| ensures Earned(w.slots[i], log + more, cut) {
      if !w.slots[i].task.Running? {
        var a :| a in log && Explains(a, w.slots[i].task.receipt);
        assert a in log + more;
      }
    }
  }

  lemma TryIsEarned(w: Wave, i: nat, outcome: Attempt, log: seq<Attempted>)
    requires Enabled(w, Try(i, outcome)) && AllEarned(w, log, false)
    ensures AllEarned(TryStep(w, i, outcome), log + AttemptOf(w, Try(i, outcome)), false)
  {
    var entry := AttemptOf(w, Try(i, outcome));
    MoreAttempts(w, log, entry, false);
    hide Explained;
    var w' := TryStep(w, i, outcome);
    if !w'.slots[i].task.Running? {
      IsExplained(w'.slots[i].task.receipt, log, entry[0]);
    }
  }

  lemma IsExplained(r: Receipt, log: seq<Attempted>, a: Attempted)
    requires Explains(a, r)
    ensures Explained(r, log + [a])
  {
    assert a in log + [a];
  }

  lemma StepIsEarned(w: Wave, e: Event, log: seq<Attempted>)
    requires Valid(w) && Enabled(w, e) && AllEarned(w, log, false)
    ensures AllEarned(Step(w, e), log + AttemptOf(w, e), e.Collect? && Step(w, e).done)
  {
    hide Explained, Valid, IsQuorumReached;
    match e
    case Try(i, outcome) => TryIsEarned(w, i, outcome, log);
    case Collect(batch) =>
      assert log + [] == log;
    case Close =>
      assert log + [] == log;
      CloseIsEarned(w, log);
  }

  lemma CloseIsEarned(w: Wave, log: seq<Attempted>)
    requires Valid(w) && AllEarned(w, log, false)
    ensures AllEarned(CloseStep(w), log, false)
  {
    hide Explained;
    RefillKeepsSeparate(w.slots, w.pool, 0);
  }

  predicate CutShort(w: Wave, events: seq<Event>)
    requires ValidRun(w, events)
  {
    events != [] && events[|events| - 1].Collect? && Run(w, events).done
  }

  lemma {:induction false} RunIsEarned(w: Wave, events: seq<Event>, log: seq<Attempted>)
    requires Valid(w) && ValidRun(w, events) && AllEarned(w, log, false)
    ensures AllEarned(Run(w, events), log + Attempts(w, events), CutShort(w, events))
    decreases |events|
  {
    hide AllEarned, Valid, Step, Enabled;
    if events == [] {
      assert log + [] == log;
    } else {
      var next, entry := Step(w, events[0]), AttemptOf(w, events[0]);
      StepIsEarned(w, events[0], log);
      StepKeepsValid(w, events[0]);
      if |events| == 1 {
        assert events[1..] == [] && Run(next, []) == next && Attempts(next, []) == [];
        assert log + entry == log + (entry + []);
      } else {
        NotDone(next, events[1..]);
        RunIsEarned(next, events[1..], log + entry);
        assert log + entry + Attempts(next, events[1..]) == log + (entry + Attempts(next, events[1..]));
      }
    }
  }

  lemma NotDone(w: Wave, events: seq<Event>)
    requires ValidRun(w, events) && events != []
    ensures !w.done
  {
  }

  lemma StartIsEarned(leader: Option<Address>, remaining: seq<Address>, nodes: seq<Address>, leaderVotes: bool)
    ensures AllEarned(Start(leader, remaining, nodes, leaderVotes), [], false)
  {
  }

  /** Every receipt of a finished loop is what an attempt of its signer amounts to: a vote other than timeout
      or idle was really returned, without a fatal error; a timeout was returned or the time ran out; and
      idle was returned, or stands for a fatal error with no replacement left. Only when the last batch
      cut the wave short may other receipts be idle, each in the name of its slot's validator. */
  lemma EveryReceiptIsEarned(leader: Option<Address>, remaining: seq<Address>, nodes: seq<Address>,
                             leaderVotes: bool, events: seq<Event>, i: nat)
    requires ProperCommittee(leader, remaining, nodes)
    requires ValidRun(Start(leader, remaining, nodes, leaderVotes), events)
    requires Run(Start(leader, remaining, nodes, leaderVotes), events).done
    requires i < |Run(Start(leader, remaining, nodes, leaderVotes), events).slots|
    ensures var w := Start(leader, remaining, nodes, leaderVotes);
            var slot := Run(w, events).slots[i];
            && slot.task.Collected?
            && ((events[|events| - 1].Collect? && slot.task.receipt == Receipt(slot.validator, Idle)) ||
                exists a :: a in Attempts(w, events) && a.validator == slot.task.receipt.validator &&
                  match a.outcome
                  case Expired => slot.task.receipt.vote == Timeout
                  case Finished(vote, fatal) =>
                    if fatal then slot.task.receipt.vote == Idle && (a.replacements >= 5 || !a.spare)
                    else slot.task.receipt.vote == vote)
  {
    var w := Start(leader, remaining, nodes, leaderVotes);
    StartIsValid(leader, remaining, nodes, leaderVotes);
    StartIsEarned(leader, remaining, nodes, leaderVotes);
    hide Run, ValidRun, Start, Valid, AllEarned, CutShort, Attempts;
    RunIsEarned(w, events, []);
    RunKeepsValid(w, events);
    SlotIsEarned(w, events, i);
  }

  lemma SlotIsEarned(w: Wave, events: seq<Event>, i: nat)
    requires ValidRun(w, events) && i < |Run(w, events).slots| && Run(w, events).done && Valid(Run(w, events))
    requires AllEarned(Run(w, events), [] + Attempts(w, events), CutShort(w, events))
    ensures var slot := Run(w, events).slots[i];
            && slot.task.Collected?
            && ((CutShort(w, events) && slot.task.receipt == Receipt(slot.validator, Idle)) ||
                exists a :: a in Attempts(w, events) && Explains(a, slot.task.receipt))
  {
    assert [] + Attempts(w, events) == Attempts(w, events);
    assert Earned(Run(w, events).slots[i], Attempts(w, events), CutShort(w, events));
  }

  /** All attempts of the run end in the same way. */
  predicate AllEnd(events: seq<Event>, expired: bool) {
    forall e :: e in events && e.Try? ==> if expired then e.outcome.Expired? else e.outcome.Finished? && e.outcome.fatal
  }

  lemma {:induction false} AttemptsEnd(w: Wave, events: seq<Event>, expired: bool)
    requires ValidRun(w, events) && AllEnd(events, expired)
    ensures forall a :: a in Attempts(w, events) ==>
      if expired then a.outcome.Expired? else a.outcome.Finished? && a.outcome.fatal
    decreases |events|
  {
    if events != [] {
      hide Step, Enabled, AttemptOf;
      assert events[0] in events && forall e :: e in events[1..] ==> e in events;
      AttemptsEnd(Step(w, events[0]), events[1..], expired);
      OneAttempt(w, events[0]);
    }
  }

  lemma OneAttempt(w: Wave, e: Event)
    requires Enabled(w, e)
    ensures forall a :: a in AttemptOf(w, e) ==> e.Try? && a.outcome == e.outcome
  {
  }

  /** When every attempt dies of a fatal error, nobody votes: all receipts are idle, and committing raises. */
  lemma FatalErrorsLeaveIdle(leader: Option<Address>, remaining: seq<Address>, nodes: seq<Address>,
                             leaderVotes: bool, events: seq<Event>)
    requires ProperCommittee(leader, remaining, nodes)
    requires ValidRun(Start(leader, remaining, nodes, leaderVotes), events) && AllEnd(events, false)
    requires Run(Start(leader, remaining, nodes, leaderVotes), events).done
    ensures var end := Run(Start(leader, remaining, nodes, leaderVotes), events);
            AllCollected(end) && AllIdle(Receipts(end.slots))
  {
    hide Run, ValidRun;
    var w := Start(leader, remaining, nodes, leaderVotes);
    AttemptsEnd(w, events, false);
    var end := Run(w, events);
    forall i | 0 <= i < |end.slots| ensures end.slots[i].task.Collected? && end.slots[i].task.receipt.vote == Idle {
      EveryReceiptIsEarned(leader, remaining, nodes, leaderVotes, events, i);
    }
  }

  lemma {:induction false} LastStep(w: Wave, events: seq<Event>)
    requires ValidRun(w, events) && events != []
    ensures var n := |events| - 1;
            && ValidRun(w, events[..n]) && Enabled(Run(w, events[..n]), events[n])
            && Run(w, events) == Step(Run(w, events[..n]), events[n])
    decreases |events|
  {
    hide Enabled, Step;
    if |events| > 1 {
      LastStep(Step(w, events[0]), events[1..]);
      assert events[..|events| - 1][1..] == events[1..][..|events| - 2];
    } else {
      assert events[..0] == [] && events[1..] == [];
    }
  }

  lemma {:induction false} OnlyTimeoutsCast(slots: seq<Slot>)
    requires forall i :: 0 <= i < |slots| && slots[i].task.Collected? ==> slots[i].task.receipt.vote == Timeout
    ensures forall k :: 0 <= k < |CastVotes(slots)| ==> CastVotes(slots)[k] == Timeout
  {
    if slots != [] {
      OnlyTimeoutsCast(slots[1..]);
    }
  }

  /** A batch that stops a wave in which every vote so far is a timeout decides on the timeout. */
  lemma TimeoutsDecide(w: Wave, batch: set<nat>)
    requires !w.done && Enabled(w, Collect(batch)) && CollectStep(w, batch).done
    requires forall i :: 0 <= i < |w.slots| && !w.slots[i].task.Running? ==> w.slots[i].task.receipt.vote == Timeout
    ensures AllCollected(CollectStep(w, batch))
    ensures DetermineConsensus(VotesOf(Receipts(CollectStep(w, batch).slots))) == TimedOut
  {
    hide DetermineConsensus, CastVotes, Missing, IsQuorumReached;
    var slots := CollectSlots(w.slots, batch);
    var cast, filled := CastVotes(slots), VotesOf(Receipts(FillIdle(slots)));
    OnlyTimeoutsCast(slots);
    SplitVotes(slots, filled);
    var r := QuorumIsAlreadyCarried(cast, |slots|);
    forall v: Vote ensures Count(v, cast) == if v == Timeout then |cast| else 0 {
      CountOfUniform(v, Timeout, cast);
    }
    assert r == TimedOut;
    MajoritySurvives(cast, Missing(slots, filled), r);
    ConsensusIgnoresOrder(filled, cast + Missing(slots, filled));
  }

  /** When every attempt runs out of time, every receipt is a timeout unless the wave was cut short, and the
      result of the round is the timeout in any case. */
  lemma ExpiredAttemptsTimeOut(leader: Option<Address>, remaining: seq<Address>, nodes: seq<Address>,
                               leaderVotes: bool, events: seq<Event>)
    requires ProperCommittee(leader, remaining, nodes)
    requires ValidRun(Start(leader, remaining, nodes, leaderVotes), events) && AllEnd(events, true)
    requires Run(Start(leader, remaining, nodes, leaderVotes), events).done
    requires Start(leader, remaining, nodes, leaderVotes).slots != []
    ensures var end := Run(Start(leader, remaining, nodes, leaderVotes), events);
            && AllCollected(end)
            && (!events[|events| - 1].Collect? ==> forall r :: r in Receipts(end.slots) ==> r.vote == Timeout)
            && DetermineConsensus(VotesOf(Receipts(end.slots))) == TimedOut
  {
    hide DetermineConsensus;
    var w := Start(leader, remaining, nodes, leaderVotes);
    StartIsValid(leader, remaining, nodes, leaderVotes);
    RunKeepsValid(w, events);
    LastStep(w, events);
    AttemptsEnd(w, events, true);
    var n, end := |events| - 1, Run(w, events);
    if events[n].Collect? {
      NothingButTimeouts(leader, remaining, nodes, leaderVotes, events[..n]);
      hide Run, ValidRun;
      TimeoutsDecide(Run(w, events[..n]), events[n].batch);
    } else {
      hide Run, ValidRun;
      forall i | 0 <= i < |end.slots| ensures end.slots[i].task.receipt.vote == Timeout {
        EveryReceiptIsEarned(leader, remaining, nodes, leaderVotes, events, i);
      }
      UniformTimeouts(VotesOf(Receipts(end.slots)));
    }
  }

  lemma UniformTimeouts(votes: seq<Vote>)
    requires votes != [] && forall i :: 0 <= i < |votes| ==> votes[i] == Timeout
    ensures DetermineConsensus(votes) == TimedOut
  {
    forall v: Vote ensures Count(v, votes) == if v == Timeout then |votes| else 0 {
      CountOfUniform(v, Timeout, votes);
    }
  }

  lemma NothingButTimeouts(leader: Option<Address>, remaining: seq<Address>, nodes: seq<Address>,
                           leaderVotes: bool, events: seq<Event>)
    requires ProperCommittee(leader, remaining, nodes)
    requires ValidRun(Start(leader, remaining, nodes, leaderVotes), events) && AllEnd(events, true)
    requires !Run(Start(leader, remaining, nodes, leaderVotes), events).done
    ensures var slots := Run(Start(leader, remaining, nodes, leaderVotes), events).slots;
            forall i :: 0 <= i < |slots| && !slots[i].task.Running? ==> slots[i].task.receipt.vote == Timeout
  {
    var w := Start(leader, remaining, nodes, leaderVotes);
    StartIsValid(leader, remaining, nodes, leaderVotes);
    StartIsEarned(leader, remaining, nodes, leaderVotes);
    RunIsEarned(w, events, []);
    AttemptsEnd(w, events, true);
    assert [] + Attempts(w, events) == Attempts(w, events);
    hide Run, ValidRun;
    var slots := Run(w, events).slots;
    forall i | 0 <= i < |slots| && !slots[i].task.Running? ensures slots[i].task.receipt.vote == Timeout {
      assert Earned(slots[i], Attempts(w, events), false);
    }
  }

  // ---- Where the replacements go ----------------------------------------------------------------

  /** How many of the slots from i up to j hold the receipt of a validator that timed out. */
  function Late(slots: seq<Slot>, i: nat, j: nat): nat
    requires j <= |slots|
    decreases j
  {
    if j <= i then 0
    else Late(slots, i, j - 1)
         + if slots[j - 1].task.Collected? && slots[j - 1].task.receipt.vote == Timeout then 1 else 0
  }

  lemma {:induction false} SameRangeSameLate(a: seq<Slot>, b: seq<Slot>, i: nat, j: nat)
    requires |a| == |b| && j <= |a| && forall k :: i <= k < j ==> a[k] == b[k]
    ensures Late(a, i, j) == Late(b, i, j)
    decreases j
  {
    if j > i {
      SameRangeSameLate(a, b, i, j - 1);
    }
  }

  lemma {:induction false} LateFrom(slots: seq<Slot>, i: nat, j: nat)
    requires i < j <= |slots|
    ensures Late(slots, i, j) == Late(slots, i, i + 1) + Late(slots, i + 1, j)
    decreases j
  {
    if j > i + 1 {
      LateFrom(slots, i, j - 1);
    }
  }

  /** Going through the slots from i on, the k-th one that timed out gets the k-th validator of the pool, as
      long as there is one, and the other slots stay as they are. */
  lemma {:induction false} RefillAt(slots: seq<Slot>, pool: seq<Address>, i: nat, j: nat)
    requires i <= |slots| && j < |slots|
    ensures var (s, p) := Refill(slots, pool, i);
            && |s| == |slots|
            && (j < i || !TimedOutSlot(slots[j]) || Late(slots, i, j) >= |pool| ==> s[j] == slots[j])
            && (j >= i && TimedOutSlot(slots[j]) && Late(slots, i, j) < |pool| ==>
                  var next := pool[Late(slots, i, j)]; s[j] == Slot(next, Running(next, 0)))
            && p == pool[if Late(slots, i, |slots|) < |pool| then Late(slots, i, |slots|) else |pool|..]
    decreases |slots| - i
  {
    if i < |slots| {
      LateFrom(slots, i, |slots|);
      if j > i {
        LateFrom(slots, i, j);
      }
      if TimedOutSlot(slots[i]) && pool != [] {
        var next := slots[i := Slot(pool[0], Running(pool[0], 0))];
        SameRangeSameLate(slots, next, i + 1, |slots|);
        SameRangeSameLate(slots, next, i + 1, j);
        RefillAt(next, pool[1..], i + 1, j);
      } else {
        RefillAt(slots, pool, i + 1, j);
      }
    }
  }

  /** A wave in which all have answered is over exactly if nobody timed out, no replacement is left, or this
      has happened five times. Otherwise the validators that timed out are replaced in slot order from the
      front of the pool, and nobody else is. */
  lemma TimedOutSlotsAreRefilled(w: Wave, j: nat)
    requires Enabled(w, Close) && j < |w.slots|
    ensures var end, late := Step(w, Close), Late(w.slots, 0, |w.slots|);
            && |end.slots| == |w.slots|
            && (end.done <==> late == 0 || w.pool == [] || w.cycles >= 5)
            && (end.done ==> end == w.(done := true))
            && (!end.done ==>
                  var handed := if late < |w.pool| then late else |w.pool|;
                  var before := Late(w.slots, 0, j);
                  var slot := w.slots[j];
                  && end.cycles == w.cycles + 1 && end.pool == w.pool[handed..]
                  && end.slots[j] ==
                       if slot.task.receipt.vote == Timeout && before < |w.pool|
                       then Slot(w.pool[before], Running(w.pool[before], 0)) else slot)
  {
    NobodyLateIff(w.slots, |w.slots|);
    RefillAt(w.slots, w.pool, 0, j);
  }

  lemma {:induction false} NobodyLateIff(slots: seq<Slot>, j: nat)
    requires j <= |slots|
    ensures Late(slots, 0, j) == 0 <==> forall k :: 0 <= k < j ==> !TimedOutSlot(slots[k])
  {
    if j > 0 {
      NobodyLateIff(slots, j - 1);
    }
  }

  /** A batch stops the wave exactly when the votes cast so far leave one majority result only. */
  lemma BatchStopsIffDecided(w: Wave, batch: set<nat>)
    requires Enabled(w, Collect(batch))
    ensures var cast := CastVotes(CollectSlots(w.slots, batch));
            && |cast| <= |w.slots|
            && (Step(w, Collect(batch)).done <==> exists r :: r != NoMajority && Decided(cast, |w.slots|, r))
  {
    hide DetermineConsensus, IsQuorumReached, Decided;
    var slots := CollectSlots(w.slots, batch);
    SplitVotes(slots, VotesOf(Receipts(FillIdle(slots))));
    QuorumIffDecided(CastVotes(slots), |w.slots|);
  }
}
