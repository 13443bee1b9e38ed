/** The effect lists that the consensus states decide on, and their step-by-step execution on a row. */
module Decisions {
  import opened Wrappers
  import opened Rows
  import opened History
  import opened Voting
  import opened Rounds

  datatype Effect =
    | AddTimestamp                        // monitoring entry of the current round
    | SetStatus(status: Status)
    | SetAwaiting                         // timestamp_awaiting_finalization
    | SetAppealed(on: bool)
    | SetUndetermined(on: bool)
    | SetLeaderTimeout(on: bool)
    | SetValidatorsTimeout(on: bool)
    | SetFailed(count: nat)
    | AddProcessingTime
    | ResetProcessingTime
    | ForgetAppealTime                    // timestamp_appeal back to NULL
    | SetResult(content: nat)
    | AddHistory(round: ConsensusRound)
    | ResetRotations
    | IncreaseRotations(config: Option<int>)
    | Outside                             // messages, rollup events, snapshots, contract writes, vote times

  function Apply(row: Row, e: Effect, now: int): Row {
    match e
    case AddTimestamp => row.(lastProgress := Some(now as real), hasHistory := true)
    case SetStatus(status) => row.(status := status)
    case SetAwaiting => row.(awaitingSince := Some(now))
    case SetAppealed(on) => row.(appeal := row.appeal.(appealed := on))
    case SetUndetermined(on) => row.(appeal := row.appeal.(undetermined := on))
    case SetLeaderTimeout(on) => row.(appeal := row.appeal.(leaderTimeout := on))
    case SetValidatorsTimeout(on) => row.(appeal := row.appeal.(validatorsTimeout := on))
    case SetFailed(count) => row.(appeal := row.appeal.(failed := count))
    case AddProcessingTime =>
      if row.appeal.since.None? then row
      else row.(appeal := row.appeal.(processingTime := row.appeal.processingTime + (now - row.appeal.since.value)))
    case ResetProcessingTime => row.(appeal := row.appeal.(processingTime := 0))
    case ForgetAppealTime => row.(appeal := row.appeal.(since := None))
    case SetResult(content) => row.(data := Agreed(content))
    case AddHistory(round) => row.(lastProgress := None, hasHistory := true)
    case ResetRotations => row.(rotationCount := 0)
    case IncreaseRotations(config) =>
      if config.None? || config.value == 0 || row.rotationCount < config.value then
        row.(rotationCount := row.rotationCount + 1)
      else row
    case Outside => row
  }

  function ApplyAll(row: Row, effects: seq<Effect>, now: int): Row {
    if effects == [] then row else Apply(ApplyAll(row, effects[..|effects| - 1], now), effects[|effects| - 1], now)
  }

  lemma Then(row: Row, before: seq<Effect>, e: Effect, now: int)
    ensures ApplyAll(row, before + [e], now) == Apply(ApplyAll(row, before, now), e, now)
  {
    assert (before + [e])[..|before|] == before;
  }

  class EffectExecutor {
    var row: Row

    constructor (row: Row)
      ensures this.row == row
    {
      this.row := row;
    }

    method ExecuteOne(e: Effect, now: int)
      modifies this
      ensures row == Apply(old(row), e, now)
    {
      row := Apply(row, e, now);
    }

    /** Executing a list is executing its effects one after the other; an exception after `stopAt`
        effects leaves exactly that prefix behind. */
    method Execute(effects: seq<Effect>, now: int, stopAt: nat)
      requires stopAt <= |effects|
      modifies this
      ensures row == ApplyAll(old(row), effects[..stopAt], now)
    {
      for i := 0 to stopAt
        invariant row == ApplyAll(old(row), effects[..i], now)
      {
        assert effects[..i + 1][..i] == effects[..i];
        ExecuteOne(effects[i], now);
      }
    }
  }

  /** A list followed by n effects that leave the row alone. */
  function Padded(effects: seq<Effect>, n: nat): seq<Effect> {
    if n == 0 then effects else Padded(effects, n - 1) + [Outside]
  }

  lemma PaddedThrice(effects: seq<Effect>)
    ensures Padded(effects, 0) == effects && Padded(effects, 1) == effects + [Outside]
    ensures Padded(effects, 2) == effects + [Outside] + [Outside]
    ensures Padded(effects, 3) == effects + [Outside] + [Outside] + [Outside]
  {
    assert Padded(effects, 1) == Padded(effects, 0) + [Outside];
    assert Padded(effects, 2) == Padded(effects, 1) + [Outside];
  }

  // ---- Undetermined --------------------------------------------------------------------------

  function UndeterminedEffects(f: Flags, failed: nat, hasSnapshot: bool, content: nat,
                               since: Option<int>): seq<Effect> {
    var a := [AddTimestamp] + [Outside];
    var b := if f.undetermined then a + [SetUndetermined(false)] + [SetFailed(failed + 1)] else a + [SetAwaiting];
    var c := if hasSnapshot then b else b + [Outside];
    var d := c + [SetResult(content)];
    var e := if since.Some? then d + [AddProcessingTime] else d;
    e + [AddHistory(RoundOf(UndeterminedState, f))] + [SetStatus(Status.Undetermined)]
  }

  method DecideUndetermined(f: Flags, failed: nat, hasSnapshot: bool, content: nat, since: Option<int>)
    returns (effects: seq<Effect>, round: ConsensusRound)
    ensures effects == UndeterminedEffects(f, failed, hasSnapshot, content, since)
    ensures round == RoundOf(UndeterminedState, f) && ConcludesOnce(effects, Status.Undetermined, round)
  {
    effects := [AddTimestamp];
    effects := effects + [Outside];
    if !f.undetermined {
      effects := effects + [SetAwaiting];
    }
    if f.undetermined {
      round := LeaderAppealFailed;
      effects := effects + [SetUndetermined(false)];
      effects := effects + [SetFailed(failed + 1)];
    } else {
      round := RoundUndetermined;
    }
    if !hasSnapshot {
      effects := effects + [Outside];
    }
    effects := effects + [SetResult(content)];
    if since.Some? {
      effects := effects + [AddProcessingTime];
    }
    effects := effects + [AddHistory(round)];
    effects := effects + [SetStatus(Status.Undetermined)];
    UndeterminedConcludes(f, failed, hasSnapshot, content, since);
  }

  // ---- Leader timeout ------------------------------------------------------------------------

  function LeaderTimeoutEffects(f: Flags, hasSnapshot: bool): seq<Effect> {
    var a := if hasSnapshot then [AddTimestamp] else [AddTimestamp] + [Outside];
    var b :=
      if f.undetermined then a + [SetAwaiting] + [ResetProcessingTime] + [ForgetAppealTime] + [SetUndetermined(false)]
             else if f.leaderTimeout then a + [AddProcessingTime]
             else a + [SetAwaiting];
    var round := RoundOf(LeaderTimeoutState, f);
    b + [Outside] + [AddHistory(round)] + [SetStatus(Status.LeaderTimeout)] + [Outside]
  }

  method DecideLeaderTimeout(f: Flags, hasSnapshot: bool) returns (effects: seq<Effect>, round: ConsensusRound)
    ensures effects == LeaderTimeoutEffects(f, hasSnapshot)
    ensures round == RoundOf(LeaderTimeoutState, f) && ConcludesOnce(effects, Status.LeaderTimeout, round)
  {
    effects := [AddTimestamp];
    if !hasSnapshot {
      effects := effects + [Outside];
    }
    if f.undetermined {
      round := LeaderAppealSuccessful;
      effects := effects + [SetAwaiting] + [ResetProcessingTime] + [ForgetAppealTime];
      effects := effects + [SetUndetermined(false)];
    } else if f.leaderTimeout {
      round := LeaderTimeoutAppealFailed;
      effects := effects + [AddProcessingTime];
    } else {
      round := RoundLeaderTimeout;
      effects := effects + [SetAwaiting];
    }
    effects := effects + [Outside];
    effects := effects + [AddHistory(round)];
    effects := effects + [SetStatus(Status.LeaderTimeout)];
    effects := effects + [Outside];
    LeaderTimeoutConcludes(f, hasSnapshot);
  }

  // ---- Validators timeout --------------------------------------------------------------------

  function ValidatorsTimeoutEffects(f: Flags, failed: nat, hasSnapshot: bool, content: nat): seq<Effect> {
    var a := [AddTimestamp];
    var b :=
      if f.undetermined then a + [SetAwaiting] + [ResetProcessingTime] + [ForgetAppealTime] + [SetUndetermined(false)]
             else if f.validatorsTimeout then a + [AddProcessingTime] + [SetFailed(failed + 1)]
             else a + [SetAwaiting];
    var c := if f.leaderTimeout then b + [SetLeaderTimeout(false)] else b;
    var round := RoundOf(ValidatorsTimeoutState, f);
    var d := c + [SetResult(content)] + [AddHistory(round)] + [SetStatus(Status.ValidatorsTimeout)];
    if hasSnapshot then d else d + [Outside]
  }

  method DecideValidatorsTimeout(f: Flags, failed: nat, hasSnapshot: bool, content: nat)
    returns (effects: seq<Effect>, round: ConsensusRound)
    ensures effects == ValidatorsTimeoutEffects(f, failed, hasSnapshot, content)
    ensures round == RoundOf(ValidatorsTimeoutState, f) && ConcludesOnce(effects, Status.ValidatorsTimeout, round)
  {
    effects := [AddTimestamp];
    if f.undetermined {
      round := LeaderAppealSuccessful;
      effects := effects + [SetAwaiting] + [ResetProcessingTime] + [ForgetAppealTime];
      effects := effects + [SetUndetermined(false)];
    } else if f.validatorsTimeout {
      round := ValidatorsTimeoutAppealFailed;
      effects := effects + [AddProcessingTime];
      effects := effects + [SetFailed(failed + 1)];
    } else {
      round := RoundValidatorsTimeout;
      effects := effects + [SetAwaiting];
    }
    if f.leaderTimeout {
      effects := effects + [SetLeaderTimeout(false)];
    }
    effects := effects + [SetResult(content)];
    effects := effects + [AddHistory(round)];
    effects := effects + [SetStatus(Status.ValidatorsTimeout)];
    if !hasSnapshot {
      effects := effects + [Outside];
    }
    ValidatorsTimeoutConcludes(f, failed, hasSnapshot, content);
  }

  // ---- Accepted --------------------------------------------------------------------------------

  function AcceptedPre(f: Flags, failed: nat, content: nat, writes: nat): seq<Effect> {
    var a := [AddTimestamp];
    var b := if f.undetermined then a + [SetAwaiting] + [ResetProcessingTime] + [ForgetAppealTime] + [SetFailed(0)]
             else if !f.appealed then a + [SetAwaiting]
             else a + [SetAppealed(false)] + [AddProcessingTime] + [SetFailed(failed + 1)];
    var round := RoundOf(AcceptedState, f);
    var c := b + [SetResult(content)] + [AddHistory(round)] + [Outside];
    if f.appealed then c else Padded(c, writes)
  }

  function AcceptedPost(f: Flags): seq<Effect> {
    var a := [SetStatus(Status.Accepted)];
    if f.undetermined then a + [SetUndetermined(false)]
    else if f.leaderTimeout then a + [SetLeaderTimeout(false)]
    else a
  }

  /** Snapshot, contract registration or update: at most three writes outside the row. */
  function ContractWrites(hasSnapshot: bool, success: bool, deploy: bool): nat {
    (if hasSnapshot then 0 else 1) + if success then (if deploy then 2 else 1) else 0
  }

  method DecideAccepted(f: Flags, failed: nat, content: nat, hasSnapshot: bool, success: bool, deploy: bool)
    returns (pre: seq<Effect>, post: seq<Effect>, round: ConsensusRound, result: Option<ConsensusRound>)
    ensures pre == AcceptedPre(f, failed, content, ContractWrites(hasSnapshot, success, deploy))
            && post == AcceptedPost(f)
    ensures round == RoundOf(AcceptedState, f) && result == AcceptedReturn(f)
    ensures ConcludesOnce(pre + post, Status.Accepted, round)
  {
    pre, post := [AddTimestamp], [];
    if f.undetermined {
      round := LeaderAppealSuccessful;
      pre := pre + [SetAwaiting] + [ResetProcessingTime] + [ForgetAppealTime];
      pre := pre + [SetFailed(0)];
    } else if !f.appealed {
      round := RoundAccepted;
      pre := pre + [SetAwaiting];
    } else {
      round := ValidatorAppealFailed;
      pre := pre + [SetAppealed(false)];
      pre := pre + [AddProcessingTime];
      pre := pre + [SetFailed(failed + 1)];
    }
    pre := pre + [SetResult(content)];
    pre := pre + [AddHistory(round)];
    pre := pre + [Outside];
    PaddedThrice(pre);
    if !f.appealed {
      if !hasSnapshot {
        pre := pre + [Outside];
      }
      if success {
        pre := pre + [Outside];
        if deploy {
          pre := pre + [Outside];
        }
      }
    }
    post := post + [SetStatus(Status.Accepted)];
    if f.undetermined {
      post := post + [SetUndetermined(false)];
      result := Some(round);
    } else if f.leaderTimeout {
      post := post + [SetLeaderTimeout(false)];
      result := Some(LeaderTimeoutAppealSuccessful);
    } else if round.RoundAccepted? {
      result := Some(round);
    } else {
      result := None;
    }
    AcceptedConcludes(f, failed, content, ContractWrites(hasSnapshot, success, deploy));
  }

  // ---- Revealing -------------------------------------------------------------------------------

  function RevealingEffects(result: ConsensusResult, f: Flags, rotations: nat, config: int, content: nat,
                            voters: nat): seq<Effect> {
    var a := Padded([AddTimestamp] + [SetStatus(Status.Revealing)], voters) + [Outside];
    match RevealingOutcome(result, f, rotations, config)
    case AppealSuccessful =>
      a + [SetResult(content)] + [SetFailed(0)]
      + [AddHistory(if f.appealed then ValidatorAppealSuccessful else ValidatorTimeoutAppealSuccessful)]
      + [ResetProcessingTime] + [ForgetAppealTime]
    case ToRotation => a + [IncreaseRotations(Some(config))] + [Outside] + [AddHistory(RotationRound(f.undetermined))]
    case _ => a
  }

  method DecideRevealing(result: ConsensusResult, f: Flags, rotations: nat, config: int, content: nat, voters: nat)
    returns (next: Revealed, effects: seq<Effect>)
    ensures next == RevealingOutcome(result, f, rotations, config)
    ensures !f.appealed && !f.validatorsTimeout ==>
      && (next.ToAccepted? <==> result.MajorityAgree?) && (next.ToValidatorsTimeout? <==> result.TimedOut?)
      && (next.ToUndetermined? <==> !result.MajorityAgree? && !result.TimedOut? && rotations >= config)
      && (next.ToRotation? <==> !result.MajorityAgree? && !result.TimedOut? && rotations < config)
    ensures f.appealed || f.validatorsTimeout ==>
      && (next.ToAccepted? <==> f.appealed && result.MajorityAgree?)
      && (next.ToValidatorsTimeout? <==> f.validatorsTimeout && result.TimedOut?)
      && (next.AppealSuccessful? <==> !next.ToAccepted? && !next.ToValidatorsTimeout?)
    ensures effects == RevealingEffects(result, f, rotations, config, content, voters)
    ensures forall e :: e in effects && e.SetStatus? ==> e.status.Revealing?
    ensures (exists round :: AddHistory(round) in effects) <==> next.AppealSuccessful? || next.ToRotation?
  {
    effects := [AddTimestamp];
    effects := effects + [SetStatus(Status.Revealing)];
    for i := 0 to voters
      invariant effects == Padded([AddTimestamp] + [SetStatus(Status.Revealing)], i)
    {
      effects := effects + [Outside];
    }
    effects := effects + [Outside];
    if f.appealed || f.validatorsTimeout {
      if f.appealed && result.MajorityAgree? {
        next := ToAccepted;
      } else if f.validatorsTimeout && result.TimedOut? {
        next := ToValidatorsTimeout;
      } else {
        effects := effects + [SetResult(content)];
        effects := effects + [SetFailed(0)];
        var round := if f.appealed then ValidatorAppealSuccessful else ValidatorTimeoutAppealSuccessful;
        effects := effects + [AddHistory(round)];
        effects := effects + [ResetProcessingTime];
        effects := effects + [ForgetAppealTime];
        next := AppealSuccessful;
      }
    } else if result.MajorityAgree? {
      next := ToAccepted;
    } else if result.TimedOut? {
      next := ToValidatorsTimeout;
    } else if rotations >= config {
      next := ToUndetermined;
    } else {
      effects := effects + [IncreaseRotations(Some(config))];
      effects := effects + [Outside];
      effects := effects + [AddHistory(RotationRound(f.undetermined))];
      next := ToRotation;
    }
    RevealingRecords(result, f, rotations, config, content, voters);
  }

  /** Revealing concludes nothing: it records only a rotation or an appeal that succeeded. */
  lemma RevealingRecords(result: ConsensusResult, f: Flags, rotations: nat, config: int, content: nat, voters: nat)
    ensures var effects := RevealingEffects(result, f, rotations, config, content, voters);
            var next := RevealingOutcome(result, f, rotations, config);
            && (forall e :: e in effects && e.SetStatus? ==> e.status.Revealing?)
            && ((exists round :: AddHistory(round) in effects) <==> next.AppealSuccessful? || next.ToRotation?)
  {
    PaddedHolds([AddTimestamp] + [SetStatus(Status.Revealing)], voters);
    var effects := RevealingEffects(result, f, rotations, config, content, voters);
    match RevealingOutcome(result, f, rotations, config)
    case AppealSuccessful =>
      assert AddHistory(if f.appealed then ValidatorAppealSuccessful else ValidatorTimeoutAppealSuccessful) in effects;
    case ToRotation => assert AddHistory(RotationRound(f.undetermined)) in effects;
    case _ =>
  }

  lemma {:induction false} PaddedHolds(effects: seq<Effect>, n: nat)
    ensures forall e :: e in Padded(effects, n) ==> e in effects || e == Outside
  {
    if n > 0 {
      PaddedHolds(effects, n - 1);
    }
  }

  // ---- Pending, proposing, committing, finalizing ------------------------------------------------

  const PENDING_PRE: seq<Effect> := [AddTimestamp] + [ResetRotations]

  function ProposingPre(activate: bool): seq<Effect> {
    var a := [AddTimestamp] + [SetStatus(Status.Proposing)];
    if activate then a + [Outside] else a
  }

  function PostProposalEffects(timedOut: bool, leaderOnly: bool, f: Flags, content: nat): seq<Effect> {
    var a := [SetResult(content)];
    if timedOut then a else
      var b := if f.leaderTimeout then a + [SetAwaiting] + [ResetProcessingTime] + [ForgetAppealTime] else a;
      var c := b + [Outside] + [Outside];
      if leaderOnly then c + [SetResult(content)] else c
  }

  method DecidePostProposal(timedOut: bool, leaderOnly: bool, f: Flags, content: nat)
    returns (next: State, effects: seq<Effect>)
    ensures effects == PostProposalEffects(timedOut, leaderOnly, f, content)
    ensures AllNeutral(effects) && (SetAwaiting in effects <==> f.leaderTimeout && !timedOut)
    ensures next == if timedOut then LeaderTimeoutState else if leaderOnly then AcceptedState else CommittingState
  {
    effects := [SetResult(content)];
    if timedOut {
      return LeaderTimeoutState, effects;
    }
    if f.leaderTimeout {
      effects := effects + [SetAwaiting];
      effects := effects + [ResetProcessingTime];
      effects := effects + [ForgetAppealTime];
    }
    effects := effects + [Outside];
    effects := effects + [Outside];
    if leaderOnly {
      effects := effects + [SetResult(content)];
      return AcceptedState, effects;
    }
    return CommittingState, effects;
  }

  const COMMITTING_PRE: seq<Effect> := [AddTimestamp] + [SetStatus(Status.Committing)]

  function FinalizingPre(finalizeContract: bool): seq<Effect> {
    if finalizeContract then [AddTimestamp] else [AddTimestamp] + [Outside]
  }

  const FINALIZING_POST: seq<Effect> := [SetStatus(Status.Finalized)]

  // ---- One record, then one status ---------------------------------------------------------------

  predicate Neutral(e: Effect) {
    !e.AddHistory? && !e.SetStatus?
  }

  predicate AllNeutral(effects: seq<Effect>) {
    forall e :: e in effects ==> Neutral(e)
  }

  /** The list records exactly one round and writes exactly one status, and the record comes first. */
  ghost predicate ConcludesOnce(effects: seq<Effect>, status: Status, round: ConsensusRound) {
    exists i, j ::
      && 0 <= i < j < |effects| && effects[i] == AddHistory(round) && effects[j] == SetStatus(status)
      && forall k :: 0 <= k < |effects| && k != i && k != j ==> Neutral(effects[k])
  }

  lemma Conclusion(before: seq<Effect>, round: ConsensusRound, mid: seq<Effect>, status: Status, after: seq<Effect>)
    requires AllNeutral(before) && AllNeutral(mid) && AllNeutral(after)
    ensures ConcludesOnce(before + [AddHistory(round)] + mid + [SetStatus(status)] + after, status, round)
  {
    var all := before + [AddHistory(round)] + mid + [SetStatus(status)] + after;
    var i, j := |before|, |before| + 1 + |mid|;
    assert all[i] == AddHistory(round) && all[j] == SetStatus(status);
    forall k | 0 <= k < |all| && k != i && k != j ensures Neutral(all[k]) {
      if k < i {
        assert all[k] == before[k];
      } else if k < j {
        assert all[k] == mid[k - i - 1];
      } else {
        assert all[k] == after[k - j - 1];
      }
    }
  }

  /** Wherever a concluding list is cut off, its status is not written without its record. */
  lemma StatusOnlyWithRecord(effects: seq<Effect>, status: Status, round: ConsensusRound, stop: nat)
    requires ConcludesOnce(effects, status, round) && stop <= |effects|
    ensures SetStatus(status) in effects[..stop] ==> AddHistory(round) in effects[..stop]
    ensures forall r :: AddHistory(r) in effects[..stop] ==> r == round
  {
    var i, j :| && 0 <= i < j < |effects| && effects[i] == AddHistory(round) && effects[j] == SetStatus(status)
                && forall k :: 0 <= k < |effects| && k != i && k != j ==> Neutral(effects[k]);
    if SetStatus(status) in effects[..stop] {
      var k :| 0 <= k < stop && effects[k] == SetStatus(status);
      assert k == j && effects[..stop][i] == AddHistory(round);
    }
  }

  lemma {:induction false} PaddedIsNeutral(effects: seq<Effect>, n: nat)
    requires AllNeutral(effects)
    ensures AllNeutral(Padded(effects, n))
  {
    if n > 0 {
      PaddedIsNeutral(effects, n - 1);
    }
  }

  lemma {:induction false} PaddedApart(a: seq<Effect>, b: seq<Effect>, n: nat)
    ensures Padded(a + b, n) == a + Padded(b, n)
  {
    if n > 0 {
      PaddedApart(a, b, n - 1);
    }
  }

  lemma UndeterminedConcludes(f: Flags, failed: nat, hasSnapshot: bool, content: nat, since: Option<int>)
    ensures ConcludesOnce(UndeterminedEffects(f, failed, hasSnapshot, content, since), Status.Undetermined,
            RoundOf(UndeterminedState, f))
  {
    var all := UndeterminedEffects(f, failed, hasSnapshot, content, since);
    var before := all[..|all| - 2];
    assert all == before + [AddHistory(RoundOf(UndeterminedState, f))] + [] + [SetStatus(Status.Undetermined)] + [];
    Conclusion(before, RoundOf(UndeterminedState, f), [], Status.Undetermined, []);
  }

  lemma LeaderTimeoutConcludes(f: Flags, hasSnapshot: bool)
    ensures ConcludesOnce(LeaderTimeoutEffects(f, hasSnapshot), Status.LeaderTimeout, RoundOf(LeaderTimeoutState, f))
  {
    var all := LeaderTimeoutEffects(f, hasSnapshot);
    var before := all[..|all| - 3];
    assert all == before + [AddHistory(RoundOf(LeaderTimeoutState, f))] + [] + [SetStatus(Status.LeaderTimeout)]
           + [Outside];
    Conclusion(before, RoundOf(LeaderTimeoutState, f), [], Status.LeaderTimeout, [Outside]);
  }

  lemma ValidatorsTimeoutConcludes(f: Flags, failed: nat, hasSnapshot: bool, content: nat)
    ensures ConcludesOnce(ValidatorsTimeoutEffects(f, failed, hasSnapshot, content), Status.ValidatorsTimeout,
                          RoundOf(ValidatorsTimeoutState, f))
  {
    var full := ValidatorsTimeoutEffects(f, failed, true, content);
    var before := full[..|full| - 2];
    var after := if hasSnapshot then [] else [Outside];
    assert ValidatorsTimeoutEffects(f, failed, hasSnapshot, content)
        == before + [AddHistory(RoundOf(ValidatorsTimeoutState, f))] + [] + [SetStatus(Status.ValidatorsTimeout)]
          + after;
    Conclusion(before, RoundOf(ValidatorsTimeoutState, f), [], Status.ValidatorsTimeout, after);
  }

  lemma AcceptedPreShape(f: Flags, failed: nat, content: nat, writes: nat) returns (before: seq<Effect>)
    ensures AllNeutral(before)
    ensures var inner := before + [AddHistory(RoundOf(AcceptedState, f))] + [Outside];
            AcceptedPre(f, failed, content, writes) == if f.appealed then inner else Padded(inner, writes)
  {
    var a := [AddTimestamp];
    var b := if f.undetermined then a + [SetAwaiting] + [ResetProcessingTime] + [ForgetAppealTime] + [SetFailed(0)]
             else if !f.appealed then a + [SetAwaiting]
             else a + [SetAppealed(false)] + [AddProcessingTime] + [SetFailed(failed + 1)];
    before := b + [SetResult(content)];
  }

  lemma AcceptedConcludes(f: Flags, failed: nat, content: nat, writes: nat)
    ensures ConcludesOnce(AcceptedPre(f, failed, content, writes) + AcceptedPost(f), Status.Accepted,
            RoundOf(AcceptedState, f))
  {
    hide AcceptedPre, ConcludesOnce, RoundOf;
    var record := [AddHistory(RoundOf(AcceptedState, f))];
    var before := AcceptedPreShape(f, failed, content, writes);
    var mid := if f.appealed then [Outside] else Padded([Outside], writes);
    PaddedIsNeutral([Outside], writes);
    PaddedApart(before + record, [Outside], writes);
    var after := AcceptedPost(f)[1..];
    assert AcceptedPost(f) == [SetStatus(Status.Accepted)] + after;
    Conclusion(before, RoundOf(AcceptedState, f), mid, Status.Accepted, after);
    assert AcceptedPre(f, failed, content, writes) == before + record + mid;
    assert AcceptedPre(f, failed, content, writes) + AcceptedPost(f) ==
           before + record + mid + [SetStatus(Status.Accepted)] + after;
  }

  // ---- What a whole decision does to the row ------------------------------------------------------

  /** The row after a concluded round: the status and the round are written, monitoring restarts. */
  function Concluded(row: Row, status: Status): Row {
    row.(status := status, lastProgress := None, hasHistory := true)
  }

  /** A new appeal window: the old processing time and appeal time no longer count. */
  function Reopened(row: Row, now: int): Row {
    row.(awaitingSince := Some(now), appeal := row.appeal.(processingTime := 0, since := None))
  }

  /** The window goes on, prolonged by the time the appeal took. */
  function Prolonged(row: Row, now: int): Row {
    if row.appeal.since.None? then row
    else row.(appeal := row.appeal.(processingTime := row.appeal.processingTime + (now - row.appeal.since.value)))
  }

  lemma ApplyNothing(row: Row, now: int)
    ensures ApplyAll(row, [], now) == row
    ensures [] + [AddTimestamp] == [AddTimestamp]
  {
  }

  function UndeterminedRow(row: Row, f: Flags, failed: nat, content: nat, since: Option<int>, now: int): Row {
    var base := if f.undetermined then row.(appeal := row.appeal.(undetermined := false, failed := failed + 1))
                else row.(awaitingSince := Some(now));
    Concluded(if since.Some? then Prolonged(base, now) else base, Status.Undetermined).(data := Agreed(content))
  }

  /** A failed leader appeal keeps the window and prolongs it; otherwise the window starts now. */
  lemma UndeterminedOutcome(row: Row, f: Flags, failed: nat, hasSnapshot: bool, content: nat, since: Option<int>,
                            now: int)
    ensures ApplyAll(row, UndeterminedEffects(f, failed, hasSnapshot, content, since), now) ==
            UndeterminedRow(row, f, failed, content, since, now)
  {
    hide ApplyAll, Apply, UndeterminedRow;
    ApplyNothing(row, now);
    Then(row, [], AddTimestamp, now);
    var a := [AddTimestamp] + [Outside];
    ThenOutside(row, [AddTimestamp], now);
    Then(row, a, SetUndetermined(false), now);
    Then(row, a + [SetUndetermined(false)], SetFailed(failed + 1), now);
    Then(row, a, SetAwaiting, now);
    var b := if f.undetermined then a + [SetUndetermined(false)] + [SetFailed(failed + 1)] else a + [SetAwaiting];
    ThenOutside(row, b, now);
    var c := if hasSnapshot then b else b + [Outside];
    Then(row, c, SetResult(content), now);
    var d := c + [SetResult(content)];
    Then(row, d, AddProcessingTime, now);
    var e := if since.Some? then d + [AddProcessingTime] else d;
    var round := RoundOf(UndeterminedState, f);
    Then(row, e, AddHistory(round), now);
    Then(row, e + [AddHistory(round)], SetStatus(Status.Undetermined), now);
    UndeterminedSteps(row, f, failed, content, since, round, now);
  }

  lemma UndeterminedSteps(row: Row, f: Flags, failed: nat, content: nat, since: Option<int>, round: ConsensusRound,
                          now: int)
    ensures
      var a := Apply(row, AddTimestamp, now);
      var b := if f.undetermined then Apply(Apply(a, SetUndetermined(false), now), SetFailed(failed + 1), now)
        else Apply(a, SetAwaiting, now);
      var c := Apply(b, SetResult(content), now);
      var d := if since.Some? then Apply(c, AddProcessingTime, now) else c;
      Apply(Apply(d, AddHistory(round), now), SetStatus(Status.Undetermined), now) ==
        UndeterminedRow(row, f, failed, content, since, now)
  {
  }

  lemma ThenOutside(row: Row, before: seq<Effect>, now: int)
    ensures ApplyAll(row, before + [Outside], now) == ApplyAll(row, before, now)
  {
    Then(row, before, Outside, now);
  }

  function LeaderTimeoutRow(row: Row, f: Flags, now: int): Row {
    var base := if f.undetermined then Reopened(row.(appeal := row.appeal.(undetermined := false)), now)
                else if f.leaderTimeout then Prolonged(row, now)
                else row.(awaitingSince := Some(now));
    Concluded(base, Status.LeaderTimeout)
  }

  /** A successful leader appeal opens a new window, a failed appeal of a leader timeout prolongs the
      old one, and a first timeout starts one. */
  lemma LeaderTimeoutOutcome(row: Row, f: Flags, hasSnapshot: bool, now: int)
    ensures ApplyAll(row, LeaderTimeoutEffects(f, hasSnapshot), now) == LeaderTimeoutRow(row, f, now)
  {
    hide ApplyAll, Apply, LeaderTimeoutRow;
    ApplyNothing(row, now);
    Then(row, [], AddTimestamp, now);
    ThenOutside(row, [AddTimestamp], now);
    var a := if hasSnapshot then [AddTimestamp] else [AddTimestamp] + [Outside];
    ThenNewWindow(row, a, now);
    Then(row, a + [SetAwaiting] + [ResetProcessingTime] + [ForgetAppealTime], SetUndetermined(false), now);
    Then(row, a, AddProcessingTime, now);
    var b :=
      if f.undetermined then a + [SetAwaiting] + [ResetProcessingTime] + [ForgetAppealTime] + [SetUndetermined(false)]
             else if f.leaderTimeout then a + [AddProcessingTime]
             else a + [SetAwaiting];
    var round := RoundOf(LeaderTimeoutState, f);
    ThenOutside(row, b, now);
    Then(row, b + [Outside], AddHistory(round), now);
    Then(row, b + [Outside] + [AddHistory(round)], SetStatus(Status.LeaderTimeout), now);
    ThenOutside(row, b + [Outside] + [AddHistory(round)] + [SetStatus(Status.LeaderTimeout)], now);
    LeaderTimeoutSteps(row, f, round, now);
  }

  lemma LeaderTimeoutSteps(row: Row, f: Flags, round: ConsensusRound, now: int)
    ensures
      var a := Apply(row, AddTimestamp, now);
      var b := if f.undetermined then Apply(NewWindow(a, now), SetUndetermined(false), now)
               else if f.leaderTimeout then Apply(a, AddProcessingTime, now)
               else Apply(a, SetAwaiting, now);
      Apply(Apply(b, AddHistory(round), now), SetStatus(Status.LeaderTimeout), now) == LeaderTimeoutRow(row, f, now)
  {
  }

  function NewWindow(row: Row, now: int): Row {
    Apply(Apply(Apply(row, SetAwaiting, now), ResetProcessingTime, now), ForgetAppealTime, now)
  }

  lemma ThenNewWindow(row: Row, before: seq<Effect>, now: int)
    ensures ApplyAll(row, before + [SetAwaiting], now) == Apply(ApplyAll(row, before, now), SetAwaiting, now)
    ensures ApplyAll(row, before + [SetAwaiting] + [ResetProcessingTime] + [ForgetAppealTime], now) ==
            NewWindow(ApplyAll(row, before, now), now)
  {
    hide ApplyAll, Apply;
    Then(row, before, SetAwaiting, now);
    Then(row, before + [SetAwaiting], ResetProcessingTime, now);
    Then(row, before + [SetAwaiting] + [ResetProcessingTime], ForgetAppealTime, now);
  }

  function ValidatorsTimeoutWindow(row: Row, f: Flags, failed: nat, now: int): Row {
    if f.undetermined then Reopened(row.(appeal := row.appeal.(undetermined := false)), now)
    else if f.validatorsTimeout then Prolonged(row.(appeal := row.appeal.(failed := failed + 1)), now)
    else row.(awaitingSince := Some(now))
  }

  function ValidatorsTimeoutRow(row: Row, f: Flags, failed: nat, content: nat, now: int): Row {
    var base := ValidatorsTimeoutWindow(row, f, failed, now);
    var cleared := if f.leaderTimeout then base.(appeal := base.appeal.(leaderTimeout := false)) else base;
    Concluded(cleared, Status.ValidatorsTimeout).(data := Agreed(content))
  }

  lemma ValidatorsTimeoutOutcome(row: Row, f: Flags, failed: nat, hasSnapshot: bool, content: nat, now: int)
    ensures ApplyAll(row, ValidatorsTimeoutEffects(f, failed, hasSnapshot, content), now) ==
            ValidatorsTimeoutRow(row, f, failed, content, now)
  {
    hide ApplyAll, Apply, ValidatorsTimeoutRow;
    ApplyNothing(row, now);
    var a := [AddTimestamp];
    Then(row, [], AddTimestamp, now);
    ThenNewWindow(row, a, now);
    Then(row, a + [SetAwaiting] + [ResetProcessingTime] + [ForgetAppealTime], SetUndetermined(false), now);
    Then(row, a, AddProcessingTime, now);
    Then(row, a + [AddProcessingTime], SetFailed(failed + 1), now);
    var b :=
      if f.undetermined then a + [SetAwaiting] + [ResetProcessingTime] + [ForgetAppealTime] + [SetUndetermined(false)]
             else if f.validatorsTimeout then a + [AddProcessingTime] + [SetFailed(failed + 1)]
             else a + [SetAwaiting];
    Then(row, b, SetLeaderTimeout(false), now);
    var c := if f.leaderTimeout then b + [SetLeaderTimeout(false)] else b;
    var round := RoundOf(ValidatorsTimeoutState, f);
    Then(row, c, SetResult(content), now);
    Then(row, c + [SetResult(content)], AddHistory(round), now);
    Then(row, c + [SetResult(content)] + [AddHistory(round)], SetStatus(Status.ValidatorsTimeout), now);
    ThenOutside(row, c + [SetResult(content)] + [AddHistory(round)] + [SetStatus(Status.ValidatorsTimeout)], now);
    ValidatorsTimeoutSteps(row, f, failed, content, round, now);
  }

  lemma ValidatorsTimeoutSteps(row: Row, f: Flags, failed: nat, content: nat, round: ConsensusRound, now: int)
    ensures
      var a := Apply(row, AddTimestamp, now);
      var b := if f.undetermined then Apply(NewWindow(a, now), SetUndetermined(false), now)
               else if f.validatorsTimeout then Apply(Apply(a, AddProcessingTime, now), SetFailed(failed + 1), now)
               else Apply(a, SetAwaiting, now);
      var c := if f.leaderTimeout then Apply(b, SetLeaderTimeout(false), now) else b;
      Apply(Apply(Apply(c, SetResult(content), now), AddHistory(round), now), SetStatus(Status.ValidatorsTimeout), now)
        == ValidatorsTimeoutRow(row, f, failed, content, now)
  {
    hide ValidatorsTimeoutWindow, Apply, NewWindow;
    ValidatorsTimeoutHead(row, f, failed, now);
    ConcludingSteps(ValidatorsTimeoutWindow(row, f, failed, now), f.leaderTimeout, Status.ValidatorsTimeout, content,
      round, now);
  }

  lemma ValidatorsTimeoutHead(row: Row, f: Flags, failed: nat, now: int)
    ensures
      var a := Apply(row, AddTimestamp, now);
      (if f.undetermined then Apply(NewWindow(a, now), SetUndetermined(false), now)
       else if f.validatorsTimeout then Apply(Apply(a, AddProcessingTime, now), SetFailed(failed + 1), now)
       else Apply(a, SetAwaiting, now)) == Monitored(ValidatorsTimeoutWindow(row, f, failed, now), now)
  {
  }

  function Monitored(row: Row, now: int): Row {
    row.(lastProgress := Some(now as real), hasHistory := true)
  }

  /** Clearing the flag and writing result, round and status, whichever way round the flag goes. */
  lemma ConcludingSteps(base: Row, clear: bool, status: Status, content: nat, round: ConsensusRound, now: int)
    ensures
      var cleared := if clear then base.(appeal := base.appeal.(leaderTimeout := false)) else base;
      var end := Concluded(cleared, status).(data := Agreed(content));
      var b := Monitored(base, now);
      var c := if clear then Apply(b, SetLeaderTimeout(false), now) else b;
      var d := Apply(Apply(Apply(b, SetResult(content), now), AddHistory(round), now), SetStatus(status), now);
      && Apply(Apply(Apply(c, SetResult(content), now), AddHistory(round), now), SetStatus(status), now) == end
      && (if clear then Apply(d, SetLeaderTimeout(false), now) else d) == end
  {
  }

  function AcceptedWindow(row: Row, f: Flags, failed: nat, now: int): Row {
    if f.undetermined then Reopened(row.(appeal := row.appeal.(failed := 0)), now)
    else if !f.appealed then row.(awaitingSince := Some(now))
    else Prolonged(row.(appeal := row.appeal.(appealed := false, failed := failed + 1)), now)
  }

  function AcceptedRow(row: Row, f: Flags, failed: nat, content: nat, now: int): Row {
    var base := AcceptedWindow(row, f, failed, now);
    var cleared := if f.undetermined then base.(appeal := base.appeal.(undetermined := false))
                   else if f.leaderTimeout then base.(appeal := base.appeal.(leaderTimeout := false))
                   else base;
    Concluded(cleared, Status.Accepted).(data := Agreed(content))
  }

  /** A failed validator appeal keeps the window, prolongs it and counts; a successful leader appeal
      opens a new one and forgets the failures; otherwise the window starts now. */
  lemma AcceptedOutcome(row: Row, f: Flags, failed: nat, content: nat, writes: nat, now: int)
    ensures ApplyAll(ApplyAll(row, AcceptedPre(f, failed, content, writes), now), AcceptedPost(f), now)
      == AcceptedRow(row, f, failed, content, now)
  {
    hide ApplyAll, Apply, AcceptedRow;
    ApplyNothing(row, now);
    var a := [AddTimestamp];
    Then(row, [], AddTimestamp, now);
    ThenNewWindow(row, a, now);
    Then(row, a + [SetAwaiting] + [ResetProcessingTime] + [ForgetAppealTime], SetFailed(0), now);
    Then(row, a, SetAppealed(false), now);
    Then(row, a + [SetAppealed(false)], AddProcessingTime, now);
    Then(row, a + [SetAppealed(false)] + [AddProcessingTime], SetFailed(failed + 1), now);
    var b := if f.undetermined then a + [SetAwaiting] + [ResetProcessingTime] + [ForgetAppealTime] + [SetFailed(0)]
             else if !f.appealed then a + [SetAwaiting]
             else a + [SetAppealed(false)] + [AddProcessingTime] + [SetFailed(failed + 1)];
    var round := RoundOf(AcceptedState, f);
    Then(row, b, SetResult(content), now);
    Then(row, b + [SetResult(content)], AddHistory(round), now);
    ThenOutside(row, b + [SetResult(content)] + [AddHistory(round)], now);
    ThenPadded(row, b + [SetResult(content)] + [AddHistory(round)] + [Outside], writes, now);
    var mid := ApplyAll(row, AcceptedPre(f, failed, content, writes), now);
    ApplyNothing(mid, now);
    assert [] + [SetStatus(Status.Accepted)] == [SetStatus(Status.Accepted)];
    Then(mid, [], SetStatus(Status.Accepted), now);
    Then(mid, [SetStatus(Status.Accepted)], SetUndetermined(false), now);
    Then(mid, [SetStatus(Status.Accepted)], SetLeaderTimeout(false), now);
    AcceptedSteps(row, f, failed, content, round, now);
  }

  lemma AcceptedSteps(row: Row, f: Flags, failed: nat, content: nat, round: ConsensusRound, now: int)
    ensures
      var a := Apply(row, AddTimestamp, now);
      var b := if f.undetermined then Apply(NewWindow(a, now), SetFailed(0), now)
               else if !f.appealed then Apply(a, SetAwaiting, now)
               else Apply(Apply(Apply(a, SetAppealed(false), now), AddProcessingTime, now), SetFailed(failed + 1), now);
      var c := Apply(Apply(Apply(b, SetResult(content), now), AddHistory(round), now), SetStatus(Status.Accepted), now);
      (if f.undetermined then Apply(c, SetUndetermined(false), now)
       else if f.leaderTimeout then Apply(c, SetLeaderTimeout(false), now) else c)
      == AcceptedRow(row, f, failed, content, now)
  {
    hide AcceptedWindow, Apply, NewWindow;
    AcceptedHead(row, f, failed, now);
    var base := AcceptedWindow(row, f, failed, now);
    if f.undetermined {
      ClearingSteps(base, Status.Accepted, content, round, now);
    } else {
      ConcludingSteps(base, f.leaderTimeout, Status.Accepted, content, round, now);
    }
  }

  lemma AcceptedHead(row: Row, f: Flags, failed: nat, now: int)
    ensures
      var a := Apply(row, AddTimestamp, now);
      (if f.undetermined then Apply(NewWindow(a, now), SetFailed(0), now)
       else if !f.appealed then Apply(a, SetAwaiting, now)
       else Apply(Apply(Apply(a, SetAppealed(false), now), AddProcessingTime, now), SetFailed(failed + 1), now))
        == Monitored(AcceptedWindow(row, f, failed, now), now)
  {
  }

  lemma ClearingSteps(base: Row, status: Status, content: nat, round: ConsensusRound, now: int)
    ensures
      var d := Apply(Apply(Apply(Monitored(base, now), SetResult(content), now), AddHistory(round), now),
        SetStatus(status), now);
      Apply(d, SetUndetermined(false), now)
        == Concluded(base.(appeal := base.appeal.(undetermined := false)), status).(data := Agreed(content))
  {
  }

  lemma {:induction false} ThenPadded(row: Row, before: seq<Effect>, n: nat, now: int)
    ensures ApplyAll(row, Padded(before, n), now) == ApplyAll(row, before, now)
  {
    if n > 0 {
      ThenPadded(row, before, n - 1, now);
      ThenOutside(row, Padded(before, n - 1), now);
    }
  }

  /** The flags in the row after a whole decision, when the worker's flags were those of the row. */
  lemma DecisionsLeaveFlags(row: Row, failed: nat, content: nat, since: Option<int>, now: int)
    ensures var f := FlagsOf(row);
            && FlagsOf(UndeterminedRow(row, f, failed, content, since, now)) == FlagsAfter(UndeterminedState, f)
            && FlagsOf(LeaderTimeoutRow(row, f, now)) == FlagsAfter(LeaderTimeoutState, f)
            && FlagsOf(ValidatorsTimeoutRow(row, f, failed, content, now)) == FlagsAfter(ValidatorsTimeoutState, f)
            && FlagsOf(AcceptedRow(row, f, failed, content, now)) == FlagsAfter(AcceptedState, f)
  {
    hide UndeterminedRow, LeaderTimeoutRow, ValidatorsTimeoutRow, AcceptedRow, FlagsOf, FlagsAfter;
    UndeterminedLeavesFlags(row, failed, content, since, now);
    LeaderTimeoutLeavesFlags(row, now);
    ValidatorsTimeoutLeavesFlags(row, failed, content, now);
    AcceptedLeavesFlags(row, failed, content, now);
  }

  lemma UndeterminedLeavesFlags(row: Row, failed: nat, content: nat, since: Option<int>, now: int)
    ensures FlagsOf(UndeterminedRow(row, FlagsOf(row), failed, content, since, now)) ==
            FlagsAfter(UndeterminedState, FlagsOf(row))
  {
  }

  lemma LeaderTimeoutLeavesFlags(row: Row, now: int)
    ensures FlagsOf(LeaderTimeoutRow(row, FlagsOf(row), now)) == FlagsAfter(LeaderTimeoutState, FlagsOf(row))
  {
  }

  lemma ValidatorsTimeoutLeavesFlags(row: Row, failed: nat, content: nat, now: int)
    ensures FlagsOf(ValidatorsTimeoutRow(row, FlagsOf(row), failed, content, now)) ==
            FlagsAfter(ValidatorsTimeoutState, FlagsOf(row))
  {
  }

  lemma AcceptedLeavesFlags(row: Row, failed: nat, content: nat, now: int)
    ensures FlagsOf(AcceptedRow(row, FlagsOf(row), failed, content, now)) == FlagsAfter(AcceptedState, FlagsOf(row))
  {
  }

  // ---- The same, field by field ------------------------------------------------------------------

  function Extended(row: Row, now: int): int {
    row.appeal.processingTime + if row.appeal.since.Some? then now - row.appeal.since.value else 0
  }

  /** An undetermined row starts its window, unless the failed appeal of the leader keeps the old one. */
  lemma UndeterminedFields(row: Row, f: Flags, failed: nat, hasSnapshot: bool, content: nat, since: Option<int>,
                           now: int)
    ensures ApplyAll(row, UndeterminedEffects(f, failed, hasSnapshot, content, since), now) == row.(
      status := Status.Undetermined, data := Agreed(content), lastProgress := None, hasHistory := true,
      awaitingSince := if f.undetermined then row.awaitingSince else Some(now),
      appeal := row.appeal.(
        undetermined := row.appeal.undetermined && !f.undetermined,
        failed := if f.undetermined then failed + 1 else row.appeal.failed,
        processingTime := if since.Some? then Extended(row, now) else row.appeal.processingTime))
  {
    hide UndeterminedEffects, ApplyAll;
    UndeterminedOutcome(row, f, failed, hasSnapshot, content, since, now);
  }

  lemma LeaderTimeoutFields(row: Row, f: Flags, hasSnapshot: bool, now: int)
    ensures var failedAppeal := !f.undetermined && f.leaderTimeout;
            ApplyAll(row, LeaderTimeoutEffects(f, hasSnapshot), now) == row.(
              status := Status.LeaderTimeout, lastProgress := None, hasHistory := true,
              awaitingSince := if failedAppeal then row.awaitingSince else Some(now),
              appeal := row.appeal.(
                undetermined := row.appeal.undetermined && !f.undetermined,
                since := if f.undetermined then None else row.appeal.since,
                processingTime := if f.undetermined then 0
                                  else if failedAppeal then Extended(row, now)
                                  else row.appeal.processingTime))
  {
    hide LeaderTimeoutEffects, ApplyAll;
    LeaderTimeoutOutcome(row, f, hasSnapshot, now);
  }

  lemma ValidatorsTimeoutFields(row: Row, f: Flags, failed: nat, hasSnapshot: bool, content: nat, now: int)
    ensures var failedAppeal := !f.undetermined && f.validatorsTimeout;
            ApplyAll(row, ValidatorsTimeoutEffects(f, failed, hasSnapshot, content), now) == row.(
              status := Status.ValidatorsTimeout, data := Agreed(content), lastProgress := None, hasHistory := true,
              awaitingSince := if failedAppeal then row.awaitingSince else Some(now),
              appeal := row.appeal.(
                undetermined := row.appeal.undetermined && !f.undetermined,
                leaderTimeout := row.appeal.leaderTimeout && !f.leaderTimeout,
                failed := if failedAppeal then failed + 1 else row.appeal.failed,
                since := if f.undetermined then None else row.appeal.since,
                processingTime := if f.undetermined then 0
                                  else if failedAppeal then Extended(row, now)
                                  else row.appeal.processingTime))
  {
    hide ValidatorsTimeoutEffects, ApplyAll;
    ValidatorsTimeoutOutcome(row, f, failed, hasSnapshot, content, now);
  }

  lemma AcceptedFields(row: Row, f: Flags, failed: nat, content: nat, writes: nat, now: int)
    ensures var failedAppeal := !f.undetermined && f.appealed;
            ApplyAll(ApplyAll(row, AcceptedPre(f, failed, content, writes), now), AcceptedPost(f), now) == row.(
              status := Status.Accepted, data := Agreed(content), lastProgress := None, hasHistory := true,
              awaitingSince := if failedAppeal then row.awaitingSince else Some(now),
              appeal := row.appeal.(
                appealed := row.appeal.appealed && !failedAppeal,
                undetermined := row.appeal.undetermined && !f.undetermined,
                leaderTimeout := row.appeal.leaderTimeout && (f.undetermined || !f.leaderTimeout),
                failed := if f.undetermined then 0 else if failedAppeal then failed + 1 else row.appeal.failed,
                since := if f.undetermined then None else row.appeal.since,
                processingTime := if f.undetermined then 0
                                  else if failedAppeal then Extended(row, now)
                                  else row.appeal.processingTime))
  {
    hide AcceptedPre, AcceptedPost, ApplyAll;
    AcceptedOutcome(row, f, failed, content, writes, now);
  }

  lemma TwoEffects(row: Row, a: Effect, b: Effect, now: int)
    ensures ApplyAll(row, [a], now) == Apply(row, a, now)
    ensures ApplyAll(row, [a] + [b], now) == Apply(Apply(row, a, now), b, now)
  {
    Then(row, [], a, now);
    Then(row, [a], b, now);
    assert [] + [a] == [a];
  }

  /** The lists that conclude nothing: each state announces itself, pending takes the stored rotations back to
      zero, and finalizing ends the row. */
  lemma AnnouncementFields(row: Row, activate: bool, finalizeContract: bool, now: int)
    ensures var seen := row.(lastProgress := Some(now as real), hasHistory := true);
            && ApplyAll(row, PENDING_PRE, now) == seen.(rotationCount := 0)
            && ApplyAll(row, ProposingPre(activate), now) == seen.(status := Status.Proposing)
            && ApplyAll(row, COMMITTING_PRE, now) == seen.(status := Status.Committing)
            && ApplyAll(row, FinalizingPre(finalizeContract), now) == seen
            && ApplyAll(row, FINALIZING_POST, now) == row.(status := Status.Finalized)
  {
    TwoEffects(row, AddTimestamp, ResetRotations, now);
    TwoEffects(row, AddTimestamp, SetStatus(Status.Proposing), now);
    ThenOutside(row, [AddTimestamp] + [SetStatus(Status.Proposing)], now);
    TwoEffects(row, AddTimestamp, SetStatus(Status.Committing), now);
    ThenOutside(row, [AddTimestamp], now);
    TwoEffects(row, SetStatus(Status.Finalized), Outside, now);
  }

  lemma RevealingHead(row: Row, voters: nat, now: int)
    ensures ApplyAll(row, Padded([AddTimestamp] + [SetStatus(Status.Revealing)], voters) + [Outside], now) ==
            row.(status := Status.Revealing, lastProgress := Some(now as real), hasHistory := true)
  {
    var head := [AddTimestamp] + [SetStatus(Status.Revealing)];
    TwoEffects(row, AddTimestamp, SetStatus(Status.Revealing), now);
    ThenPadded(row, head, voters, now);
    ThenOutside(row, Padded(head, voters), now);
  }

  lemma AppealTail(row: Row, a: seq<Effect>, content: nat, round: ConsensusRound, now: int)
    ensures var x := ApplyAll(row, a, now);
            ApplyAll(row, a + [SetResult(content)] + [SetFailed(0)] + [AddHistory(round)] + [ResetProcessingTime]
                            + [ForgetAppealTime], now) ==
              x.(data := Agreed(content), lastProgress := None, hasHistory := true,
                 appeal := x.appeal.(failed := 0, processingTime := 0, since := None))
  {
    hide ApplyAll, Apply;
    var b := a + [SetResult(content)];
    var c := b + [SetFailed(0)];
    var d := c + [AddHistory(round)];
    Then(row, a, SetResult(content), now);
    Then(row, b, SetFailed(0), now);
    Then(row, c, AddHistory(round), now);
    Then(row, d, ResetProcessingTime, now);
    Then(row, d + [ResetProcessingTime], ForgetAppealTime, now);
    AppealSteps(ApplyAll(row, a, now), content, round, now);
  }

  lemma AppealSteps(x: Row, content: nat, round: ConsensusRound, now: int)
    ensures var y := Apply(Apply(Apply(x, SetResult(content), now), SetFailed(0), now), AddHistory(round), now);
            Apply(Apply(y, ResetProcessingTime, now), ForgetAppealTime, now) ==
              x.(data := Agreed(content), lastProgress := None, hasHistory := true,
                 appeal := x.appeal.(failed := 0, processingTime := 0, since := None))
  {
  }

  lemma RotationTail(row: Row, a: seq<Effect>, config: int, round: ConsensusRound, now: int)
    ensures var x := ApplyAll(row, a, now);
            var counts := config == 0 || x.rotationCount < config;
            ApplyAll(row, a + [IncreaseRotations(Some(config))] + [Outside] + [AddHistory(round)], now) ==
              x.(lastProgress := None, hasHistory := true,
                 rotationCount := if counts then x.rotationCount + 1 else x.rotationCount)
  {
    hide ApplyAll;
    Then(row, a, IncreaseRotations(Some(config)), now);
    ThenOutside(row, a + [IncreaseRotations(Some(config))], now);
    Then(row, a + [IncreaseRotations(Some(config))] + [Outside], AddHistory(round), now);
  }

  /** Revealing: a rotation raises the stored count up to its limit, a successful appeal forgets the failed
      ones and closes the appeal's clock, and any other answer leaves all that alone. */
  lemma RevealingFields(row: Row, result: ConsensusResult, f: Flags, rotations: nat, config: int, content: nat,
                        voters: nat, now: int)
    ensures var next := RevealingOutcome(result, f, rotations, config);
            var counts := config == 0 || row.rotationCount < config;
            ApplyAll(row, RevealingEffects(result, f, rotations, config, content, voters), now) ==
              if next.AppealSuccessful? then row.(
                status := Status.Revealing, data := Agreed(content), lastProgress := None, hasHistory := true,
                appeal := row.appeal.(failed := 0, processingTime := 0, since := None))
              else if next.ToRotation? then row.(
                status := Status.Revealing, lastProgress := None, hasHistory := true,
                rotationCount := if counts then row.rotationCount + 1 else row.rotationCount)
              else row.(status := Status.Revealing, lastProgress := Some(now as real), hasHistory := true)
  {
    var a := Padded([AddTimestamp] + [SetStatus(Status.Revealing)], voters) + [Outside];
    RevealingHead(row, voters, now);
    var round := if f.appealed then ValidatorAppealSuccessful else ValidatorTimeoutAppealSuccessful;
    AppealTail(row, a, content, round, now);
    RotationTail(row, a, config, RotationRound(f.undetermined), now);
    hide ApplyAll, Padded, Apply, RevealingOutcome;
  }

  /** After the proposal: the result is stored, and the appeal of a leader timeout that did not time out again
      opens a new window. */
  lemma PostProposalFields(row: Row, timedOut: bool, leaderOnly: bool, f: Flags, content: nat, now: int)
    ensures ApplyAll(row, PostProposalEffects(timedOut, leaderOnly, f, content), now) ==
              if timedOut || !f.leaderTimeout then row.(data := Agreed(content))
              else row.(data := Agreed(content), awaitingSince := Some(now),
                        appeal := row.appeal.(processingTime := 0, since := None))
  {
    hide ApplyAll;
    TwoEffects(row, SetResult(content), Outside, now);
    var a := [SetResult(content)];
    ThenNewWindow(row, a, now);
    var b := if f.leaderTimeout then a + [SetAwaiting] + [ResetProcessingTime] + [ForgetAppealTime] else a;
    ThenOutside(row, b, now);
    ThenOutside(row, b + [Outside], now);
    Then(row, b + [Outside] + [Outside], SetResult(content), now);
  }

  // ---- The states, from their decision to the row ---------------------------------------------------

  method HandleUndetermined(x: EffectExecutor, f: Flags, failed: nat, hasSnapshot: bool, content: nat,
                            since: Option<int>, now: int)
    modifies x
    ensures x.row == UndeterminedRow(old(x.row), f, failed, content, since, now)
    ensures f == FlagsOf(old(x.row)) ==> FlagsOf(x.row) == FlagsAfter(UndeterminedState, f)
  {
    hide UndeterminedEffects, UndeterminedRow, FlagsOf, FlagsAfter, ConcludesOnce;
    var effects, round := DecideUndetermined(f, failed, hasSnapshot, content, since);
    UndeterminedOutcome(x.row, f, failed, hasSnapshot, content, since, now);
    UndeterminedLeavesFlags(x.row, failed, content, since, now);
    x.Execute(effects, now, |effects|);
    assert effects[..|effects|] == effects;
  }

  method HandleLeaderTimeout(x: EffectExecutor, f: Flags, hasSnapshot: bool, now: int)
    modifies x
    ensures x.row == LeaderTimeoutRow(old(x.row), f, now)
    ensures f == FlagsOf(old(x.row)) ==> FlagsOf(x.row) == FlagsAfter(LeaderTimeoutState, f)
  {
    hide LeaderTimeoutEffects, LeaderTimeoutRow, FlagsOf, FlagsAfter, ConcludesOnce;
    var effects, round := DecideLeaderTimeout(f, hasSnapshot);
    LeaderTimeoutOutcome(x.row, f, hasSnapshot, now);
    LeaderTimeoutLeavesFlags(x.row, now);
    x.Execute(effects, now, |effects|);
    assert effects[..|effects|] == effects;
  }

  method HandleValidatorsTimeout(x: EffectExecutor, f: Flags, failed: nat, hasSnapshot: bool, content: nat, now: int)
    modifies x
    ensures x.row == ValidatorsTimeoutRow(old(x.row), f, failed, content, now)
    ensures f == FlagsOf(old(x.row)) ==> FlagsOf(x.row) == FlagsAfter(ValidatorsTimeoutState, f)
  {
    hide ValidatorsTimeoutEffects, ValidatorsTimeoutRow, FlagsOf, FlagsAfter, ConcludesOnce;
    var effects, round := DecideValidatorsTimeout(f, failed, hasSnapshot, content);
    ValidatorsTimeoutOutcome(x.row, f, failed, hasSnapshot, content, now);
    ValidatorsTimeoutLeavesFlags(x.row, failed, content, now);
    x.Execute(effects, now, |effects|);
    assert effects[..|effects|] == effects;
  }

  /** The contract is written between the two lists; both run before the driver gets its value. */
  method HandleAccepted(x: EffectExecutor, f: Flags, failed: nat, content: nat, hasSnapshot: bool, success: bool,
                        deploy: bool, now: int)
    returns (result: Option<ConsensusRound>)
    modifies x
    ensures result == AcceptedReturn(f) && x.row == AcceptedRow(old(x.row), f, failed, content, now)
    ensures f == FlagsOf(old(x.row)) ==> FlagsOf(x.row) == FlagsAfter(AcceptedState, f)
  {
    hide AcceptedPre, AcceptedPost, AcceptedRow, FlagsOf, FlagsAfter, AcceptedReturn, ConcludesOnce;
    var pre, post, round;
    pre, post, round, result := DecideAccepted(f, failed, content, hasSnapshot, success, deploy);
    AcceptedOutcome(x.row, f, failed, content, ContractWrites(hasSnapshot, success, deploy), now);
    AcceptedLeavesFlags(x.row, failed, content, now);
    x.Execute(pre, now, |pre|);
    x.Execute(post, now, |post|);
    assert pre[..|pre|] == pre && post[..|post|] == post;
  }
}
