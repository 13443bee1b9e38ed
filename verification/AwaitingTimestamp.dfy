/** A row that waits for finalization, or is under appeal, always has the timestamp that the finality
    window starts from: at every moment, after every crash, whatever the workers interleave. */
module AwaitingTimestamp {
  import opened Wrappers
  import opened Rows
  import opened Voting
  import opened Decisions
  import opened Rounds

  predicate AnyFlag(f: Flags) {
    f.appealed || f.validatorsTimeout || f.undetermined || f.leaderTimeout
  }

  predicate Stamped(row: Row) {
    FinalizationEligible(row.status) || AnyFlag(FlagsOf(row)) ==> row.awaitingSince.Some?
  }

  // ---- Effect lists and their prefixes --------------------------------------------------------

  predicate NeedsStamp(e: Effect) {
    || (e.SetStatus? && FinalizationEligible(e.status))
    || e == SetAppealed(true) || e == SetUndetermined(true)
    || e == SetLeaderTimeout(true) || e == SetValidatorsTimeout(true)
  }

  /** Nothing that needs the timestamp comes before the effect that sets it. */
  predicate StampsFirst(effects: seq<Effect>, stamped: bool) {
    forall i :: 0 <= i < |effects| && NeedsStamp(effects[i]) ==> stamped || SetAwaiting in effects[..i]
  }

  predicate Harmless(effects: seq<Effect>) {
    forall e :: e in effects ==> !NeedsStamp(e)
  }

  /** Every prefix of a list that stamps first leaves the row stamped, and no list takes a stamp away. */
  lemma {:induction false} PrefixKeepsStamped(row: Row, effects: seq<Effect>, stop: nat, now: int)
    requires Stamped(row) && StampsFirst(effects, row.awaitingSince.Some?) && stop <= |effects|
    ensures var end := ApplyAll(row, effects[..stop], now);
            && Stamped(end)
            && (end.awaitingSince.Some? <==> row.awaitingSince.Some? || SetAwaiting in effects[..stop])
  {
    if stop > 0 {
      PrefixKeepsStamped(row, effects, stop - 1, now);
      assert effects[..stop][..stop - 1] == effects[..stop - 1];
      assert effects[..stop] == effects[..stop - 1] + [effects[stop - 1]];
      OneKeepsStamped(ApplyAll(row, effects[..stop - 1], now), effects[stop - 1], now);
    }
  }

  lemma OneKeepsStamped(row: Row, e: Effect, now: int)
    requires Stamped(row) && (NeedsStamp(e) ==> row.awaitingSince.Some?)
    ensures Stamped(Apply(row, e, now))
    ensures Apply(row, e, now).awaitingSince.Some? <==> row.awaitingSince.Some? || e == SetAwaiting
  {
  }

  lemma StatusAfterStamp(before: seq<Effect>, status: Status, after: seq<Effect>, stamped: bool)
    requires Harmless(before) && Harmless(after) && (stamped || SetAwaiting in before)
    ensures StampsFirst(before + [SetStatus(status)] + after, stamped)
  {
    var all := before + [SetStatus(status)] + after;
    forall i | 0 <= i < |all| && NeedsStamp(all[i]) ensures stamped || SetAwaiting in all[..i] {
      if i < |before| {
        assert before[i] in before;
      } else if i > |before| {
        assert after[i - |before| - 1] in after;
      } else {
        assert all[..i] == before;
      }
    }
  }

  lemma HarmlessStampsFirst(effects: seq<Effect>, stamped: bool)
    requires Harmless(effects)
    ensures StampsFirst(effects, stamped)
  {
  }

  // ---- What the states write -------------------------------------------------------------------

  /** A handler of the consensus states, with the flags its worker has in memory. */
  datatype Handler =
    | OnPending(f: Flags, hasData: bool)
    | OnProposing(f: Flags, activate: bool)
    | OnProposed(f: Flags, timedOut: bool, leaderOnly: bool, content: nat)
    | OnCommitting(f: Flags)
    | OnRevealing(f: Flags, result: ConsensusResult, rotations: nat, config: int, content: nat, voters: nat)
    | OnAccepted(f: Flags, failed: nat, content: nat, writes: nat)
    | OnUndetermined(f: Flags, failed: nat, hasSnapshot: bool, content: nat, since: Option<int>)
    | OnLeaderTimeout(f: Flags, hasSnapshot: bool)
    | OnValidatorsTimeout(f: Flags, failed: nat, hasSnapshot: bool, content: nat)
    | OnFinalizing(f: Flags, finalizeContract: bool)
    | OnLeaderAppeal(f: Flags)                       // the drivers of the appeals, before the first state
    | OnLeaderTimeoutAppeal(f: Flags)
    | OnValidatorAppeal(f: Flags, timeout: bool, noneLeft: bool)
    | OnAppealSuccessful(f: Flags)                   // back to pending after a successful appeal
    | OnPoorTransfer(f: Flags)                       // a transfer the sender cannot pay
    | OnTransfer(f: Flags)

  function Writes(h: Handler): seq<Effect> {
    match h
    case OnPending(f, hasData) =>
      if f.appealed || f.validatorsTimeout then PENDING_PRE + [SetAppealed(false)] + [SetValidatorsTimeout(false)]
      else if f.undetermined && !hasData then PENDING_PRE + [SetUndetermined(false)]
      else PENDING_PRE
    case OnProposing(f, activate) => ProposingPre(activate)
    case OnProposed(f, timedOut, leaderOnly, content) => PostProposalEffects(timedOut, leaderOnly, f, content)
    case OnCommitting(f) => COMMITTING_PRE + [Outside]
    case OnRevealing(f, result, rotations, config, content, voters) =>
      var clears := f.leaderTimeout && RevealingOutcome(result, f, rotations, config) in {ToUndetermined, ToRotation};
      (if clears then [SetLeaderTimeout(false)] else [])
        + RevealingEffects(result, f, rotations, config, content, voters)
    case OnAccepted(f, failed, content, writes) => AcceptedPre(f, failed, content, writes) + AcceptedPost(f)
    case OnUndetermined(f, failed, hasSnapshot, content, since) =>
      UndeterminedEffects(f, failed, hasSnapshot, content, since)
    case OnLeaderTimeout(f, hasSnapshot) => LeaderTimeoutEffects(f, hasSnapshot)
    case OnValidatorsTimeout(f, failed, hasSnapshot, content) =>
      ValidatorsTimeoutEffects(f, failed, hasSnapshot, content)
    case OnFinalizing(f, finalizeContract) => FinalizingPre(finalizeContract) + FINALIZING_POST
    case OnLeaderAppeal(f) => [SetAppealed(false)] + [SetUndetermined(true)]
    case OnLeaderTimeoutAppeal(f) =>
      (if f.undetermined then [SetAppealed(false)] + [SetUndetermined(false)] else [SetAppealed(false)])
        + [SetLeaderTimeout(true)]
    case OnValidatorAppeal(f, timeout, noneLeft) =>
      if noneLeft then [SetAppealed(false)] + [AddProcessingTime]
      else if timeout then [SetAppealed(false)] + [SetValidatorsTimeout(true)]
      else []
    case OnAppealSuccessful(f) => [Outside] + [SetStatus(Status.Pending)]
    case OnPoorTransfer(f) => [SetAwaiting] + [SetStatus(Status.Undetermined)]
    case OnTransfer(f) => [SetStatus(Status.Finalized)]
  }

  /** What the drivers and the pending state leave in the row, field by field: the drivers turn the general
      appeal into its kind, and pending drops the flags it has dealt with. */
  lemma DriverFields(row: Row, h: Handler, now: int)
    ensures h.OnLeaderAppeal? ==>
      ApplyAll(row, Writes(h), now) == row.(appeal := row.appeal.(appealed := false, undetermined := true))
    ensures h.OnLeaderTimeoutAppeal? ==>
      ApplyAll(row, Writes(h), now) == row.(appeal := row.appeal.(
        appealed := false, leaderTimeout := true, undetermined := row.appeal.undetermined && !h.f.undetermined))
    ensures h.OnValidatorAppeal? ==>
      ApplyAll(row, Writes(h), now) ==
        if h.noneLeft then row.(appeal := row.appeal.(appealed := false, processingTime := Extended(row, now)))
        else if h.timeout then row.(appeal := row.appeal.(appealed := false, validatorsTimeout := true))
        else row
    ensures h.OnPending? ==>
      var seen := row.(lastProgress := Some(now as real), hasHistory := true, rotationCount := 0);
      ApplyAll(row, Writes(h), now) ==
        if h.f.appealed || h.f.validatorsTimeout
        then seen.(appeal := seen.appeal.(appealed := false, validatorsTimeout := false))
        else if h.f.undetermined && !h.hasData then seen.(appeal := seen.appeal.(undetermined := false))
        else seen
  {
    hide ApplyAll, UndeterminedEffects, LeaderTimeoutEffects, ValidatorsTimeoutEffects, AcceptedPre, AcceptedPost;
    hide RevealingEffects, PostProposalEffects, ProposingPre, FinalizingPre;
    match h
    case OnLeaderAppeal(f) => TwoEffects(row, SetAppealed(false), SetUndetermined(true), now);
    case OnLeaderTimeoutAppeal(f) =>
      TwoEffects(row, SetAppealed(false), SetUndetermined(false), now);
      TwoEffects(row, SetAppealed(false), SetLeaderTimeout(true), now);
      Then(row, [SetAppealed(false)] + [SetUndetermined(false)], SetLeaderTimeout(true), now);
    case OnValidatorAppeal(f, timeout, noneLeft) =>
      TwoEffects(row, SetAppealed(false), AddProcessingTime, now);
      TwoEffects(row, SetAppealed(false), SetValidatorsTimeout(true), now);
      ApplyNothing(row, now);
    case OnPending(f, hasData) =>
      AnnouncementFields(row, false, false, now);
      Then(row, PENDING_PRE, SetAppealed(false), now);
      Then(row, PENDING_PRE + [SetAppealed(false)], SetValidatorsTimeout(false), now);
      Then(row, PENDING_PRE, SetUndetermined(false), now);
    case _ =>
  }

  /** The same for the rest of a successful appeal and for transfers. */
  lemma ClosingFields(row: Row, f: Flags, now: int)
    ensures ApplyAll(row, Writes(OnAppealSuccessful(f)), now) == row.(status := Status.Pending)
    ensures ApplyAll(row, Writes(OnPoorTransfer(f)), now) ==
            row.(awaitingSince := Some(now), status := Status.Undetermined)
    ensures ApplyAll(row, Writes(OnTransfer(f)), now) == row.(status := Status.Finalized)
  {
    TwoEffects(row, Outside, SetStatus(Status.Pending), now);
    TwoEffects(row, SetAwaiting, SetStatus(Status.Undetermined), now);
    TwoEffects(row, SetStatus(Status.Finalized), Outside, now);
  }

  /** The appeal drivers work on rows that were claimed as appealed. */
  predicate NeedsAppealed(h: Handler) {
    h.OnLeaderAppeal? || h.OnLeaderTimeoutAppeal? || h.OnValidatorAppeal?
  }

  /** The flags in memory once the handler is done: a driver refines the appeal, others only clear flags. */
  predicate MayRemember(h: Handler, g: Flags) {
    && (g.appealed ==> h.f.appealed)
    && (g.undetermined ==> h.f.undetermined || h.OnLeaderAppeal?)
    && (g.leaderTimeout ==> h.f.leaderTimeout || h.OnLeaderTimeoutAppeal?)
    && (g.validatorsTimeout ==> h.f.validatorsTimeout || h.OnValidatorAppeal?)
  }

  lemma {:induction false} PaddedIsHarmless(effects: seq<Effect>, n: nat)
    requires Harmless(effects)
    ensures Harmless(Padded(effects, n)) && forall e :: e in effects ==> e in Padded(effects, n)
  {
    if n > 0 {
      PaddedIsHarmless(effects, n - 1);
    }
  }

  lemma AcceptedStampsFirst(f: Flags, failed: nat, content: nat, writes: nat, stamped: bool)
    requires AnyFlag(f) ==> stamped
    ensures StampsFirst(AcceptedPre(f, failed, content, writes) + AcceptedPost(f), stamped)
  {
    var pre := AcceptedPre(f, failed, content, writes);
    var inner := AcceptedPre(f, failed, content, 0);
    PaddedIsHarmless(inner, writes);
    assert f.appealed ==> pre == inner;
    assert stamped || SetAwaiting in inner;
    var after := AcceptedPost(f)[1..];
    assert AcceptedPost(f) == [SetStatus(Status.Accepted)] + after;
    StatusAfterStamp(pre, Status.Accepted, after, stamped);
    assert pre + AcceptedPost(f) == pre + [SetStatus(Status.Accepted)] + after;
  }

  lemma UndeterminedStampsFirst(f: Flags, failed: nat, hasSnapshot: bool, content: nat, since: Option<int>,
                                stamped: bool)
    requires AnyFlag(f) ==> stamped
    ensures StampsFirst(UndeterminedEffects(f, failed, hasSnapshot, content, since), stamped)
  {
    var all := UndeterminedEffects(f, failed, hasSnapshot, content, since);
    var before := all[..|all| - 1];
    assert all == before + [SetStatus(Status.Undetermined)] + [];
    StatusAfterStamp(before, Status.Undetermined, [], stamped);
  }

  lemma LeaderTimeoutStampsFirst(f: Flags, hasSnapshot: bool, stamped: bool)
    requires AnyFlag(f) ==> stamped
    ensures StampsFirst(LeaderTimeoutEffects(f, hasSnapshot), stamped)
  {
    var all := LeaderTimeoutEffects(f, hasSnapshot);
    var before := all[..|all| - 2];
    assert before[if hasSnapshot then 1 else 2] == SetAwaiting || stamped;
    assert all == before + [SetStatus(Status.LeaderTimeout)] + [Outside];
    StatusAfterStamp(before, Status.LeaderTimeout, [Outside], stamped);
  }

  lemma ValidatorsTimeoutStampsFirst(f: Flags, failed: nat, hasSnapshot: bool, content: nat, stamped: bool)
    requires AnyFlag(f) ==> stamped
    ensures StampsFirst(ValidatorsTimeoutEffects(f, failed, hasSnapshot, content), stamped)
  {
    var full := ValidatorsTimeoutEffects(f, failed, true, content);
    var before := full[..|full| - 1];
    var after := if hasSnapshot then [] else [Outside];
    assert ValidatorsTimeoutEffects(f, failed, hasSnapshot, content) ==
           before + [SetStatus(Status.ValidatorsTimeout)] + after;
    StatusAfterStamp(before, Status.ValidatorsTimeout, after, stamped);
  }

  lemma RevealingIsHarmless(h: Handler)
    requires h.OnRevealing?
    ensures Harmless(Writes(h))
  {
    PaddedIsHarmless([AddTimestamp] + [SetStatus(Status.Revealing)], h.voters);
  }

  lemma OtherHandlersAreHarmless(h: Handler)
    requires h.OnPending? || h.OnProposing? || h.OnProposed? || h.OnCommitting? || h.OnFinalizing?
             || h.OnAppealSuccessful? || h.OnTransfer?
    ensures Harmless(Writes(h))
  {
  }

  lemma AppealDriversStampFirst(h: Handler)
    requires NeedsAppealed(h)
    ensures StampsFirst(Writes(h), true)
  {
  }

  lemma EveryHandlerStampsFirst(h: Handler, stamped: bool)
    requires AnyFlag(h.f) ==> stamped
    requires NeedsAppealed(h) ==> h.f.appealed
    ensures StampsFirst(Writes(h), stamped)
  {
    hide StampsFirst, Harmless, UndeterminedEffects, LeaderTimeoutEffects, ValidatorsTimeoutEffects, AcceptedPre,
         AcceptedPost, RevealingEffects;
    match h
    case OnAccepted(f, failed, content, writes) => AcceptedStampsFirst(f, failed, content, writes, stamped);
    case OnUndetermined(f, failed, hasSnapshot, content, since) =>
      UndeterminedStampsFirst(f, failed, hasSnapshot, content, since, stamped);
    case OnLeaderTimeout(f, hasSnapshot) => LeaderTimeoutStampsFirst(f, hasSnapshot, stamped);
    case OnValidatorsTimeout(f, failed, hasSnapshot, content) =>
      ValidatorsTimeoutStampsFirst(f, failed, hasSnapshot, content, stamped);
    case OnRevealing(f, result, rotations, config, content, voters) =>
      RevealingIsHarmless(h);
      HarmlessStampsFirst(Writes(h), stamped);
    case OnPoorTransfer(f) => PoorTransferStampsFirst(stamped);
    case OnLeaderAppeal(f) => AppealDriversStampFirst(h);
    case OnLeaderTimeoutAppeal(f) => AppealDriversStampFirst(h);
    case OnValidatorAppeal(f, timeout, noneLeft) => AppealDriversStampFirst(h);
    case _ =>
      OtherHandlersAreHarmless(h);
      HarmlessStampsFirst(Writes(h), stamped);
  }

  lemma PoorTransferStampsFirst(stamped: bool)
    ensures StampsFirst([SetAwaiting] + [SetStatus(Status.Undetermined)], stamped)
  {
    StatusAfterStamp([SetAwaiting], Status.Undetermined, [], stamped);
    assert [SetAwaiting] + [SetStatus(Status.Undetermined)] + [] == [SetAwaiting] + [SetStatus(Status.Undetermined)];
  }

  // ---- Any interleaving of any number of workers -----------------------------------------------

  /** One row and the flags that some worker has read from it, however long ago. */
  datatype World = World(row: Row, memories: set<Flags>)

  datatype Event =
    | Load                                                         // a worker reads the row
    | Handle(h: Handler, stop: nat, now: int, remembered: Flags) // and writes a list, or a prefix of it
    | UserAppeal(now: int)
    | AcceptWithError(now: int, content: nat)                      // contract not found, leader crashes at their cap
    | Plain(status: Status, credited: bool, blockedAt: Option<real>, worker: Option<WorkerId>, recoveryCount: nat,
      data: ConsensusData)

  predicate Enabled(w: World, e: Event) {
    match e
    case Load => true
    case Handle(h, stop, now, remembered) =>
      && h.f in w.memories && stop <= |Writes(h)| && (NeedsAppealed(h) ==> h.f.appealed)
      && MayRemember(h, remembered)
    case UserAppeal(now) => FinalizationEligible(w.row.status)
    case AcceptWithError(now, content) => true
    // claims, releases, resets, recovery, rollbacks, cancellations, credits, upgrades
    case Plain(status, credited, blockedAt, worker, recoveryCount, data) =>
      status == w.row.status || !FinalizationEligible(status)
  }

  function Step(w: World, e: Event): World
    requires Enabled(w, e)
  {
    match e
    case Load => World(w.row, w.memories + {FlagsOf(w.row)})
    case Handle(h, stop, now, remembered) => World(ApplyAll(w.row, Writes(h)[..stop], now), w.memories + {remembered})
    case UserAppeal(now) => World(w.row.(appeal := w.row.appeal.(appealed := true, since := Some(now))), w.memories)
    case AcceptWithError(now, content) =>
      World(w.row.(status := Status.Accepted, awaitingSince := Some(now), data := Agreed(content)), w.memories)
    case Plain(status, credited, blockedAt, worker, recoveryCount, data) =>
      World(w.row.(status := status, credited := credited, blockedAt := blockedAt, worker := worker,
                   recoveryCount := recoveryCount, data := data), w.memories)
  }

  predicate ValidRun(w: World, events: seq<Event>)
    decreases |events|
  {
    events == [] || (Enabled(w, events[0]) && ValidRun(Step(w, events[0]), events[1..]))
  }

  function Run(w: World, events: seq<Event>): World
    requires ValidRun(w, events)
    decreases |events|
  {
    if events == [] then w else Run(Step(w, events[0]), events[1..])
  }

  ghost predicate Sound(w: World) {
    Stamped(w.row) && (w.row.awaitingSince.None? ==> forall f :: f in w.memories ==> !AnyFlag(f))
  }

  lemma StepKeepsSound(w: World, e: Event)
    requires Sound(w) && Enabled(w, e)
    ensures Sound(Step(w, e))
    ensures w.row.awaitingSince.Some? ==> Step(w, e).row.awaitingSince.Some?
  {
    if e.Handle? {
      hide Writes, ApplyAll, StampsFirst;
      EveryHandlerStampsFirst(e.h, w.row.awaitingSince.Some?);
      PrefixKeepsStamped(w.row, Writes(e.h), e.stop, e.now);
    }
  }

  /** In every reachable state of every run, and after every crash inside an effect list, a row in a
      finalization-eligible status or with an appeal flag has its timestamp; once set it is never lost. */
  lemma {:induction false} AwaitingRowsAreStamped(w: World, events: seq<Event>)
    requires Sound(w) && ValidRun(w, events)
    ensures Sound(Run(w, events))
    ensures w.row.awaitingSince.Some? ==> Run(w, events).row.awaitingSince.Some?
    decreases |events|
  {
    if events != [] {
      StepKeepsSound(w, events[0]);
      AwaitingRowsAreStamped(Step(w, events[0]), events[1..]);
    }
  }

  /** A new row starts sound, so the branch of the finalization query for rows without a timestamp is
      never the one that applies. */
  lemma FreshRowsNeverStrand(row: Row, events: seq<Event>)
    requires row.status.Pending? && !AnyFlag(FlagsOf(row)) && ValidRun(World(row, {}), events)
    ensures var end := Run(World(row, {}), events).row;
            FinalizationEligible(end.status) ==> end.awaitingSince.Some?
  {
    AwaitingRowsAreStamped(World(row, {}), events);
  }
}
