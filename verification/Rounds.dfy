/** What the consensus states decide: which round they record, what they return, which flags stay. */
module Rounds {
  import opened Wrappers
  import opened Rows
  import opened Voting
  import opened History

  datatype State =
    | PendingState | ProposingState | CommittingState | RevealingState
    | AcceptedState | UndeterminedState | LeaderTimeoutState | ValidatorsTimeoutState

  predicate Final(state: State) {
    state.AcceptedState? || state.UndeterminedState? || state.LeaderTimeoutState? || state.ValidatorsTimeoutState?
  }

  /** The kinds of appeal a row is under. */
  datatype Flags = Flags(appealed: bool, validatorsTimeout: bool, undetermined: bool, leaderTimeout: bool)

  function FlagsOf(row: Row): Flags {
    Flags(row.appeal.appealed, row.appeal.validatorsTimeout, row.appeal.undetermined, row.appeal.leaderTimeout)
  }

  /** The round that a final state records. */
  function RoundOf(state: State, f: Flags): ConsensusRound
    requires Final(state)
  {
    if state.UndeterminedState? then (if f.undetermined then LeaderAppealFailed else RoundUndetermined)
    else if f.undetermined then LeaderAppealSuccessful
    else match state
      case LeaderTimeoutState => if f.leaderTimeout then LeaderTimeoutAppealFailed else RoundLeaderTimeout
      case ValidatorsTimeoutState =>
        if f.validatorsTimeout then ValidatorsTimeoutAppealFailed else RoundValidatorsTimeout
      case _ => if f.appealed then ValidatorAppealFailed else RoundAccepted
  }

  function RotationRound(undetermined: bool): ConsensusRound {
    if undetermined then LeaderRotationAppeal else LeaderRotation
  }

  /** The record of a final state; a failed appeal of the validators names no leader. */
  function TerminalEntry(state: State, f: Flags, leader: Address): (r: Item)
    requires Final(state)
    ensures IsCompleted(r)
  {
    var round := RoundOf(state, f);
    var nameless := round.ValidatorAppealFailed? || round.ValidatorsTimeoutAppealFailed?;
    Entry(Some(round), if nameless then None else Some(leader))
  }

  /** What accepting returns to the driver. */
  function AcceptedReturn(f: Flags): Option<ConsensusRound> {
    if f.undetermined then Some(LeaderAppealSuccessful)
    else if f.leaderTimeout then Some(LeaderTimeoutAppealSuccessful)
    else if f.appealed then None
    else Some(RoundAccepted)
  }

  /** The flags a final state leaves in the row. */
  function FlagsAfter(state: State, f: Flags): Flags
    requires Final(state)
  {
    match state
    case AcceptedState =>
      Flags(f.appealed && f.undetermined, f.validatorsTimeout, false, f.leaderTimeout && f.undetermined)
    case ValidatorsTimeoutState => Flags(f.appealed, f.validatorsTimeout, false, false)
    case _ => Flags(f.appealed, f.validatorsTimeout, false, f.leaderTimeout)
  }

  datatype Revealed = ToAccepted | ToValidatorsTimeout | ToUndetermined | ToRotation | AppealSuccessful

  function RevealingOutcome(result: ConsensusResult, f: Flags, rotations: nat, config: int): Revealed {
    if f.appealed || f.validatorsTimeout then
      if f.appealed && result.MajorityAgree? then ToAccepted
      else if f.validatorsTimeout && result.TimedOut? then ToValidatorsTimeout
      else AppealSuccessful
    else if result.MajorityAgree? then ToAccepted
    else if result.TimedOut? then ToValidatorsTimeout
    else if rotations >= config then ToUndetermined
    else ToRotation
  }

  // ---- What the tables say, round by round and vote by vote ------------------------------------

  /** Which final state under which appeal each round records; only an appeal of the validators that failed
      names no leader. */
  lemma WhatIsRecorded(state: State, f: Flags, leader: Address)
    requires Final(state)
    ensures var entry := TerminalEntry(state, f, leader);
            && entry.Entry?
            && entry.leader == (if entry.round in {Some(ValidatorAppealFailed), Some(ValidatorsTimeoutAppealFailed)}
                                then None else Some(leader))
            && (entry.round == Some(RoundAccepted) <==> state.AcceptedState? && !f.undetermined && !f.appealed)
            && (entry.round == Some(ValidatorAppealFailed) <==> state.AcceptedState? && !f.undetermined && f.appealed)
            && (entry.round == Some(RoundUndetermined) <==> state.UndeterminedState? && !f.undetermined)
            && (entry.round == Some(LeaderAppealFailed) <==> state.UndeterminedState? && f.undetermined)
            && (entry.round == Some(LeaderAppealSuccessful) <==> !state.UndeterminedState? && f.undetermined)
            && (entry.round == Some(RoundLeaderTimeout) <==>
                  state.LeaderTimeoutState? && !f.undetermined && !f.leaderTimeout)
            && (entry.round == Some(LeaderTimeoutAppealFailed) <==>
                  state.LeaderTimeoutState? && !f.undetermined && f.leaderTimeout)
            && (entry.round == Some(RoundValidatorsTimeout) <==>
                  state.ValidatorsTimeoutState? && !f.undetermined && !f.validatorsTimeout)
            && (entry.round == Some(ValidatorsTimeoutAppealFailed) <==>
                  state.ValidatorsTimeoutState? && !f.undetermined && f.validatorsTimeout)
  {
  }

  /** When accepting returns each round, and what is left of the appeal flags. */
  lemma WhatIsReturned(f: Flags)
    ensures var r := AcceptedReturn(f);
            && (r == Some(LeaderAppealSuccessful) <==> f.undetermined)
            && (r == Some(LeaderTimeoutAppealSuccessful) <==> !f.undetermined && f.leaderTimeout)
            && (r == None <==> !f.undetermined && !f.leaderTimeout && f.appealed)
            && (r == Some(RoundAccepted) <==> !f.undetermined && !f.leaderTimeout && !f.appealed)
  {
  }

  lemma WhatFlagsAreLeft(state: State, f: Flags)
    requires Final(state)
    ensures var g := FlagsAfter(state, f);
            && !g.undetermined && g.validatorsTimeout == f.validatorsTimeout
            && (g.appealed <==> f.appealed && (state.AcceptedState? ==> f.undetermined))
            && (g.leaderTimeout <==>
                  f.leaderTimeout && !state.ValidatorsTimeoutState? && (state.AcceptedState? ==> f.undetermined))
  {
  }

  /** What the votes of a round lead to, in numbers: agreement and the timeout need more than half of all
      votes; under an appeal of the validators only the old answer makes the appeal fail. */
  lemma WhatVotesLeadTo(votes: seq<Vote>, f: Flags, rotations: nat, config: int)
    ensures var next := RevealingOutcome(DetermineConsensus(votes), f, rotations, config);
            var agreed, late := 2 * Count(Agree, votes) > |votes|, 2 * Count(Timeout, votes) > |votes|;
            if f.appealed || f.validatorsTimeout then
              && (next.ToAccepted? <==> f.appealed && agreed)
              && (next.ToValidatorsTimeout? <==> f.validatorsTimeout && late)
              && (next.AppealSuccessful? <==> !(f.appealed && agreed) && !(f.validatorsTimeout && late))
            else
              && (next.ToAccepted? <==> agreed)
              && (next.ToValidatorsTimeout? <==> late)
              && (next.ToUndetermined? <==> !agreed && !late && rotations >= config)
              && (next.ToRotation? <==> !agreed && !late && rotations < config)
  {
    SupportIsDisjoint(votes);
  }
}
