/** The loops that drive a row through the consensus states, and when they meet a round they do not know. */
module Drivers {
  import opened Wrappers
  import opened Rows
  import opened Sequences
  import opened Voting
  import opened AppealCommittee
  import opened History
  import opened Rounds
  import opened RoundMachine
  import W = CommitWave

  /** An ordinary execution, the appeal of an undetermined row, the appeal of a leader timeout. */
  datatype Driver = Execution | LeaderAppeal | LeaderTimeoutAppeal

  datatype Finish = Finished(state: State) | DriverBroken(state: State) | Failed

  /** The only round a driver knows; it takes every other one for a state. */
  function ExpectedBy(driver: Driver): ConsensusRound {
    match driver
    case Execution => RoundAccepted
    case LeaderAppeal => LeaderAppealSuccessful
    case LeaderTimeoutAppeal => LeaderTimeoutAppealSuccessful
  }

  function FinishOf(driver: Driver, state: State, next: Next): Finish {
    match next
    case Return(round) => if round == ExpectedBy(driver) then Finished(state) else DriverBroken(state)
    case Stop => Finished(state)
    case _ => Failed
  }

  ghost predicate Breaks(s: Setup, v: Saved, driver: Driver, script: seq<Choices>) {
    && PossibleRun(s, Begin(v), PendingState, script)
    && var e := RunScript(s, Begin(v), PendingState, script);
       FinishOf(driver, e.state, e.next).DriverBroken?
  }

  /** Some draws, leaders and votes break the driver on this row. */
  ghost predicate CanBreak(s: Setup, v: Saved, driver: Driver) {
    exists script :: Breaks(s, v, driver, script)
  }

  /** A run breaks its driver exactly when it accepts with another round than the driver's own. */
  lemma BreaksOnAcceptance(s: Setup, v: Saved, driver: Driver, script: seq<Choices>)
    requires Distinct(s.nodes) && Distinct(v.timeoutValidators) && PossibleRun(s, Begin(v), PendingState, script)
    ensures var e := RunScript(s, Begin(v), PendingState, script);
            var f := Flags(false, false, UndeterminedAfterPending(v), v.flags.leaderTimeout && e.m.rotationCount == 0);
            Breaks(s, v, driver, script) <==>
              (e.state.AcceptedState? && e.next.Return? && AcceptedReturn(f) != Some(ExpectedBy(driver)))
  {
    hide PossibleRun, At, Counted, Recorded;
    if script != [] {
      RunIsOver(s, v, script);
    }
  }

  // ---- Scripts that reach acceptance --------------------------------------------------------------

  /** Some draw gives the row a committee with somebody in it. */
  predicate Startable(s: Setup, v: Saved) {
    s.nodes != [] &&
    if v.flags.appealed || v.flags.validatorsTimeout then
      if v.data.Some? then Current(s.Registered(), v.data.value.validators) != [] else s.initial > 0
    else if v.flags.undetermined then
      if v.data.Some? then Unused(s.Registered(), v.data.value.validators, Leaders(v)) != {} else s.initial > 0
    else if v.flags.leaderTimeout then HasAppealCapacity(|v.timeoutValidators|, |Leaders(v)|, |s.Registered()|)
    else s.initial > 0 || (v.data.Some? && Current(s.Registered(), AllStored(v.data.value)) != [])
  }

  lemma NodesAreRegistered(s: Setup)
    requires s.nodes != []
    ensures |s.Registered()| > 0
  {
    assert s.nodes[0] in s.Registered();
  }

  lemma SomeCommittee(s: Setup, v: Saved) returns (drawn: seq<Address>)
    requires Startable(s, v)
    ensures DrawFits(s, v, drawn) && Committee(s, v, drawn).Some? && Committee(s, v, drawn).value != []
  {
    hide Current, LeadersOf, Unused;
    NodesAreRegistered(s);
    if !v.flags.appealed && !v.flags.validatorsTimeout && v.flags.undetermined && v.data.Some? {
      var current := Current(s.Registered(), v.data.value.validators);
      drawn := SomeDraw(Unused(s.Registered(), v.data.value.validators, Leaders(v)), |current| + 3);
      assert |drawn| > 0;
    } else if !v.flags.appealed && !v.flags.validatorsTimeout && !v.flags.undetermined && v.flags.leaderTimeout {
      SomeoneIsLeft(s.Registered(), v.timeoutValidators, Leaders(v));
      drawn := SomeDraw(s.Registered() - Elements(v.timeoutValidators) - Leaders(v), 1);
      assert |drawn| > 0;
    } else {
      drawn := SomeDraw(s.Registered(), s.initial);
    }
  }

  /** Without a committee no run gets beyond proposing. */
  lemma NeedsCommittee(s: Setup, v: Saved, drawn: seq<Address>)
    requires DrawFits(s, v, drawn) && s.nodes != []
    requires Committee(s, v, drawn).Some? && Committee(s, v, drawn).value != []
    ensures Startable(s, v)
  {
    hide Current, LeadersOf;
  }

  function Nothing(): Choices {
    Choices([], [], [], [], false)
  }

  /** The first of the committee proposes or, after a fatal error of the first, the second. */
  lemma Propose(s: Setup, m: Machine, skip: bool) returns (c: Choices)
    requires m.involved != [] && (skip ==> s.mode.Normal? && |m.involved| > 1)
    ensures Possible(s, m, ProposingState, c) && c.order == m.involved
    ensures var o := Step(s, m, ProposingState, c);
            && o.next == Go(if s.mode.LeaderOnly? then AcceptedState else CommittingState)
            && o.m.leader == m.involved[if skip then 1 else 0]
            && o.m.remaining == (if s.mode.Normal? then m.involved[if skip then 2 else 1..] else [])
            && o.m.saved == m.saved.(timeoutValidators := []) && o.m.rotationCount == m.rotationCount
  {
    var runs := seq(W.MAX_IDLE_REPLACEMENTS + 1, i => if skip && i == 0 then FatalError else LeaderReceipt);
    c := Nothing().(order := m.involved, runs := runs);
    if skip {
      var rest := m.involved[1..];
      assert InTurn(m.involved[0], rest, runs, 0) == InTurn(rest[0], rest[1..], runs, 1);
      assert rest[1..] == m.involved[2..];
    }
  }

  /** The committee can agree, and it can disagree. */
  lemma OneVoice(s: Setup, m: Machine, vote: Vote) returns (c: Choices)
    requires vote.Agree? || vote.Disagree?
    ensures Possible(s, m, CommittingState, c)
    ensures var o := Step(s, m, CommittingState, c);
            && o.next == Go(RevealingState) && o.m == m.(votes := o.m.votes)
            && DetermineConsensus(W.VotesOf(o.m.votes)) == if vote.Agree? then MajorityAgree else MajorityDisagree
  {
    hide W.Run, W.ValidRun, DetermineConsensus;
    var wave := W.UnanimousWave(WaveOf(s, m), vote);
    c := Nothing().(wave := wave);
  }

  ghost predicate Accepts(s: Setup, m: Machine, state: State, script: seq<Choices>) {
    && PossibleRun(s, m, state, script)
    && var e := RunScript(s, m, state, script);
       && e.state == AcceptedState && e.next == FinalNext(AcceptedState, m.saved.flags)
       && e.m.rotationCount == m.rotationCount
  }

  lemma AcceptAfterVote(s: Setup, m: Machine) returns (script: seq<Choices>)
    requires !m.saved.flags.appealed && !m.saved.flags.validatorsTimeout
    ensures Accepts(s, m, CommittingState, script)
  {
    hide DetermineConsensus, TerminalEntry, CommittingStep, WaveFits;
    var commit := OneVoice(s, m, Agree);
    var revealed := Step(s, m, CommittingState, commit).m;
    LastOfScript(s, revealed, AcceptedState, Nothing());
    ScriptOnTop(s, revealed, RevealingState, Nothing(), [Nothing()]);
    script := [Nothing()] + [Nothing()];
    ScriptOnTop(s, m, CommittingState, commit, script);
    script := [commit] + script;
  }

  /** Any committee with somebody in it can accept at once. */
  lemma AcceptAtOnce(s: Setup, m: Machine) returns (script: seq<Choices>)
    requires m.involved != [] && !m.saved.flags.appealed && !m.saved.flags.validatorsTimeout
    ensures Accepts(s, m, ProposingState, script)
  {
    hide TerminalEntry, ProposingStep, CommittingStep, RevealingStep;
    var propose := Propose(s, m, false);
    var proposed := Step(s, m, ProposingState, propose).m;
    if s.mode.LeaderOnly? {
      LastOfScript(s, proposed, AcceptedState, Nothing());
      script := [Nothing()];
    } else {
      script := AcceptAfterVote(s, proposed);
    }
    ScriptOnTop(s, m, ProposingState, propose, script);
    script := [propose] + script;
  }

  lemma AcceptingRun(s: Setup, v: Saved) returns (script: seq<Choices>)
    requires Startable(s, v)
    ensures PossibleRun(s, Begin(v), PendingState, script)
    ensures var e := RunScript(s, Begin(v), PendingState, script);
            && e.state == AcceptedState && e.m.rotationCount == 0
            && var f := Flags(false, false, UndeterminedAfterPending(v), v.flags.leaderTimeout);
               e.next == FinalNext(AcceptedState, f)
  {
    hide Committee, DrawFits, DetermineConsensus, ProposingStep, CommittingStep, RevealingStep;
    var drawn := SomeCommittee(s, v.(rotations := 0));
    var c := Nothing().(drawn := drawn);
    assert DrawFits(s, v, drawn) by { RotationsDoNotMatter(s, v, drawn); }
    var m := Step(s, Begin(v), PendingState, c).m;
    script := AcceptAtOnce(s, m);
    ScriptOnTop(s, Begin(v), PendingState, c, script);
    script := [c] + script;
  }

  lemma RotationsDoNotMatter(s: Setup, v: Saved, drawn: seq<Address>)
    ensures DrawFits(s, v.(rotations := 0), drawn) == DrawFits(s, v, drawn)
    ensures Startable(s, v.(rotations := 0)) == Startable(s, v)
    ensures Committee(s, v.(rotations := 0), drawn) == Committee(s, v, drawn)
  {
  }

  lemma AcceptedNeedsCommittee(s: Setup, v: Saved, script: seq<Choices>)
    requires PossibleRun(s, Begin(v), PendingState, script)
    requires RunScript(s, Begin(v), PendingState, script).state.AcceptedState?
    ensures Startable(s, v)
  {
    hide Committee, DrawFits, DetermineConsensus, Startable;
    FirstOfRun(s, Begin(v), PendingState, script);
    var o := Step(s, Begin(v), PendingState, script[0]);
    RotationsDoNotMatter(s, v, script[0].drawn);
    var rest := script[1..];
    FirstOfRun(s, o.m, ProposingState, rest);
    assert rest[0].order != [];
    assert o.m.involved != [];
    NeedsCommittee(s, v, script[0].drawn);
  }

  // ---- When the drivers break ----------------------------------------------------------------------

  /** An ordinary execution can break exactly when a flag of an appeal survives in the row. */
  lemma ExecutionCanBreakIff(s: Setup, v: Saved)
    requires Distinct(s.nodes) && Distinct(v.timeoutValidators)
    ensures CanBreak(s, v, Execution) <==> Startable(s, v) && (UndeterminedAfterPending(v) || v.flags.leaderTimeout)
  {
    hide PossibleRun, RunScript, Startable, UndeterminedAfterPending;
    if Startable(s, v) && (UndeterminedAfterPending(v) || v.flags.leaderTimeout) {
      var script := AcceptingRun(s, v);
      assert Breaks(s, v, Execution, script);
    }
    if script :| Breaks(s, v, Execution, script) {
      BreaksOnAcceptance(s, v, Execution, script);
      AcceptedNeedsCommittee(s, v, script);
    }
  }

  /** The appeal of an undetermined row would break exactly if it started without its consensus data. */
  lemma LeaderAppealCanBreakIff(s: Setup, v: Saved)
    requires Distinct(s.nodes) && Distinct(v.timeoutValidators)
    ensures CanBreak(s, v, LeaderAppeal) <==> Startable(s, v) && !UndeterminedAfterPending(v)
  {
    hide PossibleRun, RunScript, Startable, UndeterminedAfterPending;
    if Startable(s, v) && !UndeterminedAfterPending(v) {
      var script := AcceptingRun(s, v);
      assert Breaks(s, v, LeaderAppeal, script);
    }
    if script :| Breaks(s, v, LeaderAppeal, script) {
      BreaksOnAcceptance(s, v, LeaderAppeal, script);
      AcceptedNeedsCommittee(s, v, script);
    }
  }

  /** The driver reads the validators of the consensus data before it starts, so its row has the data, and
      then no draw, leader or vote breaks it. */
  lemma LeaderAppealNeverBreaks(s: Setup, v: Saved)
    requires Distinct(s.nodes) && Distinct(v.timeoutValidators) && v.data.Some? && v.flags.undetermined
    ensures !CanBreak(s, v, LeaderAppeal)
  {
    LeaderAppealCanBreakIff(s, v);
  }

  /** The old leader counts as used and nobody may lead twice, so the first committee must leave a node. */
  predicate CanRotate(s: Setup, leaders: nat) {
    s.config.Some? && s.config.value > 0 && !s.mode.LeaderOnly? && leaders + 1 < |s.Registered()|
  }

  /** What has to hold for the rotations so far, and for the next one, to have had room. */
  ghost predicate Roomy(s: Setup, m: Machine, state: State, leaders: set<Address>) {
    && (m.rotationCount > 0 ==> CanRotate(s, |leaders|))
    && (state.CommittingState? || state.RevealingState? ==> !s.mode.LeaderOnly?)
    && (m.rotationCount == 0 ==>
          forall a :: a in leaders && (if state.ProposingState? then a in m.involved else a == m.leader) ==>
            |leaders| + 1 < |s.Registered()|)
  }

  lemma RotatingIsRoomy(s: Setup, m: Machine, c: Choices, base: seq<Item>, u: bool, l: bool)
    requires At(s, m, RevealingState, base, u, l) && Possible(s, m, RevealingState, c)
    requires Roomy(s, m, RevealingState, LeadersOf(base)) && RevealedNext(s, m) == Go(ProposingState)
    ensures CanRotate(s, |LeadersOf(base)|)
  {
    hide DetermineConsensus, LeadersOf, Distinct, Elements;
    RotatingKeeps(s, m, c, base, u, l);
    if m.rotationCount == 0 {
      assert RotationEntries(m.receipts[..0], u) == [];
      assert m.saved.history == base;
      var leaders := LeadersOf(base);
      assert m.leader !in leaders ==> |leaders + {m.leader}| == |leaders| + 1;
    }
  }

  lemma StepKeepsRoomy(s: Setup, m: Machine, state: State, c: Choices, base: seq<Item>, u: bool, l: bool)
    requires At(s, m, state, base, u, l) && Possible(s, m, state, c) && Roomy(s, m, state, LeadersOf(base))
    ensures var o := Step(s, m, state, c);
            && (o.next.Go? ==> Roomy(s, o.m, o.next.state, LeadersOf(base)))
            && (o.m.rotationCount > 0 ==> CanRotate(s, |LeadersOf(base)|))
  {
    hide DetermineConsensus, LeadersOf, Distinct, Elements, RotationEntries, InTurn, TerminalEntry, CanRotate;
    match state
    case ProposingState =>
      ProposingKeeps(s, m, c, base, u, l);
      var o := Step(s, m, state, c);
      if o.next.Go? {
        MemberIsElement([o.m.leader] + o.m.remaining, o.m.leader);
        MemberIsElement(m.involved, o.m.leader);
      }
    case RevealingState =>
      RevealingKeeps(s, m, c, base, u, l);
      if RevealedNext(s, m) == Go(ProposingState) {
        RotatingIsRoomy(s, m, c, base, u, l);
      }
    case _ =>
  }

  lemma {:induction false} RunKeepsRoomy(s: Setup, m: Machine, state: State, script: seq<Choices>, base: seq<Item>,
                                         u: bool, l: bool)
    requires At(s, m, state, base, u, l) && PossibleRun(s, m, state, script) && Roomy(s, m, state, LeadersOf(base))
    ensures RunScript(s, m, state, script).m.rotationCount > 0 ==> CanRotate(s, |LeadersOf(base)|)
    decreases |script|
  {
    hide At, LeadersOf, CanRotate, Step, Possible, PossibleRun, RunScript;
    if script == [] {
      EmptyScript(s, m, state);
    } else {
      FirstOfRun(s, m, state, script);
      StepKeepsRoomy(s, m, state, script[0], base, u, l);
      StepKeepsAt(s, m, state, script[0], base, u, l);
      var o := Step(s, m, state, script[0]);
      if o.next.Go? {
        RunKeepsRoomy(s, o.m, o.next.state, script[1..], base, u, l);
      }
    }
  }

  lemma EmptyScript(s: Setup, m: Machine, state: State)
    ensures PossibleRun(s, m, state, []) && RunScript(s, m, state, []) == End(m, state, Go(state))
  {
  }

  /** A run of a leader-timeout appeal rotates only if the settings and the number of nodes let it. */
  lemma RotatedRunHadRoom(s: Setup, v: Saved, script: seq<Choices>)
    requires Distinct(s.nodes) && Distinct(v.timeoutValidators) && v.flags == Flags(false, false, false, true)
    requires PossibleRun(s, Begin(v), PendingState, script)
    requires RunScript(s, Begin(v), PendingState, script).m.rotationCount > 0
    ensures HasAppealCapacity(|v.timeoutValidators|, |Leaders(v)|, |s.Registered()|) && CanRotate(s, |Leaders(v)|)
  {
    hide LeadersOf, CanRotate, PossibleRun, RunScript, At, Distinct;
    if script == [] {
      EmptyScript(s, Begin(v), PendingState);
    } else {
      FirstOfRun(s, Begin(v), PendingState, script);
      PendingKeeps(s, v, script[0].drawn);
      var o := Step(s, Begin(v), PendingState, script[0]);
      if o.next.Go? {
        CheckedAppealHasCommittee(s, v, script[0].drawn);
        RunKeepsRoomy(s, o.m, ProposingState, script[1..], v.history, false, true);
      }
    }
  }

  lemma TimeoutCommittee(s: Setup, v: Saved) returns (c: Choices)
    requires v.flags == Flags(false, false, false, true)
    requires HasAppealCapacity(|v.timeoutValidators|, |Leaders(v)|, |s.Registered()|)
    ensures Possible(s, Begin(v), PendingState, c)
    ensures var o := Step(s, Begin(v), PendingState, c);
            && o.next == Go(ProposingState)
            && o.m.saved == v.(rotations := 0) && o.m.rotationCount == 0
            && |o.m.involved| == |v.timeoutValidators| + 1
  {
    hide LeadersOf;
    SomeoneIsLeft(s.Registered(), v.timeoutValidators, Leaders(v));
    var drawn := SomeDraw(s.Registered() - Elements(v.timeoutValidators) - Leaders(v), 1);
    c := Nothing().(drawn := drawn);
    CheckedAppealHasCommittee(s, v, drawn);
    OneIsDrawn(s.Registered() - Elements(v.timeoutValidators) - Leaders(v), drawn);
  }

  /** The committee rejects and gets another leader, in a run that had not rotated. */
  lemma RotateOnce(s: Setup, m: Machine) returns (c: Choices, again: Choices)
    requires m.rotationCount == 0 && CanRotate(s, |Leaders(m.saved)|) && Room(s, m)
    requires !m.saved.flags.appealed && !m.saved.flags.validatorsTimeout && !m.saved.flags.undetermined
    ensures Possible(s, m, CommittingState, c) && Step(s, m, CommittingState, c).next == Go(RevealingState)
    ensures var revealing := Step(s, m, CommittingState, c).m;
            && Possible(s, revealing, RevealingState, again)
            && var o := Step(s, revealing, RevealingState, again);
               && o.next == Go(ProposingState) && o.m.rotationCount == 1 && o.m.involved != []
               && o.m.saved.flags == Flags(false, false, false, false)
  {
    hide DetermineConsensus, LeadersOf, CommittingStep, WaveFits;
    c := OneVoice(s, m, Disagree);
    var used := Leaders(m.saved) + {m.leader};
    SomeoneIsLeft(s.Registered(), m.remaining, used);
    var drawn := SomeDraw(s.Registered() - Elements(m.remaining) - used, 1);
    OneIsDrawn(s.Registered() - Elements(m.remaining) - used, drawn);
    again := Nothing().(drawn := drawn);
  }

  /** A leader of the old committee proposes, if there is one: that leaves room for another leader. */
  lemma ProposeWithRoom(s: Setup, v: Saved, m: Machine) returns (c: Choices)
    requires HasAppealCapacity(|v.timeoutValidators|, |Leaders(v)|, |s.Registered()|) && CanRotate(s, |Leaders(v)|)
    requires m.saved == v.(rotations := 0) && m.rotationCount == 0 && |m.involved| == |v.timeoutValidators| + 1
    ensures Possible(s, m, ProposingState, c)
    ensures var o := Step(s, m, ProposingState, c);
            && o.next == Go(CommittingState) && Room(s, o.m) && o.m.rotationCount == 0
            && o.m.saved.flags == v.flags && Leaders(o.m.saved) == Leaders(v)
  {
    hide LeadersOf, ProposingStep, Elements;
    c := Propose(s, m, s.mode.Normal? && v.timeoutValidators != []);
    var o := Step(s, m, ProposingState, c);
    assert |Leaders(v) + {o.m.leader}| <= |Leaders(v)| + 1;
  }

  lemma BreakingScript(s: Setup, v: Saved) returns (script: seq<Choices>)
    requires v.flags == Flags(false, false, false, true)
    requires HasAppealCapacity(|v.timeoutValidators|, |Leaders(v)|, |s.Registered()|) && CanRotate(s, |Leaders(v)|)
    ensures Breaks(s, v, LeaderTimeoutAppeal, script)
  {
    hide LeadersOf, Possible, Step, CanRotate, Room, Elements;
    var start := TimeoutCommittee(s, v);
    var proposing := Step(s, Begin(v), PendingState, start).m;
    var propose := ProposeWithRoom(s, v, proposing);
    var committing := Step(s, proposing, ProposingState, propose).m;
    var commit, rotate := RotateOnce(s, committing);
    var revealing := Step(s, committing, CommittingState, commit).m;
    var again := Step(s, revealing, RevealingState, rotate).m;
    script := AcceptAtOnce(s, again);
    ScriptOnTop(s, revealing, RevealingState, rotate, script);
    script := [rotate] + script;
    ScriptOnTop(s, committing, CommittingState, commit, script);
    script := [commit] + script;
    ScriptOnTop(s, proposing, ProposingState, propose, script);
    script := [propose] + script;
    ScriptOnTop(s, Begin(v), PendingState, start, script);
    script := [start] + script;
  }

  /** The appeal of a leader timeout can break exactly when the committee can rotate: the rotation clears
      the appeal flag, and accepting then returns the round of an ordinary execution. */
  lemma LeaderTimeoutAppealCanBreakIff(s: Setup, v: Saved)
    requires Distinct(s.nodes) && Distinct(v.timeoutValidators) && v.flags == Flags(false, false, false, true)
    ensures CanBreak(s, v, LeaderTimeoutAppeal) <==>
              (HasAppealCapacity(|v.timeoutValidators|, |Leaders(v)|, |s.Registered()|) && CanRotate(s, |Leaders(v)|))
  {
    hide PossibleRun, RunScript, LeadersOf, CanRotate, Distinct;
    if HasAppealCapacity(|v.timeoutValidators|, |Leaders(v)|, |s.Registered()|) && CanRotate(s, |Leaders(v)|) {
      var script := BreakingScript(s, v);
    }
    if script :| Breaks(s, v, LeaderTimeoutAppeal, script) {
      BreaksOnAcceptance(s, v, LeaderTimeoutAppeal, script);
      RotatedRunHadRoom(s, v, script);
    }
  }

  // ---- A leader that times out ---------------------------------------------------------------------

  /** The first of the committee leads and times out. */
  ghost predicate TimesOut(s: Setup, v: Saved, script: seq<Choices>) {
    && PossibleRun(s, Begin(v), PendingState, script)
    && var e := RunScript(s, Begin(v), PendingState, script);
       e.state.LeaderTimeoutState? && e.next.Stop? && e.m.rotationCount == 0
  }

  lemma TimeoutAtOnce(s: Setup, m: Machine) returns (script: seq<Choices>)
    requires m.involved != []
    ensures PossibleRun(s, m, ProposingState, script)
    ensures var e := RunScript(s, m, ProposingState, script);
            && e.state == LeaderTimeoutState && e.next == Stop && e.m.rotationCount == m.rotationCount
            && |e.m.saved.timeoutValidators| < |m.involved|
            && |Leaders(e.m.saved)| <= |Leaders(m.saved)| + 1
  {
    hide LeadersOf;
    var runs := seq(W.MAX_IDLE_REPLACEMENTS + 1, _ => TimeoutReceipt);
    var propose := Nothing().(order := m.involved, runs := runs);
    var proposed := Step(s, m, ProposingState, propose).m;
    LastOfScript(s, proposed, LeaderTimeoutState, Nothing());
    ScriptOnTop(s, m, ProposingState, propose, [Nothing()]);
    script := [propose] + [Nothing()];
    RecordOneLeader(m.saved.history, RoundOf(LeaderTimeoutState, m.saved.flags), proposed.leader);
  }

  /** When the leader of the appeal times out as well, the flag of the appeal stays in the row. Should the
      row be rolled back to pending, an ordinary execution of it can break, as soon as it can start. */
  lemma SurvivingFlagBreaksExecutionIff(s: Setup, v: Saved, script: seq<Choices>)
    requires Distinct(s.nodes) && Distinct(v.timeoutValidators) && v.flags == Flags(false, false, false, true)
    requires TimesOut(s, v, script)
    ensures var after := RunScript(s, Begin(v), PendingState, script).m.saved;
            && after.flags == v.flags
            && (CanBreak(s, after, Execution) <==>
                  HasAppealCapacity(|after.timeoutValidators|, |Leaders(after)|, |s.Registered()|))
  {
    hide PossibleRun, RunScript, LeadersOf, Distinct, At, Recorded, CanBreak;
    assert script != [] by { EmptyScript(s, Begin(v), PendingState); }
    RunIsOver(s, v, script);
    var after := RunScript(s, Begin(v), PendingState, script).m.saved;
    ExecutionCanBreakIff(s, after);
    assert s.nodes == [] ==> s.Registered() == {};
  }

  /** With one node more than the appeal itself needs this does happen. */
  lemma SecondTimeoutBreaksExecution(s: Setup, v: Saved) returns (script: seq<Choices>)
    requires Distinct(s.nodes) && Distinct(v.timeoutValidators) && v.flags == Flags(false, false, false, true)
    requires HasAppealCapacity(|v.timeoutValidators| + 1, |Leaders(v)|, |s.Registered()|)
    ensures TimesOut(s, v, script)
    ensures CanBreak(s, RunScript(s, Begin(v), PendingState, script).m.saved, Execution)
  {
    hide LeadersOf, PendingStep, ProposingStep, FinalStep, Distinct, DrawFits, CanBreak;
    var start := TimeoutCommittee(s, v);
    var proposing := Step(s, Begin(v), PendingState, start).m;
    script := TimeoutAtOnce(s, proposing);
    ScriptOnTop(s, Begin(v), PendingState, start, script);
    script := [start] + script;
    SurvivingFlagBreaksExecutionIff(s, v, script);
  }

  /** Three nodes, a committee of two: the leader times out, the appeal rotates once and accepts. */
  lemma LeaderTimeoutAppealBreaks() returns (execution: seq<Choices>, appeal: seq<Choices>)
    ensures var s := Setup([1, 2, 3], 2, Some(3), Normal);
            var first := Saved([], 0, None, [], Flags(false, false, false, false));
            && TimesOut(s, first, execution)
            && var v := RunScript(s, Begin(first), PendingState, execution).m.saved;
               Breaks(s, v.(flags := Flags(false, false, false, true)), LeaderTimeoutAppeal, appeal)
  {
    hide LeadersOf, PossibleRun, RunScript, ProposingStep, FinalStep, Breaks;
    var s := Setup([1, 2, 3], 2, Some(3), Normal);
    var first := Saved([], 0, None, [], Flags(false, false, false, false));
    assert s.Registered() == {1, 2, 3};
    var start := Nothing().(drawn := [1, 2]);
    var proposing := Step(s, Begin(first), PendingState, start).m;
    execution := TimeoutAtOnce(s, proposing);
    ScriptOnTop(s, Begin(first), PendingState, start, execution);
    execution := [start] + execution;
    var v := RunScript(s, Begin(first), PendingState, execution).m.saved;
    assert Leaders(first) == {} by { NobodyLed(); }
    appeal := BreakingScript(s, v.(flags := Flags(false, false, false, true)));
  }

  lemma NobodyLed()
    ensures LeadersOf([]) == {}
  {
  }

  // ---- The run of a driver -------------------------------------------------------------------------

  lemma FittingDraw(s: Setup, v: Saved) returns (drawn: seq<Address>)
    ensures DrawFits(s, v, drawn)
  {
    hide Current, LeadersOf;
    if !v.flags.appealed && !v.flags.validatorsTimeout && v.flags.undetermined && v.data.Some? {
      var wanted := Wanted(|Current(s.Registered(), v.data.value.validators)|, 0);
      drawn := SomeDraw(Unused(s.Registered(), v.data.value.validators, Leaders(v)), wanted);
    } else if !v.flags.appealed && !v.flags.validatorsTimeout && !v.flags.undetermined && v.flags.leaderTimeout {
      drawn := SomeDraw(s.Registered() - Elements(v.timeoutValidators) - Leaders(v), 1);
    } else {
      drawn := SomeDraw(s.Registered(), s.initial);
    }
  }

  /** The first node leads; after a fatal error the next one does, while there are nodes and attempts. */
  method ProposeInTurn(first: Address, others: seq<Address>, runs: seq<LeaderRun>) returns (p: Proposal)
    requires |runs| == W.MAX_IDLE_REPLACEMENTS + 1
    ensures p == InTurn(first, others, runs, 0)
  {
    var leader, remaining := first, others;
    for attempt := 0 to W.MAX_IDLE_REPLACEMENTS + 1
      invariant InTurn(first, others, runs, 0) == InTurn(leader, remaining, runs, attempt)
    {
      match runs[attempt]
      case LeaderReceipt => return Proposal(Some(false), leader, remaining);
      case TimeoutReceipt => return Proposal(Some(true), leader, remaining);
      case OtherError => return Proposal(None, leader, remaining);
      case FatalError =>
        if remaining == [] {
          return Proposal(None, leader, remaining);
        }
        leader, remaining := remaining[0], remaining[1..];
    }
    return Proposal(None, leader, remaining);
  }

  /** Whatever happens while the wave runs, it comes to an end. */
  method RunWave(leader: Address, remaining: seq<Address>, nodes: seq<Address>)
    returns (votes: seq<Receipt>, ghost events: seq<W.Event>)
    requires Distinct([leader] + remaining) && Distinct(nodes)
    ensures var start := W.Start(Some(leader), remaining, nodes, true);
            && W.ValidRun(start, events) && W.Run(start, events).done && W.AllCollected(W.Run(start, events))
            && votes == W.Receipts(W.Run(start, events).slots)
  {
    hide W.Run, W.ValidRun, W.Step, W.Enabled, W.Measure, W.Separate, Distinct;
    var start := W.Start(Some(leader), remaining, nodes, true);
    assert W.LeaderAsSeq(Some(leader)) == [leader];
    W.StartIsValid(Some(leader), remaining, nodes, true);
    var wave := start;
    events := [];
    W.NoEvents(start);
    while !wave.done
      invariant W.Valid(wave) && W.AttemptsBounded(wave.slots)
      invariant W.ValidRun(start, events) && wave == W.Run(start, events)
      decreases W.Measure(wave)
    {
      W.NeverStuck(wave);
      var event :| W.Enabled(wave, event);
      W.StepKeepsValid(wave, event);
      W.StepLowersMeasure(wave, event);
      W.RunOneMore(start, events, event);
      wave, events := W.Step(wave, event), events + [event];
    }
    votes := W.Receipts(wave.slots);
  }

  class TransactionContext {
    const setup: Setup
    var saved: Saved
    var rotationCount: nat
    var involved: seq<Address>
    var leader: Address
    var remaining: seq<Address>
    var votes: seq<Receipt>
    ghost var receipts: seq<Address>

    ghost function Now(): Machine
      reads this
    {
      Machine(saved, rotationCount, involved, leader, remaining, votes, receipts)
    }

    constructor (setup: Setup, saved: Saved)
      ensures this.setup == setup && Now() == Begin(saved)
    {
      this.setup, this.saved := setup, saved;
      rotationCount, involved, leader, remaining, votes, receipts := 0, [], 0, [], [], [];
    }

    /** Appeals keep their stored committee or enlarge it; other rows draw one, unless they have been
        executed before. */
    method ChooseCommittee() returns (committee: Option<seq<Address>>, ghost drawn: seq<Address>)
      ensures DrawFits(setup, saved, drawn)
      ensures committee == Committee(setup, saved, drawn)
    {
      hide Current, LeadersOf, Draw, ExtraValidators;
      drawn := FittingDraw(setup, saved);
      var registered, flags := setup.Registered(), saved.flags;
      if flags.appealed || flags.validatorsTimeout {
        if saved.data.Some? {
          return Some(Current(registered, saved.data.value.validators)), drawn;
        }
      } else if flags.undetermined {
        if saved.data.Some? {
          var stored, leaders := saved.data.value.validators, Leaders(saved);
          var extra := GetValidators(Unused(registered, stored, leaders), Wanted(|Current(registered, stored)|, 0));
          var selection := ExtraValidators(registered, stored, leaders, 0, extra);
          return if selection.Err? then None else Some(selection.value.current + selection.value.extra), extra;
        }
      } else if flags.leaderTimeout {
        var added := AddNewValidator(registered, saved.timeoutValidators, Leaders(saved));
        if added.None? {
          return None, drawn;
        }
        drawn := added.value[..1];
        assert added.value == drawn + saved.timeoutValidators;
        return added, drawn;
      } else if saved.data.Some? {
        var current := Current(registered, AllStored(saved.data.value));
        if current != [] {
          return Some(current), drawn;
        }
      }
      var all := GetValidators(registered, setup.initial);
      return Some(all), all;
    }

    method HandlePending() returns (next: Next, ghost drawn: seq<Address>)
      modifies this
      ensures DrawFits(setup, old(saved), drawn)
      ensures Outcome(Now(), next) == PendingStep(setup, old(Now()), drawn)
    {
      hide DrawFits, Committee;
      saved := saved.(rotations := 0);
      if setup.nodes == [] {
        drawn := FittingDraw(setup, old(saved));
        return Raised, drawn;
      }
      var committee;
      committee, drawn := ChooseCommittee();
      RotationsDoNotMatter(setup, old(saved), drawn);
      if committee.None? {
        return Raised, drawn;
      }
      involved := committee.value;
      var flags := saved.flags;
      if flags.appealed || flags.validatorsTimeout {
        flags := flags.(appealed := false, validatorsTimeout := false);
      } else if flags.undetermined && saved.data.None? {
        flags := flags.(undetermined := false);
      }
      saved := saved.(flags := flags);
      return Go(ProposingState), drawn;
    }

    method HandleProposing(runs: seq<LeaderRun>) returns (next: Next, ghost order: seq<Address>)
      requires |runs| == W.MAX_IDLE_REPLACEMENTS + 1
      modifies this
      ensures multiset(order) == multiset(old(involved))
      ensures Outcome(Now(), next) == ProposingStep(setup, old(Now()), order, runs)
    {
      var shuffled: seq<Address> :| multiset(shuffled) == multiset(involved);
      order := shuffled;
      if shuffled == [] {
        return Raised, order;
      }
      var proposal := ProposeInTurn(shuffled[0], if setup.mode.Normal? then shuffled[1..] else [], runs);
      leader, remaining := proposal.leader, proposal.remaining;
      if proposal.end.None? {
        return Raised, order;
      }
      receipts := receipts + [leader];
      if proposal.end.value {
        return Go(LeaderTimeoutState), order;
      }
      saved := saved.(timeoutValidators := []);
      return Go(if setup.mode.LeaderOnly? then AcceptedState else CommittingState), order;
    }

    method HandleCommitting() returns (next: Next, ghost wave: seq<W.Event>)
      requires Distinct([leader] + remaining) && Distinct(setup.nodes)
      modifies this
      ensures WaveFits(setup, old(Now()), wave)
      ensures Outcome(Now(), next) == CommittingStep(setup, old(Now()), wave)
    {
      hide W.Run, W.ValidRun, Distinct;
      votes, wave := RunWave(leader, remaining, setup.nodes);
      return if W.AllIdle(votes) then Raised else Go(RevealingState), wave;
    }

    /** The votes are keyed by address before they are counted. */
    method Reveal() returns (outcome: Revealed)
      requires W.DistinctSigners(votes)
      ensures outcome == RevealingOutcome(DetermineConsensus(W.VotesOf(votes)), saved.flags, rotationCount,
                                          if setup.config.Some? then setup.config.value else 0)
      ensures var agreed := 2 * Count(Agree, W.VotesOf(votes)) > |votes|;
              var late := 2 * Count(Timeout, W.VotesOf(votes)) > |votes|;
              if saved.flags.appealed || saved.flags.validatorsTimeout then
                && (outcome.ToAccepted? <==> saved.flags.appealed && agreed)
                && (outcome.ToValidatorsTimeout? <==> saved.flags.validatorsTimeout && late)
                && (outcome.AppealSuccessful? <==> !outcome.ToAccepted? && !outcome.ToValidatorsTimeout?)
              else
                && (outcome.ToAccepted? <==> agreed) && (outcome.ToValidatorsTimeout? <==> late)
                && !outcome.AppealSuccessful?
    {
      hide DetermineConsensus;
      var limit := if setup.config.Some? then setup.config.value else 0;
      WhatVotesLeadTo(W.VotesOf(votes), saved.flags, rotationCount, limit);
      var voteMap := W.TallyVotes(votes);
      var result := DetermineConsensus(W.Values(voteMap));
      if saved.flags.appealed || saved.flags.validatorsTimeout {
        if saved.flags.appealed && result.MajorityAgree? {
          return ToAccepted;
        } else if saved.flags.validatorsTimeout && result.TimedOut? {
          return ToValidatorsTimeout;
        }
        return AppealSuccessful;
      } else if result.MajorityAgree? {
        return ToAccepted;
      } else if result.TimedOut? {
        return ToValidatorsTimeout;
      }
      return if rotationCount >= limit then ToUndetermined else ToRotation;
    }

    method HandleRevealing() returns (next: Next, ghost drawn: seq<Address>)
      requires W.DistinctSigners(votes)
      modifies this
      ensures Possible(setup, old(Now()), RevealingState, Nothing().(drawn := drawn))
      ensures Outcome(Now(), next) == RevealingStep(setup, old(Now()), drawn)
    {
      hide RevealingOutcome, DetermineConsensus, LeadersOf, Draw, Elements, Count;
      drawn := [];
      var outcome := Reveal();
      if outcome.ToAccepted? {
        return Go(AcceptedState), drawn;
      } else if outcome.ToValidatorsTimeout? {
        return Go(ValidatorsTimeoutState), drawn;
      } else if outcome.AppealSuccessful? {
        return Return(ValidatorAppealSuccessful), drawn;
      } else if setup.config.None? {
        return Raised, drawn;
      }
      var leaders := Leaders(saved) + {leader};
      saved := saved.(flags := saved.flags.(leaderTimeout := false));
      if outcome.ToUndetermined? {
        return Go(UndeterminedState), drawn;
      }
      var added := AddNewValidator(setup.Registered(), remaining, leaders);
      if added.None? {
        return Go(UndeterminedState), drawn;
      }
      drawn := added.value[..1];
      involved := added.value;
      assert involved == drawn + remaining;
      rotationCount := rotationCount + 1;
      if setup.config.value == 0 || saved.rotations < setup.config.value {
        saved := saved.(rotations := saved.rotations + 1);
      }
      var entry := Entry(Some(RotationRound(saved.flags.undetermined)), Some(leader));
      saved := saved.(history := saved.history + [entry]);
      return Go(ProposingState), drawn;
    }

    method HandleFinal(state: State, fails: bool) returns (next: Next)
      requires Final(state)
      modifies this
      ensures Outcome(Now(), next) == FinalStep(old(Now()), state, fails)
    {
      if state.AcceptedState? && fails {
        return Raised;
      }
      var flags := saved.flags;
      if state.LeaderTimeoutState? {
        saved := saved.(timeoutValidators := remaining);
      }
      saved := saved.(history := saved.history + [TerminalEntry(state, flags, leader)]);
      saved := saved.(flags := FlagsAfter(state, flags));
      return FinalNext(state, flags);
    }

    /** What the surroundings decide is recorded, so that the step can be told afterwards. */
    method Handle(state: State, ghost base: seq<Item>, ghost u: bool, ghost l: bool)
      returns (next: Next, ghost c: Choices)
      requires At(setup, Now(), state, base, u, l)
      modifies this
      ensures Possible(setup, old(Now()), state, c)
      ensures Outcome(Now(), next) == Step(setup, old(Now()), state, c)
    {
      hide RotationEntries, WaveFits, PendingStep, ProposingStep, CommittingStep, RevealingStep, FinalStep, Distinct,
           Elements;
      c := Nothing();
      if state.ProposingState? {
        ghost var order;
        var runs := SomeRuns();
        next, order := HandleProposing(runs);
        c := c.(order := order, runs := runs);
      } else if state.CommittingState? {
        ghost var wave;
        ProposerIsApart(setup, Now(), base, u);
        next, wave := HandleCommitting();
        c := c.(wave := wave);
      } else if state.RevealingState? {
        ghost var drawn;
        next, drawn := HandleRevealing();
        c := c.(drawn := drawn);
      } else {
        var fails: bool := *;
        next := HandleFinal(state, fails);
        c := c.(fails := fails);
      }
    }

    /** The states follow each other until one returns something else than a state. The driver stops on the
        round it knows and fails on any other. */
    method RunDriver(driver: Driver) returns (finish: Finish, ghost script: seq<Choices>)
      requires Now() == Begin(saved) && Distinct(setup.nodes) && Distinct(saved.timeoutValidators)
      modifies this
      // the script tells the run, and the run comes to an end
      ensures PossibleRun(setup, Begin(old(saved)), PendingState, script) && |script| <= 3 * setup.Limit() + 5
      ensures var e := RunScript(setup, Begin(old(saved)), PendingState, script);
              e.m == Now() && !e.next.Go? && finish == FinishOf(driver, e.state, e.next)
      // at most one proposal more than the configured rotations, each by another leader
      ensures |receipts| <= setup.Limit() + 1 && Distinct(receipts)
      ensures rotationCount == saved.rotations <= setup.Limit()
      // a run that raises nothing stops in one of four states and writes its rotations and one round
      ensures !finish.Failed? ==>
        && Final(finish.state)
        && var u, l := UndeterminedAfterPending(old(saved)), old(saved.flags.leaderTimeout);
           Recorded(Now(), old(saved.history), finish.state, u, l)
      ensures finish.DriverBroken? <==> Breaks(setup, old(saved), driver, script)
    {
      hide At, Possible, Step, PossibleRun, RunScript, Recorded, Ahead;
      ghost var base, l, u := saved.history, saved.flags.leaderTimeout, UndeterminedAfterPending(saved);
      ghost var start, v := Now(), saved;
      ghost var drawn, c;
      var next;
      EmptyScript(setup, start, PendingState);
      next, drawn := HandlePending();
      c := Nothing().(drawn := drawn);
      PendingIsPossible(setup, v, drawn);
      PendingKeeps(setup, v, drawn);
      ScriptOneMore(setup, start, PendingState, [], c);
      script := [] + [c];
      var state := PendingState;
      while next.Go?
        invariant next.Go? ==> At(setup, Now(), next.state, base, u, l)
        invariant PossibleRun(setup, start, PendingState, script) && script != []
        invariant RunScript(setup, start, PendingState, script) ==
                  End(Now(), if next.Go? then next.state else state, next)
        decreases if next.Go? then Ahead(setup, Now(), next.state) + 1 else 0
      {
        state := next.state;
        ghost var before := Now();
        AheadIsNat(setup, before, state, base, u, l);
        next, c := Handle(state, base, u, l);
        StepKeepsAt(setup, before, state, c, base, u, l);
        ScriptOneMore(setup, start, PendingState, script, c);
        script := script + [c];
      }
      RunIsOver(setup, v, script);
      match next
      case Raised => return Failed, script;
      case Stop => return Finished(state), script;
      case Return(round) => return if round == ExpectedBy(driver) then Finished(state) else DriverBroken(state), script;
    }
  }

  lemma PendingIsPossible(s: Setup, v: Saved, drawn: seq<Address>)
    requires DrawFits(s, v, drawn)
    ensures var c := Nothing().(drawn := drawn);
            && Possible(s, Begin(v), PendingState, c)
            && Step(s, Begin(v), PendingState, c) == PendingStep(s, Begin(v), drawn)
  {
  }

  lemma ProposerIsApart(s: Setup, m: Machine, base: seq<Item>, u: bool)
    requires Proposed(s, m, base, u)
    ensures Distinct([m.leader] + m.remaining) && Distinct(s.nodes)
  {
    assert m.leader in Elements(m.receipts);
    NewFirstKeepsDistinct([m.leader] + m.remaining);
  }

  method SomeRuns() returns (runs: seq<LeaderRun>)
    ensures |runs| == W.MAX_IDLE_REPLACEMENTS + 1
  {
    runs := [];
    for attempt := 0 to W.MAX_IDLE_REPLACEMENTS + 1
      invariant |runs| == attempt
    {
      var run: LeaderRun := *;
      runs := runs + [run];
    }
  }
}
