/** The consensus rounds of one transaction: leader rotation until a majority, or until the rotations
    or the validators run out. */
module RoundMachine {
  import opened Wrappers
  import opened Rows
  import opened Sequences
  import opened Voting
  import opened AppealCommittee
  import opened History
  import opened Rounds
  import W = CommitWave

  datatype Mode = Normal | LeaderOnly | LeaderSelfValidator

  /** The consensus data stored with the row. */
  datatype Stored = Stored(leader: Address, validators: seq<Address>)

  /** What a handler returns: the next state, a round for the driver, nothing, or an exception. */
  datatype Next = Go(state: State) | Return(round: ConsensusRound) | Stop | Raised

  /** How one attempt of a leader ends. */
  datatype LeaderRun = LeaderReceipt | TimeoutReceipt | FatalError | OtherError

  /** What is fixed for a run: the validators snapshot and the settings of the transaction. */
  datatype Setup = Setup(nodes: seq<Address>, initial: nat, config: Option<int>, mode: Mode) {
    function Registered(): set<Address> {
      Elements(nodes)
    }

    function Limit(): nat {
      if config.Some? && config.value > 0 then config.value else 0
    }
  }

  /** The columns of the row that a run reads and writes. */
  datatype Saved = Saved(
    history: seq<Item>,
    rotations: nat,                        // rotation_count
    data: Option<Stored>,                  // consensus_data
    timeoutValidators: seq<Address>,       // leader_timeout_validators
    flags: Flags)

  /** The row and the context in memory; `receipts` are the leaders of this run that produced one. */
  datatype Machine = Machine(
    saved: Saved,
    rotationCount: nat,
    involved: seq<Address>,
    leader: Address,
    remaining: seq<Address>,
    votes: seq<Receipt>,
    receipts: seq<Address>)

  function Begin(saved: Saved): Machine {
    Machine(saved, 0, [], 0, [], [], [])
  }

  /** What the surroundings decide while one state is handled: draws and shuffles, how the leaders end,
      what happens in the vote wave, whether accepting fails. */
  datatype Choices = Choices(
    drawn: seq<Address>,
    order: seq<Address>,
    runs: seq<LeaderRun>,
    wave: seq<W.Event>,
    fails: bool)

  datatype Outcome = Outcome(m: Machine, next: Next)

  // ---- Choosing validators -------------------------------------------------------------------

  function LeadersOf(h: seq<Item>): set<Address> {
    if h == [] then {}
    else
      var last := h[|h| - 1];
      LeadersOf(h[..|h| - 1]) + if last.Entry? && last.leader.Some? then {last.leader.value} else {}
  }

  predicate HasAppealCapacity(involved: nat, leaders: nat, total: nat) {
    involved + leaders < total
  }

  method GetValidators(nodes: set<Address>, wanted: nat) returns (drawn: seq<Address>)
    ensures Draw(nodes, wanted, drawn)
  {
    drawn := [];
    var left := nodes;
    while |drawn| < wanted && left != {}
      invariant Distinct(drawn) && Elements(drawn) !! left && Elements(drawn) + left == nodes
      invariant |drawn| + |left| == |nodes| && |drawn| <= wanted
      decreases left
    {
      var a :| a in left;
      assert Elements(drawn + [a]) == Elements(drawn) + {a};
      AppendKeepsDistinct(drawn, [a]);
      drawn, left := drawn + [a], left - {a};
    }
  }

  lemma {:induction false} SomeDraw(nodes: set<Address>, wanted: nat) returns (drawn: seq<Address>)
    ensures Draw(nodes, wanted, drawn)
    decreases wanted
  {
    if wanted == 0 || nodes == {} {
      drawn := [];
    } else {
      var a :| a in nodes;
      var rest := SomeDraw(nodes - {a}, wanted - 1);
      drawn := [a] + rest;
      AppendKeepsDistinct([a], rest);
      assert Elements(drawn) == {a} + Elements(rest);
    }
  }

  /** Succeeds exactly when the guard lets it: counting leaders and validators, some registered address
      is then in neither list. */
  method AddNewValidator(registered: set<Address>, validators: seq<Address>, leaders: set<Address>)
    returns (r: Option<seq<Address>>)
    ensures r.Some? <==> HasAppealCapacity(|validators|, |leaders|, |registered|)
    ensures r.Some? ==> |r.value| == |validators| + 1 && r.value[1..] == validators
    ensures r.Some? ==> r.value[0] in registered && r.value[0] !in leaders && r.value[0] !in validators
    ensures r.Some? ==> Draw(registered - Elements(validators) - leaders, 1, r.value[..1])
  {
    if |leaders| + |validators| >= |registered| {
      return None;
    }
    var unused := registered - Elements(validators) - leaders;
    SomeoneIsLeft(registered, validators, leaders);
    var drawn := GetValidators(unused, 1);
    assert drawn[0] in Elements(drawn);
    assert (drawn + validators)[..1] == drawn;
    return Some(drawn + validators);
  }

  lemma SomeoneIsLeft(registered: set<Address>, validators: seq<Address>, leaders: set<Address>)
    requires HasAppealCapacity(|validators|, |leaders|, |registered|)
    ensures registered - Elements(validators) - leaders != {}
  {
    AtMostLength(validators);
    var busy := Elements(validators) + leaders;
    var left := registered - Elements(validators) - leaders;
    SubsetIsSmaller(registered, left + busy);
    assert |left + busy| <= |left| + |busy| && |busy| <= |Elements(validators)| + |leaders|;
  }

  lemma {:induction false} CurrentIsDistinct(registered: set<Address>, stored: seq<Address>)
    ensures Distinct(Current(registered, stored))
    ensures Elements(Current(registered, stored)) <= registered * Elements(stored)
  {
    if stored != [] {
      var rest := stored[1..];
      assert Elements(rest) <= Elements(stored);
      if stored[0] in registered {
        CurrentIsDistinct(registered - {stored[0]}, rest);
        var tail := Current(registered - {stored[0]}, rest);
        assert stored[0] !in Elements(tail);
        AppendKeepsDistinct([stored[0]], tail);
        assert Elements([stored[0]] + tail) == {stored[0]} + Elements(tail);
      } else {
        CurrentIsDistinct(registered, rest);
      }
    }
  }

  // ---- Shuffling -----------------------------------------------------------------------------

  lemma {:induction false} DistinctMeansOnce(s: seq<Address>, a: Address)
    requires Distinct(s)
    ensures multiset(s)[a] == if a in s then 1 else 0
  {
    if s != [] {
      DistinctMeansOnce(s[1..], a);
      assert s == [s[0]] + s[1..];
    }
  }

  lemma TwiceMeansTwo(t: seq<Address>, i: nat, j: nat)
    requires i < j < |t|
    ensures t[i] == t[j] ==> multiset(t)[t[i]] >= 2
  {
    assert t == t[..j] + t[j..] && t[..j][i] in t[..j] && t[j..][0] in t[j..];
  }

  lemma ShuffleKeepsDistinct(s: seq<Address>, t: seq<Address>)
    requires Distinct(s) && multiset(s) == multiset(t)
    ensures Distinct(t) && Elements(t) == Elements(s) && |t| == |s|
  {
    assert |multiset(s)| == |s| && |multiset(t)| == |t|;
    assert forall a :: a in s <==> a in multiset(s);
    assert forall a :: a in t <==> a in multiset(t);
    forall i, j | 0 <= i < j < |t| ensures t[i] != t[j] {
      DistinctMeansOnce(s, t[i]);
      TwiceMeansTwo(t, i, j);
    }
  }

  // ---- Pending ---------------------------------------------------------------------------------

  function Leaders(v: Saved): set<Address> {
    LeadersOf(v.history)
  }

  function AllStored(data: Stored): seq<Address> {
    [data.leader] + data.validators
  }

  /** The committee that each kind of row starts with; None is the exception when nobody is left. */
  function Committee(s: Setup, v: Saved, drawn: seq<Address>): Option<seq<Address>> {
    if v.flags.appealed || v.flags.validatorsTimeout then
      Some(if v.data.Some? then Current(s.Registered(), v.data.value.validators) else drawn)
    else if v.flags.undetermined then
      if v.data.None? then Some(drawn)
      else match ExtraValidators(s.Registered(), v.data.value.validators, Leaders(v), 0, drawn)
        case Ok(selection) => Some(selection.current + selection.extra)
        case Err(_) => None
    else if v.flags.leaderTimeout then
      if !HasAppealCapacity(|v.timeoutValidators|, |Leaders(v)|, |s.Registered()|) then None
      else Some(drawn + v.timeoutValidators)
    else if v.data.Some? && Current(s.Registered(), AllStored(v.data.value)) != [] then
      Some(Current(s.Registered(), AllStored(v.data.value)))
    else Some(drawn)
  }

  /** The draw that the committee needs. */
  predicate DrawFits(s: Setup, v: Saved, drawn: seq<Address>) {
    if v.flags.appealed || v.flags.validatorsTimeout then v.data.Some? || Draw(s.Registered(), s.initial, drawn)
    else if v.flags.undetermined then
      if v.data.None? then Draw(s.Registered(), s.initial, drawn)
      else
        var wanted := Wanted(|Current(s.Registered(), v.data.value.validators)|, 0);
        Draw(Unused(s.Registered(), v.data.value.validators, Leaders(v)), wanted, drawn)
    else if v.flags.leaderTimeout then Draw(s.Registered() - Elements(v.timeoutValidators) - Leaders(v), 1, drawn)
    else
      || (v.data.Some? && Current(s.Registered(), AllStored(v.data.value)) != [])
      || Draw(s.Registered(), s.initial, drawn)
  }

  lemma {:induction false} CurrentMembers(registered: set<Address>, stored: seq<Address>)
    ensures forall a :: a in Current(registered, stored) <==> a in registered && a in stored
  {
    if stored != [] {
      CurrentMembers(if stored[0] in registered then registered - {stored[0]} else registered, stored[1..]);
      assert stored == [stored[0]] + stored[1..];
    }
  }

  /** Who is involved: under an appeal of the validators those stored, without the leader; under a leader
      appeal those and the drawn ones; under the appeal of a leader timeout the ones stored for it and one
      more; otherwise leader and validators of an earlier execution, as far as they are still registered. */
  lemma WhoIsInvolved(s: Setup, v: Saved, drawn: seq<Address>, a: Address)
    requires DrawFits(s, v, drawn) && Committee(s, v, drawn).Some?
    ensures var involved := a in Committee(s, v, drawn).value;
            var again := a in s.nodes && v.data.Some? && a in v.data.value.validators;
            var led := a in s.nodes && v.data.Some? && a == v.data.value.leader;
            && (v.flags.appealed || v.flags.validatorsTimeout ==>
                  (involved <==> if v.data.Some? then again else a in drawn))
            && (!v.flags.appealed && !v.flags.validatorsTimeout && v.flags.undetermined ==>
                  (involved <==> again || a in drawn))
            && (!v.flags.appealed && !v.flags.validatorsTimeout && !v.flags.undetermined && v.flags.leaderTimeout ==>
                  (involved <==> a in v.timeoutValidators || a in drawn))
            && (v.flags == Flags(false, false, false, false) && (again || led) ==> involved)
            && (v.flags == Flags(false, false, false, false) && involved ==> again || led || a in drawn)
  {
    hide LeadersOf, Unused, Wanted;
    if v.data.Some? {
      CurrentMembers(s.Registered(), v.data.value.validators);
      CurrentMembers(s.Registered(), AllStored(v.data.value));
    }
  }

  /** A row that has no committee yet draws as many nodes as it asks for, or all of them. */
  lemma FirstCommittee(s: Setup, v: Saved, drawn: seq<Address>)
    requires v.flags == Flags(false, false, false, false) && v.data.None? && DrawFits(s, v, drawn)
    ensures Committee(s, v, drawn) == Some(drawn) && Distinct(drawn) && (forall a :: a in drawn ==> a in s.nodes)
    ensures |drawn| == if s.initial < |Elements(s.nodes)| then s.initial else |Elements(s.nodes)|
  {
    forall a | a in drawn ensures a in s.nodes {
      assert a in Elements(drawn);
    }
  }

  /** A leader appeal survives, unless its data is gone; flags of validator appeals are cleared. */
  function UndeterminedAfterPending(v: Saved): bool {
    v.flags.undetermined && (v.flags.appealed || v.flags.validatorsTimeout || v.data.Some?)
  }

  function PendingStep(s: Setup, m: Machine, drawn: seq<Address>): Outcome {
    var v := m.saved.(rotations := 0);
    var committee := Committee(s, v, drawn);
    if s.nodes == [] || committee.None? then Outcome(m.(saved := v), Raised)
    else
      var flags := Flags(false, false, UndeterminedAfterPending(v), v.flags.leaderTimeout);
      Outcome(m.(saved := v.(flags := flags), involved := committee.value), Go(ProposingState))
  }

  // ---- Proposing -------------------------------------------------------------------------------

  datatype Proposal = Proposal(end: Option<bool>, leader: Address, remaining: seq<Address>)

  /** Who leads in the end, and whether with a timeout. A fatal error makes the next validator the
      leader, while there is one and attempts are left. */
  function InTurn(leader: Address, remaining: seq<Address>, runs: seq<LeaderRun>, attempt: nat): Proposal
    requires attempt <= |runs|
    decreases |runs| - attempt
  {
    if attempt == |runs| then Proposal(None, leader, remaining)
    else match runs[attempt]
      case LeaderReceipt => Proposal(Some(false), leader, remaining)
      case TimeoutReceipt => Proposal(Some(true), leader, remaining)
      case OtherError => Proposal(None, leader, remaining)
      case FatalError =>
        if remaining == [] then Proposal(None, leader, remaining)
        else InTurn(remaining[0], remaining[1..], runs, attempt + 1)
  }

  lemma {:induction false} InTurnKeepsDistinct(leader: Address, remaining: seq<Address>, runs: seq<LeaderRun>,
                                               attempt: nat)
    requires attempt <= |runs| && Distinct([leader] + remaining)
    ensures var p := InTurn(leader, remaining, runs, attempt);
            && Distinct([p.leader] + p.remaining)
            && Elements([p.leader] + p.remaining) <= Elements([leader] + remaining)
            && |p.remaining| <= |remaining|
    decreases |runs| - attempt
  {
    if attempt < |runs| && runs[attempt].FatalError? && remaining != [] {
      FirstAndRest(leader, remaining);
      assert remaining == [remaining[0]] + remaining[1..];
      InTurnKeepsDistinct(remaining[0], remaining[1..], runs, attempt + 1);
    }
  }

  /** The first attempt without a fatal error decides, made by the validator whose turn it is then; with no
      such attempt left, or nobody to take over, there is no proposal. */
  lemma {:induction false} WhoProposes(leader: Address, remaining: seq<Address>, runs: seq<LeaderRun>, attempt: nat,
                                       k: nat)
    requires attempt <= k < |runs| && k - attempt <= |remaining|
    requires forall i :: attempt <= i < k ==> runs[i].FatalError?
    requires runs[k].FatalError? ==> k - attempt == |remaining| || k + 1 == |runs|
    ensures var p, all := InTurn(leader, remaining, runs, attempt), [leader] + remaining;
            && (p.end == Some(false) <==> runs[k].LeaderReceipt?)
            && (p.end == Some(true) <==> runs[k].TimeoutReceipt?)
            && (!runs[k].FatalError? ==> p.leader == all[k - attempt] && p.remaining == all[k - attempt + 1..])
    decreases |runs| - attempt
  {
    if runs[attempt].FatalError? && remaining != [] {
      if attempt < k {
        WhoProposes(remaining[0], remaining[1..], runs, attempt + 1, k);
        assert remaining == [remaining[0]] + remaining[1..];
      }
    }
  }

  function ProposingStep(s: Setup, m: Machine, order: seq<Address>, runs: seq<LeaderRun>): Outcome {
    if order == [] then Outcome(m, Raised)
    else
      var p := InTurn(order[0], if s.mode.Normal? then order[1..] else [], runs, 0);
      var led := m.(leader := p.leader, remaining := p.remaining);
      if p.end.None? then Outcome(led, Raised)
      else
        var next :=
          if p.end.value then LeaderTimeoutState
          else if s.mode.LeaderOnly? then AcceptedState
          else CommittingState;
        var saved := if p.end.value then m.saved else m.saved.(timeoutValidators := []);
        Outcome(led.(saved := saved, receipts := m.receipts + [p.leader]), Go(next))
  }

  // ---- Committing and revealing ----------------------------------------------------------------

  function WaveOf(s: Setup, m: Machine): W.Wave {
    W.Start(Some(m.leader), m.remaining, s.nodes, true)
  }

  /** The events of a wave that ran to its end. */
  predicate WaveFits(s: Setup, m: Machine, wave: seq<W.Event>) {
    W.ValidRun(WaveOf(s, m), wave) && W.Run(WaveOf(s, m), wave).done && W.AllCollected(W.Run(WaveOf(s, m), wave))
  }

  /** The loop raises when nobody could vote. */
  function CommittingStep(s: Setup, m: Machine, wave: seq<W.Event>): Outcome
    requires WaveFits(s, m, wave)
  {
    var votes := W.Receipts(W.Run(WaveOf(s, m), wave).slots);
    Outcome(m.(votes := votes), if W.AllIdle(votes) then Raised else Go(RevealingState))
  }

  predicate Room(s: Setup, m: Machine) {
    HasAppealCapacity(|m.remaining|, |Leaders(m.saved) + {m.leader}|, |s.Registered()|)
  }

  function RevealedNext(s: Setup, m: Machine): Next {
    var result := DetermineConsensus(W.VotesOf(m.votes));
    var config := if s.config.Some? then s.config.value else 0;
    var outcome := RevealingOutcome(result, m.saved.flags, m.rotationCount, config);
    match outcome
    case ToAccepted => Go(AcceptedState)
    case ToValidatorsTimeout => Go(ValidatorsTimeoutState)
    case AppealSuccessful => Return(ValidatorAppealSuccessful)
    case _ =>
      if s.config.None? then Raised
      else Go(if outcome.ToRotation? && Room(s, m) then ProposingState else UndeterminedState)
  }

  function RevealingStep(s: Setup, m: Machine, drawn: seq<Address>): Outcome {
    var next := RevealedNext(s, m);
    if next == Go(UndeterminedState) then
      Outcome(m.(saved := m.saved.(flags := m.saved.flags.(leaderTimeout := false))), next)
    else if next == Go(ProposingState) then
      var v := m.saved;
      var entry := Entry(Some(RotationRound(v.flags.undetermined)), Some(m.leader));
      var counts := s.config == Some(0) || (s.config.Some? && v.rotations < s.config.value);
      var saved := v.(flags := v.flags.(leaderTimeout := false), history := v.history + [entry],
                      rotations := if counts then v.rotations + 1 else v.rotations);
      Outcome(m.(saved := saved, rotationCount := m.rotationCount + 1, involved := drawn + m.remaining), next)
    else Outcome(m, next)
  }

  /** Where a round of an ordinary run leads, by its votes: more than half agreeing accept, more than half
      timing out end in the timeout, and otherwise the leader is replaced while rotations and nodes are
      left. */
  lemma WhereVotesLead(s: Setup, m: Machine)
    requires !m.saved.flags.appealed && !m.saved.flags.validatorsTimeout
    ensures var votes, next := W.VotesOf(m.votes), RevealedNext(s, m);
            var agreed, late := 2 * Count(Agree, votes) > |votes|, 2 * Count(Timeout, votes) > |votes|;
            && (next == Go(AcceptedState) <==> agreed)
            && (next == Go(ValidatorsTimeoutState) <==> late)
            && (next == Raised <==> !agreed && !late && s.config.None?)
            && (next == Go(ProposingState) <==>
                  && !agreed && !late && s.config.Some? && m.rotationCount < s.config.value
                  && |m.remaining| + |LeadersOf(m.saved.history) + {m.leader}| < |Elements(s.nodes)|)
            && (next == Go(UndeterminedState) <==> !agreed && !late && s.config.Some? && next != Go(ProposingState))
  {
    hide LeadersOf, Elements;
    var config := if s.config.Some? then s.config.value else 0;
    WhatVotesLeadTo(W.VotesOf(m.votes), m.saved.flags, m.rotationCount, config);
    hide RevealingOutcome, DetermineConsensus;
  }

  /** Under an appeal of the validators the round either confirms what was appealed or makes the appeal
      succeed. */
  lemma WhereAppealVotesLead(s: Setup, m: Machine)
    requires m.saved.flags.appealed || m.saved.flags.validatorsTimeout
    ensures var votes, next := W.VotesOf(m.votes), RevealedNext(s, m);
            var agreed, late := 2 * Count(Agree, votes) > |votes|, 2 * Count(Timeout, votes) > |votes|;
            && (next == Go(AcceptedState) <==> m.saved.flags.appealed && agreed)
            && (next == Go(ValidatorsTimeoutState) <==> m.saved.flags.validatorsTimeout && late)
            && (next == Return(ValidatorAppealSuccessful) <==>
                  !(m.saved.flags.appealed && agreed) && !(m.saved.flags.validatorsTimeout && late))
  {
    var config := if s.config.Some? then s.config.value else 0;
    WhatVotesLeadTo(W.VotesOf(m.votes), m.saved.flags, m.rotationCount, config);
    hide RevealingOutcome, DetermineConsensus;
  }

  // ---- Final states ------------------------------------------------------------------------------

  function FinalNext(state: State, f: Flags): Next {
    if state.AcceptedState? && AcceptedReturn(f).Some? then Return(AcceptedReturn(f).value) else Stop
  }

  function FinalStep(m: Machine, state: State, fails: bool): Outcome
    requires Final(state)
  {
    if state.AcceptedState? && fails then Outcome(m, Raised)
    else
      var v := m.saved;
      var saved := v.(history := v.history + [TerminalEntry(state, v.flags, m.leader)],
                      flags := FlagsAfter(state, v.flags),
                      timeoutValidators := if state.LeaderTimeoutState? then m.remaining else v.timeoutValidators);
      Outcome(m.(saved := saved), FinalNext(state, v.flags))
  }

  /** A final state adds one record; only a leader timeout also keeps the remaining validators, for its
      appeal. */
  lemma WhatFinalStatesStore(m: Machine, state: State, fails: bool)
    requires Final(state)
    ensures var o := FinalStep(m, state, fails);
            && (o.next.Raised? <==> state.AcceptedState? && fails) && (o.next.Raised? ==> o.m == m)
            && (!o.next.Raised? ==>
                  && |o.m.saved.history| == |m.saved.history| + 1 && m.saved.history < o.m.saved.history
                  && o.m.saved.timeoutValidators ==
                       (if state.LeaderTimeoutState? then m.remaining else m.saved.timeoutValidators)
                  && o.m.rotationCount == m.rotationCount && o.m.saved.rotations == m.saved.rotations)
  {
  }

  // ---- Runs ----------------------------------------------------------------------------------------

  predicate Possible(s: Setup, m: Machine, state: State, c: Choices) {
    match state
    case PendingState => DrawFits(s, m.saved, c.drawn)
    case ProposingState => multiset(c.order) == multiset(m.involved) && |c.runs| == W.MAX_IDLE_REPLACEMENTS + 1
    case CommittingState => WaveFits(s, m, c.wave)
    case RevealingState =>
      RevealedNext(s, m) == Go(ProposingState) ==>
        Draw(s.Registered() - Elements(m.remaining) - (Leaders(m.saved) + {m.leader}), 1, c.drawn)
    case _ => true
  }

  function Step(s: Setup, m: Machine, state: State, c: Choices): Outcome
    requires Possible(s, m, state, c)
  {
    match state
    case PendingState => PendingStep(s, m, c.drawn)
    case ProposingState => ProposingStep(s, m, c.order, c.runs)
    case CommittingState => CommittingStep(s, m, c.wave)
    case RevealingState => RevealingStep(s, m, c.drawn)
    case _ => FinalStep(m, state, c.fails)
  }

  /** A script gives the choices of one state after the other, until one returns something else than a state. */
  predicate PossibleRun(s: Setup, m: Machine, state: State, script: seq<Choices>)
    decreases |script|
  {
    script == [] ||
    (Possible(s, m, state, script[0])
     && var o := Step(s, m, state, script[0]);
        if o.next.Go? then PossibleRun(s, o.m, o.next.state, script[1..]) else |script| == 1)
  }

  datatype End = End(m: Machine, state: State, next: Next)

  function RunScript(s: Setup, m: Machine, state: State, script: seq<Choices>): End
    requires PossibleRun(s, m, state, script)
    decreases |script|
  {
    if script == [] then End(m, state, Go(state))
    else
      var o := Step(s, m, state, script[0]);
      if o.next.Go? then RunScript(s, o.m, o.next.state, script[1..]) else End(o.m, state, o.next)
  }

  lemma ScriptOnTop(s: Setup, m: Machine, state: State, c: Choices, rest: seq<Choices>)
    requires Possible(s, m, state, c) && Step(s, m, state, c).next.Go?
    requires PossibleRun(s, Step(s, m, state, c).m, Step(s, m, state, c).next.state, rest)
    ensures PossibleRun(s, m, state, [c] + rest)
    ensures RunScript(s, m, state, [c] + rest) ==
      RunScript(s, Step(s, m, state, c).m, Step(s, m, state, c).next.state, rest)
  {
    assert ([c] + rest)[1..] == rest;
  }

  lemma {:induction false} ScriptOneMore(s: Setup, m: Machine, state: State, script: seq<Choices>, c: Choices)
    requires PossibleRun(s, m, state, script) && RunScript(s, m, state, script).next.Go?
    requires var e := RunScript(s, m, state, script); Possible(s, e.m, e.state, c)
    ensures PossibleRun(s, m, state, script + [c])
    ensures var e := RunScript(s, m, state, script);
            var o := Step(s, e.m, e.state, c);
            RunScript(s, m, state, script + [c]) == End(o.m, if o.next.Go? then o.next.state else e.state, o.next)
    decreases |script|
  {
    hide Possible, Step;
    if script == [] {
      assert script + [c] == [c] && [c][1..] == [];
    } else {
      var o := Step(s, m, state, script[0]);
      ScriptOneMore(s, o.m, o.next.state, script[1..], c);
      assert script + [c] == [script[0]] + (script[1..] + [c]);
      ScriptOnTop(s, m, state, script[0], script[1..] + [c]);
    }
  }

  lemma LastOfScript(s: Setup, m: Machine, state: State, c: Choices)
    requires Possible(s, m, state, c) && !Step(s, m, state, c).next.Go?
    ensures PossibleRun(s, m, state, [c])
    ensures RunScript(s, m, state, [c]) == End(Step(s, m, state, c).m, state, Step(s, m, state, c).next)
  {
  }

  // ---- What a run keeps ---------------------------------------------------------------------------

  function RotationEntries(leaders: seq<Address>, undetermined: bool): (r: seq<Item>)
    ensures |r| == |leaders|
    ensures forall i :: 0 <= i < |r| ==> r[i] == Entry(Some(RotationRound(undetermined)), Some(leaders[i]))
  {
    seq(|leaders|, i requires 0 <= i < |leaders| => Entry(Some(RotationRound(undetermined)), Some(leaders[i])))
  }

  lemma RecordOneLeader(h: seq<Item>, round: ConsensusRound, leader: Address)
    ensures LeadersOf(h + [Entry(Some(round), Some(leader))]) == LeadersOf(h) + {leader}
  {
    var all := h + [Entry(Some(round), Some(leader))];
    assert all[..|all| - 1] == h;
  }

  lemma {:induction false} LeadersAreRecorded(base: seq<Item>, leaders: seq<Address>, undetermined: bool)
    ensures forall i :: 0 <= i < |leaders| ==> leaders[i] in LeadersOf(base + RotationEntries(leaders, undetermined))
  {
    if leaders != [] {
      hide LeadersOf;
      var n := |leaders| - 1;
      LeadersAreRecorded(base, leaders[..n], undetermined);
      var before := base + RotationEntries(leaders[..n], undetermined);
      assert base + RotationEntries(leaders, undetermined) ==
             before + [Entry(Some(RotationRound(undetermined)), Some(leaders[n]))];
      RecordOneLeader(before, RotationRound(undetermined), leaders[n]);
      forall i | 0 <= i < n ensures leaders[i] in LeadersOf(before) {
        assert leaders[..n][i] in LeadersOf(before);
      }
    }
  }

  ghost predicate Counted(s: Setup, m: Machine, base: seq<Item>, u: bool) {
    && m.saved.flags.undetermined == u && !m.saved.flags.appealed && !m.saved.flags.validatorsTimeout
    && m.rotationCount == m.saved.rotations <= s.Limit() && m.rotationCount <= |m.receipts|
    && m.saved.history == base + RotationEntries(m.receipts[..m.rotationCount], u)
    && Distinct(m.receipts) && Distinct(s.nodes) && Distinct(m.saved.timeoutValidators)
  }

  /** A committee is chosen and none of it has led yet. */
  ghost predicate Ready(s: Setup, m: Machine, base: seq<Item>, u: bool) {
    && Counted(s, m, base, u) && |m.receipts| == m.rotationCount
    && Distinct(m.involved) && Elements(m.involved) !! Elements(m.receipts)
  }

  /** The current leader has produced its receipt. */
  ghost predicate Proposed(s: Setup, m: Machine, base: seq<Item>, u: bool) {
    && Counted(s, m, base, u) && |m.receipts| == m.rotationCount + 1 && m.receipts[m.rotationCount] == m.leader
    && Distinct(m.remaining) && Elements(m.remaining) !! Elements(m.receipts)
  }

  ghost predicate At(s: Setup, m: Machine, state: State, base: seq<Item>, u: bool, l: bool) {
    match state
    case PendingState => false
    case ProposingState => Ready(s, m, base, u) && m.saved.flags.leaderTimeout == (l && m.rotationCount == 0)
    case UndeterminedState => Proposed(s, m, base, u) && !m.saved.flags.leaderTimeout
    case _ =>
      && Proposed(s, m, base, u) && m.saved.flags.leaderTimeout == (l && m.rotationCount == 0)
      && (state.RevealingState? ==> W.DistinctSigners(m.votes))
  }

  /** The history grew by one record for each leader that was replaced, in order, and by the record of
      the final state with the last leader. */
  ghost predicate Recorded(m: Machine, base: seq<Item>, state: State, u: bool, l: bool)
    requires Final(state)
  {
    && |m.receipts| == m.rotationCount + 1
    && m.saved.history == base + RotationEntries(m.receipts[..m.rotationCount], u)
         + [TerminalEntry(state, Flags(false, false, u, l && m.rotationCount == 0), m.receipts[m.rotationCount])]
  }

  /** The appeal flag of a leader timeout outlives a run that did not rotate when the leader times out
      again, or when it was an appeal of an undetermined row as well. */
  predicate AppealFlagSurvives(state: State, u: bool, l: bool) {
    l && (state.LeaderTimeoutState? || (state.AcceptedState? && u))
  }

  /** What holds when the states have stopped, normally or with an exception. */
  ghost predicate Over(s: Setup, m: Machine, next: Next, state: State, base: seq<Item>, u: bool, l: bool) {
    && m.rotationCount == m.saved.rotations <= s.Limit() && Distinct(m.receipts) && |m.receipts| <= m.rotationCount + 1
    && Distinct(m.saved.timeoutValidators)
    && !next.Go?
    && (next.Stop? || next.Return? ==> Final(state) && Recorded(m, base, state, u, l))
    && (next.Stop? || next.Return? ==>
          m.saved.flags == Flags(false, false, false, AppealFlagSurvives(state, u, l && m.rotationCount == 0)))
    && (next.Stop? ==> !state.AcceptedState?)
    && (next.Return? ==>
          && state.AcceptedState?
          && next == FinalNext(AcceptedState, Flags(false, false, u, l && m.rotationCount == 0)))
  }

  lemma PendingKeeps(s: Setup, v: Saved, drawn: seq<Address>)
    requires Distinct(s.nodes) && Distinct(v.timeoutValidators) && DrawFits(s, v, drawn)
    ensures var o := PendingStep(s, Begin(v), drawn);
            && o.m.saved.rotations == 0 && o.m.rotationCount == 0 && o.m.receipts == []
            && o.m.saved.history == v.history
            && (o.next == Raised || o.next == Go(ProposingState))
            && (o.next.Go? ==>
                  At(s, o.m, ProposingState, v.history, UndeterminedAfterPending(v), v.flags.leaderTimeout))
  {
    var o := PendingStep(s, Begin(v), drawn);
    if o.next.Go? {
      hide LeadersOf;
      CommitteeIsDistinct(s, v.(rotations := 0), drawn);
      assert o.m.receipts[..0] == [] && RotationEntries([], UndeterminedAfterPending(v)) == [];
    }
  }

  lemma CommitteeIsDistinct(s: Setup, v: Saved, drawn: seq<Address>)
    requires Distinct(s.nodes) && Distinct(v.timeoutValidators) && DrawFits(s, v, drawn) && Committee(s, v, drawn).Some?
    ensures Distinct(Committee(s, v, drawn).value)
  {
    hide LeadersOf;
    if v.data.Some? {
      CurrentIsDistinct(s.Registered(), v.data.value.validators);
      CurrentIsDistinct(s.Registered(), AllStored(v.data.value));
    }
    if v.flags.appealed || v.flags.validatorsTimeout {
    } else if v.flags.undetermined {
      if v.data.Some? {
        AppendKeepsDistinct(Current(s.Registered(), v.data.value.validators), drawn);
      }
    } else if v.flags.leaderTimeout {
      AppendKeepsDistinct(drawn, v.timeoutValidators);
    }
  }

  /** Whoever proposes in the end, and the validators left over, are members of the committee. */
  lemma ProposersAreMembers(order: seq<Address>, alone: bool, runs: seq<LeaderRun>)
    requires order != [] && Distinct(order)
    ensures var p := InTurn(order[0], if alone then [] else order[1..], runs, 0);
            Distinct([p.leader] + p.remaining) && Elements([p.leader] + p.remaining) <= Elements(order)
  {
    var rest := if alone then [] else order[1..];
    var tried := [order[0]] + rest;
    assert tried == if alone then order[..1] else order;
    assert forall a :: a in tried ==> a in order;
    InTurnKeepsDistinct(order[0], rest, runs, 0);
  }

  /** The check that an appeal driver makes beforehand leaves the pending state a committee, enlarged by
      registered validators that neither were in it nor ever led. */
  lemma CheckedAppealHasCommittee(s: Setup, v: Saved, drawn: seq<Address>)
    requires DrawFits(s, v, drawn) && !v.flags.appealed && !v.flags.validatorsTimeout
    requires v.flags.undetermined || v.flags.leaderTimeout
    requires v.flags.undetermined ==> v.data.Some?
    requires var stored := if v.flags.undetermined then v.data.value.validators else v.timeoutValidators;
             HasAppealCapacity(|stored|, |Leaders(v)|, |s.Registered()|)
    ensures var stored := if v.flags.undetermined then v.data.value.validators else v.timeoutValidators;
            && drawn != []
            && (forall a :: a in drawn ==> a in s.nodes && a !in stored && a !in Leaders(v))
            && Committee(s, v, drawn) ==
                 Some(if v.flags.undetermined then Current(s.Registered(), stored) + drawn else drawn + stored)
  {
    hide Current, LeadersOf;
    var stored := if v.flags.undetermined then v.data.value.validators else v.timeoutValidators;
    SomeoneIsLeft(s.Registered(), stored, Leaders(v));
    assert |s.Registered() - Elements(stored) - Leaders(v)| > 0;
    forall a | a in drawn ensures a in s.nodes && a !in stored && a !in Leaders(v) {
      assert a in Elements(drawn);
    }
  }

  lemma ProposingKeeps(s: Setup, m: Machine, c: Choices, base: seq<Item>, u: bool, l: bool)
    requires At(s, m, ProposingState, base, u, l) && Possible(s, m, ProposingState, c)
    ensures var o := ProposingStep(s, m, c.order, c.runs);
            && o.m.saved.history == m.saved.history && o.m.rotationCount == m.rotationCount
            && (if o.next.Go? then
                  && At(s, o.m, o.next.state, base, u, l)
                  && o.next.state in {LeaderTimeoutState, AcceptedState, CommittingState}
                  && (o.next.state.CommittingState? ==> !s.mode.LeaderOnly?)
                  && Elements([o.m.leader] + o.m.remaining) <= Elements(m.involved)
                else o.next.Raised? && o.m.receipts == m.receipts)
  {
    hide RotationEntries, Distinct, Elements, InTurn;
    ShuffleKeepsDistinct(m.involved, c.order);
    if c.order != [] {
      ProposersAreMembers(c.order, !s.mode.Normal?, c.runs);
      NothingIsDistinct();
      var p := InTurn(c.order[0], if s.mode.Normal? then c.order[1..] else [], c.runs, 0);
      LeaderIsNew(m.receipts, p.leader, p.remaining);
      assert (m.receipts + [p.leader])[..m.rotationCount] == m.receipts[..m.rotationCount];
    }
  }

  /** With the committee of a run the wave ends with one receipt per slot and distinct signers. */
  lemma WaveDelivers(s: Setup, m: Machine, wave: seq<W.Event>, base: seq<Item>, u: bool)
    requires Proposed(s, m, base, u) && WaveFits(s, m, wave)
    ensures var votes := CommittingStep(s, m, wave).m.votes;
            && W.DistinctSigners(votes) && |votes| == 1 + |m.remaining|
            && forall r :: r in votes ==>
                 r.validator == m.leader || r.validator in m.remaining || r.validator in s.nodes
  {
    hide RotationEntries;
    assert m.leader in Elements(m.receipts);
    NewFirstKeepsDistinct([m.leader] + m.remaining);
    W.OneReceiptPerSlot(Some(m.leader), m.remaining, s.nodes, true, wave);
    W.PoolIsRegistered(s.nodes, Elements(W.LeaderAsSeq(Some(m.leader))) + Elements(m.remaining));
  }

  /** A rotation records the old leader, raises both counts and forgets the appeal of a leader timeout. */
  lemma RotatingKeeps(s: Setup, m: Machine, c: Choices, base: seq<Item>, u: bool, l: bool)
    requires At(s, m, RevealingState, base, u, l) && Possible(s, m, RevealingState, c)
    requires RevealedNext(s, m) == Go(ProposingState)
    ensures var o := RevealingStep(s, m, c.drawn);
            At(s, o.m, ProposingState, base, u, l) && o.m.rotationCount == m.rotationCount + 1 && Room(s, m)
  {
    hide LeadersOf, RotationEntries, DetermineConsensus, Distinct, Elements;
    assert Room(s, m) && s.config.Some? && m.rotationCount < s.config.value;
    var o := RevealingStep(s, m, c.drawn);
    var used := Leaders(m.saved) + {m.leader};
    SomeoneIsLeft(s.Registered(), m.remaining, used);
    OneIsDrawn(s.Registered() - Elements(m.remaining) - used, c.drawn);
    assert c.drawn[0] !in m.remaining by { MemberIsElement(m.remaining, c.drawn[0]); }
    assert m.receipts[..|m.receipts| - 1] == m.receipts[..m.rotationCount];
    RotatedIsReady(base, m.receipts, u, m.leader, m.remaining, c.drawn + m.remaining);
    assert m.receipts[..o.m.rotationCount] == m.receipts;
    var entry := Entry(Some(RotationRound(u)), Some(m.leader));
    assert o.m.saved.history == base + (RotationEntries(m.receipts[..m.rotationCount], u) + [entry]);
  }

  lemma MemberIsElement(s: seq<Address>, a: Address)
    ensures a in s <==> a in Elements(s)
  {
  }

  lemma RevealingKeeps(s: Setup, m: Machine, c: Choices, base: seq<Item>, u: bool, l: bool)
    requires At(s, m, RevealingState, base, u, l) && Possible(s, m, RevealingState, c)
    ensures var o := RevealingStep(s, m, c.drawn);
            && o.m.receipts == m.receipts
            && (if o.next == Go(ProposingState) then
                  At(s, o.m, ProposingState, base, u, l) && o.m.rotationCount == m.rotationCount + 1 && Room(s, m)
                else
                  && o.m.rotationCount == m.rotationCount
                  && (o.next.Go? ==> At(s, o.m, o.next.state, base, u, l) && Final(o.next.state))
                  && (!o.next.Go? ==> o.next.Raised? && o.m == m))
  {
    hide RotationEntries, DetermineConsensus, Distinct, Elements, Room;
    if RevealedNext(s, m) == Go(ProposingState) {
      RotatingKeeps(s, m, c, base, u, l);
    }
  }

  lemma OneIsDrawn(nodes: set<Address>, drawn: seq<Address>)
    requires nodes != {} && Draw(nodes, 1, drawn)
    ensures |drawn| == 1 && drawn[0] in nodes
  {
    assert |nodes| > 0;
    assert drawn[0] in Elements(drawn);
  }

  lemma FinalKeeps(s: Setup, m: Machine, state: State, fails: bool, base: seq<Item>, u: bool, l: bool)
    requires Final(state) && At(s, m, state, base, u, l)
    ensures var o := FinalStep(m, state, fails);
            Over(s, o.m, o.next, state, base, u, l) && o.m.rotationCount == m.rotationCount
  {
    hide RotationEntries;
    assert state.UndeterminedState? ==>
      TerminalEntry(state, m.saved.flags, m.leader) ==
        TerminalEntry(state, Flags(false, false, u, l && m.rotationCount == 0), m.leader);
  }

  /** An upper bound on the steps after the next one. */
  function Ahead(s: Setup, m: Machine, state: State): int {
    3 * (s.Limit() - m.rotationCount)
    + match state
      case PendingState => 4
      case ProposingState => 3
      case CommittingState => 2
      case RevealingState => 1
      case _ => 0
  }

  lemma StepKeepsAt(s: Setup, m: Machine, state: State, c: Choices, base: seq<Item>, u: bool, l: bool)
    requires At(s, m, state, base, u, l) && Possible(s, m, state, c)
    ensures var o := Step(s, m, state, c);
            if o.next.Go? then
              && At(s, o.m, o.next.state, base, u, l)
              && 0 <= Ahead(s, o.m, o.next.state) < Ahead(s, m, state)
            else Over(s, o.m, o.next, state, base, u, l)
  {
    hide RotationEntries, LeadersOf, TerminalEntry, DetermineConsensus, Distinct, Elements, Room, InTurn;
    match state
    case ProposingState => ProposingKeeps(s, m, c, base, u, l);
    case CommittingState => WaveDelivers(s, m, c.wave, base, u);
    case RevealingState => RevealingKeeps(s, m, c, base, u, l);
    case _ => FinalKeeps(s, m, state, c.fails, base, u, l);
  }

  lemma {:induction false} RestOfRun(s: Setup, m: Machine, state: State, script: seq<Choices>, base: seq<Item>, u: bool,
                                     l: bool)
    requires At(s, m, state, base, u, l) && PossibleRun(s, m, state, script)
    ensures var e := RunScript(s, m, state, script);
            && |script| <= Ahead(s, m, state) + 1
            && (if e.next.Go? then At(s, e.m, e.state, base, u, l) else Over(s, e.m, e.next, e.state, base, u, l))
    decreases |script|
  {
    hide At, Over, Possible, Step;
    if script == [] {
      AheadIsNat(s, m, state, base, u, l);
    } else {
      StepKeepsAt(s, m, state, script[0], base, u, l);
      var o := Step(s, m, state, script[0]);
      if o.next.Go? {
        RestOfRun(s, o.m, o.next.state, script[1..], base, u, l);
      } else {
        AheadIsNat(s, m, state, base, u, l);
      }
    }
  }

  lemma AheadIsNat(s: Setup, m: Machine, state: State, base: seq<Item>, u: bool, l: bool)
    requires At(s, m, state, base, u, l)
    ensures Ahead(s, m, state) >= 0
  {
  }

  /** Every run ends: it has at most as many steps as five states and three more for each rotation. And
      where it ends, it has recorded its rotations and one round, with leaders that are all different. */
  lemma RunIsOver(s: Setup, v: Saved, script: seq<Choices>)
    requires Distinct(s.nodes) && Distinct(v.timeoutValidators) && script != []
    requires PossibleRun(s, Begin(v), PendingState, script)
    ensures var e := RunScript(s, Begin(v), PendingState, script);
            var u, l := UndeterminedAfterPending(v), v.flags.leaderTimeout;
            && |script| <= 3 * s.Limit() + 5
            && (if e.next.Go? then At(s, e.m, e.state, v.history, u, l)
              else Over(s, e.m, e.next, e.state, v.history, u, l))
  {
    hide At, RunScript, PossibleRun, RotationEntries, Committee, DrawFits;
    var u, l := UndeterminedAfterPending(v), v.flags.leaderTimeout;
    FirstOfRun(s, Begin(v), PendingState, script);
    PendingKeeps(s, v, script[0].drawn);
    var o := Step(s, Begin(v), PendingState, script[0]);
    if o.next.Go? {
      RestOfRun(s, o.m, ProposingState, script[1..], v.history, u, l);
    }
  }

  lemma FirstOfRun(s: Setup, m: Machine, state: State, script: seq<Choices>)
    requires script != [] && PossibleRun(s, m, state, script)
    ensures Possible(s, m, state, script[0])
    ensures var o := Step(s, m, state, script[0]);
            if o.next.Go? then
              && PossibleRun(s, o.m, o.next.state, script[1..])
              && RunScript(s, m, state, script) == RunScript(s, o.m, o.next.state, script[1..])
            else |script| == 1 && RunScript(s, m, state, script) == End(o.m, state, o.next)
  {
  }

  /** What a run adds to the history is a run in the sense of `History.Produced`, so no completed round
      ever shows more rotations than are configured; and all of its leaders count as used. */
  lemma RecordedRunIsProduced(base: seq<Item>, leaders: seq<Address>, u: bool, state: State, flags: Flags, limit: nat)
    requires Final(state) && leaders != [] && |leaders| <= limit + 1 && !flags.appealed && !flags.validatorsTimeout
    ensures var rotations := RotationEntries(leaders[..|leaders| - 1], u);
            var last := TerminalEntry(state, flags, leaders[|leaders| - 1]);
            && Produced(Run(rotations, last), limit)
            && (forall a :: a in leaders ==> a in LeadersOf(base + rotations + [last]))
            && RotationsOfRounds(base + rotations + [last])
               == RotationsOfRounds(base) + [Trailing(base) + |leaders| - 1]
  {
    hide RotationEntries, LeadersOf, RotationsOfRounds, Trailing;
    var n := |leaders| - 1;
    var rotations, last := RotationEntries(leaders[..n], u), TerminalEntry(state, flags, leaders[n]);
    RunAppendsOneValue(base, Run(rotations, last), limit);
    LeadersAreRecorded(base, leaders[..n], u);
    RecordOneLeader(base + rotations, last.round.value, leaders[n]);
    forall a | a in leaders ensures a in LeadersOf(base + rotations + [last]) {
      var i :| 0 <= i < |leaders| && leaders[i] == a;
      assert i < n ==> leaders[..n][i] == a;
    }
  }

  lemma NothingIsDistinct()
    ensures Distinct([]) && Elements([]) == {}
  {
  }

  lemma FirstAndRest(first: Address, rest: seq<Address>)
    requires Distinct([first] + rest)
    ensures Distinct(rest) && first !in Elements(rest) && Elements([first] + rest) == {first} + Elements(rest)
  {
    var all := [first] + rest;
    forall i | 0 <= i < |rest| ensures rest[i] != first {
      assert all[i + 1] == rest[i] && all[0] == first;
    }
    forall i, j | 0 <= i < j < |rest| ensures rest[i] != rest[j] {
      assert all[i + 1] == rest[i] && all[j + 1] == rest[j];
    }
  }

  lemma LeaderIsNew(receipts: seq<Address>, leader: Address, rest: seq<Address>)
    requires Distinct(receipts) && Distinct([leader] + rest) && Elements([leader] + rest) !! Elements(receipts)
    ensures Distinct(receipts + [leader]) && Distinct(rest) && Elements(rest) !! Elements(receipts + [leader])
  {
    FirstAndRest(leader, rest);
    assert Elements([leader]) == {leader};
    AppendKeepsDistinct(receipts, [leader]);
    assert Elements(receipts + [leader]) == Elements(receipts) + {leader};
  }

  /** After a rotation the new committee still has nobody who led in this run. */
  lemma RotatedIsReady(base: seq<Item>, receipts: seq<Address>, u: bool, leader: Address, remaining: seq<Address>,
                       involved: seq<Address>)
    requires receipts != [] && receipts[|receipts| - 1] == leader
    requires Distinct(remaining) && Elements(remaining) !! Elements(receipts)
    requires involved != [] && involved[1..] == remaining && involved[0] !in remaining
    requires involved[0] !in LeadersOf(base + RotationEntries(receipts[..|receipts| - 1], u)) + {leader}
    ensures Distinct(involved) && Elements(involved) !! Elements(receipts)
    ensures RotationEntries(receipts, u) == RotationEntries(receipts[..|receipts| - 1], u)
            + [Entry(Some(RotationRound(u)), Some(leader))]
  {
    var n := |receipts| - 1;
    LeadersAreRecorded(base, receipts[..n], u);
    assert receipts == receipts[..n] + [leader];
    assert Elements(receipts) == Elements(receipts[..n]) + {leader};
    NewFirstKeepsDistinct(involved);
    assert involved == [involved[0]] + remaining;
    assert Elements(involved) == Elements(remaining) + {involved[0]};
  }

  lemma NewFirstKeepsDistinct(s: seq<Address>)
    requires s != [] && Distinct(s[1..]) && s[0] !in s[1..]
    ensures Distinct(s)
  {
    forall i, j | 0 <= i < j < |s| ensures s[i] != s[j] {
      assert s[1..][j - 1] == s[j];
      if i > 0 {
        assert s[1..][i - 1] == s[i];
      }
    }
  }
}
