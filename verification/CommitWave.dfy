/** The committing loop: slots run concurrently, a crashed or timed-out validator is replaced from a
    shared pool, and a decided vote stops the wave.

    The asynchronous tasks are modelled as a state machine. One event is what happens between two
    suspension points of the source, and an arbitrary event sequence stands for an arbitrary
    scheduling and completion order. */
module CommitWave {
  import opened Wrappers
  import opened Rows
  import opened Sequences
  import opened Voting

  const MAX_IDLE_REPLACEMENTS: nat := 5

  /** How one execution attempt ends: the slot's time budget runs out, or the node returns a vote,
      possibly together with a fatal internal error. */
  datatype Attempt = Expired | Finished(vote: Vote, fatal: bool)

  datatype Task =
    | Running(current: Address, attempt: nat)
    | Returned(receipt: Receipt)   // the validator is done, the wave has not seen it yet
    | Collected(receipt: Receipt)

  datatype Slot = Slot(validator: Address, task: Task)

  datatype Wave = Wave(slots: seq<Slot>, pool: seq<Address>, cycles: nat, done: bool)

  datatype Event =
    | Try(slot: nat, outcome: Attempt)
    | Collect(batch: set<nat>)
    | Close

  // ---- Setting up -------------------------------------------------------------------------

  function Unassigned(nodes: seq<Address>, busy: set<Address>): seq<Address> {
    if nodes == [] then []
    else (if nodes[0] in busy then [] else [nodes[0]]) + Unassigned(nodes[1..], busy)
  }

  function LeaderAsSeq(leader: Option<Address>): seq<Address> {
    if leader.Some? then [leader.value] else []
  }

  /** The leader votes in a slot of its own only in a round it has just proposed. */
  function Start(leader: Option<Address>, remaining: seq<Address>, nodes: seq<Address>, leaderVotes: bool): Wave {
    var toRun := (if leaderVotes then LeaderAsSeq(leader) else []) + remaining;
    Wave(seq(|toRun|, i requires 0 <= i < |toRun| => Slot(toRun[i], Running(toRun[i], 0))),
         Unassigned(nodes, Elements(LeaderAsSeq(leader)) + Elements(remaining)), 0, false)
  }

  // ---- Steps ------------------------------------------------------------------------------

  /** One attempt of the single-validator task of slot i. */
  function TryStep(w: Wave, i: nat, outcome: Attempt): Wave
    requires i < |w.slots| && w.slots[i].task.Running?
  {
    var Running(current, attempt) := w.slots[i].task;
    match outcome
    case Expired => SetTask(w, i, Returned(Receipt(current, Timeout)))
    case Finished(vote, fatal) =>
      if !fatal then SetTask(w, i, Returned(Receipt(current, vote)))
      else if attempt < MAX_IDLE_REPLACEMENTS && w.pool != [] then
        SetTask(w, i, Running(w.pool[0], attempt + 1)).(pool := w.pool[1..])
      else SetTask(w, i, Returned(Receipt(current, Idle)))
  }

  function SetTask(w: Wave, i: nat, task: Task): Wave
    requires i < |w.slots|
  {
    w.(slots := w.slots[i := w.slots[i].(task := task)])
  }

  function CollectSlots(slots: seq<Slot>, batch: set<nat>): (r: seq<Slot>)
    ensures |r| == |slots|
  {
    seq(|slots|, i requires 0 <= i < |slots| =>
      if i in batch && slots[i].task.Returned? then slots[i].(task := Collected(slots[i].task.receipt)) else slots[i])
  }

  /** The votes of the slots collected so far, in slot order. */
  function CastVotes(slots: seq<Slot>): seq<Vote> {
    if slots == [] then []
    else (if slots[0].task.Collected? then [slots[0].task.receipt.vote] else []) + CastVotes(slots[1..])
  }

  /** Cancelled slots get a synthetic idle receipt in the name of the slot's own validator. */
  function FillIdle(slots: seq<Slot>): (r: seq<Slot>)
    ensures |r| == |slots|
  {
    seq(|slots|, i requires 0 <= i < |slots| =>
      if slots[i].task.Collected? then slots[i] else slots[i].(task := Collected(Receipt(slots[i].validator, Idle))))
  }

  function CollectStep(w: Wave, batch: set<nat>): Wave {
    var slots := CollectSlots(w.slots, batch);
    if IsQuorumReached(CastVotes(slots), |slots|) then w.(slots := FillIdle(slots), done := true)
    else w.(slots := slots)
  }

  predicate TimedOutSlot(slot: Slot) {
    slot.task.Collected? && slot.task.receipt.vote == Timeout
  }

  /** Timed-out slots are handed to fresh validators, in slot order from i on, while the pool lasts. */
  function Refill(slots: seq<Slot>, pool: seq<Address>, i: nat): (seq<Slot>, seq<Address>)
    decreases |slots| - i
  {
    if i >= |slots| then (slots, pool)
    else if TimedOutSlot(slots[i]) && pool != [] then
      Refill(slots[i := Slot(pool[0], Running(pool[0], 0))], pool[1..], i + 1)
    else Refill(slots, pool, i + 1)
  }

  function CloseStep(w: Wave): Wave {
    if w.cycles >= MAX_IDLE_REPLACEMENTS || w.pool == [] || !(exists slot :: slot in w.slots && TimedOutSlot(slot))
    then w.(done := true)
    else
      var (slots, pool) := Refill(w.slots, w.pool, 0);
      Wave(slots, pool, w.cycles + 1, false)
  }

  predicate AllCollected(w: Wave) {
    forall i :: 0 <= i < |w.slots| ==> w.slots[i].task.Collected?
  }

  predicate Enabled(w: Wave, e: Event) {
    && !w.done
    && match e
       case Try(i, _) => i < |w.slots| && w.slots[i].task.Running?
       case Collect(batch) => batch != {} && forall i :: i in batch ==> i < |w.slots| && w.slots[i].task.Returned?
       case Close => AllCollected(w)
  }

  function Step(w: Wave, e: Event): Wave
    requires Enabled(w, e)
  {
    match e
    case Try(i, outcome) => TryStep(w, i, outcome)
    case Collect(batch) => CollectStep(w, batch)
    case Close => CloseStep(w)
  }

  predicate ValidRun(w: Wave, events: seq<Event>)
    decreases |events|
  {
    events == [] || (Enabled(w, events[0]) && ValidRun(Step(w, events[0]), events[1..]))
  }

  function Run(w: Wave, events: seq<Event>): Wave
    requires ValidRun(w, events)
    decreases |events|
  {
    if events == [] then w else Run(Step(w, events[0]), events[1..])
  }

  // ---- No validator is ever in two places ---------------------------------------------------

  function Holder(task: Task): Address {
    match task
    case Running(current, _) => current
    case Returned(receipt) => receipt.validator
    case Collected(receipt) => receipt.validator
  }

  predicate Owns(slot: Slot, a: Address) {
    a == slot.validator || a == Holder(slot.task)
  }

  predicate Apart(s: Slot, t: Slot) {
    !Owns(t, s.validator) && !Owns(t, Holder(s.task))
  }

  ghost predicate SlotsApart(slots: seq<Slot>) {
    forall i, j :: 0 <= i < j < |slots| ==> Apart(slots[i], slots[j])
  }

  ghost predicate PoolApart(slots: seq<Slot>, pool: seq<Address>) {
    forall i, k :: 0 <= i < |slots| && 0 <= k < |pool| ==> !Owns(slots[i], pool[k])
  }

  ghost predicate Separate(slots: seq<Slot>, pool: seq<Address>) {
    SlotsApart(slots) && Distinct(pool) && PoolApart(slots, pool)
  }

  ghost predicate Valid(w: Wave) {
    && Separate(w.slots, w.pool)
    && (w.done ==> AllCollected(w))
  }

  ghost predicate IsSuffix(a: seq<Address>, b: seq<Address>) {
    |a| <= |b| && b[|b| - |a|..] == a
  }

  /** A slot that gets the next validator of the pool stays apart from the others and from the rest. */
  lemma HandOutKeepsSeparate(slots: seq<Slot>, pool: seq<Address>, i: nat, slot: Slot)
    requires Separate(slots, pool) && i < |slots| && pool != []
    requires forall a :: Owns(slot, a) ==> Owns(slots[i], a) || a == pool[0]
    ensures Separate(slots[i := slot], pool[1..])
  {
    assert Owns(slot, slot.validator) && Owns(slot, Holder(slot.task));
    var slots' := slots[i := slot];
    forall j | 0 <= j < |slots| && j != i ensures Apart(slots'[j], slot) && Apart(slot, slots'[j]) {
      assert if j < i then Apart(slots[j], slots[i]) else Apart(slots[i], slots[j]);
      assert !Owns(slots[j], pool[0]);
    }
    forall j, k | 0 <= j < |slots'| && 0 <= k < |pool[1..]| ensures !Owns(slots'[j], pool[1..][k]) {
      assert pool[1..][k] == pool[k + 1];
      assert !Owns(slots[j], pool[k + 1]);
    }
  }

  lemma SameOwnersKeepSeparate(slots: seq<Slot>, slots': seq<Slot>, pool: seq<Address>)
    requires Separate(slots, pool) && |slots'| == |slots|
    requires forall i :: 0 <= i < |slots| ==> forall a :: Owns(slots'[i], a) ==> Owns(slots[i], a)
    ensures Separate(slots', pool)
  {
    forall i, j | 0 <= i < j < |slots| ensures Apart(slots'[i], slots'[j]) {
      assert Apart(slots[i], slots[j]);
      assert Owns(slots'[i], slots'[i].validator) && Owns(slots'[i], Holder(slots'[i].task));
    }
  }

  lemma SuffixOfTail(a: seq<Address>, b: seq<Address>)
    requires b != [] && IsSuffix(a, b[1..])
    ensures IsSuffix(a, b)
  {
    assert b[1..][|b| - 1 - |a|..] == b[|b| - |a|..];
  }

  /** Refilling takes validators from the front of the pool. */
  lemma {:induction false} RefillKeepsSeparate(slots: seq<Slot>, pool: seq<Address>, i: nat)
    requires Separate(slots, pool)
    ensures var (s, p) := Refill(slots, pool, i);
            && |s| == |slots| && Separate(s, p) && IsSuffix(p, pool)
            && (forall j :: 0 <= j < |s| ==>
                  s[j] == slots[j] || (s[j].validator in pool && s[j].task == Running(s[j].validator, 0)))
    decreases |slots| - i
  {
    if i < |slots| {
      if TimedOutSlot(slots[i]) && pool != [] {
        hide Separate, TimedOutSlot;
        var slot := Slot(pool[0], Running(pool[0], 0));
        HandOutKeepsSeparate(slots, pool, i, slot);
        RefillKeepsSeparate(slots[i := slot], pool[1..], i + 1);
        var (s, p) := Refill(slots, pool, i);
        SuffixOfTail(p, pool);
      } else {
        hide Separate, TimedOutSlot;
        RefillKeepsSeparate(slots, pool, i + 1);
      }
    }
  }

  lemma TryKeepsValid(w: Wave, i: nat, outcome: Attempt)
    requires Valid(w) && Enabled(w, Try(i, outcome))
    ensures Valid(TryStep(w, i, outcome)) && IsSuffix(TryStep(w, i, outcome).pool, w.pool)
  {
    hide Separate;
    var w' := TryStep(w, i, outcome);
    if w'.pool != w.pool {
      HandOutKeepsSeparate(w.slots, w.pool, i, w'.slots[i]);
    } else {
      SameOwnersKeepSeparate(w.slots, w'.slots, w.pool);
    }
  }

  lemma CollectKeepsValid(w: Wave, batch: set<nat>)
    requires Valid(w) && Enabled(w, Collect(batch))
    ensures Valid(CollectStep(w, batch))
  {
    hide Separate, IsQuorumReached;
    SameOwnersKeepSeparate(w.slots, CollectStep(w, batch).slots, w.pool);
  }

  lemma CloseKeepsValid(w: Wave)
    requires Valid(w) && Enabled(w, Close)
    ensures Valid(CloseStep(w)) && IsSuffix(CloseStep(w).pool, w.pool) && |CloseStep(w).slots| == |w.slots|
  {
    hide Separate;
    RefillKeepsSeparate(w.slots, w.pool, 0);
  }

  lemma StepKeepsValid(w: Wave, e: Event)
    requires Valid(w) && Enabled(w, e)
    ensures Valid(Step(w, e)) && IsSuffix(Step(w, e).pool, w.pool) && |Step(w, e).slots| == |w.slots|
  {
    hide Valid, CloseStep;
    match e
    case Try(i, outcome) => TryKeepsValid(w, i, outcome);
    case Collect(batch) => CollectKeepsValid(w, batch);
    case Close => CloseKeepsValid(w);
  }

  lemma {:induction false} RunKeepsValid(w: Wave, events: seq<Event>)
    requires Valid(w) && ValidRun(w, events)
    ensures Valid(Run(w, events)) && IsSuffix(Run(w, events).pool, w.pool) && |Run(w, events).slots| == |w.slots|
    decreases |events|
  {
    if events != [] {
      StepKeepsValid(w, events[0]);
      RunKeepsValid(Step(w, events[0]), events[1..]);
    }
  }

  lemma {:induction false} UnassignedIsDisjoint(nodes: seq<Address>, busy: set<Address>)
    requires Distinct(nodes)
    ensures Distinct(Unassigned(nodes, busy))
    ensures forall a :: a in Unassigned(nodes, busy) <==> a in nodes && a !in busy
  {
    if nodes != [] {
      UnassignedIsDisjoint(nodes[1..], busy);
      assert nodes == [nodes[0]] + nodes[1..];
    }
  }

  lemma {:induction false} PoolIsRegistered(nodes: seq<Address>, busy: set<Address>)
    ensures forall a :: a in Unassigned(nodes, busy) ==> a in nodes && a !in busy
  {
    if nodes != [] {
      PoolIsRegistered(nodes[1..], busy);
      assert nodes == [nodes[0]] + nodes[1..];
    }
  }

  /** Leader and committee are drawn without repetition, nodes have distinct addresses. */
  ghost predicate ProperCommittee(leader: Option<Address>, remaining: seq<Address>, nodes: seq<Address>) {
    && Distinct(LeaderAsSeq(leader) + remaining)
    && Distinct(nodes)
  }

  lemma StartIsValid(leader: Option<Address>, remaining: seq<Address>, nodes: seq<Address>, leaderVotes: bool)
    requires ProperCommittee(leader, remaining, nodes)
    ensures Valid(Start(leader, remaining, nodes, leaderVotes))
  {
    var w := Start(leader, remaining, nodes, leaderVotes);
    UnassignedIsDisjoint(nodes, Elements(LeaderAsSeq(leader)) + Elements(remaining));
    var all := LeaderAsSeq(leader) + remaining;
    assert leader.Some? && !leaderVotes ==> remaining == all[1..];
    forall i, k | 0 <= i < |w.slots| && 0 <= k < |w.pool| ensures !Owns(w.slots[i], w.pool[k]) {
      assert w.pool[k] in w.pool;
      assert w.slots[i].validator in LeaderAsSeq(leader) || w.slots[i].validator in remaining;
    }
  }

  // ---- The loop terminates ------------------------------------------------------------------

  function Weight(slot: Slot): nat {
    match slot.task
    case Running(_, attempt) => if attempt <= MAX_IDLE_REPLACEMENTS then 2 + MAX_IDLE_REPLACEMENTS - attempt else 2
    case Returned(_) => 1
    case Collected(_) => 0
  }

  const FULL_WEIGHT: nat := 2 + MAX_IDLE_REPLACEMENTS

  function TotalWeight(slots: seq<Slot>): nat {
    if slots == [] then 0 else Weight(slots[0]) + TotalWeight(slots[1..])
  }

  /** An upper bound on the events still to come. */
  function Measure(w: Wave): nat {
    (if w.cycles <= MAX_IDLE_REPLACEMENTS then MAX_IDLE_REPLACEMENTS - w.cycles else 0) * (FULL_WEIGHT * |w.slots| + 1)
    + TotalWeight(w.slots) + (if w.done then 0 else 1)
  }

  lemma {:induction false} LighterSlots(a: seq<Slot>, b: seq<Slot>)
    requires |a| == |b| && forall i :: 0 <= i < |a| ==> Weight(a[i]) <= Weight(b[i])
    ensures TotalWeight(a) <= TotalWeight(b)
    ensures (exists i :: 0 <= i < |a| && Weight(a[i]) < Weight(b[i])) ==> TotalWeight(a) < TotalWeight(b)
  {
    if a != [] {
      LighterSlots(a[1..], b[1..]);
      if i :| 0 <= i < |a| && Weight(a[i]) < Weight(b[i]) {
        assert i > 0 ==> a[1..][i - 1] == a[i] && b[1..][i - 1] == b[i];
      }
    }
  }

  lemma {:induction false} WeightIsBounded(slots: seq<Slot>)
    ensures TotalWeight(slots) <= FULL_WEIGHT * |slots|
  {
    if slots != [] {
      WeightIsBounded(slots[1..]);
    }
  }

  predicate AttemptsBounded(slots: seq<Slot>) {
    forall i :: 0 <= i < |slots| && slots[i].task.Running? ==> slots[i].task.attempt <= MAX_IDLE_REPLACEMENTS
  }

  lemma TaskLowersMeasure(w: Wave, w': Wave, i: nat)
    requires i < |w.slots| == |w'.slots| && !w.done && w'.cycles == w.cycles
    requires forall j :: 0 <= j < |w.slots| ==> Weight(w'.slots[j]) <= Weight(w.slots[j])
    requires Weight(w'.slots[i]) < Weight(w.slots[i])
    ensures Measure(w') < Measure(w)
  {
    LighterSlots(w'.slots, w.slots);
  }

  lemma CloseLowersMeasure(w: Wave)
    requires Valid(w) && Enabled(w, Close) && AttemptsBounded(w.slots)
    ensures Measure(CloseStep(w)) < Measure(w) && AttemptsBounded(CloseStep(w).slots)
  {
    hide Separate, Refill, TotalWeight;
    var w' := CloseStep(w);
    RefillKeepsSeparate(w.slots, w.pool, 0);
    WeightIsBounded(w'.slots);
    if !w'.done {
      var n, m: nat := MAX_IDLE_REPLACEMENTS - w'.cycles, FULL_WEIGHT * |w.slots| + 1;
      assert Measure(w) == (n + 1) * m + TotalWeight(w.slots) + 1;
      assert Measure(w') == n * m + TotalWeight(w'.slots) + 1;
    }
  }

  lemma StepLowersMeasure(w: Wave, e: Event)
    requires Valid(w) && Enabled(w, e) && AttemptsBounded(w.slots)
    ensures Measure(Step(w, e)) < Measure(w) && AttemptsBounded(Step(w, e).slots)
  {
    hide Measure, Valid, CloseStep, IsQuorumReached;
    match e
    case Try(i, outcome) =>
      TaskLowersMeasure(w, Step(w, e), i);
    case Collect(batch) =>
      var i :| i in batch;
      TaskLowersMeasure(w, Step(w, e), i);
    case Close =>
      CloseLowersMeasure(w);
  }

  lemma {:induction false} RunIsBounded(w: Wave, events: seq<Event>)
    requires Valid(w) && ValidRun(w, events)
    requires AttemptsBounded(w.slots)
    ensures |events| + Measure(Run(w, events)) <= Measure(w)
    decreases |events|
  {
    if events != [] {
      StepKeepsValid(w, events[0]);
      StepLowersMeasure(w, events[0]);
      RunIsBounded(Step(w, events[0]), events[1..]);
    }
  }

  /** Until the loop is over, some event can happen. */
  lemma NeverStuck(w: Wave)
    requires !w.done
    ensures exists e :: Enabled(w, e)
  {
    if AllCollected(w) {
      assert Enabled(w, Close);
    } else {
      var i: nat :| i < |w.slots| && !w.slots[i].task.Collected?;
      assert Enabled(w, if w.slots[i].task.Running? then Try(i, Expired) else Collect({i}));
    }
  }

  lemma StartIsBounded(w: Wave)
    requires AttemptsBounded(w.slots) && w.cycles == 0 && !w.done
    ensures Measure(w) <= (MAX_IDLE_REPLACEMENTS + 1) * (FULL_WEIGHT * |w.slots| + 1)
  {
    WeightIsBounded(w.slots);
  }

  /** Whatever the schedule, the number of events is bounded by the committee size, and a run that
      cannot be prolonged has finished. */
  lemma CommittingLoopTerminates(leader: Option<Address>, remaining: seq<Address>, nodes: seq<Address>,
                                 leaderVotes: bool, events: seq<Event>)
    requires ProperCommittee(leader, remaining, nodes)
    requires ValidRun(Start(leader, remaining, nodes, leaderVotes), events)
    ensures var w := Start(leader, remaining, nodes, leaderVotes);
            && |events| <= (MAX_IDLE_REPLACEMENTS + 1) * (FULL_WEIGHT * |w.slots| + 1)
            && (Run(w, events).done || exists e :: Enabled(Run(w, events), e))
  {
    hide Measure, Run, ValidRun, Enabled, Valid;
    var w := Start(leader, remaining, nodes, leaderVotes);
    StartIsValid(leader, remaining, nodes, leaderVotes);
    RunIsBounded(w, events);
    StartIsBounded(w);
    if !Run(w, events).done {
      NeverStuck(Run(w, events));
    }
  }

  // ---- The result ---------------------------------------------------------------------------

  function Receipts(slots: seq<Slot>): (r: seq<Receipt>)
    requires forall i :: 0 <= i < |slots| ==> slots[i].task.Collected?
    ensures |r| == |slots| && forall i :: 0 <= i < |r| ==> r[i] == slots[i].task.receipt
  {
    seq(|slots|, i requires 0 <= i < |slots| => slots[i].task.receipt)
  }

  function VotesOf(receipts: seq<Receipt>): (v: seq<Vote>)
    ensures |v| == |receipts| && forall i :: 0 <= i < |v| ==> v[i] == receipts[i].vote
  {
    seq(|receipts|, i requires 0 <= i < |receipts| => receipts[i].vote)
  }

  ghost predicate DistinctSigners(receipts: seq<Receipt>) {
    forall i, j :: 0 <= i < j < |receipts| ==> receipts[i].validator != receipts[j].validator
  }

  /** The commit fails as a whole when nobody could vote. */
  predicate AllIdle(receipts: seq<Receipt>) {
    forall r :: r in receipts ==> r.vote == Idle
  }

  /** A dictionary in insertion order, as the source's vote map is. */
  type VoteMap = seq<(Address, Vote)>

  function Put(votes: VoteMap, key: Address, vote: Vote): VoteMap {
    if votes == [] then [(key, vote)]
    else if votes[0].0 == key then [(key, vote)] + votes[1..]
    else [votes[0]] + Put(votes[1..], key, vote)
  }

  function Values(votes: VoteMap): (v: seq<Vote>)
    ensures |v| == |votes| && forall i :: 0 <= i < |v| ==> v[i] == votes[i].1
  {
    seq(|votes|, i requires 0 <= i < |votes| => votes[i].1)
  }

  lemma {:induction false} PutFreshKeyAppends(votes: VoteMap, key: Address, vote: Vote)
    requires forall i :: 0 <= i < |votes| ==> votes[i].0 != key
    ensures Put(votes, key, vote) == votes + [(key, vote)]
  {
    if votes != [] {
      PutFreshKeyAppends(votes[1..], key, vote);
    }
  }

  /** The revealing state keys the votes by address; with distinct signers nothing is overwritten and
      the map holds exactly one entry per receipt, in order. */
  method TallyVotes(receipts: seq<Receipt>) returns (votes: VoteMap)
    requires DistinctSigners(receipts)
    ensures |votes| == |receipts|
    ensures forall i :: 0 <= i < |votes| ==> votes[i] == (receipts[i].validator, receipts[i].vote)
    ensures DetermineConsensus(Values(votes)) == DetermineConsensus(VotesOf(receipts))
  {
    votes := [];
    for k := 0 to |receipts|
      invariant |votes| == k
      invariant forall i :: 0 <= i < k ==> votes[i] == (receipts[i].validator, receipts[i].vote)
    {
      PutFreshKeyAppends(votes, receipts[k].validator, receipts[k].vote);
      votes := Put(votes, receipts[k].validator, receipts[k].vote);
    }
    assert Values(votes) == VotesOf(receipts);
  }

  /** For every schedule, with any crashes and timeouts: a finished loop has exactly one receipt per
      slot, no two from the same validator, every signer was in the committee or in the pool, and the
      pool was consumed from the front. */
  lemma OneReceiptPerSlot(leader: Option<Address>, remaining: seq<Address>, nodes: seq<Address>, leaderVotes: bool,
                          events: seq<Event>)
    requires ProperCommittee(leader, remaining, nodes)
    requires ValidRun(Start(leader, remaining, nodes, leaderVotes), events)
    requires Run(Start(leader, remaining, nodes, leaderVotes), events).done
    ensures var w := Start(leader, remaining, nodes, leaderVotes);
            var end := Run(w, events);
            && AllCollected(end) && |Receipts(end.slots)| == |w.slots|
            && DistinctSigners(Receipts(end.slots))
            && IsSuffix(end.pool, w.pool)
            && (forall r :: r in Receipts(end.slots) ==>
                r.validator in remaining || r.validator in w.pool || leader == Some(r.validator))
            && (forall r :: r in Receipts(end.slots) ==> r.validator !in end.pool)
  {
    var w := Start(leader, remaining, nodes, leaderVotes);
    StartIsValid(leader, remaining, nodes, leaderVotes);
    RunKeepsValid(w, events);
    var end := Run(w, events);
    var rs := Receipts(end.slots);
    forall i, j | 0 <= i < j < |rs| ensures rs[i].validator != rs[j].validator {
      assert Apart(end.slots[i], end.slots[j]);
    }
    var known := Elements(LeaderAsSeq(leader)) + Elements(remaining) + Elements(w.pool);
    RunStaysAmong(w, events, known);
    forall i | 0 <= i < |rs| ensures rs[i].validator in known && rs[i].validator !in end.pool {
      assert Owns(end.slots[i], rs[i].validator);
    }
  }

  ghost predicate Among(w: Wave, known: set<Address>) {
    && (forall i :: 0 <= i < |w.slots| ==> w.slots[i].validator in known && Holder(w.slots[i].task) in known)
    && (forall k :: 0 <= k < |w.pool| ==> w.pool[k] in known)
  }

  lemma StepStaysAmong(w: Wave, e: Event, known: set<Address>)
    requires Valid(w) && Enabled(w, e) && Among(w, known)
    ensures Among(Step(w, e), known)
  {
    hide Separate, IsQuorumReached, Refill;
    match e
    case Try(i, outcome) =>
    case Collect(batch) =>
    case Close =>
      var w' := CloseStep(w);
      RefillKeepsSeparate(w.slots, w.pool, 0);
      forall k | 0 <= k < |w'.pool| ensures w'.pool[k] in known {
        assert w'.pool[k] == w.pool[|w.pool| - |w'.pool|..][k];
      }
      assert forall a :: a in w.pool ==> a in known;
  }

  lemma {:induction false} RunStaysAmong(w: Wave, events: seq<Event>, known: set<Address>)
    requires Valid(w) && ValidRun(w, events) && Among(w, known)
    ensures Among(Run(w, events), known)
    decreases |events|
  {
    if events != [] {
      StepKeepsValid(w, events[0]);
      StepStaysAmong(w, events[0], known);
      RunStaysAmong(Step(w, events[0]), events[1..], known);
    }
  }

  // ---- The early stop changes nothing --------------------------------------------------------

  /** The votes that a completion gives to the slots not yet collected. */
  function Missing(slots: seq<Slot>, votes: seq<Vote>): seq<Vote>
    requires |slots| == |votes|
  {
    if slots == [] then []
    else (if slots[0].task.Collected? then [] else [votes[0]]) + Missing(slots[1..], votes[1..])
  }

  lemma {:induction false} SplitVotes(slots: seq<Slot>, votes: seq<Vote>)
    requires |slots| == |votes|
    requires forall i :: 0 <= i < |slots| && slots[i].task.Collected? ==> votes[i] == slots[i].task.receipt.vote
    ensures multiset(votes) == multiset(CastVotes(slots) + Missing(slots, votes))
    ensures |CastVotes(slots)| + |Missing(slots, votes)| == |slots|
  {
    if slots != [] {
      SplitVotes(slots[1..], votes[1..]);
      assert votes == [votes[0]] + votes[1..];
    }
  }

  /** When a wave is cut short, the result of the round is the one that any votes of the cancelled
      slots would have led to. */
  lemma CancelledVotesDoNotMatter(w: Wave, batch: set<nat>, votes: seq<Vote>)
    requires !w.done && Enabled(w, Collect(batch)) && CollectStep(w, batch).done
    requires |votes| == |w.slots|
    requires var slots := CollectSlots(w.slots, batch);
             forall i :: 0 <= i < |slots| && slots[i].task.Collected? ==> votes[i] == slots[i].task.receipt.vote
    ensures AllCollected(CollectStep(w, batch))
    ensures DetermineConsensus(votes) == DetermineConsensus(VotesOf(Receipts(CollectStep(w, batch).slots)))
  {
    hide DetermineConsensus, CastVotes, Missing;
    var slots := CollectSlots(w.slots, batch);
    var cast := CastVotes(slots);
    var filled := VotesOf(Receipts(FillIdle(slots)));
    SplitVotes(slots, votes);
    SplitVotes(slots, filled);
    EarlyStopIsExact(cast, |slots|, Missing(slots, votes));
    EarlyStopIsExact(cast, |slots|, Missing(slots, filled));
    ConsensusIgnoresOrder(votes, cast + Missing(slots, votes));
    ConsensusIgnoresOrder(filled, cast + Missing(slots, filled));
  }

  // ---- Any unanimous outcome is possible ------------------------------------------------------

  lemma NoEvents(w: Wave)
    ensures ValidRun(w, []) && Run(w, []) == w
  {
  }

  lemma {:induction false} RunOneMore(w: Wave, events: seq<Event>, e: Event)
    requires ValidRun(w, events) && Enabled(Run(w, events), e)
    ensures ValidRun(w, events + [e]) && Run(w, events + [e]) == Step(Run(w, events), e)
    decreases |events|
  {
    hide Enabled, Step;
    if events == [] {
      assert ([] + [e])[1..] == [];
    } else {
      RunOneMore(Step(w, events[0]), events[1..], e);
      assert (events + [e])[1..] == events[1..] + [e];
    }
  }

  /** The first k slots have returned the vote, the others are as at the start. */
  ghost predicate Answered(w: Wave, start: Wave, vote: Vote, k: nat) {
    && !w.done && |w.slots| == |start.slots| && k <= |w.slots|
    && (forall i :: 0 <= i < k ==> w.slots[i].task == Returned(Receipt(start.slots[i].validator, vote)))
    && (forall i :: k <= i < |w.slots| ==> w.slots[i] == start.slots[i])
  }

  ghost predicate Started(w: Wave) {
    !w.done && forall i :: 0 <= i < |w.slots| ==> w.slots[i].task == Running(w.slots[i].validator, 0)
  }

  lemma {:induction false} AnswerFirst(w: Wave, vote: Vote, k: nat) returns (events: seq<Event>)
    requires Started(w) && k <= |w.slots|
    ensures ValidRun(w, events) && Answered(Run(w, events), w, vote, k)
    decreases k
  {
    if k == 0 {
      events := [];
    } else {
      hide Run, ValidRun;
      events := AnswerFirst(w, vote, k - 1);
      var e := Try(k - 1, Finished(vote, false));
      RunOneMore(w, events, e);
      events := events + [e];
    }
  }

  lemma {:induction false} CountOfUniform(v: Vote, w: Vote, votes: seq<Vote>)
    requires forall i :: 0 <= i < |votes| ==> votes[i] == w
    ensures Count(v, votes) == if v == w then |votes| else 0
  {
    if votes != [] {
      CountOfUniform(v, w, votes[1..]);
    }
  }

  lemma UnanimousResult(votes: seq<Vote>, vote: Vote)
    requires votes != [] && (vote.Agree? || vote.Disagree?) && forall i :: 0 <= i < |votes| ==> votes[i] == vote
    ensures DetermineConsensus(votes) == if vote.Agree? then MajorityAgree else MajorityDisagree
    ensures IsQuorumReached(votes, |votes|)
  {
    forall v: Vote ensures Count(v, votes) == if v == vote then |votes| else 0 {
      CountOfUniform(v, vote, votes);
    }
    var r := DetermineConsensus(votes);
    forall completion: seq<Vote> | |completion| == 0 ensures DetermineConsensus(votes + completion) == r {
      assert votes + completion == votes;
    }
    assert Decided(votes, |votes|, r);
    QuorumIffDecided(votes, |votes|);
  }

  lemma {:induction false} AllCast(slots: seq<Slot>, vote: Vote)
    requires forall i :: 0 <= i < |slots| ==> slots[i].task.Collected? && slots[i].task.receipt.vote == vote
    ensures |CastVotes(slots)| == |slots| && forall i :: 0 <= i < |slots| ==> CastVotes(slots)[i] == vote
  {
    if slots != [] {
      AllCast(slots[1..], vote);
    }
  }

  function Indices(n: nat): (r: set<nat>)
    ensures forall i: nat :: i in r <==> i < n
  {
    if n == 0 then {} else Indices(n - 1) + {n - 1}
  }

  /** Every committee can agree, and every committee can disagree, without a replacement. */
  lemma UnanimousWave(w: Wave, vote: Vote) returns (events: seq<Event>)
    requires Started(w) && w.slots != [] && (vote.Agree? || vote.Disagree?)
    ensures ValidRun(w, events) && Run(w, events).done && AllCollected(Run(w, events))
    ensures var receipts := Receipts(Run(w, events).slots);
            && |receipts| == |w.slots| && !AllIdle(receipts)
            && DetermineConsensus(VotesOf(receipts)) == if vote.Agree? then MajorityAgree else MajorityDisagree
  {
    hide Run, ValidRun, DetermineConsensus, IsQuorumReached, CastVotes;
    events := AnswerFirst(w, vote, |w.slots|);
    var mid := Run(w, events);
    var all := Indices(|w.slots|);
    assert 0 in all;
    assert Enabled(mid, Collect(all));
    RunOneMore(w, events, Collect(all));
    events := events + [Collect(all)];
    var slots := CollectSlots(mid.slots, all);
    AllCast(slots, vote);
    UnanimousResult(CastVotes(slots), vote);
    var end := Run(w, events);
    assert end == CollectStep(mid, all) && end.slots == FillIdle(slots);
    var receipts := Receipts(end.slots);
    assert receipts[0] in receipts && receipts[0].vote == vote;
    UnanimousResult(VotesOf(receipts), vote);
  }

  /** A finished loop raises exactly when every receipt is idle; then the tally would have read a
      majority against, although nobody voted against. */
  lemma AllIdleReadsAsDisagreement(receipts: seq<Receipt>)
    requires receipts != [] && AllIdle(receipts)
    ensures DetermineConsensus(VotesOf(receipts)) == MajorityDisagree && Count(Disagree, VotesOf(receipts)) == 0
  {
    forall v: Vote ensures Count(v, VotesOf(receipts)) == if v == Idle then |receipts| else 0 {
      CountOfUniform(v, Idle, VotesOf(receipts));
    }
  }
}
