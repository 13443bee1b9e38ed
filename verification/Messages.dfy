/** The value that a contract's messages withdraw when their transaction is accepted and finalized. */
module Messages {
  import opened Wrappers
  import opened Rows
  import opened Accounts

  datatype Phase = OnAcceptance | OnFinalization

  /** A message to the outside (a plain transfer), or to another contract. */
  datatype Message = Message(external: bool, on: Phase, value: nat, recipient: Address)

  function ExternalTotal(ms: seq<Message>): nat {
    if ms == [] then 0 else ExternalTotal(Init(ms)) + if Last(ms).external then Last(ms).value else 0
  }

  function ExternalFor(ms: seq<Message>, on: Phase): nat {
    if ms == [] then 0
    else ExternalFor(Init(ms), on) + if Last(ms).external && Last(ms).on == on then Last(ms).value else 0
  }

  function InternalFor(ms: seq<Message>, on: Phase): nat {
    if ms == [] then 0
    else InternalFor(Init(ms), on) + if !Last(ms).external && Last(ms).on == on then Last(ms).value else 0
  }

  /** The messages of a phase, in order; they become the child transactions. */
  function ForPhase(ms: seq<Message>, on: Phase): seq<Message> {
    if ms == [] then [] else if Last(ms).on == on then ForPhase(Init(ms), on) + [Last(ms)] else ForPhase(Init(ms), on)
  }

  function ValueOf(ms: seq<Message>): nat {
    if ms == [] then 0 else ValueOf(Init(ms)) + Last(ms).value
  }

  function Init(ms: seq<Message>): seq<Message>
    requires ms != []
  {
    ms[..|ms| - 1]
  }

  function Last(ms: seq<Message>): Message
    requires ms != []
  {
    ms[|ms| - 1]
  }

  /** Without backing external messages are dropped and internal ones lose their value. */
  function Adjusted(ms: seq<Message>, on: Phase, externalBacked: bool, internalBacked: bool): seq<Message> {
    if ms == [] then [] else
      var before, m := Adjusted(Init(ms), on, externalBacked, internalBacked), Last(ms);
      if m.on == on && m.value > 0 && m.external && !externalBacked then before
      else if m.on == on && m.value > 0 && !m.external && !internalBacked then before + [m.(value := 0)]
      else before + [m]
  }

  method AdjustUnbackedMessageValues(ms: seq<Message>, on: Phase, externalBacked: bool, internalBacked: bool)
    returns (adjusted: seq<Message>)
    ensures adjusted == Adjusted(ms, on, externalBacked, internalBacked)
  {
    adjusted := [];
    for i := 0 to |ms|
      invariant adjusted == Adjusted(ms[..i], on, externalBacked, internalBacked)
    {
      assert Init(ms[..i + 1]) == ms[..i];
      if ms[i].on == on && ms[i].value > 0 {
        if ms[i].external && !externalBacked {
          continue;
        }
        if !ms[i].external && !internalBacked {
          adjusted := adjusted + [ms[i].(value := 0)];
          continue;
        }
      }
      adjusted := adjusted + [ms[i]];
    }
    assert ms[..|ms|] == ms;
  }

  // ---- Withdrawing ---------------------------------------------------------------------------

  datatype Withdrawal = Withdrawal(balance: int, messages: seq<Message>, externalBacked: bool, internalBacked: bool)

  /** What is still frozen for external messages once this phase has paid its own. */
  function FrozenAfter(ms: seq<Message>, on: Phase, olderFreeze: nat): nat {
    olderFreeze + if on.OnAcceptance? then ExternalFor(ms, OnFinalization) else 0
  }

  function Withdraw(balance: int, ms: seq<Message>, on: Phase, olderFreeze: nat): Withdrawal {
    var external, internal := ExternalFor(ms, on), InternalFor(ms, on);
    var externalBacked := external == 0 || balance >= external;
    var afterExternal := if externalBacked then balance - external else balance;
    var internalBacked := internal == 0 || afterExternal - FrozenAfter(ms, on, olderFreeze) >= internal;
    Withdrawal(if internalBacked then afterExternal - internal else afterExternal,
               Adjusted(ms, on, externalBacked, internalBacked), externalBacked, internalBacked)
  }

  method ApplyMessageValueWithdrawals(m: AccountsManager, contract: Address, ms: seq<Message>, on: Phase,
                                      olderFreeze: nat)
    returns (emitted: seq<Message>)
    modifies m`balances
    ensures var w := Withdraw(Balance(old(m.Now()), contract), ms, on, olderFreeze);
            emitted == w.messages && Balance(m.Now(), contract) == w.balance
    ensures forall a :: a != contract ==> Balance(m.Now(), a) == Balance(old(m.Now()), a)
    // what the contract can afford beside the freezes is paid in full
    ensures var frozen := olderFreeze + if on.OnAcceptance? then ExternalFor(ms, OnFinalization) else 0;
            var due, held := ExternalFor(ms, on) + InternalFor(ms, on), Balance(old(m.Now()), contract);
            due + frozen <= held ==> emitted == ms && Balance(m.Now(), contract) == held - due
  {
    FullyBackedIsUnchanged(ms, on);
    hide ExternalFor, InternalFor, Adjusted;
    var external := ExternalFor(ms, on);
    var externalBacked := true;
    if external > 0 {
      externalBacked := m.DebitAccountBalance(contract, external);
    }
    var internal := InternalFor(ms, on);
    var internalBacked := true;
    if internal > 0 {
      var balance := if contract in m.balances then m.balances[contract] else 0;
      var free := balance - FrozenAfter(ms, on, olderFreeze);
      var cap := if free > 0 then free else 0;
      if internal > cap {
        internalBacked := false;
      } else {
        internalBacked := m.DebitAccountBalance(contract, internal);
      }
    }
    if externalBacked && internalBacked {
      FullyBackedIsUnchanged(ms, on);
      return ms;
    }
    emitted := AdjustUnbackedMessageValues(ms, on, externalBacked, internalBacked);
  }

  lemma {:induction false} FullyBackedIsUnchanged(ms: seq<Message>, on: Phase)
    ensures Adjusted(ms, on, true, true) == ms
  {
    if ms != [] {
      FullyBackedIsUnchanged(Init(ms), on);
    }
  }

  lemma {:induction false} PhaseValue(ms: seq<Message>, on: Phase)
    ensures ValueOf(ForPhase(ms, on)) == ExternalFor(ms, on) + InternalFor(ms, on)
  {
    if ms != [] {
      PhaseValue(Init(ms), on);
      assert ms == Init(ms) + [Last(ms)];
      OneMorePhase(Init(ms), Last(ms), on);
    }
  }

  lemma {:induction false} AdjustedElsewhere(ms: seq<Message>, on: Phase, external: bool, internal: bool, other: Phase)
    requires other != on
    ensures ForPhase(Adjusted(ms, on, external, internal), other) == ForPhase(ms, other)
  {
    if ms != [] {
      hide Adjusted, ForPhase;
      var init, m := Init(ms), Last(ms);
      var before, last := Adjusted(init, on, external, internal), Adjusted([m], on, external, internal);
      AdjustedElsewhere(init, on, external, internal, other);
      assert ms == init + [m];
      OneMoreAdjusted(init, m, on, external, internal);
      OneMorePhase(init, m, other);
      AdjustedOfOne(m, on, external, internal);
      if last == [] {
        assert before + last == before;
      } else {
        OneMorePhase(before, last[0], other);
      }
    }
  }

  /** The value of the messages that are left in a phase, for each of the four combinations; those of
      the other phase stay as they are. */
  lemma AdjustedValue(ms: seq<Message>, on: Phase, externalBacked: bool, internalBacked: bool)
    ensures var adjusted := Adjusted(ms, on, externalBacked, internalBacked);
            && ValueOf(ForPhase(adjusted, on)) ==
                 (if externalBacked then ExternalFor(ms, on) else 0)
                   + (if internalBacked then InternalFor(ms, on) else 0)
            && forall other: Phase :: other != on ==> ForPhase(adjusted, other) == ForPhase(ms, other)
  {
    hide *;
    PhaseValue(Adjusted(ms, on, externalBacked, internalBacked), on);
    AdjustedSums(ms, on, externalBacked, internalBacked);
    forall other: Phase | other != on
      ensures ForPhase(Adjusted(ms, on, externalBacked, internalBacked), other) == ForPhase(ms, other)
    {
      AdjustedElsewhere(ms, on, externalBacked, internalBacked, other);
    }
  }

  lemma OneMorePhase(ms: seq<Message>, m: Message, on: Phase)
    ensures ValueOf(ForPhase(ms + [m], on)) == ValueOf(ForPhase(ms, on)) + if m.on == on then m.value else 0
    ensures forall other: Phase ::
      ForPhase(ms + [m], other) == if m.on == other then ForPhase(ms, other) + [m] else ForPhase(ms, other)
  {
    assert Init(ms + [m]) == ms;
    assert Init(ForPhase(ms, on) + [m]) == ForPhase(ms, on);
  }

  /** The amount that leaves the contract's balance is exactly the value that the children emitted in
      the phase carry. Messages of the other phase are untouched. */
  lemma DebitEqualsEmittedValue(balance: int, ms: seq<Message>, on: Phase, olderFreeze: nat)
    ensures var w := Withdraw(balance, ms, on, olderFreeze);
            && balance - w.balance == ValueOf(ForPhase(w.messages, on))
            && forall other: Phase :: other != on ==> ForPhase(w.messages, other) == ForPhase(ms, other)
  {
    var w := Withdraw(balance, ms, on, olderFreeze);
    AdjustedValue(ms, on, w.externalBacked, w.internalBacked);
  }

  // ---- Message by message ------------------------------------------------------------------------

  lemma OneMoreSum(ms: seq<Message>, m: Message, on: Phase)
    ensures ExternalFor(ms + [m], on) == ExternalFor(ms, on) + if m.external && m.on == on then m.value else 0
    ensures InternalFor(ms + [m], on) == InternalFor(ms, on) + if !m.external && m.on == on then m.value else 0
    ensures ExternalTotal(ms + [m]) == ExternalTotal(ms) + if m.external then m.value else 0
  {
    assert Init(ms + [m]) == ms;
  }

  lemma {:induction false} SumsAdd(a: seq<Message>, b: seq<Message>, on: Phase)
    ensures ExternalFor(a + b, on) == ExternalFor(a, on) + ExternalFor(b, on)
    ensures InternalFor(a + b, on) == InternalFor(a, on) + InternalFor(b, on)
    ensures ExternalTotal(a + b) == ExternalTotal(a) + ExternalTotal(b)
    decreases |b|
  {
    if b == [] {
      assert a + b == a;
    } else {
      hide ExternalFor, InternalFor, ExternalTotal;
      SumsAdd(a, Init(b), on);
      assert a + b == (a + Init(b)) + [Last(b)] && b == Init(b) + [Last(b)];
      OneMoreSum(a + Init(b), Last(b), on);
      OneMoreSum(Init(b), Last(b), on);
    }
  }

  /** A message counts for its own kind and phase, with its value. */
  lemma SumsOfOne(m: Message, on: Phase)
    ensures ExternalFor([m], on) == if m.external && m.on == on then m.value else 0
    ensures InternalFor([m], on) == if !m.external && m.on == on then m.value else 0
    ensures ExternalTotal([m]) == if m.external then m.value else 0
  {
    assert Init([m]) == [];
  }

  lemma OneMoreAdjusted(ms: seq<Message>, m: Message, on: Phase, external: bool, internal: bool)
    ensures Adjusted(ms + [m], on, external, internal) ==
            Adjusted(ms, on, external, internal) + Adjusted([m], on, external, internal)
  {
    assert Init(ms + [m]) == ms && Init([m]) == [];
  }

  lemma {:induction false} AdjustedAdds(a: seq<Message>, b: seq<Message>, on: Phase, external: bool, internal: bool)
    ensures Adjusted(a + b, on, external, internal) ==
            Adjusted(a, on, external, internal) + Adjusted(b, on, external, internal)
    decreases |b|
  {
    if b == [] {
      assert a + b == a;
    } else {
      var init, m := Init(b), Last(b);
      assert b == init + [m] && a + b == (a + init) + [m];
      hide *;
      AdjustedAdds(a, init, on, external, internal);
      OneMoreAdjusted(a + init, m, on, external, internal);
      OneMoreAdjusted(init, m, on, external, internal);
      assert Adjusted(a, on, external, internal)
             + (Adjusted(init, on, external, internal) + Adjusted([m], on, external, internal))
        == Adjusted(a, on, external, internal)
           + Adjusted(init, on, external, internal) + Adjusted([m], on, external, internal);
    }
  }

  /** Each message on its own: without backing an external one of the phase goes and an internal one keeps
      everything but its value; all others, and those without value, stay as they are. */
  lemma AdjustedOfOne(m: Message, on: Phase, external: bool, internal: bool)
    ensures Adjusted([m], on, external, internal) ==
            if m.on != on || m.value == 0 || (if m.external then external else internal) then [m]
            else if m.external then []
            else [Message(false, on, 0, m.recipient)]
  {
    assert Init([m]) == [];
  }

  /** Whatever a contract can afford beside the freezes is paid in full: the messages leave as they are and
      the balance falls by what they carry. */
  lemma AffordableIsPaid(balance: int, ms: seq<Message>, on: Phase, olderFreeze: nat)
    requires var frozen := olderFreeze + if on.OnAcceptance? then ExternalFor(ms, OnFinalization) else 0;
             ExternalFor(ms, on) + InternalFor(ms, on) + frozen <= balance
    ensures var w := Withdraw(balance, ms, on, olderFreeze);
            w.messages == ms && w.balance == balance - ExternalFor(ms, on) - InternalFor(ms, on)
  {
    FullyBackedIsUnchanged(ms, on);
  }

  /** What is paid at all: the external messages of the phase exactly if the balance covers them together,
      then the internal ones exactly if they fit into what the freezes leave. */
  lemma WhatIsPaid(balance: int, ms: seq<Message>, on: Phase, olderFreeze: nat)
    ensures var w := Withdraw(balance, ms, on, olderFreeze);
            var external, internal := ExternalFor(ms, on), InternalFor(ms, on);
            var frozen := olderFreeze + if on.OnAcceptance? then ExternalFor(ms, OnFinalization) else 0;
            var paid := if external <= balance then external else 0;
            var fits := internal == 0 || paid + internal + frozen <= balance;
            && ExternalFor(w.messages, on) == paid
            && InternalFor(w.messages, on) == (if fits then internal else 0)
            && w.balance == balance - ExternalFor(w.messages, on) - InternalFor(w.messages, on)
            && w.messages == Adjusted(ms, on, external == 0 || external <= balance, fits)
  {
    var w := Withdraw(balance, ms, on, olderFreeze);
    AdjustedSums(ms, on, w.externalBacked, w.internalBacked);
  }

  lemma OneAdjustedSum(before: seq<Message>, m: Message, on: Phase, external: bool, internal: bool)
    ensures var after := before + Adjusted([m], on, external, internal);
            && ExternalFor(after, on) ==
                 ExternalFor(before, on) + (if external && m.external && m.on == on then m.value else 0)
            && InternalFor(after, on) ==
                 InternalFor(before, on) + if internal && !m.external && m.on == on then m.value else 0
  {
    AdjustedOfOne(m, on, external, internal);
    hide Adjusted, ExternalFor, InternalFor;
    OneMoreSum(before, m, on);
    OneMoreSum(before, Message(false, on, 0, m.recipient), on);
    assert before + [] == before;
  }

  lemma {:induction false} AdjustedSums(ms: seq<Message>, on: Phase, external: bool, internal: bool)
    ensures var adjusted := Adjusted(ms, on, external, internal);
            && ExternalFor(adjusted, on) == (if external then ExternalFor(ms, on) else 0)
            && InternalFor(adjusted, on) == if internal then InternalFor(ms, on) else 0
    decreases |ms|
  {
    hide *;
    if ms == [] {
      NothingAdjusted(on, external, internal);
    } else {
      var init, m := Init(ms), Last(ms);
      LastApart(ms);
      AdjustedSums(init, on, external, internal);
      OneMoreAdjusted(init, m, on, external, internal);
      OneMoreSum(init, m, on);
      OneAdjustedSum(Adjusted(init, on, external, internal), m, on, external, internal);
    }
  }

  lemma LastApart(ms: seq<Message>)
    requires ms != []
    ensures ms == Init(ms) + [Last(ms)] && |Init(ms)| < |ms|
  {
  }

  lemma NothingAdjusted(on: Phase, external: bool, internal: bool)
    ensures Adjusted([], on, external, internal) == [] && ExternalFor([], on) == InternalFor([], on) == 0
  {
  }

  /** A withdrawal never takes what is frozen for others: internal value only comes from what the freeze
      leaves free, and external value only from what is there. */
  lemma WithdrawalRespectsFreeze(balance: int, ms: seq<Message>, on: Phase, olderFreeze: nat)
    requires balance >= 0
    ensures var w := Withdraw(balance, ms, on, olderFreeze);
            && w.balance >= 0
            && (w.internalBacked && InternalFor(ms, on) > 0 ==> w.balance >= FrozenAfter(ms, on, olderFreeze))
  {
  }

  // ---- The freeze of a contract ----------------------------------------------------------------

  datatype Stage = Waiting | Accepted | Done

  /** The contract's transactions in creation order; the messages are those of the leader receipt, none
      if the execution failed. */
  datatype Tx = Tx(createdAt: real, stage: Stage, messages: seq<Message>)

  function Freeze(tx: Tx): nat {
    if tx.stage.Accepted? then ExternalFor(tx.messages, OnFinalization) else 0
  }

  /** What accepted transactions created before the given time will withdraw when they are finalized. */
  function FrozenBefore(txs: seq<Tx>, time: real): nat {
    if txs == [] then 0
    else FrozenBefore(txs[..|txs| - 1], time) + if txs[|txs| - 1].createdAt < time then Freeze(txs[|txs| - 1]) else 0
  }

  function Reserve(txs: seq<Tx>): nat {
    if txs == [] then 0 else Reserve(txs[..|txs| - 1]) + Freeze(txs[|txs| - 1])
  }

  method PendingFreezeTotal(txs: seq<Tx>, time: real) returns (total: nat)
    ensures total == FrozenBefore(txs, time)
  {
    total := 0;
    for i := 0 to |txs|
      invariant total == FrozenBefore(txs[..i], time)
    {
      assert txs[..i + 1][..i] == txs[..i];
      if txs[i].stage.Accepted? && txs[i].createdAt < time {
        total := total + ExternalFor(txs[i].messages, OnFinalization);
      }
    }
    assert txs[..|txs|] == txs;
  }

  /** The receipt keeps its messages only if everything it sends outside fits beside the older freezes. */
  function AfterFreezeCheck(balance: int, ms: seq<Message>, success: bool, reserved: nat): seq<Message> {
    var declared := ExternalTotal(ms);
    var available := if balance - reserved > 0 then balance - reserved else 0;
    if !success || (declared > 0 && declared > available) then [] else ms
  }

  /** A receipt keeps its messages exactly if it succeeded and what it sends outside, in both phases, fits
      beside the older freezes. */
  lemma FreezeCheckIff(balance: int, ms: seq<Message>, success: bool, reserved: nat)
    requires ms != []
    ensures AfterFreezeCheck(balance, ms, success, reserved) == ms <==>
      success && (ExternalTotal(ms) == 0 || ExternalTotal(ms) <= balance - reserved)
    ensures AfterFreezeCheck(balance, ms, success, reserved) in {ms, []}
  {
  }

  /** A transaction is reserved for while it is accepted, and before any later one. */
  lemma ReservedForOne(txs: seq<Tx>, tx: Tx, time: real)
    ensures FrozenBefore(txs + [tx], time) ==
            FrozenBefore(txs, time)
            + (if tx.stage.Accepted? && tx.createdAt < time then ExternalFor(tx.messages, OnFinalization) else 0)
    ensures Reserve(txs + [tx]) ==
            Reserve(txs) + if tx.stage.Accepted? then ExternalFor(tx.messages, OnFinalization) else 0
  {
    assert (txs + [tx])[..|txs|] == txs;
  }

  datatype Contract = Contract(balance: int, txs: seq<Tx>)

  predicate InCreationOrder(c: Contract) {
    forall i, j :: 0 <= i < j < |c.txs| ==> c.txs[i].createdAt < c.txs[j].createdAt
  }

  datatype Event =
    | Create(createdAt: real)
    | Deposit(value: nat)
    | Accept(i: nat, messages: seq<Message>, success: bool)
    | Finalize(i: nat)
    | Abandon(i: nat)       // it ends without ever being accepted: undetermined, timed out or canceled

  /** Transactions are accepted, and finalized, in creation order and once. */
  predicate Enabled(c: Contract, e: Event) {
    match e
    case Create(createdAt) => forall j :: 0 <= j < |c.txs| ==> c.txs[j].createdAt < createdAt
    case Deposit(value) => true
    case Accept(i, messages, success) =>
      && i < |c.txs| && c.txs[i].stage.Waiting?
      && (forall j :: i < j < |c.txs| ==> !c.txs[j].stage.Accepted?)
    case Finalize(i) =>
      && i < |c.txs| && c.txs[i].stage.Accepted?
      && forall j :: 0 <= j < i ==> c.txs[j].stage.Done?
    case Abandon(i) => i < |c.txs| && c.txs[i].stage.Waiting?
  }

  function Step(c: Contract, e: Event): Contract
    requires Enabled(c, e)
  {
    match e
    case Create(createdAt) => c.(txs := c.txs + [Tx(createdAt, Waiting, [])])
    case Deposit(value) => c.(balance := c.balance + value)
    case Accept(i, messages, success) =>
      var reserved := FrozenBefore(c.txs, c.txs[i].createdAt);
      var kept := AfterFreezeCheck(c.balance, messages, success, reserved);
      var w := Withdraw(c.balance, kept, OnAcceptance, reserved);
      Contract(w.balance, c.txs[i := c.txs[i].(stage := Stage.Accepted, messages := kept)])
    case Finalize(i) =>
      var w := Withdraw(c.balance, c.txs[i].messages, OnFinalization, FrozenBefore(c.txs, c.txs[i].createdAt));
      Contract(w.balance, c.txs[i := c.txs[i].(stage := Done)])
    case Abandon(i) => c.(txs := c.txs[i := c.txs[i].(stage := Done)])
  }

  predicate OnlyExternalAtFinalization(ms: seq<Message>) {
    InternalFor(ms, OnFinalization) == 0
  }

  ghost predicate Solvent(c: Contract) {
    InCreationOrder(c) && c.balance >= Reserve(c.txs)
  }

  lemma {:induction false} ReserveUpdate(txs: seq<Tx>, i: nat, tx: Tx)
    requires i < |txs|
    ensures Reserve(txs[i := tx]) == Reserve(txs) + Freeze(tx) - Freeze(txs[i])
  {
    var n := |txs| - 1;
    var updated := txs[i := tx];
    if i < n {
      ReserveUpdate(txs[..n], i, tx);
      assert updated[..n] == txs[..n][i := tx];
    } else {
      assert updated[..n] == txs[..n];
    }
  }

  lemma {:induction false} AllFrozenBefore(txs: seq<Tx>, time: real)
    requires forall j :: 0 <= j < |txs| && txs[j].stage.Accepted? ==> txs[j].createdAt < time
    ensures FrozenBefore(txs, time) == Reserve(txs)
  {
    if txs != [] {
      AllFrozenBefore(txs[..|txs| - 1], time);
    }
  }

  lemma {:induction false} NoneFrozenBefore(txs: seq<Tx>, time: real)
    requires forall j :: 0 <= j < |txs| && txs[j].stage.Accepted? ==> txs[j].createdAt >= time
    ensures FrozenBefore(txs, time) == 0
  {
    if txs != [] {
      NoneFrozenBefore(txs[..|txs| - 1], time);
    }
  }

  lemma {:induction false} TotalIsBothPhases(ms: seq<Message>)
    ensures ExternalTotal(ms) == ExternalFor(ms, OnAcceptance) + ExternalFor(ms, OnFinalization)
  {
    if ms != [] {
      TotalIsBothPhases(Init(ms));
    }
  }

  /** Accepting never endangers what is frozen already, whatever the new transaction sends. */
  lemma AcceptKeepsSolvent(c: Contract, e: Event)
    requires Solvent(c) && e.Accept? && Enabled(c, e)
    ensures Solvent(Step(c, e))
  {
    var tx := c.txs[e.i];
    AllFrozenBefore(c.txs, tx.createdAt);
    var kept := AfterFreezeCheck(c.balance, e.messages, e.success, Reserve(c.txs));
    TotalIsBothPhases(kept);
    ReserveUpdate(c.txs, e.i, tx.(stage := Stage.Accepted, messages := kept));
  }

  /** Finalizing the oldest transaction pays its external messages in full, and keeps the rest covered
      exactly when its internal messages leave the younger freezes alone. */
  lemma FinalizeKeepsSolventIff(c: Contract, i: nat)
    requires Solvent(c) && Enabled(c, Finalize(i))
    ensures var ms := c.txs[i].messages;
            var free := c.balance - ExternalFor(ms, OnFinalization);
            && Withdraw(c.balance, ms, OnFinalization, FrozenBefore(c.txs, c.txs[i].createdAt)).externalBacked
            && (Solvent(Step(c, Finalize(i))) <==>
                  InternalFor(ms, OnFinalization) > free
                  || free - InternalFor(ms, OnFinalization) >= Reserve(c.txs) - ExternalFor(ms, OnFinalization))
  {
    var tx := c.txs[i];
    NoneFrozenBefore(c.txs, tx.createdAt);
    ReserveUpdate(c.txs, i, tx.(stage := Done));
  }

  predicate ValidRun(c: Contract, events: seq<Event>)
    decreases |events|
  {
    events == [] || (Enabled(c, events[0]) && ValidRun(Step(c, events[0]), events[1..]))
  }

  function Run(c: Contract, events: seq<Event>): Contract
    requires ValidRun(c, events)
    decreases |events|
  {
    if events == [] then c else Run(Step(c, events[0]), events[1..])
  }

  ghost predicate Covered(c: Contract) {
    Solvent(c) && forall i :: 0 <= i < |c.txs| ==> OnlyExternalAtFinalization(c.txs[i].messages)
  }

  lemma KeptMessages(balance: int, ms: seq<Message>, success: bool, reserved: nat)
    ensures AfterFreezeCheck(balance, ms, success, reserved) in {ms, []}
  {
  }

  lemma StepKeepsCovered(c: Contract, e: Event)
    requires Covered(c) && Enabled(c, e) && (e.Accept? ==> OnlyExternalAtFinalization(e.messages))
    ensures Covered(Step(c, e))
    ensures e.Finalize? ==>
      Withdraw(c.balance, c.txs[e.i].messages, OnFinalization, FrozenBefore(c.txs, c.txs[e.i].createdAt)).externalBacked
  {
    hide Withdraw, AfterFreezeCheck, FrozenBefore;
    match e
    case Create(createdAt) => assert (c.txs + [Tx(createdAt, Waiting, [])])[..|c.txs|] == c.txs;
    case Deposit(value) =>
    case Accept(i, messages, success) =>
      AcceptKeepsSolvent(c, e);
      KeptMessages(c.balance, messages, success, FrozenBefore(c.txs, c.txs[i].createdAt));
    case Finalize(i) => FinalizeKeepsSolventIff(c, i);
    case Abandon(i) => ReserveUpdate(c.txs, i, c.txs[i].(stage := Done));
  }

  /** Over any run that accepts and finalizes in creation order, with only external messages due at
      finalization, the balance always covers everything that accepted transactions will still send
      outside, so none of those debits ever fails. */
  lemma {:induction false} FrozenValueIsAlwaysThere(c: Contract, events: seq<Event>)
    requires Covered(c) && ValidRun(c, events)
    requires forall e :: e in events && e.Accept? ==> OnlyExternalAtFinalization(e.messages)
    ensures Covered(Run(c, events))
    ensures forall i: nat :: Enabled(Run(c, events), Finalize(i)) ==>
      var end := Run(c, events);
      Withdraw(end.balance, end.txs[i].messages, OnFinalization,
        FrozenBefore(end.txs, end.txs[i].createdAt)).externalBacked
    decreases |events|
  {
    if events == [] {
      forall i: nat | Enabled(c, Finalize(i))
        ensures Withdraw(c.balance, c.txs[i].messages, OnFinalization,
                FrozenBefore(c.txs, c.txs[i].createdAt)).externalBacked
      {
        StepKeepsCovered(c, Finalize(i));
      }
    } else {
      StepKeepsCovered(c, events[0]);
      FrozenValueIsAlwaysThere(Step(c, events[0]), events[1..]);
    }
  }

  lemma {:induction false} RunOneMore(c: Contract, events: seq<Event>, e: Event)
    requires ValidRun(c, events) && Enabled(Run(c, events), e)
    ensures ValidRun(c, events + [e]) && Run(c, events + [e]) == Step(Run(c, events), e)
    decreases |events|
  {
    hide Enabled, Step;
    if events == [] {
      assert ([] + [e])[1..] == [];
    } else {
      RunOneMore(Step(c, events[0]), events[1..], e);
      assert (events + [e])[1..] == events[1..] + [e];
    }
  }

  function Older(): seq<Message> { [Message(false, OnFinalization, 10, 1)] }
  function Younger(): seq<Message> { [Message(true, OnFinalization, 10, 2)] }

  function TwoTxs(first: Stage, second: Stage): Contract {
    Contract(10, [Tx(1.0, first, if first.Accepted? then Older() else []),
                  Tx(2.0, second, if second.Accepted? then Younger() else [])])
  }

  lemma SingleMessages()
    ensures forall on: Phase :: ExternalFor(Older(), on) == 0 && InternalFor(Younger(), on) == 0
    ensures InternalFor(Older(), OnFinalization) == ExternalFor(Younger(), OnFinalization) == 10
    ensures InternalFor(Older(), OnAcceptance) == ExternalFor(Younger(), OnAcceptance) == 0
    ensures ExternalTotal(Older()) == 0 && ExternalTotal(Younger()) == 10
    ensures Adjusted(Older(), OnAcceptance, true, true) == Older()
    ensures Adjusted(Younger(), OnAcceptance, true, true) == Younger()
  {
    hide ExternalFor, InternalFor, ExternalTotal, Adjusted;
    forall on: Phase ensures ExternalFor(Older(), on) == 0 && InternalFor(Younger(), on) == 0 {
      SumsOfOne(Older()[0], on);
      SumsOfOne(Younger()[0], on);
    }
    SumsOfOne(Older()[0], OnFinalization);
    SumsOfOne(Older()[0], OnAcceptance);
    SumsOfOne(Younger()[0], OnFinalization);
    SumsOfOne(Younger()[0], OnAcceptance);
    FullyBackedIsUnchanged(Older(), OnAcceptance);
    FullyBackedIsUnchanged(Younger(), OnAcceptance);
  }

  lemma BothCreated() returns (events: seq<Event>)
    ensures ValidRun(Contract(0, []), events) && Run(Contract(0, []), events) == TwoTxs(Waiting, Waiting)
  {
    var start := Contract(0, []);
    assert ValidRun(start, []);
    events := [];
    RunOneMore(start, events, Create(1.0));
    events := events + [Create(1.0)];
    RunOneMore(start, events, Create(2.0));
    events := events + [Create(2.0)];
    RunOneMore(start, events, Deposit(10));
    events := events + [Deposit(10)];
  }

  lemma NothingFrozen(first: Stage, second: Stage)
    requires !second.Accepted?
    ensures Reserve(TwoTxs(first, second).txs) == 0
    ensures forall time :: FrozenBefore(TwoTxs(first, second).txs, time) == 0
  {
    SingleMessages();
    var txs := TwoTxs(first, second).txs;
    assert Freeze(txs[0]) == 0 && Freeze(txs[1]) == 0;
    assert txs[..1] == [txs[0]] && Reserve(txs[..1]) == 0;
    forall time ensures FrozenBefore(txs, time) == 0 {
      assert FrozenBefore(txs[..1], time) == 0;
    }
  }

  /** Both transactions are accepted: each finds its messages covered. */
  lemma BothAccepted() returns (events: seq<Event>)
    ensures ValidRun(Contract(0, []), events)
    ensures Run(Contract(0, []), events) == TwoTxs(Stage.Accepted, Stage.Accepted)
  {
    hide Run, ValidRun, ExternalFor, InternalFor, ExternalTotal, FrozenBefore, Adjusted;
    events := BothCreated();
    SingleMessages();
    NothingFrozen(Waiting, Waiting);
    var first := Accept(0, Older(), true);
    assert Step(TwoTxs(Waiting, Waiting), first) == TwoTxs(Stage.Accepted, Waiting);
    RunOneMore(Contract(0, []), events, first);
    events := events + [first];
    NothingFrozen(Stage.Accepted, Waiting);
    var second := Accept(1, Younger(), true);
    assert Step(TwoTxs(Stage.Accepted, Waiting), second) == TwoTxs(Stage.Accepted, Stage.Accepted);
    RunOneMore(Contract(0, []), events, second);
    events := events + [second];
  }

  /** With an internal message due at finalization the claim fails. A run from an empty contract: two
      transactions are created, ten are deposited and both are accepted. The older one's ten then reach
      another contract, and the younger one's external ten cannot be paid. */
  lemma InternalMessagesEatYoungerFreezes() returns (events: seq<Event>, c: Contract)
    ensures ValidRun(Contract(0, []), events) && c == Run(Contract(0, []), events)
    ensures Solvent(c) && Enabled(c, Finalize(0)) && Enabled(Step(c, Finalize(0)), Finalize(1))
    ensures var end := Step(c, Finalize(0));
            !Withdraw(end.balance, end.txs[1].messages, OnFinalization,
              FrozenBefore(end.txs, end.txs[1].createdAt)).externalBacked
  {
    hide Run, ValidRun;
    events := BothAccepted();
    c := TwoTxs(Stage.Accepted, Stage.Accepted);
    SingleMessages();
    assert c.txs[..1] == [c.txs[0]];
    assert Reserve(c.txs[..1]) == 0;
    NoneFrozenBefore(c.txs, 1.0);
  }
}
