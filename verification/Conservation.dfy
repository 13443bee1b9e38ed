/** No value is created, paid out twice or lost unaccounted for, over any run of the value ledger. */
module Conservation {
  import opened Wrappers
  import opened Rows
  import opened Sums
  import opened Accounts
  import M = Messages

  // ---- What the conservation check adds up ----------------------------------------------------

  /** The value was paid when the row was inserted: by the faucet, by a user's debit, or by the parent.
      A user's plain transfer is paid by its sender only when it is executed. */
  predicate Prepaid(row: Row) {
    row.origin.kind == SEND ==> row.origin.triggered || row.origin.sender.None?
  }

  /** Value that was paid and that nobody has been credited with. */
  predicate Carries(row: Row) {
    Prepaid(row) && !row.credited && row.origin.value > 0
  }

  function Owed(row: Row): int {
    if Carries(row) && !row.status.Canceled? then row.origin.value else 0
  }

  function InTransit(row: Row): int {
    if row.origin.value > 0 && !row.credited && Claimable(row.status) then row.origin.value else 0
  }

  /** In transit by the check, while the sender still has the money. */
  function Overcounted(row: Row): int {
    if Prepaid(row) then 0 else InTransit(row)
  }

  /** Owed by a row that is past activation, so that the check does not see it. */
  function Parked(row: Row): int {
    Owed(row) - (InTransit(row) - Overcounted(row))
  }

  function Minted(row: Row): int {
    if row.origin.sender.None? && row.origin.kind == SEND then row.origin.value else 0
  }

  /** What was paid in for the row, less what was paid out for it. */
  function Due(row: Row, paid: nat): int {
    (if Prepaid(row) || row.credited then row.origin.value else 0) - row.origin.value * paid
  }

  function OwedOf(rows: Table): map<Hash, int> { map h | h in rows :: Owed(rows[h]) }
  function InTransitOf(rows: Table): map<Hash, int> { map h | h in rows :: InTransit(rows[h]) }
  function OvercountedOf(rows: Table): map<Hash, int> { map h | h in rows :: Overcounted(rows[h]) }
  function ParkedOf(rows: Table): map<Hash, int> { map h | h in rows :: Parked(rows[h]) }
  function MintedOf(rows: Table): map<Hash, int> { map h | h in rows :: Minted(rows[h]) }
  function DueOf(rows: Table, paid: map<Hash, nat>): map<Hash, int> {
    map h | h in rows :: Due(rows[h], Times(paid, h))
  }


  ghost function TotalBalances(l: Ledger): int { Sum(l.balances) }
  ghost function InTransitValue(l: Ledger): int { Sum(InTransitOf(l.rows)) }
  ghost function TotalMinted(l: Ledger): int { Sum(MintedOf(l.rows)) }

  ghost predicate VerifyConservation(l: Ledger) {
    TotalBalances(l) + InTransitValue(l) == TotalMinted(l)
  }

  // ---- Runs --------------------------------------------------------------------------------

  /** The ledger with history variables: value minted on demand for senders, value of rows canceled
      without a refund, value of children that a crash kept from being inserted, the rows accepted with
      an error, and how often the value of each row was paid out. */
  datatype System = System(l: Ledger, onDemand: int, dropped: int, lost: int, erred: set<Hash>, paid: map<Hash, nat>)

  function Times(paid: map<Hash, nat>, h: Hash): nat {
    if h in paid then paid[h] else 0
  }

  function Paid(s: System, h: Hash): nat {
    Times(s.paid, h)
  }

  datatype Event =
    | InsertFaucet(h: Hash, row: Row)
    | InsertTransfer(h: Hash, row: Row)          // a user's plain transfer
    | Submit(h: Hash, row: Row)                  // a user's contract transaction
    | CreditOnce(h: Hash)                        // faucet endpoint, or activation by a worker
    | Transfer(h: Hash, now: int)
    | SetRowStatus(h: Hash, status: Status)      // consensus, resets, rollbacks
    | AcceptWithError(h: Hash)                   // the contract was not found
    | Emit(c: Address, children: seq<(Hash, Row)>, inserted: nat, persisted: bool)
    | Cancel(h: Hash)                            // by the user or at a retry limit, with a refund to the sender
    | Escalate(h: Hash)                          // by recovery, by a reset at the cap, or a crash before the refund

  predicate Fresh(rows: Table, h: Hash, row: Row) {
    h !in rows && row.status.Pending? && !row.credited && row.origin.address.Some?
  }

  function Values(children: seq<(Hash, Row)>): int {
    if children == [] then 0 else children[0].1.origin.value + Values(children[1..])
  }

  predicate FreshChildren(rows: Table, c: Address, children: seq<(Hash, Row)>)
    decreases |children|
  {
    children == [] ||
    (Fresh(rows, children[0].0, children[0].1)
     && children[0].1.origin.triggered && children[0].1.origin.sender == Some(c)
     && FreshChildren(rows[children[0].0 := children[0].1], c, children[1..]))
  }

  function InsertAll(rows: Table, children: seq<(Hash, Row)>): Table
    decreases |children|
  {
    if children == [] then rows else InsertAll(rows[children[0].0 := children[0].1], children[1..])
  }

  /** Every event finds its row by hash, whatever the status of the row. */
  predicate Enabled(s: System, e: Event) {
    var l := s.l;
    match e
    case InsertFaucet(h, row) => Fresh(l.rows, h, row) && row.origin.sender.None? && row.origin.kind == SEND
    case InsertTransfer(h, row) => Fresh(l.rows, h, row) && row.origin.kind == SEND && !Prepaid(row)
    case Submit(h, row) => Fresh(l.rows, h, row) && row.origin.sender.Some? && row.origin.kind != SEND
    case CreditOnce(h) => h in l.rows && Prepaid(l.rows[h]) && l.rows[h].origin.address.Some?
    case Transfer(h, now) => h in l.rows && l.rows[h].origin.kind == SEND && l.rows[h].origin.address.Some?
    // a row is credited before it leaves pending, unless it was accepted with an error meanwhile
    case SetRowStatus(h, status) =>
      && h in l.rows && !status.Canceled?
      && (Claimable(l.rows[h].status) && !Claimable(status) ==> Owed(l.rows[h]) == 0 || h in s.erred)
    case AcceptWithError(h) => h in l.rows
    case Emit(c, children, inserted, persisted) =>
      && FreshChildren(l.rows, c, children) && inserted <= |children| && CanDebit(l, c, Values(children))
      && (inserted > 0 ==> persisted)
    case Cancel(h) => h in l.rows
    case Escalate(h) => h in l.rows
  }

  function MintFor(l: Ledger, row: Row): int
    requires row.origin.sender.Some?
  {
    var short := row.origin.value - Balance(l, row.origin.sender.value);
    if row.origin.value > 0 && short > 0 then short else 0
  }

  function WithRow(s: System, h: Hash, row: Row): System {
    s.(l := s.l.(rows := s.l.rows[h := row]))
  }

  function Counted(s: System, h: Hash, pays: bool): map<Hash, nat> {
    if pays then s.paid[h := Paid(s, h) + 1] else s.paid
  }

  function Step(s: System, e: Event): System
    requires Enabled(s, e)
  {
    var l := s.l;
    match e
    case InsertFaucet(h, row) => WithRow(s, h, row)
    case InsertTransfer(h, row) => WithRow(s, h, row)
    case Submit(h, row) =>
      var from := row.origin.sender.value;
      var charged := if row.origin.value <= 0 then l.balances
                     else l.balances[from := Balance(l, from) + MintFor(l, row) - row.origin.value];
      s.(l := Ledger(charged, l.rows[h := row]), onDemand := s.onDemand + MintFor(l, row))
    case CreditOnce(h) =>
      var row := l.rows[h];
      s.(l := CreditedOnce(l, h, row.origin.address.value, row.origin.value), paid := Counted(s, h, Uncredited(l, h)))
    case Transfer(h, now) =>
      var after := Transferred(l, h, now);
      s.(l := after, paid := Counted(s, h, Uncredited(l, h) && after.rows[h].credited))
    case SetRowStatus(h, status) => WithRow(s, h, l.rows[h].(status := status))
    case Emit(c, children, inserted, persisted) =>
      if !persisted then s else
      var debited := Debited(l, c, Values(children));
      s.(l := debited.(rows := InsertAll(l.rows, children[..inserted])), lost := s.lost + Values(children[inserted..]))
    case AcceptWithError(h) => WithRow(s, h, l.rows[h].(status := Accepted)).(erred := s.erred + {h})
    case Cancel(h) =>
      var row := l.rows[h];
      var canceled := l.(rows := l.rows[h := row.(status := Canceled)]);
      if row.origin.sender.Some? then
        s.(l := Refunded(canceled, h, row.origin.sender.value), paid := Counted(s, h, Uncredited(l, h)))
      else s.(l := canceled, dropped := s.dropped + Owed(row))
    case Escalate(h) => WithRow(s, h, l.rows[h].(status := Canceled)).(dropped := s.dropped + Owed(l.rows[h]))
  }

  predicate ValidRun(s: System, events: seq<Event>)
    decreases |events|
  {
    events == [] || (Enabled(s, events[0]) && ValidRun(Step(s, events[0]), events[1..]))
  }

  function Run(s: System, events: seq<Event>): System
    requires ValidRun(s, events)
    decreases |events|
  {
    if events == [] then s else Run(Step(s, events[0]), events[1..])
  }

  const START: System := System(Ledger(map[], map[]), 0, 0, 0, {}, map[])

  // ---- The law of every run ------------------------------------------------------------------

  /** Balances, what is due and what was lost, over everything minted. */
  ghost function Surplus(s: System): int {
    TotalBalances(s.l) + Sum(DueOf(s.l.rows, s.paid)) + s.lost - TotalMinted(s.l) - s.onDemand
  }

  ghost predicate Known(s: System) {
    s.paid.Keys <= s.l.rows.Keys
  }

  lemma RowChange(rows: Table, paid: map<Hash, nat>, h: Hash, row: Row, paid': map<Hash, nat>)
    requires forall k :: k != h ==> Times(paid', k) == Times(paid, k)
    ensures Sum(OwedOf(rows[h := row])) == Sum(OwedOf(rows)) + Owed(row) - (if h in rows then Owed(rows[h]) else 0)
    ensures Sum(MintedOf(rows[h := row])) ==
            Sum(MintedOf(rows)) + Minted(row) - (if h in rows then Minted(rows[h]) else 0)
    ensures Sum(DueOf(rows[h := row], paid')) ==
            Sum(DueOf(rows, paid)) + Due(row, Times(paid', h)) - (if h in rows then Due(rows[h], Times(paid, h)) else 0)
  {
    hide Owed, Minted, Due, Times;
    assert Sum(OwedOf(rows[h := row])) == Sum(OwedOf(rows)) + Owed(row) - At(OwedOf(rows), h) by {
      assert OwedOf(rows[h := row]) == OwedOf(rows)[h := Owed(row)];
      SumUpdate(OwedOf(rows), h, Owed(row));
    }
    assert Sum(MintedOf(rows[h := row])) == Sum(MintedOf(rows)) + Minted(row) - At(MintedOf(rows), h) by {
      assert MintedOf(rows[h := row]) == MintedOf(rows)[h := Minted(row)];
      SumUpdate(MintedOf(rows), h, Minted(row));
    }
    DueChange(rows, paid, h, row, paid');
  }

  lemma DueChange(rows: Table, paid: map<Hash, nat>, h: Hash, row: Row, paid': map<Hash, nat>)
    requires forall k :: k != h ==> Times(paid', k) == Times(paid, k)
    ensures Sum(DueOf(rows[h := row], paid')) ==
            Sum(DueOf(rows, paid)) + Due(row, Times(paid', h)) - (if h in rows then Due(rows[h], Times(paid, h)) else 0)
  {
    hide Due, Times;
    assert DueOf(rows[h := row], paid') == DueOf(rows, paid)[h := Due(row, Times(paid', h))];
    SumUpdate(DueOf(rows, paid), h, Due(row, Times(paid', h)));
  }

  lemma ChildOwes(rows: Table, paid: map<Hash, nat>, h: Hash, row: Row)
    requires Fresh(rows, h, row) && row.origin.triggered && row.origin.sender.Some? && paid.Keys <= rows.Keys
    ensures Sum(OwedOf(rows[h := row])) == Sum(OwedOf(rows)) + row.origin.value
    ensures Sum(DueOf(rows[h := row], paid)) == Sum(DueOf(rows, paid)) + row.origin.value
    ensures Sum(MintedOf(rows[h := row])) == Sum(MintedOf(rows))
  {
    hide OwedOf, DueOf, MintedOf;
    RowChange(rows, paid, h, row, paid);
    assert Times(paid, h) == 0;
  }

  lemma {:induction false} InsertAllOwes(rows: Table, paid: map<Hash, nat>, c: Address, children: seq<(Hash, Row)>,
                                         n: nat)
    requires n <= |children| && FreshChildren(rows, c, children) && paid.Keys <= rows.Keys
    ensures Sum(OwedOf(InsertAll(rows, children[..n]))) == Sum(OwedOf(rows)) + Values(children[..n])
    ensures Sum(DueOf(InsertAll(rows, children[..n]), paid)) == Sum(DueOf(rows, paid)) + Values(children[..n])
    ensures Sum(MintedOf(InsertAll(rows, children[..n]))) == Sum(MintedOf(rows))
    ensures Values(children[..n]) + Values(children[n..]) == Values(children)
    decreases n
  {
    hide OwedOf, DueOf, MintedOf;
    if n > 0 {
      var h, row := children[0].0, children[0].1;
      ChildOwes(rows, paid, h, row);
      InsertAllOwes(rows[h := row], paid, c, children[1..], n - 1);
      assert children[..n][1..] == children[1..][..n - 1] && children[n..] == children[1..][n - 1..];
    } else {
      assert children[..0] == [] && children[0..] == children;
    }
  }

  lemma {:induction false} ChildrenCarryNoDebt(children: seq<(Hash, Row)>)
    ensures Values(children) >= 0
  {
    if children != [] {
      ChildrenCarryNoDebt(children[1..]);
    }
  }

  lemma PaidOut(l: Ledger, a: Address, amount: int)
    ensures Sum(l.balances[a := Balance(l, a) + amount]) == Sum(l.balances) + amount
  {
    SumUpdate(l.balances, a, Balance(l, a) + amount);
  }

  /** What an event that changes one row does to the balances and to that row. */
  lemma OneRowChanges(s: System, e: Event)
    requires Known(s) && Enabled(s, e) && !e.Emit?
    ensures Step(s, e).l.rows == s.l.rows[e.h := Step(s, e).l.rows[e.h]]
    ensures forall k :: k != e.h ==> Times(Step(s, e).paid, k) == Times(s.paid, k)
    ensures Known(Step(s, e)) && Step(s, e).lost == s.lost
  {
    hide MintFor, Owed, Prepaid;
  }

  lemma OneMorePayment(row: Row, paid: nat)
    ensures Due(row, paid + 1) == Due(row, paid) - row.origin.value
    ensures Due(row, 0) == if Prepaid(row) || row.credited then row.origin.value else 0
  {
  }

  /** Over one event: what the balances gain, what its row is due more, and what is minted less. */
  ghost function Gain(s: System, e: Event): int
    requires Enabled(s, e) && !e.Emit? && e.h in Step(s, e).l.rows
  {
    var s' := Step(s, e);
    var due := if e.h in s.l.rows then Due(s.l.rows[e.h], Paid(s, e.h)) else 0;
    var minted := if e.h in s.l.rows then Minted(s.l.rows[e.h]) else 0;
    TotalBalances(s'.l) - TotalBalances(s.l) + Due(s'.l.rows[e.h], Paid(s', e.h)) - due
    - (Minted(s'.l.rows[e.h]) - minted) - (s'.onDemand - s.onDemand)
  }

  lemma InsertingGainsNothing(s: System, e: Event)
    requires Known(s) && Enabled(s, e) && (e.InsertFaucet? || e.InsertTransfer? || e.Submit?)
    ensures Gain(s, e) == 0
  {
    hide Owed;
    OneMorePayment(e.row, 0);
    if e.Submit? {
      PaidOut(s.l, e.row.origin.sender.value, MintFor(s.l, e.row) - e.row.origin.value);
    }
  }

  lemma CreditGainsNothing(s: System, h: Hash)
    requires Known(s) && Enabled(s, CreditOnce(h))
    ensures Gain(s, CreditOnce(h)) == 0
  {
    hide Owed;
    var row := s.l.rows[h];
    OneMorePayment(row, Paid(s, h));
    PaidOut(s.l, row.origin.address.value, 0);
    PaidOut(s.l, row.origin.address.value, row.origin.value);
  }

  lemma TransferGainsNothing(s: System, h: Hash, now: int)
    requires Known(s) && Enabled(s, Transfer(h, now))
    ensures Gain(s, Transfer(h, now)) == 0
  {
    hide Owed;
    var row := s.l.rows[h];
    OneMorePayment(row, Paid(s, h));
    OneMorePayment(row.(credited := true), Paid(s, h));
    TransferPays(s.l, h, now);
  }

  lemma CancelGainsNothing(s: System, h: Hash)
    requires Known(s) && Enabled(s, Cancel(h))
    ensures Gain(s, Cancel(h)) == 0
  {
    hide Owed;
    var row := s.l.rows[h];
    OneMorePayment(row, Paid(s, h));
    if row.origin.sender.Some? {
      PaidOut(s.l, row.origin.sender.value, row.origin.value);
    }
  }

  /** Whatever is paid out is due no longer, and whatever is paid in is due from then on. */
  lemma OneRowGainsNothing(s: System, e: Event)
    requires Known(s) && Enabled(s, e) && !e.Emit?
    ensures e.h in Step(s, e).l.rows && Gain(s, e) == 0
  {
    match e
    case CreditOnce(h) => CreditGainsNothing(s, h);
    case Transfer(h, now) => TransferGainsNothing(s, h, now);
    case Cancel(h) => CancelGainsNothing(s, h);
    case InsertFaucet(h, row) => InsertingGainsNothing(s, e);
    case InsertTransfer(h, row) => InsertingGainsNothing(s, e);
    case Submit(h, row) => InsertingGainsNothing(s, e);
    case _ =>
  }

  /** A transfer moves its value from the sender, unless it was prepaid, to the recipient. */
  lemma TransferPays(l: Ledger, h: Hash, now: int)
    requires h in l.rows && l.rows[h].origin.kind == SEND && l.rows[h].origin.address.Some?
    ensures var row, after := l.rows[h], Transferred(l, h, now).rows[h];
            && after.origin == row.origin && (row.credited ==> after.credited)
            && TotalBalances(Transferred(l, h, now)) == TotalBalances(l)
               + (if Prepaid(row) && !row.credited && after.credited then row.origin.value else 0)
            && (Prepaid(row) && !row.credited && row.origin.value > 0 ==> after.credited)
  {
    var row := l.rows[h];
    var to := row.origin.address.value;
    if !row.credited {
      if Prepaid(row) {
        PaidOut(l, to, row.origin.value);
      } else {
        var from := row.origin.sender.value;
        PaidOut(l, from, 0 - row.origin.value);
        PaidOut(l.(balances := l.balances[from := Balance(l, from) - row.origin.value]), to, row.origin.value);
      }
    }
  }

  lemma EmitKeepsSurplus(s: System, e: Event)
    requires Known(s) && Enabled(s, e) && e.Emit?
    ensures Surplus(Step(s, e)) == Surplus(s) && Known(Step(s, e))
    ensures Books(Step(s, e)) == Books(s)
  {
    hide OwedOf, DueOf, MintedOf, InsertAll, FreshChildren;
    if e.persisted {
      InsertAllOwes(s.l.rows, s.paid, e.c, e.children, e.inserted);
      ChildrenCarryNoDebt(e.children);
      if Values(e.children) > 0 {
        PaidOut(s.l, e.c, -Values(e.children));
      }
      forall h | h in s.l.rows ensures h in Step(s, e).l.rows {
        InsertedRows(s.l.rows, e.c, e.children, e.inserted, h);
      }
    }
  }

  lemma StepKeepsSurplus(s: System, e: Event)
    requires Known(s) && Enabled(s, e)
    ensures Surplus(Step(s, e)) == Surplus(s) && Known(Step(s, e))
  {
    hide Step, Enabled, Due, Minted, OwedOf, DueOf, MintedOf;
    if e.Emit? {
      EmitKeepsSurplus(s, e);
    } else {
      var s' := Step(s, e);
      OneRowChanges(s, e);
      OneRowGainsNothing(s, e);
      RowChange(s.l.rows, s.paid, e.h, s'.l.rows[e.h], s'.paid);
    }
  }

  lemma {:induction false} RunKeepsSurplus(s: System, events: seq<Event>)
    requires Known(s) && ValidRun(s, events)
    ensures Surplus(Run(s, events)) == Surplus(s) && Known(Run(s, events))
    decreases |events|
  {
    if events != [] {
      StepKeepsSurplus(s, events[0]);
      RunKeepsSurplus(Step(s, events[0]), events[1..]);
    }
  }

  lemma NoSurplusMeans(s: System)
    requires Surplus(s) == 0
    ensures TotalBalances(s.l) + Sum(DueOf(s.l.rows, s.paid)) + s.lost == TotalMinted(s.l) + s.onDemand
    ensures VerifyConservation(s.l) <==> InTransitValue(s.l) + s.onDemand == Sum(DueOf(s.l.rows, s.paid)) + s.lost
  {
    hide TotalBalances, TotalMinted, DueOf, InTransitValue;
  }

  /** In every run whatsoever, balances, and for each row what was paid in less what was paid out, and the
      value lost in crashes, add up to everything minted. So the check holds exactly when what it counts
      as in transit makes up for what is due. */
  lemma EveryPaymentIsAccountedFor(events: seq<Event>)
    requires ValidRun(START, events)
    ensures var s := Run(START, events);
            && TotalBalances(s.l) + Sum(DueOf(s.l.rows, s.paid)) + s.lost == TotalMinted(s.l) + s.onDemand
            && (VerifyConservation(s.l) <==> InTransitValue(s.l) + s.onDemand == Sum(DueOf(s.l.rows, s.paid)) + s.lost)
  {
    hide *;
    StartIsSettled();
    RunKeepsSurplus(START, events);
    NoSurplusMeans(Run(START, events));
  }

  lemma NothingAddsUp(l: Ledger)
    requires l.balances == map[] && l.rows == map[]
    ensures TotalBalances(l) == 0 && TotalMinted(l) == 0 && Sum(OwedOf(l.rows)) == 0
    ensures forall paid :: Sum(DueOf(l.rows, paid)) == 0
  {
    hide Due, Owed, Minted;
    assert OwedOf(l.rows) == map[] && MintedOf(l.rows) == map[];
    assert forall paid :: DueOf(l.rows, paid) == map[];
  }

  lemma StartIsExact()
    ensures Exact(START)
  {
    hide OwedOf, DueOf, MintedOf, TotalBalances, TotalMinted, Parked, Carries;
    NothingAddsUp(START.l);
  }

  lemma StartIsSettled()
    ensures Known(START) && PaidOnce(START) && ErredOweNothing(START) && Surplus(START) == 0
    ensures START.dropped == 0 && START.lost == 0
  {
    hide OwedOf, DueOf, MintedOf, TotalBalances, TotalMinted, PaidRow;
    NothingAddsUp(START.l);
  }

  // ---- Which events keep the books ------------------------------------------------------------

  /** The books: what live rows owe, and what was written off when rows were canceled without a refund. */
  ghost function Books(s: System): int {
    TotalBalances(s.l) + Sum(OwedOf(s.l.rows)) + s.dropped + s.lost - TotalMinted(s.l) - s.onDemand
  }

  ghost predicate Balanced(s: System) {
    Books(s) == 0
  }

  /** Canceled, and nobody was credited with its value: the sender has it back, or it was written off. */
  predicate Spent(l: Ledger, h: Hash) {
    h in l.rows && l.rows[h].status.Canceled? && Carries(l.rows[h])
  }

  /** The event acts on a spent row, or refunds a sender that has not paid. */
  predicate Disturbs(l: Ledger, e: Event) {
    match e
    case CreditOnce(h) => Spent(l, h)
    case Transfer(h, now) => Spent(l, h)
    case SetRowStatus(h, status) => Spent(l, h)
    case AcceptWithError(h) => Spent(l, h)
    case Cancel(h) =>
      && Uncredited(l, h) && l.rows[h].origin.sender.Some?
      && (l.rows[h].status.Canceled? || !Prepaid(l.rows[h]))
    case _ => false
  }

  lemma OneRowBooksIff(s: System, e: Event)
    requires Known(s) && Enabled(s, e) && !e.Emit?
    ensures var s' := Step(s, e);
            var due := if e.h in s.l.rows then Due(s.l.rows[e.h], Paid(s, e.h)) else 0;
            var owed := if e.h in s.l.rows then Owed(s.l.rows[e.h]) else 0;
            Owed(s'.l.rows[e.h]) - owed + s'.dropped - s.dropped == Due(s'.l.rows[e.h], Paid(s', e.h)) - due <==>
            !Disturbs(s.l, e)
  {
    if e.h in s.l.rows {
      OneMorePayment(s.l.rows[e.h], Paid(s, e.h));
      OneMorePayment(s.l.rows[e.h].(credited := true), Paid(s, e.h));
    } else {
      OneMorePayment(e.row, 0);
    }
  }

  /** An event keeps the books balanced exactly unless it acts on a canceled row that still carries its
      value, or refunds the sender of a plain transfer. */
  lemma StepKeepsBalancedIff(s: System, e: Event)
    requires Balanced(s) && Known(s) && Enabled(s, e)
    ensures Balanced(Step(s, e)) <==> !Disturbs(s.l, e)
  {
    hide Step, Enabled, Due, Owed, Minted, OwedOf, DueOf, MintedOf;
    if e.Emit? {
      EmitKeepsSurplus(s, e);
    } else {
      hide Disturbs;
      var s' := Step(s, e);
      OneRowChanges(s, e);
      StepKeepsSurplus(s, e);
      OneRowBooksIff(s, e);
      RowChange(s.l.rows, s.paid, e.h, s'.l.rows[e.h], s'.paid);
    }
  }

  /** Each value is paid out at most once, and only if it was paid in, and not at all while the row still
      owes it. */
  ghost predicate PaidOnce(s: System) {
    Known(s) && forall h :: h in s.l.rows ==> PaidRow(Paid(s, h), s.l.rows[h])
  }

  predicate PaidRow(paid: nat, row: Row) {
    && paid <= (if Prepaid(row) || row.credited then 1 else 0)
    && (paid > 0 && !row.credited ==> row.status.Canceled?)
    && (row.credited && row.origin.value > 0 ==> paid == 1)
    && (row.origin.value == 0 ==> paid == 0)
  }

  lemma {:induction false} InsertedRows(rows: Table, c: Address, children: seq<(Hash, Row)>, n: nat, h: Hash)
    requires n <= |children| && FreshChildren(rows, c, children)
    ensures h in rows ==> h in InsertAll(rows, children[..n]) && InsertAll(rows, children[..n])[h] == rows[h]
    ensures h in InsertAll(rows, children[..n]) && h !in rows ==>
      !InsertAll(rows, children[..n])[h].credited && InsertAll(rows, children[..n])[h].status.Pending?
    decreases n
  {
    if n > 0 {
      assert children[..n][1..] == children[1..][..n - 1];
      InsertedRows(rows[children[0].0 := children[0].1], c, children[1..], n - 1, h);
    } else {
      assert children[..0] == [];
    }
  }

  lemma EmitKeepsPaidOnce(s: System, e: Event)
    requires PaidOnce(s) && Enabled(s, e) && e.Emit?
    ensures PaidOnce(Step(s, e))
  {
    hide FreshChildren, InsertAll;
    if e.persisted {
      forall h
        ensures h in s.l.rows ==> h in Step(s, e).l.rows && Step(s, e).l.rows[h] == s.l.rows[h]
        ensures h in Step(s, e).l.rows && h !in s.l.rows ==> !Step(s, e).l.rows[h].credited
      {
        InsertedRows(s.l.rows, e.c, e.children, e.inserted, h);
      }
    }
  }

  /** The value of the row was paid out before, or never paid in. */
  predicate Repays(s: System, e: Event) {
    Disturbs(s.l, e) && !e.Emit? && e.h in s.l.rows && (Paid(s, e.h) > 0 || !Prepaid(s.l.rows[e.h]))
  }

  lemma PaidRowIff(s: System, e: Event)
    requires PaidOnce(s) && Enabled(s, e) && !e.Emit?
    ensures PaidRow(Paid(Step(s, e), e.h), Step(s, e).l.rows[e.h]) <==> !Repays(s, e)
  {
    hide MintFor;
    assert e.h in s.l.rows ==> PaidRow(Paid(s, e.h), s.l.rows[e.h]);
  }

  /** Which events pay a value a second time, or make that possible: exactly those that disturb a row
      which was refunded, or whose sender never paid. */
  lemma StepKeepsPaidOnceIff(s: System, e: Event)
    requires PaidOnce(s) && Enabled(s, e)
    ensures PaidOnce(Step(s, e)) <==> !Repays(s, e)
  {
    if e.Emit? {
      EmitKeepsPaidOnce(s, e);
    } else {
      hide Step, Enabled, PaidRow, Repays;
      OneRowChanges(s, e);
      PaidRowIff(s, e);
      var s' := Step(s, e);
      forall h | h in s'.l.rows && h != e.h ensures PaidRow(Paid(s', h), s'.l.rows[h]) {
        assert h in s.l.rows && s'.l.rows[h] == s.l.rows[h];
      }
    }
  }

  // ---- Runs that leave canceled rows alone ----------------------------------------------------

  /** A condition on the rows alone: no event acts on a canceled row that still carries its value, and no
      plain transfer is refunded. */
  predicate Undisturbed(s: System, events: seq<Event>)
    requires ValidRun(s, events)
    decreases |events|
  {
    events == [] || (!Disturbs(s.l, events[0]) && Undisturbed(Step(s, events[0]), events[1..]))
  }

  lemma {:induction false} RunKeepsBalanced(s: System, events: seq<Event>)
    requires Balanced(s) && PaidOnce(s) && ValidRun(s, events) && Undisturbed(s, events)
    ensures Balanced(Run(s, events)) && PaidOnce(Run(s, events))
    decreases |events|
  {
    if events != [] {
      hide Step, Enabled, Balanced, Disturbs;
      StepKeepsBalancedIff(s, events[0]);
      StepKeepsPaidOnceIff(s, events[0]);
      RunKeepsBalanced(Step(s, events[0]), events[1..]);
    }
  }

  /** What the check would have to find: everything minted, and the transfers it counts too early. */
  ghost function Expected(s: System): int {
    TotalMinted(s.l) + s.onDemand + Sum(OvercountedOf(s.l.rows))
  }

  ghost function SystemTotal(s: System): int {
    TotalBalances(s.l) + InTransitValue(s.l)
  }

  lemma ParkedIsNat(row: Row)
    ensures Parked(row) >= 0
  {
  }

  lemma TotalOfBooks(s: System)
    requires Balanced(s)
    ensures SystemTotal(s) + Sum(ParkedOf(s.l.rows)) + s.dropped + s.lost == Expected(s)
    ensures Sum(ParkedOf(s.l.rows)) >= 0
    ensures Sum(ParkedOf(s.l.rows)) == 0 <==> forall h :: h in s.l.rows ==> Parked(s.l.rows[h]) == 0
  {
    hide Owed, InTransit, Overcounted, MintedOf;
    var rows := s.l.rows;
    var owed, inTransit, parked, over := OwedOf(rows), InTransitOf(rows), ParkedOf(rows), OvercountedOf(rows);
    var seen := map h | h in rows :: InTransit(rows[h]) - Overcounted(rows[h]);
    SumOfParts(owed, seen, parked);
    SumOfParts(inTransit, seen, over);
    forall h | h in rows ensures parked[h] == Parked(rows[h]) >= 0 {
      ParkedIsNat(rows[h]);
    }
    SumIsZeroIff(parked);
  }

  lemma StepCounters(s: System, e: Event)
    requires Enabled(s, e)
    ensures var t := Step(s, e); t.onDemand >= s.onDemand && t.dropped >= s.dropped && t.lost >= s.lost
  {
    hide FreshChildren, InsertAll;
    if e.Emit? {
      ChildrenCarryNoDebt(e.children[e.inserted..]);
    }
  }

  lemma {:induction false} CountersNeverFall(s: System, events: seq<Event>)
    requires ValidRun(s, events)
    ensures var t := Run(s, events); t.onDemand >= s.onDemand && t.dropped >= s.dropped && t.lost >= s.lost
    decreases |events|
  {
    if events != [] {
      hide Step, Enabled;
      StepCounters(s, events[0]);
      CountersNeverFall(Step(s, events[0]), events[1..]);
    }
  }

  lemma BalancedMeans(s: System)
    requires Balanced(s) && PaidOnce(s) && s.dropped >= 0 && s.lost >= 0
    ensures SystemTotal(s) <= Expected(s)
    ensures SystemTotal(s) == Expected(s) <==>
      (s.dropped == 0 && s.lost == 0 && forall h :: h in s.l.rows ==> Parked(s.l.rows[h]) == 0)
    ensures forall h :: h in s.l.rows ==> Paid(s, h) <= 1
  {
    TotalOfBooks(s);
    hide Books, SystemTotal, Expected, Parked;
    forall h | h in s.l.rows ensures Paid(s, h) <= 1 {
      assert PaidRow(Paid(s, h), s.l.rows[h]);
    }
  }

  /** In every undisturbed run balances and value in transit never exceed what was minted, by the faucet
      or on demand, and what the check counts too early. They are equal exactly when no row was canceled
      without a refund, no child was lost, and no uncredited value sits in a row that is past activation;
      and each value was paid at most once. */
  lemma ValueIsConserved(events: seq<Event>)
    requires ValidRun(START, events) && Undisturbed(START, events)
    ensures var s := Run(START, events);
            && SystemTotal(s) <= Expected(s)
            && (SystemTotal(s) == Expected(s) <==>
                  (s.dropped == 0 && s.lost == 0 && forall h :: h in s.l.rows ==> Parked(s.l.rows[h]) == 0))
            && forall h :: h in s.l.rows ==> Paid(s, h) <= 1
  {
    hide *;
    StartIsExact();
    StartIsSettled();
    ExactIsBalanced(START);
    RunKeepsBalanced(START, events);
    CountersNeverFall(START, events);
    BalancedMeans(Run(START, events));
  }

  // ---- Until the first loss --------------------------------------------------------------------

  /** The event leaves value behind that no account gets: an error acceptance or an escalation of a row
      that still owes, a cancellation nobody is refunded for, or children lost in a crash. A row that
      leaves the claimable states while it owes would be one as well. */
  predicate Loses(s: System, e: Event)
    requires Enabled(s, e)
  {
    match e
    case AcceptWithError(h) => Claimable(s.l.rows[h].status) && Owed(s.l.rows[h]) > 0
    case SetRowStatus(h, status) =>
      Claimable(s.l.rows[h].status) && !Claimable(status) && Owed(s.l.rows[h]) > 0
    case Escalate(h) => Owed(s.l.rows[h]) > 0
    case Cancel(h) => s.l.rows[h].origin.sender.None? && Owed(s.l.rows[h]) > 0
    case Emit(c, children, inserted, persisted) => persisted && Values(children[inserted..]) > 0
    case _ => false
  }

  /** Nothing was dropped or lost, and the check sees everything that is owed. */
  ghost predicate Exact(s: System) {
    Balanced(s) && s.dropped == 0 && s.lost == 0 && forall h :: h in s.l.rows ==> Parked(s.l.rows[h]) == 0
  }

  ghost predicate ErredOweNothing(s: System) {
    forall h :: h in s.erred ==> h in s.l.rows && !Carries(s.l.rows[h])
  }

  lemma ExactIsBalanced(s: System)
    requires Exact(s)
    ensures Balanced(s) && SystemTotal(s) == Expected(s)
  {
    hide Parked, Books, SystemTotal, Expected;
    TotalOfBooks(s);
  }

  lemma EmitKeepsExactIff(s: System, e: Event)
    requires Exact(s) && Known(s) && Enabled(s, e) && e.Emit?
    ensures Exact(Step(s, e)) <==> !Loses(s, e)
  {
    hide FreshChildren, InsertAll, Books;
    EmitKeepsSurplus(s, e);
    ChildrenCarryNoDebt(e.children[e.inserted..]);
    if e.persisted {
      forall h
        ensures h in s.l.rows ==> h in Step(s, e).l.rows && Step(s, e).l.rows[h] == s.l.rows[h]
        ensures h in Step(s, e).l.rows ==> Parked(Step(s, e).l.rows[h]) == 0
      {
        InsertedRows(s.l.rows, e.c, e.children, e.inserted, h);
      }
    }
  }

  lemma OneRowExactIff(s: System, e: Event)
    requires Exact(s) && Enabled(s, e) && !e.Emit? && !Disturbs(s.l, e)
    ensures Step(s, e).dropped == 0 && Parked(Step(s, e).l.rows[e.h]) == 0 <==> !Loses(s, e)
  {
    hide Books, MintFor;
    assert e.h in s.l.rows ==> Parked(s.l.rows[e.h]) == 0;
  }

  /** From a state in which the check is exact, a step that disturbs nothing keeps it exact exactly when
      it loses nothing. */
  lemma StepKeepsExactIff(s: System, e: Event)
    requires Exact(s) && Known(s) && Enabled(s, e) && !Disturbs(s.l, e)
    ensures Exact(Step(s, e)) <==> !Loses(s, e)
  {
    hide Enabled, Books, Parked, Disturbs, Step, Loses;
    if e.Emit? {
      EmitKeepsExactIff(s, e);
    } else {
      StepKeepsBalancedIff(s, e);
      OneRowChanges(s, e);
      OneRowExactIff(s, e);
      var s' := Step(s, e);
      assert e.h in s'.l.rows;
      forall h | h in s'.l.rows && h != e.h ensures h in s.l.rows && Parked(s'.l.rows[h]) == 0 {
        assert s'.l.rows[h] == s.l.rows[h];
      }
    }
  }

  lemma RowStaysClear(s: System, e: Event, h: Hash)
    requires Exact(s) && ErredOweNothing(s) && Known(s) && Enabled(s, e) && !Disturbs(s.l, e)
    requires !Loses(s, e) && h in Step(s, e).erred
    ensures h in Step(s, e).l.rows && !Carries(Step(s, e).l.rows[h])
  {
    hide Books, MintFor, FreshChildren, InsertAll;
    if e.Emit? {
      InsertedRows(s.l.rows, e.c, e.children, e.inserted, h);
    } else {
      assert h in s.l.rows ==> Parked(s.l.rows[h]) == 0;
    }
  }

  /** Activation credits a row before it leaves the claimable states, so a change of status is never the
      first loss: it would take a row that was accepted with an error before. */
  lemma StatusIsNeverTheFirstLoss(s: System, e: Event)
    requires Exact(s) && ErredOweNothing(s) && Known(s) && Enabled(s, e) && !Disturbs(s.l, e)
    ensures !Loses(s, e) ==> ErredOweNothing(Step(s, e))
    ensures e.SetRowStatus? ==> !Loses(s, e)
  {
    if !Loses(s, e) {
      forall h | h in Step(s, e).erred ensures h in Step(s, e).l.rows && !Carries(Step(s, e).l.rows[h]) {
        RowStaysClear(s, e, h);
      }
    }
  }

  predicate Lossless(s: System, events: seq<Event>)
    requires ValidRun(s, events)
    decreases |events|
  {
    events == [] || (!Loses(s, events[0]) && Lossless(Step(s, events[0]), events[1..]))
  }

  lemma {:induction false} LosslessRunIsExact(s: System, events: seq<Event>)
    requires Exact(s) && ErredOweNothing(s) && Known(s)
    requires ValidRun(s, events) && Undisturbed(s, events) && Lossless(s, events)
    ensures Exact(Run(s, events)) && ErredOweNothing(Run(s, events)) && Known(Run(s, events))
    decreases |events|
  {
    if events != [] {
      hide Step, Enabled, Exact, ErredOweNothing, Known, Loses, Disturbs;
      StepKeepsExactIff(s, events[0]);
      StatusIsNeverTheFirstLoss(s, events[0]);
      StepKeepsSurplus(s, events[0]);
      LosslessRunIsExact(Step(s, events[0]), events[1..]);
    }
  }

  /** As long as no event disturbs or loses value, balances plus value in transit equal everything minted
      plus what the check counts too early; the first event that loses ends the equality, and it is never
      a mere change of status. */
  lemma EqualUntilTheFirstLoss(events: seq<Event>, e: Event)
    requires ValidRun(START, events) && Undisturbed(START, events) && Lossless(START, events)
    requires Enabled(Run(START, events), e) && !Disturbs(Run(START, events).l, e)
    ensures var s := Run(START, events);
            && SystemTotal(s) == Expected(s)
            && (SystemTotal(Step(s, e)) == Expected(Step(s, e)) <==> !Loses(s, e))
            && (e.SetRowStatus? ==> !Loses(s, e))
  {
    hide *;
    StartIsExact();
    StartIsSettled();
    LosslessRunIsExact(START, events);
    var s := Run(START, events);
    ExactIsBalanced(s);
    StatusIsNeverTheFirstLoss(s, e);
    TotalAfterStep(s, e);
  }

  lemma TotalAfterStep(s: System, e: Event)
    requires Exact(s) && Known(s) && Enabled(s, e) && !Disturbs(s.l, e)
    ensures SystemTotal(Step(s, e)) == Expected(Step(s, e)) <==> !Loses(s, e)
  {
    hide Step, Loses, Enabled, SystemTotal, Expected, Parked, Books, Disturbs;
    StepKeepsBalancedIff(s, e);
    StepKeepsExactIff(s, e);
    StepCounters(s, e);
    TotalOfBooks(Step(s, e));
  }

  /** What was dropped or lost never comes back in an undisturbed run: from then on the sum stays below
      what was minted. */
  lemma DroppedIsLostForGood(s: System, events: seq<Event>)
    requires Balanced(s) && PaidOnce(s) && s.dropped >= 0 && s.lost >= 0 && s.dropped + s.lost > 0
    requires ValidRun(s, events) && Undisturbed(s, events)
    ensures var t := Run(s, events); SystemTotal(t) < Expected(t)
  {
    RunKeepsBalanced(s, events);
    CountersNeverFall(s, events);
    TotalOfBooks(Run(s, events));
  }

  // ---- What disturbs --------------------------------------------------------------------------

  /** A transfer that its sender pays at execution is in transit while the sender still has the money. */
  lemma UserTransferBreaksTheCheck(l: Ledger, h: Hash, row: Row)
    requires VerifyConservation(l) && Fresh(l.rows, h, row) && row.origin.kind == SEND && row.origin.sender.Some?
             && !row.origin.triggered
    ensures VerifyConservation(l.(rows := l.rows[h := row])) <==> row.origin.value == 0
  {
    assert InTransitOf(l.rows[h := row]) == InTransitOf(l.rows)[h := InTransit(row)];
    SumUpdate(InTransitOf(l.rows), h, InTransit(row));
    RowChange(l.rows, map[], h, row, map[]);
  }

  lemma {:induction false} RunOneMore(s: System, events: seq<Event>, e: Event)
    requires ValidRun(s, events) && Enabled(Run(s, events), e)
    ensures ValidRun(s, events + [e]) && Run(s, events + [e]) == Step(Run(s, events), e)
    decreases |events|
  {
    hide Enabled, Step;
    if events == [] {
      assert ([] + [e])[1..] == [];
    } else {
      RunOneMore(Step(s, events[0]), events[1..], e);
      assert (events + [e])[1..] == events[1..] + [e];
    }
  }

  predicate PaidTransaction(row: Row) {
    && row.status.Pending? && !row.credited && row.origin.value > 0 && row.origin.kind != SEND
    && row.origin.sender.Some? && row.origin.address.Some?
  }

  /** More money than was ever minted: the value of the row, which was paid out once too often. */
  ghost predicate MadeFromNothing(s: System, h: Hash) {
    h in s.l.rows && SystemTotal(s) == TotalMinted(s.l) + s.onDemand + s.l.rows[h].origin.value
  }

  lemma TotalOfOneRow(s: System, h: Hash, row: Row)
    requires Surplus(s) == 0 && s.lost == 0 && s.l.rows == map[h := row]
    ensures SystemTotal(s) == TotalMinted(s.l) + s.onDemand + InTransit(row) - Due(row, Paid(s, h))
  {
    hide Due, InTransit, MintedOf;
    SumUpdate(map[], h, Due(row, Paid(s, h)));
    SumUpdate(map[], h, InTransit(row));
    assert DueOf(s.l.rows, s.paid) == map[][h := Due(row, Paid(s, h))];
    assert InTransitOf(s.l.rows) == map[][h := InTransit(row)];
  }

  lemma Begin(e: Event) returns (events: seq<Event>, s: System)
    requires Enabled(START, e) && !e.Emit?
    ensures events == [e] && ValidRun(START, events) && s == Run(START, events) == Step(START, e)
  {
    hide Enabled, Step;
    assert ValidRun(START, []);
    RunOneMore(START, [], e);
    events, s := [] + [e], Step(START, e);
  }

  /** A single row, paid out once and still carrying its value. */
  ghost predicate StillCarries(s: System, h: Hash, row: Row) {
    Known(s) && Surplus(s) == 0 && s.lost == 0 && s.l.rows == map[h := row] && Paid(s, h) == 1 && Carries(row)
  }

  lemma CancelPaysAgain(s: System, h: Hash, row: Row)
    requires StillCarries(s, h, row) && row.origin.sender.Some?
    ensures Enabled(s, Cancel(h)) && Paid(Step(s, Cancel(h)), h) == 2 && MadeFromNothing(Step(s, Cancel(h)), h)
  {
    hide Surplus, SystemTotal;
    var t := Step(s, Cancel(h));
    StepKeepsSurplus(s, Cancel(h));
    TotalOfOneRow(t, h, row.(status := Canceled));
  }

  lemma CreditPaysAgain(s: System, h: Hash, row: Row)
    requires StillCarries(s, h, row) && row.origin.address.Some?
    ensures Enabled(s, CreditOnce(h))
    ensures Paid(Step(s, CreditOnce(h)), h) == 2 && MadeFromNothing(Step(s, CreditOnce(h)), h)
  {
    hide Surplus, SystemTotal;
    var t := Step(s, CreditOnce(h));
    StepKeepsSurplus(s, CreditOnce(h));
    TotalOfOneRow(t, h, row.(credited := true));
  }

  /** A paid transaction is submitted, canceled and refunded. */
  lemma SubmittedAndRefunded(h: Hash, row: Row) returns (events: seq<Event>, s: System)
    requires PaidTransaction(row)
    ensures events == [Submit(h, row)] + [Cancel(h)] && ValidRun(START, events) && s == Run(START, events)
    ensures StillCarries(s, h, row.(status := Canceled))
  {
    hide Surplus;
    events, s := Begin(Submit(h, row));
    RunOneMore(START, events, Cancel(h));
    StartIsSettled();
    RunKeepsSurplus(START, events + [Cancel(h)]);
    events, s := events + [Cancel(h)], Step(s, Cancel(h));
  }

  /** Two cancellations of one row, the second by a worker that gave up on it, refund the sender twice:
      neither looks at the status. */
  lemma RefundedTwice(h: Hash, row: Row)
    requires PaidTransaction(row)
    ensures var events := [Submit(h, row)] + [Cancel(h)] + [Cancel(h)];
            && ValidRun(START, events)
            && Paid(Run(START, events), h) == 2 && MadeFromNothing(Run(START, events), h)
  {
    hide *;
    var events, s := SubmittedAndRefunded(h, row);
    HasParties(row);
    CancelPaysAgain(s, h, row.(status := Canceled));
    RunOneMore(START, events, Cancel(h));
  }

  /** A row canceled and refunded by another worker is credited by the worker that holds it. */
  lemma RefundedAndCredited(h: Hash, row: Row)
    requires PaidTransaction(row)
    ensures var events := [Submit(h, row)] + [Cancel(h)] + [CreditOnce(h)];
            && ValidRun(START, events)
            && Paid(Run(START, events), h) == 2 && MadeFromNothing(Run(START, events), h)
  {
    hide *;
    var events, s := SubmittedAndRefunded(h, row);
    HasParties(row);
    CreditPaysAgain(s, h, row.(status := Canceled));
    RunOneMore(START, events, CreditOnce(h));
  }

  lemma HasParties(row: Row)
    requires PaidTransaction(row)
    ensures row.origin.sender.Some? && row.origin.address.Some?
  {
  }

  lemma Revived(s: System, h: Hash, row: Row)
    requires StillCarries(s, h, row.(status := Canceled)) && row.status.Pending?
    ensures Enabled(s, SetRowStatus(h, Pending)) && StillCarries(Step(s, SetRowStatus(h, Pending)), h, row)
  {
    hide Surplus;
    StepKeepsSurplus(s, SetRowStatus(h, Pending));
    assert Step(s, SetRowStatus(h, Pending)).l.rows[h] == row;
  }

  /** An older row's rollback brings the refunded row back, as it does with every newer row, and its
      activation pays the value again. */
  lemma RevivedValueIsPaidTwice(h: Hash, row: Row)
    requires PaidTransaction(row)
    ensures var events := [Submit(h, row)] + [Cancel(h)] + [SetRowStatus(h, Pending)] + [CreditOnce(h)];
            && ValidRun(START, events)
            && Paid(Run(START, events), h) == 2 && MadeFromNothing(Run(START, events), h)
  {
    assert row.status.Pending?;
    hide *;
    var events, s := SubmittedAndRefunded(h, row);
    HasParties(row);
    Revived(s, h, row);
    RunOneMore(START, events, SetRowStatus(h, Pending));
    CreditPaysAgain(Step(s, SetRowStatus(h, Pending)), h, row);
    RunOneMore(START, events + [SetRowStatus(h, Pending)], CreditOnce(h));
  }

  lemma CancelPaysUnpaid(s: System, h: Hash, row: Row)
    requires Known(s) && Surplus(s) == 0 && s.lost == 0 && s.l.rows == map[h := row] && Paid(s, h) == 0
    requires !Prepaid(row) && !row.credited && row.origin.value > 0
    ensures Enabled(s, Cancel(h)) && Paid(Step(s, Cancel(h)), h) == 1 && MadeFromNothing(Step(s, Cancel(h)), h)
  {
    hide Surplus, SystemTotal;
    StepKeepsSurplus(s, Cancel(h));
    TotalOfOneRow(Step(s, Cancel(h)), h, row.(status := Canceled));
  }

  lemma TransferInserted(h: Hash, row: Row) returns (events: seq<Event>, s: System)
    requires Fresh(map[], h, row) && row.origin.kind == SEND && !Prepaid(row)
    ensures events == [InsertTransfer(h, row)] && ValidRun(START, events) && s == Run(START, events)
    ensures Known(s) && Surplus(s) == 0 && s.lost == 0 && s.l.rows == map[h := row] && Paid(s, h) == 0
  {
    hide Surplus;
    events, s := Begin(InsertTransfer(h, row));
    StartIsSettled();
    RunKeepsSurplus(START, events);
  }

  /** Canceling a user's plain transfer refunds a sender that never paid. */
  lemma UnpaidTransferIsRefunded(h: Hash, row: Row)
    requires Fresh(map[], h, row) && row.origin.kind == SEND && !Prepaid(row) && row.origin.value > 0
    ensures var events := [InsertTransfer(h, row)] + [Cancel(h)];
            && ValidRun(START, events)
            && Paid(Run(START, events), h) == 1 && MadeFromNothing(Run(START, events), h)
  {
    assert !row.credited;
    hide *;
    var events, s := TransferInserted(h, row);
    CancelPaysUnpaid(s, h, row);
    RunOneMore(START, events, Cancel(h));
  }

  // ---- Where the children come from ------------------------------------------------------------

  lemma {:induction false} ValuesAppend(children: seq<(Hash, Row)>, last: (Hash, Row))
    ensures Values(children + [last]) == Values(children) + last.1.origin.value
  {
    if children != [] {
      assert (children + [last])[1..] == children[1..] + [last];
      ValuesAppend(children[1..], last);
    }
  }

  predicate BuiltFrom(children: seq<(Hash, Row)>, messages: seq<M.Message>) {
    |children| == |messages| && forall i :: 0 <= i < |children| ==> children[i].1.origin.value == messages[i].value
  }

  lemma {:induction false} CarriedValue(children: seq<(Hash, Row)>, messages: seq<M.Message>)
    requires BuiltFrom(children, messages)
    ensures Values(children) == M.ValueOf(messages)
    decreases |children|
  {
    if children != [] {
      var n := |children| - 1;
      assert children == children[..n] + [children[n]];
      ValuesAppend(children[..n], children[n]);
      CarriedValue(children[..n], messages[..n]);
    }
  }

  /** The debit of an emission is the withdrawal of its phase: the child rows that are built from the
      messages of the phase carry exactly what the contract paid. */
  lemma ChildrenCarryTheWithdrawal(balance: int, ms: seq<M.Message>, on: M.Phase, olderFreeze: nat,
                                   children: seq<(Hash, Row)>)
    requires BuiltFrom(children, M.ForPhase(M.Withdraw(balance, ms, on, olderFreeze).messages, on))
    ensures Values(children) == balance - M.Withdraw(balance, ms, on, olderFreeze).balance
  {
    M.DebitEqualsEmittedValue(balance, ms, on, olderFreeze);
    CarriedValue(children, M.ForPhase(M.Withdraw(balance, ms, on, olderFreeze).messages, on));
  }

  // ---- The endpoints -----------------------------------------------------------------------------

  method FundAccount(m: AccountsManager, s: System, h: Hash, row: Row)
    requires s.l == m.Now() && Enabled(s, InsertFaucet(h, row))
    modifies m
    ensures Enabled(Step(s, InsertFaucet(h, row)), CreditOnce(h))
    ensures m.Now() == Step(Step(s, InsertFaucet(h, row)), CreditOnce(h)).l
    ensures forall b: Address :: (At(m.balances, b) ==
      At(old(m.balances), b) + if row.origin.address == Some(b) then row.origin.value else 0)
    ensures m.rows == old(m.rows)[h := row.(credited := row.origin.value > 0)]
  {
    m.rows := m.rows[h := row];
    var applied := m.CreditTxValueOnce(h, row.origin.address.value, row.origin.value);
  }

  /** The debit-then-insert tail of a submission: a known hash is left alone, and a plain transfer is
      inserted without a debit, since its sender pays at execution. */
  method SendRawTransaction(m: AccountsManager, s: System, h: Hash, row: Row)
    requires s.l == m.Now() && (h !in m.rows ==> Fresh(m.rows, h, row)) && !row.origin.triggered
    modifies m
    ensures h in old(m.rows) ==> m.Now() == old(m.Now())
    ensures h !in old(m.rows) && row.origin.sender.None? ==> m.Now() == old(m.Now()).(rows := old(m.rows)[h := row])
    ensures h !in old(m.rows) && row.origin.sender.Some? ==>
      var e := if row.origin.kind == SEND then InsertTransfer(h, row) else Submit(h, row);
      Enabled(s, e) && m.Now() == Step(s, e).l
    // the sender of a contract transaction pays at once, with what it lacks minted; nobody else does
    ensures h !in old(m.rows) && row.origin.sender.Some? ==>
      && m.rows == old(m.rows)[h := row]
      && forall b: Address :: At(m.balances, b) ==
           var held := At(old(m.balances), b);
           if row.origin.sender != Some(b) || row.origin.kind == SEND || row.origin.value == 0 then held
           else if held > row.origin.value then held - row.origin.value else 0
  {
    if h in m.rows {
      return;
    }
    if row.origin.value > 0 && row.origin.sender.Some? && row.origin.kind != SEND {
      var minted := m.SandboxDebitSender(row.origin.sender.value, row.origin.value);
    }
    m.rows := m.rows[h := row];
  }

  /** Activation credits the target before the row becomes proposing, whatever its status is by then. It
      disturbs exactly a row that was canceled meanwhile and still carries its value, and loses nothing. */
  method ActivateTransaction(m: AccountsManager, s: System, h: Hash)
    requires s.l == m.Now() && h in m.rows && m.rows[h].origin.kind != SEND && m.rows[h].origin.address.Some?
    modifies m
    ensures Enabled(s, CreditOnce(h)) && Enabled(Step(s, CreditOnce(h)), SetRowStatus(h, Proposing))
    ensures !Loses(Step(s, CreditOnce(h)), SetRowStatus(h, Proposing))
    ensures old(m.rows)[h].origin.value > 0 ==> m.Now() == Step(Step(s, CreditOnce(h)), SetRowStatus(h, Proposing)).l
    ensures old(m.rows)[h].origin.value == 0 ==>
      Enabled(s, SetRowStatus(h, Proposing)) && m.Now() == Step(s, SetRowStatus(h, Proposing)).l
    // the target gets the value, once, and nobody else gets or pays anything
    ensures var row := old(m.rows)[h];
            && m.rows == old(m.rows)[h := row.(status := Proposing, credited := row.credited || row.origin.value > 0)]
            && forall b: Address :: At(m.balances, b) ==
                 At(old(m.balances), b) + if !row.credited && row.origin.address == Some(b) then row.origin.value else 0
  {
    var origin := m.rows[h].origin;
    if origin.value > 0 {
      var credited := m.CreditTxValueOnce(h, origin.address.value, origin.value);
    }
    m.rows := m.rows[h := m.rows[h].(status := Proposing)];
  }

  /** The cancel-and-refund tail of the endpoint: succeeds exactly on a row that no worker has taken, and
      disturbs the books exactly when the row is an unpaid transfer of some value. */
  method CancelTransaction(m: AccountsManager, s: System, h: Hash) returns (canceled: bool)
    requires s.l == m.Now()
    modifies m
    ensures canceled <==> h in old(m.rows) && Claimable(old(m.rows)[h].status) && old(m.rows)[h].blockedAt.None?
    ensures !canceled ==> m.Now() == old(m.Now())
    ensures canceled ==>
      && Enabled(s, Cancel(h)) && m.Now() == Step(s, Cancel(h)).l
      && (Disturbs(s.l, Cancel(h)) <==> !Prepaid(s.l.rows[h]) && Uncredited(s.l, h))
    ensures canceled ==>
      var row := old(m.rows)[h];
      && m.rows == old(m.rows)[h := row.(status := Canceled)]
      && forall b: Address :: At(m.balances, b) ==
           At(old(m.balances), b) + if !row.credited && row.origin.sender == Some(b) then row.origin.value else 0
  {
    canceled := h in m.rows && Claimable(m.rows[h].status) && m.rows[h].blockedAt.None?;
    if canceled {
      CancelRow(m, s, h);
    }
  }

  /** The tail of the retry handlers: the row is canceled by hash, whatever its status, and refunded. */
  method CancelRow(m: AccountsManager, s: System, h: Hash)
    requires s.l == m.Now() && h in m.rows
    modifies m
    ensures Enabled(s, Cancel(h)) && m.Now() == Step(s, Cancel(h)).l
    // the sender gets the value back unless the target has it
    ensures var row := old(m.rows)[h];
            && m.rows == old(m.rows)[h := row.(status := Canceled)]
            && forall b: Address :: At(m.balances, b) ==
                 At(old(m.balances), b) + if !row.credited && row.origin.sender == Some(b) then row.origin.value else 0
  {
    m.rows := m.rows[h := m.rows[h].(status := Canceled)];
    var origin := m.rows[h].origin;
    if origin.value > 0 && origin.sender.Some? {
      var refunded := m.RefundTxValue(h, origin.sender.value);
    }
  }
}
