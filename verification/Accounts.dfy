/** Balances, and the one-time credit of the value a transaction carries. */
module Accounts {
  import opened Wrappers
  import opened Rows
  import opened Sums

  type Balances = map<Address, int>

  /** The two tables that value moves between. */
  datatype Ledger = Ledger(balances: Balances, rows: Table)

  function Balance(l: Ledger, a: Address): int {
    At(l.balances, a)
  }

  function Debited(l: Ledger, a: Address, amount: int): Ledger {
    if amount <= 0 || Balance(l, a) < amount || a !in l.balances then l
    else l.(balances := l.balances[a := l.balances[a] - amount])
  }

  predicate CanDebit(l: Ledger, a: Address, amount: int) {
    amount <= 0 || (a in l.balances && l.balances[a] >= amount)
  }

  function Credited(l: Ledger, a: Address, amount: int): Ledger {
    if amount <= 0 then l else l.(balances := l.balances[a := Balance(l, a) + amount])
  }

  /** The row still carries its value: nobody has been credited with it. */
  predicate Uncredited(l: Ledger, h: Hash) {
    h in l.rows && !l.rows[h].credited && l.rows[h].origin.value > 0
  }

  function CreditedOnce(l: Ledger, h: Hash, a: Address, amount: int): Ledger {
    if amount <= 0 || !Uncredited(l, h) then (if amount <= 0 then l else l.(balances := l.balances[a := Balance(l, a)]))
    else Credited(l, a, amount).(rows := l.rows[h := l.rows[h].(credited := true)])
  }

  function Refunded(l: Ledger, h: Hash, sender: Address): Ledger {
    if Uncredited(l, h) then Credited(l, sender, l.rows[h].origin.value) else l
  }

  class AccountsManager {
    var balances: Balances
    var rows: Table

    constructor (l: Ledger)
      ensures Now() == l
    {
      balances, rows := l.balances, l.rows;
    }

    function Now(): Ledger
      reads this
    {
      Ledger(balances, rows)
    }

    method UpdateAccountBalance(a: Address, balance: int)
      modifies this`balances
      ensures Now() == old(Now()).(balances := old(balances)[a := balance])
    {
      balances := balances[a := balance];
    }

    /** Fails, and changes nothing, exactly when the balance does not cover a positive amount. */
    method DebitAccountBalance(a: Address, amount: int) returns (ok: bool)
      modifies this`balances
      ensures ok <==> CanDebit(old(Now()), a, amount)
      ensures Now() == Debited(old(Now()), a, amount)
      ensures ok <==> amount <= 0 || (a in old(balances) && old(balances)[a] >= amount)
      ensures forall b: Address ::
        At(balances, b) == At(old(balances), b) - if ok && amount > 0 && b == a then amount else 0
    {
      if amount <= 0 {
        return true;
      }
      ok := a in balances && balances[a] >= amount;
      if ok {
        balances := balances[a := balances[a] - amount];
      }
    }

    method CreditAccountBalance(a: Address, amount: int)
      modifies this`balances
      ensures Now() == Credited(old(Now()), a, amount)
      ensures forall b: Address :: At(balances, b) == At(old(balances), b) + if amount > 0 && b == a then amount else 0
    {
      if amount <= 0 {
        return;
      }
      if a !in balances {
        balances := balances[a := 0];
      }
      balances := balances[a := balances[a] + amount];
    }

    method CreditTxValueOnce(h: Hash, target: Address, amount: int) returns (applied: bool)
      modifies this
      ensures applied <==> amount > 0 && Uncredited(old(Now()), h)
      ensures Now() == CreditedOnce(old(Now()), h, target, amount)
      // the target and no other account gets the amount, and the row remembers it
      ensures applied <==> amount > 0 && h in old(rows) && !old(rows)[h].credited && old(rows)[h].origin.value > 0
      ensures forall b: Address ::
        At(balances, b) == At(old(balances), b) + if applied && b == target then amount else 0
      ensures rows == if applied then old(rows)[h := old(rows)[h].(credited := true)] else old(rows)
    {
      if amount <= 0 {
        return false;
      }
      if target !in balances {
        balances := balances[target := 0];
      }
      if h in rows && !rows[h].credited && rows[h].origin.value > 0 {
        rows := rows[h := rows[h].(credited := true)];
        balances := balances[target := balances[target] + amount];
        return true;
      }
      return false;
    }

    method RefundTxValue(h: Hash, sender: Address) returns (applied: bool)
      modifies this
      ensures applied <==> Uncredited(old(Now()), h)
      ensures Now() == Refunded(old(Now()), h, sender)
      // the sender and no other account gets the value; the row shows nothing of it
      ensures applied <==> h in old(rows) && !old(rows)[h].credited && old(rows)[h].origin.value > 0
      ensures rows == old(rows)
      ensures forall b: Address :: (At(balances, b) ==
        At(old(balances), b) + if applied && b == sender then old(rows)[h].origin.value else 0)
    {
      if h !in rows || rows[h].origin.value <= 0 {
        return false;
      }
      if rows[h].credited {
        return false;
      }
      CreditAccountBalance(sender, rows[h].origin.value);
      return true;
    }

    /** The sender always pays in full: what it lacks is minted first. */
    method SandboxDebitSender(from: Address, amount: int) returns (ghost minted: int)
      modifies this
      ensures var held := Balance(old(Now()), from);
              minted == if amount > held && amount > 0 then amount - held else 0
      ensures amount > 0 ==>
        && from in balances
        && Now() == old(Now()).(balances := old(balances)[from := Balance(old(Now()), from) + minted - amount])
      ensures amount <= 0 ==> Now() == old(Now())
      ensures rows == old(rows) && forall b: Address :: b != from ==> At(balances, b) == At(old(balances), b)
      ensures amount > 0 ==>
        At(balances, from) == if At(old(balances), from) > amount then At(old(balances), from) - amount else 0
    {
      minted := 0;
      if amount <= 0 {
        return;
      }
      var senderBalance := if from in balances then balances[from] else 0;
      if senderBalance < amount {
        minted := amount - senderBalance;
        CreditAccountBalance(from, amount - senderBalance);
      }
      var ok := DebitAccountBalance(from, amount);
    }

    /** A transfer row: paid out at most once; the sender pays now unless a parent or the faucet already did. */
    method ExecuteTransfer(h: Hash, now: int)
      requires h in rows && rows[h].origin.kind == SEND
      modifies this
      ensures Now() == Transferred(old(Now()), h, now)
      ensures rows.Keys == old(rows.Keys) && forall o :: o in rows && o != h ==> rows[o] == old(rows)[o]
      ensures Settled(old(Now()), Now(), h, now)
    {
      WhoPaysWhom(Now(), h, now);
      hide Settled;
      var row := rows[h];
      if row.credited {
        rows := rows[h := row.(status := Finalized)];
        return;
      }
      if !row.origin.triggered && row.origin.sender.Some? {
        var from := row.origin.sender.value;
        var fromBalance := if from in balances then balances[from] else 0;
        if fromBalance < row.origin.value {
          rows := rows[h := row.(awaitingSince := Some(now))];
          rows := rows[h := rows[h].(status := Undetermined)];
          return;
        }
        UpdateAccountBalance(from, fromBalance - row.origin.value);
      }
      if row.origin.address.Some? {
        var to := row.origin.address.value;
        var toBalance := if to in balances then balances[to] else 0;
        UpdateAccountBalance(to, toBalance + row.origin.value);
      }
      if row.origin.value > 0 {
        rows := rows[h := rows[h].(credited := true)];
      }
      rows := rows[h := rows[h].(status := Finalized)];
    }
  }

  /** Who pays and who is paid: nobody for a row that is credited or whose sender cannot pay; otherwise the
      sender, unless a parent or the faucet has paid already, and the recipient. */
  ghost predicate Settled(before: Ledger, after: Ledger, h: Hash, now: int)
    requires h in before.rows && h in after.rows
  {
    var row, value := before.rows[h], before.rows[h].origin.value;
    var pays := !row.origin.triggered && row.origin.sender.Some?;
    var poor := pays && At(before.balances, row.origin.sender.value) < value;
    && after.rows[h] ==
         (if row.credited then row.(status := Finalized)
          else if poor then row.(status := Undetermined, awaitingSince := Some(now))
          else row.(status := Finalized, credited := value > 0))
    && forall b: Address :: (At(after.balances, b) ==
         At(before.balances, b)
         - (if !row.credited && pays && !poor && row.origin.sender == Some(b) then value else 0)
         + (if !row.credited && !poor && row.origin.address == Some(b) then value else 0))
  }

  lemma WhoPaysWhom(l: Ledger, h: Hash, now: int)
    requires h in l.rows
    ensures Settled(l, Transferred(l, h, now), h, now)
  {
  }

  /** The same account by account: a paid transfer takes the value from its sender and gives it to its
      recipient, a prepaid one only gives it, and no other account changes. */
  lemma TransferMovesValue(l: Ledger, h: Hash, now: int, b: Address)
    requires h in l.rows && l.rows[h].origin.address.Some?
    ensures var row, end := l.rows[h], Transferred(l, h, now);
            var to, value := row.origin.address.value, row.origin.value;
            var paysNow := !row.origin.triggered && row.origin.sender.Some?;
            var change := At(end.balances, b) - At(l.balances, b);
            if row.credited || (paysNow && At(l.balances, row.origin.sender.value) < value) then change == 0
            else if !paysNow then change == if b == to then value else 0
            else if row.origin.sender.value == to then change == 0
            else if b == row.origin.sender.value then change == 0 - value
            else change == if b == to then value else 0
    ensures forall o :: o in l.rows && o != h ==>
      o in Transferred(l, h, now).rows && Transferred(l, h, now).rows[o] == l.rows[o]
  {
    WhoPaysWhom(l, h, now);
  }

  function Transferred(l: Ledger, h: Hash, now: int): Ledger
    requires h in l.rows
  {
    var row := l.rows[h];
    var value := row.origin.value;
    var pays := !row.origin.triggered && row.origin.sender.Some?;
    if row.credited then l.(rows := l.rows[h := row.(status := Finalized)])
    else if pays && Balance(l, row.origin.sender.value) < value then
      l.(rows := l.rows[h := row.(status := Undetermined, awaitingSince := Some(now))])
    else
      var a :=
        if pays then l.balances[row.origin.sender.value := Balance(l, row.origin.sender.value) - value]
        else l.balances;
      var b :=
        if row.origin.address.Some? then a[row.origin.address.value := At(a, row.origin.address.value) + value]
        else a;
      Ledger(b, l.rows[h := row.(status := Finalized, credited := row.credited || value > 0)])
  }
}
