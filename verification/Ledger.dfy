/** Token balances as the contracts see them through a token client. */
module Ledger {
  import opened Common

  type Address = nat

  type Balances = map<Address, int>

  function BalanceOf(balances: Balances, who: Address): int {
    if who in balances then balances[who] else 0
  }

  /** A transfer aborts when the amount is negative or the sender holds too little. */
  function Transfer(balances: Balances, from: Address, to: Address, amount: int): Option<Balances> {
    if amount < 0 || BalanceOf(balances, from) < amount then None
    else
      var taken := balances[from := BalanceOf(balances, from) - amount];
      Some(taken[to := BalanceOf(taken, to) + amount])
  }

  /** Many call sites transfer only positive amounts. */
  function TransferIfPositive(balances: Balances, from: Address, to: Address, amount: int): Option<Balances> {
    if amount > 0 then Transfer(balances, from, to, amount) else Some(balances)
  }

  /** What a movement of tokens adds to a holder's balance. */
  function Shift(from: Address, to: Address, amount: int, who: Address): int {
    (if who == to then amount else 0) - (if who == from then amount else 0)
  }

  /** Tokens moved from one holder to another and nowhere else. */
  ghost predicate Moved(before: Balances, after: Balances, from: Address, to: Address, amount: int) {
    forall who :: BalanceOf(after, who) == BalanceOf(before, who) + Shift(from, to, amount, who)
  }

  /** A transfer goes through exactly when the sender holds the amount, and then moves it. */
  lemma TransferMoves(balances: Balances, from: Address, to: Address, amount: int)
    requires amount >= 0
    ensures Transfer(balances, from, to, amount).Some? <==> amount <= BalanceOf(balances, from)
    ensures Transfer(balances, from, to, amount).Some? ==>
      Moved(balances, Transfer(balances, from, to, amount).value, from, to, amount)
    ensures TransferIfPositive(balances, from, to, amount).Some? <==> amount == 0 || amount <= BalanceOf(balances, from)
    ensures TransferIfPositive(balances, from, to, amount).Some? ==>
      Moved(balances, TransferIfPositive(balances, from, to, amount).value, from, to, amount)
  {
  }

  /** Sum of the balances of the addresses below n. */
  function TotalBelow(balances: Balances, n: nat): int {
    if n == 0 then 0 else TotalBelow(balances, n - 1) + BalanceOf(balances, n - 1)
  }

  lemma {:induction false} TotalOfUpdate(balances: Balances, who: Address, value: int, n: nat)
    ensures TotalBelow(balances[who := value], n)
         == TotalBelow(balances, n) + (if who < n then value - BalanceOf(balances, who) else 0)
  {
    if n > 0 {
      TotalOfUpdate(balances, who, value, n - 1);
    }
  }

  /** Transfers neither create nor destroy tokens. */
  lemma TransferConserves(balances: Balances, from: Address, to: Address, amount: int, n: nat)
    requires from < n && to < n && Transfer(balances, from, to, amount).Some?
    ensures TotalBelow(Transfer(balances, from, to, amount).value, n) == TotalBelow(balances, n)
  {
    var taken := balances[from := BalanceOf(balances, from) - amount];
    TotalOfUpdate(balances, from, BalanceOf(balances, from) - amount, n);
    TotalOfUpdate(taken, to, BalanceOf(taken, to) + amount, n);
  }
}
