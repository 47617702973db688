/**
 * The ERC-20 contract.  Amounts are unsigned 256-bit numbers with checked arithmetic: a
 * subtraction below zero or an addition above the largest value reverts the whole call.
 */
module Token {

  type Address = nat

  const ZERO: Address := 0
  const UINT_MAX: nat := 0xFFFF_FFFF_FFFF_FFFF_FFFF_FFFF_FFFF_FFFF_FFFF_FFFF_FFFF_FFFF_FFFF_FFFF_FFFF_FFFF

  datatype Transfer = Transfer(from: Address, to: Address, amount: nat)

  datatype State = State(balances: map<Address, nat>, totalSupply: nat, log: seq<Transfer>)

  datatype Call = Call(sender: Address, to: Address, amount: nat)

  function BalanceOf(balances: map<Address, nat>, a: Address): nat {
    if a in balances then balances[a] else 0
  }

  function Deploy(deployer: Address, supply: nat): State {
    State(map[deployer := supply], supply, [Transfer(ZERO, deployer, supply)])
  }

  function Debited(s: State, c: Call): map<Address, nat>
    requires BalanceOf(s.balances, c.sender) >= c.amount
  {
    s.balances[c.sender := BalanceOf(s.balances, c.sender) - c.amount]
  }

  /** The checked addition of the credit would leave the 256-bit range. */
  predicate CreditOverflows(s: State, c: Call)
    requires BalanceOf(s.balances, c.sender) >= c.amount
  {
    BalanceOf(Debited(s, c), c.to) + c.amount > UINT_MAX
  }

  function Apply(s: State, c: Call): State {
    if BalanceOf(s.balances, c.sender) < c.amount || CreditOverflows(s, c) then s
    else
      var debited := Debited(s, c);
      s.(balances := debited[c.to := BalanceOf(debited, c.to) + c.amount],
         log := s.log + [Transfer(c.sender, c.to, c.amount)])
  }

  class Contract {
    var balances: map<Address, nat>
    var totalSupply: nat
    var log: seq<Transfer>

    function Abs(): State
      reads this
    {
      State(balances, totalSupply, log)
    }

    constructor (sender: Address, supply: nat)
      requires supply <= UINT_MAX
      ensures Abs() == Deploy(sender, supply)
    {
      totalSupply := supply;
      balances := map[sender := supply];
      log := [Transfer(ZERO, sender, supply)];
    }

    /** False on a revert, which restores every balance. */
    method DoTransfer(sender: Address, to: Address, amount: nat) returns (ok: bool)
      modifies this
      ensures Abs() == Apply(old(Abs()), Call(sender, to, amount))
      ensures !ok ==> Abs() == old(Abs())
      ensures ok ==> amount <= BalanceOf(old(balances), sender) && totalSupply == old(totalSupply)
      ensures ok && sender != to ==>
                && BalanceOf(balances, sender) == BalanceOf(old(balances), sender) - amount
                && BalanceOf(balances, to) == BalanceOf(old(balances), to) + amount <= UINT_MAX
      ensures ok && sender == to ==> BalanceOf(balances, to) == BalanceOf(old(balances), to)
      ensures ok ==> forall a :: a != sender && a != to ==> BalanceOf(balances, a) == BalanceOf(old(balances), a)
      ensures ok ==> log == old(log) + [Transfer(sender, to, amount)]
      ensures !ok && amount <= BalanceOf(old(balances), sender) ==>
                BalanceOf(old(balances), to) + (if sender == to then 0 else amount) > UINT_MAX
    {
      if BalanceOf(balances, sender) < amount {
        return false;
      }
      ghost var debited := Debited(Abs(), Call(sender, to, amount));
      var before := balances;
      balances := balances[sender := BalanceOf(balances, sender) - amount];
      if BalanceOf(balances, to) + amount > UINT_MAX {
        balances := before;
        return false;
      }
      balances := balances[to := BalanceOf(balances, to) + amount];
      log := log + [Transfer(sender, to, amount)];
      return true;
    }
  }

  // ----- Conservation -----

  /** The sum of the balances of the addresses below n. */
  ghost function SumBelow(balances: map<Address, nat>, n: nat): nat {
    if n == 0 then 0 else SumBelow(balances, n - 1) + BalanceOf(balances, n - 1)
  }

  ghost predicate AllBelow(balances: map<Address, nat>, n: nat) {
    forall a :: a in balances ==> a < n
  }

  lemma {:induction false} SumUpdate(balances: map<Address, nat>, a: Address, v: nat, n: nat)
    ensures SumBelow(balances[a := v], n) + (if a < n then BalanceOf(balances, a) else 0)
         == SumBelow(balances, n) + if a < n then v else 0
  {
    if n > 0 {
      SumUpdate(balances, a, v, n - 1);
    }
  }

  lemma {:induction false} BalanceAtMostSum(balances: map<Address, nat>, a: Address, n: nat)
    requires a < n
    ensures BalanceOf(balances, a) <= SumBelow(balances, n)
  {
    if a < n - 1 {
      BalanceAtMostSum(balances, a, n - 1);
    }
  }

  function Run(deployer: Address, supply: nat, calls: seq<Call>): State {
    if calls == [] then Deploy(deployer, supply)
    else Apply(Run(deployer, supply, calls[..|calls| - 1]), calls[|calls| - 1])
  }

  /** One call moves no value in or out, whoever sends to whom; and the credit never overflows. */
  lemma TransferConserves(s: State, c: Call, n: nat)
    requires c.sender < n && c.to < n && SumBelow(s.balances, n) <= UINT_MAX
    ensures SumBelow(Apply(s, c).balances, n) == SumBelow(s.balances, n)
    ensures BalanceOf(s.balances, c.sender) >= c.amount ==> !CreditOverflows(s, c)
  {
    if BalanceOf(s.balances, c.sender) >= c.amount {
      var debited := Debited(s, c);
      SumUpdate(s.balances, c.sender, BalanceOf(s.balances, c.sender) - c.amount, n);
      BalanceAtMostSum(debited, c.to, n);
      SumUpdate(debited, c.to, BalanceOf(debited, c.to) + c.amount, n);
    }
  }

  /** The addresses named by a run all lie below n, as every address lies below 2^160. */
  predicate Bounded(deployer: Address, calls: seq<Call>, n: nat) {
    deployer < n && forall i :: 0 <= i < |calls| ==> calls[i].sender < n && calls[i].to < n
  }

  /** After any calls, self-transfers included, all balances add up to the total supply. */
  lemma {:induction false} SupplyConserved(deployer: Address, supply: nat, calls: seq<Call>, n: nat)
    requires Bounded(deployer, calls, n) && supply <= UINT_MAX
    ensures var s := Run(deployer, supply, calls);
            && s.totalSupply == supply
            && AllBelow(s.balances, n)
            && SumBelow(s.balances, n) == s.totalSupply
  {
    if calls == [] {
      SumUpdate(map[], deployer, supply, n);
      SumOfNothing(n);
      assert map[][deployer := supply] == map[deployer := supply];
    } else {
      var m := |calls| - 1;
      SupplyConserved(deployer, supply, calls[..m], n);
      TransferConserves(Run(deployer, supply, calls[..m]), calls[m], n);
    }
  }

  lemma {:induction false} SumOfNothing(n: nat)
    ensures SumBelow(map[], n) == 0
  {
    if n > 0 {
      SumOfNothing(n - 1);
    }
  }

  /** So a transfer is refused exactly when the sender's balance is too small. */
  lemma RefusedOnlyForBalance(deployer: Address, supply: nat, calls: seq<Call>, c: Call)
    requires supply <= UINT_MAX
    ensures var s := Run(deployer, supply, calls);
            |Apply(s, c).log| == |s.log| + 1 <==> BalanceOf(s.balances, c.sender) >= c.amount
  {
    var n := AddressBound(deployer, calls + [c]);
    assert forall i :: 0 <= i < |calls| ==> calls[i] == (calls + [c])[i];
    assert c == (calls + [c])[|calls|];
    SupplyConserved(deployer, supply, calls, n);
    TransferConserves(Run(deployer, supply, calls), c, n);
  }

  lemma {:induction false} AddressBound(deployer: Address, calls: seq<Call>) returns (n: nat)
    ensures Bounded(deployer, calls, n)
  {
    if calls == [] {
      n := deployer + 1;
    } else {
      var c := calls[|calls| - 1];
      n := AddressBound(deployer, calls[..|calls| - 1]);
      n := n + c.sender + c.to + 1;
      forall i | 0 <= i < |calls|
        ensures calls[i].sender < n && calls[i].to < n
      {
        assert i < |calls| - 1 ==> calls[i] == calls[..|calls| - 1][i];
      }
    }
  }

  // ----- Balances from the log -----

  function Received(log: seq<Transfer>, a: Address): nat {
    if log == [] then 0
    else Received(log[..|log| - 1], a) + if log[|log| - 1].to == a then log[|log| - 1].amount else 0
  }

  function Spent(log: seq<Transfer>, a: Address): nat {
    if log == [] then 0
    else Spent(log[..|log| - 1], a) + if log[|log| - 1].from == a then log[|log| - 1].amount else 0
  }

  /** Each balance is what the log says was received minus what was spent; the mint is on the zero address's account. */
  lemma {:induction false} BalanceFromLog(deployer: Address, supply: nat, calls: seq<Call>, a: Address)
    ensures var s := Run(deployer, supply, calls);
            BalanceOf(s.balances, a) + Spent(s.log, a) == Received(s.log, a) + if a == ZERO then supply else 0
  {
    if calls != [] {
      var m := |calls| - 1;
      BalanceFromLog(deployer, supply, calls[..m], a);
      var s := Run(deployer, supply, calls[..m]);
      var c := calls[m];
      assert (s.log + [Transfer(c.sender, c.to, c.amount)])[..|s.log|] == s.log;
    } else {
      assert [Transfer(ZERO, deployer, supply)][..0] == [];
    }
  }
}
