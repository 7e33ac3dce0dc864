/** The Balance value object: a non-negative amount of money, in cents. */
module Balances {
  import opened Wrappers
  import opened Errors
  import opened Amounts

  datatype Balance = Balance(cents: nat)

  /** The constructor rejects a negative amount; zero is allowed. */
  function NewBalance(cents: int): (r: Result<Balance, Error>)
    ensures r.Success? <==> cents >= 0
    ensures r.Success? ==> r.value.cents == cents
    ensures r.Failure? ==> r.error == InvalidArgument(NegativeBalance)
  {
    if cents < 0 then Failure(InvalidArgument(NegativeBalance)) else Success(Balance(cents))
  }

  /** canAfford: what would remain after paying is still a valid balance. */
  function CanAfford(b: Balance, a: Amount): (r: bool)
    ensures r <==> NewBalance(b.cents - a.cents).Success?
  {
    b.cents >= a.cents
  }

  /** subtract returns a new balance and fails exactly when the balance cannot afford the amount. */
  function Subtract(b: Balance, a: Amount): (r: Result<Balance, Error>)
    ensures r.Success? <==> CanAfford(b, a)
    ensures r.Success? ==> r.value.cents + a.cents == b.cents
    ensures r.Failure? ==> r.error == InvalidArgument(ResultingBalanceNegative)
  {
    var newAmount := b.cents - a.cents;
    if newAmount < 0 then Failure(InvalidArgument(ResultingBalanceNegative))
    else Success(Balance(newAmount))
  }

  /** add never fails and grows the balance by exactly the amount. */
  function Add(b: Balance, a: Amount): (r: Balance)
    ensures r.cents - a.cents == b.cents
    ensures r.cents > b.cents
  {
    Balance(b.cents + a.cents)
  }

  /** isZero: exactly the empty balance, which cannot afford even the smallest amount. */
  function IsZero(b: Balance): (r: bool)
    ensures r <==> b == Balance(0)
    ensures r ==> !CanAfford(b, Amount(MinAmountCents))
  {
    b.cents == 0
  }

  /** |a - b| < 0.01 in currency units, written in cents: |a - b| < 1. */
  function Equals(x: Balance, y: Balance): (eq: bool)
    ensures eq <==> x == y
  {
    var d := x.cents - y.cents;
    (if d < 0 then -d else d) < 1
  }

  /** add followed by subtract of the same amount gives back the original balance. */
  lemma AddThenSubtract(b: Balance, a: Amount)
    ensures Subtract(Add(b, a), a) == Success(b)
  {
  }

  /** subtract followed by add of the same amount gives back the original balance. */
  lemma SubtractThenAdd(b: Balance, a: Amount)
    requires CanAfford(b, a)
    ensures Add(Subtract(b, a).value, a) == b
  {
  }
}
