/**
 * The Amount value object: a strictly positive transfer amount.  Money is held
 * in integer cents, the precision of the decimal(15,2) columns it is stored in.
 */
module Amounts {
  import opened Wrappers
  import opened Errors

  /** 0.01, the smallest amount the constructor accepts, in cents. */
  const MinAmountCents: int := 1
  /** 5000.00, the daily ceiling, in cents. */
  const DailyLimitCents: int := 500000

  type PositiveCents = c: int | c >= 1 witness 1

  datatype Amount = Amount(cents: PositiveCents)

  /**
   * The constructor: `value <= 0` is rejected first, then `value < 0.01`.  In
   * cents the second guard can no longer fire on its own, so every Amount is at
   * least one cent.
   */
  function NewAmount(cents: int): (r: Result<Amount, Error>)
    ensures r.Success? <==> cents >= MinAmountCents
    ensures r.Success? ==> r.value.cents == cents
    ensures cents <= 0 ==> r == Failure(InvalidArgument(AmountNotPositive))
  {
    if cents <= 0 then Failure(InvalidArgument(AmountNotPositive))
    else if cents < MinAmountCents then Failure(InvalidArgument(AmountBelowMinimum))
    else Success(Amount(cents))
  }

  /** exceedsLimit: strictly above the limit, that is the excess over it is itself a valid amount. */
  function ExceedsLimit(a: Amount, limitCents: int): (r: bool)
    ensures r <==> NewAmount(a.cents - limitCents).Success?
  {
    a.cents > limitCents
  }

  /** exceedsDailyLimit: amounts are whole cents, so exceeding means at least one cent above 5000.00. */
  function ExceedsDailyLimit(a: Amount): (r: bool)
    ensures r <==> a.cents >= DailyLimitCents + MinAmountCents
  {
    ExceedsLimit(a, DailyLimitCents)
  }

  /** isValidForTransfer: at least the minimum and not above the daily ceiling. */
  function IsValidForTransfer(a: Amount): (b: bool)
    ensures b <==> a.cents <= DailyLimitCents
  {
    a.cents >= MinAmountCents && !ExceedsDailyLimit(a)
  }

  /** toCents: the whole number of cents, which builds the same amount back. */
  function ToCents(a: Amount): (r: int)
    ensures r >= MinAmountCents && NewAmount(r) == Success(a)
  {
    a.cents
  }

  /** fromCents(c) builds the amount c/100, so it fails for c <= 0 and round-trips otherwise. */
  function FromCents(c: int): (r: Result<Amount, Error>)
    ensures r.Success? <==> c >= 1
    ensures r.Success? ==> ToCents(r.value) == c
  {
    NewAmount(c)
  }

  /** |a - b| < 0.001 in currency units, written in cents: |a - b| * 10 < 1. */
  function Equals(a: Amount, b: Amount): (eq: bool)
    ensures eq <==> a == b
  {
    var d := a.cents - b.cents;
    (if d < 0 then -d else d) * 10 < 1
  }

  /** The daily ceiling is inclusive: 5000.00 does not exceed it, 5000.01 does, 4999.99 does not. */
  lemma DailyLimitBoundary()
    ensures !ExceedsDailyLimit(Amount(DailyLimitCents))
    ensures ExceedsDailyLimit(Amount(DailyLimitCents + 1))
    ensures !ExceedsDailyLimit(Amount(DailyLimitCents - 1))
  {
  }

  /** Equality is reflexive and symmetric. */
  lemma EqualsIsEquivalence(a: Amount, b: Amount)
    ensures Equals(a, a)
    ensures Equals(a, b) == Equals(b, a)
  {
  }
}
