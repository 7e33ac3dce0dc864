/** The TransactionType value object: a closed set of three string values. */
module TransactionTypes {
  import opened Wrappers
  import opened Errors

  datatype TransactionType = Transfer | Deposit | Withdrawal

  /** getValue and __toString: one of the three stored strings, a different one per type. */
  function Value(t: TransactionType): (r: string)
    ensures r == "transfer" || r == "deposit" || r == "withdrawal"
    ensures r == "transfer" <==> t == Transfer
    ensures r == "deposit" <==> t == Deposit
  {
    match t
    case Transfer => "transfer"
    case Deposit => "deposit"
    case Withdrawal => "withdrawal"
  }

  /** The constructor: accepts exactly the three values, compared strictly. */
  function Parse(s: string): (r: Result<TransactionType, Error>)
    ensures r.Success? <==> s == "transfer" || s == "deposit" || s == "withdrawal"
    ensures r.Success? ==> Value(r.value) == s
    ensures r.Failure? ==> r.error == InvalidArgument(UnknownTransactionType)
  {
    if s == "transfer" then Success(Transfer)
    else if s == "deposit" then Success(Deposit)
    else if s == "withdrawal" then Success(Withdrawal)
    else Failure(InvalidArgument(UnknownTransactionType))
  }

  /** isTransfer, isDeposit, isWithdrawal: each holds for its own type only. */
  function IsTransfer(t: TransactionType): (r: bool)
    ensures r <==> t == Transfer
  {
    Value(t) == "transfer"
  }

  function IsDeposit(t: TransactionType): (r: bool)
    ensures r <==> t == Deposit
  {
    Value(t) == "deposit"
  }

  function IsWithdrawal(t: TransactionType): (r: bool)
    ensures r <==> t == Withdrawal
  {
    Value(t) == "withdrawal"
  }

  /** equals compares the string values, which identify the type. */
  function Equals(t: TransactionType, u: TransactionType): (eq: bool)
    ensures eq <==> t == u
  {
    Value(t) == Value(u)
  }

  /** Parsing a type's own value gives it back: the named constructors transfer(), deposit(), withdrawal(). */
  lemma ParseValue(t: TransactionType)
    ensures Parse(Value(t)) == Success(t)
  {
  }

  /** Exactly one of the three predicates holds. */
  lemma ExactlyOneKind(t: TransactionType)
    ensures IsTransfer(t) || IsDeposit(t) || IsWithdrawal(t)
    ensures !(IsTransfer(t) && IsDeposit(t)) && !(IsTransfer(t) && IsWithdrawal(t))
    ensures !(IsDeposit(t) && IsWithdrawal(t))
  {
  }
}
