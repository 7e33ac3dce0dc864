/**
 * The exceptions the core throws, as values.  `InvalidArgument` stands for PHP's
 * InvalidArgumentException and carries which guard rejected the input; the other
 * constructors stand for the domain exception classes and for the two database
 * errors the core can run into (`findOrFail` and the unique reference column).
 */
module Errors {

  datatype InvalidReason =
    | AmountNotPositive          // Amount: value <= 0
    | AmountBelowMinimum         // Amount: value < 0.01
    | NegativeBalance            // Balance: amount < 0
    | ResultingBalanceNegative   // Balance::subtract
    | UnknownTransactionType     // TransactionType: not transfer/deposit/withdrawal
    | SameSenderAndReceiver      // Transaction: senderId === receiverId
    | InvalidUserIds             // Transaction: an id <= 0
    | UnknownStatus              // Transaction: not pending/completed/failed
    | EmptyReference             // Transaction: empty(trim(reference))
    | ReferenceTooLong           // Transaction: strlen(reference) > 255
    | EmptyName                  // User: empty(trim(name))
    | NameTooLong                // User: strlen(name) > 255
    | EmptyEmail                 // Email: empty(trim(email))
    | EmailTooLong               // Email: strlen(trim(email)) > 255
    | MalformedEmail             // Email: FILTER_VALIDATE_EMAIL rejected it
    | DebitNotAffordable         // User::debit without funds

  /** Which lookup failed, for the two messages of the transfer service. */
  datatype Party = Sender | Receiver | Anyone

  datatype Error =
    | InvalidArgument(reason: InvalidReason)
    | UserNotFound(party: Party)
    | InsufficientFunds
    | DailyLimitExceeded
    | DuplicateTransaction
    | DuplicateEmail
    | ModelNotFound          // Eloquent findOrFail on a missing id
    | DuplicateReference     // unique index on transactions.reference
}
