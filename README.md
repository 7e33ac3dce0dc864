# Funds-transfer core, modelled in Dafny

This project models the core of a Laravel funds-transfer application. The
core has six parts:

- **Value objects.** `Amount` is strictly positive with a 5000.00 daily
  ceiling. `Balance` is non-negative. `TransactionType` is a closed enum.
  `Email` is trimmed and lower-cased.
- **Entities.** The `Transaction` and `User` entities validate themselves and
  change some fields in place.
- **Transaction repository.** An in-memory transactions table plus the shared
  application cache. It covers the daily total, the duplicate lookup, status
  changes, the transfer-totals report and the CSV export.
- **User repository.** An in-memory users table over the same cache, with
  soft deletes.
- **`TransactionService::transferMoney`.** The ordered checks, then the writes.
- **`UserService`.** Guard-and-update rules over the user repository.

Money is held in integer cents, the precision of the `decimal(15,2)` columns.
The epsilon comparisons of `Amount::equals` and `Balance::equals` therefore
become exact equality. Time is an integer number of seconds, and a calendar
day is `t / 86400`.

## Form

Each file is one module.

- **Pure files.** Value objects, validators, queries and report builders are
  datatypes and functions: `amount.dfy`, `balance.dfy`,
  `transaction_type.dfy`, `email.dfy` and `text.dfy`. `text.dfy` covers PHP's
  `trim`, `strtolower` and `empty` on strings.
- **Entities.** The two entities are classes whose methods reassign fields:
  `transaction.dfy` and `user.dfy`.
- **Repositories.** Each is a class with the table as a `seq` field and a
  shared `Cache` object (`cache.dfy`) holding a `map`. Row `k` holds id
  `k + 1`: ids are dense, a simplification of auto-increment (see "Left
  out"). Each operation is a method whose contract states the new table and
  the new cache. The CSV export is a loop, proved
  against the `Document` function.
- **Services.** These are classes over the repositories. `TransferMoney` is
  specified by three pure functions:
  - `TransferCheck`: which check fails first (`Screen` holds the service's own checks).
  - `Transferred`: the balances written.
  - `AfterRejection`: the cache fills a rejected transfer leaves behind.

The lemmas then state what these functions mean. They prove:

- the exact conditions for each rejection
- that the sum of balances is conserved
- that the daily limit holds when the cache is coherent
- that a retry within five minutes is rejected
- that the cache stays coherent

Inputs from outside the core are parameters:

- the current time `now`
- the generated reference
- the email format check `filter_var(..., FILTER_VALIDATE_EMAIL)`, passed as
  `wellFormed`
- the number and date printers of the CSV export

### Soft deletes

The users table has a `deleted_at` column. This is line 18 of
`database/migrations/2025_07_17_015229_add_balance_and_indexes_to_users_table.php`.
The repository's `delete` soft-deletes. So the Eloquent user model uses
`SoftDeletes`, whose global scope hides deleted rows from `find`,
`findOrFail`, `where(...)->first()` and `exists`.

The model therefore lets every user lookup see active users only. This is
`Users.ActiveId`. One consequence is proved: the services' own `isDeleted()`
and `deleted_at` checks can never fire.

### Where the code behaves differently from what one may expect

- **A rejected transfer changes no table, but it can change the cache.** Its
  lookups are read-through `Cache::remember` calls that run before the
  failing check. `findById` stores the sender and the receiver. The daily
  total stores the sender's total. The cache is outside the database
  transaction that rolls back. `AfterRejection` is the exact resulting cache,
  and `RejectionKeepsCacheCoherent` proves the fills hold the table's values.
- **Balances are written by plain arithmetic.** They do not go through
  `Balance::subtract`. The sender's balance stays non-negative only because
  the funds check ran earlier (`Transferred` requires it, and the method
  discharges that from `TransferCheck`).
- **A self-transfer passes every service check.** It is rejected only when
  the repository maps the new row through the `Transaction` constructor
  (`SelfTransferRejected`).
- **The returned entity is still pending.** `transferMoney` returns the
  entity captured at creation, so it reads `pending`, while the stored row is
  `completed`.
- **`markAsCompleted` and `markAsFailed` have no guard** on the current
  status.
- **A cached daily total can go stale.** `updateStatus` does not forget it
  (`StatusChangeCanStaleDailyTotal`). Only `create` and the transfer itself
  forget it. So the daily-limit guarantee is proved under the assumption that
  the cached totals are coherent (`TransferStaysWithinDailyLimit`), and
  `transferMoney` is proved to keep them coherent.
- **Email-keyed user cache entries can be stale snapshots.** `update` forgets
  only the new email's key. `updateBalance` forgets only `user:<id>`.
  `UserCacheCoherent` states what does hold: such an entry is some earlier
  state of an active user with that email.
- **`update` drops falsy fields.** `array_filter` drops `""`, `"0"` and a zero
  balance, so a balance cannot be set to zero this way
  (`ZeroBalanceIsDropped`).
- **The CSV escaping is ambiguous.** A field ending in a backslash followed by
  the separator reads the same as an escaped `;`
  (`TrailingBackslashIsAmbiguous`). Otherwise every line reads back to its
  fields (`RowRoundTrip`).

## Model

| member | source | states |
|---|---|---|
| Text.TrimIsInfix | app/Domain/User/ValueObjects/Email.php:19-21 | trim removes only strippable characters, a leading run and a trailing run, and keeps the rest as a contiguous infix |
| Text.TrimIdempotent | app/Domain/User/ValueObjects/Email.php:14 | trimming a trimmed string changes nothing |
| Text.LowerIdempotent | app/Domain/User/ValueObjects/Email.php:14 | lower-casing twice is lower-casing once |
| Amounts.NewAmount | app/Domain/Transaction/ValueObjects/Amount.php:13-24 | construction succeeds exactly for at least one cent and keeps the value; a value of zero or below fails with the not-positive error, which is checked first |
| Amounts.ExceedsLimit | app/Domain/Transaction/ValueObjects/Amount.php:31-34 | an amount exceeds a limit exactly when its excess over the limit is itself a valid amount, at least one cent |
| Amounts.ExceedsDailyLimit | app/Domain/Transaction/ValueObjects/Amount.php:36-39 | the daily ceiling is exceeded exactly from 5000.01 up |
| Amounts.ToCents | app/Domain/Transaction/ValueObjects/Amount.php:51-54 | toCents gives at least one cent, and constructing an amount from it gives the same amount back |
| Amounts.IsValidForTransfer | app/Domain/Transaction/ValueObjects/Amount.php:41-44 | a constructed amount is valid for transfer exactly when it is at most 5000.00 |
| Amounts.FromCents | app/Domain/Transaction/ValueObjects/Amount.php:51-59 | fromCents fails for c <= 0, and otherwise toCents gives back c |
| Amounts.Equals | app/Domain/Transaction/ValueObjects/Amount.php:61-64 | the 0.001 epsilon comparison holds exactly when the amounts are equal |
| Amounts.DailyLimitBoundary | app/Domain/Transaction/ValueObjects/Amount.php:31-39 | the ceiling is exceeded strictly above it: 5000.00 and 4999.99 do not exceed it, 5000.01 does |
| Amounts.EqualsIsEquivalence | app/Domain/Transaction/ValueObjects/Amount.php:61-64 | equals is reflexive and symmetric |
| Balances.NewBalance | app/Domain/User/ValueObjects/Balance.php:12-18 | construction fails exactly for a negative amount, with the negative-balance error; zero is allowed |
| Balances.CanAfford | app/Domain/User/ValueObjects/Balance.php:25-28 | a balance can afford an amount exactly when what would remain is still a valid, non-negative balance |
| Balances.IsZero | app/Domain/User/ValueObjects/Balance.php:44-47 | true exactly for the zero balance, which cannot afford even one cent |
| Balances.Subtract | app/Domain/User/ValueObjects/Balance.php:30-37 | subtract succeeds exactly when canAfford holds, and the result plus the amount is the old balance; otherwise it fails with the resulting-negative error |
| Balances.Add | app/Domain/User/ValueObjects/Balance.php:39-42 | add never fails and grows the balance by exactly the amount |
| Balances.Equals | app/Domain/User/ValueObjects/Balance.php:54-57 | the 0.01 epsilon comparison holds exactly when the balances are equal |
| Balances.AddThenSubtract | app/Domain/User/ValueObjects/Balance.php:30-42 | subtracting what was added gives back the original balance |
| Balances.SubtractThenAdd | app/Domain/User/ValueObjects/Balance.php:30-42 | adding back what was subtracted gives back the original balance |
| TransactionTypes.Parse | app/Domain/Transaction/ValueObjects/TransactionType.php:21-30 | the constructor accepts exactly "transfer", "deposit" and "withdrawal", and keeps the value; any other string fails |
| TransactionTypes.Value | app/Domain/Transaction/ValueObjects/TransactionType.php:32-35 | getValue is one of the three strings, a different one for each type |
| TransactionTypes.IsTransfer | app/Domain/Transaction/ValueObjects/TransactionType.php:37-40 | true exactly for the transfer type |
| TransactionTypes.IsDeposit | app/Domain/Transaction/ValueObjects/TransactionType.php:42-45 | true exactly for the deposit type |
| TransactionTypes.IsWithdrawal | app/Domain/Transaction/ValueObjects/TransactionType.php:47-50 | true exactly for the withdrawal type |
| TransactionTypes.Equals | app/Domain/Transaction/ValueObjects/TransactionType.php:52-55 | equals holds exactly for the same type |
| TransactionTypes.ParseValue | app/Domain/Transaction/ValueObjects/TransactionType.php:57-75 | the named constructors and getValue/__toString round-trip through the constructor |
| TransactionTypes.ExactlyOneKind | app/Domain/Transaction/ValueObjects/TransactionType.php:37-50 | exactly one of isTransfer, isDeposit and isWithdrawal holds |
| Transactions.ParseStatus | app/Domain/Transaction/Entities/Transaction.php:74-81 | exactly the three status strings are accepted, and the status keeps its string |
| Transactions.ParseStatusValue | app/Domain/Transaction/Entities/Transaction.php:11-19 | every status constant is accepted as itself |
| Transactions.MergeMetadata | app/Domain/Transaction/Entities/Transaction.php:167-171 | for string keys: the merge holds the keys of both maps, the incoming value wins on a clash, and other existing values are kept |
| Transactions.ValidateSenderAndReceiver | app/Domain/Transaction/Entities/Transaction.php:63-72 | it passes exactly for distinct positive ids; equal ids report "same user" even when not positive |
| Transactions.ValidateReference | app/Domain/Transaction/Entities/Transaction.php:83-92 | it passes exactly when the trimmed reference is not empty or "0" and the reference is at most 255 long; the empty check comes first, then the too-long error |
| Transactions.Validate | app/Domain/Transaction/Entities/Transaction.php:46-48 | the constructor's three checks, in order: the first that fails gives the error (parties, then status, then reference); success gives the status that was named |
| Transactions.ExactlyOneStatus | app/Domain/Transaction/Entities/Transaction.php:173-186 | exactly one of isPending, isCompleted and isFailed holds |
| Transactions.CanBeProcessed | app/Domain/Transaction/Entities/Transaction.php:193-196 | true exactly for a pending transaction of at most 5000.00 |
| Transactions.Transaction.Create | app/Domain/Transaction/Entities/Transaction.php:33-61 | the constructor fails exactly when validation does, with its error; otherwise it gives a fresh entity holding the inputs, with timestamps defaulting to now |
| Transactions.Transaction.MarkAsCompleted | app/Domain/Transaction/Entities/Transaction.php:149-153 | from any status, the status becomes completed and updatedAt now; nothing else changes |
| Transactions.Transaction.MarkAsFailed | app/Domain/Transaction/Entities/Transaction.php:155-159 | from any status, the status becomes failed and updatedAt now; nothing else changes |
| Transactions.Transaction.UpdateDescription | app/Domain/Transaction/Entities/Transaction.php:161-165 | the description is replaced and updatedAt becomes now; status and metadata are kept |
| Transactions.Transaction.AddMetadata | app/Domain/Transaction/Entities/Transaction.php:167-171 | for string keys: the metadata becomes the merge of the current map (empty when absent) with the incoming one |
| Users.ValidateName | app/Domain/User/Entities/User.php:43-52 | a name passes exactly when its trimmed form is not empty or "0" and it is at most 255 long, with the matching error otherwise |
| Users.User.Create | app/Domain/User/Entities/User.php:21-41 | the constructor fails exactly when the name check does; otherwise it gives a fresh entity holding the inputs, with timestamps defaulting to now |
| Users.User.CanAffordTransfer | app/Domain/User/Entities/User.php:94-97 | true exactly when debiting the amount from the balance would succeed |
| Users.User.Debit | app/Domain/User/Entities/User.php:99-107 | debit succeeds exactly when the balance covers the amount, and then subtracts it; a failed debit changes nothing |
| Users.User.Credit | app/Domain/User/Entities/User.php:109-113 | credit always adds exactly the amount |
| Users.User.UpdateName | app/Domain/User/Entities/User.php:115-120 | the result is the name check; on failure nothing changes, on success only the name and updatedAt do |
| Users.User.UpdateEmail | app/Domain/User/Entities/User.php:122-127 | the email is replaced and the verification cleared |
| Users.User.VerifyEmail | app/Domain/User/Entities/User.php:129-138 | after verifyEmail, isEmailVerified holds |
| Users.User.SoftDelete | app/Domain/User/Entities/User.php:140-144 | after softDelete the user is deleted and not active |
| Users.User.Restore | app/Domain/User/Entities/User.php:146-160 | after restore the user is active and not deleted |
| Emails.NewEmail | app/Domain/User/ValueObjects/Email.php:11-32 | construction succeeds exactly for a trimmed input that is not empty or "0", at most 255 long and well formed; the length is checked before the format; the value is the normalised input |
| Emails.Equals | app/Domain/User/ValueObjects/Email.php:49-52 | equals holds exactly for the same email |
| Emails.LocalPart | app/Domain/User/ValueObjects/Email.php:44-47 | the local part is a prefix of the value holding no "@", and empty when the value has no "@" |
| Emails.Domain | app/Domain/User/ValueObjects/Email.php:39-42 | the domain is a suffix of the value, strictly shorter than it when the value holds an "@" |
| Emails.SplitAtFirstAt | app/Domain/User/ValueObjects/Email.php:39-47 | local part, "@" and domain make up the value again, split at the first "@" |
| Emails.NormalizeIdempotent | app/Domain/User/ValueObjects/Email.php:14 | normalising twice is normalising once |
| Emails.Rewrap | app/Domain/User/ValueObjects/Email.php:11-15 | constructing an email again from a constructed email's value gives the same email, when the format check accepts the normalised value |
| Emails.EqualsIgnoresCaseAndPadding | app/Domain/User/ValueObjects/Email.php:49-52 | two inputs give equal emails exactly when they agree after trimming and lower-casing |
| Caches.Cache.Put | app/Infrastructure/Repositories/EloquentUserRepository.php:142-151 | put stores the value under the key and touches no other key |
| Caches.Cache.Forget | app/Infrastructure/Repositories/EloquentTransactionRepository.php:233-237 | forget removes exactly that key |
| TransferReports.TransferTotals | app/Infrastructure/Repositories/EloquentTransactionRepository.php:83-96 | one entry per sender of a completed transfer and none for anyone else, each holding that sender's sum, in descending order of the sums |
| TransferReports.NoTransfersNoTotal | app/Infrastructure/Repositories/EloquentTransactionRepository.php:88-92 | a sender with no completed transfer sums to zero |
| CsvExport.EscapeField | app/Infrastructure/Repositories/EloquentTransactionRepository.php:162-164 | an escaped field never starts with a bare separator and ends in a backslash exactly when the field does |
| CsvExport.UnescapeEscape | app/Infrastructure/Repositories/EloquentTransactionRepository.php:162-164 | every field is recovered from its escaped form |
| CsvExport.RowRoundTrip | app/Infrastructure/Repositories/EloquentTransactionRepository.php:162-166 | a line reads back as the fields that produced it, when no field but the last ends in a backslash |
| CsvExport.TrailingBackslashIsAmbiguous | app/Infrastructure/Repositories/EloquentTransactionRepository.php:162-166 | two different records can give the same line |
| CsvExport.Selected | app/Infrastructure/Repositories/EloquentTransactionRepository.php:115-133 | the export holds exactly the rows the date, status and type filters select |
| CsvExport.SelectedNewestFirst | app/Infrastructure/Repositories/EloquentTransactionRepository.php:115-133 | with ids increasing along the table, the selected rows come in strictly decreasing id order, newest first and none twice |
| TransactionRepositories.DailyTotalAppend | app/Infrastructure/Repositories/EloquentTransactionRepository.php:55-66 | a new row adds to a daily total only if it is a completed transfer of that sender on that day |
| TransactionRepositories.DailyTotalUpdate | app/Infrastructure/Repositories/EloquentTransactionRepository.php:55-66 | changing one row changes a daily total by exactly the change in that row's part of it |
| TransactionRepositories.CreateKeepsDailyCoherent | app/Infrastructure/Repositories/EloquentTransactionRepository.php:22-42 | forgetting the new row's sender and day, as create does, keeps every cached daily total equal to the table's |
| TransactionRepositories.StatusChangeCanStaleDailyTotal | app/Infrastructure/Repositories/EloquentTransactionRepository.php:199-214 | completing a pending transfer through updateStatus leaves a cached daily total too low |
| TransactionRepositories.NewRow | app/Infrastructure/Repositories/EloquentTransactionRepository.php:22-36 | the stored row exists exactly when the reference is new, the amount at least a cent, the type known and the entity checks pass; status defaults to pending and description and metadata to null |
| TransactionRepositories.TransactionRepository.Create | app/Infrastructure/Repositories/EloquentTransactionRepository.php:22-42 | on success one row is appended and the sender's daily total for today forgotten; on failure nothing changes |
| TransactionRepositories.TransactionRepository.FindById | app/Infrastructure/Repositories/EloquentTransactionRepository.php:44-53 | the row with that id, read through "transaction:<id>"; a missing row is not cached |
| TransactionRepositories.TransactionRepository.GetDailyTransferTotal | app/Infrastructure/Repositories/EloquentTransactionRepository.php:55-66 | the cached total if present, else the sum over the day's completed transfers; afterwards the key holds the value returned |
| TransactionRepositories.TransactionRepository.CheckDuplicateTransaction | app/Infrastructure/Repositories/EloquentTransactionRepository.php:68-81 | true exactly when some row, of any status, matches sender, receiver, amount and type and, with a window, is recent enough |
| TransactionRepositories.TransactionRepository.UpdateStatus | app/Infrastructure/Repositories/EloquentTransactionRepository.php:199-214 | true exactly when the row exists; then only its status and updatedAt change, and "transaction:<id>" and both report keys are forgotten |
| TransactionRepositories.TransactionRepository.GetTransferTotalsByUser | app/Infrastructure/Repositories/EloquentTransactionRepository.php:83-96 | the cached report if present, else the report computed from the table, which is then cached |
| TransactionRepositories.TransactionRepository.ExportToCsv | app/Infrastructure/Repositories/EloquentTransactionRepository.php:113-170 | the header line followed by one escaped line per selected row |
| UserRepositories.FirstWithEmail | app/Infrastructure/Repositories/EloquentUserRepository.php:53 | the lookup finds an active user with that email exactly when existsByEmail holds |
| UserRepositories.LookupByEmailIsActive | app/Infrastructure/Repositories/EloquentUserRepository.php:48-57 | whatever findByEmail returns, cached or not, has the email asked for and is not deleted |
| UserRepositories.LookupAgreesWithExists | app/Infrastructure/Repositories/EloquentUserRepository.php:48-57 | without a cached entry, findByEmail finds a user exactly when existsByEmail holds |
| UserRepositories.UpdateKeepsIdentity | app/Infrastructure/Repositories/EloquentUserRepository.php:64-68 | update never changes the id, creation, verification or deletion time, and updatedAt moves only to now |
| UserRepositories.ZeroBalanceIsDropped | app/Infrastructure/Repositories/EloquentUserRepository.php:64-68 | a zero balance is filtered out, so update leaves the user as it was |
| UserRepositories.UpdateWithSameValuesIsNoOp | app/Infrastructure/Repositories/EloquentUserRepository.php:64-68 | updating to the stored values changes nothing, not even updatedAt |
| UserRepositories.UserRepository.Create | app/Infrastructure/Repositories/EloquentUserRepository.php:19-35 | appends the user, with balance 0 by default, and caches it under "user:<id>" and "user:email:<email>"; a rejected name changes nothing |
| UserRepositories.UserRepository.FindById | app/Infrastructure/Repositories/EloquentUserRepository.php:37-46 | finds exactly the active users, read through "user:<id>" |
| UserRepositories.UserRepository.FindByEmail | app/Infrastructure/Repositories/EloquentUserRepository.php:48-57 | the cached snapshot if present, else the first active user with that email, which is then cached |
| UserRepositories.UserRepository.Update | app/Infrastructure/Repositories/EloquentUserRepository.php:59-77 | fails for a missing or deleted user; otherwise writes the filtered fields, then "user:<id>" holds the new state and the new email's key is forgotten; a rejected name rolls everything back |
| UserRepositories.UserRepository.Delete | app/Infrastructure/Repositories/EloquentUserRepository.php:79-94 | fails for a missing or deleted user; otherwise soft-deletes it and forgets its id key and its current email key |
| UserRepositories.UserRepository.UpdateBalance | app/Infrastructure/Repositories/EloquentUserRepository.php:96-108 | true exactly for an active user; then only the balance and updatedAt change, and only "user:<id>" is forgotten |
| UserRepositories.UserRepository.ExistsByEmail | app/Infrastructure/Repositories/EloquentUserRepository.php:110-113 | true exactly when some active user has that email |
| TransactionServices.TransferCheckPasses | app/Application/Services/TransactionService.php:34-98 | a transfer passes every check exactly when both users are active and distinct, the amount is at least a cent and covered by the balance, the daily total stays within 5000.00, nothing like it is in the window, and the reference is new and valid |
| TransactionServices.SelfTransferRejected | app/Application/Services/TransactionService.php:87-98 | a transfer to oneself never passes; if it gets past the service's checks, the entity's same-user check rejects it |
| TransactionServices.InsufficientFundsExactly | app/Application/Services/TransactionService.php:45-49 | with both users active and a valid amount, insufficient funds is reported exactly when the balance is below the amount |
| TransactionServices.DailyLimitExactly | app/Application/Services/TransactionService.php:51-73 | past the funds check, the daily limit is reported exactly when total plus amount is above 5000.00, and never when it equals it |
| TransactionServices.DuplicateExactly | app/Application/Services/TransactionService.php:75-85 | past the daily limit, a duplicate is reported exactly when a transfer with the same parties and amount, of any status, was created in the last 300 seconds |
| TransactionServices.TransferConservesMoney | app/Application/Services/TransactionService.php:100-101 | the two balance writes keep the sum of all balances |
| TransactionServices.TransferMovesTheAmount | app/Application/Services/TransactionService.php:100-101 | the sender has exactly the amount less, the receiver exactly more, and every other user is unchanged |
| TransactionServices.TransferStaysWithinDailyLimit | app/Application/Services/TransactionService.php:51-73 | with coherent cached totals, a transfer that passes adds exactly its amount to the sender's total for the day, which stays at most 5000.00 |
| TransactionServices.TransferCountsOnlyForSenderToday | app/Application/Services/TransactionService.php:51-52 | a transfer changes no other user's total and no other day's total |
| TransactionServices.EarlierDaysDoNotCount | app/Application/Services/TransactionService.php:51-52 | rows from earlier days add nothing to a later day's total |
| TransactionServices.RetryWithinWindowRejected | app/Application/Services/TransactionService.php:75-85 | repeating a completed transfer within five minutes is rejected, whatever the state of users and cache by then |
| TransactionServices.TransferKeepsDailyCoherent | app/Application/Services/TransactionService.php:98-105 | after a completed transfer every cached daily total still equals the table's |
| TransactionServices.RejectionKeepsCacheCoherent | app/Application/Services/TransactionService.php:29-85 | the cache fills of a rejected transfer hold the table's values, so a coherent cache stays coherent |
| TransactionServices.TransactionService.ReadParties | app/Application/Services/TransactionService.php:42-43 | both users are found through their "user:<id>" keys, which then hold them; the balances returned are the table's; neither table changes |
| TransactionServices.TransactionService.ScreenTransfer | app/Application/Services/TransactionService.php:31-85 | the outcome is exactly the service's ordered checks on the state before the call; the tables are unchanged and the cache ends as the lookups that ran leave it; a pass gives the two balances as stored |
| TransactionServices.TransactionService.Settle | app/Application/Services/TransactionService.php:100-101 | the users table becomes the transferred one, and only the two "user:<id>" keys are forgotten |
| TransactionServices.TransactionService.Complete | app/Application/Services/TransactionService.php:103-105 | only the new row's status changes, to completed; its transaction key, both report keys and the sender's daily key are forgotten |
| TransactionServices.TransactionService.Record | app/Application/Services/TransactionService.php:87-105 | the writes: one completed row appended, both balances set by arithmetic, and the touched cache keys forgotten; a failed create changes nothing |
| TransactionServices.TransactionService.TransferMoney | app/Application/Services/TransactionService.php:27-118 | fails exactly as the ordered checks say, with their error, leaving the tables unchanged and only the lookup fills in the cache; on success, one completed row, the balances moved, the touched keys forgotten, and the returned fresh entity still pending |
| UserServices.OwnEmailIsNotDuplicate | app/Application/Services/UserService.php:113-122 | re-submitting one's own email is not a duplicate, although an active user has it |
| UserServices.DuplicateEmailExactly | app/Application/Services/UserService.php:113-122 | a given email is refused as a duplicate exactly when it differs from the current one and an active user has it |
| UserServices.NothingToWriteExactly | app/Application/Services/UserService.php:107-131 | nothing is written exactly when no name, no balance and no different email was given |
| UserServices.UserService.GetUserById | app/Application/Services/UserService.php:61-76 | user-not-found exactly when no active user has the id; a user returned is never deleted |
| UserServices.UserService.GetUserByEmail | app/Application/Services/UserService.php:78-100 | the email error for bad input, with the cache untouched; else user-not-found when the lookup finds nothing; a user returned has that email and is not deleted; a user found is cached under "user:email:<email>" |
| UserServices.UserService.CreateUser | app/Application/Services/UserService.php:20-59 | email, then balance (0 by default), then duplicate email, all before any write; then the repository's create |
| UserServices.UserService.UpdateUser | app/Application/Services/UserService.php:102-155 | user-not-found, then the field checks, before any write; with nothing to write the user comes back unchanged; otherwise the repository's update |
| UserServices.UserService.DeleteUser | app/Application/Services/UserService.php:157-177 | user-not-found exactly for a missing or deleted user, before any write; otherwise the soft delete |
| UserServices.UserService.UpdateUserBalance | app/Application/Services/UserService.php:179-205 | user-not-found first, then a negative balance is refused, both before any write, leaving only the lookup's "user:<id>" fill in the cache; otherwise only that balance changes and "user:<id>" is forgotten |
| UserServices.UserService.VerifyUserCredentials | app/Application/Services/UserService.php:212-223 | the user the email lookup finds, or none; a malformed email still fails and leaves the cache untouched; a user found is cached under "user:email:<email>"; the password is not consulted |

## Left out

- **Floating point.** `toCents`'s `round(value * 100)` on floats and the epsilon in the `equals` methods are not modelled. So are `number_format` and the `toString` methods. Money is exact integer cents.
- **`getAverageAmountByUser`.** The AVG report is not modelled, because it is floating-point. Only its cache key is modelled, since `updateStatus` forgets it.
- **Pagination and date-range queries.** `getTransactionsForUser`, `getTransactionsByDateRange`, `getAllPaginated` and `UserService::getAllUsers` are not modelled. They are paginator and ORM wrappers.
- **Clock and reference generation.** `Carbon::now()` is the parameter `now`, in seconds. `Transaction::generateReference` is not modelled; the reference is a parameter.
- **Timezones.** The calendar day is `now / 86400` in one fixed timezone.
- **Row locks and `DB::transaction`.** These serve concurrency. A transfer is one sequential step. A rollback is modelled as tables left unchanged.
- **Cache expiry.** Entries live until forgotten.
- **`filter_var(FILTER_VALIDATE_EMAIL)`.** This is the uninterpreted predicate `wellFormed`.
- **Passwords and logging.** Password hashing and the `Log` facade are not modelled. `VerifyUserCredentials` takes the password and ignores it, as the source does.
- **`App/Models/User.php` is not part of this model.** Its use of `SoftDeletes` is inferred from the `deleted_at` column and from `delete` soft-deleting.
- **Database constraints.** The unique index on `users.email`, the foreign keys and the `CHECK` constraints on transactions are not modelled. The unique email index covers soft-deleted rows too, while the duplicate checks see only active users. So `createUser` or `updateUser` with a soft-deleted user's email succeeds in the model but fails on the index in the database. The users table's base migration is not part of this model. For a self-transfer, the `chk_different_users` CHECK can fail the insert before the entity's same-user check runs. Both reject with nothing written; only the error differs.
- **`mapToEntity` re-validating stored values.** Re-checking the stored email is not modelled, because stored emails are already `Email` values. Re-checking the stored amount and type is not modelled either; stored rows hold typed values.
- **Affected-row counts.** MySQL reports zero affected rows for an `update` that changes nothing, which can make `updateStatus` or `updateBalance` return false. The model returns true whenever the row exists.
- **Byte strings.** Strings are sequences of characters, one per byte. The 255 limits count characters, and `strtolower` is ASCII-only. Multibyte input is not modelled.
- **CSV row order.** The export is ordered newest row first. This equals the source's `created_at` descending only when the clock never goes back. Fields containing a line break are not considered.
- **Dense ids.** Row `k` of each table has id `k + 1`. MySQL's auto-increment also consumes a value on an insert that fails or is rolled back, and both repositories insert before `mapToEntity` validates (`EloquentTransactionRepository.php:25-36`, `EloquentUserRepository.php:22-29`). So after a rejected create the database skips an id that the model gives to the next row: the model's ids are the source's only when no insert has failed.
- Transactions.MergeMetadata, Transactions.Transaction.AddMetadata: model string keys only. PHP's `array_merge` renumbers integer keys, including numeric-string keys such as `"1"` that JSON decoding turns into integers, and appends them instead of overwriting; the merge's key order is not modelled either.
- TransactionRepositories.TransactionRepository.UpdateStatus: takes a `Status` rather than any string, because an out-of-enum string is a database error on the enum column, which is not modelled.
- UserRepositories.UserRepository.UpdateBalance: requires a non-negative balance, because the `chk_balance_positive` CHECK on the users table rejects a negative one and that database error is not modelled; the service and the transfer always pass a non-negative value.
