/**
 * TransactionService::transferMoney: the checks in their fixed order, then the
 * writes (a pending row, the two balances, the completed status, the sender's
 * daily total forgotten).  The locks and DB::transaction are what make the
 * source atomic; here a transfer is one sequential step.
 */
module TransactionServices {
  import opened Wrappers
  import opened Errors
  import opened Amounts
  import opened Balances
  import opened TransactionTypes
  import opened Transactions
  import opened Users
  import opened Caches
  import opened TransferReports
  import opened TransactionRepositories
  import opened UserRepositories

  /** The duplicate window the service asks for, in minutes. */
  const DuplicateWindowMinutes: int := 5

  /** The row the service asks the repository to create: a pending transfer. */
  function TransferRow(rows: seq<TransactionData>, s: int, r: int, cents: int, reference: string,
                       description: Option<string>, now: int): Result<TransactionData, Error>
  {
    NewRow(rows, s, r, cents, "transfer", reference, description, None, Some("pending"), now)
  }

  /**
   * The service's own checks, in the order it runs them: the sender, the
   * receiver, the amount, the funds (on the sender as found), the daily total
   * (as the cache or the table gives it) and the duplicate window.
   */
  function Screen(users: seq<UserData>, rows: seq<TransactionData>, entries: map<CacheKey, CacheValue>,
                  s: int, r: int, cents: int, now: int): Outcome<Error>
    requires WellTyped(entries)
  {
    if !ActiveId(users, s) then Fail(UserNotFound(Sender))
    else if !ActiveId(users, r) then Fail(UserNotFound(Receiver))
    else if NewAmount(cents).Failure? then Fail(NewAmount(cents).error)
    else if !CanAfford(users[s - 1].balance, NewAmount(cents).value) then Fail(InsufficientFunds)
    else if ReadThroughTotal(entries, rows, s, Day(now)) + cents > DailyLimitCents then Fail(DailyLimitExceeded)
    else if HasDuplicate(rows, s, r, cents, "transfer", Some(DuplicateWindowMinutes), now) then Fail(DuplicateTransaction)
    else Pass
  }

  /**
   * The outcome of transferMoney's checks: the service's own, then the
   * repository's checks on the new row, among them that the two parties
   * differ.
   */
  function TransferCheck(users: seq<UserData>, rows: seq<TransactionData>, entries: map<CacheKey, CacheValue>,
                         s: int, r: int, cents: int, reference: string, description: Option<string>, now: int)
    : Outcome<Error>
    requires WellTyped(entries)
  {
    var screened := Screen(users, rows, entries, s, r, cents, now);
    if screened.Fail? then screened
    else
      match TransferRow(rows, s, r, cents, reference, description, now)
      case Failure(e) => Fail(e)
      case Success(_) => Pass
  }

  /**
   * The users table after the two balance writes: each party's balance as it
   * was read, minus or plus the amount, by plain arithmetic.
   */
  function Transferred(users: seq<UserData>, s: int, r: int, cents: int, now: int): seq<UserData>
    requires 1 <= s <= |users| && 1 <= r <= |users|
    requires 0 <= cents <= users[s - 1].balance.cents
  {
    var sender := users[s - 1];
    var receiver := users[r - 1];
    users[s - 1 := sender.(balance := Balance(sender.balance.cents - cents), updatedAt := now)]
         [r - 1 := receiver.(balance := Balance(receiver.balance.cents + cents), updatedAt := now)]
  }

  /**
   * The cache after a rejected transfer: the lookups that ran before the
   * failing check leave their read-through fills behind (the two users, then
   * the sender's daily total), since the cache is outside the database
   * transaction that rolls back.
   */
  function AfterRejection(entries: map<CacheKey, CacheValue>, users: seq<UserData>, rows: seq<TransactionData>,
                          s: int, r: int, cents: int, now: int): map<CacheKey, CacheValue>
    requires WellTyped(entries)
  {
    if !ActiveId(users, s) || !ActiveId(users, r) then entries
    else
      var found := entries[UserKey(s) := CachedUser(users[s - 1])][UserKey(r) := CachedUser(users[r - 1])];
      if cents < MinAmountCents || users[s - 1].balance.cents < cents then found
      else found[DailyKey(s, Day(now)) := CachedAmount(ReadThroughTotal(entries, rows, s, Day(now)))]
  }

  /** The cache keys a completed transfer forgets. */
  function TransferForgets(s: int, r: int, txId: int, now: int): set<CacheKey> {
    {UserKey(s), UserKey(r), DailyKey(s, Day(now)), TxKey(txId), TotalsKey, AverageKey}
  }

  /** The sum of all balances in the users table. */
  function TotalBalance(users: seq<UserData>): (total: int)
    ensures total >= 0
  {
    if |users| == 0 then 0 else TotalBalance(users[..|users| - 1]) + users[|users| - 1].balance.cents
  }

  lemma {:induction false} TotalBalanceUpdate(users: seq<UserData>, i: int, d: UserData)
    requires 0 <= i < |users|
    ensures TotalBalance(users[i := d]) == TotalBalance(users) - users[i].balance.cents + d.balance.cents
  {
    var n := |users| - 1;
    var updated := users[i := d];
    if i == n {
      assert updated[..n] == users[..n];
    } else {
      assert updated[..n] == users[..n][i := d];
      TotalBalanceUpdate(users[..n], i, d);
    }
  }

  /**
   * A transfer passes every check exactly when both users are active and
   * distinct, the amount is at least a cent and within the sender's balance,
   * the day's total stays within the limit, no like transfer is in the window,
   * and the reference is new and acceptable.
   */
  lemma TransferCheckPasses(users: seq<UserData>, rows: seq<TransactionData>, entries: map<CacheKey, CacheValue>,
                            s: int, r: int, cents: int, reference: string, description: Option<string>, now: int)
    requires WellTyped(entries)
    ensures TransferCheck(users, rows, entries, s, r, cents, reference, description, now).Pass?
        <==> && ActiveId(users, s) && ActiveId(users, r) && s != r
             && MinAmountCents <= cents <= users[s - 1].balance.cents
             && ReadThroughTotal(entries, rows, s, Day(now)) + cents <= DailyLimitCents
             && !HasDuplicate(rows, s, r, cents, "transfer", Some(DuplicateWindowMinutes), now)
             && !ReferenceTaken(rows, reference) && ValidateReference(reference).Pass?
  {
    assert Parse("transfer") == Success(Transfer);
    assert ParseStatus("pending") == Success(Pending);
  }

  /** A transfer to oneself never passes: the repository's row check rejects it, if nothing earlier does. */
  lemma SelfTransferRejected(users: seq<UserData>, rows: seq<TransactionData>, entries: map<CacheKey, CacheValue>,
                             s: int, cents: int, reference: string, description: Option<string>, now: int)
    requires WellTyped(entries)
    ensures var o := TransferCheck(users, rows, entries, s, s, cents, reference, description, now);
            && o.Fail?
            && (o.error.InvalidArgument? ==> o.error.reason in {AmountNotPositive, SameSenderAndReceiver})
  {
    var o := TransferCheck(users, rows, entries, s, s, cents, reference, description, now);
    if ActiveId(users, s) && cents >= MinAmountCents && users[s - 1].balance.cents >= cents
       && ReadThroughTotal(entries, rows, s, Day(now)) + cents <= DailyLimitCents
       && !HasDuplicate(rows, s, s, cents, "transfer", Some(DuplicateWindowMinutes), now)
       && !ReferenceTaken(rows, reference)
    {
      assert Parse("transfer") == Success(Transfer);
      assert o == Fail(InvalidArgument(SameSenderAndReceiver));
    }
  }

  /** With both users active and the amount valid, InsufficientFunds is reported exactly when the balance is short. */
  lemma InsufficientFundsExactly(users: seq<UserData>, rows: seq<TransactionData>, entries: map<CacheKey, CacheValue>,
                                 s: int, r: int, cents: int, reference: string, description: Option<string>, now: int)
    requires WellTyped(entries)
    requires ActiveId(users, s) && ActiveId(users, r) && cents >= MinAmountCents
    ensures TransferCheck(users, rows, entries, s, r, cents, reference, description, now) == Fail(InsufficientFunds)
        <==> users[s - 1].balance.cents < cents
  {
  }

  /**
   * Once the funds check passes, DailyLimitExceeded is reported exactly when the
   * day's total plus the amount is above 5000.00; reaching it exactly is allowed.
   */
  lemma DailyLimitExactly(users: seq<UserData>, rows: seq<TransactionData>, entries: map<CacheKey, CacheValue>,
                          s: int, r: int, cents: int, reference: string, description: Option<string>, now: int)
    requires WellTyped(entries)
    requires ActiveId(users, s) && ActiveId(users, r) && MinAmountCents <= cents <= users[s - 1].balance.cents
    ensures TransferCheck(users, rows, entries, s, r, cents, reference, description, now) == Fail(DailyLimitExceeded)
        <==> ReadThroughTotal(entries, rows, s, Day(now)) + cents > DailyLimitCents
    ensures ReadThroughTotal(entries, rows, s, Day(now)) + cents == DailyLimitCents
        ==> TransferCheck(users, rows, entries, s, r, cents, reference, description, now) != Fail(DailyLimitExceeded)
  {
  }

  /**
   * Once the daily limit passes, DuplicateTransaction is reported exactly when
   * a row with the same parties, amount and type "transfer", of any status,
   * was created within the last five minutes.
   */
  lemma DuplicateExactly(users: seq<UserData>, rows: seq<TransactionData>, entries: map<CacheKey, CacheValue>,
                         s: int, r: int, cents: int, reference: string, description: Option<string>, now: int)
    requires WellTyped(entries)
    requires ActiveId(users, s) && ActiveId(users, r) && MinAmountCents <= cents <= users[s - 1].balance.cents
    requires ReadThroughTotal(entries, rows, s, Day(now)) + cents <= DailyLimitCents
    ensures TransferCheck(users, rows, entries, s, r, cents, reference, description, now) == Fail(DuplicateTransaction)
        <==> exists i :: 0 <= i < |rows| && rows[i].senderId == s && rows[i].receiverId == r
                         && rows[i].amount.cents == cents && rows[i].kind == Transfer
                         && rows[i].createdAt >= now - 300
  {
    if TransferCheck(users, rows, entries, s, r, cents, reference, description, now) == Fail(DuplicateTransaction) {
      var i :| 0 <= i < |rows| && MatchesCriteria(rows[i], s, r, cents, "transfer", Some(DuplicateWindowMinutes), now);
      assert rows[i].kind == Transfer by {
        assert Value(rows[i].kind) == "transfer";
        assert Value(Deposit) != "transfer" && Value(Withdrawal) != "transfer";
      }
    }
  }

  /** Money is neither made nor lost: a transfer between two users keeps the sum of all balances. */
  lemma TransferConservesMoney(users: seq<UserData>, s: int, r: int, cents: int, now: int)
    requires 1 <= s <= |users| && 1 <= r <= |users| && s != r
    requires 0 <= cents <= users[s - 1].balance.cents
    ensures TotalBalance(Transferred(users, s, r, cents, now)) == TotalBalance(users)
  {
    var sender := users[s - 1];
    var receiver := users[r - 1];
    var debited := sender.(balance := Balance(sender.balance.cents - cents), updatedAt := now);
    var credited := receiver.(balance := Balance(receiver.balance.cents + cents), updatedAt := now);
    MovingBetweenTwoKeepsTotal(users, s - 1, debited, r - 1, credited, Transferred(users, s, r, cents, now));
  }

  /** Rewriting two distinct users so that their balances keep their sum keeps the total. */
  lemma MovingBetweenTwoKeepsTotal(users: seq<UserData>, i: int, d: UserData, j: int, e: UserData,
                                    after: seq<UserData>)
    requires 0 <= i < |users| && 0 <= j < |users| && i != j
    requires d.balance.cents + e.balance.cents == users[i].balance.cents + users[j].balance.cents
    requires after == users[i := d][j := e]
    ensures TotalBalance(after) == TotalBalance(users)
  {
    var first := users[i := d];
    TotalBalanceUpdate(users, i, d);
    assert first[j] == users[j];
    TotalBalanceUpdate(first, j, e);
  }

  /** After a transfer the sender has exactly the amount less, the receiver exactly more, and no one else changed. */
  lemma TransferMovesTheAmount(users: seq<UserData>, s: int, r: int, cents: int, now: int)
    requires 1 <= s <= |users| && 1 <= r <= |users| && s != r
    requires 0 <= cents <= users[s - 1].balance.cents
    ensures var after := Transferred(users, s, r, cents, now);
            && |after| == |users|
            && after[s - 1].balance.cents + cents == users[s - 1].balance.cents
            && after[r - 1].balance.cents == users[r - 1].balance.cents + cents
            && (forall k :: 0 <= k < |users| && k != s - 1 && k != r - 1 ==> after[k] == users[k])
            && (forall k :: 0 <= k < |users| ==> after[k].id == users[k].id && after[k].deletedAt == users[k].deletedAt)
  {
  }

  /** The stored row of a completed transfer: the pending row, marked completed in the same second. */
  function CompletedRow(rows: seq<TransactionData>, s: int, r: int, cents: int, reference: string,
                        description: Option<string>, now: int): TransactionData
    requires TransferRow(rows, s, r, cents, reference, description, now).Success?
  {
    TransferRow(rows, s, r, cents, reference, description, now).value.(status := Completed)
  }

  /**
   * When the cached daily totals agree with the table, a transfer that passes
   * leaves the sender's total for the day at most 5000.00: the new completed
   * row adds exactly the amount to it.
   */
  lemma TransferStaysWithinDailyLimit(users: seq<UserData>, rows: seq<TransactionData>, entries: map<CacheKey, CacheValue>,
                                      s: int, r: int, cents: int, reference: string, description: Option<string>, now: int)
    requires WellTyped(entries) && DailyCoherent(entries, rows)
    requires TransferCheck(users, rows, entries, s, r, cents, reference, description, now).Pass?
    ensures var after := rows + [CompletedRow(rows, s, r, cents, reference, description, now)];
            && DailyTotal(after, s, Day(now)) == DailyTotal(rows, s, Day(now)) + cents
            && DailyTotal(after, s, Day(now)) <= DailyLimitCents
  {
    var row := CompletedRow(rows, s, r, cents, reference, description, now);
    assert Parse("transfer") == Success(Transfer);
    DailyTotalAppend(rows, row, s, Day(now));
  }

  /** A transfer counts only toward its sender's total for its own day: every other total is as before. */
  lemma TransferCountsOnlyForSenderToday(rows: seq<TransactionData>, s: int, r: int, cents: int, reference: string,
                                         description: Option<string>, now: int, u: int, day: int)
    requires TransferRow(rows, s, r, cents, reference, description, now).Success?
    requires u != s || day != Day(now)
    ensures DailyTotal(rows + [CompletedRow(rows, s, r, cents, reference, description, now)], u, day)
         == DailyTotal(rows, u, day)
  {
    DailyTotalAppend(rows, CompletedRow(rows, s, r, cents, reference, description, now), u, day);
  }

  /** The limit is per calendar day: rows from earlier days add nothing to a later day's total. */
  lemma {:induction false} EarlierDaysDoNotCount(rows: seq<TransactionData>, u: int, day: int)
    requires forall k :: 0 <= k < |rows| ==> Day(rows[k].createdAt) < day
    ensures DailyTotal(rows, u, day) == 0
  {
    if |rows| > 0 {
      EarlierDaysDoNotCount(rows[..|rows| - 1], u, day);
    }
  }

  /**
   * Retrying the same transfer within five minutes of a completed one is
   * rejected, whatever the state of the users and the cache by then.
   */
  lemma RetryWithinWindowRejected(users: seq<UserData>, rows: seq<TransactionData>, entries: map<CacheKey, CacheValue>,
                                  s: int, r: int, cents: int, reference: string, description: Option<string>, now: int,
                                  users2: seq<UserData>, entries2: map<CacheKey, CacheValue>,
                                  reference2: string, description2: Option<string>, later: int)
    requires WellTyped(entries) && WellTyped(entries2)
    requires TransferCheck(users, rows, entries, s, r, cents, reference, description, now).Pass?
    requires now <= later <= now + DuplicateWindowMinutes * 60
    ensures var after := rows + [CompletedRow(rows, s, r, cents, reference, description, now)];
            TransferCheck(users2, after, entries2, s, r, cents, reference2, description2, later).Fail?
  {
    var row := CompletedRow(rows, s, r, cents, reference, description, now);
    var after := rows + [row];
    assert Parse("transfer") == Success(Transfer);
    assert MatchesCriteria(after[|rows|], s, r, cents, "transfer", Some(DuplicateWindowMinutes), later);
  }

  /** A completed transfer keeps every cached daily total equal to the table's. */
  lemma TransferKeepsDailyCoherent(users: seq<UserData>, rows: seq<TransactionData>, entries: map<CacheKey, CacheValue>,
                                   s: int, r: int, cents: int, reference: string, description: Option<string>, now: int)
    requires WellTyped(entries) && DailyCoherent(entries, rows)
    requires TransferCheck(users, rows, entries, s, r, cents, reference, description, now).Pass?
    ensures DailyCoherent(entries - TransferForgets(s, r, |rows| + 1, now),
                          rows + [CompletedRow(rows, s, r, cents, reference, description, now)])
  {
    var row := CompletedRow(rows, s, r, cents, reference, description, now);
    CreateKeepsDailyCoherent(entries, rows, row);
    var kept := entries - {DailyKey(s, Day(now))};
    assert entries - TransferForgets(s, r, |rows| + 1, now) == kept - TransferForgets(s, r, |rows| + 1, now);
  }

  /** A rejected transfer leaves a coherent cache coherent: its fills hold the table's values. */
  lemma RejectionKeepsCacheCoherent(users: seq<UserData>, rows: seq<TransactionData>, entries: map<CacheKey, CacheValue>,
                                    s: int, r: int, cents: int, now: int)
    requires WellTyped(entries)
    requires DailyCoherent(entries, rows) && UserCacheCoherent(entries, users) && TxCacheCoherent(entries, rows)
    ensures var after := AfterRejection(entries, users, rows, s, r, cents, now);
            && WellTyped(after)
            && DailyCoherent(after, rows) && UserCacheCoherent(after, users) && TxCacheCoherent(after, rows)
  {
  }

  /** The cache algebra of a completed transfer: whatever the lookups filled, the writes forget. */
  lemma FillsThenForgets(e0: map<CacheKey, CacheValue>, s: int, r: int, txId: int, now: int,
                         vs: CacheValue, vr: CacheValue, vt: CacheValue)
    ensures var d := DailyKey(s, Day(now));
            e0[UserKey(s) := vs][UserKey(r) := vr][d := vt] - {d} - {UserKey(s)} - {UserKey(r)}
              - {TxKey(txId), TotalsKey, AverageKey} - {d}
            == e0 - TransferForgets(s, r, txId, now)
  {
    var d := DailyKey(s, Day(now));
    var lhs := e0[UserKey(s) := vs][UserKey(r) := vr][d := vt] - {d} - {UserKey(s)} - {UserKey(r)}
               - {TxKey(txId), TotalsKey, AverageKey} - {d};
    var rhs := e0 - TransferForgets(s, r, txId, now);
    assert lhs.Keys == rhs.Keys;
    assert forall k :: k in lhs ==> lhs[k] == rhs[k];
  }

  class TransactionService {
    const transactions: TransactionRepository
    const users: UserRepository

    ghost predicate Valid()
      reads this, transactions, users, transactions.cache
    {
      transactions.cache == users.cache && transactions.Valid() && users.Valid()
    }

    constructor(transactions: TransactionRepository, users: UserRepository)
      requires transactions.Valid() && users.Valid() && transactions.cache == users.cache
      ensures Valid() && this.transactions == transactions && this.users == users
    {
      this.transactions := transactions;
      this.users := users;
    }

    /**
     * The two updateBalance calls of transferMoney: each sets a balance by
     * plain arithmetic on the balance read earlier and forgets that user's
     * "user:<id>" key.
     */
    method Settle(senderId: int, receiverId: int, amountCents: int, now: int, senderBalance: int, receiverBalance: int)
      requires Valid()
      requires ActiveId(users.users, senderId) && ActiveId(users.users, receiverId)
      requires senderBalance == users.users[senderId - 1].balance.cents
      requires receiverBalance == users.users[receiverId - 1].balance.cents
      requires 0 <= amountCents <= senderBalance
      modifies users, transactions.cache
      ensures Valid() && transactions.rows == old(transactions.rows)
      ensures users.users == Transferred(old(users.users), senderId, receiverId, amountCents, now)
      ensures transactions.cache.entries == old(transactions.cache.entries) - {UserKey(senderId)} - {UserKey(receiverId)}
    {
      var cache := transactions.cache;
      ghost var entries4 := cache.entries;
      var ok1 := users.UpdateBalance(senderId, senderBalance - amountCents, now);
      TxCacheCoherentFrame(entries4, cache.entries, transactions.rows);
      ghost var entries5 := cache.entries;
      var ok2 := users.UpdateBalance(receiverId, receiverBalance + amountCents, now);
      TxCacheCoherentFrame(entries5, cache.entries, transactions.rows);
    }

    /**
     * The last writes of transferMoney: updateStatus marks the new row
     * completed, and the sender's daily total for today is forgotten.
     */
    method Complete(id: int, senderId: int, now: int)
      requires Valid()
      requires 1 <= id <= |transactions.rows| && transactions.rows[id - 1].updatedAt == now
      modifies transactions, transactions.cache
      ensures Valid() && users.users == old(users.users)
      ensures transactions.rows == old(transactions.rows)[id - 1 := old(transactions.rows)[id - 1].(status := Completed)]
      ensures transactions.cache.entries
              == old(transactions.cache.entries) - {TxKey(id), TotalsKey, AverageKey} - {DailyKey(senderId, Day(now))}
    {
      var cache := transactions.cache;
      ghost var entries6 := cache.entries;
      var ok := transactions.UpdateStatus(id, Completed, now);
      UserCacheCoherentFrame(entries6, cache.entries, users.users);
      ghost var entries7 := cache.entries;
      cache.Forget(DailyKey(senderId, Day(now)));
      UserCacheCoherentFrame(entries7, cache.entries, users.users);
      TxCacheCoherentFrame(entries7, cache.entries, transactions.rows);
    }

    /**
     * The writes of transferMoney, once every check has passed: create the
     * pending row, set both balances by plain arithmetic on the balances read
     * earlier, mark the row completed and forget the sender's daily total.
     * Only create can fail, and then nothing has changed.
     */
    method Record(senderId: int, receiverId: int, amountCents: int, description: Option<string>,
                  reference: string, now: int, senderBalance: int, receiverBalance: int)
      returns (result: Result<Transaction, Error>)
      requires Valid()
      requires ActiveId(users.users, senderId) && ActiveId(users.users, receiverId)
      requires senderBalance == users.users[senderId - 1].balance.cents
      requires receiverBalance == users.users[receiverId - 1].balance.cents
      requires 0 <= amountCents <= senderBalance
      modifies transactions, users, transactions.cache
      ensures Valid()
      ensures var row := TransferRow(old(transactions.rows), senderId, receiverId, amountCents, reference, description, now);
              && (result.Failure? <==> row.Failure?)
              && (result.Failure? ==>
                    && result.error == row.error
                    && users.users == old(users.users) && transactions.rows == old(transactions.rows)
                    && transactions.cache.entries == old(transactions.cache.entries))
              && (result.Success? ==>
                    var d := DailyKey(senderId, Day(now));
                    && fresh(result.value) && result.value.Data() == row.value
                    && transactions.rows == old(transactions.rows) + [row.value.(status := Completed)]
                    && users.users == Transferred(old(users.users), senderId, receiverId, amountCents, now)
                    && transactions.cache.entries
                       == old(transactions.cache.entries) - {d} - {UserKey(senderId)} - {UserKey(receiverId)}
                          - {TxKey(|old(transactions.rows)| + 1), TotalsKey, AverageKey} - {d})
    {
      var cache := transactions.cache;
      ghost var users0 := users.users;
      ghost var rows0 := transactions.rows;
      ghost var entries0 := cache.entries;
      var created := transactions.Create(senderId, receiverId, amountCents, "transfer", reference, description,
                                         None, Some("pending"), now);
      if created.Failure? {
        return Failure(created.error);
      }
      UserCacheCoherentFrame(entries0, cache.entries, users.users);
      var t := created.value;
      ghost var row := t.Data();

      Settle(senderId, receiverId, amountCents, now, senderBalance, receiverBalance);

      Complete(t.id.value, senderId, now);
      assert transactions.rows == rows0 + [row.(status := Completed)];
      result := Success(t);
    }

    /**
     * The two findById lookups of transferMoney: each reads the user through
     * its "user:<id>" cache key, filling it, and the balances are taken from
     * the users found.
     */
    method ReadParties(senderId: int, receiverId: int) returns (sender: User, senderBalance: int, receiverBalance: int)
      requires Valid()
      requires ActiveId(users.users, senderId) && ActiveId(users.users, receiverId)
      modifies transactions.cache
      ensures Valid()
      ensures users.users == old(users.users) && transactions.rows == old(transactions.rows)
      ensures fresh(sender) && sender.Data() == users.users[senderId - 1]
      ensures senderBalance == users.users[senderId - 1].balance.cents
      ensures receiverBalance == users.users[receiverId - 1].balance.cents
      ensures transactions.cache.entries
              == old(transactions.cache.entries)[UserKey(senderId) := CachedUser(users.users[senderId - 1])]
                                                [UserKey(receiverId) := CachedUser(users.users[receiverId - 1])]
    {
      var cache := transactions.cache;
      ghost var entries0 := cache.entries;
      var found := users.FindById(senderId);
      TxCacheCoherentFrame(entries0, cache.entries, transactions.rows);
      ghost var entries1 := cache.entries;
      var receiver := users.FindById(receiverId);
      TxCacheCoherentFrame(entries1, cache.entries, transactions.rows);
      sender := found.value;
      senderBalance := sender.balance.cents;
      receiverBalance := receiver.value.balance.cents;
    }

    /**
     * The checks of transferMoney, up to the first write.  The two findById
     * lookups and the daily total read through the cache and fill it, whether
     * a later check fails or not.
     */
    method ScreenTransfer(senderId: int, receiverId: int, amountCents: int, now: int)
      returns (o: Outcome<Error>, senderBalance: int, receiverBalance: int)
      requires Valid()
      modifies transactions.cache
      ensures Valid()
      ensures users.users == old(users.users) && transactions.rows == old(transactions.rows)
      ensures o == Screen(users.users, transactions.rows, old(transactions.cache.entries), senderId, receiverId,
                          amountCents, now)
      ensures transactions.cache.entries
              == AfterRejection(old(transactions.cache.entries), users.users, transactions.rows,
                                senderId, receiverId, amountCents, now)
      ensures o.Pass? ==> && ActiveId(users.users, senderId) && ActiveId(users.users, receiverId)
                          && senderBalance == users.users[senderId - 1].balance.cents
                          && receiverBalance == users.users[receiverId - 1].balance.cents
                          && 0 <= amountCents <= senderBalance
    {
      var cache := transactions.cache;
      ghost var entries0 := cache.entries;
      ghost var users0 := users.users;
      ghost var rows0 := transactions.rows;
      senderBalance, receiverBalance := 0, 0;

      if !ActiveId(users.users, senderId) {
        return Fail(UserNotFound(Sender)), 0, 0;
      }
      if !ActiveId(users.users, receiverId) {
        return Fail(UserNotFound(Receiver)), 0, 0;
      }

      var sender;
      sender, senderBalance, receiverBalance := ReadParties(senderId, receiverId);
      ghost var found := cache.entries;

      var amount := NewAmount(amountCents);
      if amount.Failure? {
        return Fail(amount.error), senderBalance, receiverBalance;
      }
      if !sender.CanAffordTransfer(amount.value) {
        return Fail(InsufficientFunds), senderBalance, receiverBalance;
      }

      var dailyTotal := transactions.GetDailyTransferTotal(senderId, Day(now));
      UserCacheCoherentFrame(found, cache.entries, users.users);
      assert dailyTotal == ReadThroughTotal(entries0, rows0, senderId, Day(now));
      if dailyTotal + amountCents > DailyLimitCents {
        return Fail(DailyLimitExceeded), senderBalance, receiverBalance;
      }
      if transactions.CheckDuplicateTransaction(senderId, receiverId, amountCents, "transfer",
                                                Some(DuplicateWindowMinutes), now) {
        return Fail(DuplicateTransaction), senderBalance, receiverBalance;
      }
      o := Pass;
    }

    /**
     * transferMoney.  A rejection changes neither table and leaves only the
     * read-through fills in the cache.  A success appends one completed row,
     * moves the amount between the two balances and forgets the cache keys the
     * writes touched; the entity returned is the one created, still pending.
     */
    method TransferMoney(senderId: int, receiverId: int, amountCents: int, description: Option<string>,
                         reference: string, now: int)
      returns (result: Result<Transaction, Error>)
      requires Valid()
      modifies transactions, users, transactions.cache
      ensures Valid()
      ensures var check := TransferCheck(old(users.users), old(transactions.rows), old(transactions.cache.entries),
                                         senderId, receiverId, amountCents, reference, description, now);
              && (result.Failure? <==> check.Fail?)
              && (result.Failure? ==>
                    && result.error == check.error
                    && users.users == old(users.users) && transactions.rows == old(transactions.rows)
                    && transactions.cache.entries
                       == AfterRejection(old(transactions.cache.entries), old(users.users), old(transactions.rows),
                                         senderId, receiverId, amountCents, now))
              && (result.Success? ==>
                    var row := TransferRow(old(transactions.rows), senderId, receiverId, amountCents, reference,
                                           description, now).value;
                    && fresh(result.value) && result.value.Data() == row && row.status == Pending
                    && transactions.rows == old(transactions.rows) + [row.(status := Completed)]
                    && users.users == Transferred(old(users.users), senderId, receiverId, amountCents, now)
                    && transactions.cache.entries
                       == old(transactions.cache.entries) - TransferForgets(senderId, receiverId, |old(transactions.rows)| + 1, now))
    {
      ghost var entries0 := transactions.cache.entries;
      ghost var users0 := users.users;
      ghost var rows0 := transactions.rows;
      var screened, senderBalance, receiverBalance := ScreenTransfer(senderId, receiverId, amountCents, now);
      if screened.Fail? {
        return Failure(screened.error);
      }
      result := Record(senderId, receiverId, amountCents, description, reference, now, senderBalance, receiverBalance);
      if result.Success? {
        FillsThenForgets(entries0, senderId, receiverId, |rows0| + 1, now, CachedUser(users0[senderId - 1]),
                         CachedUser(users0[receiverId - 1]),
                         CachedAmount(ReadThroughTotal(entries0, rows0, senderId, Day(now))));
      }
    }
  }
}
