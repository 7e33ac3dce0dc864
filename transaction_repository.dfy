/**
 * EloquentTransactionRepository over an in-memory table: row k holds the
 * transaction with id k + 1 (auto-increment, rows are never removed), and a
 * cache shared with the user repository.  Each method that the source wraps
 * in DB::transaction either completes or leaves the table and cache as they were.
 */
module TransactionRepositories {
  import opened Wrappers
  import opened Errors
  import opened Amounts
  import opened TransactionTypes
  import opened Transactions
  import opened Users
  import opened Caches
  import opened TransferReports
  import opened CsvExport

  /** A row the daily limit counts for `user` on `day`: a completed transfer they sent that day. */
  predicate CountsForDay(d: TransactionData, user: int, day: int) {
    IsCompletedTransfer(d) && d.senderId == user && Day(d.createdAt) == day
  }

  function Contribution(d: TransactionData, user: int, day: int): int {
    if CountsForDay(d, user, day) then d.amount.cents else 0
  }

  /** The query behind getDailyTransferTotal: SUM(amount) over the rows that count. */
  function DailyTotal(rows: seq<TransactionData>, user: int, day: int): (total: int)
    ensures total >= 0
  {
    if |rows| == 0 then 0
    else DailyTotal(rows[..|rows| - 1], user, day) + Contribution(rows[|rows| - 1], user, day)
  }

  lemma DailyTotalAppend(rows: seq<TransactionData>, d: TransactionData, user: int, day: int)
    ensures DailyTotal(rows + [d], user, day) == DailyTotal(rows, user, day) + Contribution(d, user, day)
  {
    assert (rows + [d])[..|rows|] == rows;
  }

  /** Changing one row changes the daily total by the change in that row's contribution. */
  lemma {:induction false} DailyTotalUpdate(rows: seq<TransactionData>, i: int, d: TransactionData, user: int, day: int)
    requires 0 <= i < |rows|
    ensures DailyTotal(rows[i := d], user, day)
         == DailyTotal(rows, user, day) - Contribution(rows[i], user, day) + Contribution(d, user, day)
  {
    var n := |rows| - 1;
    var updated := rows[i := d];
    if i == n {
      assert updated[..n] == rows[..n];
    } else {
      assert updated[..n] == rows[..n][i := d];
      DailyTotalUpdate(rows[..n], i, d, user, day);
    }
  }

  /** The value getDailyTransferTotal returns: the cached one when present, else the table's. */
  function ReadThroughTotal(entries: map<CacheKey, CacheValue>, rows: seq<TransactionData>,
                            user: int, day: int): int
    requires WellTyped(entries)
  {
    if DailyKey(user, day) in entries then entries[DailyKey(user, day)].cents
    else DailyTotal(rows, user, day)
  }

  /** Every cached daily total equals the table's. */
  ghost predicate DailyCoherent(entries: map<CacheKey, CacheValue>, rows: seq<TransactionData>) {
    forall u, day :: DailyKey(u, day) in entries ==> entries[DailyKey(u, day)] == CachedAmount(DailyTotal(rows, u, day))
  }

  /**
   * create forgets the sender's key for the creation day, the only total a new
   * row can change, so it never makes a cached daily total stale.
   */
  lemma CreateKeepsDailyCoherent(entries: map<CacheKey, CacheValue>, rows: seq<TransactionData>, d: TransactionData)
    requires DailyCoherent(entries, rows)
    ensures DailyCoherent(entries - {DailyKey(d.senderId, Day(d.createdAt))}, rows + [d])
  {
    forall u, day | DailyKey(u, day) in entries - {DailyKey(d.senderId, Day(d.createdAt))}
      ensures (entries - {DailyKey(d.senderId, Day(d.createdAt))})[DailyKey(u, day)]
              == CachedAmount(DailyTotal(rows + [d], u, day))
    {
      DailyTotalAppend(rows, d, u, day);
    }
  }

  /**
   * updateStatus does not forget daily totals: completing a pending transfer
   * leaves the sender's cached total for that day too low.
   */
  lemma StatusChangeCanStaleDailyTotal()
    ensures var d := TransactionData(Some(1), 1, 2, Amount(100), Transfer, Pending, "r", None, None, 0, 0);
            var entries := map[DailyKey(1, 0) := CachedAmount(0)];
            DailyCoherent(entries, [d]) && !DailyCoherent(entries, [d.(status := Completed)])
  {
    var d := TransactionData(Some(1), 1, 2, Amount(100), Transfer, Pending, "r", None, None, 0, 0);
    var done := d.(status := Completed);
    var entries := map[DailyKey(1, 0) := CachedAmount(0)];
    assert [d][..0] == [] && [done][..0] == [];
    assert DailyTotal([d], 1, 0) == 0;
    assert DailyTotal([done], 1, 0) == 100;
    forall u, day | DailyKey(u, day) in entries
      ensures entries[DailyKey(u, day)] == CachedAmount(DailyTotal([d], u, day))
    {
      assert u == 1 && day == 0;
    }
  }

  /** checkDuplicateTransaction's criteria; the window is in minutes and optional. */
  predicate MatchesCriteria(d: TransactionData, senderId: int, receiverId: int, amountCents: int,
                            kindText: string, windowMinutes: Option<int>, now: int)
  {
    d.senderId == senderId && d.receiverId == receiverId && d.amount.cents == amountCents
    && Value(d.kind) == kindText
    && (windowMinutes.Some? ==> d.createdAt >= now - windowMinutes.value * 60)
  }

  /** checkDuplicateTransaction: some row, whatever its status, matches the criteria. */
  predicate HasDuplicate(rows: seq<TransactionData>, senderId: int, receiverId: int, amountCents: int,
                         kindText: string, windowMinutes: Option<int>, now: int)
  {
    exists i :: 0 <= i < |rows| && MatchesCriteria(rows[i], senderId, receiverId, amountCents, kindText, windowMinutes, now)
  }

  predicate ReferenceTaken(rows: seq<TransactionData>, reference: string) {
    exists i :: 0 <= i < |rows| && rows[i].reference == reference
  }

  /**
   * What create stores: the unique index on `reference` fails the insert first;
   * then mapToEntity builds the Amount, the TransactionType and the entity,
   * whose constructor checks the parties, the status (pending when none is
   * given) and the reference.  Any failure rolls the insert back.
   */
  function NewRow(rows: seq<TransactionData>, senderId: int, receiverId: int, amountCents: int,
                  kindText: string, reference: string, description: Option<string>,
                  metadata: Option<Metadata>, statusText: Option<string>, now: int)
    : (r: Result<TransactionData, Error>)
    ensures r.Success? <==> !ReferenceTaken(rows, reference) && amountCents >= MinAmountCents
                            && Parse(kindText).Success?
                            && Validate(senderId, receiverId, statusText.GetOr("pending"), reference).Success?
    ensures ReferenceTaken(rows, reference) ==> r == Failure(DuplicateReference)
    ensures r.Success? ==> ValidData(r.value) && r.value.id == Some(|rows| + 1)
                           && r.value.amount.cents == amountCents && Value(r.value.kind) == kindText
                           && StatusValue(r.value.status) == statusText.GetOr("pending")
                           && r.value.createdAt == now && r.value.updatedAt == now
                           && r.value.senderId == senderId && r.value.receiverId == receiverId
                           && r.value.reference == reference && r.value.description == description
                           && r.value.metadata == metadata
  {
    if ReferenceTaken(rows, reference) then Failure(DuplicateReference)
    else
      match NewAmount(amountCents)
      case Failure(e) => Failure(e)
      case Success(amount) =>
        match Parse(kindText)
        case Failure(e) => Failure(e)
        case Success(kind) =>
          match Validate(senderId, receiverId, statusText.GetOr("pending"), reference)
          case Failure(e) => Failure(e)
          case Success(status) =>
            Success(TransactionData(Some(|rows| + 1), senderId, receiverId, amount, kind, status,
                                    reference, description, metadata, now, now))
  }

  /** Row k has id k + 1 and passed the entity's checks; references are unique. */
  predicate RowsValid(rows: seq<TransactionData>) {
    (forall k :: 0 <= k < |rows| ==> rows[k].id == Some(k + 1) && ValidData(rows[k]))
    && (forall i, j :: 0 <= i < j < |rows| ==> rows[i].reference != rows[j].reference)
  }

  /** A cached transaction is the current row with that id. */
  ghost predicate TxCacheCoherent(entries: map<CacheKey, CacheValue>, rows: seq<TransactionData>) {
    forall id :: TxKey(id) in entries ==> 1 <= id <= |rows| && entries[TxKey(id)] == CachedTransaction(rows[id - 1])
  }

  /** Only transaction keys matter to the coherence of cached transactions. */
  lemma TxCacheCoherentFrame(oldEntries: map<CacheKey, CacheValue>, entries: map<CacheKey, CacheValue>,
                             rows: seq<TransactionData>)
    requires TxCacheCoherent(oldEntries, rows)
    requires forall id :: TxKey(id) in entries ==> TxKey(id) in oldEntries && entries[TxKey(id)] == oldEntries[TxKey(id)]
    ensures TxCacheCoherent(entries, rows)
  {
  }

  /** A status change keeps every row valid and every reference unique. */
  lemma StatusChangeKeepsRowsValid(rows: seq<TransactionData>, i: int, status: Status, now: int)
    requires RowsValid(rows) && 0 <= i < |rows|
    ensures RowsValid(rows[i := rows[i].(status := status, updatedAt := now)])
  {
  }

  /** Forgetting a transaction's key keeps the others coherent after its row changes. */
  lemma StatusChangeKeepsTxCache(entries: map<CacheKey, CacheValue>, rows: seq<TransactionData>, id: int, d: TransactionData)
    requires TxCacheCoherent(entries, rows) && 1 <= id <= |rows|
    ensures TxCacheCoherent(entries - {TxKey(id), TotalsKey, AverageKey}, rows[id - 1 := d])
  {
  }

  lemma LinesSnoc(ds: seq<TransactionData>, d: TransactionData, users: seq<UserData>,
                  amountText: Amount -> string, timeText: int -> string)
    ensures Lines(ds + [d], users, amountText, timeText)
         == Lines(ds, users, amountText, timeText) + RecordLine(d, users, amountText, timeText)
  {
    assert (ds + [d])[..|ds|] == ds;
  }

  class TransactionRepository {
    var rows: seq<TransactionData>
    const cache: Cache

    ghost predicate Valid()
      reads this, cache
    {
      cache.Valid() && RowsValid(rows) && TxCacheCoherent(cache.entries, rows)
    }

    constructor(cache: Cache)
      requires cache.Valid() && forall id :: TxKey(id) !in cache.entries
      ensures Valid() && rows == [] && this.cache == cache
    {
      rows := [];
      this.cache := cache;
    }

    /** create: inserts the row, maps it to a fresh entity and forgets the sender's daily total for today. */
    method Create(senderId: int, receiverId: int, amountCents: int, kindText: string, reference: string,
                  description: Option<string>, metadata: Option<Metadata>, statusText: Option<string>, now: int)
      returns (r: Result<Transaction, Error>)
      requires Valid()
      modifies this, cache
      ensures Valid()
      ensures var row := NewRow(old(rows), senderId, receiverId, amountCents, kindText, reference,
                                description, metadata, statusText, now);
              && (r.Failure? <==> row.Failure?)
              && (r.Failure? ==> r.error == row.error && rows == old(rows) && cache.entries == old(cache.entries))
              && (r.Success? ==> fresh(r.value) && r.value.Data() == row.value
                                 && rows == old(rows) + [row.value]
                                 && cache.entries == old(cache.entries) - {DailyKey(senderId, Day(now))})
    {
      var row := NewRow(rows, senderId, receiverId, amountCents, kindText, reference,
                        description, metadata, statusText, now);
      if row.Failure? {
        return Failure(row.error);
      }
      assert forall k :: 0 <= k < |rows| ==> rows[k].reference != row.value.reference;
      rows := rows + [row.value];
      var t := new Transaction.FromData(row.value);
      cache.Forget(DailyKey(senderId, Day(now)));
      r := Success(t);
    }

    /** findById: read-through on "transaction:<id>"; a missing row is not cached. */
    method FindById(id: int) returns (r: Option<Transaction>)
      requires Valid()
      modifies cache
      ensures Valid()
      ensures r.Some? <==> 1 <= id <= |rows|
      ensures r.Some? ==> fresh(r.value) && r.value.Data() == rows[id - 1]
      ensures cache.entries == if 1 <= id <= |rows| then old(cache.entries)[TxKey(id) := CachedTransaction(rows[id - 1])]
                               else old(cache.entries)
    {
      if TxKey(id) in cache.entries {
        var t := new Transaction.FromData(cache.entries[TxKey(id)].tx);
        return Some(t);
      }
      if 1 <= id <= |rows| {
        cache.Put(TxKey(id), CachedTransaction(rows[id - 1]));
        var t := new Transaction.FromData(rows[id - 1]);
        return Some(t);
      }
      r := None;
    }

    /** getDailyTransferTotal: read-through on "daily_limit:<user>:<day>"; a zero sum is cached too. */
    method GetDailyTransferTotal(user: int, day: int) returns (total: int)
      requires Valid()
      modifies cache
      ensures Valid()
      ensures total == ReadThroughTotal(old(cache.entries), rows, user, day)
      ensures cache.entries == old(cache.entries)[DailyKey(user, day) := CachedAmount(total)]
    {
      if DailyKey(user, day) in cache.entries {
        total := cache.entries[DailyKey(user, day)].cents;
        return;
      }
      total := DailyTotal(rows, user, day);
      cache.Put(DailyKey(user, day), CachedAmount(total));
    }

    /** checkDuplicateTransaction over the current table. */
    function CheckDuplicateTransaction(senderId: int, receiverId: int, amountCents: int, kindText: string,
                                       windowMinutes: Option<int>, now: int): (b: bool)
      reads this
      ensures b <==> exists i :: 0 <= i < |rows|
                       && rows[i].senderId == senderId && rows[i].receiverId == receiverId
                       && rows[i].amount.cents == amountCents && Value(rows[i].kind) == kindText
                       && (windowMinutes.Some? ==> rows[i].createdAt >= now - windowMinutes.value * 60)
    {
      HasDuplicate(rows, senderId, receiverId, amountCents, kindText, windowMinutes, now)
    }

    /**
     * updateStatus: true exactly when the row exists; then only its status and
     * updatedAt change, and "transaction:<id>" and both report keys are forgotten.
     */
    method UpdateStatus(id: int, status: Status, now: int) returns (ok: bool)
      requires Valid()
      modifies this, cache
      ensures Valid()
      ensures ok <==> 1 <= id <= |old(rows)|
      ensures ok ==> rows == old(rows)[id - 1 := old(rows)[id - 1].(status := status, updatedAt := now)]
                     && cache.entries == old(cache.entries) - {TxKey(id), TotalsKey, AverageKey}
      ensures !ok ==> rows == old(rows) && cache.entries == old(cache.entries)
    {
      if !(1 <= id <= |rows|) {
        return false;
      }
      StatusChangeKeepsRowsValid(rows, id - 1, status, now);
      StatusChangeKeepsTxCache(cache.entries, rows, id, rows[id - 1].(status := status, updatedAt := now));
      rows := rows[id - 1 := rows[id - 1].(status := status, updatedAt := now)];
      cache.Forget(TxKey(id));
      cache.Forget(TotalsKey);
      cache.Forget(AverageKey);
      ok := true;
    }

    /** getTransferTotalsByUser: read-through on "transfer_totals_by_user". */
    method GetTransferTotalsByUser() returns (r: seq<SenderTotal>)
      requires Valid()
      modifies cache
      ensures Valid()
      ensures r == if TotalsKey in old(cache.entries) then old(cache.entries)[TotalsKey].totals
                   else TransferTotals(rows)
      ensures cache.entries == old(cache.entries)[TotalsKey := CachedTotals(r)]
    {
      if TotalsKey in cache.entries {
        r := cache.entries[TotalsKey].totals;
        return;
      }
      r := TransferTotals(rows);
      cache.Put(TotalsKey, CachedTotals(r));
    }

    /** exportToCsv: the header line, then one escaped line per selected row. */
    method ExportToCsv(f: CsvFilters, users: seq<UserData>, amountText: Amount -> string, timeText: int -> string)
      returns (csv: string)
      ensures csv == Document(rows, f, users, amountText, timeText)
    {
      var selected := Selected(rows, f);
      var body := "";
      var i := 0;
      while i < |selected|
        invariant 0 <= i <= |selected|
        invariant body == Lines(selected[..i], users, amountText, timeText)
      {
        LinesSnoc(selected[..i], selected[i], users, amountText, timeText);
        assert selected[..i + 1] == selected[..i] + [selected[i]];
        body := body + RecordLine(selected[i], users, amountText, timeText);
        i := i + 1;
      }
      assert selected[..i] == selected;
      csv := HeaderLine + body;
    }
  }
}
