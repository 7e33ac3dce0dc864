/**
 * The application cache that both repositories share.  Keys mirror the string
 * keys the repositories build ("daily_limit:<user>:<Y-m-d>", "transaction:<id>",
 * "transfer_totals_by_user", "average_amount_by_user", "user:<id>",
 * "user:email:<email>"); each prefix keeps them apart, so a datatype stands in
 * for the strings.  Entries live until forgotten: expiry is not modelled.
 */
module Caches {
  import opened Users
  import opened Transactions

  /** One row of the transfer-totals report: a sender and the sum of their completed transfers. */
  datatype SenderTotal = SenderTotal(senderId: int, totalCents: int)

  datatype CacheKey =
    | DailyKey(userId: int, day: int)
    | TxKey(txId: int)
    | TotalsKey
    | AverageKey
    | UserKey(id: int)
    | UserEmailKey(email: string)

  /** Cached values are serialized copies, so they are values here. */
  datatype CacheValue =
    | CachedAmount(cents: int)
    | CachedTransaction(tx: TransactionData)
    | CachedTotals(totals: seq<SenderTotal>)
    | CachedAverages
    | CachedUser(user: UserData)

  /** The kind of value each key holds. */
  predicate Fits(k: CacheKey, v: CacheValue) {
    match k
    case DailyKey(_, _) => v.CachedAmount?
    case TxKey(_) => v.CachedTransaction?
    case TotalsKey => v.CachedTotals?
    case AverageKey => v.CachedAverages?
    case UserKey(_) => v.CachedUser?
    case UserEmailKey(_) => v.CachedUser?
  }

  predicate WellTyped(entries: map<CacheKey, CacheValue>) {
    forall k :: k in entries ==> Fits(k, entries[k])
  }

  class Cache {
    var entries: map<CacheKey, CacheValue>

    ghost predicate Valid()
      reads this
    {
      WellTyped(entries)
    }

    constructor()
      ensures Valid() && entries == map[]
    {
      entries := map[];
    }

    /** Cache::put */
    method Put(k: CacheKey, v: CacheValue)
      requires Valid() && Fits(k, v)
      modifies this
      ensures Valid() && entries == old(entries)[k := v]
    {
      entries := entries[k := v];
    }

    /** Cache::forget */
    method Forget(k: CacheKey)
      requires Valid()
      modifies this
      ensures Valid() && entries == old(entries) - {k}
    {
      entries := entries - {k};
    }
  }
}
