/**
 * EloquentUserRepository over an in-memory users table (row k holds id k + 1)
 * and the shared cache.  The Eloquent user model soft-deletes, and its
 * SoftDeletes scope hides soft-deleted rows from find, findOrFail, where and
 * exists, so every lookup here sees active users only.
 */
module UserRepositories {
  import opened Wrappers
  import opened Errors
  import opened Text
  import opened Balances
  import opened Emails
  import opened Users
  import opened Caches

  /** Row k has id k + 1 and a name the entity accepts (mapToEntity ran on every write). */
  predicate UsersValid(users: seq<UserData>) {
    forall k :: 0 <= k < |users| ==> users[k].id == Some(k + 1) && ValidateName(users[k].name).Pass?
  }

  /**
   * "user:<id>" always holds the current row of an active user.  "user:email:<e>"
   * holds some earlier snapshot of an active user whose email was then e: it
   * can be stale, because update forgets the new email's key and updateBalance
   * and delete leave the keys of earlier emails alone.
   */
  ghost predicate UserCacheCoherent(entries: map<CacheKey, CacheValue>, users: seq<UserData>) {
    (forall id :: UserKey(id) in entries ==> ActiveId(users, id) && entries[UserKey(id)] == CachedUser(users[id - 1]))
    && (forall e :: UserEmailKey(e) in entries ==>
          entries[UserEmailKey(e)].CachedUser? && entries[UserEmailKey(e)].user.email.value == e
          && !Deleted(entries[UserEmailKey(e)].user) && ValidateName(entries[UserEmailKey(e)].user.name).Pass?)
  }

  /** Only user keys matter to the coherence of cached users. */
  lemma UserCacheCoherentFrame(oldEntries: map<CacheKey, CacheValue>, entries: map<CacheKey, CacheValue>,
                               users: seq<UserData>)
    requires UserCacheCoherent(oldEntries, users)
    requires forall id :: UserKey(id) in entries ==> UserKey(id) in oldEntries && entries[UserKey(id)] == oldEntries[UserKey(id)]
    requires forall e :: UserEmailKey(e) in entries ==>
               UserEmailKey(e) in oldEntries && entries[UserEmailKey(e)] == oldEntries[UserEmailKey(e)]
    ensures UserCacheCoherent(entries, users)
  {
  }

  /** existsByEmail: some active user has this email. */
  predicate EmailTaken(users: seq<UserData>, e: Email) {
    exists k :: 0 <= k < |users| && users[k].email == e && !Deleted(users[k])
  }

  /** The row a query on the email column returns: the first active user with that email. */
  function FirstWithEmail(users: seq<UserData>, e: Email): (r: Option<nat>)
    ensures r.Some? ==> r.value < |users| && users[r.value].email == e && !Deleted(users[r.value])
    ensures r.Some? <==> EmailTaken(users, e)
  {
    if |users| == 0 then None
    else if users[0].email == e && !Deleted(users[0]) then Some(0)
    else
      var rest := FirstWithEmail(users[1..], e);
      assert EmailTaken(users, e) <==> EmailTaken(users[1..], e) by {
        if EmailTaken(users, e) {
          var k :| 0 <= k < |users| && users[k].email == e && !Deleted(users[k]);
          assert users[1..][k - 1] == users[k];
        }
        if EmailTaken(users[1..], e) {
          var k :| 0 <= k < |users[1..]| && users[1..][k].email == e && !Deleted(users[1..][k]);
          assert users[k + 1] == users[1..][k];
        }
      }
      if rest.None? then None else Some(rest.value + 1)
  }

  /** What findByEmail returns: the cached snapshot when present, else the table's row. */
  function LookupByEmail(entries: map<CacheKey, CacheValue>, users: seq<UserData>, e: Email): Option<UserData>
    requires WellTyped(entries)
  {
    if UserEmailKey(e.value) in entries then Some(entries[UserEmailKey(e.value)].user)
    else
      var k := FirstWithEmail(users, e);
      if k.Some? then Some(users[k.value]) else None
  }

  /** Whatever findByEmail returns has the email asked for and is not soft-deleted. */
  lemma LookupByEmailIsActive(entries: map<CacheKey, CacheValue>, users: seq<UserData>, e: Email)
    requires WellTyped(entries) && UsersValid(users) && UserCacheCoherent(entries, users)
    ensures var r := LookupByEmail(entries, users, e);
            r.Some? ==> r.value.email == e && !Deleted(r.value) && ValidateName(r.value.name).Pass?
  {
  }

  /** With no cached snapshot, findByEmail finds a user exactly when existsByEmail holds. */
  lemma LookupAgreesWithExists(entries: map<CacheKey, CacheValue>, users: seq<UserData>, e: Email)
    requires WellTyped(entries) && UserEmailKey(e.value) !in entries
    ensures LookupByEmail(entries, users, e).Some? <==> EmailTaken(users, e)
  {
  }

  /**
   * The row after update: array_filter drops every field that is null, "" ,
   * "0" or a zero balance; updated_at moves only when a kept field differs.
   */
  function UpdatedUser(u: UserData, name: Option<string>, email: Option<Email>, balance: Option<Balance>, now: int): UserData {
    var n := if name.Some? && !PhpEmpty(name.value) then name.value else u.name;
    var m := if email.Some? && !PhpEmpty(email.value.value) then email.value else u.email;
    var b := if balance.Some? && balance.value.cents != 0 then balance.value else u.balance;
    var dirty := n != u.name || m != u.email || b != u.balance;
    u.(name := n, email := m, balance := b, updatedAt := if dirty then now else u.updatedAt)
  }

  /** update never touches the id, the timestamps of creation, verification and deletion. */
  lemma UpdateKeepsIdentity(u: UserData, name: Option<string>, email: Option<Email>, balance: Option<Balance>, now: int)
    ensures var v := UpdatedUser(u, name, email, balance, now);
            v.id == u.id && v.createdAt == u.createdAt && v.emailVerifiedAt == u.emailVerifiedAt
            && v.deletedAt == u.deletedAt
            && (v.updatedAt != u.updatedAt ==> v.updatedAt == now)
            && (v == u.(updatedAt := v.updatedAt) ==> v == u)
  {
  }

  /** A zero balance is falsy to array_filter, so update cannot set a balance to zero. */
  lemma ZeroBalanceIsDropped(u: UserData, now: int)
    ensures UpdatedUser(u, None, None, Some(Balance(0)), now) == u
  {
  }

  /** Updating to the values already stored changes nothing, not even updatedAt. */
  lemma UpdateWithSameValuesIsNoOp(u: UserData, now: int)
    ensures UpdatedUser(u, Some(u.name), Some(u.email), Some(u.balance), now) == u
  {
  }

  class UserRepository {
    var users: seq<UserData>
    const cache: Cache

    ghost predicate Valid()
      reads this, cache
    {
      cache.Valid() && UsersValid(users) && UserCacheCoherent(cache.entries, users)
    }

    constructor(cache: Cache)
      requires cache.Valid()
      requires forall id :: UserKey(id) !in cache.entries
      requires forall e :: UserEmailKey(e) !in cache.entries
      ensures Valid() && users == [] && this.cache == cache
    {
      users := [];
      this.cache := cache;
    }

    /**
     * create: inserts the row (balance 0 when none is given), maps it to a
     * fresh entity, whose name check can roll the insert back, and caches the
     * entity under "user:<id>" and "user:email:<email>".
     */
    method Create(name: string, email: Email, balance: Option<Balance>, now: int) returns (r: Result<User, Error>)
      requires Valid()
      modifies this, cache
      ensures Valid()
      ensures r.Failure? <==> ValidateName(name).Fail?
      ensures r.Failure? ==> r.error == ValidateName(name).error && users == old(users) && cache.entries == old(cache.entries)
      ensures var row := UserData(Some(|old(users)| + 1), name, email, balance.GetOr(Balance(0)), None, now, now, None);
              r.Success? ==> fresh(r.value) && r.value.Data() == row && users == old(users) + [row]
                             && cache.entries == old(cache.entries)[UserKey(|old(users)| + 1) := CachedUser(row)]
                                                                 [UserEmailKey(email.value) := CachedUser(row)]
    {
      var checked := ValidateName(name);
      if checked.Fail? {
        return Failure(checked.error);
      }
      var row := UserData(Some(|users| + 1), name, email, balance.GetOr(Balance(0)), None, now, now, None);
      users := users + [row];
      var u := new User.FromData(row);
      cache.Put(UserKey(|users|), CachedUser(row));
      cache.Put(UserEmailKey(email.value), CachedUser(row));
      r := Success(u);
    }

    /** findById: read-through on "user:<id>"; a missing or soft-deleted user is not cached. */
    method FindById(id: int) returns (r: Option<User>)
      requires Valid()
      modifies cache
      ensures Valid()
      ensures r.Some? <==> ActiveId(users, id)
      ensures r.Some? ==> fresh(r.value) && r.value.Data() == users[id - 1]
      ensures cache.entries == if ActiveId(users, id) then old(cache.entries)[UserKey(id) := CachedUser(users[id - 1])]
                               else old(cache.entries)
    {
      if UserKey(id) in cache.entries {
        var u := new User.FromData(cache.entries[UserKey(id)].user);
        return Some(u);
      }
      if ActiveId(users, id) {
        cache.Put(UserKey(id), CachedUser(users[id - 1]));
        var u := new User.FromData(users[id - 1]);
        return Some(u);
      }
      r := None;
    }

    /** findByEmail: read-through on "user:email:<email>". */
    method FindByEmail(e: Email) returns (r: Option<User>)
      requires Valid()
      modifies cache
      ensures Valid()
      ensures var found := LookupByEmail(old(cache.entries), users, e);
              && (r.Some? <==> found.Some?)
              && (r.Some? ==> fresh(r.value) && r.value.Data() == found.value)
              && cache.entries == if found.Some? then old(cache.entries)[UserEmailKey(e.value) := CachedUser(found.value)]
                                  else old(cache.entries)
    {
      if UserEmailKey(e.value) in cache.entries {
        var u := new User.FromData(cache.entries[UserEmailKey(e.value)].user);
        return Some(u);
      }
      var k := FirstWithEmail(users, e);
      if k.Some? {
        cache.Put(UserEmailKey(e.value), CachedUser(users[k.value]));
        var u := new User.FromData(users[k.value]);
        return Some(u);
      }
      r := None;
    }

    /**
     * update: findOrFail, then the filtered fields, then mapToEntity, whose
     * name check can roll everything back; afterwards "user:<id>" holds the
     * new row and the key of the new email is forgotten.
     */
    method Update(id: int, name: Option<string>, email: Option<Email>, balance: Option<Balance>, now: int)
      returns (r: Result<User, Error>)
      requires Valid()
      modifies this, cache
      ensures Valid()
      ensures !ActiveId(old(users), id) ==> r == Failure(ModelNotFound)
      ensures ActiveId(old(users), id) ==>
                var v := UpdatedUser(old(users)[id - 1], name, email, balance, now);
                && (r.Failure? <==> ValidateName(v.name).Fail?)
                && (r.Failure? ==> r.error == ValidateName(v.name).error)
                && (r.Success? ==> fresh(r.value) && r.value.Data() == v && users == old(users)[id - 1 := v]
                                   && cache.entries == old(cache.entries)[UserKey(id) := CachedUser(v)] - {UserEmailKey(v.email.value)})
      ensures r.Failure? ==> users == old(users) && cache.entries == old(cache.entries)
    {
      if !ActiveId(users, id) {
        return Failure(ModelNotFound);
      }
      var v := UpdatedUser(users[id - 1], name, email, balance, now);
      var checked := ValidateName(v.name);
      if checked.Fail? {
        return Failure(checked.error);
      }
      users := users[id - 1 := v];
      var u := new User.FromData(v);
      cache.Put(UserKey(id), CachedUser(v));
      cache.Put(UserEmailKey(v.email.value), CachedUser(v));
      cache.Forget(UserEmailKey(v.email.value));
      r := Success(u);
    }

    /** delete: findOrFail, then a soft delete; both keys of the current row are forgotten. */
    method Delete(id: int, now: int) returns (r: Result<bool, Error>)
      requires Valid()
      modifies this, cache
      ensures Valid()
      ensures r.Failure? <==> !ActiveId(old(users), id)
      ensures r.Failure? ==> r.error == ModelNotFound && users == old(users) && cache.entries == old(cache.entries)
      ensures r.Success? ==> r.value
                             && users == old(users)[id - 1 := old(users)[id - 1].(deletedAt := Some(now), updatedAt := now)]
                             && cache.entries == old(cache.entries) - {UserKey(id), UserEmailKey(old(users)[id - 1].email.value)}
    {
      if !ActiveId(users, id) {
        return Failure(ModelNotFound);
      }
      var email := users[id - 1].email;
      users := users[id - 1 := users[id - 1].(deletedAt := Some(now), updatedAt := now)];
      cache.Forget(UserKey(id));
      cache.Forget(UserEmailKey(email.value));
      r := Success(true);
    }

    /**
     * updateBalance: true exactly when an active user has the id; then only
     * the balance and updatedAt change and only "user:<id>" is forgotten.  The
     * balance column carries CHECK (balance >= 0), so callers never store a
     * negative balance.
     */
    method UpdateBalance(id: int, cents: int, now: int) returns (ok: bool)
      requires Valid() && cents >= 0
      modifies this, cache
      ensures Valid()
      ensures ok <==> ActiveId(old(users), id)
      ensures ok ==> users == old(users)[id - 1 := old(users)[id - 1].(balance := Balance(cents), updatedAt := now)]
                     && cache.entries == old(cache.entries) - {UserKey(id)}
      ensures !ok ==> users == old(users) && cache.entries == old(cache.entries)
    {
      if !ActiveId(users, id) {
        return false;
      }
      users := users[id - 1 := users[id - 1].(balance := Balance(cents), updatedAt := now)];
      cache.Forget(UserKey(id));
      ok := true;
    }

    /** existsByEmail */
    function ExistsByEmail(e: Email): (b: bool)
      reads this
      ensures b <==> exists k :: 0 <= k < |users| && users[k].email == e && !Deleted(users[k])
    {
      FirstWithEmail(users, e).Some?
    }
  }
}
