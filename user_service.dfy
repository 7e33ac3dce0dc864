/**
 * UserService: guard-and-update rules over the user repository.  Inputs come
 * as the service receives them: a raw email string, a balance in cents that
 * may be negative, a name that may be absent.
 */
module UserServices {
  import opened Wrappers
  import opened Errors
  import opened Balances
  import opened Emails
  import opened Users
  import opened Caches
  import opened UserRepositories

  /** The fields updateUser hands to the repository: `None` is a key left out of the array. */
  datatype UserChanges = UserChanges(name: Option<string>, email: Option<Email>, balance: Option<Balance>)

  const NoChanges: UserChanges := UserChanges(None, None, None)

  /**
   * How updateUser builds its update array for `current`: a given name is
   * passed on as it is; a given email is normalised and passed on only when
   * it differs from the current one, and then must not belong to any active
   * user; a given balance must not be negative.
   */
  function Changes(current: UserData, users: seq<UserData>, name: Option<string>, rawEmail: Option<string>,
                   balanceCents: Option<int>, wellFormed: string -> bool): Result<UserChanges, Error>
  {
    var email :=
      if rawEmail.None? then Success(None)
      else match NewEmail(rawEmail.value, wellFormed)
        case Failure(e) => Failure(e)
        case Success(e) =>
          if Emails.Equals(current.email, e) then Success(None)
          else if EmailTaken(users, e) then Failure(DuplicateEmail)
          else Success(Some(e));
    if email.Failure? then Failure(email.error)
    else if balanceCents.None? then Success(UserChanges(name, email.value, None))
    else match NewBalance(balanceCents.value)
      case Failure(e) => Failure(e)
      case Success(b) => Success(UserChanges(name, email.value, Some(b)))
  }

  /**
   * Re-submitting one's own email, in any case or padding, is not a
   * duplicate, although an active user (oneself) holds it: the duplicate
   * check runs only for an email that differs from the current one.
   */
  lemma OwnEmailIsNotDuplicate(users: seq<UserData>, id: int, rawEmail: string, balanceCents: Option<int>,
                               name: Option<string>, wellFormed: string -> bool)
    requires ActiveId(users, id)
    requires NewEmail(rawEmail, wellFormed) == Success(users[id - 1].email)
    ensures EmailTaken(users, users[id - 1].email)
    ensures Changes(users[id - 1], users, name, Some(rawEmail), balanceCents, wellFormed) != Failure(DuplicateEmail)
    ensures Changes(users[id - 1], users, name, Some(rawEmail), balanceCents, wellFormed).Success?
            ==> Changes(users[id - 1], users, name, Some(rawEmail), balanceCents, wellFormed).value.email == None
  {
    assert users[id - 1].email == users[id - 1].email && !Deleted(users[id - 1]);
  }

  /** A new email is refused exactly when another active user already has it. */
  lemma DuplicateEmailExactly(current: UserData, users: seq<UserData>, name: Option<string>, rawEmail: string,
                              balanceCents: Option<int>, wellFormed: string -> bool)
    requires NewEmail(rawEmail, wellFormed).Success?
    ensures Changes(current, users, name, Some(rawEmail), balanceCents, wellFormed) == Failure(DuplicateEmail)
        <==> NewEmail(rawEmail, wellFormed).value != current.email && EmailTaken(users, NewEmail(rawEmail, wellFormed).value)
  {
  }

  /** updateUser has nothing to write exactly when no name, no balance and no different email was given. */
  lemma NothingToWriteExactly(current: UserData, users: seq<UserData>, name: Option<string>, rawEmail: Option<string>,
                              balanceCents: Option<int>, wellFormed: string -> bool)
    ensures Changes(current, users, name, rawEmail, balanceCents, wellFormed) == Success(NoChanges)
        <==> name.None? && balanceCents.None?
             && (rawEmail.Some? ==> NewEmail(rawEmail.value, wellFormed) == Success(current.email))
  {
  }

  class UserService {
    const repo: UserRepository

    ghost predicate Valid()
      reads this, repo, repo.cache
    {
      repo.Valid()
    }

    constructor(repo: UserRepository)
      requires repo.Valid()
      ensures Valid() && this.repo == repo
    {
      this.repo := repo;
    }

    /**
     * getUserById: UserNotFound when no active user has the id.  The repository
     * already hides soft-deleted users, so a user it returns is never deleted
     * and the service's own isDeleted() check cannot fire.
     */
    method GetUserById(id: int) returns (r: Result<User, Error>)
      requires Valid()
      modifies repo.cache
      ensures Valid() && repo.users == old(repo.users)
      ensures r.Success? <==> ActiveId(repo.users, id)
      ensures r.Failure? ==> r.error == UserNotFound(Anyone)
      ensures r.Success? ==> fresh(r.value) && r.value.Data() == repo.users[id - 1] && !r.value.IsDeleted()
      ensures repo.cache.entries == if ActiveId(repo.users, id)
                                    then old(repo.cache.entries)[UserKey(id) := CachedUser(repo.users[id - 1])]
                                    else old(repo.cache.entries)
    {
      var found := repo.FindById(id);
      if found.None? {
        return Failure(UserNotFound(Anyone));
      }
      r := Success(found.value);
    }

    /**
     * getUserByEmail: the constructor's error for a malformed address, else
     * UserNotFound when the lookup finds nothing; a user found has that email
     * and is not deleted.
     */
    method GetUserByEmail(rawEmail: string, wellFormed: string -> bool) returns (r: Result<User, Error>)
      requires Valid()
      modifies repo.cache
      ensures Valid() && repo.users == old(repo.users)
      ensures NewEmail(rawEmail, wellFormed).Failure? ==>
                r == Failure(NewEmail(rawEmail, wellFormed).error) && repo.cache.entries == old(repo.cache.entries)
      ensures NewEmail(rawEmail, wellFormed).Success? ==>
                var e := NewEmail(rawEmail, wellFormed).value;
                var found := LookupByEmail(old(repo.cache.entries), repo.users, e);
                && (r.Success? <==> found.Some?)
                && (r.Failure? ==> r.error == UserNotFound(Anyone))
                && (r.Success? ==> fresh(r.value) && r.value.Data() == found.value
                                   && r.value.email == e && !r.value.IsDeleted())
                && repo.cache.entries == if found.Some?
                                         then old(repo.cache.entries)[UserEmailKey(e.value) := CachedUser(found.value)]
                                         else old(repo.cache.entries)
    {
      var email := NewEmail(rawEmail, wellFormed);
      if email.Failure? {
        return Failure(email.error);
      }
      LookupByEmailIsActive(repo.cache.entries, repo.users, email.value);
      var found := repo.FindByEmail(email.value);
      if found.None? {
        return Failure(UserNotFound(Anyone));
      }
      r := Success(found.value);
    }

    /**
     * createUser: the email, then the balance (zero when none is given), then
     * the duplicate check, all before any write; then the repository's create,
     * whose name check is the last guard.
     */
    method CreateUser(name: string, rawEmail: string, balanceCents: Option<int>, wellFormed: string -> bool, now: int)
      returns (r: Result<User, Error>)
      requires Valid()
      modifies repo, repo.cache
      ensures Valid()
      ensures var email := NewEmail(rawEmail, wellFormed);
              var balance := NewBalance(balanceCents.GetOr(0));
              && (email.Failure? ==> r == Failure(email.error))
              && (email.Success? && balance.Failure? ==> r == Failure(InvalidArgument(NegativeBalance)))
              && (email.Success? && balance.Success? ==>
                    && (EmailTaken(old(repo.users), email.value) ==> r == Failure(DuplicateEmail))
                    && (!EmailTaken(old(repo.users), email.value) ==>
                          && (r.Failure? <==> ValidateName(name).Fail?)
                          && (r.Failure? ==> r.error == ValidateName(name).error)))
              && (r.Failure? ==> repo.users == old(repo.users) && repo.cache.entries == old(repo.cache.entries))
              && (r.Success? ==>
                    var row := UserData(Some(|old(repo.users)| + 1), name, email.value, balance.value, None, now, now, None);
                    && fresh(r.value) && r.value.Data() == row && repo.users == old(repo.users) + [row]
                    && repo.cache.entries == old(repo.cache.entries)[UserKey(|old(repo.users)| + 1) := CachedUser(row)]
                                                                    [UserEmailKey(email.value.value) := CachedUser(row)])
    {
      var email := NewEmail(rawEmail, wellFormed);
      if email.Failure? {
        return Failure(email.error);
      }
      var balance := NewBalance(balanceCents.GetOr(0));
      if balance.Failure? {
        return Failure(balance.error);
      }
      if repo.ExistsByEmail(email.value) {
        return Failure(DuplicateEmail);
      }
      r := repo.Create(name, email.value, Some(balance.value), now);
    }

    /**
     * updateUser: getUserById, then the update array (see Changes); with
     * nothing to write the user is returned as found, without a repository
     * call; otherwise the repository's update decides.
     */
    method UpdateUser(id: int, name: Option<string>, rawEmail: Option<string>, balanceCents: Option<int>,
                      wellFormed: string -> bool, now: int)
      returns (r: Result<User, Error>)
      requires Valid()
      modifies repo, repo.cache
      ensures Valid()
      ensures !ActiveId(old(repo.users), id) ==>
                r == Failure(UserNotFound(Anyone)) && repo.users == old(repo.users)
                && repo.cache.entries == old(repo.cache.entries)
      ensures ActiveId(old(repo.users), id) ==>
                var current := old(repo.users)[id - 1];
                var found := old(repo.cache.entries)[UserKey(id) := CachedUser(current)];
                var c := Changes(current, old(repo.users), name, rawEmail, balanceCents, wellFormed);
                && (c.Failure? ==> r == Failure(c.error) && repo.users == old(repo.users) && repo.cache.entries == found)
                && (c == Success(NoChanges) ==>
                      r.Success? && fresh(r.value) && r.value.Data() == current
                      && repo.users == old(repo.users) && repo.cache.entries == found)
                && (c.Success? && c.value != NoChanges ==>
                      var v := UpdatedUser(current, c.value.name, c.value.email, c.value.balance, now);
                      && (r.Failure? <==> ValidateName(v.name).Fail?)
                      && (r.Failure? ==> r.error == ValidateName(v.name).error
                                         && repo.users == old(repo.users) && repo.cache.entries == found)
                      && (r.Success? ==> fresh(r.value) && r.value.Data() == v
                                         && repo.users == old(repo.users)[id - 1 := v]
                                         && repo.cache.entries == found[UserKey(id) := CachedUser(v)]
                                                                  - {UserEmailKey(v.email.value)}))
    {
      var user := GetUserById(id);
      if user.Failure? {
        return Failure(user.error);
      }
      var email: Option<Email> := None;
      if rawEmail.Some? {
        var newEmail := NewEmail(rawEmail.value, wellFormed);
        if newEmail.Failure? {
          return Failure(newEmail.error);
        }
        if !Emails.Equals(user.value.email, newEmail.value) {
          if repo.ExistsByEmail(newEmail.value) {
            return Failure(DuplicateEmail);
          }
          email := Some(newEmail.value);
        }
      }
      var balance: Option<Balance> := None;
      if balanceCents.Some? {
        var newBalance := NewBalance(balanceCents.value);
        if newBalance.Failure? {
          return Failure(newBalance.error);
        }
        balance := Some(newBalance.value);
      }
      if name.None? && email.None? && balance.None? {
        return user;
      }
      r := repo.Update(id, name, email, balance, now);
    }

    /** deleteUser: UserNotFound before any write; then the soft delete, which succeeds. */
    method DeleteUser(id: int, now: int) returns (r: Result<bool, Error>)
      requires Valid()
      modifies repo, repo.cache
      ensures Valid()
      ensures r.Failure? <==> !ActiveId(old(repo.users), id)
      ensures r.Failure? ==> r.error == UserNotFound(Anyone) && repo.users == old(repo.users)
                             && repo.cache.entries == old(repo.cache.entries)
      ensures r.Success? ==> r.value
                             && repo.users == old(repo.users)[id - 1 := old(repo.users)[id - 1].(deletedAt := Some(now), updatedAt := now)]
                             && repo.cache.entries == old(repo.cache.entries)
                                                      - {UserKey(id), UserEmailKey(old(repo.users)[id - 1].email.value)}
    {
      var user := GetUserById(id);
      if user.Failure? {
        return Failure(user.error);
      }
      r := repo.Delete(id, now);
    }

    /**
     * updateUserBalance: UserNotFound first, then a negative balance is
     * refused, both before any write; then only that user's balance changes.
     */
    method UpdateUserBalance(id: int, cents: int, now: int) returns (r: Result<bool, Error>)
      requires Valid()
      modifies repo, repo.cache
      ensures Valid()
      ensures !ActiveId(old(repo.users), id) ==> r == Failure(UserNotFound(Anyone))
      ensures ActiveId(old(repo.users), id) && cents < 0 ==> r == Failure(InvalidArgument(NegativeBalance))
      ensures r.Success? <==> ActiveId(old(repo.users), id) && cents >= 0
      ensures r.Failure? ==> repo.users == old(repo.users)
      ensures r.Failure? ==> repo.cache.entries == if ActiveId(old(repo.users), id)
                                                   then old(repo.cache.entries)[UserKey(id) := CachedUser(old(repo.users)[id - 1])]
                                                   else old(repo.cache.entries)
      ensures r.Success? ==> r.value
                             && repo.users == old(repo.users)[id - 1 := old(repo.users)[id - 1].(balance := Balance(cents), updatedAt := now)]
                             && repo.cache.entries == old(repo.cache.entries) - {UserKey(id)}
    {
      var user := GetUserById(id);
      if user.Failure? {
        return Failure(user.error);
      }
      var balance := NewBalance(cents);
      if balance.Failure? {
        return Failure(balance.error);
      }
      var ok := repo.UpdateBalance(id, balance.value.cents, now);
      r := Success(ok);
    }

    /**
     * verifyUserCredentials: the user getUserByEmail finds, or None when it
     * finds none; a malformed address still fails.  The password is not consulted.
     */
    method VerifyUserCredentials(rawEmail: string, password: string, wellFormed: string -> bool)
      returns (r: Result<Option<User>, Error>)
      requires Valid()
      modifies repo.cache
      ensures Valid() && repo.users == old(repo.users)
      ensures NewEmail(rawEmail, wellFormed).Failure? ==> r == Failure(NewEmail(rawEmail, wellFormed).error)
      ensures NewEmail(rawEmail, wellFormed).Success? ==>
                var found := LookupByEmail(old(repo.cache.entries), repo.users, NewEmail(rawEmail, wellFormed).value);
                && r.Success? && (r.value.Some? <==> found.Some?)
                && (r.value.Some? ==> fresh(r.value.value) && r.value.value.Data() == found.value)
                && repo.cache.entries == if found.Some?
                                         then old(repo.cache.entries)[UserEmailKey(NewEmail(rawEmail, wellFormed).value.value) := CachedUser(found.value)]
                                         else old(repo.cache.entries)
      ensures NewEmail(rawEmail, wellFormed).Failure? ==> repo.cache.entries == old(repo.cache.entries)
    {
      var user := GetUserByEmail(rawEmail, wellFormed);
      if user.Failure? {
        if user.error == UserNotFound(Anyone) {
          return Success(None);
        }
        return Failure(user.error);
      }
      r := Success(Some(user.value));
    }
  }
}
