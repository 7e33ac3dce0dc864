/**
 * The User entity.  Its constructor and updateName validate the name; debit,
 * credit, updateName, updateEmail, verifyEmail, softDelete and restore reassign
 * fields in place.
 */
module Users {
  import opened Wrappers
  import opened Errors
  import opened Text
  import opened Amounts
  import opened Balances
  import opened Emails

  const MaxNameLength: int := 255

  /** validateName: empty(trim(name)) is rejected (so is "0"), then a length over 255 bytes. */
  function ValidateName(name: string): (r: Outcome<Error>)
    ensures r.Pass? <==> !PhpEmpty(Trim(name)) && |name| <= MaxNameLength
    ensures PhpEmpty(Trim(name)) ==> r == Fail(InvalidArgument(EmptyName))
    ensures !PhpEmpty(Trim(name)) && |name| > MaxNameLength ==> r == Fail(InvalidArgument(NameTooLong))
  {
    if PhpEmpty(Trim(name)) then Fail(InvalidArgument(EmptyName))
    else if |name| > MaxNameLength then Fail(InvalidArgument(NameTooLong))
    else Pass
  }

  /** The state of a user, as the table row, the cache and the entity all hold it. */
  datatype UserData = UserData(
    id: Option<nat>,
    name: string,
    email: Email,
    balance: Balance,
    emailVerifiedAt: Option<int>,
    createdAt: int,
    updatedAt: int,
    deletedAt: Option<int>)

  predicate Deleted(d: UserData) {
    d.deletedAt.Some?
  }

  /**
   * Whether the users table, row k holding id k + 1, has a user with this id
   * that is not soft-deleted: the only rows the SoftDeletes scope lets queries see.
   */
  predicate ActiveId(users: seq<UserData>, id: int) {
    1 <= id <= |users| && !Deleted(users[id - 1])
  }

  class User {
    const id: Option<nat>
    const createdAt: int
    var name: string
    var email: Email
    var balance: Balance
    var emailVerifiedAt: Option<int>
    var updatedAt: int
    var deletedAt: Option<int>

    function Data(): UserData
      reads this
    {
      UserData(id, name, email, balance, emailVerifiedAt, createdAt, updatedAt, deletedAt)
    }

    /** Builds the entity for state whose name already passed validation. */
    constructor FromData(d: UserData)
      requires ValidateName(d.name).Pass?
      ensures Data() == d
    {
      id, createdAt := d.id, d.createdAt;
      name, email, balance := d.name, d.email, d.balance;
      emailVerifiedAt, updatedAt, deletedAt := d.emailVerifiedAt, d.updatedAt, d.deletedAt;
    }

    /** The PHP constructor: validates the name; missing timestamps default to `now`. */
    static method Create(name: string, email: Email, balance: Balance, id: Option<nat>,
                         emailVerifiedAt: Option<int>, createdAt: Option<int>,
                         updatedAt: Option<int>, deletedAt: Option<int>, now: int)
      returns (r: Result<User, Error>)
      ensures r.Failure? <==> ValidateName(name).Fail?
      ensures r.Failure? ==> r.error == ValidateName(name).error
      ensures r.Success? ==> fresh(r.value) && r.value.Data() == UserData(
                id, name, email, balance, emailVerifiedAt, createdAt.GetOr(now),
                updatedAt.GetOr(now), deletedAt)
    {
      var checked := ValidateName(name);
      if checked.Fail? {
        return Failure(checked.error);
      }
      var u := new User.FromData(UserData(id, name, email, balance, emailVerifiedAt,
                                          createdAt.GetOr(now), updatedAt.GetOr(now), deletedAt));
      r := Success(u);
    }

    /** canAffordTransfer: the debit of `a` would succeed. */
    function CanAffordTransfer(a: Amount): (r: bool)
      reads this
      ensures r <==> Subtract(balance, a).Success?
    {
      CanAfford(balance, a)
    }

    /** debit: refuses without funds and then changes nothing; otherwise subtracts the amount. */
    method Debit(a: Amount, now: int) returns (o: Outcome<Error>)
      modifies this
      ensures o.Pass? <==> old(balance.cents) >= a.cents
      ensures o.Fail? ==> o.error == InvalidArgument(DebitNotAffordable) && Data() == old(Data())
      ensures o.Pass? ==> balance.cents == old(balance.cents) - a.cents && updatedAt == now
      ensures name == old(name) && email == old(email)
      ensures emailVerifiedAt == old(emailVerifiedAt) && deletedAt == old(deletedAt)
    {
      if !CanAffordTransfer(a) {
        return Fail(InvalidArgument(DebitNotAffordable));
      }
      balance := Subtract(balance, a).value;
      updatedAt := now;
      o := Pass;
    }

    /** credit always succeeds. */
    method Credit(a: Amount, now: int)
      modifies this
      ensures balance.cents == old(balance.cents) + a.cents && updatedAt == now
      ensures name == old(name) && email == old(email)
      ensures emailVerifiedAt == old(emailVerifiedAt) && deletedAt == old(deletedAt)
    {
      balance := Add(balance, a);
      updatedAt := now;
    }

    method UpdateName(newName: string, now: int) returns (o: Outcome<Error>)
      modifies this
      ensures o == ValidateName(newName)
      ensures o.Pass? ==> name == newName && updatedAt == now
      ensures o.Fail? ==> Data() == old(Data())
      ensures email == old(email) && balance == old(balance)
      ensures emailVerifiedAt == old(emailVerifiedAt) && deletedAt == old(deletedAt)
    {
      o := ValidateName(newName);
      if o.Pass? {
        name := newName;
        updatedAt := now;
      }
    }

    /** updateEmail replaces the email and clears the verification. */
    method UpdateEmail(newEmail: Email, now: int)
      modifies this
      ensures email == newEmail && emailVerifiedAt == None && !IsEmailVerified() && updatedAt == now
      ensures name == old(name) && balance == old(balance) && deletedAt == old(deletedAt)
    {
      email := newEmail;
      emailVerifiedAt := None;
      updatedAt := now;
    }

    method VerifyEmail(now: int)
      modifies this
      ensures emailVerifiedAt == Some(now) && IsEmailVerified() && updatedAt == now
      ensures name == old(name) && email == old(email) && balance == old(balance)
      ensures deletedAt == old(deletedAt)
    {
      emailVerifiedAt := Some(now);
      updatedAt := now;
    }

    function IsEmailVerified(): bool
      reads this
    {
      emailVerifiedAt.Some?
    }

    method SoftDelete(now: int)
      modifies this
      ensures deletedAt == Some(now) && IsDeleted() && !IsActive() && updatedAt == now
      ensures name == old(name) && email == old(email) && balance == old(balance)
      ensures emailVerifiedAt == old(emailVerifiedAt)
    {
      deletedAt := Some(now);
      updatedAt := now;
    }

    method Restore(now: int)
      modifies this
      ensures deletedAt == None && !IsDeleted() && IsActive() && updatedAt == now
      ensures name == old(name) && email == old(email) && balance == old(balance)
      ensures emailVerifiedAt == old(emailVerifiedAt)
    {
      deletedAt := None;
      updatedAt := now;
    }

    function IsDeleted(): bool
      reads this
    {
      Deleted(Data())
    }

    function IsActive(): bool
      reads this
    {
      !IsDeleted()
    }
  }
}
