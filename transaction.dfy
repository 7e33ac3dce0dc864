/**
 * The Transaction entity.  Its constructor validates the parties, the status
 * and the reference; afterwards `status`, `description`, `metadata` and
 * `updatedAt` are reassigned in place and every other field stays fixed.
 */
module Transactions {
  import opened Wrappers
  import opened Errors
  import opened Text
  import opened Amounts
  import opened TransactionTypes

  const MaxReferenceLength: int := 255

  datatype Status = Pending | Completed | Failed

  function StatusValue(s: Status): string {
    match s
    case Pending => "pending"
    case Completed => "completed"
    case Failed => "failed"
  }

  /** validateStatus: exactly the three status strings are accepted. */
  function ParseStatus(text: string): (r: Result<Status, Error>)
    ensures r.Success? <==> text == "pending" || text == "completed" || text == "failed"
    ensures r.Success? ==> StatusValue(r.value) == text
    ensures r.Failure? ==> r.error == InvalidArgument(UnknownStatus)
  {
    if text == "pending" then Success(Pending)
    else if text == "completed" then Success(Completed)
    else if text == "failed" then Success(Failed)
    else Failure(InvalidArgument(UnknownStatus))
  }

  lemma ParseStatusValue(s: Status)
    ensures ParseStatus(StatusValue(s)) == Success(s)
  {
  }

  /** Metadata is an associative array with string keys. */
  type Metadata = map<string, string>

  /** array_merge on string-keyed arrays: every key of both, the incoming value winning on a clash. */
  function MergeMetadata(current: Metadata, incoming: Metadata): (r: Metadata)
    ensures r.Keys == current.Keys + incoming.Keys
    ensures forall k :: k in incoming ==> r[k] == incoming[k]
    ensures forall k :: k in current && k !in incoming ==> r[k] == current[k]
  {
    current + incoming
  }

  /** validateSenderAndReceiver: the same-user check runs before the positivity check. */
  function ValidateSenderAndReceiver(senderId: int, receiverId: int): (r: Outcome<Error>)
    ensures r.Pass? <==> senderId != receiverId && senderId > 0 && receiverId > 0
    ensures senderId == receiverId ==> r == Fail(InvalidArgument(SameSenderAndReceiver))
    ensures senderId != receiverId && !r.Pass? ==> r == Fail(InvalidArgument(InvalidUserIds))
  {
    if senderId == receiverId then Fail(InvalidArgument(SameSenderAndReceiver))
    else if senderId <= 0 || receiverId <= 0 then Fail(InvalidArgument(InvalidUserIds))
    else Pass
  }

  /** validateReference: empty(trim(reference)) is rejected, then a length over 255 bytes. */
  function ValidateReference(reference: string): (r: Outcome<Error>)
    ensures r.Pass? <==> !PhpEmpty(Trim(reference)) && |reference| <= MaxReferenceLength
    ensures PhpEmpty(Trim(reference)) ==> r == Fail(InvalidArgument(EmptyReference))
    ensures !PhpEmpty(Trim(reference)) && |reference| > MaxReferenceLength ==> r == Fail(InvalidArgument(ReferenceTooLong))
  {
    if PhpEmpty(Trim(reference)) then Fail(InvalidArgument(EmptyReference))
    else if |reference| > MaxReferenceLength then Fail(InvalidArgument(ReferenceTooLong))
    else Pass
  }

  /** The three validations of the constructor, in their order; on success, the parsed status. */
  function Validate(senderId: int, receiverId: int, statusText: string, reference: string): (r: Result<Status, Error>)
    ensures r.Success? <==> ValidateSenderAndReceiver(senderId, receiverId).Pass?
                            && ParseStatus(statusText).Success?
                            && ValidateReference(reference).Pass?
    ensures r.Success? ==> StatusValue(r.value) == statusText
    ensures !ValidateSenderAndReceiver(senderId, receiverId).Pass? ==> r == Failure(ValidateSenderAndReceiver(senderId, receiverId).error)
    ensures ValidateSenderAndReceiver(senderId, receiverId).Pass? && ParseStatus(statusText).Failure? ==>
              r == Failure(ParseStatus(statusText).error)
    ensures (ValidateSenderAndReceiver(senderId, receiverId).Pass? && ParseStatus(statusText).Success?
             && !ValidateReference(reference).Pass?) ==> r == Failure(ValidateReference(reference).error)
  {
    match ValidateSenderAndReceiver(senderId, receiverId)
    case Fail(e) => Failure(e)
    case Pass =>
      match ParseStatus(statusText)
      case Failure(e) => Failure(e)
      case Success(status) =>
        match ValidateReference(reference)
        case Fail(e) => Failure(e)
        case Pass => Success(status)
  }

  const SecondsPerDay: int := 86400

  /** The calendar day of a timestamp in seconds (one fixed timezone). */
  function Day(t: int): int {
    t / SecondsPerDay
  }

  /** The state of a transaction, as the table row and the entity both hold it. */
  datatype TransactionData = TransactionData(
    id: Option<nat>,
    senderId: int,
    receiverId: int,
    amount: Amount,
    kind: TransactionType,
    status: Status,
    reference: string,
    description: Option<string>,
    metadata: Option<Metadata>,
    createdAt: int,
    updatedAt: int)

  /** What the constructor guarantees of every entity it lets through. */
  predicate ValidData(d: TransactionData) {
    ValidateSenderAndReceiver(d.senderId, d.receiverId).Pass? && ValidateReference(d.reference).Pass?
  }

  function IsPendingStatus(s: Status): bool { s == Pending }
  function IsCompletedStatus(s: Status): bool { s == Completed }
  function IsFailedStatus(s: Status): bool { s == Failed }

  /** Exactly one of isPending, isCompleted and isFailed holds. */
  lemma ExactlyOneStatus(s: Status)
    ensures IsPendingStatus(s) || IsCompletedStatus(s) || IsFailedStatus(s)
    ensures !(IsPendingStatus(s) && IsCompletedStatus(s)) && !(IsPendingStatus(s) && IsFailedStatus(s))
    ensures !(IsCompletedStatus(s) && IsFailedStatus(s))
  {
  }

  /** canBeProcessed: still pending and an amount valid for a transfer. */
  function CanBeProcessed(d: TransactionData): (b: bool)
    ensures b <==> d.status == Pending && d.amount.cents <= DailyLimitCents
  {
    IsPendingStatus(d.status) && IsValidForTransfer(d.amount)
  }

  class Transaction {
    const id: Option<nat>
    const senderId: int
    const receiverId: int
    const amount: Amount
    const kind: TransactionType
    const reference: string
    const createdAt: int
    var status: Status
    var description: Option<string>
    var metadata: Option<Metadata>
    var updatedAt: int

    function Data(): TransactionData
      reads this
    {
      TransactionData(id, senderId, receiverId, amount, kind, status, reference,
                      description, metadata, createdAt, updatedAt)
    }

    /** Builds the entity for state that already passed the constructor's checks. */
    constructor FromData(d: TransactionData)
      requires ValidData(d)
      ensures Data() == d
    {
      id, senderId, receiverId, amount, kind := d.id, d.senderId, d.receiverId, d.amount, d.kind;
      reference, createdAt := d.reference, d.createdAt;
      status, description, metadata, updatedAt := d.status, d.description, d.metadata, d.updatedAt;
    }

    /**
     * The PHP constructor: validates, then stores; missing timestamps default
     * to `now`.  The status text is always given here: the PHP parameter's
     * default, pending, is supplied by the caller, as the repository's mapping
     * does for a row without a status.
     */
    static method Create(senderId: int, receiverId: int, amount: Amount, kind: TransactionType,
                         reference: string, description: Option<string>, metadata: Option<Metadata>,
                         statusText: string, id: Option<nat>, createdAt: Option<int>,
                         updatedAt: Option<int>, now: int)
      returns (r: Result<Transaction, Error>)
      ensures r.Failure? <==> Validate(senderId, receiverId, statusText, reference).Failure?
      ensures r.Failure? ==> r.error == Validate(senderId, receiverId, statusText, reference).error
      ensures r.Success? ==> fresh(r.value) && r.value.Data() == TransactionData(
                id, senderId, receiverId, amount, kind,
                Validate(senderId, receiverId, statusText, reference).value, reference,
                description, metadata, createdAt.GetOr(now), updatedAt.GetOr(now))
    {
      var checked := Validate(senderId, receiverId, statusText, reference);
      if checked.Failure? {
        return Failure(checked.error);
      }
      var t := new Transaction.FromData(TransactionData(
        id, senderId, receiverId, amount, kind, checked.value, reference,
        description, metadata, createdAt.GetOr(now), updatedAt.GetOr(now)));
      r := Success(t);
    }

    /** markAsCompleted: no guard on the current status. */
    method MarkAsCompleted(now: int)
      modifies this
      ensures status == Completed && updatedAt == now
      ensures description == old(description) && metadata == old(metadata)
    {
      status := Completed;
      updatedAt := now;
    }

    /** markAsFailed: no guard on the current status. */
    method MarkAsFailed(now: int)
      modifies this
      ensures status == Failed && updatedAt == now
      ensures description == old(description) && metadata == old(metadata)
    {
      status := Failed;
      updatedAt := now;
    }

    method UpdateDescription(text: string, now: int)
      modifies this
      ensures description == Some(text) && updatedAt == now
      ensures status == old(status) && metadata == old(metadata)
    {
      description := Some(text);
      updatedAt := now;
    }

    /** addMetadata: merges into the current metadata, an absent one counting as empty. */
    method AddMetadata(incoming: Metadata, now: int)
      modifies this
      ensures metadata == Some(MergeMetadata(old(metadata).GetOr(map[]), incoming))
      ensures updatedAt == now
      ensures status == old(status) && description == old(description)
    {
      metadata := Some(MergeMetadata(metadata.GetOr(map[]), incoming));
      updatedAt := now;
    }

    function IsPending(): bool reads this { IsPendingStatus(status) }
    function IsCompleted(): bool reads this { IsCompletedStatus(status) }
    function IsFailed(): bool reads this { IsFailedStatus(status) }
    function IsTransfer(): bool reads this { TransactionTypes.IsTransfer(kind) }
  }
}
