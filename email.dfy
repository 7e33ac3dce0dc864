/**
 * The Email value object.  The stored value is the input trimmed and
 * lower-cased.  PHP's filter_var(..., FILTER_VALIDATE_EMAIL) is a library check
 * whose rules are not part of this model; it is the `wellFormed` parameter.
 */
module Emails {
  import opened Wrappers
  import opened Errors
  import opened Text

  /** strlen limit on the trimmed input. */
  const MaxEmailLength: int := 255

  datatype Email = Email(value: string)

  /** strtolower(trim(raw)). */
  function Normalize(raw: string): string {
    Lower(Trim(raw))
  }

  /**
   * The constructor: the trimmed input must not be empty (PHP empty(), so "0"
   * is rejected too), must be at most 255 bytes long, checked before the
   * format, and must pass the format check; the value kept is normalised.
   */
  function NewEmail(raw: string, wellFormed: string -> bool): (r: Result<Email, Error>)
    ensures r.Success? <==> !PhpEmpty(Trim(raw)) && |Trim(raw)| <= MaxEmailLength && wellFormed(Trim(raw))
    ensures r.Success? ==> r.value.value == Normalize(raw)
    ensures PhpEmpty(Trim(raw)) ==> r == Failure(InvalidArgument(EmptyEmail))
    ensures !PhpEmpty(Trim(raw)) && |Trim(raw)| > MaxEmailLength ==> r == Failure(InvalidArgument(EmailTooLong))
  {
    var trimmed := Trim(raw);
    if PhpEmpty(trimmed) then Failure(InvalidArgument(EmptyEmail))
    else if |trimmed| > MaxEmailLength then Failure(InvalidArgument(EmailTooLong))
    else if !wellFormed(trimmed) then Failure(InvalidArgument(MalformedEmail))
    else Success(Email(Lower(trimmed)))
  }

  /** equals compares the normalised values, which identify the address. */
  function Equals(e: Email, f: Email): (r: bool)
    ensures r <==> e == f
  {
    e.value == f.value
  }

  /** The position of the first occurrence of `c`, like strpos (None stands for false). */
  function FirstIndex(s: string, c: char): (r: Option<nat>)
    ensures r.None? <==> c !in s
    ensures r.Some? ==> r.value < |s| && s[r.value] == c && c !in s[..r.value]
  {
    if s == [] then None
    else if s[0] == c then Some(0)
    else match FirstIndex(s[1..], c)
      case None => None
      case Some(i) => assert s[1..][..i] == s[1..i + 1]; Some(i + 1)
  }

  /** getLocalPart: substr(value, 0, strpos(value, '@')); a missing '@' reads as 0, giving "". */
  function LocalPart(e: Email): (r: string)
    ensures r <= e.value && '@' !in r
    ensures '@' !in e.value ==> r == ""
  {
    match FirstIndex(e.value, '@')
    case Some(i) => e.value[..i]
    case None => ""
  }

  /** getDomain: substr(value, strpos(value, '@') + 1); a missing '@' reads as 0, so substr(value, 1). */
  function Domain(e: Email): (r: string)
    ensures |r| <= |e.value| && r == e.value[|e.value| - |r|..]
    ensures '@' in e.value ==> |r| < |e.value|
  {
    match FirstIndex(e.value, '@')
    case Some(i) => e.value[i + 1..]
    case None => if |e.value| >= 1 then e.value[1..] else ""
  }

  /** The value splits at its first '@' into local part and domain. */
  lemma SplitAtFirstAt(e: Email)
    requires '@' in e.value
    ensures LocalPart(e) + "@" + Domain(e) == e.value
    ensures '@' !in LocalPart(e)
  {
    var i := FirstIndex(e.value, '@').value;
    assert e.value == e.value[..i] + [e.value[i]] + e.value[i + 1..];
  }

  /** Normalising twice is normalising once. */
  lemma NormalizeIdempotent(raw: string)
    ensures Normalize(Normalize(raw)) == Normalize(raw)
  {
    var t := Trim(raw);
    LowerKeepsTrimmed(t);
    TrimOfTrimmed(Lower(t));
    LowerIdempotent(t);
  }

  /** Lower-casing cannot turn a string PHP considers non-empty into "" or "0". */
  lemma LowerKeepsNonEmpty(s: string)
    requires !PhpEmpty(s)
    ensures !PhpEmpty(Lower(s))
  {
    if |s| == 1 {
      assert Lower(s)[0] == LowerChar(s[0]);
    }
  }

  /** Re-wrapping a constructed email's value yields the same email, when the format check still accepts it. */
  lemma Rewrap(raw: string, wellFormed: string -> bool)
    requires NewEmail(raw, wellFormed).Success?
    requires wellFormed(NewEmail(raw, wellFormed).value.value)
    ensures NewEmail(NewEmail(raw, wellFormed).value.value, wellFormed) == NewEmail(raw, wellFormed)
  {
    var t := Trim(raw);
    var v := Lower(t);
    LowerKeepsTrimmed(t);
    TrimOfTrimmed(v);
    LowerKeepsNonEmpty(t);
    LowerIdempotent(t);
  }

  /** Two inputs give equal emails exactly when they agree after trimming and lower-casing. */
  lemma EqualsIgnoresCaseAndPadding(a: string, b: string, wellFormed: string -> bool)
    requires NewEmail(a, wellFormed).Success? && NewEmail(b, wellFormed).Success?
    ensures Equals(NewEmail(a, wellFormed).value, NewEmail(b, wellFormed).value)
            <==> Normalize(a) == Normalize(b)
  {
  }
}
