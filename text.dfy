/**
 * The PHP string built-ins the core relies on: trim(), strtolower() and empty()
 * on strings.  Strings are sequences of characters, one per byte (see README).
 */
module Text {

  /** The characters trim() strips by default: space, tab, LF, CR, NUL and vertical tab. */
  predicate IsTrimChar(c: char) {
    c == ' ' || c == '\t' || c == '\n' || c == '\r' || c == '\0' || c == '\U{000B}'
  }

  /** A string that trim() leaves as it is: empty, or no strippable character at either end. */
  predicate IsTrimmed(s: string) {
    s == [] || (!IsTrimChar(s[0]) && !IsTrimChar(s[|s| - 1]))
  }

  /** trim(): strips strippable characters from both ends. */
  function Trim(s: string): (r: string)
    ensures IsTrimmed(r) && |r| <= |s|
    decreases |s|
  {
    if |s| > 0 && IsTrimChar(s[0]) then Trim(s[1..])
    else if |s| > 0 && IsTrimChar(s[|s| - 1]) then Trim(s[..|s| - 1])
    else s
  }

  /** The number of strippable characters at the start of `s`. */
  function Lead(s: string): (n: nat)
    ensures n <= |s|
  {
    if |s| > 0 && IsTrimChar(s[0]) then 1 + Lead(s[1..]) else 0
  }

  /** trim() keeps a contiguous infix of `s`, starting after the leading run. */
  lemma {:induction false} TrimSlice(s: string)
    ensures Lead(s) + |Trim(s)| <= |s| && Trim(s) == s[Lead(s)..Lead(s) + |Trim(s)|]
    decreases |s|
  {
    var r := Trim(s);
    if |s| > 0 && IsTrimChar(s[0]) {
      var t := s[1..];
      TrimSlice(t);
      assert r == Trim(t) && Lead(s) == 1 + Lead(t);
      assert s[Lead(s)..Lead(s) + |r|] == t[Lead(t)..Lead(t) + |r|];
    } else if |s| > 0 && IsTrimChar(s[|s| - 1]) {
      var u := s[..|s| - 1];
      TrimSlice(u);
      assert Lead(u) == 0 by {
        if |u| > 0 { assert u[0] == s[0]; }
      }
      assert r == Trim(u);
      assert s[0..|r|] == u[0..|r|];
    }
  }

  /** What trim() removes, before and after what it keeps, is strippable characters only. */
  lemma {:induction false} TrimStripsOnlyTrimChars(s: string)
    ensures forall i :: 0 <= i < Lead(s) ==> IsTrimChar(s[i])
    ensures forall i :: Lead(s) + |Trim(s)| <= i < |s| ==> IsTrimChar(s[i])
    decreases |s|
  {
    if |s| > 0 && IsTrimChar(s[0]) {
      var t := s[1..];
      TrimStripsOnlyTrimChars(t);
      assert Trim(s) == Trim(t) && Lead(s) == 1 + Lead(t);
      assert forall i :: 1 <= i < |s| ==> s[i] == t[i - 1];
    } else if |s| > 0 && IsTrimChar(s[|s| - 1]) {
      var u := s[..|s| - 1];
      TrimStripsOnlyTrimChars(u);
      assert Trim(s) == Trim(u) && Lead(s) == 0 == Lead(u);
      assert forall i :: 0 <= i < |u| ==> s[i] == u[i];
    }
  }

  /**
   * trim() returns the infix of `s` left after removing strippable characters
   * only: the leading run, and a trailing run.
   */
  lemma TrimIsInfix(s: string)
    ensures var r := Trim(s);
            && Lead(s) + |r| <= |s| && r == s[Lead(s)..Lead(s) + |r|]
            && (forall i :: 0 <= i < Lead(s) ==> IsTrimChar(s[i]))
            && (forall i :: Lead(s) + |r| <= i < |s| ==> IsTrimChar(s[i]))
  {
    TrimSlice(s);
    TrimStripsOnlyTrimChars(s);
  }

  lemma TrimOfTrimmed(s: string)
    requires IsTrimmed(s)
    ensures Trim(s) == s
  {
  }

  /** trim() is idempotent. */
  lemma TrimIdempotent(s: string)
    ensures Trim(Trim(s)) == Trim(s)
  {
    TrimOfTrimmed(Trim(s));
  }

  /** strtolower() on one byte: ASCII upper-case letters only. */
  function LowerChar(c: char): char {
    if 'A' <= c <= 'Z' then (c as int + 32) as char else c
  }

  function Lower(s: string): (r: string)
    ensures |r| == |s|
    ensures forall i :: 0 <= i < |s| ==> r[i] == LowerChar(s[i])
  {
    if s == [] then [] else [LowerChar(s[0])] + Lower(s[1..])
  }

  /** strtolower() is idempotent. */
  lemma LowerIdempotent(s: string)
    ensures Lower(Lower(s)) == Lower(s)
  {
    assert forall i :: 0 <= i < |s| ==> Lower(Lower(s))[i] == Lower(s)[i];
  }

  /** Lower-casing changes no strippable character, so it keeps a trimmed string trimmed. */
  lemma LowerKeepsTrimmed(s: string)
    requires IsTrimmed(s)
    ensures IsTrimmed(Lower(s))
  {
  }

  /** PHP's empty() on a string: true for "" and for "0". */
  predicate PhpEmpty(s: string) {
    s == "" || s == "0"
  }
}
