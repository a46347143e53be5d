/** NUL-terminated byte strings and strlen (kernel.c lines 30-37). */
module CString {

  /** A C string is readable exactly when a NUL byte occurs somewhere in it. */
  predicate Terminated(s: seq<bv8>)
  {
    0 in s
  }

  /** The length of a C string: the index of its first NUL byte. */
  function Length(s: seq<bv8>): (n: nat)
    requires Terminated(s)
    ensures n < |s| && s[n] == 0
    ensures forall i :: 0 <= i < n ==> s[i] != 0
  {
    if s[0] == 0 then 0
    else
      assert s == [s[0]] + s[1..];
      1 + Length(s[1..])
  }

  /** Length is the only index that is a NUL with no NUL before it. */
  lemma LengthUnique(s: seq<bv8>, n: nat)
    requires n < |s| && s[n] == 0
    requires forall i :: 0 <= i < n ==> s[i] != 0
    ensures Terminated(s) && Length(s) == n
  {
  }

  /** A string literal of non-NUL bytes, with its implicit terminator, has its own length. */
  lemma LiteralLength(text: seq<bv8>)
    requires forall i :: 0 <= i < |text| ==> text[i] != 0
    ensures Terminated(text + [0]) && Length(text + [0]) == |text|
  {
  }

  /** strlen: counts bytes up to the first NUL. */
  method StrLen(str: seq<bv8>) returns (len: nat)
    requires Terminated(str)
    ensures len == Length(str)
    ensures len < |str| && str[len] == 0
    ensures forall i :: 0 <= i < len ==> str[i] != 0
  {
    len := 0;
    while str[len] != 0
      invariant len < |str| && 0 in str[len..]
      invariant forall i :: 0 <= i < len ==> str[i] != 0
      decreases |str| - len
    {
      assert str[len..] == [str[len]] + str[len + 1..];
      len := len + 1;
    }
    LengthUnique(str, len);
  }
}
