/**
 * Bytes as the serial reader sees them: single `char`s read from the port,
 * and C strings (NUL-terminated character arrays) built from them.
 */
module Bytes {

  /** One `char` read from the port, as an unsigned octet. */
  newtype Byte = b: int | 0 <= b < 256

  /** A completed line, i.e. the contents of one `std::string` in the store. */
  type Line = seq<Byte>

  /** The C string terminator. */
  const NUL: Byte := 0

  datatype Option<T> = None | Some(value: T)

  /** The elements of an optional value, as a sequence of length 0 or 1. */
  function OptionToSeq<T>(o: Option<T>): (s: seq<T>)
    ensures |s| == if o.Some? then 1 else 0
    ensures o.Some? ==> s[0] == o.value
  {
    match o
    case None => []
    case Some(v) => [v]
  }

  /** True when `s` contains no NUL byte, so that it survives a C string round trip. */
  predicate NoNul(s: seq<Byte>) {
    forall i :: 0 <= i < |s| ==> s[i] != NUL
  }

  /**
   * The string a C++ `std::string` constructor (or `strcpy`) reads from a
   * character array that holds `s`: everything before the first NUL.
   */
  function CString(s: seq<Byte>): (r: Line)
    ensures |r| <= |s| && r == s[..|r|]
    ensures NoNul(r)
    ensures |r| < |s| ==> s[|r|] == NUL
  {
    if s == [] || s[0] == NUL then [] else [s[0]] + CString(s[1..])
  }

  /** A NUL-free sequence is its own C string. */
  lemma {:induction false} CStringOfNoNul(s: seq<Byte>)
    requires NoNul(s)
    ensures CString(s) == s
  {
    if s != [] {
      CStringOfNoNul(s[1..]);
    }
  }

  /** Reading a C string stops at the first NUL: what follows it is never read. */
  lemma {:induction false} CStringStopsAtNul(s: seq<Byte>, rest: seq<Byte>)
    ensures CString(s + [NUL] + rest) == CString(s)
  {
    if s != [] && s[0] != NUL {
      assert (s + [NUL] + rest)[1..] == s[1..] + [NUL] + rest;
      CStringStopsAtNul(s[1..], rest);
    }
  }
}
