/**
 * The flattening done by `GetCTypeArray`: the lines of the store, each
 * followed by a NUL, copied back to back into one buffer, with one start
 * offset per line. A start pointer into the buffer is modelled as its offset.
 */
module Snapshot {
  import opened Bytes

  /** The exported value: the contiguous buffer and the offset of each line in it. */
  datatype Flat = Flat(buffer: seq<Byte>, offsets: seq<nat>)

  /** Bytes needed for `lines` as C strings: each line's length plus one for its NUL. */
  function TotalLength(lines: seq<Line>): nat {
    if lines == [] then 0 else TotalLength(lines[..|lines| - 1]) + |lines[|lines| - 1]| + 1
  }

  /** The buffer layout: each line followed by a NUL, in store order. */
  function Joined(lines: seq<Line>): seq<Byte> {
    if lines == [] then [] else Joined(lines[..|lines| - 1]) + lines[|lines| - 1] + [NUL]
  }

  /** The laid-out buffer is exactly `TotalLength` bytes long. */
  lemma {:induction false} JoinedLength(lines: seq<Line>)
    ensures |Joined(lines)| == TotalLength(lines)
    decreases |lines|
  {
    if lines != [] {
      JoinedLength(lines[..|lines| - 1]);
    }
  }

  /** The layout of a prefix of the store is a prefix of the layout of the store. */
  lemma {:induction false} JoinedPrefix(lines: seq<Line>, k: nat)
    requires k <= |lines|
    ensures Joined(lines[..k]) <= Joined(lines)
    ensures TotalLength(lines[..k]) <= TotalLength(lines)
    decreases |lines| - k
  {
    if k < |lines| {
      JoinedPrefix(lines, k + 1);
      assert lines[..k + 1][..k] == lines[..k];
    } else {
      assert lines[..k] == lines;
    }
  }

  /** Adding line `k` to the laid-out prefix appends its bytes and one NUL. */
  lemma JoinedStep(lines: seq<Line>, k: nat)
    requires k < |lines|
    ensures Joined(lines[..k + 1]) == Joined(lines[..k]) + lines[k] + [NUL]
    ensures TotalLength(lines[..k + 1]) == TotalLength(lines[..k]) + |lines[k]| + 1
    ensures |Joined(lines[..k])| == TotalLength(lines[..k])
    ensures TotalLength(lines[..k + 1]) <= TotalLength(lines)
  {
    assert lines[..k + 1][..k] == lines[..k];
    JoinedLength(lines[..k]);
    JoinedPrefix(lines, k + 1);
  }

  /**
   * Line `i` sits at offset `TotalLength(lines[..i])`: its bytes come first
   * and are followed by exactly one NUL.
   */
  lemma LineAtOffset(lines: seq<Line>, i: nat)
    requires i < |lines|
    ensures var o := TotalLength(lines[..i]);
      var b := Joined(lines);
      o + |lines[i]| < |b| && b[o..o + |lines[i]|] == lines[i] && b[o + |lines[i]|] == NUL
  {
    var o := TotalLength(lines[..i]);
    assert lines[..i + 1][..i] == lines[..i];
    JoinedLength(lines[..i]);
    JoinedLength(lines[..i + 1]);
    JoinedPrefix(lines, i + 1);
    var b := Joined(lines);
    var b' := Joined(lines[..i + 1]);
    assert b' == Joined(lines[..i]) + lines[i] + [NUL];
    assert b'[o..o + |lines[i]|] == lines[i];
    assert b[o..o + |lines[i]|] == b'[o..o + |lines[i]|];
  }

  /** The C string of `s` is its prefix up to the first NUL, when `j` is that position (or the end). */
  lemma CStringIsPrefixBeforeNul(s: seq<Byte>, j: nat)
    requires j <= |s|
    requires forall m :: 0 <= m < j ==> s[m] != NUL
    requires j == |s| || s[j] == NUL
    ensures CString(s) == s[..j]
  {
  }

  /** The consumer's view: reading a C string at offset `i` gives back line `i`. */
  lemma ReadBackLine(lines: seq<Line>, i: nat)
    requires i < |lines| && NoNul(lines[i])
    ensures TotalLength(lines[..i]) < |Joined(lines)|
    ensures CString(Joined(lines)[TotalLength(lines[..i])..]) == lines[i]
  {
    var o := TotalLength(lines[..i]);
    var b := Joined(lines);
    LineAtOffset(lines, i);
    var n := |lines[i]|;
    assert b[o..] == lines[i] + [NUL] + b[o + n + 1..];
    CStringStopsAtNul(lines[i], b[o + n + 1..]);
    CStringOfNoNul(lines[i]);
  }

  /** `strcpy(dst + at, str.c_str())`: copy up to the first NUL of `str`, then the NUL; nothing else changes. */
  method StrCpy(dst: array<Byte>, at: nat, str: Line)
    requires at + |CString(str)| < dst.Length
    modifies dst
    ensures dst[..at + |CString(str)| + 1] == old(dst[..at]) + CString(str) + [NUL]
    ensures var n := |CString(str)|;
      forall m :: 0 <= m < dst.Length && (m < at || at + n < m) ==> dst[m] == old(dst[m])
  {
    var j := 0;
    while j < |str| && str[j] != NUL
      invariant 0 <= j <= |str|
      invariant forall m :: 0 <= m < j ==> str[m] != NUL
      invariant at + j < dst.Length
      invariant forall m :: 0 <= m < j ==> dst[at + m] == str[m]
      invariant forall m :: 0 <= m < dst.Length && (m < at || at + j <= m) ==> dst[m] == old(dst[m])
    {
      dst[at + j] := str[j];
      j := j + 1;
    }
    CStringIsPrefixBeforeNul(str, j);
    dst[at + j] := NUL;
    assert dst[..at + j + 1] == old(dst[..at]) + str[..j] + [NUL];
  }

  /**
   * The two loops of `GetCTypeArray` once an instance exists: sum the
   * lengths, then `strcpy` each line into the buffer at `current` and record
   * `current` before advancing it past the line and its NUL.
   */
  method FlattenLines(lines: seq<Line>) returns (flat: Flat)
    requires forall i :: 0 <= i < |lines| ==> NoNul(lines[i])
    ensures |flat.buffer| == TotalLength(lines)
    ensures flat.buffer == Joined(lines)
    ensures |flat.offsets| == |lines|
    ensures forall i :: 0 <= i < |lines| ==> flat.offsets[i] == TotalLength(lines[..i])
  {
    var totalLength := 0;
    for k := 0 to |lines|
      invariant totalLength == TotalLength(lines[..k])
    {
      JoinedStep(lines, k);
      totalLength := totalLength + |lines[k]| + 1;
    }
    assert lines[..|lines|] == lines;

    var buffer := new Byte[totalLength];
    var results: seq<nat> := [];
    var current := 0;
    for k := 0 to |lines|
      invariant current == TotalLength(lines[..k]) && |results| == k
      invariant forall j :: 0 <= j < k ==> results[j] == TotalLength(lines[..j])
      invariant current <= totalLength
      invariant buffer[..current] == Joined(lines[..k])
    {
      var str := lines[k];
      JoinedStep(lines, k);
      CStringOfNoNul(str);
      ghost var done := buffer[..current];
      StrCpy(buffer, current, str);
      results := results + [current];
      current := current + |str| + 1;
    }
    assert lines[..|lines|] == lines;
    assert buffer[..] == buffer[..current];
    flat := Flat(buffer[..], results);
  }

  /** Every recorded offset, read as a C string, gives back the line it was recorded for, in store order. */
  lemma FlatReadsBack(lines: seq<Line>, flat: Flat)
    requires forall i :: 0 <= i < |lines| ==> NoNul(lines[i])
    requires flat.buffer == Joined(lines) && |flat.offsets| == |lines|
    requires forall i :: 0 <= i < |lines| ==> flat.offsets[i] == TotalLength(lines[..i])
    ensures forall i :: 0 <= i < |lines| ==>
      flat.offsets[i] <= |flat.buffer| && CString(flat.buffer[flat.offsets[i]..]) == lines[i]
  {
    forall i | 0 <= i < |lines|
      ensures flat.offsets[i] <= |flat.buffer| && CString(flat.buffer[flat.offsets[i]..]) == lines[i]
    {
      LineAtOffset(lines, i);
      ReadBackLine(lines, i);
    }
  }
}
