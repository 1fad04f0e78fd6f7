/**
 * The line-framing rule of `SerialReader::ReadSerial`, one byte at a time, as
 * pure functions over an abstract state. `Reader.SerialReader.ReadSerial` runs
 * the same rule imperatively over an array and is proved against `Feed`.
 *
 * The rule is the code's, not textbook CR-LF framing:
 *  - a byte equal to ANY character of the line ending is swallowed and bumps
 *    a counter; ordinary bytes do not reset that counter;
 *  - a line is emitted when the counter reaches the length of the line ending;
 *  - the emitted line is read back as a C string, so it stops at the first NUL;
 *  - the buffer index is never checked, so a write past the buffer's end is
 *    an explicit `Overflow`.
 */
module Framing {
  import opened Bytes

  /** The C++ conversion of an integer to `short` (modular since C++20). */
  function ToShort(x: int): (r: int)
    ensures -32768 <= r < 32768
    ensures (r - x) % 65536 == 0
    ensures -32768 <= x < 32768 ==> r == x
  {
    if -32768 <= x < 32768 then x else (x + 32768) % 65536 - 32768
  }

  /** `std::any_of` over the line-ending characters: is `b` one of them? */
  predicate IsEndChar(ending: seq<Byte>, b: Byte) {
    b in ending
  }

  /**
   * The framer's state between two bytes: `pending` is `tmp_arr[0..iter_for_arr)`
   * and `count` is `num_end_chars_found`.
   */
  datatype Framer = Framer(pending: seq<Byte>, count: int)

  /** The state at the start of a read session, and after every emitted line. */
  const Idle: Framer := Framer([], 0)

  /** What one byte does: a new state and possibly a completed line, or an out-of-bounds write. */
  datatype FeedResult = Fed(next: Framer, line: Option<Line>) | Overflow

  /** One pass of the read loop's body for a byte `b` that was read. */
  function Feed(ending: seq<Byte>, capacity: nat, f: Framer, b: Byte): FeedResult {
    if IsEndChar(ending, b) then
      var count := ToShort(f.count + 1);
      if count == ToShort(|ending|) then
        // `tmp_arr[iter_for_arr] = '\0'` is the write that can overrun here
        if |f.pending| < capacity then Fed(Idle, Some(CString(f.pending))) else Overflow
      else
        Fed(Framer(f.pending, count), None)
    else if |f.pending| < capacity then
      Fed(Framer(f.pending + [b], f.count), None)
    else
      Overflow
  }

  /** Lines emitted while feeding a run of bytes, and where feeding stopped. */
  datatype Progress = Progress(framer: Framer, lines: seq<Line>, overflowed: bool)

  /**
   * Feed `bytes` in order, collecting the emitted lines; an `Overflow` stops
   * feeding and leaves the state before the offending byte.
   */
  function Frame(ending: seq<Byte>, capacity: nat, f: Framer, bytes: seq<Byte>): Progress
    decreases |bytes|
  {
    if bytes == [] then Progress(f, [], false)
    else match Feed(ending, capacity, f, bytes[0])
      case Overflow => Progress(f, [], true)
      case Fed(next, line) =>
        var p := Frame(ending, capacity, next, bytes[1..]);
        Progress(p.framer, OptionToSeq(line) + p.lines, p.overflowed)
  }

  // ---------------------------------------------------------------------------
  // One byte

  /** A line-ending byte is never written to the buffer: it only moves the counter. */
  lemma EndCharIsSwallowed(ending: seq<Byte>, capacity: nat, f: Framer, b: Byte)
    requires IsEndChar(ending, b)
    ensures match Feed(ending, capacity, f, b)
      case Overflow => |f.pending| >= capacity
      case Fed(next, line) =>
        (line.None? ==> next == Framer(f.pending, ToShort(f.count + 1))) &&
        (line.Some? ==> next == Idle)
  {
  }

  /**
   * A line is emitted exactly when the counter reaches the ending's length;
   * then the counter and the write index are both back at 0 and the line is
   * the buffer `[0, iter_for_arr)` read as a C string.
   */
  lemma LineClosesAtEndingLength(ending: seq<Byte>, capacity: nat, f: Framer, b: Byte)
    requires Feed(ending, capacity, f, b).Fed?
    ensures var r := Feed(ending, capacity, f, b);
      r.line.Some? <==> IsEndChar(ending, b) && ToShort(f.count + 1) == ToShort(|ending|)
    ensures var r := Feed(ending, capacity, f, b);
      r.line.Some? ==> r.next.count == 0 && r.next.pending == [] && r.line.value == CString(f.pending)
  {
  }

  /** Any other byte is stored at the write index, which advances; the counter is kept. */
  lemma DataByteIsStored(ending: seq<Byte>, capacity: nat, f: Framer, b: Byte)
    requires !IsEndChar(ending, b)
    ensures Feed(ending, capacity, f, b) ==
      if |f.pending| < capacity then Fed(Framer(f.pending + [b], f.count), None) else Overflow
  {
  }

  /** The two unchecked writes are the only failure: a byte overruns iff the index has reached capacity. */
  lemma OverflowIffIndexAtCapacity(ending: seq<Byte>, capacity: nat, f: Framer, b: Byte)
    ensures Feed(ending, capacity, f, b).Overflow? <==>
      |f.pending| >= capacity &&
      (!IsEndChar(ending, b) || ToShort(f.count + 1) == ToShort(|ending|))
  {
  }

  // ---------------------------------------------------------------------------
  // Invariants of a session

  /**
   * For an ending of 1 to 32767 characters the `short` counter stays in
   * `[0, |ending|)` and never wraps around.
   */
  lemma {:induction false} CountStaysBelowEnding(ending: seq<Byte>, capacity: nat, f: Framer, bytes: seq<Byte>)
    requires 0 < |ending| < 32768
    requires 0 <= f.count < |ending|
    ensures var p := Frame(ending, capacity, f, bytes); 0 <= p.framer.count < |ending|
    decreases |bytes|
  {
    if bytes != [] {
      match Feed(ending, capacity, f, bytes[0])
      case Overflow =>
      case Fed(next, _) => CountStaysBelowEnding(ending, capacity, next, bytes[1..]);
    }
  }

  /** A framer state that the loop can reach: nothing swallowed sits in the buffer. */
  ghost predicate Clean(ending: seq<Byte>, capacity: nat, f: Framer) {
    |f.pending| <= capacity && forall i :: 0 <= i < |f.pending| ==> !IsEndChar(ending, f.pending[i])
  }

  /** A line is well formed when it fits the buffer with its NUL and holds no NUL and no line-ending character. */
  ghost predicate WellFormedLine(ending: seq<Byte>, capacity: nat, line: Line) {
    |line| < capacity && NoNul(line) && forall i :: 0 <= i < |line| ==> !IsEndChar(ending, line[i])
  }

  /**
   * Every line a session emits fits the buffer with its NUL, contains no NUL
   * and contains no character of the line ending.
   */
  lemma {:induction false} EmittedLinesAreWellFormed(ending: seq<Byte>, capacity: nat, f: Framer, bytes: seq<Byte>)
    requires Clean(ending, capacity, f)
    ensures var p := Frame(ending, capacity, f, bytes);
      Clean(ending, capacity, p.framer) &&
      forall j :: 0 <= j < |p.lines| ==> WellFormedLine(ending, capacity, p.lines[j])
    decreases |bytes|
  {
    if bytes != [] {
      match Feed(ending, capacity, f, bytes[0])
      case Overflow =>
      case Fed(next, line) =>
        if line.Some? {
          var l := CString(f.pending);
          assert l == f.pending[..|l|];
          assert forall i :: 0 <= i < |l| ==> l[i] == f.pending[i];
        }
        EmittedLinesAreWellFormed(ending, capacity, next, bytes[1..]);
    }
  }

  /** With an empty line ending no byte is swallowed, so no line is ever emitted. */
  lemma {:induction false} EmptyEndingNeverEmits(capacity: nat, f: Framer, bytes: seq<Byte>)
    ensures Frame([], capacity, f, bytes).lines == []
    decreases |bytes|
  {
    if bytes != [] {
      match Feed([], capacity, f, bytes[0])
      case Overflow =>
      case Fed(next, _) => EmptyEndingNeverEmits(capacity, next, bytes[1..]);
    }
  }

  /** Feeding two runs in turn is feeding their concatenation, unless the first run overflowed. */
  lemma {:induction false} FrameConcat(ending: seq<Byte>, capacity: nat, f: Framer, a: seq<Byte>, b: seq<Byte>)
    ensures var p := Frame(ending, capacity, f, a);
      var q := Frame(ending, capacity, p.framer, b);
      Frame(ending, capacity, f, a + b) ==
        if p.overflowed then p else Progress(q.framer, p.lines + q.lines, q.overflowed)
    decreases |a|
  {
    if a == [] {
      assert a + b == b;
    } else {
      assert (a + b)[0] == a[0];
      assert (a + b)[1..] == a[1..] + b;
      match Feed(ending, capacity, f, a[0])
      case Overflow =>
      case Fed(next, line) =>
        FrameConcat(ending, capacity, next, a[1..], b);
        var p' := Frame(ending, capacity, next, a[1..]);
        var q := Frame(ending, capacity, p'.framer, b);
        assert OptionToSeq(line) + (p'.lines + q.lines) == (OptionToSeq(line) + p'.lines) + q.lines;
    }
  }

  /** Lines are only ever appended: the lines of a run are a prefix of the lines of any longer run. */
  lemma LinesOnlyGrow(ending: seq<Byte>, capacity: nat, f: Framer, a: seq<Byte>, b: seq<Byte>)
    ensures var la := Frame(ending, capacity, f, a).lines;
      la <= Frame(ending, capacity, f, a + b).lines
  {
    FrameConcat(ending, capacity, f, a, b);
  }

  // ---------------------------------------------------------------------------
  // Round trip: lines written with the line ending are read back

  /** No character of `s` belongs to the line ending. */
  predicate NoEndChar(ending: seq<Byte>, s: seq<Byte>) {
    forall i :: 0 <= i < |s| ==> !IsEndChar(ending, s[i])
  }

  /** A payload that the framer hands back unchanged: no NUL, no ending character, room for the NUL. */
  predicate Payload(ending: seq<Byte>, capacity: nat, line: Line) {
    |line| < capacity && NoNul(line) && NoEndChar(ending, line)
  }

  /** Ordinary bytes accumulate in the buffer while there is room. */
  lemma {:induction false} DataAccumulates(ending: seq<Byte>, capacity: nat, f: Framer, data: seq<Byte>)
    requires NoEndChar(ending, data)
    requires |f.pending| + |data| <= capacity
    ensures Frame(ending, capacity, f, data) == Progress(Framer(f.pending + data, f.count), [], false)
    decreases |data|
  {
    if data == [] {
      assert f.pending + data == f.pending;
    } else {
      var next := Framer(f.pending + [data[0]], f.count);
      assert Feed(ending, capacity, f, data[0]) == Fed(next, None);
      DataAccumulates(ending, capacity, next, data[1..]);
      assert next.pending + data[1..] == f.pending + data;
    }
  }

  /**
   * There is no forced flush: once `capacity` ordinary bytes fill the buffer,
   * the next ordinary byte overruns it, whatever follows, and no line is emitted.
   */
  lemma LongLineOverruns(ending: seq<Byte>, capacity: nat, data: seq<Byte>, b: Byte, rest: seq<Byte>)
    requires NoEndChar(ending, data) && |data| == capacity && !IsEndChar(ending, b)
    ensures Frame(ending, capacity, Idle, data + [b] + rest) == Progress(Framer(data, 0), [], true)
  {
    DataAccumulates(ending, capacity, Idle, data);
    assert Idle.pending + data == data;
    assert ([b] + rest)[0] == b;
    assert Frame(ending, capacity, Framer(data, 0), [b] + rest) == Progress(Framer(data, 0), [], true);
    FrameConcat(ending, capacity, Idle, data, [b] + rest);
    assert data + ([b] + rest) == data + [b] + rest;
  }

  /** Line-ending characters short of the full count only move the counter. */
  lemma {:induction false} EndCharsCount(ending: seq<Byte>, capacity: nat, f: Framer, t: seq<Byte>)
    requires |ending| < 32768
    requires 0 <= f.count && f.count + |t| < |ending|
    requires forall i :: 0 <= i < |t| ==> IsEndChar(ending, t[i])
    ensures Frame(ending, capacity, f, t) == Progress(Framer(f.pending, f.count + |t|), [], false)
    decreases |t|
  {
    if t != [] {
      var next := Framer(f.pending, f.count + 1);
      assert Feed(ending, capacity, f, t[0]) == Fed(next, None);
      EndCharsCount(ending, capacity, next, t[1..]);
    }
  }

  /** Every character of `ending` is a line-ending character. */
  lemma EndingIsEndChars(ending: seq<Byte>)
    ensures forall i :: 0 <= i < |ending| ==> IsEndChar(ending, ending[i])
  {
  }

  /** One payload followed by the line ending comes back as exactly that line, and the framer is idle again. */
  lemma OneLineRoundTrip(ending: seq<Byte>, capacity: nat, line: Line)
    requires 0 < |ending| < 32768
    requires Payload(ending, capacity, line)
    ensures Frame(ending, capacity, Idle, line + ending) == Progress(Idle, [line], false)
  {
    var n := |ending|;
    var init, last := ending[..n - 1], ending[n - 1];
    assert ending == init + [last];
    DataAccumulates(ending, capacity, Idle, line);
    assert Idle.pending + line == line;
    var held := Framer(line, 0);
    EndingIsEndChars(ending);
    EndCharsCount(ending, capacity, held, init);
    assert IsEndChar(ending, last);
    CStringOfNoNul(line);
    assert Feed(ending, capacity, Framer(line, n - 1), last) == Fed(Idle, Some(line));
    assert Frame(ending, capacity, Framer(line, n - 1), [last]) == Progress(Idle, [line], false);
    FrameConcat(ending, capacity, held, init, [last]);
    assert line + ending == line + init + [last];
    FrameConcat(ending, capacity, Idle, line, init + [last]);
  }

  /** The byte stream that writes each line followed by the line ending. */
  function WriteLines(lines: seq<Line>, ending: seq<Byte>): (s: seq<Byte>)
    ensures lines == [] ==> s == []
  {
    if lines == [] then [] else lines[0] + ending + WriteLines(lines[1..], ending)
  }

  /** Framing the written stream gives back exactly the lines written: segmentation is the inverse of `WriteLines`. */
  lemma {:induction false} FramingInvertsWriteLines(ending: seq<Byte>, capacity: nat, lines: seq<Line>)
    requires 0 < |ending| < 32768
    requires forall j :: 0 <= j < |lines| ==> Payload(ending, capacity, lines[j])
    ensures Frame(ending, capacity, Idle, WriteLines(lines, ending)) == Progress(Idle, lines, false)
    decreases |lines|
  {
    if lines != [] {
      OneLineRoundTrip(ending, capacity, lines[0]);
      FramingInvertsWriteLines(ending, capacity, lines[1..]);
      FrameConcat(ending, capacity, Idle, lines[0] + ending, WriteLines(lines[1..], ending));
      assert [lines[0]] + lines[1..] == lines;
    }
  }
}
