/**
 * The acquisition loop of `SerialReader::ReadSerial` as a function of what the
 * port and the stop flag deliver. The port is abstracted as a script: the
 * result of the first (discarded) read, then one `Poll` per loop test, which
 * says either that the stop flag was seen set (so `ReadFile` was not called)
 * or what `ReadFile` returned.
 */
module Acquisition {
  import opened Bytes
  import opened Framing

  /** The outcome of one `ReadFile` call for a single byte. */
  datatype ReadResult =
    | ReadError      // ReadFile returned FALSE
    | NoData         // ReadFile succeeded with bytes_read == 0
    | Got(b: Byte)   // ReadFile succeeded with one byte

  /** What the loop test `!stop_signal && ReadFile(...)` observed. */
  datatype Poll = StopSet | Polled(result: ReadResult)

  /** Why a read session ended. */
  datatype StopReason =
    | NotConnected       // `m_is_connected_` was false on entry
    | FirstReadFailed    // the discarded first read failed
    | StopRequested      // the stop flag was seen set
    | ReadFailed         // ReadFile failed inside the loop
    | NothingRead        // ReadFile delivered zero bytes
    | BufferOverrun      // the next write to `tmp_arr` would be out of bounds
    | ScriptEnd          // the modelled script ran out while the loop was still reading

  /** The lines a session appends to the store, in order, and why it ended. */
  datatype Session = Session(lines: seq<Line>, reason: StopReason)

  predicate IsByte(p: Poll) {
    p.Polled? && p.result.Got?
  }

  /** The loop from framer state `f` onward, over the remaining polls. */
  function Drive(ending: seq<Byte>, capacity: nat, f: Framer, polls: seq<Poll>): Session
    decreases |polls|
  {
    if polls == [] then Session([], ScriptEnd)
    else match polls[0]
      case StopSet => Session([], StopRequested)
      case Polled(ReadError) => Session([], ReadFailed)
      case Polled(NoData) => Session([], NothingRead)
      case Polled(Got(b)) =>
        match Feed(ending, capacity, f, b)
        case Overflow => Session([], BufferOverrun)
        case Fed(next, line) =>
          var rest := Drive(ending, capacity, next, polls[1..]);
          Session(OptionToSeq(line) + rest.lines, rest.reason)
  }

  /** One byte poll: `Drive` feeds the byte and continues with the rest of the script. */
  lemma DriveOnByte(ending: seq<Byte>, capacity: nat, f: Framer, polls: seq<Poll>)
    requires polls != [] && IsByte(polls[0])
    ensures var r := Feed(ending, capacity, f, polls[0].result.b);
      Drive(ending, capacity, f, polls) ==
        if r.Overflow? then Session([], BufferOverrun)
        else
          var rest := Drive(ending, capacity, r.next, polls[1..]);
          Session(OptionToSeq(r.line) + rest.lines, rest.reason)
  {
  }

  /** A whole call of `ReadSerial`: the connection guard, the discarded first read, then the loop. */
  function ReadSession(connected: bool, ending: seq<Byte>, capacity: nat, first: ReadResult, polls: seq<Poll>): Session {
    if !connected then Session([], NotConnected)
    else if first.ReadError? then Session([], FirstReadFailed)
    else Drive(ending, capacity, Idle, polls)
  }

  /** How many polls at the front of the script delivered a byte. */
  function ByteRunLength(polls: seq<Poll>): (k: nat)
    ensures k <= |polls|
    ensures forall j :: 0 <= j < k ==> IsByte(polls[j])
    ensures k < |polls| ==> !IsByte(polls[k])
  {
    if polls == [] || !IsByte(polls[0]) then 0 else 1 + ByteRunLength(polls[1..])
  }

  /** The bytes delivered by a script of byte polls. */
  function BytesOf(polls: seq<Poll>): (s: seq<Byte>)
    requires forall j :: 0 <= j < |polls| ==> polls[j].Polled? && polls[j].result.Got?
    ensures |s| == |polls|
    ensures forall j :: 0 <= j < |polls| ==> s[j] == polls[j].result.b
  {
    if polls == [] then [] else [polls[0].result.b] + BytesOf(polls[1..])
  }

  /** The reason a session ends at the first poll that is not a byte. */
  function EndReason(p: Poll): StopReason
    requires !IsByte(p)
  {
    match p
    case StopSet => StopRequested
    case Polled(ReadError) => ReadFailed
    case Polled(NoData) => NothingRead
  }

  /**
   * The loop frames exactly the bytes read before it stopped: its lines are
   * those of `Frame` over the leading run of byte polls, and it ends for the
   * reason of the first non-byte poll, unless the buffer overran first.
   */
  lemma {:induction false} DriveFramesLeadingBytes(ending: seq<Byte>, capacity: nat, f: Framer, polls: seq<Poll>)
    ensures var k := ByteRunLength(polls);
      var p := Frame(ending, capacity, f, BytesOf(polls[..k]));
      var s := Drive(ending, capacity, f, polls);
      s.lines == p.lines &&
      s.reason == (if p.overflowed then BufferOverrun else if k == |polls| then ScriptEnd else EndReason(polls[k]))
    decreases |polls|
  {
    var k := ByteRunLength(polls);
    if polls == [] || !IsByte(polls[0]) {
      assert polls[..k] == [];
    } else {
      var b := polls[0].result.b;
      assert k == 1 + ByteRunLength(polls[1..]);
      assert polls[..k][1..] == polls[1..][..k - 1];
      assert BytesOf(polls[..k]) == [b] + BytesOf(polls[1..][..k - 1]);
      match Feed(ending, capacity, f, b)
      case Overflow =>
      case Fed(next, line) =>
        DriveFramesLeadingBytes(ending, capacity, next, polls[1..]);
    }
  }

  /** A stop request seen at the first loop test appends nothing, whatever the port would have delivered. */
  lemma StopBeforeAnyByte(ending: seq<Byte>, capacity: nat, first: ReadResult, rest: seq<Poll>)
    requires !first.ReadError?
    ensures ReadSession(true, ending, capacity, first, [StopSet] + rest) == Session([], StopRequested)
  {
  }

  /** The byte of the first read is discarded: it never affects the lines of a session. */
  lemma FirstByteIsDiscarded(ending: seq<Byte>, capacity: nat, b: Byte, polls: seq<Poll>)
    ensures ReadSession(true, ending, capacity, Got(b), polls) == ReadSession(true, ending, capacity, NoData, polls)
  {
  }
}
