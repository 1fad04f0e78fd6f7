/**
 * The `SerialReader` class: the port handle and connected flag, the line
 * ending, the store of received lines, and the read loop over a fixed-size
 * character buffer. Calls into the operating system (`CreateFileA`,
 * `GetCommState`, `SetCommState`, `ReadFile`, `CloseHandle`) are replaced by
 * their outcomes, passed in as parameters.
 */
module Reader {
  import opened Bytes
  import opened Framing
  import opened Acquisition

  /**
   * The value held in `m_com_port_handler_`. `CloseHandle` does not change
   * the variable, so a closed handle is still a (stale) port handle.
   */
  datatype PortHandle = InvalidHandle | PortHandle(open: bool)

  /** `CloseHandle`: closing `INVALID_HANDLE_VALUE` does nothing. */
  function Close(h: PortHandle): (r: PortHandle)
    ensures r.InvalidHandle? <==> h.InvalidHandle?
    ensures r.PortHandle? ==> !r.open
  {
    if h.InvalidHandle? then h else PortHandle(false)
  }

  /** The default line ending, "\r\n". */
  const CRLF: seq<Byte> := [13, 10]

  class SerialReader {
    var handle: PortHandle
    const comPort: string
    const baudRate: nat
    const bufferSize: nat
    var isConnected: bool
    var lineEnding: seq<Byte>
    var received: seq<Line>

    /** Every stored line was built from a C string, so none holds a NUL. */
    ghost predicate Valid()
      reads this
    {
      forall i :: 0 <= i < |received| ==> NoNul(received[i])
    }

    constructor (portName: string, baud: nat, readDataBufferSize: nat)
      ensures Valid()
      ensures handle == InvalidHandle && !isConnected && lineEnding == CRLF && received == []
      ensures comPort == portName && baudRate == baud && bufferSize == readDataBufferSize
    {
      handle := InvalidHandle;
      comPort := portName;
      baudRate := baud;
      bufferSize := readDataBufferSize;
      isConnected := false;
      lineEnding := CRLF;
      received := [];
    }

    /**
     * Open and configure the port. `openOk`, `getStateOk` and `setStateOk` are
     * the outcomes of `CreateFileA`, `GetCommState` and `SetCommState`. A
     * failed open or `GetCommState` does not stop the method: only
     * `SetCommState` decides the result.
     */
    method Connect(openOk: bool, getStateOk: bool, setStateOk: bool) returns (connected: bool)
      requires Valid()
      modifies this
      ensures Valid()
      ensures connected == setStateOk && isConnected == setStateOk
      ensures handle ==
        if !openOk then InvalidHandle else PortHandle(getStateOk && setStateOk)
      ensures lineEnding == old(lineEnding) && received == old(received)
    {
      handle := if openOk then PortHandle(true) else InvalidHandle;
      if handle == InvalidHandle {
        isConnected := false;
      }
      if !getStateOk {
        handle := Close(handle);
        isConnected := false;
      }
      if !setStateOk {
        handle := Close(handle);
        isConnected := false;
      } else {
        isConnected := true;
      }
      connected := isConnected;
    }

    /**
     * Close the port if the handle is not `INVALID_HANDLE_VALUE`. When the
     * handle is already invalid nothing changes, the connected flag included.
     */
    method Disconnect()
      requires Valid()
      modifies this
      ensures Valid()
      ensures handle == InvalidHandle
      ensures isConnected == (old(handle).InvalidHandle? && old(isConnected))
      ensures lineEnding == old(lineEnding) && received == old(received)
      ensures old(handle).InvalidHandle? ==> unchanged(this)
    {
      if handle != InvalidHandle {
        handle := Close(handle);
        handle := InvalidHandle;
        isConnected := false;
      }
    }

    method SetLineEndCharacters(lineEndChar: seq<Byte>)
      requires Valid()
      modifies this
      ensures Valid()
      ensures lineEnding == lineEndChar
      ensures handle == old(handle) && isConnected == old(isConnected) && received == old(received)
    {
      lineEnding := lineEndChar;
    }

    function IsConnected(): (r: bool)
      reads this
      ensures r <==> isConnected
    {
      isConnected
    }

    /** The store, in arrival order; every line in it is NUL-free. */
    function GetImmutableResults(): (r: seq<Line>)
      requires Valid()
      reads this
      ensures r == received
      ensures forall i :: 0 <= i < |r| ==> NoNul(r[i])
    {
      received
    }

    /** `back()` of the store: the most recently appended line. The store must not be empty. */
    function GetLastElementInVector(): (r: Line)
      requires Valid()
      requires |received| > 0
      reads this
      ensures r == received[|received| - 1]
      ensures NoNul(r)
    {
      received[|received| - 1]
    }

    /**
     * The read loop. `first` is the outcome of the read before the loop,
     * whose byte is discarded; `polls` is what each loop test observed. The
     * lines appended to the store are exactly those of `ReadSession`, after
     * the lines that were already there.
     */
    method ReadSerial(first: ReadResult, polls: seq<Poll>) returns (reason: StopReason)
      requires Valid()
      modifies this
      ensures Valid()
      ensures var s := ReadSession(old(isConnected), old(lineEnding), bufferSize, first, polls);
        received == old(received) + s.lines && reason == s.reason
      ensures handle == old(handle) && isConnected == old(isConnected) && lineEnding == old(lineEnding)
    {
      if !isConnected {
        return NotConnected;
      }
      var ending := lineEnding;
      var tmpArr := new Byte[bufferSize];
      var numEndCharsFound := 0;
      var iterForArr := 0;
      ghost var total := Drive(ending, bufferSize, Idle, polls);
      if first.ReadError? {
        return FirstReadFailed;
      }
      var i := 0;
      ghost var remaining := total;
      ghost var done: seq<Line> := [];
      while i < |polls|
        invariant 0 <= i <= |polls|
        invariant iterForArr <= tmpArr.Length == bufferSize
        invariant handle == old(handle) && isConnected == old(isConnected) && lineEnding == ending
        invariant remaining == Drive(ending, bufferSize, Framer(tmpArr[..iterForArr], numEndCharsFound), polls[i..])
        invariant received == old(received) + done
        invariant forall j :: 0 <= j < |done| ==> NoNul(done[j])
        invariant total.lines == done + remaining.lines && total.reason == remaining.reason
        decreases |polls| - i
      {
        assert polls[i..][0] == polls[i];
        var poll := polls[i];
        if poll.StopSet? {
          return StopRequested;
        } else if poll.result.ReadError? {
          return ReadFailed;
        } else if poll.result.NoData? {
          return NothingRead;
        }
        var data := poll.result.b;
        DriveOnByte(ending, bufferSize, Framer(tmpArr[..iterForArr], numEndCharsFound), polls[i..]);
        assert polls[i..][1..] == polls[i + 1..];
        var overrun, line;
        overrun, line, iterForArr, numEndCharsFound := HandleByte(tmpArr, iterForArr, numEndCharsFound, ending, data);
        if overrun {
          return BufferOverrun;
        }
        ghost var next := Drive(ending, bufferSize, Framer(tmpArr[..iterForArr], numEndCharsFound), polls[i + 1..]);
        assert remaining == Session(OptionToSeq(line) + next.lines, next.reason);
        AppendAssoc(done, OptionToSeq(line), next.lines);
        if line.Some? {
          received := received + [line.value];
        }
        done := done + OptionToSeq(line);
        remaining := next;
        i := i + 1;
      }
      reason := ScriptEnd;
    }

    /**
     * Start a read session if the reader is connected. The worker thread is
     * not modelled: the session runs to the end of its script.
     */
    method StartReading(first: ReadResult, polls: seq<Poll>) returns (reason: StopReason)
      requires Valid()
      modifies this
      ensures Valid()
      ensures var s := ReadSession(old(isConnected), old(lineEnding), bufferSize, first, polls);
        received == old(received) + s.lines && reason == s.reason
      ensures handle == old(handle) && isConnected == old(isConnected) && lineEnding == old(lineEnding)
    {
      if !isConnected {
        return NotConnected;
      }
      reason := ReadSerial(first, polls);
    }

    /** Raise the caller's stop flag; the reader itself is not touched. */
    method StopReading(stopSignal: StopSignal)
      modifies stopSignal
      ensures stopSignal.raised
    {
      stopSignal.raised := true;
    }
  }

  /**
   * The body of the read loop for a byte `data` that was read: a line-ending
   * character bumps the counter and, at the ending's length, NUL-terminates
   * the buffer and reads the line back as a C string; any other byte is
   * stored at the write index. `overrun` reports a write past the buffer.
   */
  method HandleByte(tmpArr: array<Byte>, iterForArr: nat, numEndCharsFound: int, ending: seq<Byte>, data: Byte)
    returns (overrun: bool, line: Option<Line>, iter: nat, count: int)
    requires iterForArr <= tmpArr.Length
    modifies tmpArr
    ensures var r := Feed(ending, tmpArr.Length, Framer(old(tmpArr[..iterForArr]), numEndCharsFound), data);
      overrun == r.Overflow? &&
      (!overrun ==> iter <= tmpArr.Length && r == Fed(Framer(tmpArr[..iter], count), line))
    ensures line.Some? ==> NoNul(line.value)
  {
    ghost var pending := tmpArr[..iterForArr];
    iter, count, line := iterForArr, numEndCharsFound, None;
    if IsEndChar(ending, data) {
      count := ToShort(count + 1);
      if count == ToShort(|ending|) {
        if iter >= tmpArr.Length {
          return true, None, iter, count;
        }
        tmpArr[iter] := NUL;
        assert tmpArr[..] == pending + [NUL] + tmpArr[iter + 1..];
        CStringStopsAtNul(pending, tmpArr[iter + 1..]);
        line := Some(CString(tmpArr[..]));
        count := 0;
        iter := 0;
      }
    } else {
      if iter >= tmpArr.Length {
        return true, None, iter, count;
      }
      tmpArr[iter] := data;
      assert tmpArr[..iter + 1] == pending + [data];
      iter := iter + 1;
    }
    overrun := false;
  }

  lemma AppendAssoc<T>(a: seq<T>, b: seq<T>, c: seq<T>)
    ensures (a + b) + c == a + (b + c)
  {
  }

  /** A `std::atomic<bool>` stop flag owned by the caller. */
  class StopSignal {
    var raised: bool

    constructor (initial: bool)
      ensures raised == initial
    {
      raised := initial;
    }
  }
}
