/**
 * Concrete runs: what the framing rule does on small inputs, and whole
 * sessions driven through the C entry points.
 */
module Scenarios {
  import opened Bytes
  import opened Framing
  import opened Acquisition
  import opened Reader
  import opened Snapshot
  import opened SerialC

  const CR: Byte := 13
  const LF: Byte := 10
  const HELLO: Line := [72, 69, 76, 76, 79]
  const WORLD: Line := [87, 79, 82, 76, 68]

  /** With the default "\r\n" ending and a 256-byte buffer, "HELLO\r\nWORLD\r\n" gives the two lines. */
  lemma HelloWorldFrames()
    ensures Frame(CRLF, 256, Idle, HELLO + [CR, LF] + WORLD + [CR, LF]) == Progress(Idle, [HELLO, WORLD], false)
  {
    assert Payload(CRLF, 256, HELLO);
    assert Payload(CRLF, 256, WORLD);
    FramingInvertsWriteLines(CRLF, 256, [HELLO, WORLD]);
    assert WriteLines([WORLD], CRLF) == WORLD + CRLF + WriteLines([], CRLF);
    assert WriteLines([HELLO, WORLD], CRLF) == HELLO + CRLF + WriteLines([WORLD], CRLF);
    assert HELLO + [CR, LF] + WORLD + [CR, LF] == WriteLines([HELLO, WORLD], CRLF);
  }

  /**
   * Ending characters need not be contiguous: in "A\rB\r\n" the two CRs close
   * the line "AB", and the trailing LF starts the count of the next line.
   */
  lemma ScatteredEndCharsCloseLine()
    ensures Frame(CRLF, 256, Idle, [65, CR, 66, CR, LF]) == Progress(Framer([], 1), [[65, 66]], false)
  {
    var a, b := 65 as Byte, 66 as Byte;
    assert ToShort(1) == 1 && ToShort(2) == 2 && ToShort(|CRLF|) == 2;
    var one := Framer([], 1);
    assert Feed(CRLF, 256, Idle, LF) == Fed(one, None);
    assert [LF][1..] == [];
    assert Frame(CRLF, 256, one, []) == Progress(one, [], false);
    assert OptionToSeq<Line>(None) == [];
    var s2 := Frame(CRLF, 256, Idle, [LF]);
    assert s2 == Progress(one, [], false);
    assert CString([a, b]) == [a, b];
    assert Feed(CRLF, 256, Framer([a, b], 1), CR) == Fed(Idle, Some([a, b]));
    var s1 := Frame(CRLF, 256, Framer([a, b], 1), [CR, LF]);
    assert [CR, LF][1..] == [LF];
    assert s1 == Progress(one, [[a, b]], false);
    assert Feed(CRLF, 256, Framer([a], 1), b) == Fed(Framer([a, b], 1), None);
    var s0 := Frame(CRLF, 256, Framer([a], 1), [b, CR, LF]);
    assert [b, CR, LF][1..] == [CR, LF];
    assert s0 == s1;
    assert Feed(CRLF, 256, Framer([a], 0), CR) == Fed(Framer([a], 1), None);
    assert [CR, b, CR, LF][1..] == [b, CR, LF];
    assert Feed(CRLF, 256, Idle, a) == Fed(Framer([a], 0), None);
    assert [a, CR, b, CR, LF][1..] == [CR, b, CR, LF];
  }

  /**
   * No forced flush: with a 4-byte buffer and ending "\n", "ABCDE\n" stores
   * "ABCD" and then overruns the buffer on "E"; no line is emitted.
   */
  lemma FiveBytesOverrunFour()
    ensures Frame([LF], 4, Idle, [65, 66, 67, 68, 69, LF]) == Progress(Framer([65, 66, 67, 68], 0), [], true)
  {
    var data: seq<Byte> := [65, 66, 67, 68];
    assert NoEndChar([LF], data);
    LongLineOverruns([LF], 4, data, 69, [LF]);
    assert data + [69] + [LF] == [65, 66, 67, 68, 69, LF];
  }

  /** The polls that deliver `bytes` one by one. */
  function Deliver(bytes: seq<Byte>): (polls: seq<Poll>)
    ensures |polls| == |bytes|
    ensures forall j :: 0 <= j < |bytes| ==> polls[j] == Polled(Got(bytes[j]))
  {
    if bytes == [] then [] else [Polled(Got(bytes[0]))] + Deliver(bytes[1..])
  }

  /** The read loop over "HELLO\r\nWORLD\r\n" followed by a zero-byte read appends the two lines. */
  lemma HelloWorldDrive(polls: seq<Poll>)
    requires polls == Deliver(HELLO + [CR, LF] + WORLD + [CR, LF]) + [Polled(NoData)]
    ensures Drive(CRLF, 256, Idle, polls) == Session([HELLO, WORLD], NothingRead)
  {
    var bytes := HELLO + [CR, LF] + WORLD + [CR, LF];
    HelloWorldFrames();
    DriveFramesLeadingBytes(CRLF, 256, Idle, polls);
    assert ByteRunLength(polls) == |bytes| by {
      assert forall j :: 0 <= j < |bytes| ==> IsByte(polls[j]);
      assert !IsByte(polls[|bytes|]);
    }
    assert BytesOf(polls[..|bytes|]) == bytes;
  }

  /** The export of the two lines is "HELLO\0WORLD\0" with offsets 0 and 6. */
  lemma HelloWorldLayout(rs: ResultStruct)
    requires ExportOf([HELLO, WORLD], rs)
    ensures rs == ResultStruct(2, Some(Flat(HELLO + [NUL] + WORLD + [NUL], [0, 6])))
  {
    var lines := [HELLO, WORLD];
    assert lines[..0] == [] && lines[..1] == [HELLO] && lines[..2] == lines;
    assert [HELLO][..0] == [];
    assert lines[..|lines| - 1] == [HELLO];
    assert Joined([HELLO]) == HELLO + [NUL];
    assert TotalLength([HELLO]) == 6;
    assert rs.results.value.offsets[0] == 0 && rs.results.value.offsets[1] == 6;
    assert rs.results.value.offsets == [0, 6];
  }

  /**
   * A whole session through the C entry points: initialise, connect, read
   * "HELLO\r\nWORLD\r\n" until the port delivers nothing, then export. The
   * snapshot holds two lines, "HELLO\0WORLD\0", at offsets 0 and 6.
   */
  method HelloWorldSession() returns (r: Call<ResultStruct>)
    ensures r == Returned(ResultStruct(2, Some(Flat(HELLO + [NUL] + WORLD + [NUL], [0, 6]))))
  {
    var api := new CInterface();
    api.InitialiseReader("COM3", 9600, 256);
    var connected := api.Connect(true, true, true);
    var bytes := HELLO + [CR, LF] + WORLD + [CR, LF];
    var polls := Deliver(bytes) + [Polled(NoData)];
    HelloWorldDrive(polls);
    var started := api.StartRead(NoData, polls);
    assert api.instance.reader.received == [HELLO, WORLD];
    r := api.GetCTypeArray();
    HelloWorldLayout(r.value);
  }

  /**
   * `DeleteReaderPointer` leaves the pointer set: a second `InitialiseReader`
   * does not create a new reader, and `Connect` then uses the deleted one.
   */
  method DeletedReaderIsNeverReplaced() returns (r: Call<int>)
    ensures r == UseAfterDelete
  {
    var api := new CInterface();
    api.InitialiseReader("COM3", 9600, 256);
    var deleted := api.DeleteReaderPointer();
    api.InitialiseReader("COM4", 9600, 256);
    r := api.Connect(true, true, true);
  }

  /** A second `Disconnect` changes nothing: the first one already left the handle invalid. */
  method DisconnectIsIdempotent(reader: SerialReader)
    requires reader.Valid()
    modifies reader
    ensures reader.handle == InvalidHandle
    ensures reader.isConnected == (old(reader.handle).InvalidHandle? && old(reader.isConnected))
    ensures reader.received == old(reader.received) && reader.lineEnding == old(reader.lineEnding)
  {
    reader.Disconnect();
    ghost var handle, connected := reader.handle, reader.isConnected;
    reader.Disconnect();
    assert reader.handle == handle && reader.isConnected == connected;
  }
}
