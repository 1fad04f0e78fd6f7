# SerialReader in Dafny

This is a model of the sequential core of SerialReader, a small C++20 library
that reads a Windows serial port one byte at a time and splits the stream into
lines. A C interface hands the collected lines to other languages. Three
pieces are modelled and proved:

- **The framing loop of `SerialReader::ReadSerial`.** Its state is a
  fixed-size `tmp_arr` buffer, a write index, a `short` counter of
  line-ending characters, and the append-only list of received lines. The
  model keeps the code's own rule, which is not contiguous CR-LF matching:
  - any byte equal to any character of the line ending is swallowed and
    bumps the counter;
  - ordinary bytes are stored and never reset the counter;
  - a line closes when the counter reaches the ending's length;
  - the closed line is read back as a C string, so it is cut at the first
    NUL.

  The write index is never bounds-checked, so a write past the buffer is an
  explicit `Overflow` that ends the session (`BufferOverrun`).
- **The flattening done by `GetCTypeArray`.** All lines are copied into one
  buffer, each followed by a NUL, with one start offset per line.
- **The lifecycle.** This covers the connected flag and port handle of
  `SerialReader`, and the process-wide `SerialReader_instance` pointer of
  the C interface. That pointer is created once, guarded against NULL, and
  never reset by `DeleteReaderPointer`.

Modules:

- `Bytes`: bytes, lines and C strings. `CString` is the string read from
  `tmp_arr.get()` (include/SerialReader.hpp:237-238).
- `Framing`: the per-byte rule `Feed`, which is one pass of the loop body
  (include/SerialReader.hpp:232-246), and its fold `Frame` over a run of
  bytes (include/SerialReader.hpp:228-252).
- `Acquisition`: the loop as a function `Drive` of what the port and the
  stop flag deliver (include/SerialReader.hpp:228-252), and a whole call as
  `ReadSession`: the connection guard, the discarded first read, then the
  loop (include/SerialReader.hpp:211-228).
- `Reader`: the `SerialReader` class. `ReadSerial` is an imperative loop
  over an `array` buffer, proved equal to `ReadSession`. `Close` is
  `CloseHandle` on the stored handle (include/SerialReader.hpp:117, 129,
  143).
- `Snapshot`: the functions `TotalLength` and `Joined` that define the
  layout, and the imperative `FlattenLines`, with its `strcpy` loop.
  `TotalLength` is the summed length that the first loop
  computes (src/SerialC.cpp:72-76). `Joined` is the layout that the copy
  loop produces (src/SerialC.cpp:83-93).
- `SerialC`: the C entry points, as the class `CInterface` around the
  singleton.
- `Scenarios`: concrete runs.

Operating-system calls are parameters of the model:

- `Connect` takes the outcomes of `CreateFileA`, `GetCommState` and
  `SetCommState` as booleans.
- `ReadSerial` takes a script: the outcome of the first, discarded
  `ReadFile`, then one `Poll` per loop test. A poll is either "the stop flag
  was seen set" or what `ReadFile` returned (failure, zero bytes, or one
  byte).

## Model

| member | source | states |
|---|---|---|
| Framing.EndCharIsSwallowed | include/SerialReader.hpp:232-243 | a byte equal to any ending character is never written to the buffer; it only bumps the counter, or closes the line and resets to idle |
| Framing.LineClosesAtEndingLength | include/SerialReader.hpp:234-241 | a line is emitted iff the byte is an ending character and the incremented `short` counter equals the ending's length as a `short`; then counter and write index are 0 and the line is the buffer `[0, iter_for_arr)` read as a C string |
| Framing.DataByteIsStored | include/SerialReader.hpp:245-246 | any other byte is appended at the write index with the counter unchanged, or overruns when the index is at capacity |
| Framing.OverflowIffIndexAtCapacity | include/SerialReader.hpp:214-246 | a byte causes an out-of-bounds write exactly when the index has reached the buffer size and the byte is stored or closes a line (the `'\0'` write) |
| Framing.CountStaysBelowEnding | include/SerialReader.hpp:219-241 | for an ending of 1 to 32767 characters the `short` counter stays in `[0, size)` over any byte run, so it never wraps |
| Framing.EmittedLinesAreWellFormed | include/SerialReader.hpp:232-246 | every emitted line is shorter than the buffer, holds no NUL and no ending character; the buffer never holds an ending character |
| Framing.EmptyEndingNeverEmits | include/SerialReader.hpp:232-235 | with an empty line ending no line is ever emitted |
| Framing.FrameConcat | include/SerialReader.hpp:228-252 | framing two byte runs one after the other is framing their concatenation, unless the first run overran |
| Framing.LinesOnlyGrow | include/SerialReader.hpp:238 | the lines of a byte run are a prefix of the lines of any extension of it: lines are only appended, in emission order |
| Framing.DataAccumulates | include/SerialReader.hpp:245-246 | ordinary bytes accumulate in the buffer in order while there is room, emitting nothing |
| Framing.LongLineOverruns | include/SerialReader.hpp:214-246 | no forced flush: once the buffer is full of ordinary bytes, the next ordinary byte overruns it whatever follows, and no line is emitted |
| Framing.EndCharsCount | include/SerialReader.hpp:232-243 | ending characters short of the full count only advance the counter, by one each |
| Framing.OneLineRoundTrip | include/SerialReader.hpp:228-252 | one payload followed by the line ending comes back as exactly that line, with the framer idle again |
| Framing.FramingInvertsWriteLines | include/SerialReader.hpp:228-252 | framing lines written each followed by the ending gives back exactly those lines, with no overrun, for any ending of 1 to 32767 characters |
| Framing.ToShort | include/SerialReader.hpp:219-235 | the `short` conversion: result in the `short` range, congruent to its argument modulo 65536, and the identity on that range |
| Acquisition.DriveFramesLeadingBytes | include/SerialReader.hpp:228-252 | the loop appends exactly the lines of framing the leading run of bytes read, and stops for the reason of the first poll that is not a byte (stop flag, failed read, zero bytes) unless the buffer overran first |
| Acquisition.DriveOnByte | include/SerialReader.hpp:228-247 | a poll that delivers a byte feeds it to the framer and continues with the rest of the script |
| Acquisition.StopBeforeAnyByte | include/SerialReader.hpp:228 | a stop flag seen at the first loop test ends the session with no line appended |
| Acquisition.FirstByteIsDiscarded | include/SerialReader.hpp:222-226 | the byte of the read before the loop never affects the session |
| Acquisition.ByteRunLength | include/SerialReader.hpp:228-251 | the length of the leading run of byte polls: every poll before it delivered a byte and the one at it did not |
| Acquisition.BytesOf | include/SerialReader.hpp:228-230 | the bytes a run of byte polls delivers, position by position |
| Reader.SerialReader.ReadSerial | include/SerialReader.hpp:211-253 | the loop over the `array` buffer appends to the store exactly the lines of `ReadSession` on the entry state, after the existing lines, and returns its stop reason; handle, flag and ending are unchanged and stored lines stay NUL-free |
| Reader.HandleByte | include/SerialReader.hpp:232-246 | one pass of the loop body on the array equals `Feed` on the buffer prefix: same next state, same line, overrun exactly on an out-of-bounds write |
| Reader.SerialReader.Connect | include/SerialReader.hpp:94-137 | the result and the connected flag are the `SetCommState` outcome alone; a failed open or `GetCommState` does not short-circuit; the handle is invalid iff the open failed, otherwise closed unless both later calls succeeded |
| Reader.SerialReader.Disconnect | include/SerialReader.hpp:139-147 | afterwards the handle is invalid; the flag is cleared only if the handle was valid, and with an invalid handle nothing changes |
| Reader.SerialReader.SetLineEndCharacters | include/SerialReader.hpp:153-156 | the ending becomes the argument; nothing else changes |
| Reader.SerialReader.IsConnected | include/SerialReader.hpp:159-162 | true iff the connected flag is set |
| Reader.SerialReader.StartReading | include/SerialReader.hpp:164-169 | nothing happens when not connected; otherwise a read session runs with the same effect as `ReadSerial` |
| Reader.SerialReader.StopReading | include/SerialReader.hpp:172-175 | the caller's stop flag is raised |
| Reader.SerialReader.GetImmutableResults | include/SerialReader.hpp:177-180 | the store in arrival order, every line NUL-free |
| Reader.SerialReader.GetLastElementInVector | include/SerialReader.hpp:186-189 | for a non-empty store, the most recently appended line |
| Reader.SerialReader.constructor | include/SerialReader.hpp:81-85 | invalid handle, not connected, ending "\r\n", empty store, the given port, baud rate and buffer size |
| Bytes.CString | include/SerialReader.hpp:237-238 | the string read from a character array: the prefix before the first NUL, NUL-free, followed by a NUL unless it is all of the array |
| Bytes.CStringStopsAtNul | include/SerialReader.hpp:237-238 | what follows the written `'\0'` in the buffer is never read into the line |
| Bytes.CStringOfNoNul | src/SerialC.cpp:86-90 | a NUL-free string is copied whole by `strcpy` |
| Snapshot.FlattenLines | src/SerialC.cpp:71-97 | the two loops produce the buffer `Joined(lines)` of exactly `TotalLength(lines)` bytes and one offset per line, the i-th being the sum of (length + 1) over the lines before it |
| Snapshot.StrCpy | src/SerialC.cpp:86-90 | `strcpy` at an offset writes the C string and one NUL there and changes no other byte |
| Snapshot.JoinedLength | src/SerialC.cpp:72-76 | the laid-out buffer has exactly the summed length of the lines plus one NUL each |
| Snapshot.JoinedPrefix | src/SerialC.cpp:84-93 | laying out a prefix of the store gives a prefix of the buffer, so lines appear in store order |
| Snapshot.JoinedStep | src/SerialC.cpp:84-93 | copying line k appends its bytes and one NUL at offset `TotalLength(lines[..k])` |
| Snapshot.LineAtOffset | src/SerialC.cpp:83-93 | line i occupies the buffer from its offset for its length and is followed by exactly one NUL |
| Snapshot.ReadBackLine | src/SerialC.cpp:83-93 | reading a C string at the offset of line i gives back line i |
| Snapshot.FlatReadsBack | src/SerialC.cpp:91-97 | every recorded offset, read as a C string, gives back the line it was recorded for |
| SerialC.CInterface.constructor | src/SerialC.cpp:15 | the pointer starts NULL |
| SerialC.CInterface.InitialiseReader | src/SerialC.cpp:17-24 | a reader is created, with the given settings, only when the pointer is NULL; otherwise nothing changes |
| SerialC.CInterface.Connect | src/SerialC.cpp:26-30 | 0 without an instance; otherwise the reader's `Connect` as 1 or 0; use of a deleted instance is an error |
| SerialC.CInterface.StartRead | src/SerialC.cpp:32-41 | nothing happens without an instance or when it is not connected; otherwise the store grows by the session's lines |
| SerialC.CInterface.StopRead | src/SerialC.cpp:43-52 | the reader is never changed (the raised flag is a local of the call); use of a deleted instance is an error |
| SerialC.CInterface.GetCTypeArray | src/SerialC.cpp:61-100 | without an instance, size 0 and no results; otherwise the size is the number of stored lines and the buffer and offsets are the layout of the store |
| SerialC.CInterface.DeleteReaderPointer | src/SerialC.cpp:102-108 | the reader is disconnected and the instance becomes deleted without the pointer becoming NULL; deleting again is a use after delete |
| Scenarios.HelloWorldFrames | include/SerialReader.hpp:228-252 | "HELLO\r\nWORLD\r\n" with the default ending gives the lines HELLO and WORLD |
| Scenarios.ScatteredEndCharsCloseLine | include/SerialReader.hpp:232-246 | in "A\rB\r\n" the two CRs close the line "AB" and the LF starts the count of the next line |
| Scenarios.FiveBytesOverrunFour | include/SerialReader.hpp:245 | with a 4-byte buffer and ending "\n", "ABCDE\n" overruns on "E" and emits nothing |
| Scenarios.Deliver | include/SerialReader.hpp:228-230 | the polls that deliver a byte sequence one byte at a time |
| Scenarios.HelloWorldDrive | include/SerialReader.hpp:228-251 | the loop over those bytes followed by a zero-byte read appends HELLO and WORLD and stops for the zero-byte read |
| Scenarios.HelloWorldLayout | src/SerialC.cpp:83-97 | the export of HELLO and WORLD is "HELLO\0WORLD\0" with offsets 0 and 6 |
| Scenarios.HelloWorldSession | src/SerialC.cpp:17-100 | initialise, connect, read and export through the C entry points yields size 2, "HELLO\0WORLD\0" and offsets 0 and 6 |
| Scenarios.DeletedReaderIsNeverReplaced | src/SerialC.cpp:17-30 | after `DeleteReaderPointer` a second `InitialiseReader` creates nothing, and `Connect` uses the deleted reader |
| Scenarios.DisconnectIsIdempotent | include/SerialReader.hpp:139-147 | a second `Disconnect` leaves the state of the first one |

## Left out

- The Windows API (`CreateFileA`, `GetCommState`, `SetCommState`, `ReadFile`, `CloseHandle`) is replaced by its outcomes: booleans for `Connect` and a poll script for the read loop. A closed handle is modelled as `PortHandle(false)`.
- Threads and atomics are not modelled. `StartReading` runs the session synchronously, to the end of its script, instead of on a detached `std::thread`. The stop flag is a poll of the script. In the source, `StartRead` and `StopRead` pass stack-local atomics, so the flag of `StopRead` never reaches a running loop. `StopRead` is modelled that way.
- `ScriptEnd` is a stop reason of the model only: a real loop keeps reading until one of the other reasons occurs.
- `Delay` (`sleep_for`) is left out. It is timing only.
- Logging (`std::cout`, `std::cerr`, `printf`) and the `\\.\` prefix the constructors add to the port name are left out. `comPort` holds the name as given.
- The lifetime of the `shared_ptr` buffer and of `results.data()` is not modelled. `GetCTypeArray` returns the buffer and offsets as a value, and an offset stands for a `const char*` into the buffer. In the source, both pointers dangle once the call returns.
- Integer widths of `size_t`, `unsigned` and `DWORD` are unbounded in the model. Only the `short` counter is modelled with its wrap-around (`Framing.ToShort`).
- The uninitialised contents of `tmp_arr` beyond the write index are not tracked. They never reach a line, because a NUL is written at the index before the line is read back.
- Two kinds of undefined behaviour are explicit outcomes in the model. An out-of-bounds write to `tmp_arr` ends the session with `BufferOverrun`. A call through the deleted instance returns `UseAfterDelete`.
- Reader.SerialReader.GetLastElementInVector: `back()` on an empty store is undefined behaviour. The model does not make it an outcome. It is excluded by `requires |received| > 0`, and callers must meet that condition.
- Reader.SerialReader.constructor: the default argument `read_data_buffer_size = 256` of the C++ constructors is not modelled (include/SerialReader.hpp:62, 69, 75, 81). The model's constructor always takes the buffer size explicitly, so it can be any size.
- Reader.SerialReader.Connect: the three outcomes of `CreateFileA`, `GetCommState` and `SetCommState` are independent inputs. The model therefore also allows combinations Windows does not produce. For example, `Connect(false, true, true)` succeeds while the handle is `INVALID_HANDLE_VALUE`, although a real `SetCommState` on that handle fails. This is the only way to reach a connected reader whose handle is invalid. A later `Disconnect` then leaves the connected flag set.
- `include/SerialC.h` holds only declarations and the `ResultStruct` layout, which `SerialC.ResultStruct` mirrors.
- Three behaviours of the code are modelled exactly as written:
  - it matches line-ending characters in any order, and they need not be contiguous, so "A\rB\r\n" yields "AB";
  - it never flushes a full buffer, so the next write overruns it;
  - it leaves the connected flag alone when `Disconnect` finds an invalid handle.
