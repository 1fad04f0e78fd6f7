/**
 * The C entry points of `SerialC.cpp` around the process-wide
 * `SerialReader_instance` pointer. The pointer is NULL, points at a live
 * reader, or - after `DeleteReaderPointer`, which deletes the reader without
 * resetting the pointer - dangles. Every entry point that dereferences a
 * dangling pointer returns `UseAfterDelete` instead of touching freed memory.
 */
module SerialC {
  import opened Bytes
  import opened Acquisition
  import opened Reader
  import opened Snapshot

  /** The state of `SerialReader_instance`. */
  datatype Instance = NoInstance | Live(reader: SerialReader) | Deleted

  /** What an entry point returns, or the use of a deleted instance. */
  datatype Call<T> = Returned(value: T) | UseAfterDelete

  /** `struct ResultStruct`: the line count and the exported lines (`None` for a NULL `results`). */
  datatype ResultStruct = ResultStruct(size: nat, results: Option<Flat>)

  /** The snapshot of `lines` that `GetCTypeArray` hands out. */
  ghost predicate ExportOf(lines: seq<Line>, rs: ResultStruct) {
    && rs.size == |lines|
    && rs.results.Some?
    && rs.results.value.buffer == Joined(lines)
    && |rs.results.value.offsets| == |lines|
    && forall i :: 0 <= i < |lines| ==> rs.results.value.offsets[i] == TotalLength(lines[..i])
  }

  class CInterface {
    var instance: Instance

    ghost function Footprint(): set<object>
      reads this
    {
      {this} + if instance.Live? then {instance.reader} else {}
    }

    ghost predicate Valid()
      reads this, Footprint()
    {
      instance.Live? ==> instance.reader.Valid()
    }

    /** Program start: `static SerialReader *SerialReader_instance = NULL`. */
    constructor ()
      ensures Valid() && instance == NoInstance
    {
      instance := NoInstance;
    }

    /** Create the reader only when the pointer is NULL; otherwise nothing happens. */
    method InitialiseReader(id: string, baud: nat, bufferSize: nat)
      requires Valid()
      modifies this
      ensures Valid()
      ensures old(instance).NoInstance? ==>
        && instance.Live? && fresh(instance.reader)
        && instance.reader.handle == InvalidHandle && !instance.reader.isConnected
        && instance.reader.lineEnding == CRLF && instance.reader.received == []
        && instance.reader.comPort == id && instance.reader.baudRate == baud
        && instance.reader.bufferSize == bufferSize
      ensures !old(instance).NoInstance? ==> instance == old(instance)
    {
      if instance == NoInstance {
        var r := new SerialReader(id, baud, bufferSize);
        instance := Live(r);
      }
    }

    /** `int Connect()`: 0 without an instance, otherwise the reader's `Connect` as 0 or 1. */
    method Connect(openOk: bool, getStateOk: bool, setStateOk: bool) returns (r: Call<int>)
      requires Valid()
      modifies Footprint()
      ensures Valid() && instance == old(instance)
      ensures old(instance).NoInstance? ==> r == Returned(0)
      ensures old(instance).Deleted? ==> r == UseAfterDelete
      ensures old(instance).Live? ==>
        && r == Returned(if setStateOk then 1 else 0)
        && instance.reader.isConnected == setStateOk
        && instance.reader.handle == (if !openOk then InvalidHandle else PortHandle(getStateOk && setStateOk))
        && instance.reader.received == old(instance.reader.received)
        && instance.reader.lineEnding == old(instance.reader.lineEnding)
    {
      match instance
      case NoInstance =>
        return Returned(0);
      case Deleted =>
        return UseAfterDelete;
      case Live(reader) =>
        var ok := reader.Connect(openOk, getStateOk, setStateOk);
        return Returned(if ok then 1 else 0);
    }

    /**
     * Start reading if there is a connected instance. `Some(reason)` tells how
     * the read session ended; `None` that no session was started.
     */
    method StartRead(first: ReadResult, polls: seq<Poll>) returns (r: Call<Option<StopReason>>)
      requires Valid()
      modifies Footprint()
      ensures Valid() && instance == old(instance)
      ensures old(instance).NoInstance? ==> r == Returned(None)
      ensures old(instance).Deleted? ==> r == UseAfterDelete
      ensures old(instance).Live? ==>
        var reader := instance.reader;
        var s := ReadSession(true, old(reader.lineEnding), reader.bufferSize, first, polls);
        && reader.handle == old(reader.handle)
        && reader.isConnected == old(reader.isConnected)
        && reader.lineEnding == old(reader.lineEnding)
        && (old(reader.isConnected) ==> r == Returned(Some(s.reason)) && reader.received == old(reader.received) + s.lines)
        && (!old(reader.isConnected) ==> r == Returned(None) && reader.received == old(reader.received))
    {
      match instance
      case NoInstance =>
        return Returned(None);
      case Deleted =>
        return UseAfterDelete;
      case Live(reader) =>
        if reader.IsConnected() {
          var reason := reader.StartReading(first, polls);
          return Returned(Some(reason));
        }
        return Returned(None);
    }

    /**
     * Raise a stop flag that is a fresh local of this call: no read session
     * ever observes it, so the reader is left as it was.
     */
    method StopRead() returns (r: Call<()>)
      requires Valid()
      ensures r == if instance.Deleted? then UseAfterDelete else Returned(())
    {
      match instance
      case NoInstance =>
        return Returned(());
      case Deleted =>
        return UseAfterDelete;
      case Live(reader) =>
        if reader.IsConnected() {
          var stopSignal := new StopSignal(true);
          reader.StopReading(stopSignal);
        }
        return Returned(());
    }

    /**
     * Export the store: size 0 and no lines without an instance; otherwise
     * every line of the store, in order, laid out as C strings.
     */
    method GetCTypeArray() returns (r: Call<ResultStruct>)
      requires Valid()
      ensures instance.NoInstance? ==> r == Returned(ResultStruct(0, None))
      ensures instance.Deleted? ==> r == UseAfterDelete
      ensures instance.Live? ==> r.Returned? && ExportOf(instance.reader.received, r.value)
    {
      match instance
      case NoInstance =>
        return Returned(ResultStruct(0, None));
      case Deleted =>
        return UseAfterDelete;
      case Live(reader) =>
        var resultVec := reader.GetImmutableResults();
        var flat := FlattenLines(resultVec);
        return Returned(ResultStruct(|flat.offsets|, Some(flat)));
    }

    /**
     * Delete the reader (its destructor disconnects it) without resetting the
     * pointer. Deleting again is a use of the deleted instance.
     */
    method DeleteReaderPointer() returns (r: Call<()>)
      requires Valid()
      modifies Footprint()
      ensures Valid()
      ensures old(instance).NoInstance? ==> instance == NoInstance && r == Returned(())
      ensures old(instance).Live? ==>
        && instance == Deleted && r == Returned(())
        && old(instance).reader.handle == InvalidHandle
        && old(instance).reader.isConnected == (old(instance.reader.handle).InvalidHandle? && old(instance.reader.isConnected))
      ensures old(instance).Deleted? ==> instance == Deleted && r == UseAfterDelete
    {
      match instance
      case NoInstance =>
        return Returned(());
      case Deleted =>
        return UseAfterDelete;
      case Live(reader) =>
        reader.Disconnect();
        instance := Deleted;
        return Returned(());
    }
  }
}
