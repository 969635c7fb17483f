/** The completion-port engine: streams whose reads and writes are overlapped
    operations of the system, which must find their stream when they complete. */
module WindowsEngine {
  import opened AsyncResult
  import opened Buffers
  import opened ScatterGather
  import opened Wrappers

  const MAX_WSABUF: nat := 16
  const WSAECONNRESET: int := 10054
  const ERROR_OPERATION_ABORTED: int := 995

  class WindowsAsyncStream {
    var Skt: nat                // the socket wrapper it is registered with
    var Removing: bool
    var ReadClosed: bool
    var PendingCount: nat
    var ReadPending: bool       // ReadOp.Pending: the system has the operation
    var WritePending: bool      // WriteOp.Pending
    var ReadBuffer: Option<nat>
    var WriteBuffers: Chain
    var WriteOffset: nat
    var WriteSize: nat

    ghost var Wire: seq<byte>   // every byte a completed write has sent
    ghost var WriteBase: nat    // those sent before the write in progress
    var Posted: seq<byte>       // what the system has of it
    ghost var Refusals: seq<int> // the errors that operations were refused with
    ghost var Aborts: nat       // operations that ended because they were cancelled
    ghost var WriteFailed: bool // the system has completed a write with an error

    ghost predicate WriteOk()
      reads this`WriteBuffers, this`WriteOffset, this`WriteSize, this`WritePending
      reads this`Wire, this`WriteBase, this`Posted
    {
      && (if WriteBuffers == [] then WriteOffset == WriteSize == 0
          else Partial(WriteBuffers, WriteSize, WriteOffset, Wire, WriteBase) && 0 < WriteSize)
      && (WritePending ==>
            && WriteBuffers != [] && 0 < |Posted| <= WriteSize - WriteOffset
            && Posted == Flatten(WriteBuffers)[WriteOffset..WriteOffset + |Posted|])
    }

    // A write without success leaves its chain behind, and nothing else does.
    ghost predicate Freed()
      reads this`Removing, this`WritePending, this`WriteSize, this`WriteFailed
    {
      !Removing ==> (WriteFailed ==> !WritePending) && (!WritePending ==> (WriteSize != 0 <==> WriteFailed))
    }

    ghost predicate Ok()
      reads this`PendingCount, this`ReadPending, this`WritePending, this`ReadBuffer, this`ReadClosed
      reads this`WriteBuffers, this`WriteOffset, this`WriteSize, this`Wire, this`WriteBase, this`Posted
    {
      && PendingCount == Count(ReadPending) + Count(WritePending)
      && (ReadPending ==> ReadBuffer.Some? && 0 < ReadBuffer.value && !ReadClosed)
      && WriteOk()
    }

    constructor (socket: nat)
      ensures Ok() && Freed() && Skt == socket && !Removing && PendingCount == 0 && Wire == []
      ensures !ReadPending && !WritePending && !WriteFailed && !ReadClosed
    {
      Skt, Removing, ReadClosed, PendingCount := socket, false, false, 0;
      ReadPending, WritePending, ReadBuffer := false, false, None;
      WriteBuffers, WriteOffset, WriteSize := [], 0, 0;
      Wire, WriteBase, Posted, Aborts, WriteFailed, Refusals := [], 0, [], 0, false, [];
    }

    ghost function Now(): Standing
      reads this
    {
      Standing(Removing, Aborts, WriteFailed, Wire, if ReadPending then ReadBuffer else None,
               if WritePending then Some((WriteBuffers, WriteBase)) else None)
    }

    // The next views of the write, as many as one operation takes.
    method NextVector() returns (vector: Chain)
      requires WriteOk() && WriteOffset < WriteSize
      ensures WriteBuffers != [] && ValidChain(vector) && 0 < |Flatten(vector)| <= WriteSize - WriteOffset
      ensures Flatten(vector) == Flatten(WriteBuffers)[WriteOffset..WriteOffset + |Flatten(vector)|]
    {
      vector := BuildIov(WriteBuffers, WriteOffset, MAX_WSABUF);
      NotEmpty(vector);
    }

    // The system takes an operation, or refuses it with an error.
    method Submit() returns (taken: bool, error: int)
      modifies this`Refusals
      ensures Refusals == old(Refusals) + if taken then [] else [error]
    {
      taken, error := *, *;
      Refusals := Refusals + if taken then [] else [error];
    }

    // Whether this is how one of its operations can end.
    predicate Ends(c: Completion)
      reads this`ReadPending, this`ReadBuffer, this`WritePending, this`Posted
    {
      match c
      case ReadDone(_, data, _) => ReadPending && ReadBuffer.Some? && |data| <= ReadBuffer.value
      case WriteDone(_, bytes, _) => WritePending && bytes <= |Posted|
    }

    method ClearWrite()
      modifies this`WriteBuffers, this`WriteOffset, this`WriteSize
      ensures WriteBuffers == [] && WriteOffset == WriteSize == 0
    {
      WriteBuffers, WriteOffset, WriteSize := [], 0, 0;
    }
  }

  // Where a stream stands: its bytes, and the operations that the system has.
  datatype Standing = Standing(removing: bool, aborts: nat, failed: bool, wire: seq<byte>,
                               reading: Option<nat>, writing: Option<(Chain, nat)>)

  // The stream's operation is over and nothing is to be reported of it, or a
  // result answers it.
  ghost predicate Over(s: WindowsAsyncStream, a: Standing, b: Standing, results: seq<(WindowsAsyncStream, Result)>, n: nat,
                       reading: bool) {
    b.removing || b.aborts > a.aborts || Answered(results, n, s, reading)
  }

  // What no call takes back of a stream: bytes that have been sent, its end, the
  // failure of a write, and its operations, each of which stays as it was started until it is over.
  ghost predicate MovedOn(s: WindowsAsyncStream, a: Standing, b: Standing, results: seq<(WindowsAsyncStream, Result)>, n: nat) {
    && (a.removing ==> b.removing) && (a.failed ==> b.failed) && a.aborts <= b.aborts && a.wire <= b.wire
    && (a.reading.Some? ==> b.reading == a.reading || Over(s, a, b, results, n, true))
    && (a.writing.Some? ==> b.writing == a.writing || Over(s, a, b, results, n, false))
  }

  lemma MovedOnSelf(s: WindowsAsyncStream, a: Standing, results: seq<(WindowsAsyncStream, Result)>, n: nat)
    ensures MovedOn(s, a, a, results, n)
  {
  }

  lemma MovedOnTwice(s: WindowsAsyncStream, a: Standing, b: Standing, c: Standing,
                     results: seq<(WindowsAsyncStream, Result)>, results': seq<(WindowsAsyncStream, Result)>, n: nat, n': nat)
    requires MovedOn(s, a, b, results, n) && MovedOn(s, b, c, results', n') && results <= results' && n <= n'
    ensures MovedOn(s, a, c, results', n)
  {
    hide Answered;
    forall reading | Answered(results, n, s, reading) ensures Answered(results', n, s, reading) {
      AnsweredLater(results, results', n, n, s, reading);
    }
    forall reading | Answered(results', n', s, reading) ensures Answered(results', n, s, reading) {
      AnsweredLater(results', results', n, n', s, reading);
    }
  }

  // The write is over, or goes on.
  lemma MovedOnWrite(s: WindowsAsyncStream, a: Standing, b: Standing, results: seq<(WindowsAsyncStream, Result)>, n: nat)
    requires a.wire <= b.wire && a.aborts <= b.aborts && (a.failed ==> b.failed)
    requires b == a.(writing := b.writing, wire := b.wire, aborts := b.aborts, failed := b.failed)
    requires b.writing == a.writing || Over(s, a, b, results, n, false)
    ensures MovedOn(s, a, b, results, n)
  {
  }

  // The retired streams that the system still has an operation of.
  ghost function Busy(streams: seq<WindowsAsyncStream>): (r: seq<WindowsAsyncStream>)
    reads streams`PendingCount
    ensures forall s :: s in r ==> s in streams && s.PendingCount > 0
    ensures forall s :: s in streams && s.PendingCount > 0 ==> s in r
  {
    if streams == [] then []
    else
      var rest := Busy(streams[..|streams| - 1]);
      var last := streams[|streams| - 1];
      assert streams == streams[..|streams| - 1] + [last];
      if last.PendingCount > 0 then rest + [last] else rest
  }

  lemma NoneBusy(streams: seq<WindowsAsyncStream>)
    requires forall s :: s in streams ==> s.PendingCount == 0
    ensures Busy(streams) == []
  {
  }

  // Of the first n streams the busy ones are left, and they are the first i.
  ghost predicate Cleaned(was: seq<WindowsAsyncStream>, n: nat, now: seq<WindowsAsyncStream>, i: nat)
    reads was`PendingCount
  {
    n <= |was| && i == |Busy(was[..n])| && now == Busy(was[..n]) + was[n..]
  }

  lemma CleanedNone(was: seq<WindowsAsyncStream>)
    ensures Cleaned(was, 0, was, 0)
  {
    assert was[..0] == [] && was[0..] == was;
  }

  lemma CleanedNext(was: seq<WindowsAsyncStream>, n: nat, now: seq<WindowsAsyncStream>, i: nat)
    requires Cleaned(was, n, now, i) && i < |now|
    ensures n < |was| && now[i] == was[n]
    ensures if now[i].PendingCount == 0 then Cleaned(was, n + 1, now[..i] + now[i + 1..], i)
            else Cleaned(was, n + 1, now, i + 1)
  {
    assert was[..n + 1][..n] == was[..n];
    assert was[n..] == [was[n]] + was[n + 1..];
    assert now[..i] == Busy(was[..n]) && now[i + 1..] == was[n + 1..];
  }

  lemma CleanedAll(was: seq<WindowsAsyncStream>, n: nat, now: seq<WindowsAsyncStream>)
    requires Cleaned(was, n, now, |now|)
    ensures now == Busy(was)
  {
    assert was[..n] == was;
  }

  class WindowsAsyncEngine {
    var Entries: map<nat, WindowsAsyncStream>
    var Retired: seq<WindowsAsyncStream>
    var PendingResults: seq<(WindowsAsyncStream, Result)>
    ghost var Known: set<WindowsAsyncStream>   // every stream ever added

    // The table holds exactly the streams that are not being removed, each
    // under its own socket; a removed one whose operations are not all over is
    // retired.
    ghost predicate Tabled()
      reads this`Entries, this`Retired, this`Known, Known`Skt, Known`Removing, Known`PendingCount
    {
      && (forall k :: k in Entries ==> Entries[k] in Known && Entries[k].Skt == k && !Entries[k].Removing)
      && (forall s :: s in Known && !s.Removing ==> s.Skt in Entries && Entries[s.Skt] == s)
      && (forall s :: s in Known && s.Removing && s.PendingCount > 0 ==> s in Retired)
      && (forall s :: s in Retired ==> s in Known && s.Removing)
    }

    ghost predicate Valid()
      reads this`Entries, this`Retired, this`Known, Known
    {
      Tabled() && forall s :: s in Known ==> s.Ok() && s.Freed()
    }

    twostate predicate Moved(s: WindowsAsyncStream)
      reads this`PendingResults, s
    {
      MovedOn(s, old(s.Now()), s.Now(), PendingResults, |old(PendingResults)|)
    }

    twostate predicate Later()
      reads this`Known, this`PendingResults, Known
    {
      && old(Known) <= Known && old(PendingResults) <= PendingResults
      && forall s :: s in old(Known) ==> Moved(s)
    }

    twostate lemma OneMoved(stream: WindowsAsyncStream)
      requires Known == old(Known) && old(PendingResults) <= PendingResults
      requires stream in Known && Moved(stream)
      requires forall s :: s in Known && s != stream ==> unchanged(s)
      ensures Later()
    {
      hide MovedOn;
      forall s | s in Known ensures Moved(s) {
        if s != stream {
          assert s.Now() == old(s.Now());
          MovedOnSelf(s, s.Now(), PendingResults, |old(PendingResults)|);
        }
      }
    }

    twostate lemma Untouched()
      requires old(Known) <= Known && unchanged(`PendingResults)
      requires forall s :: s in old(Known) ==> s.Now() == old(s.Now()).(removing := s.Removing || old(s.Removing))
      ensures Later()
    {
    }

    constructor ()
      ensures Valid() && Entries == map[] && Retired == [] && PendingResults == [] && Known == {}
    {
      Entries, Retired, PendingResults, Known := map[], [], [], {};
    }

    // No operation of the system outlives its stream.
    lemma PendingIsOwned(s: WindowsAsyncStream)
      requires Valid() && s in Known && (s.ReadPending || s.WritePending)
      ensures (s.Skt in Entries && Entries[s.Skt] == s) || s in Retired
      ensures s.PendingCount == Count(s.ReadPending) + Count(s.WritePending)
    {
    }

    // `usable`: the socket is attached to a handle that the port takes.
    method Add(socket: nat, usable: bool) returns (stream: WindowsAsyncStream?)
      requires Valid()
      modifies this`Entries, this`Known
      ensures Valid()
      ensures stream != null <==> usable && socket !in old(Entries)
      ensures stream != null ==>
                && fresh(stream) && stream.Skt == socket && !stream.Removing && stream.PendingCount == 0
                && !stream.ReadPending && !stream.WritePending && !stream.WriteFailed && !stream.ReadClosed
                && Entries == old(Entries)[socket := stream] && Known == old(Known) + {stream}
      ensures stream == null ==> unchanged(this)
      ensures Later()
    {
      hide WindowsAsyncStream.Ok;
      if !usable {
        return null;
      }
      if socket in Entries {
        return null;
      }
      stream := new WindowsAsyncStream(socket);
      Entries := Entries[socket := stream];
      Known := Known + {stream};
    }

    // `sameHandle`: both sockets are attached, and to the same handle.
    method RebindSocket(stream: WindowsAsyncStream, socket: nat, sameHandle: bool) returns (ok: bool)
      requires Valid() && stream in Known
      modifies this`Entries, stream`Skt
      ensures Valid() && Later()
      ensures ok <==> sameHandle && (old(stream.Skt) == socket || (!stream.Removing && socket !in old(Entries)))
      ensures ok ==> stream.Skt == socket
      ensures ok && old(stream.Skt) != socket ==> Entries == (old(Entries) - {old(stream.Skt)})[socket := stream]
      ensures !ok || old(stream.Skt) == socket ==> Entries == old(Entries) && stream.Skt == old(stream.Skt)
    {
      hide Valid, MovedOn, WindowsAsyncStream.Ok;
      StreamFacts(stream);
      Untouched();
      if !sameHandle {
        return false;
      }
      var oldSocket := stream.Skt;
      if oldSocket == socket {
        return true;
      }
      if oldSocket !in Entries || Entries[oldSocket] != stream {
        return false;
      }
      if socket in Entries {
        return false;
      }
      MoveEntry(stream, socket);
      Untouched();
      return true;
    }

    method MoveEntry(stream: WindowsAsyncStream, socket: nat)
      requires Valid() && stream.Skt in Entries && Entries[stream.Skt] == stream && socket !in Entries
      modifies this`Entries, stream`Skt
      ensures Valid() && stream.Skt == socket && Entries == (old(Entries) - {old(stream.Skt)})[socket := stream]
    {
      hide WindowsAsyncStream.Ok, WindowsAsyncStream.Freed;
      Entries := Entries - {stream.Skt};
      stream.Skt := socket;
      Entries := Entries[socket := stream];
    }

    method Retire(stream: WindowsAsyncStream)
      requires Valid() && stream.Skt in Entries && Entries[stream.Skt] == stream
      modifies this`Entries, this`Retired, stream`Removing
      ensures Valid()
      ensures stream.Removing && Entries == old(Entries) - {stream.Skt}
      ensures Retired == old(Retired) + [stream]
    {
      hide WindowsAsyncStream.Ok;
      stream.Removing := true;
      Retired := Retired + [stream];
      Entries := Entries - {stream.Skt};
    }

    // Frees the retired streams that have nothing outstanding, and no others.
    method CleanupRetired()
      requires Valid()
      modifies this`Retired
      ensures Valid() && Retired == Busy(old(Retired))
    {
      hide Valid, Busy, Cleaned;
      var i := 0;
      ghost var was := Retired;
      ghost var n := 0;   // how many of them have been looked at
      CleanedNone(was);
      while i < |Retired|
        invariant 0 <= i <= |Retired| && 0 <= n <= |was|
        invariant Cleaned(was, n, Retired, i)
        decreases |was| - n
      {
        CleanedNext(was, n, Retired, i);
        if Retired[i].PendingCount == 0 {
          Retired := Retired[..i] + Retired[i + 1..];
        } else {
          i := i + 1;
        }
        n := n + 1;
      }
      CleanedAll(was, n, Retired);
      StillTabled();
    }

    twostate lemma StillTabled()
      requires old(Valid()) && Retired == Busy(old(Retired)) && unchanged(`Entries) && unchanged(`Known)
      requires unchanged(Known)
      ensures Valid()
    {
    }

    // Whatever stream is registered with the socket is retired: this one, if it
    // has not been removed before, and otherwise one that has taken its place.
    method Remove(stream: WindowsAsyncStream) returns (ok: bool)
      requires Valid() && stream in Known
      modifies this`Entries, this`Retired, Known`Removing
      ensures Valid() && Later()
      ensures ok <==> old(stream.Skt in Entries)
      ensures Entries == old(Entries) - {stream.Skt}
      ensures ok ==> (old(Entries[stream.Skt]) == stream <==> !old(stream.Removing))
      ensures forall s :: s in Known ==> (s.Removing <==> old(s.Removing) || (ok && s == old(Entries[stream.Skt])))
      ensures if ok then forall s :: s in Retired ==> s.PendingCount > 0 else Retired == old(Retired)
    {
      hide WindowsAsyncStream.Ok;
      if stream.Skt !in Entries {
        Untouched();
        return false;
      }
      Retire(Entries[stream.Skt]);
      CleanupRetired();
      Untouched();
      return true;
    }

    method QueueResult(stream: WindowsAsyncStream, op: Operation, data: seq<byte>, bytes: nat, error: int)
      modifies this`PendingResults
      ensures PendingResults == old(PendingResults)
                                + if stream.Removing then []
                                  else [(stream, Result(op, data, bytes, error, if op.Error? then Transport else NoOrigin))]
    {
      if stream.Removing {
        return;
      }
      PendingResults := PendingResults + [(stream, Result(op, data, bytes, error, if op.Error? then Transport else NoOrigin))];
    }

    // The system has refused an operation of the stream, and that is the result.
    twostate predicate Refused(stream: WindowsAsyncStream)
      reads this`PendingResults, stream`Refusals
    {
      && |PendingResults| > |old(PendingResults)|
      && var (s, r) := PendingResults[|old(PendingResults)|];
         s == stream && r.op.Error? && stream.Refusals == old(stream.Refusals) + [r.error]
    }

    // The system takes the read, or it ends with an error.
    method PostRead(stream: WindowsAsyncStream)
      requires stream.Ok() && !stream.Removing && !stream.ReadPending && !stream.ReadClosed
      requires stream.ReadBuffer.Some? && 0 < stream.ReadBuffer.value
      modifies this`PendingResults, stream`ReadPending, stream`PendingCount, stream`ReadBuffer
      modifies stream`Refusals
      ensures stream.Ok()
      ensures stream.ReadPending ==>
                && PendingResults == old(PendingResults) && stream.ReadBuffer == old(stream.ReadBuffer)
                && stream.Refusals == old(stream.Refusals)
      ensures !stream.ReadPending ==>
                && stream.ReadBuffer == None
                && |PendingResults| == |old(PendingResults)| + 1
                && PendingResults[..|old(PendingResults)|] == old(PendingResults)
                && Refused(stream)
    {
      stream.ReadPending := true;
      stream.PendingCount := stream.PendingCount + 1;
      var taken, error := stream.Submit();
      if !taken {
        stream.ReadPending := false;
        if stream.PendingCount != 0 {
          stream.PendingCount := stream.PendingCount - 1;
        }
        stream.ReadBuffer := None;
        QueueResult(stream, Error, [], 0, error);
      }
    }

    // The system takes the next vector of the write, or it ends with an error.
    method PostWrite(stream: WindowsAsyncStream)
      requires stream.Ok() && !stream.Removing && !stream.WritePending && stream.WriteOffset < stream.WriteSize
      modifies this`PendingResults, stream`WritePending, stream`PendingCount, stream`Posted, stream`Refusals
      modifies stream`WriteBuffers, stream`WriteOffset, stream`WriteSize
      ensures stream.Ok()
      ensures stream.WritePending ==>
                && PendingResults == old(PendingResults) && stream.WriteBuffers == old(stream.WriteBuffers)
                && stream.WriteOffset == old(stream.WriteOffset) && stream.WriteSize == old(stream.WriteSize)
                && stream.Refusals == old(stream.Refusals)
      ensures !stream.WritePending ==>
                && stream.WriteBuffers == [] && stream.WriteSize == 0
                && |PendingResults| == |old(PendingResults)| + 1
                && PendingResults[..|old(PendingResults)|] == old(PendingResults)
                && Refused(stream)
    {
      var vector := stream.NextVector();
      hide Partial;
      stream.WritePending := true;
      stream.PendingCount := stream.PendingCount + 1;
      stream.Posted := Flatten(vector);
      var taken, error := stream.Submit();
      if !taken {
        stream.WritePending := false;
        if stream.PendingCount != 0 {
          stream.PendingCount := stream.PendingCount - 1;
        }
        stream.ClearWrite();
        QueueResult(stream, Error, [], 0, error);
      }
    }

    // What happens to the operations of one stream leaves the table as it is.
    twostate lemma OneChanged(stream: WindowsAsyncStream)
      requires old(Valid()) && stream in Known && stream.Ok() && stream.Freed()
      requires unchanged(`Entries) && unchanged(`Known) && unchanged(`Retired)
      requires stream.Skt == old(stream.Skt) && stream.Removing == old(stream.Removing)
      requires stream.Removing ==> stream.PendingCount <= old(stream.PendingCount)
      requires forall s :: s in Known && s != stream ==> unchanged(s)
      ensures Valid()
    {
      forall s | s in Known && s != stream ensures s.Ok() && s.Freed() {
        assert old(s.Ok() && s.Freed());
      }
    }

    lemma StreamFacts(stream: WindowsAsyncStream)
      requires Valid() && stream in Known
      ensures stream.Ok() && stream.Freed()
      ensures !stream.Removing ==> stream.Skt in Entries && Entries[stream.Skt] == stream
      ensures stream.Removing && stream.PendingCount > 0 ==> stream in Retired
      ensures stream.Skt in Entries && Entries[stream.Skt] == stream ==> !stream.Removing
    {
    }

    method StartRead(stream: WindowsAsyncStream, buffer: Option<nat>) returns (ok: bool)
      requires Valid() && stream in Known
      modifies this`PendingResults, stream`ReadBuffer, stream`ReadPending, stream`PendingCount, stream`Refusals
      ensures Valid() && Later()
      ensures ok <==> buffer.Some? && buffer.value > 0
                      && !old(stream.Removing || stream.ReadPending || stream.ReadClosed)
      ensures !ok ==> unchanged(this) && unchanged(stream)
      ensures ok ==> stream.ReadPending || (|PendingResults| == |old(PendingResults)| + 1 && Refused(stream))
    {
      StreamFacts(stream);
      hide Valid, MovedOn, WindowsAsyncStream.Ok;
      Untouched();
      if buffer == None || buffer.value == 0 {
        return false;
      }
      if stream.Removing || stream.ReadPending || stream.ReadClosed {
        return false;
      }
      BeginRead(stream, buffer);
      OneChanged(stream);
      OneMoved(stream);
      return true;
    }

    method BeginRead(stream: WindowsAsyncStream, buffer: Option<nat>)
      requires stream.Ok() && !stream.Removing && !stream.ReadPending && !stream.ReadClosed
      requires buffer.Some? && 0 < buffer.value
      modifies this`PendingResults, stream`ReadBuffer, stream`ReadPending, stream`PendingCount, stream`Refusals
      ensures stream.Ok() && Moved(stream) && old(PendingResults) <= PendingResults
      ensures stream.ReadPending ==> stream.ReadBuffer == buffer && PendingResults == old(PendingResults)
      ensures !stream.ReadPending ==> |PendingResults| == |old(PendingResults)| + 1 && Refused(stream)
    {
      hide WindowsAsyncStream.WriteOk;
      stream.ReadBuffer := buffer;
      PostRead(stream);
    }

    // A write that failed leaves its chain, and no other write is taken.
    method StartWrite(stream: WindowsAsyncStream, buffers: Chain) returns (ok: bool)
      requires Valid() && stream in Known && ValidChain(buffers)
      modifies this`PendingResults, stream
      ensures Valid() && Later()
      ensures ok <==> buffers != [] && !old(stream.Removing || stream.WritePending || stream.WriteFailed)
      ensures stream.WriteFailed == old(stream.WriteFailed) && stream.Removing == old(stream.Removing)
      ensures !ok ==> unchanged(this) && unchanged(stream)
      ensures ok ==>
                && (stream.WritePending ==> stream.WriteBuffers == buffers && PendingResults == old(PendingResults))
                && (!stream.WritePending ==> |PendingResults| == |old(PendingResults)| + 1 && Refused(stream))
    {
      StreamFacts(stream);
      hide Valid, MovedOn, WindowsAsyncStream.Ok;
      Untouched();
      if buffers == [] {
        return false;
      }
      if stream.Removing || stream.WritePending || stream.WriteSize != 0 {
        return false;
      }
      BeginWrite(stream, buffers);
      OneChanged(stream);
      OneMoved(stream);
      return true;
    }

    method BeginWrite(stream: WindowsAsyncStream, buffers: Chain)
      requires stream.Ok() && !stream.Removing && !stream.WritePending && buffers != [] && ValidChain(buffers)
      modifies this`PendingResults, stream`WritePending, stream`PendingCount, stream`Posted, stream`Refusals
      modifies stream`WriteBuffers, stream`WriteOffset, stream`WriteSize, stream`WriteBase
      ensures stream.Ok() && (!stream.WritePending ==> stream.WriteSize == 0)
      ensures Moved(stream) && old(PendingResults) <= PendingResults
      ensures stream.WritePending ==> stream.WriteBuffers == buffers && PendingResults == old(PendingResults)
      ensures !stream.WritePending ==> |PendingResults| == |old(PendingResults)| + 1 && Refused(stream)
    {
      hide Partial;
      NotEmpty(buffers);
      PartialStart(buffers, stream.Wire);
      stream.WriteBuffers, stream.WriteOffset := buffers, 0;
      stream.WriteSize := |Flatten(buffers)|;
      stream.WriteBase := |stream.Wire|;
      PostWrite(stream);
    }

    // A read that the system has completed, with `data`.
    method CompleteRead(stream: WindowsAsyncStream, data: seq<byte>)
      requires stream.Ok() && !stream.Removing && !stream.ReadPending && stream.ReadBuffer.Some?
      modifies this`PendingResults, stream`ReadBuffer, stream`ReadClosed
      ensures stream.Ok() && stream.ReadBuffer == None
      ensures stream.ReadClosed == (old(stream.ReadClosed) || data == [])
      ensures PendingResults == old(PendingResults)
                                + [(stream, if data == [] then Result(ReadClosed, [], 0, 0, NoOrigin)
                                            else Result(Read, data, |data|, 0, NoOrigin))]
    {
      stream.ReadBuffer := None;
      if data == [] {
        stream.ReadClosed := true;
        QueueResult(stream, ReadClosed, [], 0, 0);
        return;
      }
      QueueResult(stream, Read, data, |data|, 0);
    }

    // A write of which the system has sent the next `bytes`: the rest goes out,
    // or it is over and its one result is the size of the whole chain.
    method CompleteWrite(stream: WindowsAsyncStream, bytes: nat)
      requires stream.Ok() && !stream.Removing && !stream.WritePending && stream.WriteOffset < stream.WriteSize
      requires bytes <= |stream.Posted| <= stream.WriteSize - stream.WriteOffset && stream.WriteBuffers != []
      requires stream.Posted == Flatten(stream.WriteBuffers)[stream.WriteOffset..stream.WriteOffset + |stream.Posted|]
      modifies this`PendingResults, stream`WritePending, stream`PendingCount, stream`Posted, stream`Refusals
      modifies stream`WriteBuffers, stream`WriteOffset, stream`WriteSize, stream`Wire
      ensures stream.Ok() && old(stream.Wire) <= stream.Wire
      ensures stream.WritePending ==>
                && PendingResults == old(PendingResults) && stream.WriteBuffers == old(stream.WriteBuffers)
                && stream.WriteOffset == old(stream.WriteOffset) + bytes && bytes > 0
                && stream.Refusals == old(stream.Refusals)
      ensures !stream.WritePending ==>
                && stream.WriteBuffers == [] && stream.WriteSize == 0
                && |PendingResults| == |old(PendingResults)| + 1
                && PendingResults[..|old(PendingResults)|] == old(PendingResults)
                && var (s, r) := PendingResults[|old(PendingResults)|];
                   && s == stream && WriteOutcome(r, bytes, old(stream.WriteSize - stream.WriteOffset),
                                                  old(stream.Refusals), stream.Refusals)
                   && AllWritten(r, old(stream.WriteBuffers), stream.Wire, stream.WriteBase)
    {
      if bytes == 0 && stream.WriteSize != 0 {
        stream.ClearWrite();
        QueueResult(stream, Error, [], 0, WSAECONNRESET);
        return;
      }
      ghost var sent := stream.Posted[..bytes];
      assert sent == Flatten(stream.WriteBuffers)[stream.WriteOffset..stream.WriteOffset + bytes];
      PartialAdvance(stream.WriteBuffers, stream.WriteSize, stream.WriteOffset, stream.Wire, stream.WriteBase, sent, bytes,
                     stream.Wire + sent[..bytes]);
      stream.Wire := stream.Wire + sent[..bytes];
      stream.WriteOffset := stream.WriteOffset + bytes;
      if stream.WriteOffset < stream.WriteSize {
        PostWrite(stream);
        return;
      }
      var total := stream.WriteSize;
      stream.ClearWrite();
      QueueResult(stream, Write, [], total, 0);
    }

    // The system completes one of the operations it has: its stream is always
    // found, and freed at once if it was only waiting for this.
    method ProcessReadCompletion(stream: WindowsAsyncStream, ok: bool, data: seq<byte>, error: int)
      requires Valid() && stream in Known && stream.ReadPending && |data| <= stream.ReadBuffer.value
      modifies this`PendingResults, this`Retired
      modifies stream`ReadPending, stream`PendingCount, stream`ReadBuffer, stream`ReadClosed, stream`Aborts
      ensures Valid() && Later()
      ensures !stream.ReadPending && stream.PendingCount == old(stream.PendingCount) - 1
      ensures PendingResults == old(PendingResults)
                || |PendingResults| == |old(PendingResults)| + 1
      ensures stream.Removing || (!ok && error == ERROR_OPERATION_ABORTED) <==> PendingResults == old(PendingResults)
      ensures !stream.Removing && !ok && error != ERROR_OPERATION_ABORTED ==>
                PendingResults == old(PendingResults) + [(stream, Result(Error, [], 0, error, Transport))]
      ensures !stream.Removing && ok ==>
                PendingResults == old(PendingResults)
                                  + [(stream, if data == [] then Result(ReadClosed, [], 0, 0, NoOrigin)
                                              else Result(Read, data, |data|, 0, NoOrigin))]
      ensures stream.Removing && stream.PendingCount == 0 ==> stream !in Retired
    {
      StreamFacts(stream);
      hide Valid, Moved, Later, AllWritten, WindowsAsyncStream.Ok;
      Found(stream);
      var found := Find(stream);
      if !found {
        return;
      }
      EndRead(stream, ok, data, error);
      OneChanged(stream);
      OneMoved(stream);
      CleanupRetired();
    }

    lemma Found(stream: WindowsAsyncStream)
      requires Valid() && stream in Known && (stream.ReadPending || stream.WritePending)
      ensures stream.Skt in Entries || stream in Retired
    {
    }

    method EndRead(stream: WindowsAsyncStream, ok: bool, data: seq<byte>, error: int)
      requires stream.Ok() && stream.ReadPending && |data| <= stream.ReadBuffer.value
      modifies this`PendingResults
      modifies stream`ReadPending, stream`PendingCount, stream`ReadBuffer, stream`ReadClosed, stream`Aborts
      ensures stream.Ok() && Moved(stream) && old(PendingResults) <= PendingResults
      ensures !stream.ReadPending && stream.PendingCount == old(stream.PendingCount) - 1
      ensures |PendingResults| == |old(PendingResults)| + Count(!stream.Removing && (ok || error != ERROR_OPERATION_ABORTED))
      ensures !stream.Removing && !ok && error != ERROR_OPERATION_ABORTED ==>
                PendingResults == old(PendingResults) + [(stream, Result(Error, [], 0, error, Transport))]
      ensures !stream.Removing && ok ==>
                PendingResults == old(PendingResults)
                                  + [(stream, if data == [] then Result(ReadClosed, [], 0, 0, NoOrigin)
                                              else Result(Read, data, |data|, 0, NoOrigin))]
    {
      hide WindowsAsyncStream.WriteOk, Answered;
      stream.ReadPending := false;
      if stream.PendingCount != 0 {
        stream.PendingCount := stream.PendingCount - 1;
      }
      if stream.Removing {
        return;
      }
      if !ok {
        stream.Aborts := stream.Aborts + Count(error == ERROR_OPERATION_ABORTED);
        if error != ERROR_OPERATION_ABORTED {
          QueueResult(stream, Error, [], 0, error);
          AnsweredBy(PendingResults, |old(PendingResults)|, stream, true);
        }
        return;
      }
      CompleteRead(stream, data);
      AnsweredBy(PendingResults, |old(PendingResults)|, stream, true);
    }

    // How a completed write ends: with one result, or without one if it was
    // cancelled, or its stream removed, or the rest of it has gone out.
    twostate predicate WriteEnded(stream: WindowsAsyncStream, ok: bool, bytes: nat, error: int)
      reads this`PendingResults, stream
    {
      && stream.Skt == old(stream.Skt) && stream.Removing == old(stream.Removing)
      && stream.ReadPending == old(stream.ReadPending) && stream.ReadBuffer == old(stream.ReadBuffer)
      && stream.PendingCount == old(stream.PendingCount) - 1 + Count(stream.WritePending)
      // a write that failed keeps its chain, and with it the stream
      && stream.WriteFailed == (old(stream.WriteFailed) || (!stream.Removing && !ok))
      && (!stream.Removing && !stream.WritePending ==> (stream.WriteSize != 0 <==> !ok))
      && (!stream.Removing && !ok ==>
            stream.WriteBuffers == old(stream.WriteBuffers) && stream.WriteOffset == old(stream.WriteOffset))
      && (stream.WritePending ==> !stream.Removing && ok && stream.WriteOffset == old(stream.WriteOffset) + bytes)
      && if stream.Removing || (!ok && error == ERROR_OPERATION_ABORTED) || stream.WritePending then
           PendingResults == old(PendingResults)
         else
           && |PendingResults| == |old(PendingResults)| + 1
           && PendingResults[..|old(PendingResults)|] == old(PendingResults)
           && var (s, r) := PendingResults[|old(PendingResults)|];
              && s == stream
              && (if ok then WriteOutcome(r, bytes, old(stream.WriteSize - stream.WriteOffset),
                                          old(stream.Refusals), stream.Refusals)
                  else r.op.Error? && r.error == error && stream.Refusals == old(stream.Refusals))
              && AllWritten(r, old(stream.WriteBuffers), stream.Wire, stream.WriteBase)
    }

    method ProcessWriteCompletion(stream: WindowsAsyncStream, ok: bool, bytes: nat, error: int)
      requires Valid() && stream in Known && stream.WritePending && bytes <= |stream.Posted|
      modifies this`PendingResults, this`Retired, stream
      ensures Valid() && Later() && WriteEnded(stream, ok, bytes, error)
      ensures stream.Removing && stream.PendingCount == 0 ==> stream !in Retired
    {
      StreamFacts(stream);
      hide Valid, Moved, Later, AllWritten, WindowsAsyncStream.Ok;
      Found(stream);
      var found := Find(stream);
      if !found {
        return;
      }
      EndWrite(stream, ok, bytes, error);
      OneChanged(stream);
      OneMoved(stream);
      CleanupRetired();
    }

    method EndWrite(stream: WindowsAsyncStream, ok: bool, bytes: nat, error: int)
      requires stream.Ok() && stream.Freed() && stream.WritePending && bytes <= |stream.Posted|
      modifies this`PendingResults, stream
      ensures stream.Ok() && stream.Freed() && Moved(stream) && old(PendingResults) <= PendingResults
      ensures WriteEnded(stream, ok, bytes, error)
    {
      hide WindowsAsyncStream.Ok, WindowsAsyncStream.Freed, WriteEnded, Over, MovedOn;
      EndOne(stream, ok, bytes, error);
      MovedOnWrite(stream, old(stream.Now()), stream.Now(), PendingResults, |old(PendingResults)|);
    }

    method EndOne(stream: WindowsAsyncStream, ok: bool, bytes: nat, error: int)
      requires stream.Ok() && stream.Freed() && stream.WritePending && bytes <= |stream.Posted|
      modifies this`PendingResults, stream
      ensures stream.Ok() && stream.Freed() && old(PendingResults) <= PendingResults
      ensures WriteEnded(stream, ok, bytes, error)
      ensures var (a, b) := (old(stream.Now()), stream.Now());
              && a.wire <= b.wire && a.aborts <= b.aborts && (a.failed ==> b.failed)
              && b == a.(writing := b.writing, wire := b.wire, aborts := b.aborts, failed := b.failed)
              && (b.writing == a.writing || Over(stream, a, b, PendingResults, |old(PendingResults)|, false))
    {
      hide Partial, Answered, WriteOutcome, Flatten, ValidChain;
      stream.WritePending := false;
      if stream.PendingCount != 0 {
        stream.PendingCount := stream.PendingCount - 1;
      }
      if stream.Removing {
        return;
      }
      if !ok {
        FailWrite(stream, error);
        return;
      }
      CompleteWrite(stream, bytes);
      if !stream.WritePending {
        AnsweredBy(PendingResults, |old(PendingResults)|, stream, false);
      }
    }

    method FailWrite(stream: WindowsAsyncStream, error: int)
      requires !stream.Removing
      modifies this`PendingResults, stream`WriteFailed, stream`Aborts
      ensures stream.WriteFailed && stream.Aborts == old(stream.Aborts) + Count(error == ERROR_OPERATION_ABORTED)
      ensures PendingResults == old(PendingResults)
                                + if error == ERROR_OPERATION_ABORTED then []
                                  else [(stream, Result(Error, [], 0, error, Transport))]
      ensures error != ERROR_OPERATION_ABORTED ==> Answered(PendingResults, |old(PendingResults)|, stream, false)
    {
      stream.WriteFailed := true;
      stream.Aborts := stream.Aborts + Count(error == ERROR_OPERATION_ABORTED);
      if error != ERROR_OPERATION_ABORTED {
        QueueResult(stream, Error, [], 0, error);
        AnsweredBy(PendingResults, |old(PendingResults)|, stream, false);
      }
    }

    // The completion finds the stream registered with the socket, or this one
    // among the retired.
    method Find(stream: WindowsAsyncStream) returns (found: bool)
      ensures found <==> stream.Skt in Entries || stream in Retired
    {
      if stream.Skt in Entries {
        return true;
      }
      found := false;
      var i := 0;
      while i < |Retired|
        invariant 0 <= i <= |Retired| && stream !in Retired[..i]
      {
        if Retired[i] == stream {
          return true;
        }
        i := i + 1;
      }
      assert Retired[..|Retired|] == Retired;
    }

    // The system reports the end of one of the operations that it has.
    method Complete(stream: WindowsAsyncStream, c: Completion)
      requires Valid() && stream in Known
      modifies this`PendingResults, this`Retired, stream
      ensures Valid() && Later() && stream.Removing == old(stream.Removing)
      ensures !old(stream.Ends(c)) ==> unchanged(this) && unchanged(stream)
      ensures c.ReadDone? ==>
                && (old(stream.Ends(c)) ==> !stream.ReadPending)
                && stream.WritePending == old(stream.WritePending) && stream.Posted == old(stream.Posted)
      ensures c.WriteDone? ==>
                && (old(stream.Ends(c)) && stream.Removing ==> !stream.WritePending)
                && stream.ReadPending == old(stream.ReadPending) && stream.ReadBuffer == old(stream.ReadBuffer)
    {
      hide Valid, Later, Moved, WindowsAsyncStream.Ok;
      if !stream.Ends(c) {
        Untouched();
        return;
      }
      match c
      case ReadDone(ok, data, error) => ProcessReadCompletion(stream, ok, data, error);
      case WriteDone(ok, bytes, error) => ProcessWriteCompletion(stream, ok, bytes, error);
    }

    method HasPendingRetired() returns (pending: bool)
      ensures pending <==> exists s :: s in Retired && s.PendingCount != 0
    {
      for i := 0 to |Retired|
        invariant forall j :: 0 <= j < i ==> Retired[j].PendingCount == 0
      {
        if Retired[i].PendingCount != 0 {
          return true;
        }
      }
      return false;
    }

    // Retires every stream, waits for what the system still has, whatever
    // `completions` it reports, and drops the results. It is over exactly when
    // the system has no operation of any stream.
    method ShutdownAll(completions: seq<(WindowsAsyncStream, Completion)>) returns (over: bool)
      requires Valid() && forall c :: c in completions ==> c.0 in Known
      modifies this`Entries, this`Retired, this`PendingResults, Known
      ensures Valid() && Known == old(Known) && Entries == map[] && forall s :: s in Known ==> s.Removing
      ensures over <==> forall s :: s in Known ==> !s.ReadPending && !s.WritePending
      ensures over ==> Retired == [] && PendingResults == []
      // it is over if the system reports the end of all it has
      ensures old(forall s :: s in Known ==> EndsIn(s, completions, 0)) ==> over
    {
      hide EndsIn, WindowsAsyncStream.Ok, WindowsAsyncStream.Freed;
      RetireAll();
      over := Drain(completions);
      OverIff();
      if over {
        NoneBusy(Retired);
        CleanupRetired();
        PendingResults := [];
      }
    }

    method RetireAll()
      requires Valid()
      modifies this`Entries, this`Retired, Known`Removing
      ensures Valid() && Entries == map[] && forall s :: s in Known ==> s.Removing
      ensures forall s :: s in Retired ==> s.PendingCount > 0
    {
      hide WindowsAsyncStream.Ok;
      while |Entries| > 0
        invariant Valid() && Known == old(Known)
        decreases |Entries|
      {
        var k :| k in Entries;
        Retire(Entries[k]);
      }
      CleanupRetired();
    }

    method Drain(completions: seq<(WindowsAsyncStream, Completion)>) returns (over: bool)
      requires Valid() && Entries == map[] && forall s :: s in Known ==> s.Removing
      requires forall c :: c in completions ==> c.0 in Known
      modifies this`Retired, this`PendingResults, Known
      ensures Valid() && forall s :: s in Known ==> s.Removing
      ensures over <==> forall s :: s in Retired ==> s.PendingCount == 0
      ensures old(forall s :: s in Known ==> EndsIn(s, completions, 0)) ==> over
    {
      hide Valid, Later;
      var i := 0;
      var pending := HasPendingRetired();
      while pending && i < |completions|
        invariant 0 <= i <= |completions| && Valid() && forall s :: s in Known ==> s.Removing
        invariant pending <==> exists s :: s in Retired && s.PendingCount != 0
        invariant old(forall s :: s in Known ==> EndsIn(s, completions, 0)) ==>
                    forall s :: s in Known ==> EndsIn(s, completions, i)
      {
        Complete(completions[i].0, completions[i].1);
        pending := HasPendingRetired();
        i := i + 1;
      }
      NothingLeft(completions);
      return !pending;
    }

    // The end of every operation of the stream comes in these completions, from
    // the i-th on.
    ghost predicate EndsIn(s: WindowsAsyncStream, completions: seq<(WindowsAsyncStream, Completion)>, i: nat)
      reads s`ReadPending, s`ReadBuffer, s`WritePending, s`Posted
    {
      && (s.ReadPending ==>
            exists j :: i <= j < |completions| && completions[j].0 == s && completions[j].1.ReadDone? && s.Ends(completions[j].1))
      && (s.WritePending ==>
            exists j :: i <= j < |completions| && completions[j].0 == s && completions[j].1.WriteDone? && s.Ends(completions[j].1))
    }

    lemma NothingLeft(completions: seq<(WindowsAsyncStream, Completion)>)
      requires Valid()
      ensures (forall s :: s in Known ==> EndsIn(s, completions, |completions|)) ==>
                forall s :: s in Retired ==> s.PendingCount == 0
    {
      if forall s :: s in Known ==> EndsIn(s, completions, |completions|) {
        forall s | s in Retired ensures s.PendingCount == 0 {
          assert s in Known && s.Ok() && EndsIn(s, completions, |completions|);
        }
      }
    }

    lemma OverIff()
      requires Valid() && forall s :: s in Known ==> s.Removing
      ensures (forall s :: s in Retired ==> s.PendingCount == 0) <==>
              (forall s :: s in Known ==> !s.ReadPending && !s.WritePending)
    {
      forall s | s in Known ensures s.PendingCount == Count(s.ReadPending) + Count(s.WritePending) {
        assert s.Ok();
      }
    }

    // ----- All runs

    // `streams` is what the caller has of the engine's streams; a call names
    // one of them by its place.
    // What a call has come to.
    ghost predicate Did(call: Call, streams: seq<WindowsAsyncStream>)
      reads this`Entries, this`PendingResults, streams
    {
      match call
      case Add(socket, usable) => usable ==> socket in Entries
      case Use(i, use) => i < |streams| ==> Used(streams[i], use)
    }

    ghost predicate Used(stream: WindowsAsyncStream, use: Use)
      reads this`Entries, this`PendingResults, stream
    {
      match use
      case Rebind(socket, sameHandle) => !sameHandle || stream.Skt == socket || stream.Removing || socket in Entries
      case Remove() => stream.Removing && stream.Skt !in Entries
      case StartRead(buffer) =>
        || buffer == None || buffer.value == 0 || stream.Removing || stream.ReadClosed
        || stream.ReadPending || PendingResults != []
      case StartWrite(buffers) =>
        buffers == [] || stream.Removing || stream.WriteFailed || stream.WritePending || PendingResults != []
      case Complete(c) => c.ReadDone? || stream.Removing ==> !stream.Ends(c)
    }

    method Do(call: Call, streams: seq<WindowsAsyncStream>) returns (more: seq<WindowsAsyncStream>)
      requires Valid() && call.Valid() && forall s :: s in streams ==> s in Known
      modifies this`Entries, this`Retired, this`Known, this`PendingResults, Known
      ensures Valid() && Later() && fresh(Known - old(Known)) && Did(call, more)
      ensures streams <= more && forall s :: s in more ==> s in Known
      ensures call.Add? && call.usable && call.socket !in old(Entries) ==> Entries[call.socket] in more
    {
      hide Valid, Moved;
      more := streams;
      Untouched();
      match call
      case Add(socket, usable) =>
        var stream := Add(socket, usable);
        if stream != null {
          more := streams + [stream];
        }
      case Use(i, use) =>
        if i < |streams| {
          UseStream(streams[i], use);
        }
    }

    method UseStream(stream: WindowsAsyncStream, use: Use)
      requires Valid() && stream in Known && use.Valid()
      modifies this`Entries, this`Retired, this`PendingResults, Known
      ensures Valid() && Later() && Used(stream, use)
    {
      StreamFacts(stream);
      hide Valid, Moved, Later, WindowsAsyncStream.Ok;
      match use
      case Rebind(socket, sameHandle) => var _ := RebindSocket(stream, socket, sameHandle);
      case Remove => var _ := Remove(stream);
      case StartRead(buffer) => var _ := StartRead(stream, buffer);
      case StartWrite(buffers) => var _ := StartWrite(stream, buffers);
      case Complete(c) => Complete(stream, c);
    }

    // Any calls and completions, in any order, with any behaviour of the system.
    method Run(calls: seq<Call>, streams: seq<WindowsAsyncStream>) returns (all: seq<WindowsAsyncStream>)
      requires Valid() && (forall c :: c in calls ==> c.Valid()) && forall s :: s in streams ==> s in Known
      modifies this`Entries, this`Retired, this`Known, this`PendingResults, Known
      ensures Valid() && Later()
      ensures streams <= all && (calls != [] ==> Did(calls[|calls| - 1], all))
    {
      hide Valid, MovedOn, Did;
      Untouched();
      all := streams;
      for i := 0 to |calls|
        invariant Valid() && Later() && fresh(Known - old(Known))
        invariant streams <= all && forall s :: s in all ==> s in Known
        invariant i > 0 ==> Did(calls[i - 1], all)
      {
        label before:
        all := Do(calls[i], all);
        forall s | s in old(Known) ensures Moved(s) {
          MovedOnTwice(s, old(s.Now()), old@before(s.Now()), s.Now(), old@before(PendingResults), PendingResults,
                       |old(PendingResults)|, |old@before(PendingResults)|);
        }
      }
    }
  }

  // What the system may report of an operation: its end, or that it failed or
  // was cancelled.
  datatype Completion =
    | ReadDone(ok: bool, data: seq<byte>, error: int)
    | WriteDone(ok: bool, bytes: nat, error: int)

  datatype Use =
    | Rebind(socket: nat, sameHandle: bool)
    | Remove
    | StartRead(buffer: Option<nat>)
    | StartWrite(buffers: Chain)
    | Complete(c: Completion)
  {
    predicate Valid() {
      StartWrite? ==> ValidChain(buffers)
    }
  }

  datatype Call = Add(socket: nat, usable: bool) | Use(i: nat, use: Use)
  {
    predicate Valid() {
      Use? ==> use.Valid()
    }
  }

  // A stream that is removed twice takes along one that was added for the same
  // socket in between.
  method RemoveTwiceTakesAnother(socket: nat) returns (engine: WindowsAsyncEngine, other: WindowsAsyncStream?)
    ensures engine.Valid() && other != null && other in engine.Known && other.Removing && engine.Entries == map[]
  {
    hide WindowsAsyncEngine.Valid, WindowsAsyncEngine.Later;
    engine := new WindowsAsyncEngine();
    var stream := engine.Add(socket, true);
    var ok := engine.Remove(stream);
    other := engine.Add(socket, true);
    assert !other.Removing;
    ok := engine.Remove(stream);
  }

  // The system takes the first write and completes it with an error: the second
  // one is refused, on a stream that has no write and is not being removed. Had
  // the system not taken the first, the second would be accepted.
  method FailedWriteBlocksTheStream(socket: nat, chain: Chain, error: int)
    returns (stream: WindowsAsyncStream?, taken: bool, second: bool)
    requires ValidChain(chain) && chain != []
    ensures stream != null && !stream.Removing && second == !taken
    ensures taken ==> !stream.WritePending && stream.WriteBuffers == chain
  {
    hide WindowsAsyncEngine.Valid, WindowsAsyncEngine.Later;
    var engine := new WindowsAsyncEngine();
    stream := engine.Add(socket, true);
    var first := engine.StartWrite(stream, chain);
    taken := stream.WritePending;
    if taken {
      engine.ProcessWriteCompletion(stream, false, 0, error);
    }
    second := engine.StartWrite(stream, chain);
  }

  // How a write of which `left` bytes were left ends when `bytes` more are out: it
  // is over when these are all; none of them is a connection that is gone; and
  // otherwise the rest has been refused.
  ghost predicate WriteOutcome(r: Result, bytes: nat, left: int, refusals: seq<int>, refusals': seq<int>) {
    if bytes == 0 then r.op.Error? && r.error == WSAECONNRESET && refusals' == refusals
    else if bytes == left then r.op.Write? && refusals' == refusals
    else r.op.Error? && refusals' == refusals + [r.error]
  }

  lemma NotEmpty(chain: Chain)
    requires ValidChain(chain) && chain != []
    ensures |Flatten(chain)| > 0
  {
    assert chain[0].Valid() && |chain[0].Bytes()| > 0;
  }
}
