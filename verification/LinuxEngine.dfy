/** The epoll engine: streams over non-blocking sockets, each fd armed for one
    event at a time, scattered writes that go out in parts. */
module LinuxEngine {
  import opened AsyncResult
  import opened Buffers
  import opened ScatterGather
  import opened Wrappers

  const MAX_IOV: nat := 16

  // ----- The kernel, as an oracle

  datatype Interest = Interest(input: bool, output: bool)
  datatype Event = Event(fd: int, input: bool, output: bool, error: bool, hangup: bool)
  datatype SendOutcome = Sent(n: nat) | SendBlocked | SendFailed(error: int)
  datatype RecvOutcome = Got(data: seq<byte>) | Eof | RecvBlocked | RecvFailed(error: int)

  predicate Fires(events: seq<Event>, fd: int) {
    exists i :: 0 <= i < |events| && events[i].fd == fd
  }

  lemma FiresTail(events: seq<Event>)
    requires events != []
    ensures forall fd :: fd != events[0].fd && Fires(events, fd) ==> Fires(events[1..], fd)
  {
    forall fd | fd != events[0].fd && Fires(events, fd) ensures Fires(events[1..], fd) {
      var i :| 0 <= i < |events| && events[i].fd == fd;
      assert events[1..][i - 1].fd == fd;
    }
  }

  // An fd is armed for one event: delivering it disarms the fd.
  class Kernel {
    var Armed: map<int, Interest>
    var Events: seq<Event>     // delivered, and not yet processed
    ghost var Refused: nat     // how often it has refused to register or arm an fd

    constructor ()
      ensures Armed == map[] && Events == [] && Refused == 0
    {
      Armed, Events, Refused := map[], [], 0;
    }

    method Register(fd: int) returns (ok: bool)
      modifies this`Armed, this`Refused
      ensures Refused == old(Refused) + Count(!ok)
      ensures Armed == if ok then old(Armed)[fd := Interest(false, false)] else old(Armed)
    {
      ok := *;
      Refused := Refused + Count(!ok);
      if ok {
        Armed := Armed[fd := Interest(false, false)];
      }
    }

    method Rearm(fd: int, interest: Interest) returns (ok: bool)
      modifies this`Armed, this`Refused
      ensures Refused == old(Refused) + Count(!ok)
      ensures Armed == if ok then old(Armed)[fd := interest] else old(Armed)
    {
      ok := *;
      Refused := Refused + Count(!ok);
      if ok {
        Armed := Armed[fd := interest];
      }
    }

    method Unregister(fd: int)
      modifies this`Armed
      ensures Armed == old(Armed) - {fd}
    {
      Armed := Armed - {fd};
    }

    // Some armed fds fire, each once.
    method Poll(fired: seq<Event>)
      requires Events == []
      modifies this
      ensures Events == fired && Armed.Keys == old(Armed).Keys && Refused == old(Refused)
      ensures forall fd :: fd in Armed ==>
                Armed[fd] == if Fires(fired, fd) then Interest(false, false) else old(Armed)[fd]
    {
      Events := fired;
      Armed := map fd | fd in Armed :: if Fires(fired, fd) then Interest(false, false) else Armed[fd];
    }
  }

  // ----- Streams

  class LinuxAsyncStream {
    const Key: int            // the fd it was added with
    var Handle: int           // the socket's fd, -1 once it is closed
    var ReadPending: bool
    var WritePending: bool
    var Removing: bool
    var ReadClosed: bool
    var ReadBuffer: Option<nat>   // the size of the caller's buffer
    var WriteBuffers: Chain
    var WriteOffset: nat
    var WriteSize: nat

    ghost var Wire: seq<byte>     // every byte the socket has taken
    ghost var WriteBase: nat      // those taken before the pending write
    ghost var Received: seq<byte> // every byte the socket has returned
    ghost var SendBlocks: nat     // how often it would have had to wait
    ghost var RecvBlocks: nat
    ghost var SendErrors: seq<int> // the errors of the socket, in order
    ghost var RecvErrors: seq<int>
    ghost var Ends: nat            // how often it has returned the end of input
    ghost var ArmErrors: nat       // how often it could not be armed again
    ghost var PollErrors: nat      // how often an event has brought an error
    ghost var Starts: seq<nat>    // the size of every write that was started
    ghost var Sought: seq<byte>   // ... and the bytes of them all

    ghost predicate Ok()
      reads this
    {
      && (ReadPending <==> ReadBuffer.Some?) && (ReadPending ==> 0 < ReadBuffer.value && !ReadClosed)
      && (Handle == Key || Handle == -1) && Key != -1
      && if WritePending then
           Partial(WriteBuffers, WriteSize, WriteOffset, Wire, WriteBase)
         else
           WriteBuffers == [] && WriteOffset == WriteSize == 0
    }

    // What is still to be sent of the pending write.
    ghost function Rest(): seq<byte>
      reads this`WritePending, this`WriteBuffers, this`WriteOffset
    {
      if WritePending && ValidChain(WriteBuffers) && WriteOffset <= |Flatten(WriteBuffers)|
      then Flatten(WriteBuffers)[WriteOffset..] else []
    }

    lemma RestIs()
      requires Ok() && WritePending
      ensures WriteBase <= |Wire| && ValidChain(WriteBuffers)
      ensures WriteSize == |Flatten(WriteBuffers)| && Wire + Rest() == Wire[..WriteBase] + Flatten(WriteBuffers)
    {
      PartialWhole(WriteBuffers, WriteSize, WriteOffset, Wire, WriteBase);
    }

    ghost function Now(): Standing
      reads this
    {
      Standing(Removing, Handle == -1, Wire, Received, if ReadPending then ReadBuffer else None,
               if WritePending then Some((WriteBuffers, WriteBase)) else None, Starts,
               if WritePending then [WriteSize] else [], Sought, Rest(),
               |SendErrors| + |RecvErrors| + ArmErrors + PollErrors)
    }

    constructor (fd: int)
      requires fd != -1
      ensures Ok() && Key == Handle == fd
      ensures !ReadPending && !WritePending && !Removing && !ReadClosed && Wire == Received == []
      ensures Starts == [] && Sought == []
    {
      Key, Handle := fd, fd;
      ReadPending, WritePending, Removing, ReadClosed := false, false, false, false;
      ReadBuffer, WriteBuffers, WriteOffset, WriteSize := None, [], 0, 0;
      Wire, WriteBase, Received, SendBlocks, RecvBlocks := [], 0, [], 0, 0;
      Starts, Sought := [], [];
      SendErrors, RecvErrors, Ends, ArmErrors, PollErrors := [], [], 0, 0, 0;
    }

    // sendmsg on the socket, restarted when it was interrupted.
    method Send(iov: Chain) returns (outcome: SendOutcome)
      requires ValidChain(iov) && iov != []
      modifies this`Wire, this`SendBlocks, this`SendErrors
      ensures SendErrors == old(SendErrors) + if outcome.SendFailed? then [outcome.error] else []
      ensures SendBlocks == old(SendBlocks) + Count(outcome.SendBlocked?)
      ensures outcome.Sent? ==> 0 < outcome.n <= |Flatten(iov)| && Wire == old(Wire) + Flatten(iov)[..outcome.n]
      ensures !outcome.Sent? ==> Wire == old(Wire)
    {
      outcome := *;
      if outcome.Sent? {
        assert iov[0].Valid() && |iov[0].Bytes()| > 0;
        var n := if 0 < outcome.n <= |Flatten(iov)| then outcome.n else 1;
        outcome := Sent(n);
        Wire := Wire + Flatten(iov)[..n];
      }
      SendErrors := SendErrors + if outcome.SendFailed? then [outcome.error] else [];
      SendBlocks := SendBlocks + Count(outcome.SendBlocked?);
    }

    method Recv(size: nat) returns (outcome: RecvOutcome)
      requires 0 < size
      modifies this`Received, this`RecvBlocks, this`RecvErrors, this`Ends
      ensures RecvErrors == old(RecvErrors) + if outcome.RecvFailed? then [outcome.error] else []
      ensures Ends == old(Ends) + Count(outcome.Eof?)
      ensures RecvBlocks == old(RecvBlocks) + Count(outcome.RecvBlocked?)
      ensures outcome.Got? ==> 0 < |outcome.data| <= size && Received == old(Received) + outcome.data
      ensures !outcome.Got? ==> Received == old(Received)
    {
      outcome := *;
      if outcome.Got? {
        if |outcome.data| == 0 || |outcome.data| > size {
          outcome := Got([0]);
        }
        Received := Received + outcome.data;
      }
      RecvErrors := RecvErrors + if outcome.RecvFailed? then [outcome.error] else [];
      Ends := Ends + Count(outcome.Eof?);
      RecvBlocks := RecvBlocks + Count(outcome.RecvBlocked?);
    }

    method ClearWrite()
      modifies this`WritePending, this`WriteBuffers, this`WriteOffset, this`WriteSize
      ensures !WritePending && WriteBuffers == [] && WriteOffset == WriteSize == 0
    {
      WritePending := false;
      WriteBuffers := [];
      WriteOffset, WriteSize := 0, 0;
    }

    method BeginWrite(buffers: Chain)
      requires Ok() && !WritePending && buffers != [] && ValidChain(buffers)
      modifies this`WritePending, this`WriteBuffers, this`WriteOffset, this`WriteSize, this`WriteBase
      modifies this`Starts, this`Sought
      ensures Ok() && WritePending && WriteBuffers == buffers && WriteSize == |Flatten(buffers)|
      ensures Starts == old(Starts) + [WriteSize] && Sought == old(Sought) + Flatten(buffers)
      ensures Began(old(Now()), Now(), Flatten(buffers))
    {
      hide Partial;
      PartialStart(buffers, Wire);
      WriteBuffers, WriteOffset := buffers, 0;
      WriteSize := |Flatten(buffers)|;
      WritePending := true;
      WriteBase := |Wire|;
      Starts := Starts + [WriteSize];
      Sought := Sought + Flatten(buffers);
    }

    // One send of a pending write.
    method Progress() returns (outcome: SendOutcome, done: bool)
      requires Ok() && WritePending && WriteOffset < WriteSize
      modifies this`Wire, this`SendBlocks, this`SendErrors, this`WriteOffset
      ensures SendErrors == old(SendErrors) + if outcome.SendFailed? then [outcome.error] else []
      ensures Ok() && WriteOffset <= WriteSize && old(Wire) <= Wire
      ensures SendBlocks == old(SendBlocks) + Count(outcome.SendBlocked?)
      ensures outcome.Sent? ==> WriteOffset > old(WriteOffset) && done == (WriteOffset == WriteSize)
      ensures !outcome.Sent? ==> WriteOffset == old(WriteOffset) && !done
    {
      var iov := BuildIov(WriteBuffers, WriteOffset, MAX_IOV);
      outcome := Send(iov);
      done := false;
      if outcome.Sent? {
        PartialAdvance(WriteBuffers, WriteSize, WriteOffset, old(Wire), WriteBase, Flatten(iov), outcome.n, Wire);
        WriteOffset := WriteOffset + outcome.n;
        done := WriteOffset >= WriteSize;
      }
    }
  }

  lemma WireIs(r: Result, chain: Chain, wire: seq<byte>, base: nat)
    requires AllWritten(r, chain, wire, base) && r.op.Write?
    ensures ValidChain(chain) && base <= |wire| && wire == wire[..base] + Flatten(chain)
  {
  }

  // ----- The engine

  // Where a stream stands: its bytes and its pending operations.
  datatype Standing = Standing(removing: bool, closed: bool, wire: seq<byte>, received: seq<byte>,
                               reading: Option<nat>, writing: Option<(Chain, nat)>,
                               starts: seq<nat>, left: seq<nat>, sought: seq<byte>, rest: seq<byte>, faults: nat)

  // What no call takes back of a stream: bytes that have been sent or received,
  // its end, and its operations, each of which stays as it was started until a
  // result answers it; an error is only reported for a fault; and unless there was
  // one, every write is reported once and all of it goes out, in order.
  ghost predicate MovedOn(s: LinuxAsyncStream, a: Standing, b: Standing, results: seq<(LinuxAsyncStream, Result)>, n: nat) {
    && (a.removing ==> b.removing) && (a.closed ==> b.closed)
    && a.wire <= b.wire && a.received <= b.received
    && (a.reading.Some? ==> b.reading == a.reading || Answered(results, n, s, true))
    && (a.writing.Some? ==> b.writing == a.writing || Answered(results, n, s, false))
    && n <= |results| && a.faults <= b.faults && (Failed(results[n..], s) ==> a.faults < b.faults)
    && a.starts <= b.starts
    && Accounted(results[n..], s, a.left, b.starts[|a.starts|..], b.left)
    && a.sought <= b.sought
    && Conveyed(results[n..], s, a.wire + a.rest, b.sought[|a.sought|..], b.wire + b.rest)
  }

  // Results of others, or of something else than a write.
  lemma MovedOnSelf(s: LinuxAsyncStream, a: Standing, results: seq<(LinuxAsyncStream, Result)>, n: nat)
    requires n <= |results|
    requires forall k :: n <= k < |results| ==> !(results[k].0 == s && (results[k].1.op.Write? || results[k].1.op.Error?))
    ensures MovedOn(s, a, a, results, n)
  {
    WrittenNone(results[n..], s);
  }

  lemma MovedOnTwice(s: LinuxAsyncStream, a: Standing, b: Standing, c: Standing,
                     results: seq<(LinuxAsyncStream, Result)>, results': seq<(LinuxAsyncStream, Result)>, n: nat)
    requires MovedOn(s, a, b, results, n) && MovedOn(s, b, c, results', |results|) && results <= results'
    ensures MovedOn(s, a, c, results', n)
  {
    hide Answered, Accounted, Conveyed, Failed;
    FailedLater(results[n..], results'[|results|..], s);
    forall reading | Answered(results, n, s, reading) ensures Answered(results', n, s, reading) {
      AnsweredLater(results, results', n, n, s, reading);
    }
    forall reading | Answered(results', |results|, s, reading) ensures Answered(results', n, s, reading) {
      AnsweredLater(results', results', n, |results|, s, reading);
    }
    AccountedTwice(results[n..], results'[|results|..], s, a.left, b.starts[|a.starts|..], b.left,
                   c.starts[|b.starts|..], c.left);
    ConveyedTwice(results[n..], results'[|results|..], s, a.wire + a.rest, b.sought[|a.sought|..], b.wire + b.rest,
                  c.sought[|b.sought|..], c.wire + c.rest);
    assert results[n..] + results'[|results|..] == results'[n..];
    assert b.sought[|a.sought|..] + c.sought[|b.sought|..] == c.sought[|a.sought|..];
    assert b.starts[|a.starts|..] + c.starts[|b.starts|..] == c.starts[|a.starts|..];
  }

  // The end of a stream, or of its socket.
  lemma MovedOnEnd(s: LinuxAsyncStream, a: Standing, b: Standing, results: seq<(LinuxAsyncStream, Result)>)
    requires (a.removing ==> b.removing) && (a.closed ==> b.closed) && b == a.(removing := b.removing, closed := b.closed)
    ensures MovedOn(s, a, b, results, |results|)
  {
  }

  lemma MovedOnMore(s: LinuxAsyncStream, a: Standing, b: Standing, results: seq<(LinuxAsyncStream, Result)>)
    requires a.wire <= b.wire && a.faults <= b.faults && b == a.(wire := b.wire, rest := b.rest, faults := b.faults) && b.wire + b.rest == a.wire + a.rest
    ensures MovedOn(s, a, b, results, |results|)
  {
    assert b.sought[|a.sought|..] == [];
    assert b.starts[|a.starts|..] == [];
  }

  // One result ends the write: its size, or an error.
  lemma MovedOnWrite(s: LinuxAsyncStream, a: Standing, b: Standing, results: seq<(LinuxAsyncStream, Result)>, n: nat)
    requires n < |results| && results[n..] == [results[n]] && results[n].0 == s
    requires results[n].1.op.Error?
               || (results[n].1.op.Write? && a.left == [results[n].1.bytes] && b.wire == a.wire + a.rest)
    requires a.writing.Some? && a.wire <= b.wire
    requires b == a.(writing := None, left := [], wire := b.wire, rest := [], faults := b.faults)
    requires a.faults + Count(results[n].1.op.Error?) <= b.faults
    ensures MovedOn(s, a, b, results, n)
  {
    WrittenOne(s, results[n].1);
    AnsweredBy(results, n, s, false);
    assert b.starts[|a.starts|..] == [] && b.sought[|a.sought|..] == [];
    assert b.wire + [] == b.wire;
    if results[n].1.op.Error? {
      assert results[n..][0] == results[n];
    }
  }

  // One result ends the read.
  lemma MovedOnRead(s: LinuxAsyncStream, a: Standing, b: Standing, results: seq<(LinuxAsyncStream, Result)>, n: nat)
    requires n < |results| && results[n..] == [results[n]] && results[n].0 == s && Answers(results[n].1.op, true)
    requires a.received <= b.received && b == a.(reading := None, received := b.received, faults := b.faults)
    requires a.faults + Count(results[n].1.op.Error?) <= b.faults
    ensures MovedOn(s, a, b, results, n)
  {
    WrittenOne(s, results[n].1);
    AnsweredBy(results, n, s, true);
    assert b.starts[|a.starts|..] == [] && b.sought[|a.sought|..] == [];
    if results[n].1.op.Error? {
      assert results[n..][0] == results[n];
    }
  }

  // One error ends whatever is pending.
  lemma MovedOnError(s: LinuxAsyncStream, a: Standing, b: Standing, results: seq<(LinuxAsyncStream, Result)>, n: nat)
    requires n < |results| && results[n].0 == s && results[n].1.op.Error?
    requires b == a.(reading := None, writing := None, left := [], rest := [], faults := b.faults) && a.faults < b.faults
    ensures MovedOn(s, a, b, results, n)
  {
    AnsweredBy(results, n, s, true);
    AnsweredBy(results, n, s, false);
    assert results[n..][0] == results[n];
  }

  // A write of these bytes has begun.
  ghost predicate Began(a: Standing, b: Standing, bytes: seq<byte>) {
    && a.writing == None && a.left == [] && b.left == [|bytes|]
    && a.rest == [] && b.rest == bytes
    && b == a.(writing := b.writing, left := b.left, starts := a.starts + b.left,
               rest := b.rest, sought := a.sought + b.rest)
  }

  // An operation that is started takes nothing back.
  lemma MovedOnStart(s: LinuxAsyncStream, a: Standing, b: Standing, c: Standing,
                     results: seq<(LinuxAsyncStream, Result)>, n: nat)
    requires MovedOn(s, b, c, results, n)
    requires (b == a.(reading := b.reading) && a.reading == None)
               || (a.writing == None && a.left == [] && a.rest == [] && |b.left| == 1
                   && b == a.(writing := b.writing, left := b.left, starts := a.starts + b.left,
                              rest := b.rest, sought := a.sought + b.rest))
    ensures MovedOn(s, a, c, results, n)
  {
    hide Answered, Failed;
    if a.reading == None && b == a.(reading := b.reading) {
      return;
    }
    assert [] + (b.left + c.starts[|b.starts|..]) == b.left + c.starts[|b.starts|..];
    assert c.starts[|a.starts|..] == b.left + c.starts[|b.starts|..];
    assert b.wire + b.rest + c.sought[|b.sought|..] == a.wire + [] + (b.rest + c.sought[|b.sought|..]);
    assert c.sought[|a.sought|..] == b.rest + c.sought[|b.sought|..];
  }

  class LinuxAsyncEngine {
    const Kern: Kernel
    var Entries: map<int, LinuxAsyncStream>
    var PendingResults: seq<(LinuxAsyncStream, Result)>
    ghost var Known: set<LinuxAsyncStream>   // every stream ever added

    ghost predicate Registered(s: LinuxAsyncStream)
      reads this`Entries
    {
      s.Key in Entries && Entries[s.Key] == s
    }

    // The fd is armed for what is pending, or has an event still to be processed.
    ghost predicate Awaited(s: LinuxAsyncStream)
      reads s`ReadPending, s`WritePending, Kern
    {
      || Fires(Kern.Events, s.Key)
      || (s.Key in Kern.Armed
          && (s.ReadPending ==> Kern.Armed[s.Key].input) && (s.WritePending ==> Kern.Armed[s.Key].output))
    }

    // No pending operation is lost by the one-shot arming.
    ghost predicate Covered(s: LinuxAsyncStream)
      reads this`Entries, s`Handle, s`Removing, s`ReadPending, s`WritePending, Kern
    {
      Registered(s) && s.Handle == s.Key && !s.Removing && (s.ReadPending || s.WritePending) ==> Awaited(s)
    }

    ghost predicate Tabled()
      reads this`Entries, this`Known, Known`Removing
    {
      && (forall fd :: fd in Entries ==> Entries[fd] in Known && Entries[fd].Key == fd && fd != -1)
      && (forall s :: s in Known ==> s.Removing || Registered(s))
    }

    // All streams are covered but for one that is being dealt with.
    ghost predicate ValidBut(but: set<LinuxAsyncStream>)
      reads this`Entries, this`Known, Known, Kern
    {
      && Tabled()
      && (forall s :: s in Known ==> s.Ok())
      && (forall s :: s in Known && s !in but ==> Covered(s))
    }

    ghost predicate Valid()
      reads this`Entries, this`Known, Known, Kern
    {
      ValidBut({})
    }

    twostate predicate Moved(s: LinuxAsyncStream)
      reads this`PendingResults, s
    {
      MovedOn(s, old(s.Now()), s.Now(), PendingResults, |old(PendingResults)|)
    }

    twostate predicate Later()
      reads this`Known, this`PendingResults, Known
    {
      && old(Known) <= Known && old(PendingResults) <= PendingResults
      && forall s :: s in old(Known) ==> Moved(s)
    }

    twostate predicate NothingStarted(stream: LinuxAsyncStream)
      reads stream
    {
      stream.Starts == old(stream.Starts) && stream.Sought == old(stream.Sought)
    }

    // Only this stream has new results.
    twostate predicate OnlyOf(stream: LinuxAsyncStream)
      reads this`PendingResults
    {
      && old(PendingResults) <= PendingResults
      && forall k :: |old(PendingResults)| <= k < |PendingResults| ==> PendingResults[k].0 == stream
    }

    twostate lemma NotMoved(stream: LinuxAsyncStream)
      requires unchanged(`PendingResults) && stream.Now() == old(stream.Now())
      ensures Moved(stream) && OnlyOf(stream)
    {
      hide MovedOn;
      MovedOnSelf(stream, stream.Now(), PendingResults, |PendingResults|);
    }

    twostate lemma Ended(stream: LinuxAsyncStream)
      requires Known == old(Known) && unchanged(`PendingResults) && stream in Known
      requires forall s :: s in Known && s != stream ==> unchanged(s)
      requires (old(stream.Removing) ==> stream.Removing) && (old(stream.Handle) == -1 ==> stream.Handle == -1)
      requires stream.Now() == old(stream.Now()).(removing := stream.Removing, closed := stream.Handle == -1)
      ensures Later()
    {
      hide MovedOn;
      MovedOnEnd(stream, old(stream.Now()), stream.Now(), PendingResults);
      OneMoved(stream);
    }

    twostate lemma OneMoved(stream: LinuxAsyncStream)
      requires Known == old(Known) && OnlyOf(stream)
      requires stream in Known && Moved(stream)
      requires forall s :: s in Known && s != stream ==> unchanged(s)
      ensures Later()
    {
      hide MovedOn;
      forall s | s in Known ensures Moved(s) {
        if s != stream {
          assert s.Now() == old(s.Now());
          MovedOnSelf(s, s.Now(), PendingResults, |old(PendingResults)|);
        }
      }
    }

    constructor (kern: Kernel)
      ensures Valid() && Kern == kern && Entries == map[] && PendingResults == [] && Known == {}
    {
      Kern := kern;
      Entries, PendingResults, Known := map[], [], {};
    }

    method Add(fd: int) returns (stream: LinuxAsyncStream?)
      requires Valid()
      modifies this`Entries, this`Known, Kern`Armed, Kern`Refused
      ensures Valid()
      ensures fd == -1 || old(fd in Entries) ==> stream == null && unchanged(Kern)
      ensures fd != -1 && old(fd !in Entries) ==> Kern.Refused == old(Kern.Refused) + Count(stream == null)
      ensures stream != null ==>
                && fresh(stream) && stream.Key == stream.Handle == fd && !stream.ReadPending && !stream.WritePending
                && Entries == old(Entries)[fd := stream] && Known == old(Known) + {stream}
      ensures stream == null ==> unchanged(this)
      ensures Later()
    {
      hide Valid, MovedOn;
      if fd == -1 {
        Untouched();
        return null;
      }
      if fd in Entries {
        Untouched();
        return null;
      }
      stream := Enter(fd);
      Untouched();
    }

    method Enter(fd: int) returns (stream: LinuxAsyncStream?)
      requires Valid() && fd != -1 && fd !in Entries
      modifies this`Entries, this`Known, Kern`Armed, Kern`Refused
      ensures Valid() && Kern.Refused == old(Kern.Refused) + Count(stream == null)
      ensures stream != null ==>
                && fresh(stream) && stream.Key == stream.Handle == fd && !stream.ReadPending && !stream.WritePending
                && Entries == old(Entries)[fd := stream] && Known == old(Known) + {stream}
      ensures stream == null ==> unchanged(this)
    {
      var ok := Kern.Register(fd);
      if !ok {
        return null;
      }
      stream := new LinuxAsyncStream(fd);
      Entries := Entries[fd := stream];
      Known := Known + {stream};
    }

    method Remove(stream: LinuxAsyncStream) returns (ok: bool)
      requires Valid() && stream in Known
      modifies this`Entries, stream`Removing, Kern`Armed
      ensures Valid() && Later()
      ensures ok == old(Registered(stream))
      ensures ok ==> stream.Removing && Entries == old(Entries) - {stream.Key} && stream.Key !in Kern.Armed
      ensures !ok ==> Entries == old(Entries) && stream.Removing == old(stream.Removing)
    {
      if stream.Key !in Entries || Entries[stream.Key] != stream {
        return false;
      }
      Unlist(stream);
      Ended(stream);
      return true;
    }

    method Unlist(stream: LinuxAsyncStream)
      requires Valid() && stream in Known && Registered(stream)
      modifies this`Entries, stream`Removing, Kern`Armed
      ensures Valid() && stream.Removing && Entries == old(Entries) - {stream.Key} && stream.Key !in Kern.Armed
    {
      stream.Removing := true;
      Kern.Unregister(stream.Key);
      Entries := Entries - {stream.Key};
    }

    // The socket is closed by its owner.
    method Close(stream: LinuxAsyncStream)
      requires Valid() && stream in Known
      modifies stream`Handle
      ensures Valid() && Later() && stream.Handle == -1
    {
      hide MovedOn;
      stream.Handle := -1;
      Ended(stream);
    }

    method QueueResult(stream: LinuxAsyncStream, op: Operation, data: seq<byte>, bytes: nat, error: int)
      modifies this`PendingResults
      ensures PendingResults == old(PendingResults)
                                + if stream.Removing then []
                                  else [(stream, Result(op, data, bytes, error, if op.Error? then Transport else NoOrigin))]
    {
      if stream.Removing {
        return;
      }
      PendingResults := PendingResults + [(stream, Result(op, data, bytes, error, if op.Error? then Transport else NoOrigin))];
    }

    function FindStream(stream: LinuxAsyncStream): (owner: LinuxAsyncStream?)
      reads this`Entries, stream`Handle
      ensures if stream.Handle in Entries then owner == Entries[stream.Handle] else owner == null
    {
      if stream.Handle in Entries then Entries[stream.Handle] else null
    }

    // A stream of the table is found itself, unless its socket is closed.
    lemma FoundIs(stream: LinuxAsyncStream)
      requires Tabled() && stream.Ok() && Registered(stream)
      ensures FindStream(stream) == if stream.Handle == -1 then null else stream
    {
    }

    lemma StreamFacts(stream: LinuxAsyncStream)
      requires ValidBut({stream}) && stream in Known
      ensures Tabled() && stream.Ok()
      ensures (stream.ReadPending <==> stream.ReadBuffer.Some?) && (stream.Handle == stream.Key || stream.Handle == -1)
    {
    }

    // What happens to one stream leaves the others as they were.
    twostate lemma OthersKept(stream: LinuxAsyncStream)
      requires old(ValidBut({stream})) && stream in Known && stream.Ok()
      requires unchanged(`Entries) && unchanged(`Known) && unchanged(Kern)
      requires stream.Removing == old(stream.Removing)
      requires forall s :: s in Known && s != stream ==> unchanged(s)
      ensures ValidBut({stream})
    {
      forall s | s in Known && s != stream ensures s.Ok() && Covered(s) {
        assert old(s.Ok()) && old(Covered(s));
      }
    }

    // A pending read ends with one result, or stays pending.
    method TryRead(stream: LinuxAsyncStream) returns (ok: bool)
      requires ValidBut({stream}) && stream in Known && Registered(stream) && !stream.Removing
      modifies this`PendingResults, stream`ReadPending, stream`ReadClosed, stream`ReadBuffer, stream`Received
      modifies stream`RecvBlocks, stream`RecvErrors, stream`Ends
      ensures ValidBut({stream}) && Registered(stream)
      ensures Moved(stream) && OnlyOf(stream)
      ensures ok == (!old(stream.ReadPending) || stream.Handle != -1)
      // it stays pending only if the socket had nothing to read
      ensures !old(stream.ReadPending) || !ok ==>
                && PendingResults == old(PendingResults) && stream.ReadPending == old(stream.ReadPending)
                && stream.ReadBuffer == old(stream.ReadBuffer)
      ensures old(stream.ReadPending) && ok ==> ReadTaken(stream)
    {
      StreamFacts(stream);
      hide FindStream, ValidBut, Tabled, LinuxAsyncStream.Ok, Moved, OnlyOf, ReadTaken, Registered;
      NotMoved(stream);
      if !stream.ReadPending || stream.ReadBuffer.None? {
        return true;
      }
      FoundIs(stream);
      if FindStream(stream) == null {
        return false;
      }
      ReadRegistered(stream);
      return true;
    }

    method ReadRegistered(stream: LinuxAsyncStream)
      requires ValidBut({stream}) && stream in Known && Registered(stream) && stream.Ok()
      requires stream.ReadPending && !stream.Removing
      modifies this`PendingResults, stream`ReadPending, stream`ReadClosed, stream`ReadBuffer, stream`Received
      modifies stream`RecvBlocks, stream`RecvErrors, stream`Ends
      ensures ValidBut({stream}) && ReadTaken(stream) && Moved(stream) && OnlyOf(stream)
    {
      hide ValidBut, Tabled, LinuxAsyncStream.Ok, Moved, OnlyOf, ReadTaken;
      ReadOnce(stream);
      OthersKept(stream);
    }

    // How a read that is tried ends, or stays as it was.
    twostate predicate ReadTaken(stream: LinuxAsyncStream)
      reads this`PendingResults, stream
    {
      && (stream.ReadPending ==>
            && PendingResults == old(PendingResults) && stream.Received == old(stream.Received)
            && stream.ReadBuffer == old(stream.ReadBuffer) && stream.RecvBlocks == old(stream.RecvBlocks) + 1
            && stream.RecvErrors == old(stream.RecvErrors) && stream.Ends == old(stream.Ends))
      && (!stream.ReadPending ==>
            && |PendingResults| == |old(PendingResults)| + 1
            && PendingResults[..|old(PendingResults)|] == old(PendingResults)
            && var (s, r) := PendingResults[|old(PendingResults)|];
               && s == stream && stream.Received == old(stream.Received) + r.data
               && (r.op.Read? || (r.data == [] && (r.op.ReadClosed? || r.op.Error?)))
               && (r.op.Read? ==> 0 < |r.data| == r.bytes && old(stream.ReadBuffer).Some?
                                  && r.bytes <= old(stream.ReadBuffer).value)
               && (r.op.ReadClosed? <==> stream.ReadClosed && !old(stream.ReadClosed))
               // a close and an error are what the socket has returned
               && stream.Ends == old(stream.Ends) + Count(r.op.ReadClosed?)
               && stream.RecvErrors == old(stream.RecvErrors) + (if r.op.Error? then [r.error] else []))
    }

    method ReadOnce(stream: LinuxAsyncStream)
      requires stream.Ok() && stream.ReadPending && !stream.Removing
      modifies this`PendingResults, stream`ReadPending, stream`ReadClosed, stream`ReadBuffer, stream`Received
      modifies stream`RecvBlocks, stream`RecvErrors, stream`Ends
      ensures stream.Ok() && ReadTaken(stream) && Moved(stream) && OnlyOf(stream)
    {
      hide MovedOn;
      Receive(stream);
      if stream.ReadPending {
        NotMoved(stream);
      } else {
        MovedOnRead(stream, old(stream.Now()), stream.Now(), PendingResults, |old(PendingResults)|);
      }
    }

    method Receive(stream: LinuxAsyncStream)
      requires stream.Ok() && stream.ReadPending && !stream.Removing
      modifies this`PendingResults, stream`ReadPending, stream`ReadClosed, stream`ReadBuffer, stream`Received
      modifies stream`RecvBlocks, stream`RecvErrors, stream`Ends
      ensures stream.Ok() && ReadTaken(stream)
    {
      hide Partial;
      var outcome := stream.Recv(stream.ReadBuffer.value);
      match outcome
      case Got(data) =>
        stream.ReadPending, stream.ReadBuffer := false, None;
        QueueResult(stream, Read, data, |data|, 0);
      case Eof =>
        stream.ReadPending, stream.ReadBuffer, stream.ReadClosed := false, None, true;
        QueueResult(stream, ReadClosed, [], 0, 0);
      case RecvBlocked =>
      case RecvFailed(error) =>
        stream.ReadPending, stream.ReadBuffer := false, None;
        QueueResult(stream, Error, [], 0, error);
    }

    method CompleteWrite(stream: LinuxAsyncStream)
      requires stream.WritePending
      modifies this`PendingResults
      modifies stream`WritePending, stream`WriteBuffers, stream`WriteOffset, stream`WriteSize
      ensures !stream.WritePending && stream.WriteBuffers == [] && stream.WriteOffset == stream.WriteSize == 0
      ensures PendingResults == old(PendingResults)
                                + if stream.Removing then []
                                  else [(stream, Result(Write, [], old(stream.WriteSize), 0, NoOrigin))]
    {
      var bytes := stream.WriteSize;
      stream.ClearWrite();
      QueueResult(stream, Write, [], bytes, 0);
    }

    // A pending write goes out as far as the socket takes it. It ends with one
    // result: all of the chain's bytes, once they are all on the wire, or an
    // error.
    method TryWrite(stream: LinuxAsyncStream) returns (ok: bool)
      requires ValidBut({stream}) && stream in Known && Registered(stream) && !stream.Removing
      modifies this`PendingResults, stream`Wire, stream`SendBlocks, stream`SendErrors
      modifies stream`WritePending, stream`WriteBuffers, stream`WriteOffset, stream`WriteSize
      ensures ValidBut({stream}) && Registered(stream)
      ensures Moved(stream) && OnlyOf(stream)
      ensures ok == (!old(stream.WritePending) || stream.Handle != -1)
      // it stays pending only if the socket would take no more
      ensures !old(stream.WritePending) || !ok ==>
                && PendingResults == old(PendingResults) && stream.WritePending == old(stream.WritePending)
                && stream.WriteBuffers == old(stream.WriteBuffers)
      ensures old(stream.WritePending) && ok ==> Sent(stream)
    {
      StreamFacts(stream);
      hide FindStream, ValidBut, Tabled, Partial, Moved, OnlyOf, AllWritten;
      if !stream.WritePending {
        NotMoved(stream);
        return true;
      }
      FoundIs(stream);
      if FindStream(stream) == null {
        NotMoved(stream);
        return false;
      }
      WriteAll(stream);
      OthersKept(stream);
      return true;
    }

    // How a write that is tried ends, or goes on.
    twostate predicate Sent(stream: LinuxAsyncStream)
      reads this`PendingResults, stream
    {
      && (stream.WritePending ==>
            && PendingResults == old(PendingResults)
            && stream.WriteBuffers == old(stream.WriteBuffers) && stream.WriteOffset >= old(stream.WriteOffset)
            && stream.SendBlocks == old(stream.SendBlocks) + 1 && stream.SendErrors == old(stream.SendErrors))
      && (!stream.WritePending ==>
            && |PendingResults| == |old(PendingResults)| + 1
            && PendingResults[..|old(PendingResults)|] == old(PendingResults)
            && var (s, r) := PendingResults[|old(PendingResults)|];
               && s == stream && (r.op.Write? || r.op.Error?)
               && stream.SendErrors == old(stream.SendErrors) + (if r.op.Error? then [r.error] else [])
               && (r.op.Write? ==> r.bytes == old(stream.WriteSize))
               && AllWritten(r, old(stream.WriteBuffers), stream.Wire, stream.WriteBase))
    }

    method WriteAll(stream: LinuxAsyncStream)
      requires stream.Ok() && stream.WritePending && !stream.Removing
      modifies this`PendingResults, stream`Wire, stream`SendBlocks, stream`SendErrors
      modifies stream`WritePending, stream`WriteBuffers, stream`WriteOffset, stream`WriteSize
      ensures stream.Ok() && old(stream.Wire) <= stream.Wire && Moved(stream) && OnlyOf(stream)
      ensures Sent(stream)
    {
      hide MovedOn, AllWritten, Partial;
      ghost var chain, base, before := stream.WriteBuffers, stream.WriteBase, stream.Wire;
      stream.RestIs();
      SendAll(stream);
      assert stream.Wire[..base] == before[..base];
      if stream.WritePending {
        stream.RestIs();
        MovedOnMore(stream, old(stream.Now()), stream.Now(), PendingResults);
      } else {
        var r := PendingResults[|old(PendingResults)|].1;
        if r.op.Write? {
          WireIs(r, chain, stream.Wire, base);
        }
        MovedOnWrite(stream, old(stream.Now()), stream.Now(), PendingResults, |old(PendingResults)|);
      }
    }

    method SendAll(stream: LinuxAsyncStream)
      requires stream.Ok() && stream.WritePending && !stream.Removing
      modifies this`PendingResults, stream`Wire, stream`SendBlocks, stream`SendErrors
      modifies stream`WritePending, stream`WriteBuffers, stream`WriteOffset, stream`WriteSize
      ensures stream.Ok() && old(stream.Wire) <= stream.Wire
      ensures Sent(stream)
    {
      while true
        invariant stream.WritePending && stream.Ok() && PendingResults == old(PendingResults)
        invariant stream.SendErrors == old(stream.SendErrors)
        invariant stream.SendBlocks == old(stream.SendBlocks) && old(stream.Wire) <= stream.Wire
        invariant stream.WriteBuffers == old(stream.WriteBuffers) && stream.WriteOffset >= old(stream.WriteOffset)
        decreases stream.WriteSize - stream.WriteOffset
      {
        if stream.WriteOffset == stream.WriteSize {
          CompleteWrite(stream);
          return;
        }
        var outcome, done := stream.Progress();
        if done {
          CompleteWrite(stream);
          return;
        }
        match outcome
        case Sent(_) =>
        case SendBlocked =>
          return;
        case SendFailed(error) =>
          stream.ClearWrite();
          QueueResult(stream, Error, [], 0, error);
          return;
      }
    }

    // Arming one stream's fd leaves the others covered.
    twostate lemma OthersCovered(stream: LinuxAsyncStream)
      requires old(ValidBut({stream})) && stream in Known && Registered(stream)
      requires unchanged(this) && unchanged(Known) && Kern.Events == old(Kern.Events)
      requires forall fd :: fd != stream.Handle ==>
                 (fd in Kern.Armed <==> fd in old(Kern.Armed)) && (fd in Kern.Armed ==> Kern.Armed[fd] == old(Kern.Armed[fd]))
      ensures ValidBut({stream})
    {
      forall s | s in Known && s != stream ensures Covered(s) {
        assert old(Covered(s)) && s.Ok() && stream.Ok();
      }
    }

    // Arms the fd for what is pending. If that fails, everything pending ends
    // with one error.
    method UpdateInterest(stream: LinuxAsyncStream) returns (ok: bool)
      requires ValidBut({stream}) && stream in Known && Registered(stream)
      modifies this`PendingResults, Kern`Armed, Kern`Refused, stream`ArmErrors, stream`ReadPending, stream`ReadBuffer
      modifies stream`WritePending, stream`WriteBuffers, stream`WriteOffset, stream`WriteSize
      ensures Valid()
      ensures Moved(stream) && OnlyOf(stream)
      ensures ok <==> stream.Handle != -1 || Kern.Refused == old(Kern.Refused)
      // it fails exactly if the kernel has refused
      ensures stream.ArmErrors == old(stream.ArmErrors) + if stream.Handle == -1 then 0 else Kern.Refused - old(Kern.Refused)
      ensures Kern.Refused >= old(Kern.Refused)
      ensures stream.Handle != -1 ==>
                (Kern.Refused == old(Kern.Refused) <==>
                   stream.ReadPending == old(stream.ReadPending) && stream.WritePending == old(stream.WritePending))
      ensures if stream.ReadPending == old(stream.ReadPending) && stream.WritePending == old(stream.WritePending) then
                && PendingResults == old(PendingResults)
                && stream.ReadBuffer == old(stream.ReadBuffer) && stream.WriteBuffers == old(stream.WriteBuffers)
              else
                && !stream.ReadPending && !stream.WritePending
                && |PendingResults| == |old(PendingResults)| + 1
                && PendingResults[..|old(PendingResults)|] == old(PendingResults)
                && PendingResults[|old(PendingResults)|].0 == stream
                && PendingResults[|old(PendingResults)|].1.op.Error?
    {
      hide FindStream, ValidBut, Tabled, Covered, Partial, MovedOn;
      NotMoved(stream);
      if stream.Removing {
        Removed(stream);
        return true;
      }
      if !stream.ReadPending && !stream.WritePending {
        Idle(stream);
        return true;
      }
      ok := Arm(stream);
      if ok {
        return true;
      }
      FoundIs(stream);
      if FindStream(stream) == null {
        Uncovered(stream);
        return false;
      }
      FailPending(stream);
      MovedOnError(stream, old(stream.Now()), stream.Now(), PendingResults, |old(PendingResults)|);
      return true;
    }

    method Arm(stream: LinuxAsyncStream) returns (ok: bool)
      requires ValidBut({stream}) && stream in Known && Registered(stream)
      modifies Kern`Armed, Kern`Refused
      ensures Kern.Refused == old(Kern.Refused) + Count(!ok)
      ensures if ok then Valid() else ValidBut({stream}) && Tabled() && stream.Ok()
    {
      ok := Kern.Rearm(stream.Handle, Interest(stream.ReadPending, stream.WritePending));
      OthersCovered(stream);
    }

    // Everything pending ends with one error.
    method FailPending(stream: LinuxAsyncStream)
      requires ValidBut({stream}) && stream in Known && Registered(stream) && !stream.Removing
      modifies this`PendingResults, stream`ReadPending, stream`ReadBuffer, stream`ArmErrors
      modifies stream`WritePending, stream`WriteBuffers, stream`WriteOffset, stream`WriteSize
      ensures Valid() && !stream.ReadPending && !stream.WritePending
      ensures stream.ArmErrors == old(stream.ArmErrors) + 1
      ensures |PendingResults| == |old(PendingResults)| + 1
      ensures PendingResults[..|old(PendingResults)|] == old(PendingResults)
      ensures PendingResults[|old(PendingResults)|].0 == stream && PendingResults[|old(PendingResults)|].1.op.Error?
    {
      StreamFacts(stream);
      hide ValidBut, Tabled, Partial;
      stream.ReadPending, stream.ReadBuffer := false, None;
      stream.ClearWrite();
      stream.ArmErrors := stream.ArmErrors + 1;
      var error: int := *;
      QueueResult(stream, Error, [], 0, error);
      OthersKept(stream);
      Idle(stream);
    }

    lemma Idle(stream: LinuxAsyncStream)
      requires ValidBut({stream}) && !stream.ReadPending && !stream.WritePending
      ensures Valid()
    {
    }

    // Accepted unless the stream is gone, has a read pending or is at its end.
    // Afterwards the read is pending and armed, or has been answered.
    method StartRead(stream: LinuxAsyncStream, buffer: Option<nat>) returns (ok: bool)
      requires Valid() && stream in Known
      modifies this`PendingResults, stream, Kern`Armed, Kern`Refused
      ensures Valid() && Later() && NothingStarted(stream)
      ensures var refused := buffer == None || buffer.value == 0
                             || old(stream.Removing || stream.ReadPending || stream.ReadClosed);
              && (refused ==> !ok && unchanged(this) && unchanged(stream) && unchanged(Kern))
              && (!refused && stream.Handle == -1 ==>
                    !ok && stream.ReadPending && stream.ReadBuffer == buffer && PendingResults == old(PendingResults))
              && (!refused && stream.Handle != -1 ==>
                    && ok && (stream.ReadPending ==> stream.RecvBlocks > old(stream.RecvBlocks))
                    && (!stream.ReadPending ==> |PendingResults| > |old(PendingResults)|))
      ensures stream.Handle == old(stream.Handle) && stream.Removing == old(stream.Removing)
    {
      hide ValidBut, Tabled, Covered, MovedOn, LinuxAsyncStream.Now, LinuxAsyncStream.Ok, Later;
      Untouched();
      if buffer == None || buffer.value == 0 {
        return false;
      }
      if stream.Removing || stream.ReadPending || stream.ReadClosed {
        return false;
      }
      SetRead(stream, buffer);
      ghost var started := stream.Now();
      ok := ServeRead(stream);
      MovedOnStart(stream, old(stream.Now()), started, stream.Now(), PendingResults, |old(PendingResults)|);
      OneMoved(stream);
    }

    // The read is tried, and what is still pending is armed for.
    method ServeRead(stream: LinuxAsyncStream) returns (ok: bool)
      requires ValidBut({stream}) && stream in Known && Registered(stream) && !stream.Removing
      requires stream.Ok() && stream.ReadPending
      modifies this`PendingResults, Kern`Armed, Kern`Refused, stream`ArmErrors
      modifies stream`ReadPending, stream`ReadClosed, stream`ReadBuffer, stream`Received
      modifies stream`RecvBlocks, stream`RecvErrors, stream`Ends
      modifies stream`WritePending, stream`WriteBuffers, stream`WriteOffset, stream`WriteSize
      ensures Valid() && Moved(stream) && OnlyOf(stream)
      ensures stream.Handle == -1 ==>
                && !ok && stream.ReadPending && stream.ReadBuffer == old(stream.ReadBuffer)
                && PendingResults == old(PendingResults)
      ensures stream.Handle != -1 ==>
                && ok && (stream.ReadPending ==> stream.RecvBlocks > old(stream.RecvBlocks))
                && (!stream.ReadPending ==> |PendingResults| > |old(PendingResults)|)
    {
      hide ValidBut, Tabled, Covered, MovedOn;
      ok := TryRead(stream);
      if !ok {
        Uncovered(stream);
        return false;
      }
      ghost var tried, results := stream.Now(), PendingResults;
      ok := UpdateInterest(stream);
      MovedOnTwice(stream, old(stream.Now()), tried, stream.Now(), results, PendingResults, |old(PendingResults)|);
    }

    method ServeWrite(stream: LinuxAsyncStream) returns (ok: bool)
      requires ValidBut({stream}) && stream in Known && Registered(stream) && !stream.Removing
      requires stream.Ok() && stream.WritePending
      modifies this`PendingResults, Kern`Armed, Kern`Refused, stream`ArmErrors
      modifies stream`ReadPending, stream`ReadBuffer, stream`Wire, stream`SendBlocks, stream`SendErrors
      modifies stream`WritePending, stream`WriteBuffers, stream`WriteOffset, stream`WriteSize
      ensures Valid() && Moved(stream) && OnlyOf(stream)
      ensures stream.Handle == -1 ==>
                && !ok && stream.WritePending && stream.WriteBuffers == old(stream.WriteBuffers)
                && PendingResults == old(PendingResults)
      ensures stream.Handle != -1 ==>
                && ok && (stream.WritePending ==>
                            && stream.WriteBuffers == old(stream.WriteBuffers)
                            && stream.SendBlocks > old(stream.SendBlocks))
                && (!stream.WritePending ==> |PendingResults| > |old(PendingResults)|)
    {
      hide ValidBut, Tabled, Covered, MovedOn;
      ok := TryWrite(stream);
      if !ok {
        Uncovered(stream);
        return false;
      }
      ghost var tried, results := stream.Now(), PendingResults;
      ok := UpdateInterest(stream);
      MovedOnTwice(stream, old(stream.Now()), tried, stream.Now(), results, PendingResults, |old(PendingResults)|);
    }

    method SetRead(stream: LinuxAsyncStream, buffer: Option<nat>)
      requires Valid() && stream in Known && !stream.Removing && !stream.ReadPending && !stream.ReadClosed
      requires buffer.Some? && 0 < buffer.value
      modifies stream`ReadPending, stream`ReadBuffer
      ensures ValidBut({stream}) && Registered(stream) && stream.ReadPending && stream.Key != -1 && stream.Ok()
      ensures stream.ReadBuffer == buffer
      ensures old(stream.Now()).reading == None && stream.Now() == old(stream.Now()).(reading := buffer)
    {
      Weaken(stream);
      StreamFacts(stream);
      stream.ReadBuffer := buffer;
      stream.ReadPending := true;
      OthersKept(stream);
    }

    lemma Weaken(stream: LinuxAsyncStream)
      requires Valid()
      ensures ValidBut({stream})
    {
    }

    // A stream whose socket is closed has nothing to be covered for.
    lemma Uncovered(stream: LinuxAsyncStream)
      requires ValidBut({stream}) && stream.Handle != stream.Key
      ensures Valid()
    {
    }

    method StartWrite(stream: LinuxAsyncStream, buffers: Chain) returns (ok: bool)
      requires Valid() && stream in Known && ValidChain(buffers)
      modifies this`PendingResults, stream, Kern`Armed, Kern`Refused
      ensures Valid() && Later()
      ensures var refused := buffers == [] || old(stream.Removing || stream.WritePending);
              && stream.Starts == old(stream.Starts) + (if refused then [] else [|Flatten(buffers)|])
              && stream.Sought == old(stream.Sought) + (if refused then [] else Flatten(buffers))
              && (refused ==> !ok && unchanged(this) && unchanged(stream) && unchanged(Kern))
              && (!refused && stream.Handle == -1 ==>
                    !ok && stream.WritePending && stream.WriteBuffers == buffers && PendingResults == old(PendingResults))
              && (!refused && stream.Handle != -1 ==>
                    && ok && (stream.WritePending ==>
                                stream.WriteBuffers == buffers && stream.SendBlocks > old(stream.SendBlocks))
                    && (!stream.WritePending ==> |PendingResults| > |old(PendingResults)|))
      ensures stream.Handle == old(stream.Handle) && stream.Removing == old(stream.Removing)
    {
      hide ValidBut, Tabled, Covered, MovedOn, LinuxAsyncStream.Now, LinuxAsyncStream.Ok, Later;
      Untouched();
      if buffers == [] {
        return false;
      }
      if stream.Removing || stream.WritePending {
        return false;
      }
      SetWrite(stream, buffers);
      ghost var started := stream.Now();
      ok := ServeWrite(stream);
      MovedOnStart(stream, old(stream.Now()), started, stream.Now(), PendingResults, |old(PendingResults)|);
      OneMoved(stream);
    }

    method SetWrite(stream: LinuxAsyncStream, buffers: Chain)
      requires Valid() && stream in Known && !stream.Removing && !stream.WritePending
      requires buffers != [] && ValidChain(buffers)
      modifies stream`WritePending, stream`WriteBuffers, stream`WriteOffset, stream`WriteSize, stream`WriteBase
      modifies stream`Starts, stream`Sought
      ensures ValidBut({stream}) && Registered(stream) && stream.WritePending && stream.Key != -1 && stream.Ok()
      ensures stream.WriteBuffers == buffers && stream.WriteSize == |Flatten(buffers)|
      ensures Began(old(stream.Now()), stream.Now(), Flatten(buffers))
      ensures stream.Starts == old(stream.Starts) + [|Flatten(buffers)|] && stream.Sought == old(stream.Sought) + Flatten(buffers)
    {
      Weaken(stream);
      StreamFacts(stream);
      hide ValidBut, Tabled, Began, LinuxAsyncStream.Ok, LinuxAsyncStream.Now;
      stream.BeginWrite(buffers);
      OthersKept(stream);
    }

    // The socket is asked for nothing that an event is not for.
    twostate predicate Untried(stream: LinuxAsyncStream, ev: Event)
      reads stream
    {
      && (!ev.input && !ev.hangup ==>
            && stream.Received == old(stream.Received) && stream.RecvBlocks == old(stream.RecvBlocks)
            && stream.RecvErrors == old(stream.RecvErrors) && stream.Ends == old(stream.Ends))
      && (!ev.output && !ev.hangup ==>
            && stream.Wire == old(stream.Wire) && stream.SendBlocks == old(stream.SendBlocks)
            && stream.SendErrors == old(stream.SendErrors))
    }

    // What an event is for has been tried, and stays pending only for want of
    // bytes or of room. A hang-up with nothing left pending is reported as a
    // close, unless arming for what was left has failed.
    twostate predicate Tended(stream: LinuxAsyncStream, ev: Event)
      reads this`PendingResults, stream
    {
      && Untried(stream, ev)
      && (stream.ReadPending && (ev.input || ev.hangup) && stream.Handle != -1 ==>
            old(stream.ReadPending) && stream.RecvBlocks > old(stream.RecvBlocks))
      && (stream.WritePending && (ev.output || ev.hangup) && stream.Handle != -1 ==>
            old(stream.WritePending) && stream.SendBlocks > old(stream.SendBlocks))
      && (old(!stream.ReadPending && !stream.WritePending) ==>
            |PendingResults| == |old(PendingResults)| + Count(ev.hangup))
      && (ev.hangup && !stream.ReadPending && !stream.WritePending ==>
            && |PendingResults| > |old(PendingResults)|
            && var (s, r) := PendingResults[|PendingResults| - 1];
               s == stream && (r.op.ReadClosed? || (r.op.Error? && old(stream.ReadPending || stream.WritePending))))
    }

    // An event of a stream that is being removed is nothing, and one with an
    // error ends the stream.
    twostate predicate Handled(stream: LinuxAsyncStream, ev: Event)
      reads this`PendingResults, stream
    {
      if old(stream.Removing) then
        PendingResults == old(PendingResults)
      else if ev.error then
        && stream.Removing && |PendingResults| == |old(PendingResults)| + 1
        && var (s, r) := PendingResults[|old(PendingResults)|]; s == stream && r.op.Error?
      else
        !stream.Removing && Tended(stream, ev)
    }

    // The next delivered event. Whatever it brings, what stays pending on its
    // fd is armed again, unless the stream has failed.
    method ProcessEpollEvent()
      requires Valid() && Kern.Events != []
      modifies this`PendingResults, Kern, Known
      ensures Valid() && Kern.Events == old(Kern.Events)[1..]
      ensures Later()
      ensures Entries == old(Entries) && Known == old(Known)
      ensures forall s :: s in Known ==> NothingStarted(s)
      ensures var ev := old(Kern.Events)[0];
              if ev.fd in Entries then Handled(Entries[ev.fd], ev) else PendingResults == old(PendingResults)
    {
      var ev := TakeEvent();
      if ev.fd !in Entries {
        NoStream(ev.fd);
        return;
      }
      var stream := Entries[ev.fd];
      OneStream(ev.fd);
      hide Valid, ValidBut, Tabled, MovedOn, Handled, Later;
      ProcessStreamEvent(stream, ev);
      OneMoved(stream);
    }

    method ProcessStreamEvent(stream: LinuxAsyncStream, ev: Event)
      requires ValidBut({stream}) && stream in Known && Registered(stream)
      modifies this`PendingResults, stream, Kern`Armed, Kern`Refused
      ensures Valid() && Moved(stream) && OnlyOf(stream) && NothingStarted(stream)
      ensures Handled(stream, ev)
    {
      hide ValidBut, Tabled, Covered;
      if stream.Removing {
        Removed(stream);
        return;
      }
      if ev.error {
        var error: int := *;
        QueueResult(stream, Error, [], 0, error);
        FailStream(stream);
        return;
      }
      ProcessReady(stream, ev);
    }

    method ProcessReady(stream: LinuxAsyncStream, ev: Event)
      requires ValidBut({stream}) && stream in Known && Registered(stream) && !stream.Removing
      modifies this`PendingResults, stream, Kern`Armed, Kern`Refused
      ensures Valid()
      ensures Moved(stream) && OnlyOf(stream) && NothingStarted(stream)
      ensures Tended(stream, ev) && !stream.Removing
    {
      hide ValidBut, Tabled, Covered, MovedOn;
      TryReady(stream, ev);
      ghost var tried, results := stream.Now(), PendingResults;
      var _ := UpdateInterest(stream);
      MovedOnTwice(stream, old(stream.Now()), tried, stream.Now(), results, PendingResults, |old(PendingResults)|);
    }

    method TryReady(stream: LinuxAsyncStream, ev: Event)
      requires ValidBut({stream}) && stream in Known && Registered(stream) && !stream.Removing
      modifies this`PendingResults
      modifies stream`ReadPending, stream`ReadClosed, stream`ReadBuffer, stream`Received
      modifies stream`RecvBlocks, stream`RecvErrors, stream`Ends
      modifies stream`WritePending, stream`WriteBuffers, stream`WriteOffset, stream`WriteSize, stream`Wire, stream`SendBlocks, stream`SendErrors
      ensures ValidBut({stream}) && Registered(stream)
      ensures Moved(stream) && OnlyOf(stream)
      ensures stream.ReadPending ==> old(stream.ReadPending)
      ensures stream.WritePending ==> old(stream.WritePending)
      ensures Tended(stream, ev)
    {
      hide ValidBut, Tabled, Covered, MovedOn, LinuxAsyncStream.Ok;
      TryOperations(stream, ev);
      ghost var tried, results := stream.Now(), PendingResults;
      if ev.hangup && !stream.ReadPending && !stream.WritePending {
        HangUp(stream);
        MovedOnTwice(stream, old(stream.Now()), tried, stream.Now(), results, PendingResults, |old(PendingResults)|);
      }
    }

    method TryOperations(stream: LinuxAsyncStream, ev: Event)
      requires ValidBut({stream}) && stream in Known && Registered(stream) && !stream.Removing
      modifies this`PendingResults
      modifies stream`ReadPending, stream`ReadClosed, stream`ReadBuffer, stream`Received
      modifies stream`RecvBlocks, stream`RecvErrors, stream`Ends
      modifies stream`WritePending, stream`WriteBuffers, stream`WriteOffset, stream`WriteSize, stream`Wire, stream`SendBlocks, stream`SendErrors
      ensures ValidBut({stream})
      ensures Moved(stream) && OnlyOf(stream)
      ensures stream.ReadPending ==>
                && old(stream.ReadPending)
                && ((ev.input || ev.hangup) && stream.Handle != -1 ==> stream.RecvBlocks > old(stream.RecvBlocks))
      ensures stream.WritePending ==>
                && old(stream.WritePending)
                && ((ev.output || ev.hangup) && stream.Handle != -1 ==> stream.SendBlocks > old(stream.SendBlocks))
      ensures Untried(stream, ev)
      ensures old(!stream.ReadPending && !stream.WritePending) ==> PendingResults == old(PendingResults)
    {
      hide ValidBut, Tabled, Covered, MovedOn, AllWritten, LinuxAsyncStream.Ok;
      MovedOnSelf(stream, stream.Now(), PendingResults, |PendingResults|);
      if stream.ReadPending && (ev.input || ev.hangup) {
        var _ := TryRead(stream);
      }
      ghost var tried, results := stream.Now(), PendingResults;
      if stream.WritePending && (ev.output || ev.hangup) {
        var _ := TryWrite(stream);
        MovedOnTwice(stream, old(stream.Now()), tried, stream.Now(), results, PendingResults, |old(PendingResults)|);
      }
    }

    method HangUp(stream: LinuxAsyncStream)
      requires !stream.Removing
      modifies this`PendingResults
      ensures Moved(stream) && OnlyOf(stream)
      ensures PendingResults == old(PendingResults) + [(stream, Result(ReadClosed, [], 0, 0, NoOrigin))]
    {
      hide MovedOn;
      QueueResult(stream, ReadClosed, [], 0, 0);
      MovedOnSelf(stream, stream.Now(), PendingResults, |old(PendingResults)|);
    }

    // An event has brought an error.
    method FailStream(stream: LinuxAsyncStream)
      requires ValidBut({stream}) && stream in Known
      modifies stream`Removing, stream`PollErrors
      ensures Valid() && stream.Removing && stream.PollErrors == old(stream.PollErrors) + 1
    {
      stream.PollErrors := stream.PollErrors + 1;
      stream.Removing := true;
    }

    lemma Removed(stream: LinuxAsyncStream)
      requires ValidBut({stream}) && stream.Removing
      ensures Valid()
    {
    }

    // An event is processed: only the stream of its fd loses cover.
    ghost predicate CoveredBut(fd: int)
      reads this`Entries, this`Known, Known, Kern
    {
      Tabled() && forall s :: s in Known ==> s.Ok() && (Covered(s) || (Registered(s) && s.Key == fd))
    }

    method TakeEvent() returns (ev: Event)
      requires Valid() && Kern.Events != []
      modifies Kern`Events
      ensures CoveredBut(ev.fd) && ev == old(Kern.Events)[0] && Kern.Events == old(Kern.Events)[1..]
    {
      ev := Kern.Events[0];
      Kern.Events := Kern.Events[1..];
      FiresTail(old(Kern.Events));
      forall s | s in Known ensures s.Ok() && (Covered(s) || (Registered(s) && s.Key == ev.fd)) {
        assert old(s.Ok()) && old(Covered(s));
      }
    }

    lemma NoStream(fd: int)
      requires CoveredBut(fd) && fd !in Entries
      ensures Valid()
    {
    }

    lemma OneStream(fd: int)
      requires CoveredBut(fd) && fd in Entries
      ensures ValidBut({Entries[fd]}) && Entries[fd] in Known && Registered(Entries[fd])
    {
    }

    // Some armed fds fire: each is disarmed, and has an event.
    method Deliver(fired: seq<Event>)
      requires Valid() && Kern.Events == []
      modifies Kern
      ensures Valid() && Later() && Kern.Events == fired
    {
      Kern.Poll(fired);
      forall s | s in Known ensures s.Ok() && Covered(s) {
        assert old(s.Ok()) && old(Covered(s));
      }
      Untouched();
    }

    twostate lemma Untouched()
      requires old(Known) <= Known && unchanged(`PendingResults)
      requires forall s :: s in old(Known) ==> unchanged(s)
      ensures Later()
    {
      hide MovedOn;
      forall s | s in old(Known) ensures Moved(s) {
        assert s.Now() == old(s.Now());
        MovedOnSelf(s, s.Now(), PendingResults, |PendingResults|);
      }
    }

    // ----- All runs

    // `streams` is what the caller has of the engine's streams; a call names
    // one of them by its place. The events of a round are processed one by one,
    // and any call may come between two of them.
    // What a call has come to.
    ghost predicate Did(call: Call, streams: seq<LinuxAsyncStream>)
      reads this`Entries, this`PendingResults, Kern`Refused, streams
    {
      match call
      case Add(fd) => fd == -1 || fd in Entries || Kern.Refused > 0
      case Use(i, use) => i < |streams| ==> Used(streams[i], use)
      case _ => true
    }

    ghost predicate Used(stream: LinuxAsyncStream, use: Use)
      reads this`Entries, this`PendingResults, stream
    {
      match use
      case Remove() => !Registered(stream)
      case Close() => stream.Handle == -1
      case StartRead(buffer) =>
        || buffer == None || buffer.value == 0 || stream.Removing || stream.ReadClosed
        || stream.ReadPending || PendingResults != []
      case StartWrite(buffers) => buffers == [] || stream.Removing || stream.WritePending || PendingResults != []
    }

    method Do(call: Call, streams: seq<LinuxAsyncStream>) returns (more: seq<LinuxAsyncStream>)
      requires Valid() && call.Valid() && forall s :: s in streams ==> s in Known
      modifies this`Entries, this`Known, this`PendingResults, Known, Kern
      ensures Valid() && Later() && fresh(Known - old(Known)) && Did(call, more)
      ensures streams <= more && forall s :: s in more ==> s in Known
      ensures call.Add? && call.fd in Entries && call.fd !in old(Entries) ==> Entries[call.fd] in more
      ensures call.Deliver? && old(Kern.Events) == [] ==> Kern.Events == call.fired
      ensures call.ProcessEvent? && old(Kern.Events) != [] ==> Kern.Events == old(Kern.Events)[1..]
    {
      hide Valid, ValidBut, MovedOn;
      more := streams;
      Untouched();
      match call
      case Add(fd) =>
        var stream := Add(fd);
        if stream != null {
          more := streams + [stream];
        }
      case Deliver(fired) =>
        if Kern.Events == [] {
          Deliver(fired);
        }
      case ProcessEvent =>
        if Kern.Events != [] {
          ProcessEpollEvent();
        }
      case Use(i, use) =>
        if i < |streams| {
          UseStream(streams[i], use);
        }
    }

    method UseStream(stream: LinuxAsyncStream, use: Use)
      requires Valid() && stream in Known && use.Valid()
      modifies this`Entries, this`PendingResults, stream, Kern
      ensures Valid() && Later() && Used(stream, use)
    {
      hide Valid, ValidBut, MovedOn, Later;
      match use
      case Remove => var _ := Remove(stream);
      case Close => Close(stream);
      case StartRead(buffer) => var _ := StartRead(stream, buffer);
      case StartWrite(buffers) => var _ := StartWrite(stream, buffers);
    }

    // Any calls and events, in any order, with any behaviour of the kernel and
    // of the sockets.
    method Run(calls: seq<Call>, streams: seq<LinuxAsyncStream>) returns (all: seq<LinuxAsyncStream>)
      requires Valid() && (forall c :: c in calls ==> c.Valid()) && forall s :: s in streams ==> s in Known
      modifies this`Entries, this`Known, this`PendingResults, Known, Kern
      ensures Valid() && Later()
      ensures streams <= all && (calls != [] ==> Did(calls[|calls| - 1], all))
    {
      hide Valid, ValidBut, MovedOn, Did;
      Untouched();
      all := streams;
      for i := 0 to |calls|
        invariant Valid() && Later() && fresh(Known - old(Known))
        invariant streams <= all && forall s :: s in all ==> s in Known
        invariant i > 0 ==> Did(calls[i - 1], all)
      {
        label before:
        all := Do(calls[i], all);
        forall s | s in old(Known) ensures Moved(s) {
          MovedOnTwice(s, old(s.Now()), old@before(s.Now()), s.Now(), old@before(PendingResults), PendingResults,
                       |old(PendingResults)|);
        }
      }
    }
  }

  datatype Use = Remove | Close | StartRead(buffer: Option<nat>) | StartWrite(buffers: Chain)
  {
    predicate Valid() {
      StartWrite? ==> ValidChain(buffers)
    }
  }

  datatype Call = Add(fd: int) | Deliver(fired: seq<Event>) | ProcessEvent | Use(i: nat, use: Use)
  {
    predicate Valid() {
      Use? ==> use.Valid()
    }
  }
}
