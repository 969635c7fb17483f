/** A write queue whose lower stream is an epoll stream: the owner of both, which
    handles the engine's results in their order, at any time. */
module QueuedWrites {
  import opened AsyncResult
  import opened Buffers
  import opened LinuxEngine
  import opened Wrappers
  import opened WriteQueue

  type Results = seq<(LinuxAsyncStream, Result)>

  // The size of the write of a chain, if there is one.
  ghost function Sizes(chain: Chain): seq<nat>
    requires ValidChain(chain)
  {
    if chain == [] then [] else [|Flatten(chain)|]
  }

  // Where a stream stands, the results of which the first `handled` have been
  // handled, and what the queue says: the chain in flight, and the bytes on the
  // wire before and since. Unless the stream has failed, its pending write is
  // that chain; the write is pending or its result is the one Write result not
  // handled yet; and what is on the wire and what is still to be sent are the
  // bytes of the completed chains, in order, and of the one in flight.
  ghost predicate Agree(results: Results, handled: nat, s: LinuxAsyncStream, a: Standing, before: seq<byte>,
                        completed: seq<byte>, flight: Chain, rejected: nat) {
    && handled <= |results|
    && (!Failed(results, s) ==>
          && ValidChain(flight) && rejected == 0
          && (a.writing.Some? ==> a.writing.value.0 == flight)
          && Written(results[handled..], s) + a.left == Sizes(flight)
          && a.wire + a.rest == before + completed + Flatten(flight))
  }

  ghost predicate Proper(a: Standing) {
    |a.left| == Count(a.writing.Some?)
  }

  lemma WrittenSome(results: Results, s: LinuxAsyncStream, k: nat)
    requires k < |results| && results[k].0 == s && results[k].1.op.Write?
    ensures Written(results, s) != []
  {
    assert results == results[..k] + [results[k]] + results[k + 1..];
    WrittenConcat(results[..k] + [results[k]], results[k + 1..], s);
    WrittenConcat(results[..k], [results[k]], s);
    WrittenOne(s, results[k].1);
  }

  lemma Suffix(results: Results, results': Results, handled: nat, s: LinuxAsyncStream)
    requires results <= results' && handled <= |results|
    ensures Failed(results', s) <==> Failed(results, s) || Failed(results'[|results|..], s)
    ensures Written(results'[handled..], s) == Written(results[handled..], s) + Written(results'[|results|..], s)
  {
    var more := results'[|results|..];
    assert results' == results + more && results'[handled..] == results[handled..] + more;
    FailedLater(results, more, s);
    WrittenConcat(results[handled..], more, s);
  }

  // Whatever the engine does without starting a write of the stream.
  lemma AgreeMoved(results: Results, results': Results, handled: nat, s: LinuxAsyncStream, a: Standing, b: Standing,
                   before: seq<byte>, completed: seq<byte>, flight: Chain, rejected: nat)
    requires Agree(results, handled, s, a, before, completed, flight, rejected) && Proper(a) && Proper(b)
    requires results <= results' && MovedOn(s, a, b, results', |results|)
    requires b.starts == a.starts && b.sought == a.sought
    ensures Agree(results', handled, s, b, before, completed, flight, rejected)
  {
    hide Failed, Written;
    Suffix(results, results', handled, s);
    if !Failed(results', s) {
      var more := results'[|results|..];
      assert Written(more, s) + b.left == a.left && b.wire + b.rest == a.wire + a.rest;
      if b.writing.Some? && b.writing != a.writing {
        WriteIsOver(results', |results|, s);
        assert false;
      }
    }
  }

  lemma WriteIsOver(results: Results, n: nat, s: LinuxAsyncStream)
    requires n <= |results|
    ensures Answered(results, n, s, false) ==> Failed(results[n..], s) || Written(results[n..], s) != []
  {
    if Answered(results, n, s, false) {
      var k :| n <= k < |results| && results[k].0 == s && Answers(results[k].1.op, false);
      assert results[n..][k - n] == results[k];
      if results[k].1.op.Write? {
        WrittenSome(results[n..], s, k - n);
      }
    }
  }

  // A write of `chain` is started, and tried.
  lemma AgreeStarted(results: Results, results': Results, handled: nat, s: LinuxAsyncStream, a: Standing, b: Standing,
                     before: seq<byte>, completed: seq<byte>, chain: Chain, rejected: nat)
    requires Agree(results, handled, s, a, before, completed, [], rejected) && ValidChain(chain) && chain != []
    requires results <= results' && MovedOn(s, a, b, results', |results|)
    requires b.starts == a.starts + [|Flatten(chain)|] && b.sought == a.sought + Flatten(chain)
    requires b.writing.Some? ==> b.writing.value.0 == chain
    ensures Agree(results', handled, s, b, before, completed, chain, rejected)
  {
    hide Failed, Written;
    Suffix(results, results', handled, s);
    FlattenNone();
    if !Failed(results', s) {
      var more := results'[|results|..];
      assert b.starts[|a.starts|..] == [|Flatten(chain)|] && b.sought[|a.sought|..] == Flatten(chain);
      assert Sizes([]) == [] && Written(results[handled..], s) == [] && a.left == [];
      assert a.left + [|Flatten(chain)|] == Sizes(chain);
      assert [] + Written(more, s) + b.left == Sizes(chain);
      assert before + completed + Flatten([]) == before + completed;
      assert b.wire + b.rest == a.wire + a.rest + Flatten(chain);
    }
  }

  // The next result is not a Write result of the stream.
  lemma AgreePassed(results: Results, handled: nat, s: LinuxAsyncStream, a: Standing, before: seq<byte>,
                    completed: seq<byte>, flight: Chain, rejected: nat)
    requires Agree(results, handled, s, a, before, completed, flight, rejected) && handled < |results|
    requires !(results[handled].0 == s && results[handled].1.op.Write?)
    ensures Agree(results, handled + 1, s, a, before, completed, flight, rejected)
  {
    NextWritten(results, handled, s);
    WrittenNone([results[handled]], s);
  }

  lemma NextWritten(results: Results, handled: nat, s: LinuxAsyncStream)
    requires handled < |results|
    ensures Written(results[handled..], s) == Written([results[handled]], s) + Written(results[handled + 1..], s)
  {
    assert results[handled..] == [results[handled]] + results[handled + 1..];
    WrittenConcat([results[handled]], results[handled + 1..], s);
  }

  // The next result is one: it is that of the chain in flight.
  lemma AgreeHandled(results: Results, handled: nat, s: LinuxAsyncStream, a: Standing, before: seq<byte>,
                     completed: seq<byte>, flight: Chain, rejected: nat)
    requires Agree(results, handled, s, a, before, completed, flight, rejected) && Proper(a)
    requires handled < |results| && results[handled].0 == s && results[handled].1.op.Write? && !Failed(results, s)
    ensures ValidChain(flight) && flight != [] && results[handled].1.bytes == |Flatten(flight)|
    ensures Agree(results, handled + 1, s, a, before, completed + Flatten(flight), [], rejected)
  {
    hide Failed, Written;
    NextWritten(results, handled, s);
    WrittenOne(s, results[handled].1);
    assert [results[handled]] == [(s, results[handled].1)];
    var rest := Written(results[handled + 1..], s);
    assert ([results[handled].1.bytes] + rest + a.left)[0] == results[handled].1.bytes;
    assert Sizes(flight)[0] == results[handled].1.bytes;
    assert rest == [] && a.left == [];
    assert before + completed + Flatten(flight) == before + (completed + Flatten(flight)) + [];
    FlattenNone();
  }

  // Once the stream has failed there is nothing to keep.
  lemma AgreeFailed(results: Results, handled: nat, s: LinuxAsyncStream, a: Standing, before: seq<byte>,
                    completed: seq<byte>, flight: Chain, rejected: nat)
    requires handled <= |results| && Failed(results, s)
    ensures Agree(results, handled, s, a, before, completed, flight, rejected)
  {
  }

  class QueuedStream {
    const Engine: LinuxAsyncEngine
    const Stream: LinuxAsyncStream
    const Queue: AsyncWriteQueue
    const Lower: LowerStream       // the stream, as the queue knows it
    var Handled: nat               // how many of the engine's results have been handled

    ghost const WireBefore: seq<byte>
    ghost var Rejected: nat        // Write results that the queue did not accept

    // What the queue has given to the stream and not got back.
    ghost function InFlight(): Chain
      reads Queue`Queue, Queue`WritePending
    {
      if Queue.WritePending && Queue.Queue != [] then Queue.Queue[0] else []
    }

    ghost predicate Matched()
      reads this, Stream, Queue, Engine`PendingResults
    {
      Agree(Engine.PendingResults, Handled, Stream, Stream.Now(), WireBefore, Queue.Completed, InFlight(), Rejected)
    }

    ghost predicate Valid()
      reads this, Engine, Engine.Known, Engine.Kern, Stream, Queue, Lower
    {
      && Engine.Valid() && Stream in Engine.Known
      && Queue.Stream == Lower && Queue.Valid()
      && Matched()
    }

    // Over a stream that is not written to, now or later, by anybody else.
    constructor (engine: LinuxAsyncEngine, stream: LinuxAsyncStream)
      requires engine.Valid() && stream in engine.Known && !stream.WritePending
      ensures Valid() && Engine == engine && Stream == stream && fresh(Queue) && fresh(Lower)
      ensures Queue.Queue == [] && Queue.Completed == [] && WireBefore == stream.Wire
    {
      Engine, Stream := engine, stream;
      Queue := new AsyncWriteQueue();
      Lower := new LowerStream();
      Handled := |engine.PendingResults|;
      WireBefore, Rejected := stream.Wire, 0;
      new;
      Queue.Attach(Lower);
      FlattenNone();
    }

    lemma StreamIsProper()
      requires Engine.Valid() && Stream in Engine.Known
      ensures Stream.Ok() && Proper(Stream.Now())
    {
    }

    // Whether the engine takes a write of the stream.
    predicate CanTake()
      reads Stream`Removing, Stream`WritePending, Stream`Handle
    {
      !Stream.Removing && !Stream.WritePending && Stream.Handle != -1
    }

    // The queue is told by the stream it writes to, that is by the engine.
    method Settle()
      requires Queue.Stream == Lower && Queue.Valid()
      modifies Lower`WillTake
      ensures Queue.Valid() && Lower.WillTake == CanTake()
    {
      Lower.WillTake := CanTake();
    }

    // The chain that the queue has just given to the stream goes to the engine.
    method Start()
      requires Engine.Valid() && Stream in Engine.Known && Queue.Stream == Lower && Queue.Valid()
      requires Queue.WritePending && CanTake()
      requires Agree(Engine.PendingResults, Handled, Stream, Stream.Now(), WireBefore, Queue.Completed, [], Rejected)
      modifies Engine`PendingResults, Stream, Engine.Kern`Armed, Engine.Kern`Refused
      ensures Valid()
    {
      hide LinuxAsyncEngine.Valid, MovedOn, Agree, LinuxAsyncStream.Ok;
      HeadIsAChain();
      ghost var a, results := Stream.Now(), Engine.PendingResults;
      var ok := Engine.StartWrite(Stream, Queue.Queue[0]);
      StreamIsProper();
      assert Engine.Moved(Stream);
      AgreeStarted(results, Engine.PendingResults, Handled, Stream, a, Stream.Now(), WireBefore, Queue.Completed,
                   InFlight(), Rejected);
    }

    lemma HeadIsAChain()
      requires Queue.Valid() && Queue.WritePending
      ensures Queue.Queue != [] && ValidChain(Queue.Queue[0]) && Queue.Queue[0] != []
    {
      assert Queue.Queue[0] in Queue.Queue;
    }

    method Push(chain: Chain)
      requires Valid() && ValidChain(chain)
      modifies this, Queue, Lower, Engine`PendingResults, Stream, Engine.Kern`Armed, Engine.Kern`Refused
      ensures Valid() && Handled == old(Handled)
      ensures Queue.Queue == old(Queue.Queue) + (if chain == [] then [] else [chain])
      ensures Queue.Completed == old(Queue.Completed)
    {
      hide LinuxAsyncEngine.Valid, Agree, AsyncWriteQueue.Valid;
      QueueFacts();
      Settle();
      var was := Queue.WritePending;
      var ok := Queue.Push(chain);
      QueueFacts();
      if !was && Queue.WritePending {
        Start();
      }
    }

    // The next result in the order of the engine. A Write result of the stream
    // completes the write in flight.
    method HandleNext()
      requires Valid()
      modifies this, Queue, Lower, Engine`PendingResults, Stream, Engine.Kern`Armed, Engine.Kern`Refused
      ensures Valid()
      ensures Handled == old(Handled) + Count(old(Handled < |Engine.PendingResults|))
      // the Write results that the queue does not accept are counted
      ensures Rejected == old(Rejected)
                          + Count(old(Handled < |Engine.PendingResults|
                                      && Engine.PendingResults[Handled].0 == Stream
                                      && Engine.PendingResults[Handled].1.op.Write?)
                                  && Queue.Queue == old(Queue.Queue))
      ensures old(Handled < |Engine.PendingResults|) ==>
                var (s, r) := old(Engine.PendingResults[Handled]);
                if s == Stream && r.op.Write? then
                  !old(Failed(Engine.PendingResults, Stream)) ==>
                    && old(InFlight()) != [] && r.bytes == |Flatten(old(InFlight()))|
                    && Queue.Queue == old(Queue.Queue)[1..]
                    && Queue.Completed == old(Queue.Completed) + Flatten(old(InFlight()))
                else
                  Queue.Queue == old(Queue.Queue) && Queue.Completed == old(Queue.Completed)
    {
      hide LinuxAsyncEngine.Valid, Agree, AsyncWriteQueue.Valid;
      HandledFits();
      if Handled == |Engine.PendingResults| {
        return;
      }
      var (s, r) := Engine.PendingResults[Handled];
      if s != Stream || !r.op.Write? {
        AgreePassed(Engine.PendingResults, Handled, Stream, Stream.Now(), WireBefore, Queue.Completed, InFlight(), Rejected);
        Handled := Handled + 1;
        return;
      }
      HandleWritten(r);
    }

    method HandleWritten(r: Result)
      requires Valid() && Handled < |Engine.PendingResults| && Engine.PendingResults[Handled] == (Stream, r) && r.op.Write?
      modifies this, Queue, Lower, Engine`PendingResults, Stream, Engine.Kern`Armed, Engine.Kern`Refused
      ensures Valid() && Handled == old(Handled) + 1
      ensures Rejected == old(Rejected) + Count(Queue.Queue == old(Queue.Queue))
      ensures !old(Failed(Engine.PendingResults, Stream)) ==>
                && old(InFlight()) != [] && r.bytes == |Flatten(old(InFlight()))|
                && Queue.Queue == old(Queue.Queue)[1..]
                && Queue.Completed == old(Queue.Completed) + Flatten(old(InFlight()))
    {
      hide LinuxAsyncEngine.Valid, Agree, AsyncWriteQueue.Valid, Failed, Written;
      QueueFacts();
      StreamIsProper();
      if !Failed(Engine.PendingResults, Stream) {
        AgreeHandled(Engine.PendingResults, Handled, Stream, Stream.Now(), WireBefore, Queue.Completed, InFlight(), Rejected);
      }
      Handled := Handled + 1;
      Settle();
      var ok, completed := Queue.OnWriteCompleted(r.bytes);
      QueueFacts();
      if completed == [] {
        Rejected := Rejected + 1;
      }
      if Failed(Engine.PendingResults, Stream) {
        AgreeFailed(Engine.PendingResults, Handled, Stream, Stream.Now(), WireBefore, Queue.Completed, [], Rejected);
        AgreeFailed(Engine.PendingResults, Handled, Stream, Stream.Now(), WireBefore, Queue.Completed, InFlight(), Rejected);
      }
      if completed != [] && Queue.WritePending {
        Start();
      }
    }

    // What the queue's own invariant says here.
    lemma QueueFacts()
      requires Queue.Valid() && Queue.Stream == Lower
      ensures Queue.WritePending ==> Queue.Queue != [] && Queue.Queue[0] != []
    {
      if Queue.WritePending {
        HeadIsAChain();
      }
    }

    lemma HandledFits()
      requires Matched()
      ensures Handled <= |Engine.PendingResults|
    {
    }

    // What the engine does to the stream otherwise, and to other streams.
    twostate lemma StillValid()
      requires old(Valid()) && Engine.Valid() && Stream in Engine.Known && unchanged(this) && unchanged(Queue)
      requires unchanged(Lower)
      requires old(Engine.PendingResults) <= Engine.PendingResults && Engine.Moved(Stream)
      requires Engine.NothingStarted(Stream)
      ensures Valid()
    {
      hide LinuxAsyncEngine.Valid, MovedOn, Agree, LinuxAsyncStream.Ok;
      StreamIsProper();
      WasProper();
      AgreeMoved(old(Engine.PendingResults), Engine.PendingResults, Handled, Stream, old(Stream.Now()), Stream.Now(),
                 WireBefore, Queue.Completed, InFlight(), Rejected);
    }

    twostate lemma WasProper()
      requires old(Engine.Valid() && Stream in Engine.Known)
      ensures Proper(old(Stream.Now()))
    {
      assert old(Stream.Ok());
    }

    method EngineEvent()
      requires Valid() && Engine.Kern.Events != []
      modifies Engine`PendingResults, Engine.Kern, Engine.Known
      ensures Valid() && Engine.Kern.Events == old(Engine.Kern.Events)[1..]
    {
      hide LinuxAsyncEngine.Valid, LinuxAsyncEngine.Handled, MovedOn, Agree, LinuxAsyncStream.Ok, AsyncWriteQueue.Valid;
      Engine.ProcessEpollEvent();
      StillValid();
    }

    method Deliver(fired: seq<Event>)
      requires Valid() && Engine.Kern.Events == []
      modifies Engine.Kern
      ensures Valid() && Engine.Kern.Events == fired
    {
      hide LinuxAsyncEngine.Valid, MovedOn, Agree, LinuxAsyncStream.Ok, AsyncWriteQueue.Valid;
      Engine.Deliver(fired);
      StillValid();
    }

    method StartRead(buffer: Option<nat>) returns (ok: bool)
      requires Valid()
      modifies Engine`PendingResults, Stream, Engine.Kern`Armed, Engine.Kern`Refused
      ensures Valid() && Engine.Used(Stream, Use.StartRead(buffer))
    {
      hide LinuxAsyncEngine.Valid, MovedOn, Agree, LinuxAsyncStream.Ok, AsyncWriteQueue.Valid;
      ok := Engine.StartRead(Stream, buffer);
      StillValid();
    }

    method Remove() returns (ok: bool)
      requires Valid()
      modifies Engine`Entries, Stream`Removing, Engine.Kern`Armed
      ensures Valid() && Engine.Used(Stream, Use.Remove)
    {
      hide LinuxAsyncEngine.Valid, MovedOn, Agree, LinuxAsyncStream.Ok, AsyncWriteQueue.Valid;
      ok := Engine.Remove(Stream);
      StillValid();
    }

    method Close()
      requires Valid()
      modifies Stream`Handle
      ensures Valid() && Engine.Used(Stream, Use.Close)
    {
      hide LinuxAsyncEngine.Valid, MovedOn, Agree, LinuxAsyncStream.Ok, AsyncWriteQueue.Valid;
      Engine.Close(Stream);
      StillValid();
    }

    // A call of the owner of another stream.
    method UseOther(other: LinuxAsyncStream, use: Use)
      requires Valid() && other in Engine.Known && other != Stream && use.Valid()
      modifies Engine`Entries, Engine`PendingResults, other, Engine.Kern
      ensures Valid() && Engine.Used(other, use)
    {
      hide LinuxAsyncEngine.Valid, MovedOn, Agree, LinuxAsyncStream.Ok, AsyncWriteQueue.Valid;
      Engine.UseStream(other, use);
      StillValid();
    }

    // What a call has come to.
    ghost predicate Did(call: QueuedCall, others: seq<LinuxAsyncStream>)
      reads this, Queue`Queue, Stream, others, Engine`Entries, Engine`PendingResults
    {
      match call
      case Push(chain) => chain == [] || (Queue.Queue != [] && Queue.Queue[|Queue.Queue| - 1] == chain)
      case StartRead(buffer) => Engine.Used(Stream, Use.StartRead(buffer))
      case Remove() => Engine.Used(Stream, Use.Remove)
      case Close() => Engine.Used(Stream, Use.Close)
      case Other(i, use) => i < |others| ==> Engine.Used(others[i], use)
      case _ => true
    }

    method Do(call: QueuedCall, others: seq<LinuxAsyncStream>)
      requires Valid() && call.Valid() && forall s :: s in others ==> s in Engine.Known && s != Stream
      modifies this, Queue, Lower, Engine, Engine.Kern, Engine.Known
      ensures Valid() && Engine.Known == old(Engine.Known) && Did(call, others)
      ensures call.HandleNext? ==> Handled == old(Handled) + Count(old(Handled < |Engine.PendingResults|))
      ensures call.Event? && old(Engine.Kern.Events) != [] ==> Engine.Kern.Events == old(Engine.Kern.Events)[1..]
      ensures call.Deliver? && old(Engine.Kern.Events) == [] ==> Engine.Kern.Events == call.fired
    {
      hide Valid;
      OwnStream();
      match call
      case Push(chain) => Push(chain);
      case HandleNext => HandleNext();
      case Event => if Engine.Kern.Events != [] { EngineEvent(); }
      case Deliver(fired) => if Engine.Kern.Events == [] { Deliver(fired); }
      case StartRead(buffer) => var _ := StartRead(buffer);
      case Remove => var _ := Remove();
      case Close => Close();
      case Other(i, use) => if i < |others| { UseOther(others[i], use); }
    }

    lemma OwnStream()
      requires Valid()
      ensures Stream in Engine.Known
    {
    }

    // Any calls of the owner, any events, and any calls of the owners of other
    // streams of the engine, in any order.
    method Run(calls: seq<QueuedCall>, others: seq<LinuxAsyncStream>)
      requires Valid() && (forall c :: c in calls ==> c.Valid())
      requires forall s :: s in others ==> s in Engine.Known && s != Stream
      modifies this, Queue, Lower, Engine, Engine.Kern, Engine.Known
      ensures Valid() && (calls != [] ==> Did(calls[|calls| - 1], others))
    {
      hide Valid, Did;
      for i := 0 to |calls|
        invariant Valid() && Engine.Known == old(Engine.Known) && (i > 0 ==> Did(calls[i - 1], others))
      {
        Do(calls[i], others);
      }
    }

    // What every run promises, unless the stream has failed: the queue accepts
    // every Write result; the pending write of the stream is the head of the
    // queue; and once nothing is in flight, exactly the completed chains are on
    // the wire, in order.
    lemma QueuedWritesAreExact()
      requires Valid() && !Failed(Engine.PendingResults, Stream)
      ensures Rejected == 0
      ensures Stream.WritePending ==>
                Queue.WritePending && Queue.Queue != [] && Stream.WriteBuffers == Queue.Queue[0]
      ensures ValidChain(InFlight())
      ensures Stream.Wire + Stream.Rest() == WireBefore + Queue.Completed + Flatten(InFlight())
      ensures !Queue.WritePending ==> Stream.Wire == WireBefore + Queue.Completed
    {
      QueueFacts();
      FlattenNone();
      if !Queue.WritePending {
        assert Stream.Now().left == [] && Stream.Rest() == [];
        assert Stream.Wire + [] == Stream.Wire;
        assert WireBefore + Queue.Completed + [] == WireBefore + Queue.Completed;
      }
    }
  }

  datatype QueuedCall =
    | Push(chain: Chain)
    | HandleNext
    | Event
    | Deliver(fired: seq<Event>)
    | StartRead(buffer: Option<nat>)
    | Remove
    | Close
    | Other(i: nat, use: Use)
  {
    predicate Valid() {
      (Push? ==> ValidChain(chain)) && (Other? ==> use.Valid())
    }
  }
}
