/** The queue of chains over a lower stream that takes one write at a time. */
module WriteQueue {
  import opened Buffers

  // The stream below, as an oracle: it may take or refuse any start. What it
  // took, and how often it refused, is recorded for the specification.
  class LowerStream {
    ghost var Started: seq<Chain>    // writes it took, in order
    ghost var ReadsStarted: nat
    ghost var SendShutdowns: nat
    ghost var Refusals: nat
    var WillTake: bool               // whether it will take the next write

    constructor ()
      ensures Started == [] && ReadsStarted == SendShutdowns == Refusals == 0
    {
      Started := [];
      ReadsStarted, SendShutdowns, Refusals := 0, 0, 0;
    }

    method StartWrite(chain: Chain) returns (ok: bool)
      modifies this`Started, this`Refusals, this`WillTake
      ensures ok == old(WillTake)
      ensures ok ==> Started == old(Started) + [chain] && Refusals == old(Refusals)
      ensures !ok ==> Started == old(Started) && Refusals == old(Refusals) + 1
    {
      ok := WillTake;
      WillTake := *;
      if ok {
        Started := Started + [chain];
      } else {
        Refusals := Refusals + 1;
      }
    }

    method StartRead() returns (ok: bool)
      modifies this`ReadsStarted, this`Refusals
      ensures ok ==> ReadsStarted == old(ReadsStarted) + 1 && Refusals == old(Refusals)
      ensures !ok ==> ReadsStarted == old(ReadsStarted) && Refusals == old(Refusals) + 1
    {
      ok := *;
      if ok {
        ReadsStarted := ReadsStarted + 1;
      } else {
        Refusals := Refusals + 1;
      }
    }

    method ShutdownSend() returns (ok: bool)
      modifies this`SendShutdowns, this`Refusals
      ensures ok ==> SendShutdowns == old(SendShutdowns) + 1 && Refusals == old(Refusals)
      ensures !ok ==> SendShutdowns == old(SendShutdowns) && Refusals == old(Refusals) + 1
    {
      ok := *;
      if ok {
        SendShutdowns := SendShutdowns + 1;
      } else {
        Refusals := Refusals + 1;
      }
    }
  }

  // The write side of a stream changes nothing but what writes change.
  twostate predicate OnlyWrites(s: LowerStream)
    reads s
  {
    && s.ReadsStarted == old(s.ReadsStarted)
    && s.SendShutdowns == old(s.SendShutdowns)
    && s.Refusals >= old(s.Refusals)
  }

  // What the queue holds: well-formed, non-empty chains of `size` bytes that
  // flatten to `bytes`.
  ghost predicate Holds(queue: seq<Chain>, size: nat, bytes: seq<byte>) {
    && ValidChains(queue)
    && (forall c :: c in queue ==> c != [])
    && size == |bytes|
    && FlattenAll(queue) == bytes
  }

  lemma HoldsPush(queue: seq<Chain>, size: nat, bytes: seq<byte>, chain: Chain)
    requires Holds(queue, size, bytes) && ValidChain(chain) && chain != []
    ensures Holds(queue + [chain], size + |Flatten(chain)|, bytes + Flatten(chain))
  {
    FlattenAllPush(queue, chain);
  }

  lemma HoldsPop(queue: seq<Chain>, size: nat, bytes: seq<byte>)
    requires Holds(queue, size, bytes) && queue != []
    ensures ValidChain(queue[0])
    ensures var n := |Flatten(queue[0])|;
            0 < n <= size && bytes[..n] == Flatten(queue[0]) && Holds(queue[1..], size - n, bytes[n..])
  {
    assert queue[0] in queue;
    assert queue[0][0] in queue[0] && |queue[0][0].Bytes()| > 0;
    assert forall c :: c in queue[1..] ==> c in queue;
  }

  class AsyncWriteQueue {
    var Stream: LowerStream?
    var Queue: seq<Chain>
    var QueuedBytes: nat
    var WritePending: bool

    // Since the queue was attached or last cleared: the chains and the bytes
    // whose write has completed, and the bytes still queued.
    ghost var Written: seq<Chain>
    ghost var Completed: seq<byte>
    ghost var Queued: seq<byte>
    // What the stream had taken before that.
    ghost var Base: seq<Chain>

    ghost predicate Valid()
      reads this, Stream
    {
      && Holds(Queue, QueuedBytes, Queued)
      && Holds(Written, |Completed|, Completed)
      && (WritePending ==> Queue != [] && Stream != null)
      // the stream was given exactly the written chains and the one in
      // flight, each once and in the order they were pushed
      && (Stream != null ==>
            Stream.Started == Base + Written + if WritePending then [Queue[0]] else [])
    }

    constructor ()
      ensures Valid() && Stream == null
      ensures Queue == [] && Written == [] && !WritePending
      ensures Queued == Completed == []
    {
      Stream := null;
      Queue, QueuedBytes, WritePending := [], 0, false;
      Written, Completed, Queued, Base := [], [], [], [];
    }

    // Attached before anything is pushed, as every owner does.
    method Attach(stream: LowerStream)
      requires Valid() && Queue == [] && Written == []
      modifies this`Stream, this`Base
      ensures Valid() && Stream == stream
    {
      Stream := stream;
      Base := stream.Started;
    }

    lemma SizeIsZeroIffEmpty()
      requires Valid()
      ensures QueuedBytes == |Queued|
      ensures QueuedBytes == 0 <==> Queue == []
    {
      if Queue != [] {
        HoldsPop(Queue, QueuedBytes, Queued);
      }
    }

    // A refused start leaves the chain queued, to be offered again by the next
    // Push or completion.
    method StartNext() returns (ok: bool)
      requires Valid()
      modifies this`WritePending, Stream
      ensures Valid()
      ensures old(WritePending) ==> WritePending
      ensures !old(WritePending) && Queue != [] && Stream != null ==> ok == WritePending == old(Stream.WillTake)
      ensures ok ==> (WritePending <==> Queue != [])
      ensures !ok ==> !WritePending && Queue != []
      ensures Stream != null ==> ok == (Stream.Refusals == old(Stream.Refusals)) && OnlyWrites(Stream)
    {
      if WritePending || Queue == [] {
        return true;
      }
      if Stream == null {
        return false;
      }
      WritePending := true;
      ok := Stream.StartWrite(Queue[0]);
      if ok {
        return true;
      }
      WritePending := false;
      return false;
    }

    method Push(chain: Chain) returns (ok: bool)
      requires Valid() && ValidChain(chain)
      modifies this`Queue, this`QueuedBytes, this`WritePending, this`Queued, Stream
      ensures Valid()
      ensures Queue == old(Queue) + if chain == [] then [] else [chain]
      ensures Queued == old(Queued) + Flatten(chain)
      ensures old(WritePending) ==> WritePending
      ensures !old(WritePending) && Stream != null ==> WritePending == (chain != [] && old(Stream.WillTake))
      ensures ok && chain != [] ==> WritePending
      ensures !ok ==> !WritePending && Queue != []
      ensures Stream != null ==> ok == (Stream.Refusals == old(Stream.Refusals)) && OnlyWrites(Stream)
    {
      if chain == [] {
        return true;
      }
      HoldsPush(Queue, QueuedBytes, Queued, chain);
      Queue := Queue + [chain];
      QueuedBytes := QueuedBytes + |Flatten(chain)|;
      Queued := Queued + Flatten(chain);
      ok := StartNext();
    }

    // Accepted only for the chain in flight and only with its whole size.
    // `completed` is the chain that has just been written.
    method OnWriteCompleted(bytes: nat) returns (ok: bool, completed: Chain)
      requires Valid()
      modifies this`Queue, this`QueuedBytes, this`WritePending, this`Written, this`Completed, this`Queued, Stream
      ensures Valid()
      ensures if old(WritePending) && bytes == |Flatten(old(Queue)[0])| then
                && completed == old(Queue)[0]
                && Queue == old(Queue)[1..]
                && Written == old(Written) + [completed]
                && Completed == old(Completed) + Flatten(completed)
                && old(Completed + Queued) == Completed + Queued
                && ok == (Stream.Refusals == old(Stream.Refusals))
                && (ok ==> (WritePending <==> Queue != []))
                && (WritePending <==> Queue != [] && old(Stream.WillTake))
                && (!ok ==> !WritePending && Queue != [])
              else
                !ok && completed == [] && unchanged(this) && (Stream != null ==> unchanged(Stream))
      ensures Stream != null ==> OnlyWrites(Stream)
    {
      completed := [];
      if !WritePending || Queue == [] {
        return false, completed;
      }
      var size := |Flatten(Queue[0])|;
      if bytes != size {
        return false, completed;
      }
      completed := Queue[0];
      HoldsPop(Queue, QueuedBytes, Queued);
      HoldsPush(Written, |Completed|, Completed, completed);
      Queue := Queue[1..];
      QueuedBytes := QueuedBytes - size;
      WritePending := false;
      Written := Written + [completed];
      Completed := Completed + Flatten(completed);
      Queued := Queued[size..];
      ok := StartNext();
    }

    method Clear()
      requires Valid()
      modifies this`Queue, this`QueuedBytes, this`WritePending, this`Written, this`Completed, this`Queued, this`Base
      ensures Valid() && Queue == [] && !WritePending && QueuedBytes == 0
      ensures Written == [] && Completed == Queued == []
    {
      Queue, QueuedBytes, WritePending := [], 0, false;
      Written, Completed, Queued := [], [], [];
      if Stream != null {
        Base := Stream.Started;
      }
    }

    method IsIdle() returns (idle: bool)
      requires Valid()
      ensures idle <==> Queue == []
    {
      idle := Queue == [] && !WritePending;
    }
  }
}
