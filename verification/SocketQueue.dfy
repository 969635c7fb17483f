/** The packet queues of a socket, and the loops that move bytes between them and
    the wire. */
module SocketQueue {
  import opened Buffers
  import opened Wrappers

  const BUFFER_SIZE: nat := 128 * 1024

  class Queue {
    var Limit: Option<nat>           // None for -1, no limit
    var AutoJoin: bool
    var Packets: seq<seq<byte>>
    var Total: nat

    // The cached total is the size of what the packets hold.
    ghost predicate Valid()
      reads this
    {
      Total == |Concat(Packets)|
    }

    // What the queue holds, in order.
    ghost function Bytes(): seq<byte>
      reads this
    {
      Concat(Packets)
    }

    constructor (limit: Option<nat>, autoJoin: bool)
      ensures Valid() && Packets == [] && Bytes() == [] && Limit == limit && AutoJoin == autoJoin
    {
      Limit, AutoJoin, Packets, Total := limit, autoJoin, [], 0;
    }

    method GetAvailableLimit() returns (available: Option<nat>)
      requires Valid()
      ensures available == if Limit == None then None
                           else Some(if |Bytes()| >= Limit.value then 0 else Limit.value - |Bytes()|)
    {
      if Limit == None {
        return None;
      }
      if Total >= Limit.value {
        return Some(0);
      }
      return Some(Limit.value - Total);
    }

    method PushBack(b: seq<byte>)
      requires Valid()
      modifies this`Packets, this`Total
      ensures Valid() && Bytes() == old(Bytes()) + b && Packets == old(Packets) + [b]
    {
      ConcatAppend(Packets, [b]);
      ConcatOne(b);
      Packets := Packets + [b];
      Total := Total + |b|;
    }

    method PushFront(b: seq<byte>)
      requires Valid()
      modifies this`Packets, this`Total
      ensures Valid() && Bytes() == b + old(Bytes()) && Packets == [b] + old(Packets)
    {
      assert ([b] + Packets)[1..] == Packets;
      Packets := [b] + Packets;
      Total := Total + |b|;
    }

    method PopFirst() returns (b: Option<seq<byte>>)
      requires Valid()
      modifies this`Packets, this`Total
      ensures Valid()
      ensures b == None <==> old(Packets) == []
      ensures b == None ==> Packets == [] && Bytes() == []
      ensures b.Some? ==> b.value == old(Packets)[0] && Packets == old(Packets)[1..]
      ensures b.Some? ==> old(Bytes()) == b.value + Bytes()
    {
      if Packets == [] {
        return None;
      }
      b := Some(Packets[0]);
      Packets := Packets[1..];
      Total := Total - |b.value|;
    }

    // All the packets of another queue, whatever the limit.
    method AppendQueue(queue: Queue)
      requires Valid() && queue.Valid() && queue != this
      modifies this`Packets, this`Total, queue`Packets, queue`Total
      ensures Valid() && queue.Valid()
      ensures Bytes() == old(Bytes()) + old(queue.Bytes()) && queue.Packets == []
      ensures Packets == old(Packets) + old(queue.Packets)
    {
      while true
        invariant Valid() && queue.Valid()
        invariant Packets + queue.Packets == old(Packets) + old(queue.Packets)
        decreases |queue.Packets|
      {
        var b := queue.PopFirst();
        if b == None {
          break;
        }
        PushBack(b.value);
      }
      assert Packets + queue.Packets == Packets;
      ConcatAppend(old(Packets), old(queue.Packets));
    }

    method AppendBuffer(buffer: Option<seq<byte>>) returns (ok: bool)
      requires Valid()
      modifies this`Packets, this`Total
      ensures Valid()
      ensures ok <==> buffer.Some? && (Limit == None || |old(Bytes())| + |buffer.value| <= Limit.value)
      ensures Bytes() == if ok then old(Bytes()) + buffer.value else old(Bytes())
    {
      if buffer == None {
        return false;
      }
      if Limit.Some? && Total + |buffer.value| > Limit.value {
        return false;
      }
      PushBack(buffer.value);
      return true;
    }

    method Insert(p: seq<byte>) returns (ok: bool)
      requires Valid() && p != []
      modifies this`Packets, this`Total
      ensures Valid()
      ensures ok <==> Limit == None || |old(Bytes())| + |p| <= Limit.value
      ensures Bytes() == if ok then p + old(Bytes()) else old(Bytes())
    {
      if Limit.Some? && Total + |p| > Limit.value {
        return false;
      }
      PushFront(p);
      return true;
    }

    // With auto-join, bytes that fit the last packet's buffer are added to it.
    method Append(p: seq<byte>) returns (ok: bool)
      requires Valid() && p != []
      modifies this`Packets, this`Total
      ensures Valid()
      ensures ok <==> Limit == None || |old(Bytes())| + |p| <= Limit.value
      ensures Bytes() == if ok then old(Bytes()) + p else old(Bytes())
      ensures !ok ==> Packets == old(Packets)
      ensures ok ==>
                var last := |old(Packets)| - 1;
                Packets == if AutoJoin && last >= 0 && |old(Packets)[last]| + |p| <= BUFFER_SIZE
                           then old(Packets)[last := old(Packets)[last] + p] else old(Packets) + [p]
    {
      if Limit.Some? && Total + |p| > Limit.value {
        return false;
      }
      if AutoJoin && Packets != [] {
        var last := |Packets| - 1;
        if |Packets[last]| + |p| <= BUFFER_SIZE {
          JoinLast(Packets, p);
          Packets := Packets[last := Packets[last] + p];
          Total := Total + |p|;
          return true;
        }
      }
      PushBack(p);
      return true;
    }

    // All packets in one, if there are several and they are not too much in
    // all; otherwise the first one.
    method Join(upto: Option<nat>) returns (b: Option<seq<byte>>)
      requires Valid()
      modifies this`Packets, this`Total
      ensures Valid()
      ensures b == None <==> old(Packets) == []
      ensures b.Some? ==> old(Bytes()) == b.value + Bytes()
      ensures old(Packets) != [] ==>
                if upto.Some? && |old(Bytes())| > upto.value then b == Some(old(Packets)[0]) && Packets == old(Packets)[1..]
                else b == Some(old(Bytes())) && Packets == []
    {
      if |Packets| <= 1 {
        if Packets != [] {
          ConcatOne(Packets[0]);
          assert Packets == [Packets[0]];
        }
        b := PopFirst();
        return;
      }
      if upto.Some? && Total > upto.value {
        b := PopFirst();
        return;
      }
      while |Packets| > 1
        invariant Valid() && |Packets| >= 1 && Bytes() == old(Bytes())
        decreases |Packets|
      {
        JoinFirst(Packets);
        Packets := [Packets[0] + Packets[1]] + Packets[2..];
      }
      ConcatOne(Packets[0]);
      assert Packets == [Packets[0]];
      b := PopFirst();
    }
  }

  lemma JoinLast(packets: seq<seq<byte>>, p: seq<byte>)
    requires packets != []
    ensures var last := |packets| - 1;
            Concat(packets[last := packets[last] + p]) == Concat(packets) + p
  {
    var last := |packets| - 1;
    assert packets == packets[..last] + [packets[last]];
    ConcatAppend(packets[..last], [packets[last]]);
    ConcatOne(packets[last]);
    assert packets[last := packets[last] + p] == packets[..last] + [packets[last] + p];
    ConcatAppend(packets[..last], [packets[last] + p]);
    ConcatOne(packets[last] + p);
  }

  lemma JoinFirst(packets: seq<seq<byte>>)
    requires |packets| > 1
    ensures Concat([packets[0] + packets[1]] + packets[2..]) == Concat(packets)
  {
    assert packets[1..][1..] == packets[2..];
    assert ([packets[0] + packets[1]] + packets[2..])[1..] == packets[2..];
  }

  // ----- A socket

  datatype IoOutcome = Done(n: nat) | Blocked | Broken

  class Socket {
    const TxQueue: Queue
    const RxQueue: Queue
    ghost var Wire: seq<byte>      // every byte sent
    ghost var Input: seq<byte>     // every byte received
    ghost var Others: seq<byte>    // every byte others appended to TxQueue
    ghost var Sends: nat           // how often the transport was given something
    ghost var Waits: nat           // how often it would have had to wait
    ghost var Failures: nat        // ... and how often it failed
    ghost var Reads: nat           // ... and returned something

    ghost predicate Valid()
      reads this, TxQueue, RxQueue
    {
      TxQueue != RxQueue && TxQueue.Valid() && RxQueue.Valid()
    }

    constructor (tx: Queue, rx: Queue)
      requires tx != rx && tx.Valid() && rx.Valid()
      ensures Valid() && TxQueue == tx && RxQueue == rx && Wire == Input == Others == []
    {
      TxQueue, RxQueue := tx, rx;
      Wire, Input, Others := [], [], [];
      Sends, Waits, Failures, Reads := 0, 0, 0, 0;
    }

    // The transport takes some of the bytes, or none.
    method InternalWrite(data: seq<byte>) returns (outcome: IoOutcome)
      modifies this`Wire, this`Sends, this`Waits, this`Failures
      ensures Sends == old(Sends) + 1
      ensures Waits == old(Waits) + Count(outcome.Blocked?) && Failures == old(Failures) + Count(outcome.Broken?)
      ensures outcome.Done? ==> 0 < outcome.n <= |data| && Wire == old(Wire) + data[..outcome.n]
      ensures !outcome.Done? ==> Wire == old(Wire)
    {
      outcome := *;
      if outcome.Done? {
        if data == [] {
          outcome := Blocked;
        } else {
          var n := if 0 < outcome.n <= |data| then outcome.n else 1;
          outcome := Done(n);
          Wire := Wire + data[..n];
        }
      }
      Sends := Sends + 1;
      Waits, Failures := Waits + Count(outcome.Blocked?), Failures + Count(outcome.Broken?);
    }

    // The transport returns no more than it is asked for, into a buffer of a
    // fixed size.
    method InternalRead(size: nat) returns (outcome: IoOutcome, data: seq<byte>)
      requires 0 < size <= BUFFER_SIZE
      modifies this`Input, this`Waits, this`Failures, this`Reads
      ensures Waits == old(Waits) + Count(outcome.Blocked?) && Failures == old(Failures) + Count(outcome.Broken?)
      ensures Reads == old(Reads) + Count(outcome.Done?)
      ensures outcome.Done? ==> 0 < outcome.n == |data| <= size && Input == old(Input) + data
      ensures !outcome.Done? ==> Input == old(Input)
    {
      outcome := *;
      data := *;
      if outcome.Done? {
        if |data| == 0 || |data| > size {
          data := [0];
        }
        outcome := Done(|data|);
        Input := Input + data;
      }
      Waits, Failures := Waits + Count(outcome.Blocked?), Failures + Count(outcome.Broken?);
      Reads := Reads + Count(outcome.Done?);
    }

    // Another thread appends the next chunk of a script to the transmit queue,
    // or does nothing.
    method Interfere(script: seq<seq<byte>>) returns (rest: seq<seq<byte>>)
      requires TxQueue.Valid()
      modifies this`Others, TxQueue`Packets, TxQueue`Total
      ensures TxQueue.Valid() && old(Others) <= Others
      ensures TxQueue.Bytes() == old(TxQueue.Bytes()) + Others[|old(Others)|..]
      ensures |rest| < |script| || (rest == script && TxQueue.Packets == old(TxQueue.Packets) && Others == old(Others))
    {
      var now: bool := *;
      if script == [] || !now {
        return script;
      }
      if script[0] != [] {
        var ok := TxQueue.Append(script[0]);
        if ok {
          Others := Others + script[0];
        }
      }
      return script[1..];
    }

    // A packet taken out of the queue is sent, and what is left of it put back.
    method SendPacket(b: seq<byte>) returns (outcome: IoOutcome)
      requires TxQueue.Valid()
      modifies this`Wire, this`Sends, this`Waits, this`Failures, TxQueue`Packets, TxQueue`Total
      ensures TxQueue.Valid() && Sends == old(Sends) + 1
      ensures Waits == old(Waits) + Count(outcome.Blocked?) && Failures == old(Failures) + Count(outcome.Broken?)
      ensures match outcome
              case Done(n) =>
                && 0 < n <= |b| && Wire == old(Wire) + b[..n] && TxQueue.Bytes() == b[n..] + old(TxQueue.Bytes())
              case _ =>
                Wire == old(Wire) && TxQueue.Bytes() == b + old(TxQueue.Bytes())
    {
      outcome := InternalWrite(b);
      match outcome
      case Done(n) =>
        if n < |b| {
          TxQueue.PushFront(b[n..]);
        }
      case _ =>
        if b != [] {
          TxQueue.PushFront(b);
        }
    }

    // Sends what is queued, as far as the transport takes it, while others go
    // on appending: what is on the wire and what is queued together change only
    // by what they append, at the end. `expired` is at which look at the clock, of
    // two before each send, the deadline is over.
    method WriteIO(script: seq<seq<byte>>, expired: nat -> bool) returns (ok: bool)
      requires Valid()
      modifies this`Wire, this`Others, this`Sends, this`Waits, this`Failures, TxQueue`Packets, TxQueue`Total
      ensures Valid() && old(Others) <= Others && old(Wire) <= Wire
      // it stops with nothing queued, unless the deadline, a transport that
      // would wait, or a failure stops it
      ensures old(Sends) <= Sends
      ensures var looks := 2 * (Sends - old(Sends));
              TxQueue.Packets == [] || Waits > old(Waits) || !ok || expired(looks) || expired(looks + 1)
      // nothing is sent once the deadline is over
      ensures InTime(expired, 2 * (Sends - old(Sends)))
      ensures ok <==> Failures == old(Failures)
      ensures Wire + TxQueue.Bytes() == old(Wire + TxQueue.Bytes()) + Others[|old(Others)|..]
    {
      assert InTime(expired, 0);
      hide Kept, InTime;
      ghost var start, others := Wire + TxQueue.Bytes(), Others;
      KeptStart(start, Wire, TxQueue.Bytes());
      assert Others[|others|..] == [];
      var rest := script;
      var look := 0;
      ok := true;
      while true
        invariant Valid() && others <= Others && old(Wire) <= Wire
        invariant Kept(start, Others[|others|..], Wire, [], TxQueue.Bytes())
        invariant ok && Waits == old(Waits) && Failures == old(Failures) && look == 2 * (Sends - old(Sends))
        invariant InTime(expired, look)
        decreases |rest|, |TxQueue.Bytes()|
      {
        if expired(look) {
          break;
        }
        ghost var queued, added := TxQueue.Bytes(), Others[|others|..];
        var b := TxQueue.PopFirst();
        if b == None {
          break;
        }
        KeptPop(start, added, Wire, b.value, queued, TxQueue.Bytes());
        rest := Concurrently(rest, start, others, b.value);
        if expired(look + 1) {
          PutBack(start, Others[|others|..], b.value);
          break;
        }
        InTimeTwice(expired, look);
        look := look + 2;
        ghost var wire, left := Wire, TxQueue.Bytes();
        var outcome := SendPacket(b.value);
        KeptSend(start, Others[|others|..], wire, b.value, left, Wire, TxQueue.Bytes(),
                 if outcome.Done? then outcome.n else 0);
        if !outcome.Done? {
          ok := outcome.Blocked?;
          break;
        }
      }
      KeptEnd(start, Others[|others|..], Wire, TxQueue.Bytes());
    }

    method Concurrently(script: seq<seq<byte>>, ghost start: seq<byte>, ghost others: seq<byte>, ghost popped: seq<byte>)
      returns (rest: seq<seq<byte>>)
      requires TxQueue.Valid() && others <= Others
      requires Kept(start, Others[|others|..], Wire, popped, TxQueue.Bytes())
      modifies this`Others, TxQueue`Packets, TxQueue`Total
      ensures TxQueue.Valid() && others <= Others && Kept(start, Others[|others|..], Wire, popped, TxQueue.Bytes())
      ensures |rest| < |script| || (rest == script && TxQueue.Packets == old(TxQueue.Packets))
    {
      hide Kept;
      rest := Interfere(script);
      KeptAppend(start, old(Others)[|others|..], Wire, popped, old(TxQueue.Bytes()), Others[|old(Others)|..]);
      assert Others[|others|..] == old(Others)[|others|..] + Others[|old(Others)|..];
    }

    method PutBack(ghost start: seq<byte>, ghost added: seq<byte>, b: seq<byte>)
      requires TxQueue.Valid() && Kept(start, added, Wire, b, TxQueue.Bytes())
      modifies TxQueue`Packets, TxQueue`Total
      ensures TxQueue.Valid() && Kept(start, added, Wire, [], TxQueue.Bytes())
    {
      TxQueue.PushFront(b);
      assert Wire + b + old(TxQueue.Bytes()) == Wire + [] + TxQueue.Bytes();
    }

    // What fits the limit is read, and queued as it came: the queue never
    // refuses it. `script` tells at each turn whether the deadline is over, and
    // bounds how long the transport has something to read.
    method ReadIO(script: seq<bool>) returns (ok: bool)
      requires Valid()
      modifies this`Input, this`Waits, this`Failures, this`Reads, RxQueue`Packets, RxQueue`Total
      ensures Valid() && old(Input) <= Input
      ensures RxQueue.Bytes() == old(RxQueue.Bytes()) + Input[|old(Input)|..]
      ensures RxQueue.Limit.Some? && |old(RxQueue.Bytes())| <= RxQueue.Limit.value ==>
                |RxQueue.Bytes()| <= RxQueue.Limit.value
      ensures ok <==> Failures == old(Failures)
      ensures old(Reads) <= Reads <= old(Reads) + |script|
      // it reads at every turn, until the queue is full, unless the deadline, a
      // transport with nothing more to read, or a failure stops it
      ensures || Reads == old(Reads) + |script| || (RxQueue.Limit.Some? && |RxQueue.Bytes()| >= RxQueue.Limit.value)
              || Waits > old(Waits) || !ok || script[Reads - old(Reads)]
      // nothing is read once the deadline is over
      ensures forall t :: 0 <= t < Reads - old(Reads) ==> !script[t]
    {
      var turn := 0;
      while turn < |script|
        invariant Valid() && old(Input) <= Input && turn <= |script|
        invariant RxQueue.Bytes() == old(RxQueue.Bytes()) + Input[|old(Input)|..]
        invariant RxQueue.Limit.Some? && |old(RxQueue.Bytes())| <= RxQueue.Limit.value ==>
                    |RxQueue.Bytes()| <= RxQueue.Limit.value
        invariant forall t :: 0 <= t < turn ==> !script[t]
        invariant Reads == old(Reads) + turn && Waits == old(Waits) && Failures == old(Failures)
        decreases |script| - turn
      {
        if script[turn] {
          break;   // the deadline is over
        }
        turn := turn + 1;
        var available := RxQueue.GetAvailableLimit();
        var size := BUFFER_SIZE;
        if available.Some? {
          if available.value == 0 {
            break;
          }
          if size > available.value {
            size := available.value;
          }
        }
        var outcome, data := InternalRead(size);
        match outcome
        case Done(_) =>
          var appended := RxQueue.Append(data);
          assert appended;
        case Blocked =>
          return true;
        case Broken =>
          return false;
      }
      return true;
    }

    // Sent at once, as far as that goes, if nothing is queued before it, and
    // queued as a whole otherwise, behind what others append in the meantime. A
    // result n > 0 is for the first n bytes; a failed transport and a queue at
    // its limit are the only refusals.
    method Write(data: seq<byte>, script: seq<seq<byte>>) returns (n: int, queued: bool)
      requires Valid()
      modifies this`Wire, this`Others, this`Sends, this`Waits, this`Failures, TxQueue`Packets, TxQueue`Total
      ensures Valid() && old(Others) <= Others && -1 <= n <= |data|
      ensures n == 0 <==> data == []
      ensures var added := Others[|old(Others)|..];
              if n > 0 && !queued then
                old(TxQueue.Bytes()) == [] && Wire == old(Wire) + data[..n] && TxQueue.Bytes() == added
              else
                && Wire == old(Wire)
                && TxQueue.Bytes() == old(TxQueue.Bytes()) + added + if queued then data else []
      ensures queued ==> n == |data| > 0 && (Sends == old(Sends) || Waits > old(Waits))
      // over an empty queue the transport is tried first
      ensures data != [] && old(TxQueue.Bytes()) == [] && Others == old(Others) ==> Sends > old(Sends)
      ensures Sends > old(Sends) ==> old(TxQueue.Bytes()) == []
      ensures n == -1 <==>
                data != [] && (Failures > old(Failures)
                               || (TxQueue.Limit.Some? && |TxQueue.Bytes()| + |data| > TxQueue.Limit.value && !queued
                                   && Wire == old(Wire)))
    {
      if data == [] {
        assert Others[|old(Others)|..] == [];
        return 0, false;
      }
      var rest := Interfere(script);
      ghost var before := Others;
      if TxQueue.Total == 0 {
        var outcome := InternalWrite(data);
        rest := Interfere(rest);
        AddedTwice(old(Others), before, Others);
        match outcome {
          case Done(k) =>
            return k, false;
          case Broken =>
            return -1, false;
          case Blocked =>
        }
      }
      var ok := TxQueue.Append(data);
      if !ok {
        return -1, false;
      }
      return |data|, true;
    }

    // One packet at a time. One that is larger than the caller's buffer is
    // dropped, and only such a one. `io` is what the reading loop has returned.
    method Read(size: nat, io: bool) returns (cb: int, data: seq<byte>, ghost dropped: seq<byte>)
      requires Valid()
      modifies RxQueue`Packets, RxQueue`Total
      ensures Valid() && old(RxQueue.Bytes()) == data + dropped + RxQueue.Bytes()
      ensures if old(RxQueue.Packets) == [] then
                cb == (if io then 0 else -1) && data == dropped == [] && RxQueue.Packets == []
              else
                var first := old(RxQueue.Packets)[0];
                && RxQueue.Packets == old(RxQueue.Packets)[1..]
                && if |first| > size then cb == -1 && data == [] && dropped == first
                   else cb == |first| && data == first && dropped == []
    {
      data, dropped := [], [];
      var b := RxQueue.PopFirst();
      if b == None {
        cb := if io then 0 else -1;
        return;
      }
      cb := |b.value|;
      if cb > size {
        dropped := b.value;
        assert [] + dropped == dropped;
        return -1, data, dropped;
      }
      data := b.value;
      assert data + [] == data;
    }
  }

  lemma AddedTwice(a: seq<byte>, b: seq<byte>, c: seq<byte>)
    requires a <= b <= c
    ensures c[|a|..] == b[|a|..] + c[|b|..]
  {
  }

  // Reading with a buffer that is too small loses the packet: it was queued, the
  // call fails, and nothing is left for a call with a larger one.
  method OversizedPacketIsLost(p: seq<byte>, size: nat) returns (socket: Socket, first: int, second: int, data: seq<byte>)
    requires |p| > size
    ensures socket.Valid() && socket.RxQueue.Packets == []
    ensures first == -1 && second == 0 && data == []
  {
    var tx := new Queue(None, false);
    var rx := new Queue(None, false);
    var ok := rx.Append(p);
    socket := new Socket(tx, rx);
    ghost var lost;
    first, data, lost := socket.Read(size, true);
    second, data, lost := socket.Read(|p|, true);
  }

  // The first `looks` looks at the clock find the deadline ahead.
  ghost predicate InTime(expired: nat -> bool, looks: nat) {
    forall look: nat :: look < looks ==> !expired(look)
  }

  lemma InTimeTwice(expired: nat -> bool, looks: nat)
    requires InTime(expired, looks) && !expired(looks) && !expired(looks + 1)
    ensures InTime(expired, looks + 2)
  {
  }

  // What has been sent, what has been taken out and what is queued, together,
  // are what there was, and what has been added.
  ghost predicate Kept(start: seq<byte>, added: seq<byte>, wire: seq<byte>, popped: seq<byte>, queue: seq<byte>) {
    wire + popped + queue == start + added
  }

  lemma KeptStart(start: seq<byte>, wire: seq<byte>, queue: seq<byte>)
    requires start == wire + queue
    ensures Kept(start, [], wire, [], queue)
  {
    assert wire + [] == wire && start + [] == start;
  }

  lemma KeptAppend(start: seq<byte>, added: seq<byte>, wire: seq<byte>, popped: seq<byte>, queue: seq<byte>, more: seq<byte>)
    requires Kept(start, added, wire, popped, queue)
    ensures Kept(start, added + more, wire, popped, queue + more)
  {
    assert wire + popped + (queue + more) == wire + popped + queue + more;
    assert start + (added + more) == start + added + more;
  }

  lemma KeptPop(start: seq<byte>, added: seq<byte>, wire: seq<byte>, b: seq<byte>, queue: seq<byte>, queue': seq<byte>)
    requires Kept(start, added, wire, [], queue) && queue == b + queue'
    ensures Kept(start, added, wire, b, queue')
  {
    assert wire + [] + (b + queue') == wire + b + queue';
  }

  lemma KeptSend(start: seq<byte>, added: seq<byte>, wire: seq<byte>, b: seq<byte>, queue: seq<byte>,
                 wire': seq<byte>, queue': seq<byte>, n: nat)
    requires Kept(start, added, wire, b, queue) && n <= |b|
    requires wire' == wire + b[..n] && queue' == b[n..] + queue
    ensures Kept(start, added, wire', [], queue')
  {
    assert b == b[..n] + b[n..];
    assert wire' + [] + queue' == wire + b + queue;
  }

  lemma KeptEnd(start: seq<byte>, added: seq<byte>, wire: seq<byte>, queue: seq<byte>)
    requires Kept(start, added, wire, [], queue)
    ensures wire + queue == start + added
  {
    assert wire + [] == wire;
  }
}
