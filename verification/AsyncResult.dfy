/** What asynchronous streams report to their owners. */
module AsyncResult {
  import opened Buffers

  datatype Operation = Nothing | Read | Write | ReadClosed | Handshake | Error | Wake | Stop
  datatype ErrorOrigin = NoOrigin | Transport | Tls
  datatype Result = Result(op: Operation, data: seq<byte>, bytes: nat, error: int, origin: ErrorOrigin)

  // A Write result has the size of the whole chain, and all of it is on the wire
  // as it stands, from `base` on.
  ghost predicate AllWritten(r: Result, chain: Chain, wire: seq<byte>, base: nat) {
    r.op.Write? ==>
      ValidChain(chain) && r.bytes == |Flatten(chain)| && base <= |wire| && wire[base..] == Flatten(chain)
  }

  // From the n-th result on, one answers a read, or a write, of a stream s.
  ghost predicate Answered<S>(results: seq<(S, Result)>, n: nat, s: S, reading: bool) {
    exists k :: n <= k < |results| && results[k].0 == s && Answers(results[k].1.op, reading)
  }

  predicate Answers(op: Operation, reading: bool) {
    op.Error? || if reading then op.Read? || op.ReadClosed? else op.Write?
  }

  lemma AnsweredBy<S>(results: seq<(S, Result)>, n: nat, s: S, reading: bool)
    requires n < |results| && results[n].0 == s && Answers(results[n].1.op, reading)
    ensures Answered(results, n, s, reading)
  {
  }

  lemma AnsweredLater<S>(results: seq<(S, Result)>, results': seq<(S, Result)>, n: nat, n': nat, s: S, reading: bool)
    requires Answered(results, n', s, reading) && results <= results' && n <= n'
    ensures Answered(results', n, s, reading)
  {
    var k :| n' <= k < |results| && results[k].0 == s && Answers(results[k].1.op, reading);
    assert results'[k] == results[k];
  }

  // The sizes of the writes that were reported of a stream, in order.
  ghost function Written<S>(results: seq<(S, Result)>, s: S): seq<nat> {
    if results == [] then [] else
      var (t, r) := results[|results| - 1];
      Written(results[..|results| - 1], s) + if t == s && r.op.Write? then [r.bytes] else []
  }

  ghost predicate Failed<S>(results: seq<(S, Result)>, s: S) {
    exists k :: 0 <= k < |results| && results[k].0 == s && results[k].1.op.Error?
  }

  lemma {:induction false} WrittenConcat<S>(a: seq<(S, Result)>, b: seq<(S, Result)>, s: S)
    ensures Written(a + b, s) == Written(a, s) + Written(b, s)
    decreases |b|
  {
    if b == [] {
      assert a + b == a;
    } else {
      assert (a + b)[..|a + b| - 1] == a + b[..|b| - 1];
      WrittenConcat(a, b[..|b| - 1], s);
    }
  }

  lemma {:induction false} WrittenNone<S>(results: seq<(S, Result)>, s: S)
    requires forall k :: 0 <= k < |results| ==> !(results[k].0 == s && results[k].1.op.Write?)
    ensures Written(results, s) == []
  {
    if results != [] {
      WrittenNone(results[..|results| - 1], s);
    }
  }

  lemma WrittenOne<S>(s: S, r: Result)
    ensures Written([(s, r)], s) == if r.op.Write? then [r.bytes] else []
  {
    assert [(s, r)][..0] == [];
  }

  // Unless the stream has failed, exactly the writes that were started have been
  // reported, each once and in order, but for those that are left.
  ghost predicate Accounted<S>(results: seq<(S, Result)>, s: S, before: seq<nat>, started: seq<nat>, left: seq<nat>) {
    Failed(results, s) || Written(results, s) + left == before + started
  }

  // ... and what was on the wire and what was still to be sent have only grown by
  // the bytes of the writes that were started.
  ghost predicate Conveyed<S>(results: seq<(S, Result)>, s: S, before: seq<byte>, started: seq<byte>, after: seq<byte>) {
    Failed(results, s) || after == before + started
  }

  lemma FailedLater<S>(results: seq<(S, Result)>, more: seq<(S, Result)>, s: S)
    ensures Failed(results + more, s) <==> Failed(results, s) || Failed(more, s)
  {
    var both := results + more;
    forall k | 0 <= k < |results| ensures both[k] == results[k] {
    }
    forall k | 0 <= k < |more| ensures both[|results| + k] == more[k] {
    }
    forall k | |results| <= k < |both| ensures both[k] == more[k - |results|] {
    }
  }

  lemma ConveyedTwice<S>(results: seq<(S, Result)>, more: seq<(S, Result)>, s: S, before: seq<byte>, started: seq<byte>,
                         middle: seq<byte>, started': seq<byte>, after: seq<byte>)
    requires Conveyed(results, s, before, started, middle) && Conveyed(more, s, middle, started', after)
    ensures Conveyed(results + more, s, before, started + started', after)
  {
    hide Failed;
    FailedLater(results, more, s);
    assert before + started + started' == before + (started + started');
  }

  lemma AccountedTwice<S>(results: seq<(S, Result)>, more: seq<(S, Result)>, s: S, before: seq<nat>, started: seq<nat>,
                          left: seq<nat>, started': seq<nat>, left': seq<nat>)
    requires Accounted(results, s, before, started, left) && Accounted(more, s, left, started', left')
    ensures Accounted(results + more, s, before, started + started', left')
  {
    hide Failed;
    FailedLater(results, more, s);
    if !Failed(results, s) && !Failed(more, s) {
      var w, w' := Written(results, s), Written(more, s);
      WrittenConcat(results, more, s);
      assert w + w' + left' == w + (w' + left') == w + (left + started') == (w + left) + started';
      assert before + started + started' == before + (started + started');
    }
  }
}
