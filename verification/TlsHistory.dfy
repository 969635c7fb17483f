/** What a TLS stream has reported and sent, as values: results, and the
    relations between plaintext, ciphertext and results that the stream keeps. */
module TlsHistory {
  import opened AsyncResult
  import opened Buffers

  // The plaintext handed to the owner, the sizes of the writes reported to it,
  // and the number of completed handshakes, over a log of results.
  function ReadBytes(log: seq<Result>): seq<byte> {
    if log == [] then [] else
      var r := log[|log| - 1];
      var before := ReadBytes(log[..|log| - 1]);
      if r.op.Read? then before + r.data else before
  }

  function WriteSizes(log: seq<Result>): seq<nat> {
    if log == [] then [] else
      var r := log[|log| - 1];
      var before := WriteSizes(log[..|log| - 1]);
      if r.op.Write? then before + [r.bytes] else before
  }

  function Handshakes(log: seq<Result>): nat {
    if log == [] then 0 else
      var r := log[|log| - 1];
      Handshakes(log[..|log| - 1]) + if r.op.Handshake? then 1 else 0
  }

  // The codes of the errors of the session that were reported.
  function TlsErrors(log: seq<Result>): seq<int> {
    if log == [] then [] else
      var r := log[|log| - 1];
      TlsErrors(log[..|log| - 1]) + if r.op.Error? && r.origin.Tls? then [r.error] else []
  }

  lemma TlsErrorsPush(log: seq<Result>, r: Result)
    ensures TlsErrors(log + [r]) == TlsErrors(log) + if r.op.Error? && r.origin.Tls? then [r.error] else []
  {
    assert (log + [r])[..|log|] == log;
  }

  // A write that has been reported: the chain it wrote, where its plaintext
  // starts in all plaintext accepted, and how much ciphertext there was when
  // the last of it had been encrypted.
  datatype FinishedWrite = FinishedWrite(chain: Chain, base: nat, mark: nat) {
    ghost function End(): nat
      requires ValidChain(chain)
    {
      base + |Flatten(chain)|
    }
  }

  function FinishedSizes(fs: seq<FinishedWrite>): seq<nat>
    requires forall f :: f in fs ==> ValidChain(f.chain)
  {
    if fs == [] then [] else FinishedSizes(fs[..|fs| - 1]) + [|Flatten(fs[|fs| - 1].chain)|]
  }

  ghost function Max(a: int, b: int): int {
    if a >= b then a else b
  }

  // ----- Invariants, over the values they are about

  // What the owner has not taken yet is the end of all that was queued, and
  // the owner has been told if there is any.
  ghost predicate Pending(log: seq<Result>, pending: seq<Result>, sink: bool, notified: bool) {
    && |pending| <= |log|
    && pending == log[|log| - |pending|..]
    && (notified <==> sink && pending != [])
  }

  ghost predicate Summary(log: seq<Result>, delivered: seq<byte>, reported: seq<nat>, handshakes: nat) {
    && delivered == ReadBytes(log)
    && reported == WriteSizes(log)
    && handshakes == Handshakes(log)
    && (forall r :: r in log && r.op.Read? ==> 0 < |r.data| == r.bytes)
  }

  lemma PendingPush(log: seq<Result>, pending: seq<Result>, sink: bool, notified: bool, r: Result)
    requires Pending(log, pending, sink, notified)
    ensures Pending(log + [r], pending + [r], sink, notified || sink)
  {
  }

  lemma SummaryPush(log: seq<Result>, delivered: seq<byte>, reported: seq<nat>, handshakes: nat, r: Result)
    requires Summary(log, delivered, reported, handshakes)
    requires r.op.Read? ==> 0 < |r.data| == r.bytes
    ensures Summary(log + [r],
                    if r.op.Read? then delivered + r.data else delivered,
                    if r.op.Write? then reported + [r.bytes] else reported,
                    handshakes + if r.op.Handshake? then 1 else 0)
  {
    assert (log + [r])[..|log|] == log;
  }

  // A log only grows at its end.
  ghost predicate Extends(log: seq<Result>, log': seq<Result>) {
    log <= log'
  }

  lemma ExtendsSelf(log: seq<Result>)
    ensures Extends(log, log)
  {
  }

  lemma ExtendsPush(log: seq<Result>, r: Result)
    ensures Extends(log, log + [r])
  {
  }

  lemma ExtendsTransitive(a: seq<Result>, b: seq<Result>, c: seq<Result>)
    requires Extends(a, b) && Extends(b, c)
    ensures Extends(a, c)
  {
  }

  // `left` is the adopted plaintext that has not been delivered.
  ghost predicate Adopted(buffers: seq<seq<byte>>, offset: nat, left: seq<byte>) {
    if buffers == [] then left == []
    else offset <= |buffers[0]| && left == buffers[0][offset..] + Concat(buffers[1..])
  }

  lemma AdoptedNone(buffers: seq<seq<byte>>, offset: nat, left: seq<byte>)
    requires Adopted(buffers, offset, left) && buffers == []
    ensures left == []
  {
  }

  lemma AdoptedPop(buffers: seq<seq<byte>>, offset: nat, left: seq<byte>)
    requires Adopted(buffers, offset, left) && buffers != [] && offset >= |buffers[0]|
    ensures Adopted(buffers[1..], 0, left)
  {
  }

  lemma AdoptedTake(buffers: seq<seq<byte>>, offset: nat, left: seq<byte>, n: nat)
    requires Adopted(buffers, offset, left) && buffers != [] && offset + n <= |buffers[0]|
    ensures n <= |left| && left[..n] == buffers[0][offset..offset + n]
    ensures Adopted(buffers, offset + n, left[n..])
  {
  }

  // Plaintext is delivered exactly: what was adopted, then what SSL_read
  // returned.
  ghost predicate ReadsExact(delivered: seq<byte>, left: seq<byte>, adopted: seq<byte>, readOut: seq<byte>) {
    delivered + left == adopted + readOut
  }

  lemma ReadsExactTake(delivered: seq<byte>, left: seq<byte>, adopted: seq<byte>, readOut: seq<byte>, n: nat)
    requires ReadsExact(delivered, left, adopted, readOut) && n <= |left|
    ensures ReadsExact(delivered + left[..n], left[n..], adopted, readOut)
  {
    assert left == left[..n] + left[n..];
  }

  lemma ReadsExactGrow(delivered: seq<byte>, left: seq<byte>, adopted: seq<byte>, readOut: seq<byte>, data: seq<byte>)
    requires ReadsExact(delivered, left, adopted, readOut) && left == []
    ensures ReadsExact(delivered + data, left, adopted, readOut + data)
  {
    assert adopted + readOut + data == adopted + (readOut + data);
  }

  // The reported writes, their sizes as reported: all of their plaintext was
  // accepted as it stands in the chain, and all ciphertext there was when its
  // last byte had been accepted is among the first `written` bytes. `ends` tells
  // how much that was.
  ghost predicate WritesExact(fs: seq<FinishedWrite>, reported: seq<nat>, accepted: seq<byte>, ends: map<nat, nat>,
                              written: nat) {
    && (forall f :: f in fs ==>
          && ValidChain(f.chain)
          && f.End() <= |accepted| && accepted[f.base..f.End()] == Flatten(f.chain)
          && f.End() in ends && f.mark == ends[f.End()] && f.mark <= written)
    && reported == FinishedSizes(fs)
  }

  lemma WritesExactMonotone(fs: seq<FinishedWrite>, reported: seq<nat>, accepted: seq<byte>, ends: map<nat, nat>,
                            written: nat, accepted': seq<byte>, ends': map<nat, nat>, written': nat)
    requires WritesExact(fs, reported, accepted, ends, written)
    requires accepted <= accepted' && written <= written'
    requires forall k :: k in ends && k <= |accepted| ==> k in ends' && ends'[k] == ends[k]
    ensures WritesExact(fs, reported, accepted', ends', written')
  {
    forall f | f in fs ensures accepted'[f.base..f.End()] == accepted[f.base..f.End()] {
      assert accepted == accepted'[..|accepted|];
    }
  }

  lemma WritesExactPush(fs: seq<FinishedWrite>, reported: seq<nat>, accepted: seq<byte>, ends: map<nat, nat>,
                        written: nat, f: FinishedWrite, size: nat)
    requires WritesExact(fs, reported, accepted, ends, written)
    requires Partial(f.chain, size, size, accepted, f.base)
    requires |accepted| in ends && f.mark == ends[|accepted|] && f.mark <= written
    ensures WritesExact(fs + [f], reported + [size], accepted, ends, written)
  {
    assert (fs + [f])[..|fs|] == fs;
    assert accepted[f.base..f.base + size] == accepted[f.base..];
  }

  // Each write has its own part of all plaintext accepted, in the order of the
  // writes and below `limit`.
  ghost predicate Ordered(fs: seq<FinishedWrite>, limit: nat) {
    && (forall f :: f in fs ==> ValidChain(f.chain) && f.End() <= limit)
    && (forall i, j :: 0 <= i < j < |fs| ==> fs[i].End() <= fs[j].base)
  }

  lemma OrderedPush(fs: seq<FinishedWrite>, f: FinishedWrite)
    requires Ordered(fs, f.base) && ValidChain(f.chain)
    ensures Ordered(fs + [f], f.End())
  {
    forall i | 0 <= i < |fs| ensures fs[i].End() <= f.base {
      assert fs[i] in fs;
    }
  }

  lemma OrderedUpTo(fs: seq<FinishedWrite>, limit: nat, limit': nat)
    requires Ordered(fs, limit) && limit <= limit'
    ensures Ordered(fs, limit')
  {
  }

  // Ciphertext is neither lost, repeated nor reordered on its way down.
  ghost predicate Conserved(completed: seq<byte>, queued: seq<byte>, wbio: seq<byte>, produced: seq<byte>) {
    completed + queued + wbio == produced
  }

  lemma ConservedEmit(completed: seq<byte>, queued: seq<byte>, wbio: seq<byte>, produced: seq<byte>,
                      wbio': seq<byte>, produced': seq<byte>)
    requires Conserved(completed, queued, wbio, produced)
    requires produced <= produced' && wbio' == wbio + produced'[|produced|..]
    ensures Conserved(completed, queued, wbio', produced')
  {
    var out := produced'[|produced|..];
    assert produced' == produced + out;
    assert completed + queued + (wbio + out) == completed + queued + wbio + out;
  }

  lemma ConservedDrain(completed: seq<byte>, queued: seq<byte>, wbio: seq<byte>, produced: seq<byte>, n: nat)
    requires Conserved(completed, queued, wbio, produced) && n <= |wbio|
    ensures Conserved(completed, queued + wbio[..n], wbio[n..], produced)
  {
    assert wbio == wbio[..n] + wbio[n..];
  }

  lemma ConservedMove(completed: seq<byte>, queued: seq<byte>, wbio: seq<byte>, produced: seq<byte>,
                      completed': seq<byte>, queued': seq<byte>)
    requires Conserved(completed, queued, wbio, produced) && completed + queued == completed' + queued'
    ensures Conserved(completed', queued', wbio, produced)
  {
  }
}
