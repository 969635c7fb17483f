/** A TLS stream over a lower stream: handshake, plain reads and writes, and
    shutdown are all advanced by one re-entrant Drive(). */
module Tls {
  import opened AsyncResult
  import opened Buffers
  import opened SslSession
  import opened TlsHistory
  import opened Wrappers
  import opened WriteQueue

  const TLS_WRITE_BATCH_LIMIT: nat := 64 * 1024
  const ENCRYPTED_CHUNK_SIZE: nat := 128 * 1024
  // A record, header and expansion included, is below this (section 5.2 of
  // RFC 8446), so that a batch and one more record fit one chunk.
  const MAX_RECORD: nat := 32 * 1024

  // How many chunks n bytes of ciphertext make.
  function Chunks(n: nat): nat {
    (n + ENCRYPTED_CHUNK_SIZE - 1) / ENCRYPTED_CHUNK_SIZE
  }

  lemma NextChunk(n: nat)
    requires 0 < n
    ensures Chunks(n) == 1 + Chunks(n - if n < ENCRYPTED_CHUNK_SIZE then n else ENCRYPTED_CHUNK_SIZE)
  {
  }

  lemma ChunksFit(n: nat)
    ensures Chunks(0) == 0
    ensures n <= ENCRYPTED_CHUNK_SIZE ==> Chunks(n) <= 1
  {
  }

  const SSL_ERROR_SYSCALL: int := 5

  class AsyncTlsStream {
    const Lower: LowerStream
    const Session: Ssl
    const LowerWriter: AsyncWriteQueue

    var PendingResults: seq<Result>
    var HasSink: bool
    var ResultNotified: bool

    var AdoptedPlainBuffers: seq<seq<byte>>
    var AdoptedPlainOffset: nat

    var Removing: bool
    var HandshakeStarted: bool
    var HandshakeCompleted: bool
    var HandshakeResultQueued: bool
    var LowerReadPending: bool
    var LowerReadClosed: bool
    var TlsReadClosed: bool
    var ShutdownPending: bool
    var ShutdownCompleted: bool
    var LowerSendShutdownCompleted: bool

    var PlainReadBuffer: Option<nat>  // the size of the caller's buffer
    var PlainReadPending: bool

    var PlainWriteBuffers: Chain
    var PlainWriteOffset: nat
    var PlainWriteSize: nat
    var PlainWritePending: bool
    var PlainWriteNeedsRead: bool

    // History
    ghost const AdoptedSession: bool       // the handshake was over at construction
    ghost const AdoptedPlaintext: seq<byte>
    ghost const RefusalsBefore: nat
    ghost const FailuresBefore: nat
    ghost const ClosedBefore: bool
    ghost const SendShutdownsBefore: nat
    ghost const ReadsBefore: nat
    ghost var ResultLog: seq<Result>       // every result ever queued
    ghost var Delivered: seq<byte>         // the plaintext in it
    ghost var Reported: seq<nat>           // the sizes of the writes in it
    ghost var HandshakesReported: nat
    ghost var AdoptedLeft: seq<byte>
    ghost var LowerReadsAdopted: nat       // lower reads the owner had started
    ghost var LowerReadsEnded: nat         // ... and whose result has come
    ghost var EarlyReadAccepted: bool      // a plain read came before StartHandshake
    ghost var EarlyReadAnswered: bool      // ... and a lower close answered it
    ghost var WriteBase: nat               // plaintext accepted before the pending write
    ghost var WriteMark: nat               // ciphertext after its last SSL_write
    ghost var Finished: seq<FinishedWrite>
    ghost var WritesStarted: nat
    ghost var WritesFailed: nat
    ghost var CloseNotifyMark: nat         // ciphertext when TLS shutdown completed
    ghost var SendShutdownMark: nat        // ... and when the lower side was shut down

    ghost predicate ResultsOk()
      reads this`PendingResults, this`HasSink, this`ResultNotified
      reads this`ResultLog, this`Delivered, this`Reported, this`HandshakesReported
    {
      && Pending(ResultLog, PendingResults, HasSink, ResultNotified)
      && Summary(ResultLog, Delivered, Reported, HandshakesReported)
    }

    ghost predicate ReadOk()
      reads this`PlainReadPending, this`PlainReadBuffer, this`HandshakeStarted, this`EarlyReadAccepted, this`Removing
      reads this`AdoptedPlainBuffers, this`AdoptedPlainOffset, this`AdoptedLeft, this`Delivered, Session`ReadOut
    {
      && (PlainReadPending <==> PlainReadBuffer.Some?)
      && (PlainReadPending ==> 0 < PlainReadBuffer.value)
      && (PlainReadPending && !HandshakeStarted ==> EarlyReadAccepted)
      && (!Removing ==>
            && Adopted(AdoptedPlainBuffers, AdoptedPlainOffset, AdoptedLeft)
            && (AdoptedPlainBuffers != [] ==> Session.ReadOut == [])
            && ReadsExact(Delivered, AdoptedLeft, AdoptedPlaintext, Session.ReadOut))
    }

    // Before the handshake completes exactly one result is ever queued, but
    // for a close that answers a read made before StartHandshake.
    ghost predicate HandshakeOk()
      reads this`HandshakeStarted, this`HandshakeCompleted, this`HandshakeResultQueued
      reads this`HandshakesReported, this`ResultLog, this`EarlyReadAccepted, this`EarlyReadAnswered
      reads this`TlsReadClosed, this`PlainReadPending, this`PlainWriteNeedsRead, this`ShutdownCompleted
      reads Session`HandshakeDone
    {
      && (AdoptedSession ==> HandshakeCompleted)
      && (HandshakeCompleted ==> HandshakeStarted)
      && (HandshakeCompleted && !AdoptedSession ==> HandshakeResultQueued && Session.HandshakeDone)
      && HandshakesReported == Count(HandshakeCompleted && !AdoptedSession)
      && (!HandshakeCompleted ==>
            |ResultLog| == Count(HandshakeResultQueued) + Count(EarlyReadAnswered))
      && (EarlyReadAnswered ==> EarlyReadAccepted && TlsReadClosed && !PlainReadPending)
      && (PlainWriteNeedsRead || ShutdownCompleted ==> HandshakeCompleted)
    }

    ghost predicate WriteOk()
      reads this`WritesStarted, this`WritesFailed, this`Finished, this`Reported, this`Removing
      reads this`PlainWriteBuffers, this`PlainWriteSize, this`PlainWriteOffset, this`PlainWritePending
      reads this`PlainWriteNeedsRead, this`WriteBase, this`WriteMark
      reads Session`Accepted, Session`WriteEnds, Session`Wbio, Session`Produced
      reads LowerWriter`Completed, LowerWriter`Queued
    {
      ProgressOk() && HistoryOk()
    }

    // The pending write, if any, is encrypted up to its offset.
    ghost predicate ProgressOk()
      reads this`WritesStarted, this`WritesFailed, this`Finished
      reads this`PlainWriteBuffers, this`PlainWriteSize, this`PlainWriteOffset, this`PlainWritePending
      reads this`PlainWriteNeedsRead, this`WriteBase, this`WriteMark
      reads Session`Accepted, Session`WriteEnds, Session`Produced
    {
      && WritesStarted == |Finished| + WritesFailed + Count(PlainWritePending)
      && if PlainWritePending then
           && Partial(PlainWriteBuffers, PlainWriteSize, PlainWriteOffset, Session.Accepted, WriteBase)
           && WriteMark <= |Session.Produced|
           && (PlainWriteOffset > 0 ==>
                 |Session.Accepted| in Session.WriteEnds && WriteMark == Session.WriteEnds[|Session.Accepted|])
         else
           && PlainWriteBuffers == [] && PlainWriteOffset == PlainWriteSize == 0
           && !PlainWriteNeedsRead
    }

    // The finished ones were written in full, one after the other, and no
    // ciphertext is lost.
    ghost predicate HistoryOk()
      reads this`Finished, this`Reported, this`Removing, this`PlainWritePending, this`WriteBase
      reads Session`Accepted, Session`WriteEnds, Session`Wbio, Session`Produced
      reads LowerWriter`Completed, LowerWriter`Queued
    {
      !Removing ==>
        && WritesExact(Finished, Reported, Session.Accepted, Session.WriteEnds, |LowerWriter.Completed|)
        && Ordered(Finished, if PlainWritePending then WriteBase else |Session.Accepted|)
        && Conserved(LowerWriter.Completed, LowerWriter.Queued, Session.Wbio, Session.Produced)
    }

    ghost predicate ShutdownOk()
      reads this`ShutdownCompleted, this`LowerSendShutdownCompleted, this`Removing
      reads this`CloseNotifyMark, this`SendShutdownMark
      reads Session`Produced, Session`ShutdownEnd, LowerWriter`Completed, Lower`SendShutdowns
    {
      && Lower.SendShutdowns == SendShutdownsBefore + Count(LowerSendShutdownCompleted)
      && Session.ShutdownEnd == (if ShutdownCompleted then Some(CloseNotifyMark) else None)
      && (ShutdownCompleted ==> CloseNotifyMark <= |Session.Produced|)
      && (LowerSendShutdownCompleted ==>
            && ShutdownCompleted
            && CloseNotifyMark <= SendShutdownMark
            && (!Removing ==> SendShutdownMark <= |LowerWriter.Completed|))
    }

    // Reading is only closed by the session or from below.
    ghost predicate ClosedOk()
      reads this`TlsReadClosed, this`LowerReadClosed, Session`Closed
    {
      TlsReadClosed ==> ClosedBefore || Session.Closed || LowerReadClosed
    }

    // The session's errors that were reported are exactly its failures, with
    // their codes and in their order.
    ghost predicate Honest()
      reads this`ResultLog, Session`Failures
    {
      FailuresBefore <= |Session.Failures| && TlsErrors(ResultLog) == Session.Failures[FailuresBefore..]
    }

    // ... but for the last one, which is still to be reported.
    ghost predicate Owed(error: int)
      reads this`ResultLog, Session`Failures
    {
      && FailuresBefore <= |Session.Failures|
      && TlsErrors(ResultLog) + [ReportedCode(error)] == Session.Failures[FailuresBefore..]
    }

    // What holds at every point where one step calls the next.
    ghost predicate Core()
      reads this, Session, LowerWriter, LowerWriter.Stream, Lower
    {
      && LowerWriter.Valid() && LowerWriter.Stream == Lower
      && Session.MaxRecord <= MAX_RECORD
      && Lower.Refusals >= RefusalsBefore
      && ResultsOk() && ReadOk() && HandshakeOk() && WriteOk() && ShutdownOk() && ClosedOk()
    }

    // Between calls the write BIO is empty, unless the lower stream refused
    // the chunk ahead of what is left there.
    ghost predicate Settled()
      reads Session`Wbio, LowerWriter`Queue, LowerWriter`WritePending
    {
      Session.Wbio != [] ==> LowerWriter.Queue != [] && !LowerWriter.WritePending
    }

    ghost predicate Terminated()
      reads this`HandshakeCompleted, this`HandshakeResultQueued
    {
      !HandshakeCompleted && HandshakeResultQueued
    }

    // As long as the lower stream takes what it is given, something will
    // always happen below for whatever is pending above.
    ghost predicate NeverStalls()
      reads this`Removing, this`HandshakeStarted, this`HandshakeCompleted, this`HandshakeResultQueued
      reads this`LowerReadPending, this`LowerReadClosed, this`PlainReadPending, this`PlainWritePending
      reads this`PlainWriteNeedsRead, this`ShutdownPending, this`ShutdownCompleted, this`LowerSendShutdownCompleted
      reads LowerWriter`Queue, LowerWriter`WritePending, Lower`Refusals
    {
      !Removing && Lower.Refusals == RefusalsBefore ==>
        && (HandshakeStarted && !HandshakeCompleted && !HandshakeResultQueued ==> LowerReadPending)
        && (HandshakeCompleted && PlainWritePending ==>
              || LowerWriter.WritePending
              || (PlainWriteNeedsRead && LowerReadPending)
              || LowerReadClosed)
        && (HandshakeCompleted && PlainReadPending ==> LowerReadPending || LowerReadClosed)
        && (HandshakeCompleted && ShutdownPending ==> LowerReadPending || LowerReadClosed)
        && (ShutdownCompleted && !LowerSendShutdownCompleted ==> LowerWriter.WritePending)
        && (LowerWriter.Queue != [] ==> LowerWriter.WritePending)
    }

    // What is left of a pending write is encrypted as far as it goes: to its end,
    // to the limit of unwritten ciphertext, or to where the session has asked for
    // more input than there has been.
    ghost predicate WriteTried()
      reads this`PlainWriteOffset, this`PlainWriteSize, this`PlainWriteNeedsRead
      reads Session`Wbio, Session`WriteAsked, Session`Fed, LowerWriter`QueuedBytes
    {
      || PlainWriteOffset == PlainWriteSize || Unwritten() >= TLS_WRITE_BATCH_LIMIT
      || (PlainWriteNeedsRead && Session.WriteAsked == |Session.Fed|)
    }

    // ... and whatever else is pending has been tried with all the input that
    // there has been.
    ghost predicate Tried()
      reads this`Removing, this`HandshakeStarted, this`HandshakeCompleted, this`HandshakeResultQueued
      reads this`PlainReadPending, this`PlainWritePending, this`ShutdownPending, this`ShutdownCompleted
      reads this`PlainWriteOffset, this`PlainWriteSize, this`PlainWriteNeedsRead
      reads Session`HandshakeAsked, Session`ReadAsked, Session`WriteAsked, Session`ShutdownTried, Session`Fed
      reads Session`Wbio, LowerWriter`QueuedBytes, Lower`Refusals
    {
      !Removing && Lower.Refusals == RefusalsBefore ==>
        && (HandshakeStarted && !HandshakeCompleted && !HandshakeResultQueued ==>
              Session.HandshakeAsked == |Session.Fed|)
        && (HandshakeCompleted && PlainReadPending ==> Session.ReadAsked == |Session.Fed|)
        && (HandshakeCompleted && PlainWritePending ==> WriteTried())
        && (HandshakeCompleted && ShutdownPending && !ShutdownCompleted ==> Session.ShutdownTried == |Session.Fed|)
    }

    // A lower read is pending exactly if one was started, or adopted, whose
    // result has not come.
    ghost predicate LowerReadsOk()
      reads this`LowerReadPending, this`LowerReadsAdopted, this`LowerReadsEnded, Lower`ReadsStarted
    {
      Lower.ReadsStarted + LowerReadsAdopted == ReadsBefore + LowerReadsEnded + Count(LowerReadPending)
    }

    ghost predicate Sound()
      reads this, Session, LowerWriter, LowerWriter.Stream, Lower
    {
      Core() && (!Removing ==> Settled()) && NeverStalls()
    }

    ghost predicate Valid()
      reads this, Session, LowerWriter, LowerWriter.Stream, Lower
    {
      Sound() && Tried() && Honest() && LowerReadsOk()
    }

    ghost function Unwritten(): nat
      reads Session`Wbio, LowerWriter`QueuedBytes
    {
      LowerWriter.QueuedBytes + |Session.Wbio|
    }

    // ----- Construction

    // The plaintext the session had already decrypted is taken out by the
    // caller (`adopted`, in the order SSL_read returned it).
    constructor (lower: LowerStream, session: Ssl, initFinished: bool, adopted: seq<seq<byte>>, closed: bool)
      requires session.MaxRecord <= MAX_RECORD
      requires session.Wbio == session.Produced == session.Accepted == session.ReadOut == []
      requires session.ShutdownEnd == None
      requires !initFinished ==> adopted == [] && !closed
      ensures Valid() && Lower == lower && Session == session && fresh(LowerWriter)
      ensures HandshakeStarted == HandshakeCompleted == initFinished
      ensures !Removing && !Terminated() && ResultLog == [] && WritesStarted == 0
      ensures !EarlyReadAccepted && !HasSink && TlsReadClosed == closed
      ensures !PlainReadPending && !PlainWritePending && !ShutdownPending
      ensures !LowerReadPending && !LowerReadClosed && LowerReadsAdopted == LowerReadsEnded == 0
      ensures AdoptedPlaintext == Concat(adopted)
    {
      Lower, Session := lower, session;
      LowerWriter := new AsyncWriteQueue();
      PendingResults, HasSink, ResultNotified := [], false, false;
      AdoptedPlainBuffers, AdoptedPlainOffset := adopted, 0;
      Removing := false;
      HandshakeStarted, HandshakeCompleted, HandshakeResultQueued := initFinished, initFinished, false;
      LowerReadPending, LowerReadClosed, TlsReadClosed := false, false, closed;
      ShutdownPending, ShutdownCompleted, LowerSendShutdownCompleted := false, false, false;
      PlainReadBuffer, PlainReadPending := None, false;
      PlainWriteBuffers, PlainWriteOffset, PlainWriteSize := [], 0, 0;
      PlainWritePending, PlainWriteNeedsRead := false, false;

      AdoptedSession, AdoptedPlaintext := initFinished, Concat(adopted);
      FailuresBefore, ClosedBefore := |session.Failures|, closed;
      RefusalsBefore, SendShutdownsBefore, ReadsBefore := lower.Refusals, lower.SendShutdowns, lower.ReadsStarted;
      LowerReadsAdopted, LowerReadsEnded := 0, 0;
      ResultLog, Delivered, Reported, HandshakesReported := [], [], [], 0;
      AdoptedLeft, EarlyReadAccepted, EarlyReadAnswered := Concat(adopted), false, false;
      WriteBase, WriteMark, Finished, WritesStarted, WritesFailed := 0, 0, [], 0, 0;
      CloseNotifyMark, SendShutdownMark := 0, 0;
      new;
      LowerWriter.Attach(lower);
    }

    // ----- Results

    method QueueResult(r: Result)
      requires ResultsOk()
      requires r.op.Read? ==> 0 < |r.data| == r.bytes
      modifies this`PendingResults, this`ResultNotified
      modifies this`ResultLog, this`Delivered, this`Reported, this`HandshakesReported
      ensures ResultsOk()
      ensures ResultLog == old(ResultLog) + [r] && Extends(old(ResultLog), ResultLog)
      ensures Delivered == if r.op.Read? then old(Delivered) + r.data else old(Delivered)
      ensures Reported == if r.op.Write? then old(Reported) + [r.bytes] else old(Reported)
      ensures HandshakesReported == old(HandshakesReported) + if r.op.Handshake? then 1 else 0
      ensures if r.op.Error? && r.origin.Tls? then r.error != 0 && old(Owed(r.error)) ==> Honest()
              else old(Honest()) ==> Honest()
    {
      hide Pending, Summary, Extends, TlsErrors;
      TlsErrorsPush(ResultLog, r);
      ExtendsPush(ResultLog, r);
      PendingPush(ResultLog, PendingResults, HasSink, ResultNotified, r);
      SummaryPush(ResultLog, Delivered, Reported, HandshakesReported, r);
      PendingResults := PendingResults + [r];
      ResultLog := ResultLog + [r];
      Delivered := if r.op.Read? then Delivered + r.data else Delivered;
      Reported := if r.op.Write? then Reported + [r.bytes] else Reported;
      HandshakesReported := HandshakesReported + if r.op.Handshake? then 1 else 0;
      if !ResultNotified && HasSink {
        ResultNotified := true;
      }
    }

    method QueueError(error: int, origin: ErrorOrigin)
      requires Core()
      modifies this`PendingResults, this`ResultNotified, this`HandshakeResultQueued
      modifies this`ResultLog, this`Delivered, this`Reported, this`HandshakesReported
      ensures Core()
      ensures ResultLog == if old(Terminated()) then old(ResultLog)
                           else old(ResultLog) + [Result(Error, [], 0, ReportedCode(error), origin)]
      ensures Extends(old(ResultLog), ResultLog)
      ensures HandshakeResultQueued == (old(HandshakeResultQueued) || !HandshakeCompleted)
      ensures if origin.Tls? then old(Owed(error) && !Terminated()) ==> Honest() else old(Honest()) ==> Honest()
    {
      hide ResultsOk, ReadOk, WriteOk, ShutdownOk, AsyncWriteQueue.Valid, Extends, TlsErrors;
      if !HandshakeCompleted {
        if HandshakeResultQueued {
          ExtendsSelf(ResultLog);
          return;
        }
        HandshakeResultQueued := true;
      }
      var code := ReportedCode(error);
      QueueResult(Result(Error, [], 0, code, origin));
    }

    method QueueHandshakeReadClosed()
      requires TlsReadClosed || LowerReadClosed
      requires Core() && !HandshakeCompleted
      modifies this`PendingResults, this`ResultNotified, this`HandshakeResultQueued
      modifies this`ResultLog, this`Delivered, this`Reported, this`HandshakesReported
      ensures Core()
      ensures Terminated() && Extends(old(ResultLog), ResultLog)
      ensures ResultLog == if old(HandshakeResultQueued) then old(ResultLog)
                           else old(ResultLog) + [Result(ReadClosed, [], 0, 0, NoOrigin)]
      ensures old(Honest()) ==> Honest()
    {
      hide ResultsOk, ReadOk, WriteOk, ShutdownOk, AsyncWriteQueue.Valid, Extends, Honest;
      if HandshakeResultQueued {
        ExtendsSelf(ResultLog);
        return;
      }
      HandshakeResultQueued := true;
      QueueResult(Result(ReadClosed, [], 0, 0, NoOrigin));
    }

    method ResetPlainWrite()
      modifies this`PlainWriteBuffers, this`PlainWriteOffset, this`PlainWriteSize, this`PlainWritePending
      modifies this`PlainWriteNeedsRead
      ensures PlainWriteBuffers == [] && PlainWriteOffset == PlainWriteSize == 0
      ensures !PlainWritePending && !PlainWriteNeedsRead
    {
      PlainWriteBuffers := [];
      PlainWriteOffset, PlainWriteSize := 0, 0;
      PlainWritePending, PlainWriteNeedsRead := false, false;
    }

    // A pending write that ends without a Write result.
    method FailPlainWrite()
      requires Core()
      modifies this`PlainWriteBuffers, this`PlainWriteOffset, this`PlainWriteSize, this`PlainWritePending
      modifies this`PlainWriteNeedsRead, this`WritesFailed
      ensures Core()
      ensures !PlainWritePending && !PlainWriteNeedsRead
      ensures WritesFailed == old(WritesFailed) + Count(old(PlainWritePending))
    {
      hide ResultsOk, ReadOk, WriteOk, ShutdownOk, AsyncWriteQueue.Valid;
      AbandonPlainWrite();
    }

    method AbandonPlainWrite()
      requires WriteOk()
      modifies this`PlainWriteBuffers, this`PlainWriteOffset, this`PlainWriteSize, this`PlainWritePending
      modifies this`PlainWriteNeedsRead, this`WritesFailed
      ensures WriteOk() && !PlainWritePending && !PlainWriteNeedsRead
      ensures WritesFailed == old(WritesFailed) + Count(old(PlainWritePending))
    {
      hide Partial, WritesExact, Ordered, Conserved;
      if PlainWritePending {
        WholeIsNotEmpty();
        if !Removing {
          OrderedUpTo(Finished, WriteBase, |Session.Accepted|);
        }
        WritesFailed := WritesFailed + 1;
      }
      ResetPlainWrite();
    }

    lemma WholeIsNotEmpty()
      requires WriteOk() && PlainWritePending
      ensures PlainWriteSize > 0 && ValidChain(PlainWriteBuffers) && PlainWriteSize == |Flatten(PlainWriteBuffers)|
      ensures WriteBase + PlainWriteOffset == |Session.Accepted|
    {
      assert PlainWriteBuffers[0].Valid() && |PlainWriteBuffers[0].Bytes()| > 0;
    }

    // All of the plaintext is encrypted and the lower writer is idle: the one
    // Write result, with the size of the whole chain.
    method FinishPlainWrite()
      requires Honest()
      requires Core() && !Removing && HandshakeCompleted && PlainWritePending
      requires PlainWriteOffset == PlainWriteSize && WriteMark <= |LowerWriter.Completed|
      modifies this`PlainWriteBuffers, this`PlainWriteOffset, this`PlainWriteSize, this`PlainWritePending
      modifies this`PlainWriteNeedsRead, this`Finished
      modifies this`PendingResults, this`ResultNotified
      modifies this`ResultLog, this`Delivered, this`Reported, this`HandshakesReported
      ensures Core()
      ensures !PlainWritePending && !PlainWriteNeedsRead
      ensures ResultLog == old(ResultLog) + [Result(Write, [], old(PlainWriteSize), 0, NoOrigin)]
      ensures Extends(old(ResultLog), ResultLog)
      ensures Finished == old(Finished) + [FinishedWrite(old(PlainWriteBuffers), WriteBase, WriteMark)]
      ensures Honest()
    {
      hide ResultsOk, ReadOk, ShutdownOk, ProgressOk, WritesExact, Ordered, Conserved, AsyncWriteQueue.Valid, Extends, Honest;
      var total := PlainWriteSize;
      EndPlainWrite();
      QueueResult(Result(Write, [], total, 0, NoOrigin));
    }

    method EndPlainWrite()
      requires WriteOk() && !Removing && PlainWritePending
      requires PlainWriteOffset == PlainWriteSize && WriteMark <= |LowerWriter.Completed|
      modifies this`PlainWriteBuffers, this`PlainWriteOffset, this`PlainWriteSize, this`PlainWritePending
      modifies this`PlainWriteNeedsRead, this`Finished
      ensures ProgressOk() && !PlainWritePending && !PlainWriteNeedsRead
      ensures Finished == old(Finished) + [FinishedWrite(old(PlainWriteBuffers), WriteBase, WriteMark)]
      ensures WritesExact(Finished, Reported + [old(PlainWriteSize)], Session.Accepted, Session.WriteEnds,
                          |LowerWriter.Completed|)
      ensures Ordered(Finished, |Session.Accepted|)
    {
      hide Partial, WritesExact, Ordered, Conserved;
      ghost var f := FinishedWrite(PlainWriteBuffers, WriteBase, WriteMark);
      WholeIsNotEmpty();
      WritesExactPush(Finished, Reported, Session.Accepted, Session.WriteEnds, |LowerWriter.Completed|, f, PlainWriteSize);
      OrderedPush(Finished, f);
      Finished := Finished + [f];
      ResetPlainWrite();
    }

    // ----- Steps of Drive()

    // An idle lower writer has written all ciphertext there was when the
    // pending write was encrypted to its end.
    ghost predicate Flushed()
      reads this`PlainWritePending, this`PlainWriteOffset, this`PlainWriteSize, this`WriteMark
      reads LowerWriter`Queue, LowerWriter`Completed
    {
      PlainWritePending && PlainWriteOffset == PlainWriteSize && LowerWriter.Queue == [] ==>
        WriteMark <= |LowerWriter.Completed|
    }

    lemma WriteFacts()
      requires Core() && PlainWritePending
      ensures LowerWriter.Valid() && Session.MaxRecord <= MAX_RECORD
      ensures PlainWriteBuffers != [] && ValidChain(PlainWriteBuffers)
      ensures PlainWriteSize == |Flatten(PlainWriteBuffers)| && PlainWriteOffset <= PlainWriteSize
    {
    }

    lemma AllWritten()
      requires Core() && !Removing && Session.Wbio == [] && LowerWriter.Queue == []
      ensures LowerWriter.Completed == Session.Produced
      ensures PlainWritePending ==> WriteMark <= |LowerWriter.Completed|
    {
      LowerWriter.SizeIsZeroIffEmpty();
    }

    // Little enough ciphertext goes down as one lower write.
    ghost predicate OneMoreWrite(unwritten: nat, writes: nat)
      reads LowerWriter`Queue
    {
      unwritten <= ENCRYPTED_CHUNK_SIZE ==> |LowerWriter.Queue| <= writes + 1
    }

    // Hands all of the write BIO to the lower writer, in chunks.
    method DrainEncryptedOutput() returns (ok: bool)
      requires Core() && !Removing
      modifies Session`Wbio
      modifies LowerWriter`Queue, LowerWriter`QueuedBytes, LowerWriter`WritePending, LowerWriter`Queued, Lower
      ensures Core() && OnlyWrites(Lower)
      ensures ok == (Lower.Refusals == old(Lower.Refusals))
      ensures ok ==> Session.Wbio == []
      ensures !ok ==> LowerWriter.Queue != [] && !LowerWriter.WritePending
      ensures ok && old(Session.Wbio) != [] ==> LowerWriter.WritePending
      ensures old(LowerWriter.WritePending) ==> LowerWriter.WritePending
      ensures old(Session.Wbio) == [] ==> LowerWriter.Queue == old(LowerWriter.Queue)
      ensures Unwritten() == old(Unwritten())
      // as few lower writes as chunks of it
      ensures |LowerWriter.Queue| + Chunks(|Session.Wbio|) == |old(LowerWriter.Queue)| + Chunks(|old(Session.Wbio)|)
      ensures OneMoreWrite(old(Unwritten()), |old(LowerWriter.Queue)|)
    {
      hide Core, Honest, Owed, AsyncWriteQueue.Valid, Chunks;
      ChunksFit(|Session.Wbio|);
      while Session.Wbio != []
        invariant Core() && OnlyWrites(Lower)
        invariant Lower.Refusals == old(Lower.Refusals)
        invariant old(LowerWriter.WritePending) ==> LowerWriter.WritePending
        invariant Session.Wbio == old(Session.Wbio) || LowerWriter.WritePending
        invariant old(Session.Wbio) == [] ==> LowerWriter.Queue == old(LowerWriter.Queue)
        invariant Unwritten() == old(Unwritten())
        invariant |LowerWriter.Queue| + Chunks(|Session.Wbio|)
               == |old(LowerWriter.Queue)| + Chunks(|old(Session.Wbio)|)
        decreases |Session.Wbio|
      {
        NextChunk(|Session.Wbio|);
        ok := DrainChunk();
        if !ok {
          return false;
        }
      }
      return true;
    }

    method DrainChunk() returns (ok: bool)
      requires Core() && !Removing && Session.Wbio != []
      modifies Session`Wbio
      modifies LowerWriter`Queue, LowerWriter`QueuedBytes, LowerWriter`WritePending, LowerWriter`Queued, Lower
      ensures Core() && OnlyWrites(Lower)
      ensures ok == (Lower.Refusals == old(Lower.Refusals))
      ensures if ok then LowerWriter.WritePending else LowerWriter.Queue != [] && !LowerWriter.WritePending
      ensures old(LowerWriter.WritePending) ==> LowerWriter.WritePending
      ensures |LowerWriter.Queue| == |old(LowerWriter.Queue)| + 1
      ensures var n := if |old(Session.Wbio)| < ENCRYPTED_CHUNK_SIZE then |old(Session.Wbio)| else ENCRYPTED_CHUNK_SIZE;
              && 0 < n
              && Session.Wbio == old(Session.Wbio)[n..]
              && LowerWriter.Queued == old(LowerWriter.Queued) + old(Session.Wbio)[..n]
      ensures Unwritten() == old(Unwritten())
    {
      hide Pending, Summary, Adopted, ReadsExact, Partial, WritesExact, Conserved;
      var pending := |Session.Wbio|;
      var size := if pending < ENCRYPTED_CHUNK_SIZE then pending else ENCRYPTED_CHUNK_SIZE;
      ConservedDrain(LowerWriter.Completed, LowerWriter.Queued, Session.Wbio, Session.Produced, size);
      var buffer := Session.TakeOutput(size);
      var view := BufferView(buffer, 0, |buffer|);
      FlattenOne(view);
      assert view.Bytes() == buffer;
      ok := LowerWriter.Push([view]);
    }

    // What has been encrypted, and not completed below.
    method UnwrittenCiphertext() returns (n: nat)
      requires Core() && !Removing
      ensures n == |Session.Produced| - |LowerWriter.Completed| == Unwritten()
    {
      n := LowerWriter.QueuedBytes + |Session.Wbio|;
    }

    // Output of a call that takes no plaintext changes nothing that is known
    // about writes and shutdown.
    twostate lemma EmitFacts()
      requires old(WriteOk() && ShutdownOk() && !Removing) && Session.Emitted()
      requires unchanged(this) && unchanged(LowerWriter) && unchanged(Lower) && unchanged(Session`Accepted) && unchanged(Session`WriteEnds)
      ensures WriteOk() && (unchanged(Session`ShutdownEnd) ==> ShutdownOk())
    {
      ConservedEmit(LowerWriter.Completed, LowerWriter.Queued, old(Session.Wbio), old(Session.Produced),
                    Session.Wbio, Session.Produced);
    }

    // ... and one that takes plaintext, nothing about the rest of it.
    twostate lemma WriteEmitFacts()
      requires old(WriteOk() && ShutdownOk() && !Removing) && Session.Emitted()
      requires unchanged(this) && unchanged(LowerWriter) && unchanged(Lower)
      requires old(Session.Accepted) <= Session.Accepted && unchanged(Session`ShutdownEnd)
      requires forall k :: k in old(Session.WriteEnds) && k <= |old(Session.Accepted)| ==>
                 k in Session.WriteEnds && Session.WriteEnds[k] == old(Session.WriteEnds)[k]
      ensures ShutdownOk() && |old(Session.Produced)| <= |Session.Produced|
      ensures Conserved(LowerWriter.Completed, LowerWriter.Queued, Session.Wbio, Session.Produced)
      ensures WritesExact(Finished, Reported, Session.Accepted, Session.WriteEnds, |LowerWriter.Completed|)
    {
      ConservedEmit(LowerWriter.Completed, LowerWriter.Queued, old(Session.Wbio), old(Session.Produced),
                    Session.Wbio, Session.Produced);
      WritesExactMonotone(Finished, Reported, old(Session.Accepted), old(Session.WriteEnds), |LowerWriter.Completed|,
                          Session.Accepted, Session.WriteEnds, |LowerWriter.Completed|);
    }

    // One SSL_write of the plaintext that is next.
    method EncryptRecord(data: seq<byte>) returns (outcome: SslOutcome, n: nat)
      requires WriteOk() && ShutdownOk() && !Removing && PlainWritePending
      requires 0 < |data| && PlainWriteOffset + |data| <= PlainWriteSize
      requires data == Flatten(PlainWriteBuffers)[PlainWriteOffset..PlainWriteOffset + |data|]
      modifies Session`Wbio, Session`Produced, Session`Accepted, Session`WriteEnds
      modifies Session`Wants, Session`WriteAsked, Session`Errors, Session`Failures
      modifies this`PlainWriteOffset, this`WriteMark
      ensures WriteOk() && ShutdownOk()
      ensures Session.Wants == old(Session.Wants) + Count(outcome.WantRead?)
      ensures outcome.WantRead? ==> Session.WriteAsked == |Session.Fed|
      ensures Unwritten() <= old(Unwritten()) + Session.MaxRecord
      ensures outcome == Completed ==> 0 < n <= |data| && PlainWriteOffset == old(PlainWriteOffset) + n
      ensures outcome == Completed ==>
                Session.Accepted == old(Session.Accepted) + data[..n] && WriteMark == |Session.Produced|
      ensures outcome != Completed ==> PlainWriteOffset == old(PlainWriteOffset) && WriteMark == old(WriteMark)
      ensures Session.Errors == old(Session.Errors) + Count(outcome.IsError())
      ensures Session.Failures ==
              old(Session.Failures) + if outcome.IsError() then [ReportedCode(ConvertSslError(outcome))] else []
    {
      hide ShutdownOk, Partial, WritesExact, Ordered, Conserved, Ssl.Emitted;
      outcome, n := Session.Write(data);
      WriteEmitFacts();
      if outcome == Completed {
        PartialAdvance(PlainWriteBuffers, PlainWriteSize, PlainWriteOffset, old(Session.Accepted), WriteBase, data, n,
                       Session.Accepted);
        PlainWriteOffset := PlainWriteOffset + n;
        WriteMark := |Session.Produced|;
      }
    }

    lemma HonestIs()
      requires Honest()
      ensures FailuresBefore <= |Session.Failures| && TlsErrors(ResultLog) == Session.Failures[FailuresBefore..]
    {
    }

    // A failure of the session is owed to the owner.
    lemma FailureFacts(before: seq<int>, failed: bool, error: int)
      requires FailuresBefore <= |before| && TlsErrors(ResultLog) == before[FailuresBefore..]
      requires Session.Failures == before + if failed then [ReportedCode(error)] else []
      ensures failed ==> Owed(error)
      ensures !failed ==> Honest()
    {
      hide TlsErrors;
      var now := Session.Failures[FailuresBefore..];
      assert failed ==> now == before[FailuresBefore..] + [ReportedCode(error)];
    }

    method MakeRecord(data: seq<byte>) returns (outcome: SslOutcome, n: nat)
      requires Honest()
      requires Core() && !Removing && HandshakeCompleted && PlainWritePending
      requires 0 < |data| && PlainWriteOffset + |data| <= PlainWriteSize
      requires data == Flatten(PlainWriteBuffers)[PlainWriteOffset..PlainWriteOffset + |data|]
      modifies Session`Wbio, Session`Produced, Session`Accepted, Session`WriteEnds
      modifies Session`Wants, Session`WriteAsked, Session`Errors, Session`Failures
      modifies this`PlainWriteOffset, this`WriteMark, this`PlainWriteNeedsRead
      ensures Core() && PlainWriteNeedsRead == (outcome == WantRead)
      ensures Session.Wants == old(Session.Wants) + Count(outcome.WantRead?)
      ensures outcome.WantRead? ==> Session.WriteAsked == |Session.Fed|
      ensures Unwritten() <= old(Unwritten()) + Session.MaxRecord
      ensures if outcome == Completed then
                0 < n <= |data| && PlainWriteOffset == old(PlainWriteOffset) + n
              else
                PlainWriteOffset == old(PlainWriteOffset)
      ensures if outcome.IsError() then Owed(ConvertSslError(outcome)) else Honest()
      ensures Session.Errors == old(Session.Errors) + Count(outcome.IsError())
    {
      hide ResultsOk, ReadOk, HandshakeOk, WriteOk, ShutdownOk, ClosedOk, AsyncWriteQueue.Valid, Honest, Owed;
      HonestIs();
      outcome, n := EncryptRecord(data);
      FailureFacts(old(Session.Failures), outcome.IsError(), ConvertSslError(outcome));
      SetNeedsRead(outcome == WantRead);
    }

    method SetNeedsRead(needed: bool)
      requires Core() && HandshakeCompleted && PlainWritePending
      modifies this`PlainWriteNeedsRead
      ensures Core() && PlainWriteNeedsRead == needed
    {
      hide ResultsOk, ReadOk, ShutdownOk, Partial, WritesExact, Conserved, AsyncWriteQueue.Valid;
      PlainWriteNeedsRead := needed;
    }

    // A pending operation stays as it is, or is over and answered by a result.
    twostate predicate Answered()
      reads this
    {
      && Extends(old(ResultLog), ResultLog) && |old(ResultLog)| <= |ResultLog|
      && (old(PlainReadPending) && !PlainReadPending ==> |ResultLog| > |old(ResultLog)|)
      && (old(PlainWritePending) && !PlainWritePending ==> |ResultLog| > |old(ResultLog)|)
      && (PlainReadPending ==> old(PlainReadPending) && PlainReadBuffer == old(PlainReadBuffer))
      && (PlainWritePending ==> old(PlainWritePending) && PlainWriteBuffers == old(PlainWriteBuffers))
      && (old(ShutdownPending) ==> ShutdownPending || ShutdownCompleted)
    }

    // How a pending write may end: with one result, its whole size or an error.
    twostate predicate WriteAnswered()
      reads this
    {
      && !PlainWritePending && Extends(old(ResultLog), ResultLog)
      && ((ResultLog == old(ResultLog) + [Result(Write, [], old(PlainWriteSize), 0, NoOrigin)]
           && |Finished| == |old(Finished)| + 1 && WritesFailed == old(WritesFailed))
          || (|ResultLog| == |old(ResultLog)| + 1
              && ResultLog[|old(ResultLog)|].op.Error? && ResultLog[|old(ResultLog)|].origin.Tls?
              && Finished == old(Finished) && WritesFailed == old(WritesFailed) + 1))
    }

    // Records are made until the plaintext is used up, the session wants input
    // or enough ciphertext is waiting, and then go down together.
    method DrivePlainWrite() returns (ok: bool)
      requires Honest()
      requires Core() && Flushed() && QueueMoves() && !Removing && HandshakeCompleted
      modifies Session`Wbio, Session`Produced, Session`Accepted, Session`WriteEnds
      modifies Session`Wants, Session`WriteAsked, Session`Errors, Session`Failures
      modifies LowerWriter`Queue, LowerWriter`QueuedBytes, LowerWriter`WritePending, LowerWriter`Queued, Lower
      modifies this`PlainWriteBuffers, this`PlainWriteOffset, this`PlainWriteSize, this`PlainWritePending
      modifies this`PlainWriteNeedsRead, this`WriteMark, this`Finished, this`WritesFailed
      modifies this`PendingResults, this`ResultNotified, this`HandshakeResultQueued
      modifies this`ResultLog, this`Delivered, this`Reported, this`HandshakesReported
      ensures Core() && OnlyWrites(Lower)
      ensures ok == (Lower.Refusals == old(Lower.Refusals))
      ensures QueueMoves() && (!ok ==> Settled())
      // unwritten ciphertext is bounded by the batch limit and one record
      ensures Unwritten() <= Max(old(Unwritten()), TLS_WRITE_BATCH_LIMIT - 1 + Session.MaxRecord)
      // ... and unless more than a chunk was waiting, goes down as one lower write
      ensures OneMoreWrite(old(Unwritten()), |old(LowerWriter.Queue)|)
      // a write that is still pending waits for input or for a lower write
      ensures ok && PlainWritePending ==> PlainWriteNeedsRead || LowerWriter.Queue != []
      // ... with everything encrypted that could be
      ensures PlainWritePending ==> WriteTriedAgain()
      ensures Session.Wants >= old(Session.Wants)
      ensures Answered()
      ensures PlainWritePending ==> ResultLog == old(ResultLog) && Finished == old(Finished)
      ensures !PlainWritePending && old(PlainWritePending) ==> WriteAnswered()
      ensures !old(PlainWritePending) ==> ResultLog == old(ResultLog) && !PlainWritePending
      ensures Honest()
      // it fails exactly if an SSL_write did
      ensures Session.Errors == old(Session.Errors) + Count(old(PlainWritePending) && !PlainWritePending && Finished == old(Finished))
    {
      hide Core, Honest, Owed, AsyncWriteQueue.Valid, Extends;
      ExtendsSelf(ResultLog);
      CoreFacts();
      if !PlainWritePending {
        return true;
      }
      WriteFacts();
      if PlainWriteOffset >= PlainWriteSize {
        FinishIfIdle();
        return true;
      }
      ok := EncryptAndFlush();
    }

    method EncryptAndFlush() returns (ok: bool)
      requires Honest()
      requires Core() && !Removing && HandshakeCompleted && PlainWritePending
      modifies Session`Wbio, Session`Produced, Session`Accepted, Session`WriteEnds
      modifies Session`Wants, Session`WriteAsked, Session`Errors, Session`Failures
      modifies LowerWriter`Queue, LowerWriter`QueuedBytes, LowerWriter`WritePending, LowerWriter`Queued, Lower
      modifies this`PlainWriteBuffers, this`PlainWriteOffset, this`PlainWriteSize, this`PlainWritePending
      modifies this`PlainWriteNeedsRead, this`WriteMark, this`Finished, this`WritesFailed
      modifies this`PendingResults, this`ResultNotified, this`HandshakeResultQueued
      modifies this`ResultLog, this`Delivered, this`Reported, this`HandshakesReported
      ensures Core() && OnlyWrites(Lower)
      ensures ok == (Lower.Refusals == old(Lower.Refusals))
      ensures !ok ==> LowerWriter.Queue != [] && !LowerWriter.WritePending
      ensures old(LowerWriter.WritePending) ==> LowerWriter.WritePending
      ensures ok && old(LowerWriter.Queue != [] ==> LowerWriter.WritePending) ==>
                (LowerWriter.Queue != [] ==> LowerWriter.WritePending)
      ensures Unwritten() <= Max(old(Unwritten()), TLS_WRITE_BATCH_LIMIT - 1 + Session.MaxRecord)
      ensures OneMoreWrite(old(Unwritten()), |old(LowerWriter.Queue)|)
      ensures ok && PlainWritePending ==> PlainWriteNeedsRead || LowerWriter.Queue != []
      ensures PlainWritePending ==> WriteTriedAgain()
      ensures Session.Wants >= old(Session.Wants)
      ensures if PlainWritePending then
                ResultLog == old(ResultLog) && Finished == old(Finished) && PlainWriteBuffers == old(PlainWriteBuffers)
              else
                WriteAnswered()
      ensures Honest()
      // it fails exactly if an SSL_write did
      ensures Session.Errors == old(Session.Errors) + Count(!PlainWritePending && Finished == old(Finished))
    {
      hide Core, Honest, Owed, AsyncWriteQueue.Valid, Extends;
      WriteFacts();
      var stop;
      stop, ok := EncryptViews();
      if stop {
        return;
      }
      ok := FlushPlainWrite();
    }

    // No plaintext is left to encrypt. The write is over if nothing then waits below.
    method FlushPlainWrite() returns (ok: bool)
      requires Honest()
      requires Core() && !Removing && HandshakeCompleted && PlainWritePending && PlainWriteOffset == PlainWriteSize
      modifies Session`Wbio
      modifies LowerWriter`Queue, LowerWriter`QueuedBytes, LowerWriter`WritePending, LowerWriter`Queued, Lower
      modifies this`PlainWriteBuffers, this`PlainWriteOffset, this`PlainWriteSize, this`PlainWritePending
      modifies this`PlainWriteNeedsRead, this`Finished
      modifies this`PendingResults, this`ResultNotified
      modifies this`ResultLog, this`Delivered, this`Reported, this`HandshakesReported
      ensures Core() && OnlyWrites(Lower)
      ensures ok == (Lower.Refusals == old(Lower.Refusals))
      ensures !ok ==> LowerWriter.Queue != [] && !LowerWriter.WritePending
      ensures old(LowerWriter.WritePending) ==> LowerWriter.WritePending
      ensures ok && old(LowerWriter.Queue != [] ==> LowerWriter.WritePending) ==>
                (LowerWriter.Queue != [] ==> LowerWriter.WritePending)
      ensures Unwritten() == old(Unwritten()) && OneMoreWrite(old(Unwritten()), |old(LowerWriter.Queue)|)
      ensures if PlainWritePending then
                && ResultLog == old(ResultLog) && Finished == old(Finished)
                && PlainWriteBuffers == old(PlainWriteBuffers) && PlainWriteOffset == PlainWriteSize
                && (ok ==> LowerWriter.Queue != [])
              else
                WriteAnswered()
      ensures Honest()
    {
      hide Core, Honest, Owed, AsyncWriteQueue.Valid, Extends;
      WriteFacts();
      ok := DrainEncryptedOutput();
      if !ok {
        return false;
      }
      WriteFacts();
      if PlainWriteOffset >= PlainWriteSize {
        DrainedIsFlushed();
        FinishIfIdle();
      }
      return true;
    }

    lemma DrainedIsFlushed()
      requires Core() && !Removing && Session.Wbio == []
      ensures Flushed()
    {
      if LowerWriter.Queue == [] {
        AllWritten();
      }
    }

    // A write that is encrypted to its end is over when nothing is left below.
    method FinishIfIdle()
      requires Honest()
      requires Core() && Flushed() && !Removing && HandshakeCompleted && PlainWritePending
      requires PlainWriteOffset == PlainWriteSize
      modifies this`PlainWriteBuffers, this`PlainWriteOffset, this`PlainWriteSize, this`PlainWritePending
      modifies this`PlainWriteNeedsRead, this`Finished
      modifies this`PendingResults, this`ResultNotified
      modifies this`ResultLog, this`Delivered, this`Reported, this`HandshakesReported
      ensures Core()
      ensures if PlainWritePending then
                && ResultLog == old(ResultLog) && Finished == old(Finished)
                && PlainWriteBuffers == old(PlainWriteBuffers) && PlainWriteOffset == PlainWriteSize
                && LowerWriter.Queue != []
              else
                LowerWriter.Queue == [] && WriteAnswered()
      ensures Honest()
    {
      hide Core, Honest, Owed, AsyncWriteQueue.Valid, Extends;
      WriteFacts();
      var idle := LowerWriter.IsIdle();
      if idle {
        FinishPlainWrite();
      }
    }

    // A write that is still pending has been tried now, unless there is nothing
    // left to encrypt or enough ciphertext to write.
    twostate predicate WriteTriedAgain()
      reads this, Session, LowerWriter
    {
      || PlainWriteOffset == PlainWriteSize || Unwritten() >= TLS_WRITE_BATCH_LIMIT
      || (PlainWriteNeedsRead && Session.Wants > old(Session.Wants) && Session.WriteAsked == |Session.Fed|)
    }

    // The encrypting loop goes on: only the session and the offset have moved.
    twostate predicate Encrypting()
      reads this, Session`Errors, LowerWriter, Lower
    {
      && PlainWritePending && PlainWriteBuffers == old(PlainWriteBuffers) && PlainWriteSize == old(PlainWriteSize)
      && ResultLog == old(ResultLog) && WritesFailed == old(WritesFailed) && Session.Errors == old(Session.Errors)
      && LowerWriter.Queue == old(LowerWriter.Queue) && LowerWriter.WritePending == old(LowerWriter.WritePending)
      && Lower.Refusals == old(Lower.Refusals)
    }

    // It has stopped before the end: the rest waits for input or for a lower
    // write, or the write has failed.
    twostate predicate Stopped(ok: bool)
      reads this, Session, LowerWriter, Lower
    {
      && ok == (Lower.Refusals == old(Lower.Refusals))
      && (!ok ==> LowerWriter.Queue != [] && !LowerWriter.WritePending)
      && (ok && PlainWritePending ==> PlainWriteNeedsRead || LowerWriter.Queue != [])
      && (PlainWritePending ==>
            || Unwritten() >= TLS_WRITE_BATCH_LIMIT
            || (PlainWriteNeedsRead && Session.Wants > old(Session.Wants) && Session.WriteAsked == |Session.Fed|))
      && (PlainWritePending ==> ResultLog == old(ResultLog) && PlainWriteBuffers == old(PlainWriteBuffers))
      && (!PlainWritePending ==> WriteAnswered() && Finished == old(Finished))
      && Session.Errors == old(Session.Errors) + Count(!PlainWritePending)
    }

    // The encrypting loop over the views, from the offset reached so far.
    method EncryptViews() returns (stop: bool, ok: bool)
      requires Honest()
      requires Core() && !Removing && HandshakeCompleted && PlainWritePending
      modifies Session`Wbio, Session`Produced, Session`Accepted, Session`WriteEnds
      modifies Session`Wants, Session`WriteAsked, Session`Errors, Session`Failures
      modifies LowerWriter`Queue, LowerWriter`QueuedBytes, LowerWriter`WritePending, LowerWriter`Queued, Lower
      modifies this`PlainWriteBuffers, this`PlainWriteOffset, this`PlainWriteSize, this`PlainWritePending
      modifies this`PlainWriteNeedsRead, this`WriteMark, this`WritesFailed
      modifies this`PendingResults, this`ResultNotified, this`HandshakeResultQueued
      modifies this`ResultLog, this`Delivered, this`Reported, this`HandshakesReported
      ensures Core() && OnlyWrites(Lower)
      ensures Session.Wants >= old(Session.Wants)
      ensures Unwritten() <= Max(old(Unwritten()), TLS_WRITE_BATCH_LIMIT - 1 + Session.MaxRecord)
      ensures OneMoreWrite(old(Unwritten()), |old(LowerWriter.Queue)|)
      ensures !stop ==> Encrypting() && PlainWriteOffset == PlainWriteSize
      ensures stop ==> Stopped(ok)
      ensures old(LowerWriter.WritePending) ==> LowerWriter.WritePending
      ensures ok && old(LowerWriter.Queue != [] ==> LowerWriter.WritePending) ==>
                (LowerWriter.Queue != [] ==> LowerWriter.WritePending)
      ensures Honest()
    {
      hide Core, Honest, Owed, AsyncWriteQueue.Valid, Extends, Flatten;
      WriteFacts();
      FlattenNone();
      var skip := PlainWriteOffset;
      var i := 0;
      while i < |PlainWriteBuffers|
        invariant Honest() && Encrypting() && OnlyWrites(Lower) && Session.Wants >= old(Session.Wants)
        invariant ValidChain(PlainWriteBuffers) && PlainWriteSize == |Flatten(PlainWriteBuffers)|
        invariant Core() && 0 <= i <= |PlainWriteBuffers|
        invariant PlainWriteOffset == |Flatten(PlainWriteBuffers[..i])| + skip && 0 <= skip
        invariant Unwritten() <= Max(old(Unwritten()), TLS_WRITE_BATCH_LIMIT - 1 + Session.MaxRecord)
      {
        var view := PlainWriteBuffers[i];
        FlattenAt(PlainWriteBuffers, i);
        if skip >= view.size {
          skip := skip - view.size;
        } else {
          stop, ok := EncryptView(i, skip);
          if stop {
            return;
          }
          skip := 0;
        }
        i := i + 1;
      }
      assert PlainWriteBuffers[..i] == PlainWriteBuffers;
      WriteFacts();
      return false, true;
    }

    // One turn of the encrypting loop: stop at the batch limit, or make one
    // record of the plaintext that is next and stop if that did not work.
    method EncryptNext(data: seq<byte>) returns (stop: bool, ok: bool, n: nat)
      requires Honest()
      requires Core() && !Removing && HandshakeCompleted && PlainWritePending
      requires 0 < |data| && PlainWriteOffset + |data| <= PlainWriteSize
      requires data == Flatten(PlainWriteBuffers)[PlainWriteOffset..PlainWriteOffset + |data|]
      modifies Session`Wbio, Session`Produced, Session`Accepted, Session`WriteEnds
      modifies Session`Wants, Session`WriteAsked, Session`Errors, Session`Failures
      modifies LowerWriter`Queue, LowerWriter`QueuedBytes, LowerWriter`WritePending, LowerWriter`Queued, Lower
      modifies this`PlainWriteBuffers, this`PlainWriteOffset, this`PlainWriteSize, this`PlainWritePending
      modifies this`PlainWriteNeedsRead, this`WriteMark, this`WritesFailed
      modifies this`PendingResults, this`ResultNotified, this`HandshakeResultQueued
      modifies this`ResultLog, this`Delivered, this`Reported, this`HandshakesReported
      ensures Core() && OnlyWrites(Lower)
      ensures Session.Wants >= old(Session.Wants)
      ensures Unwritten() <= Max(old(Unwritten()), TLS_WRITE_BATCH_LIMIT - 1 + Session.MaxRecord)
      ensures OneMoreWrite(old(Unwritten()), |old(LowerWriter.Queue)|)
      ensures !stop ==> Encrypting() && 0 < n <= |data| && PlainWriteOffset == old(PlainWriteOffset) + n
      ensures stop ==> Stopped(ok)
      ensures old(LowerWriter.WritePending) ==> LowerWriter.WritePending
      ensures ok && old(LowerWriter.Queue != [] ==> LowerWriter.WritePending) ==>
                (LowerWriter.Queue != [] ==> LowerWriter.WritePending)
      ensures Honest()
    {
      hide Core, Honest, Owed, AsyncWriteQueue.Valid, Extends;
      n := 0;
      WriteFacts();
      var waiting := UnwrittenCiphertext();
      if waiting >= TLS_WRITE_BATCH_LIMIT {
        ok := StopAtLimit();
        return true, ok, 0;
      }
      var outcome;
      outcome, n := MakeRecord(data);
      match outcome
      case Completed =>
        return false, true, n;
      case WantRead =>
        ok := DrainEncryptedOutput();
        return true, ok, 0;
      case _ =>
        RejectPlainWrite(ConvertSslError(outcome));
        return true, true, 0;
    }

    // Enough ciphertext is waiting: it goes down, and the rest of the write waits.
    method StopAtLimit() returns (ok: bool)
      requires Honest()
      requires Core() && !Removing && HandshakeCompleted && PlainWritePending
      requires Unwritten() >= TLS_WRITE_BATCH_LIMIT
      modifies Session`Wbio
      modifies LowerWriter`Queue, LowerWriter`QueuedBytes, LowerWriter`WritePending, LowerWriter`Queued, Lower
      ensures Core() && OnlyWrites(Lower) && Stopped(ok) && Honest()
      ensures Unwritten() == old(Unwritten()) && OneMoreWrite(old(Unwritten()), |old(LowerWriter.Queue)|)
      ensures old(LowerWriter.WritePending) ==> LowerWriter.WritePending
      ensures ok && old(LowerWriter.Queue != [] ==> LowerWriter.WritePending) ==>
                (LowerWriter.Queue != [] ==> LowerWriter.WritePending)
    {
      hide Core, Honest, Owed, AsyncWriteQueue.Valid, Extends;
      ok := DrainEncryptedOutput();
      CoreFacts();
      LowerWriter.SizeIsZeroIffEmpty();
    }

    // The session cannot write any more.
    method RejectPlainWrite(error: int)
      requires Owed(error)
      requires Core() && HandshakeCompleted && PlainWritePending
      modifies this`PlainWriteBuffers, this`PlainWriteOffset, this`PlainWriteSize, this`PlainWritePending
      modifies this`PlainWriteNeedsRead, this`WritesFailed
      modifies this`PendingResults, this`ResultNotified, this`HandshakeResultQueued
      modifies this`ResultLog, this`Delivered, this`Reported, this`HandshakesReported
      ensures Core() && WriteAnswered() && WritesFailed == old(WritesFailed) + 1
      ensures Honest()
    {
      hide Core, Honest, Owed, Extends;
      FailPlainWrite();
      QueueError(error, Tls);
    }

    // The records of one view, from `from` bytes into it. `stop` is set when
    // the rest of the write must wait, or has failed.
    method EncryptView(i: nat, from: nat) returns (stop: bool, ok: bool)
      requires Honest()
      requires Core() && !Removing && HandshakeCompleted && PlainWritePending
      requires i < |PlainWriteBuffers| && from < PlainWriteBuffers[i].size
      requires PlainWriteOffset == |Flatten(PlainWriteBuffers[..i])| + from
      modifies Session`Wbio, Session`Produced, Session`Accepted, Session`WriteEnds
      modifies Session`Wants, Session`WriteAsked, Session`Errors, Session`Failures
      modifies LowerWriter`Queue, LowerWriter`QueuedBytes, LowerWriter`WritePending, LowerWriter`Queued, Lower
      modifies this`PlainWriteBuffers, this`PlainWriteOffset, this`PlainWriteSize, this`PlainWritePending
      modifies this`PlainWriteNeedsRead, this`WriteMark, this`WritesFailed
      modifies this`PendingResults, this`ResultNotified, this`HandshakeResultQueued
      modifies this`ResultLog, this`Delivered, this`Reported, this`HandshakesReported
      ensures Core() && OnlyWrites(Lower)
      ensures Session.Wants >= old(Session.Wants)
      ensures Unwritten() <= Max(old(Unwritten()), TLS_WRITE_BATCH_LIMIT - 1 + Session.MaxRecord)
      ensures OneMoreWrite(old(Unwritten()), |old(LowerWriter.Queue)|)
      ensures !stop ==>
                Encrypting() && PlainWriteOffset == |Flatten(PlainWriteBuffers[..i])| + PlainWriteBuffers[i].size
      ensures stop ==> Stopped(ok)
      ensures old(LowerWriter.WritePending) ==> LowerWriter.WritePending
      ensures ok && old(LowerWriter.Queue != [] ==> LowerWriter.WritePending) ==>
                (LowerWriter.Queue != [] ==> LowerWriter.WritePending)
      ensures Honest()
    {
      hide Core, Honest, Owed, AsyncWriteQueue.Valid, Extends, Flatten;
      var view := PlainWriteBuffers[i];
      var at := from;
      WriteFacts();
      FlattenAt(PlainWriteBuffers, i);
      while at < view.size
        invariant Core() && at <= view.size
        invariant Honest() && Encrypting() && OnlyWrites(Lower) && Session.Wants >= old(Session.Wants)
        invariant ValidChain(PlainWriteBuffers) && PlainWriteSize == |Flatten(PlainWriteBuffers)|
        invariant PlainWriteOffset == |Flatten(PlainWriteBuffers[..i])| + at
        invariant Unwritten() <= Max(old(Unwritten()), TLS_WRITE_BATCH_LIMIT - 1 + Session.MaxRecord)
      {
        var data := view.buffer[view.offset + at..view.offset + view.size];
        RestOfView(PlainWriteBuffers, i, at);
        var n;
        stop, ok, n := EncryptNext(data);
        if stop {
          return true, ok;
        }
        at := at + n;
      }
      return false, true;
    }

    method DriveHandshake()
      requires Honest()
      requires Core() && !Removing && HandshakeStarted
      modifies Session`Wbio, Session`Produced, Session`Wants, Session`HandshakeAsked, Session`Closed
      modifies Session`Errors, Session`Failures, Session`HandshakeDone
      modifies this`HandshakeCompleted, this`HandshakeResultQueued, this`TlsReadClosed
      modifies this`PendingResults, this`ResultNotified
      modifies this`ResultLog, this`Delivered, this`Reported, this`HandshakesReported
      ensures Core()
      ensures Extends(old(ResultLog), ResultLog)
      ensures Session.Wants >= old(Session.Wants)
      ensures Session.HandshakeDone && !old(Session.HandshakeDone) ==> HandshakeCompleted
      // over, or ended unfinished: nothing is done any more
      ensures old(HandshakeCompleted || HandshakeResultQueued) ==>
                && ResultLog == old(ResultLog) && Session.Wbio == old(Session.Wbio)
                && HandshakeCompleted == old(HandshakeCompleted)
                && HandshakeResultQueued == old(HandshakeResultQueued)
      // otherwise it goes on, with no result, or ends with exactly one
      ensures !old(HandshakeCompleted || HandshakeResultQueued) ==>
                if HandshakeResultQueued then
                  && |ResultLog| == |old(ResultLog)| + 1
                  && var r := ResultLog[|old(ResultLog)|];
                     && (HandshakeCompleted <==> r.op.Handshake?)
                     && (r.op.Handshake? || r.op.ReadClosed? || (r.op.Error? && r.origin.Tls?))
                     && (!r.op.Handshake? ==> Session.Errors > old(Session.Errors))
                     && TlsReadClosed == (old(TlsReadClosed) || r.op.ReadClosed?)
                     && Session.Failures == old(Session.Failures) + if r.op.Error? then [r.error] else []
                else
                  && !HandshakeCompleted && ResultLog == old(ResultLog) && Session.Errors == old(Session.Errors)
                  && Session.Wants > old(Session.Wants) && Session.HandshakeAsked == |Session.Fed|
      ensures Honest()
    {
      hide Core, Honest, Owed, AsyncWriteQueue.Valid, Extends;
      ExtendsSelf(ResultLog);
      if HandshakeCompleted || HandshakeResultQueued {
        return;
      }
      var outcome := StepHandshake();
      match outcome
      case Completed =>
        CompleteHandshake();
      case WantRead =>
      case ZeroReturn =>
        SetTlsReadClosed();
        QueueHandshakeReadClosed();
      case Failed(_) =>
        QueueError(ConvertSslError(outcome), Tls);
    }

    method StepHandshake() returns (outcome: SslOutcome)
      requires Honest()
      requires Core() && !Removing
      modifies Session`Wbio, Session`Produced, Session`Wants, Session`HandshakeAsked, Session`Closed
      modifies Session`Errors, Session`Failures, Session`HandshakeDone
      ensures Core() && Session.HandshakeDone == (old(Session.HandshakeDone) || outcome == Completed)
      ensures Session.Errors == old(Session.Errors) + Count(outcome.IsError())
      ensures Session.Wants == old(Session.Wants) + Count(outcome.WantRead?)
      ensures outcome.WantRead? ==> Session.HandshakeAsked == |Session.Fed|
      ensures if outcome.Failed? then Owed(ConvertSslError(outcome)) else Honest()
      ensures Session.Closed == (old(Session.Closed) || outcome.ZeroReturn?)
      ensures Session.Failures == old(Session.Failures) + if outcome.Failed? then [ReportedCode(ConvertSslError(outcome))] else []
    {
      hide ResultsOk, ReadOk, WriteOk, ShutdownOk, Ssl.Emitted, AsyncWriteQueue.Valid, Honest, Owed;
      HonestIs();
      outcome := Session.DoHandshake();
      EmitFacts();
      FailureFacts(old(Session.Failures), outcome.Failed?, ConvertSslError(outcome));
    }

    method CompleteHandshake()
      requires Honest()
      requires Core() && Session.HandshakeDone && HandshakeStarted && !HandshakeCompleted && !HandshakeResultQueued
      modifies this`HandshakeCompleted, this`HandshakeResultQueued
      modifies this`PendingResults, this`ResultNotified
      modifies this`ResultLog, this`Delivered, this`Reported, this`HandshakesReported
      ensures Core() && HandshakeCompleted && HandshakeResultQueued
      ensures ResultLog == old(ResultLog) + [Result(Handshake, [], 0, 0, NoOrigin)]
      ensures Extends(old(ResultLog), ResultLog)
      ensures Honest()
    {
      hide ResultsOk, ReadOk, WriteOk, ShutdownOk, AsyncWriteQueue.Valid, Extends, Honest;
      HandshakeCompleted := true;
      HandshakeResultQueued := true;
      QueueResult(Result(Handshake, [], 0, 0, NoOrigin));
    }

    // Adopted plaintext goes out before anything is read from the session.
    method DeliverAdoptedPlaintext()
      requires Honest()
      requires Core() && !Removing && HandshakeCompleted && PlainReadPending && PlainReadBuffer.Some?
      modifies this`AdoptedPlainBuffers, this`AdoptedPlainOffset, this`AdoptedLeft
      modifies this`PlainReadBuffer, this`PlainReadPending
      modifies this`PendingResults, this`ResultNotified
      modifies this`ResultLog, this`Delivered, this`Reported, this`HandshakesReported
      ensures Core()
      ensures PlainReadPending ==>
                AdoptedPlainBuffers == [] && ResultLog == old(ResultLog) && PlainReadBuffer == old(PlainReadBuffer)
      ensures !PlainReadPending ==>
                && |ResultLog| == |old(ResultLog)| + 1 && Extends(old(ResultLog), ResultLog)
                && ResultLog[|old(ResultLog)|].op.Read?
                && ResultLog[|old(ResultLog)|].bytes <= old(PlainReadBuffer).value
      decreases |AdoptedPlainBuffers|
      ensures Honest()
    {
      hide Core, Honest, Owed, AsyncWriteQueue.Valid, Extends;
      if AdoptedPlainBuffers == [] {
        return;
      }
      var source := AdoptedPlainBuffers[0];
      if AdoptedPlainOffset >= |source| {
        DropEmptyFront();
        DeliverAdoptedPlaintext();
        return;
      }
      DeliverFront();
    }

    method DropEmptyFront()
      requires Core() && AdoptedPlainBuffers != [] && AdoptedPlainOffset >= |AdoptedPlainBuffers[0]|
      modifies this`AdoptedPlainBuffers, this`AdoptedPlainOffset
      ensures Core() && AdoptedPlainBuffers == old(AdoptedPlainBuffers)[1..]
    {
      hide ResultsOk, HandshakeOk, WriteOk, ShutdownOk, Adopted, ReadsExact, AsyncWriteQueue.Valid;
      if !Removing {
        AdoptedPop(AdoptedPlainBuffers, AdoptedPlainOffset, AdoptedLeft);
      }
      AdoptedPlainBuffers := AdoptedPlainBuffers[1..];
      AdoptedPlainOffset := 0;
    }

    // The front adopted buffer, as much of it as fits.
    method DeliverFront()
      requires Honest()
      requires Core() && !Removing && HandshakeCompleted && PlainReadPending && PlainReadBuffer.Some?
      requires AdoptedPlainBuffers != [] && AdoptedPlainOffset < |AdoptedPlainBuffers[0]|
      modifies this`AdoptedPlainBuffers, this`AdoptedPlainOffset, this`AdoptedLeft
      modifies this`PlainReadBuffer, this`PlainReadPending
      modifies this`PendingResults, this`ResultNotified
      modifies this`ResultLog, this`Delivered, this`Reported, this`HandshakesReported
      ensures Core() && !PlainReadPending
      ensures |ResultLog| == |old(ResultLog)| + 1 && Extends(old(ResultLog), ResultLog)
      ensures ResultLog[|old(ResultLog)|].op.Read?
      ensures ResultLog[|old(ResultLog)|].bytes <= old(PlainReadBuffer).value
      ensures Honest()
    {
      hide ResultsOk, WriteOk, ShutdownOk, HandshakeOk, Adopted, ReadsExact, AsyncWriteQueue.Valid, Extends, Honest;
      var source := AdoptedPlainBuffers[0];
      var available := |source| - AdoptedPlainOffset;
      var capacity := PlainReadBuffer.value;
      var size := if capacity < available then capacity else available;
      var data := TakeAdopted(size);
      AnswerRead(data);
    }

    // Adopted plaintext leaves the front buffer, and the buffer the queue when
    // that empties it.
    method TakeAdopted(n: nat) returns (data: seq<byte>)
      requires Adopted(AdoptedPlainBuffers, AdoptedPlainOffset, AdoptedLeft)
      requires ReadsExact(Delivered, AdoptedLeft, AdoptedPlaintext, Session.ReadOut)
      requires AdoptedPlainBuffers != [] && AdoptedPlainOffset + n <= |AdoptedPlainBuffers[0]|
      modifies this`AdoptedPlainBuffers, this`AdoptedPlainOffset, this`AdoptedLeft
      ensures |data| == n
      ensures Adopted(AdoptedPlainBuffers, AdoptedPlainOffset, AdoptedLeft)
      ensures ReadsExact(Delivered + data, AdoptedLeft, AdoptedPlaintext, Session.ReadOut)
      ensures if old(AdoptedPlainOffset) + n == |old(AdoptedPlainBuffers)[0]| then
                AdoptedPlainBuffers == old(AdoptedPlainBuffers)[1..] && AdoptedPlainOffset == 0
              else
                AdoptedPlainBuffers == old(AdoptedPlainBuffers) && AdoptedPlainOffset == old(AdoptedPlainOffset) + n
    {
      hide Adopted, ReadsExact;
      var source := AdoptedPlainBuffers[0];
      data := source[AdoptedPlainOffset..AdoptedPlainOffset + n];
      AdoptedTake(AdoptedPlainBuffers, AdoptedPlainOffset, AdoptedLeft, n);
      ReadsExactTake(Delivered, AdoptedLeft, AdoptedPlaintext, Session.ReadOut, n);
      AdoptedLeft := AdoptedLeft[n..];
      AdoptedPlainOffset := AdoptedPlainOffset + n;
      if AdoptedPlainOffset >= |source| {
        AdoptedPop(AdoptedPlainBuffers, AdoptedPlainOffset, AdoptedLeft);
        AdoptedPlainBuffers := AdoptedPlainBuffers[1..];
        AdoptedPlainOffset := 0;
      }
    }

    // The pending read is over, with `data`.
    method AnswerRead(data: seq<byte>)
      requires ResultsOk() && HandshakeOk() && HandshakeCompleted && 0 < |data|
      modifies this`PlainReadBuffer, this`PlainReadPending
      modifies this`PendingResults, this`ResultNotified
      modifies this`ResultLog, this`Delivered, this`Reported, this`HandshakesReported
      ensures ResultsOk() && HandshakeOk() && !PlainReadPending && PlainReadBuffer == None
      ensures Delivered == old(Delivered) + data
      ensures Reported == old(Reported) && HandshakesReported == old(HandshakesReported)
      ensures ResultLog == old(ResultLog) + [Result(Read, data, |data|, 0, NoOrigin)]
      ensures Extends(old(ResultLog), ResultLog)
      ensures old(Honest()) ==> Honest()
    {
      hide ResultsOk, Extends, Honest;
      PlainReadBuffer := None;
      PlainReadPending := false;
      QueueResult(Result(Read, data, |data|, 0, NoOrigin));
    }

    method DrivePlainRead()
      requires Honest()
      requires Core() && !Removing && HandshakeCompleted && PlainReadPending && PlainReadBuffer.Some?
      modifies Session`Wbio, Session`Produced, Session`ReadOut, Session`Wants, Session`ReadAsked, Session`Closed, Session`Errors, Session`Failures
      modifies this`AdoptedPlainBuffers, this`AdoptedPlainOffset, this`AdoptedLeft
      modifies this`PlainReadBuffer, this`PlainReadPending, this`TlsReadClosed, this`EarlyReadAnswered
      modifies this`PendingResults, this`ResultNotified, this`HandshakeResultQueued
      modifies this`ResultLog, this`Delivered, this`Reported, this`HandshakesReported
      ensures Core()
      ensures Answered() && EarlyReadAnswered == old(EarlyReadAnswered)
      ensures Session.Wants >= old(Session.Wants) + Count(PlainReadPending)
      ensures PlainReadPending ==> Session.ReadAsked == |Session.Fed|
      ensures PlainReadPending ==> ResultLog == old(ResultLog)
      // a read is answered once: with at most what fits, a close or an error
      ensures !PlainReadPending ==>
                && |ResultLog| == |old(ResultLog)| + 1 && Extends(old(ResultLog), ResultLog)
                && var r := ResultLog[|old(ResultLog)|];
                   || (r.op.Read? && r.bytes <= old(PlainReadBuffer).value)
                   || r.op.ReadClosed? || (r.op.Error? && r.origin.Tls?)
      ensures Honest()
      // ... and each of these exactly if the session returned it
      ensures PlainReadPending ==> Session.Errors == old(Session.Errors) && TlsReadClosed == old(TlsReadClosed)
      ensures !PlainReadPending ==>
                var r := ResultLog[|old(ResultLog)|];
                && Session.Errors == old(Session.Errors) + Count(!r.op.Read?)
                && Session.Failures == old(Session.Failures) + (if r.op.Error? then [r.error] else [])
                && TlsReadClosed == (old(TlsReadClosed) || r.op.ReadClosed?)
    {
      hide Core, Honest, Owed, AsyncWriteQueue.Valid, Extends;
      ExtendsSelf(ResultLog);
      CoreFacts();
      DeliverAdoptedPlaintext();
      if PlainReadPending {
        ReadSession();
      }
    }

    method ReadSession()
      requires Honest()
      requires Core() && !Removing && HandshakeCompleted && PlainReadPending && AdoptedPlainBuffers == []
      requires PlainReadBuffer.Some?
      modifies Session`Wbio, Session`Produced, Session`ReadOut, Session`Wants, Session`ReadAsked, Session`Closed, Session`Errors, Session`Failures
      modifies this`PlainReadBuffer, this`PlainReadPending, this`TlsReadClosed, this`EarlyReadAnswered
      modifies this`PendingResults, this`ResultNotified, this`HandshakeResultQueued
      modifies this`ResultLog, this`Delivered, this`Reported, this`HandshakesReported
      ensures Core()
      ensures EarlyReadAnswered == old(EarlyReadAnswered)
      ensures Session.Wants >= old(Session.Wants) + Count(PlainReadPending)
      ensures PlainReadPending ==> Session.ReadAsked == |Session.Fed|
      ensures PlainReadPending ==> ResultLog == old(ResultLog) && PlainReadBuffer == old(PlainReadBuffer)
      ensures !PlainReadPending ==>
                && |ResultLog| == |old(ResultLog)| + 1 && Extends(old(ResultLog), ResultLog)
                && var r := ResultLog[|old(ResultLog)|];
                   || (r.op.Read? && r.bytes <= old(PlainReadBuffer).value)
                   || r.op.ReadClosed? || (r.op.Error? && r.origin.Tls?)
      ensures Honest()
      // ... and each of these exactly if the session returned it
      ensures PlainReadPending ==> Session.Errors == old(Session.Errors) && TlsReadClosed == old(TlsReadClosed)
      ensures !PlainReadPending ==>
                var r := ResultLog[|old(ResultLog)|];
                && Session.Errors == old(Session.Errors) + Count(!r.op.Read?)
                && Session.Failures == old(Session.Failures) + (if r.op.Error? then [r.error] else [])
                && TlsReadClosed == (old(TlsReadClosed) || r.op.ReadClosed?)
    {
      hide Core, Honest, Owed, AsyncWriteQueue.Valid, Extends;
      var outcome := ReadRecord();
      if outcome == ZeroReturn {
        SetTlsReadClosed();
        ClosePlainRead();
      } else if outcome.Failed? {
        FailPlainRead(ConvertSslError(outcome));
      }
    }

    // SSL_read into the pending buffer, answered when it returns something.
    method ReadRecord() returns (outcome: SslOutcome)
      requires Honest()
      requires Core() && !Removing && PlainReadPending && AdoptedPlainBuffers == [] && HandshakeCompleted
      requires PlainReadBuffer.Some?
      modifies Session`Wbio, Session`Produced, Session`ReadOut, Session`Wants, Session`ReadAsked, Session`Closed, Session`Errors, Session`Failures
      modifies this`PlainReadBuffer, this`PlainReadPending
      modifies this`PendingResults, this`ResultNotified
      modifies this`ResultLog, this`Delivered, this`Reported, this`HandshakesReported
      ensures Core()
      ensures Session.Wants == old(Session.Wants) + Count(outcome.WantRead?)
      ensures outcome.WantRead? ==> Session.ReadAsked == |Session.Fed|
      ensures PlainReadPending == (outcome != Completed)
      ensures if outcome == Completed then
                && |ResultLog| == |old(ResultLog)| + 1 && Extends(old(ResultLog), ResultLog)
                && ResultLog[|old(ResultLog)|].op.Read?
                && ResultLog[|old(ResultLog)|].bytes <= old(PlainReadBuffer).value
              else
                ResultLog == old(ResultLog) && PlainReadBuffer == old(PlainReadBuffer)
      ensures if outcome.Failed? then Owed(ConvertSslError(outcome)) else Honest()
      ensures Session.Closed == (old(Session.Closed) || outcome.ZeroReturn?)
      ensures Session.Failures == old(Session.Failures) + if outcome.Failed? then [ReportedCode(ConvertSslError(outcome))] else []
      ensures Session.Errors == old(Session.Errors) + Count(outcome.IsError())
    {
      hide ResultsOk, WriteOk, ShutdownOk, HandshakeOk, ReadsExact, Adopted, Ssl.Emitted, AsyncWriteQueue.Valid, Extends, Honest, Owed;
      AdoptedNone(AdoptedPlainBuffers, AdoptedPlainOffset, AdoptedLeft);
      HonestIs();
      var data;
      outcome, data := Session.Read(PlainReadBuffer.value);
      EmitFacts();
      FailureFacts(old(Session.Failures), outcome.Failed?, ConvertSslError(outcome));
      if outcome == Completed {
        ReadsExactGrow(Delivered, AdoptedLeft, AdoptedPlaintext, old(Session.ReadOut), data);
        AnswerRead(data);
      }
    }

    method FailPlainRead(error: int)
      requires Owed(error) && !Terminated()
      requires Core() && PlainReadPending
      modifies this`PlainReadBuffer, this`PlainReadPending
      modifies this`PendingResults, this`ResultNotified, this`HandshakeResultQueued
      modifies this`ResultLog, this`Delivered, this`Reported, this`HandshakesReported
      ensures Core() && !PlainReadPending
      ensures !old(Terminated()) ==>
                ResultLog == old(ResultLog) + [Result(Error, [], 0, ReportedCode(error), Tls)]
      ensures Extends(old(ResultLog), ResultLog)
      ensures HandshakeResultQueued == (old(HandshakeResultQueued) || !HandshakeCompleted)
      ensures Honest()
    {
      hide Core, Honest, Owed, AsyncWriteQueue.Valid, Extends;
      DropPlainRead();
      QueueError(error, Tls);
    }

    method ResetPlainRead()
      requires ReadOk()
      modifies this`PlainReadBuffer, this`PlainReadPending
      ensures ReadOk() && !PlainReadPending && PlainReadBuffer == None
    {
      hide Adopted, ReadsExact;
      PlainReadBuffer := None;
      PlainReadPending := false;
    }

    // A close answers the pending read. Before the handshake has completed it
    // can only be a read made before StartHandshake, and only one.
    method ClosePlainRead()
      requires Core() && PlainReadPending && TlsReadClosed
      requires !HandshakeCompleted ==> EarlyReadAccepted && !EarlyReadAnswered
      modifies this`PlainReadBuffer, this`PlainReadPending, this`EarlyReadAnswered
      modifies this`PendingResults, this`ResultNotified
      modifies this`ResultLog, this`Delivered, this`Reported, this`HandshakesReported
      ensures Core() && !PlainReadPending
      ensures ResultLog == old(ResultLog) + [Result(ReadClosed, [], 0, 0, NoOrigin)]
      ensures Extends(old(ResultLog), ResultLog)
      ensures EarlyReadAnswered == (old(EarlyReadAnswered) || !HandshakeCompleted)
      ensures old(Honest()) ==> Honest()
    {
      hide ResultsOk, ReadOk, WriteOk, ShutdownOk, AsyncWriteQueue.Valid, Extends, Honest;
      ResetPlainRead();
      if !HandshakeCompleted {
        EarlyReadAnswered := true;
      }
      QueueResult(Result(ReadClosed, [], 0, 0, NoOrigin));
    }

    method DriveShutdown()
      requires Honest()
      requires Core() && !Removing && HandshakeCompleted && ShutdownPending && !ShutdownCompleted
      modifies Session`Wbio, Session`Produced, Session`Wants, Session`Errors, Session`Failures
      modifies Session`Shutdowns, Session`ShutdownTried, Session`ShutdownEnd
      modifies this`ShutdownPending, this`ShutdownCompleted, this`CloseNotifyMark
      modifies this`PendingResults, this`ResultNotified, this`HandshakeResultQueued
      modifies this`ResultLog, this`Delivered, this`Reported, this`HandshakesReported
      ensures Core()
      ensures Session.Wants >= old(Session.Wants) && Session.Shutdowns == old(Session.Shutdowns) + 1
      ensures Session.ShutdownTried == |Session.Fed| && Unwritten() >= old(Unwritten())
      ensures ShutdownCompleted != ShutdownPending
      ensures ShutdownCompleted ==> CloseNotifyMark == |Session.Produced| && ResultLog == old(ResultLog)
      // it completes exactly when SSL_shutdown returns 1, and an error is reported
      ensures Session.ShutdownEnd == if ShutdownCompleted then Some(|Session.Produced|) else None
      ensures Session.Errors > old(Session.Errors) ==>
                && ShutdownPending && |ResultLog| == |old(ResultLog)| + 1
                && ResultLog[|old(ResultLog)|].op.Error? && ResultLog[|old(ResultLog)|].origin.Tls?
      ensures Session.Errors == old(Session.Errors) ==> ResultLog == old(ResultLog)
      ensures Answered()
      ensures Honest()
    {
      hide Core, Honest, Owed, Extends;
      ExtendsSelf(ResultLog);
      var outcome := StepShutdown();
      if !ShutdownCompleted && (outcome == ZeroReturn || outcome.Failed?) {
        QueueError(ConvertSslError(outcome), Tls);
      }
    }

    method StepShutdown() returns (outcome: SslOutcome)
      requires Honest()
      requires Core() && !Removing && HandshakeCompleted && ShutdownPending && !ShutdownCompleted
      modifies Session`Wbio, Session`Produced, Session`Wants, Session`Errors, Session`Failures
      modifies Session`Shutdowns, Session`ShutdownTried, Session`ShutdownEnd
      modifies this`ShutdownPending, this`ShutdownCompleted, this`CloseNotifyMark
      ensures Core()
      ensures Session.Wants >= old(Session.Wants) && Session.Shutdowns == old(Session.Shutdowns) + 1
      ensures Session.ShutdownTried == |Session.Fed| && Unwritten() >= old(Unwritten())
      ensures ShutdownCompleted != ShutdownPending && (ShutdownCompleted ==> outcome == Completed)
      ensures Session.ShutdownEnd == if ShutdownCompleted then Some(|Session.Produced|) else None
      ensures ShutdownCompleted ==> CloseNotifyMark == |Session.Produced|
      ensures Session.Errors == old(Session.Errors) + Count(outcome.IsError())
      ensures if outcome.IsError() then Owed(ConvertSslError(outcome)) else Honest()
      ensures Session.Failures == old(Session.Failures) + if outcome.IsError() then [ReportedCode(ConvertSslError(outcome))] else []
    {
      hide ResultsOk, ReadOk, WriteOk, ShutdownOk, AsyncWriteQueue.Valid, Honest, Owed;
      HonestIs();
      outcome := CallShutdown();
      FailureFacts(old(Session.Failures), outcome.IsError(), ConvertSslError(outcome));
    }

    method CallShutdown() returns (outcome: SslOutcome)
      requires WriteOk() && ShutdownOk() && !Removing && ShutdownPending && !ShutdownCompleted
      modifies Session`Wbio, Session`Produced, Session`Wants, Session`Errors, Session`Failures
      modifies Session`Shutdowns, Session`ShutdownTried, Session`ShutdownEnd
      modifies this`ShutdownPending, this`ShutdownCompleted, this`CloseNotifyMark
      ensures WriteOk() && ShutdownOk()
      ensures Session.Wants >= old(Session.Wants) && Session.Shutdowns == old(Session.Shutdowns) + 1
      ensures Session.ShutdownTried == |Session.Fed| && Unwritten() >= old(Unwritten())
      ensures ShutdownCompleted != ShutdownPending && (ShutdownCompleted ==> outcome == Completed)
      ensures Session.ShutdownEnd == if ShutdownCompleted then Some(|Session.Produced|) else None
      ensures ShutdownCompleted ==> CloseNotifyMark == |Session.Produced|
      ensures Session.Errors == old(Session.Errors) + Count(outcome.IsError())
      ensures Session.Failures == old(Session.Failures) + if outcome.IsError() then [ReportedCode(ConvertSslError(outcome))] else []
    {
      hide WriteOk, Ssl.Emitted;
      var complete;
      outcome, complete := Session.Shutdown();
      EmitFacts();
      MoreOutput();
      if complete {
        ShutdownCompleted := true;
        ShutdownPending := false;
        CloseNotifyMark := |Session.Produced|;
      }
    }

    twostate lemma MoreOutput()
      requires Session.Emitted() && unchanged(LowerWriter)
      ensures Unwritten() >= old(Unwritten())
    {
    }

    // Something waits for input from below.
    ghost predicate WantsInput()
      reads this`HandshakeStarted, this`HandshakeCompleted, this`PlainReadPending, this`PlainWriteNeedsRead
      reads this`ShutdownPending
    {
      HandshakeStarted && (PlainReadPending || PlainWriteNeedsRead || !HandshakeCompleted || ShutdownPending)
    }

    method StartLowerRead() returns (ok: bool)
      requires LowerReadsOk() && Core() && !Removing
      modifies this`LowerReadPending, Lower`ReadsStarted, Lower`Refusals
      ensures LowerReadsOk() && Core()
      ensures if WantsInput() && !old(LowerReadPending) && !LowerReadClosed then
                && ok == LowerReadPending
                && Lower.ReadsStarted == old(Lower.ReadsStarted) + Count(ok)
                && Lower.Refusals == old(Lower.Refusals) + Count(!ok)
              else
                && ok && LowerReadPending == old(LowerReadPending)
                && Lower.ReadsStarted == old(Lower.ReadsStarted) && Lower.Refusals == old(Lower.Refusals)
    {
      hide Core;
      CoreFacts();
      if LowerReadPending || LowerReadClosed || Removing {
        return true;
      }
      if !HandshakeStarted && !HandshakeCompleted {
        return true;
      }
      if !PlainReadPending && !PlainWriteNeedsRead && HandshakeCompleted && !ShutdownPending {
        return true;
      }
      ok := PostLowerRead();
    }

    method PostLowerRead() returns (ok: bool)
      requires LowerReadsOk() && Core() && !LowerReadPending
      modifies this`LowerReadPending, Lower`ReadsStarted, Lower`Refusals
      ensures LowerReadsOk() && Core() && ok == LowerReadPending
      ensures Lower.ReadsStarted == old(Lower.ReadsStarted) + Count(ok)
      ensures Lower.Refusals == old(Lower.Refusals) + Count(!ok)
    {
      hide ResultsOk, ReadOk, HandshakeOk, WriteOk, ShutdownOk;
      ok := Lower.StartRead();
      if ok {
        LowerReadPending := true;
      }
    }

    // The lower send side is shut down once TLS shutdown has completed and the
    // lower writer has nothing left.
    method CompleteLowerShutdown() returns (ok: bool)
      requires Core() && Settled() && !Removing
      modifies this`LowerSendShutdownCompleted, this`SendShutdownMark, Lower`SendShutdowns, Lower`Refusals
      ensures Core()
      ensures ok == (Lower.Refusals == old(Lower.Refusals)) && Lower.Refusals >= old(Lower.Refusals)
      ensures !ShutdownCompleted || LowerWriter.Queue != [] || old(LowerSendShutdownCompleted) ==>
                ok && LowerSendShutdownCompleted == old(LowerSendShutdownCompleted)
      ensures ok && ShutdownCompleted && !LowerSendShutdownCompleted ==> LowerWriter.Queue != []
      ensures LowerSendShutdownCompleted && !old(LowerSendShutdownCompleted) ==>
                SendShutdownMark == |Session.Produced| && LowerWriter.Completed == Session.Produced
      ensures old(LowerSendShutdownCompleted) ==> LowerSendShutdownCompleted
    {
      hide ResultsOk, ReadOk, HandshakeOk, WriteOk;
      var idle := LowerWriter.Queue == [] && !LowerWriter.WritePending;
      if !ShutdownCompleted || !idle {
        return true;
      }
      if LowerSendShutdownCompleted {
        return true;
      }
      AllWritten();
      ok := Lower.ShutdownSend();
      if !ok {
        return false;
      }
      LowerSendShutdownCompleted := true;
      SendShutdownMark := |Session.Produced|;
    }

    // ----- Drive()

    // What a reader of Core() needs between the steps.
    lemma CoreFacts()
      requires Core()
      ensures LowerWriter.Valid() && LowerWriter.Stream == Lower
      ensures LowerWriter.WritePending ==> LowerWriter.Queue != []
      ensures Lower.Refusals >= RefusalsBefore
      ensures PlainReadPending ==> PlainReadBuffer.Some?
      ensures HandshakeCompleted ==> HandshakeStarted
      ensures PlainWriteNeedsRead ==> HandshakeCompleted && PlainWritePending
      ensures ShutdownCompleted ==> HandshakeCompleted
      ensures LowerSendShutdownCompleted ==> ShutdownCompleted
      ensures EarlyReadAnswered ==> !PlainReadPending && EarlyReadAccepted
      ensures PlainReadPending && !HandshakeStarted ==> EarlyReadAccepted
    {
    }

    lemma SettledIsFlushed()
      requires Core() && Settled() && !Removing
      ensures Flushed()
    {
      if LowerWriter.Queue == [] {
        AllWritten();
      }
    }

    ghost predicate QueueMoves()
      reads LowerWriter`Queue, LowerWriter`WritePending, Lower`Refusals
    {
      Lower.Refusals == RefusalsBefore && LowerWriter.Queue != [] ==> LowerWriter.WritePending
    }

    lemma SoundFacts()
      requires Sound()
      ensures Core() && (!Removing ==> Settled() && QueueMoves())
    {
    }

    lemma ValidFacts()
      requires Valid()
      ensures Honest() && LowerReadsOk() && Core() && (!Removing ==> Settled() && QueueMoves())
    {
    }

    // Nothing can stall yet.
    lemma NotStartedFacts()
      requires Honest() && LowerReadsOk() && Core() && Settled() && QueueMoves() && !HandshakeStarted
      ensures Valid()
    {
    }

    // What only the owner's calls change.
    twostate predicate OwnersPart()
      reads this, Session, LowerWriter
    {
      && Removing == old(Removing) && HandshakeStarted == old(HandshakeStarted) && HasSink == old(HasSink)
      && LowerReadClosed == old(LowerReadClosed) && Session.Fed == old(Session.Fed)
      && EarlyReadAccepted == old(EarlyReadAccepted) && EarlyReadAnswered == old(EarlyReadAnswered)
      && WritesStarted == old(WritesStarted) && WriteBase == old(WriteBase)
      && LowerWriter.Completed == old(LowerWriter.Completed) && LowerReadsKept()
    }

    twostate predicate LowerReadsKept()
      reads this`LowerReadsAdopted, this`LowerReadsEnded
    {
      LowerReadsAdopted == old(LowerReadsAdopted) && LowerReadsEnded == old(LowerReadsEnded)
    }

    method Drive() returns (ok: bool)
      requires Honest() && LowerReadsOk()
      requires Core() && Settled() && QueueMoves() && !Removing
      modifies this, Session, LowerWriter, Lower
      ensures Valid()
      ensures ok == (Lower.Refusals == old(Lower.Refusals)) && Lower.Refusals >= old(Lower.Refusals)
      // what goes on has been tried, and waits for input
      ensures HandshakeStarted && !HandshakeCompleted && !HandshakeResultQueued ==>
                Session.Wants > old(Session.Wants)
      ensures HandshakeCompleted && PlainReadPending ==> Session.Wants > old(Session.Wants)
      ensures HandshakeCompleted && PlainWritePending ==> WriteTriedAgain()
      ensures ok && HandshakeCompleted && ShutdownPending && !ShutdownCompleted ==>
                Session.Shutdowns > old(Session.Shutdowns)
      ensures Answered()
      ensures old(HandshakeCompleted) ==> HandshakeCompleted
      ensures old(LowerSendShutdownCompleted) ==> LowerSendShutdownCompleted
      ensures OwnersPart()
      // nothing before StartHandshake, and no result or read once terminated
      ensures !HandshakeStarted ==>
                ok && unchanged(this) && unchanged(Session) && unchanged(LowerWriter) && unchanged(Lower)
      ensures old(Terminated()) ==>
                Terminated() && ResultLog == old(ResultLog) && Lower.ReadsStarted == old(Lower.ReadsStarted)
      ensures HandshakeStarted && !HandshakeCompleted && LowerReadClosed && ok ==> Terminated()
      ensures Honest() && LowerReadsOk()
    {
      hide Core, Honest, Owed, AsyncWriteQueue.Valid, Sound, Settled, Flushed, QueueMoves, Extends;
      CoreFacts();
      SettledIsFlushed();
      ExtendsSelf(ResultLog);
      if !HandshakeCompleted {
        if !HandshakeStarted {
          NotStartedFacts();
          return true;
        }
        ok := DriveHandshaking();
        if !HandshakeCompleted {
          return;
        }
      }
      label established:
      ok := DriveEstablished();
      SoundFacts();
      CoreFacts();
      ExtendsTransitive(old(ResultLog), old@established(ResultLog), ResultLog);
    }

    // A step of the handshake, and unless that completes it, what it needs
    // from below.
    method DriveHandshaking() returns (ok: bool)
      requires Honest() && LowerReadsOk()
      requires Core() && Settled() && Flushed() && QueueMoves() && !Removing && HandshakeStarted && !HandshakeCompleted
      modifies this, Session, LowerWriter, Lower
      ensures Extends(old(ResultLog), ResultLog) && |ResultLog| >= |old(ResultLog)|
      ensures Session.Wants >= old(Session.Wants)
      ensures Session.Shutdowns == old(Session.Shutdowns)
      ensures OwnersPart() && OperationsPart() && LowerSendShutdownCompleted == old(LowerSendShutdownCompleted)
      ensures if HandshakeCompleted then
                && ok && Core() && Flushed() && QueueMoves()
                && Lower.Refusals == old(Lower.Refusals) && !old(HandshakeResultQueued)
              else
                && Sound()
                && ok == (Lower.Refusals == old(Lower.Refusals)) && Lower.Refusals >= old(Lower.Refusals)
                && (HandshakeResultQueued || (Session.Wants > old(Session.Wants) && Session.HandshakeAsked == |Session.Fed|))
                && (LowerReadClosed && ok ==> HandshakeResultQueued)
      ensures old(HandshakeResultQueued) ==>
                HandshakeResultQueued && ResultLog == old(ResultLog) && Lower.ReadsStarted == old(Lower.ReadsStarted)
      ensures Honest() && LowerReadsOk()
    {
      hide Core, Honest, Owed, TlsErrors, NeverStalls, LowerReadsOk, AsyncWriteQueue.Valid, Sound, Settled, Flushed, QueueMoves, Extends;
      DriveHandshake();
      if HandshakeCompleted {
        return true;
      }
      label unfinished:
      ok := DriveUnfinished();
      ExtendsTransitive(old(ResultLog), old@unfinished(ResultLog), ResultLog);
    }

    // The pending reads, writes and shutdown are as they were.
    twostate predicate OperationsPart()
      reads this
    {
      && PlainReadPending == old(PlainReadPending) && PlainReadBuffer == old(PlainReadBuffer)
      && PlainWritePending == old(PlainWritePending) && PlainWriteBuffers == old(PlainWriteBuffers)
      && ShutdownPending == old(ShutdownPending) && ShutdownCompleted == old(ShutdownCompleted)
    }

    // The handshake goes on: its output goes down, and unless it has ended
    // unfinished a read comes up for it.
    method DriveUnfinished() returns (ok: bool)
      requires Honest() && LowerReadsOk()
      requires Core() && QueueMoves() && !Removing && HandshakeStarted && !HandshakeCompleted
      modifies Session`Wbio
      modifies LowerWriter`Queue, LowerWriter`QueuedBytes, LowerWriter`WritePending, LowerWriter`Queued, Lower
      modifies this`LowerReadPending, this`HandshakeResultQueued
      modifies this`PendingResults, this`ResultNotified
      modifies this`ResultLog, this`Delivered, this`Reported, this`HandshakesReported
      ensures Sound()
      ensures ok == (Lower.Refusals == old(Lower.Refusals)) && Lower.Refusals >= old(Lower.Refusals)
      ensures Extends(old(ResultLog), ResultLog) && |ResultLog| >= |old(ResultLog)|
      ensures LowerReadClosed && ok ==> Terminated()
      ensures old(HandshakeResultQueued) ==>
                HandshakeResultQueued && ResultLog == old(ResultLog) && Lower.ReadsStarted == old(Lower.ReadsStarted)
      ensures Honest() && LowerReadsOk()
    {
      hide Core, Honest, Owed, AsyncWriteQueue.Valid, Extends;
      CoreFacts();
      ExtendsSelf(ResultLog);
      ok := DrainEncryptedOutput();
      CoreFacts();
      if !ok {
        return false;
      }
      if LowerReadClosed {
        QueueHandshakeReadClosed();
        CoreFacts();
        return true;
      }
      if HandshakeResultQueued {
        return true;
      }
      ok := StartLowerRead();
      CoreFacts();
    }

    // The handshake is over: reads, writes, shutdown, and then what they need
    // from below.
    lemma RefusedIsSound()
      requires Core() && Settled() && Lower.Refusals != RefusalsBefore
      ensures Sound()
    {
    }

    method DriveEstablished() returns (ok: bool)
      requires Honest() && LowerReadsOk()
      requires Core() && Flushed() && QueueMoves() && !Removing && HandshakeCompleted
      modifies this, Session, LowerWriter, Lower
      ensures Sound()
      ensures ok == (Lower.Refusals == old(Lower.Refusals)) && Lower.Refusals >= old(Lower.Refusals)
      ensures Session.Wants >= old(Session.Wants) + Count(PlainReadPending)
      ensures PlainReadPending ==> Session.ReadAsked == |Session.Fed|
      ensures PlainWritePending ==> WriteTriedAgain()
      ensures ok && ShutdownPending && !ShutdownCompleted ==>
                Session.Shutdowns > old(Session.Shutdowns) && Session.ShutdownTried == |Session.Fed|
      ensures Answered()
      ensures OwnersPart() && HandshakeCompleted
      ensures old(LowerSendShutdownCompleted) ==> LowerSendShutdownCompleted
      ensures Honest() && LowerReadsOk()
    {
      hide Core, Honest, Owed, LowerReadsOk, AsyncWriteQueue.Valid, Extends, Flushed, QueueMoves, Settled, Sound;
      CoreFacts();
      ok := DriveOperations();
      CoreFacts();
      if !ok {
        RefusedIsSound();
        return false;
      }
      ok := DriveLower();
    }

    // What reads, writes and shutdown leave alone.
    twostate predicate StepPart()
      reads this, Session, LowerWriter
    {
      && OwnersPart() && HandshakeCompleted
      && LowerReadPending == old(LowerReadPending)
      && LowerSendShutdownCompleted == old(LowerSendShutdownCompleted)
      && (old(ShutdownCompleted) ==> ShutdownCompleted)
    }

    method DriveOperations() returns (ok: bool)
      requires Honest() && LowerReadsOk()
      requires Core() && Flushed() && QueueMoves() && !Removing && HandshakeCompleted
      modifies this, Session, LowerWriter, Lower
      ensures Core() && QueueMoves() && StepPart()
      ensures ok == (Lower.Refusals == old(Lower.Refusals)) && Lower.Refusals >= old(Lower.Refusals)
      ensures !ok ==> Settled()
      ensures ok && PlainWritePending ==> PlainWriteNeedsRead || LowerWriter.Queue != []
      ensures Session.Wants >= old(Session.Wants) + Count(PlainReadPending)
      ensures PlainReadPending ==> Session.ReadAsked == |Session.Fed|
      ensures PlainWritePending ==> WriteTriedAgain()
      ensures ok && ShutdownPending && !ShutdownCompleted ==>
                Session.Shutdowns > old(Session.Shutdowns) && Session.ShutdownTried == |Session.Fed|
      ensures Answered()
      ensures Honest() && LowerReadsOk()
    {
      hide Core, Honest, Owed, AsyncWriteQueue.Valid, Extends, Flushed, QueueMoves, Settled;
      ReadIfPending();
      label written:
      if PlainWritePending {
        ok := WritePlain();
        ExtendsTransitive(old(ResultLog), old@written(ResultLog), ResultLog);
        if !ok {
          return false;
        }
      }
      ok := true;
      label shut:
      ShutdownIfPending();
      ExtendsTransitive(old(ResultLog), old@shut(ResultLog), ResultLog);
    }

    method ReadIfPending()
      requires Honest() && LowerReadsOk()
      requires Core() && Flushed() && QueueMoves() && !Removing && HandshakeCompleted
      modifies this, Session, LowerWriter, Lower
      ensures Core() && Flushed() && QueueMoves() && StepPart() && Answered()
      ensures Lower.Refusals == old(Lower.Refusals) && Session.Shutdowns == old(Session.Shutdowns)
      ensures Session.Wants >= old(Session.Wants) + Count(PlainReadPending)
      ensures PlainReadPending ==> Session.ReadAsked == |Session.Fed|
      ensures Honest() && LowerReadsOk()
    {
      hide Core, Honest, Owed, AsyncWriteQueue.Valid, Extends, Flushed, QueueMoves;
      CoreFacts();
      ExtendsSelf(ResultLog);
      if PlainReadPending {
        DrivePlainRead();
      }
    }

    method WritePlain() returns (ok: bool)
      requires Honest() && LowerReadsOk()
      requires Core() && Flushed() && QueueMoves() && !Removing && HandshakeCompleted
      modifies this, Session, LowerWriter, Lower
      ensures Core() && QueueMoves() && StepPart() && Answered()
      ensures ok == (Lower.Refusals == old(Lower.Refusals)) && Lower.Refusals >= old(Lower.Refusals)
      ensures !ok ==> Settled()
      ensures ok && PlainWritePending ==> PlainWriteNeedsRead || LowerWriter.Queue != []
      ensures PlainReadPending == old(PlainReadPending) && Session.ReadAsked == old(Session.ReadAsked)
      ensures PlainWritePending ==> WriteTriedAgain()
      ensures Session.Wants >= old(Session.Wants) && Session.Shutdowns == old(Session.Shutdowns)
      ensures Honest() && LowerReadsOk()
      // it fails exactly if an SSL_write did
      ensures Session.Errors == old(Session.Errors) + Count(old(PlainWritePending) && !PlainWritePending && Finished == old(Finished))
    {
      hide Core, Honest, Owed, AsyncWriteQueue.Valid, Extends, Flushed, QueueMoves, Settled;
      CoreFacts();
      ok := DrivePlainWrite();
    }

    method ShutdownIfPending()
      requires Honest() && LowerReadsOk()
      requires Core() && QueueMoves() && !Removing && HandshakeCompleted
      modifies this, Session, LowerWriter, Lower
      ensures Core() && QueueMoves() && StepPart() && Answered()
      ensures Lower.Refusals == old(Lower.Refusals) && LowerWriter.Queue == old(LowerWriter.Queue)
      ensures PlainReadPending == old(PlainReadPending) && PlainWritePending == old(PlainWritePending)
      ensures PlainWriteNeedsRead == old(PlainWriteNeedsRead)
      ensures PlainWriteOffset == old(PlainWriteOffset) && PlainWriteSize == old(PlainWriteSize)
      ensures Session.ReadAsked == old(Session.ReadAsked) && Session.WriteAsked == old(Session.WriteAsked)
      ensures Unwritten() >= old(Unwritten())
      ensures Session.Wants >= old(Session.Wants)
      ensures ShutdownPending && !ShutdownCompleted ==>
                Session.Shutdowns > old(Session.Shutdowns) && Session.ShutdownTried == |Session.Fed|
      ensures Honest() && LowerReadsOk()
    {
      hide Core, Honest, Owed, AsyncWriteQueue.Valid, Extends, QueueMoves;
      ExtendsSelf(ResultLog);
      if ShutdownPending && !ShutdownCompleted {
        DriveShutdown();
      }
    }

    // What is left of the ciphertext goes down, then the end of the lower send
    // side, and a read comes up if anything waits for input.
    method DriveLower() returns (ok: bool)
      requires Honest() && LowerReadsOk()
      requires Core() && QueueMoves() && !Removing && HandshakeCompleted
      requires PlainWritePending ==> PlainWriteNeedsRead || LowerWriter.Queue != []
      modifies Session`Wbio
      modifies LowerWriter`Queue, LowerWriter`QueuedBytes, LowerWriter`WritePending, LowerWriter`Queued, Lower
      modifies this`LowerReadPending, this`LowerSendShutdownCompleted, this`SendShutdownMark
      ensures Sound() && Unwritten() == old(Unwritten())
      ensures ok == (Lower.Refusals == old(Lower.Refusals)) && Lower.Refusals >= old(Lower.Refusals)
      ensures old(LowerSendShutdownCompleted) ==> LowerSendShutdownCompleted
      ensures Honest() && LowerReadsOk()
    {
      hide Core, Honest, Owed, AsyncWriteQueue.Valid;
      CoreFacts();
      ok := DrainEncryptedOutput();
      CoreFacts();
      if !ok {
        return false;
      }
      ok := CompleteLowerShutdown();
      CoreFacts();
      if !ok {
        return false;
      }
      ok := StartLowerRead();
      CoreFacts();
    }

    // ----- The owner's calls

    // What no call takes back. A handshake that ended unfinished is the end:
    // no call changes it, reports more or reads more, but for the close that
    // answers a read made before StartHandshake.
    twostate predicate Later()
      reads this, Lower
    {
      && Extends(old(ResultLog), ResultLog)
      && Lower.Refusals >= old(Lower.Refusals)
      && (old(Removing) ==> Removing && ResultLog == old(ResultLog))
      && (old(HandshakeStarted) ==> HandshakeStarted)
      && (old(HandshakeCompleted) ==> HandshakeCompleted)
      && (old(LowerSendShutdownCompleted) ==> LowerSendShutdownCompleted)
      && (EarlyReadAccepted && !old(EarlyReadAccepted) ==> !old(HandshakeStarted) && !old(Terminated()))
      && (old(Terminated()) ==>
            && Terminated()
            && Lower.ReadsStarted == old(Lower.ReadsStarted) && WritesStarted == old(WritesStarted)
            && (EarlyReadAnswered == old(EarlyReadAnswered) ==> ResultLog == old(ResultLog)))
      && (old(EarlyReadAnswered) ==> EarlyReadAnswered)
      && (EarlyReadAnswered ==> EarlyReadAccepted)
      && old(LowerReadsAdopted) <= LowerReadsAdopted && old(LowerReadsEnded) <= LowerReadsEnded
    }

    twostate predicate EarlyKept()
      reads this`EarlyReadAccepted, this`EarlyReadAnswered
    {
      EarlyReadAccepted == old(EarlyReadAccepted) && EarlyReadAnswered == old(EarlyReadAnswered)
    }

    twostate predicate Same()
      reads this, Session, LowerWriter, Lower
    {
      unchanged(this) && unchanged(Session) && unchanged(LowerWriter) && unchanged(Lower)
    }

    method StartRead(buffer: Option<nat>) returns (ok: bool)
      requires Valid()
      modifies this, Session, LowerWriter, Lower
      ensures Valid() && Later() && LowerReadsKept()
      ensures var refused := old(Removing || TlsReadClosed || PlainReadPending || Terminated())
                             || buffer == None || buffer.value == 0;
              && (refused ==> !ok && Same())
              && EarlyReadAccepted == (old(EarlyReadAccepted) || (!refused && !old(HandshakeStarted)))
              && (!refused ==>
                    && ok == (Lower.Refusals == old(Lower.Refusals))
                    && (PlainReadPending || |ResultLog| > |old(ResultLog)|)
                    && (!HandshakeStarted ==>
                          && PlainReadPending && ResultLog == old(ResultLog) && Terminated() == old(Terminated())))
      ensures Removing == old(Removing) && HandshakeStarted == old(HandshakeStarted)
      ensures EarlyReadAnswered == old(EarlyReadAnswered)
    {
      hide Core, Honest, Owed, AsyncWriteQueue.Valid, AsyncTlsStream.Valid, Settled, QueueMoves, Extends;
      ValidFacts();
      CoreFacts();
      ExtendsSelf(ResultLog);
      if Removing || TlsReadClosed || PlainReadPending {
        return false;
      }
      if !HandshakeCompleted && HandshakeResultQueued {
        return false;
      }
      if buffer == None || buffer.value == 0 {
        return false;
      }
      SetPlainRead(buffer.value);
      ok := Drive();
      ValidFacts();
      CoreFacts();
    }

    method SetPlainRead(capacity: nat)
      requires Core() && !TlsReadClosed && !PlainReadPending && 0 < capacity
      modifies this`PlainReadBuffer, this`PlainReadPending, this`EarlyReadAccepted
      ensures Core() && PlainReadPending
      ensures EarlyReadAccepted == (old(EarlyReadAccepted) || !HandshakeStarted)
    {
      hide ResultsOk, WriteOk, ShutdownOk, Adopted, ReadsExact, AsyncWriteQueue.Valid;
      PlainReadBuffer := Some(capacity);
      PlainReadPending := true;
      if !HandshakeStarted {
        EarlyReadAccepted := true;
      }
    }

    method StartWrite(buffers: Chain) returns (ok: bool)
      requires Valid() && ValidChain(buffers)
      modifies this, Session, LowerWriter, Lower
      ensures Valid() && Later() && EarlyKept() && LowerReadsKept()
      ensures var refused := old(Removing || PlainWritePending || Terminated()) || buffers == [];
              && (refused ==> !ok && Same())
              && (!refused ==>
                    && ok == (Lower.Refusals == old(Lower.Refusals))
                    && WritesStarted == old(WritesStarted) + 1
                    && (PlainWritePending ==> PlainWriteBuffers == buffers)
                    && (!PlainWritePending ==> |ResultLog| > |old(ResultLog)|))
    {
      hide Core, Honest, Owed, AsyncWriteQueue.Valid, AsyncTlsStream.Valid, Settled, QueueMoves, Extends;
      ValidFacts();
      CoreFacts();
      ExtendsSelf(ResultLog);
      if Removing || PlainWritePending || buffers == [] {
        return false;
      }
      if !HandshakeCompleted && HandshakeResultQueued {
        return false;
      }
      SetPlainWrite(buffers);
      ok := Drive();
      ValidFacts();
      CoreFacts();
    }

    method SetPlainWrite(buffers: Chain)
      requires Core() && !PlainWritePending && buffers != [] && ValidChain(buffers)
      modifies this`PlainWriteBuffers, this`PlainWriteOffset, this`PlainWriteSize, this`PlainWritePending
      modifies this`PlainWriteNeedsRead, this`WriteBase, this`WriteMark, this`WritesStarted
      ensures Core() && PlainWritePending && PlainWriteBuffers == buffers
      ensures WritesStarted == old(WritesStarted) + 1
    {
      hide ResultsOk, ReadOk, WriteOk, ShutdownOk, AsyncWriteQueue.Valid;
      AcceptWrite(buffers);
    }

    method AcceptWrite(buffers: Chain)
      requires WriteOk() && !PlainWritePending && buffers != [] && ValidChain(buffers)
      modifies this`PlainWriteBuffers, this`PlainWriteOffset, this`PlainWriteSize, this`PlainWritePending
      modifies this`PlainWriteNeedsRead, this`WriteBase, this`WriteMark, this`WritesStarted
      ensures WriteOk() && PlainWritePending && PlainWriteBuffers == buffers && !PlainWriteNeedsRead
      ensures WritesStarted == old(WritesStarted) + 1
    {
      hide Partial, WritesExact, Ordered, Conserved;
      PartialStart(buffers, Session.Accepted);
      PlainWriteBuffers := buffers;
      PlainWriteOffset := 0;
      PlainWriteSize := |Flatten(buffers)|;
      PlainWritePending := true;
      PlainWriteNeedsRead := false;
      WriteBase, WriteMark, WritesStarted := |Session.Accepted|, 0, WritesStarted + 1;
    }

    method ShutdownSend() returns (ok: bool)
      requires Valid()
      modifies this, Session, LowerWriter, Lower
      ensures Valid() && Later() && EarlyKept() && LowerReadsKept()
      ensures old(Removing) ==> !ok && Same()
      ensures !old(Removing) && old(ShutdownCompleted) ==> ok && Same()
      ensures old(Terminated()) ==> !ok && Same()
      ensures !old(Removing || ShutdownCompleted || Terminated()) ==>
                && ok == (Lower.Refusals == old(Lower.Refusals))
                && (ShutdownPending || ShutdownCompleted)
    {
      hide Core, Honest, Owed, AsyncWriteQueue.Valid, AsyncTlsStream.Valid, Settled, QueueMoves, Extends;
      ValidFacts();
      CoreFacts();
      ExtendsSelf(ResultLog);
      if Removing {
        return false;
      }
      if ShutdownCompleted {
        return true;
      }
      if !HandshakeCompleted && HandshakeResultQueued {
        return false;
      }
      SetShutdownPending();
      ok := Drive();
      ValidFacts();
      CoreFacts();
    }

    method SetShutdownPending()
      requires Core()
      modifies this`ShutdownPending
      ensures Core() && ShutdownPending
    {
      hide ResultsOk, ReadOk, WriteOk, HandshakeOk, ShutdownOk, AsyncWriteQueue.Valid;
      ShutdownPending := true;
    }

    method StartHandshake() returns (ok: bool)
      requires Valid()
      modifies this, Session, LowerWriter, Lower
      ensures Valid() && Later() && EarlyKept() && LowerReadsKept()
      ensures old(Removing || Terminated()) ==> !ok && Same()
      ensures !old(Removing || Terminated()) ==>
                && HandshakeStarted && ok == (Lower.Refusals == old(Lower.Refusals))
                && (old(LowerReadClosed) && !HandshakeCompleted && ok ==> Terminated())
    {
      hide Core, Honest, Owed, AsyncWriteQueue.Valid, AsyncTlsStream.Valid, Settled, QueueMoves, Extends;
      ValidFacts();
      CoreFacts();
      ExtendsSelf(ResultLog);
      if Removing {
        return false;
      }
      if !HandshakeCompleted && HandshakeResultQueued {
        return false;
      }
      SetHandshakeStarted();
      ok := Drive();
      ValidFacts();
      CoreFacts();
    }

    method SetHandshakeStarted()
      requires Core()
      modifies this`HandshakeStarted
      ensures Core() && HandshakeStarted
    {
      hide ResultsOk, WriteOk, ShutdownOk, Adopted, ReadsExact, AsyncWriteQueue.Valid;
      HandshakeStarted := true;
    }

    method AdoptPendingLowerRead() returns (ok: bool)
      requires Valid()
      modifies this`LowerReadPending, this`LowerReadsAdopted
      ensures Valid() && Later() && EarlyKept()
      ensures LowerReadsAdopted == old(LowerReadsAdopted) + Count(ok)
      ensures ok == !old(Removing || LowerReadClosed || LowerReadPending)
      ensures LowerReadPending == (old(LowerReadPending) || ok)
    {
      hide ResultsOk, ReadOk, WriteOk, HandshakeOk, ShutdownOk, AsyncWriteQueue.Valid, Extends;
      ExtendsSelf(ResultLog);
      EarlyAnsweredFacts();
      if Removing || LowerReadClosed || LowerReadPending {
        return false;
      }
      LowerReadPending := true;
      LowerReadsAdopted := LowerReadsAdopted + 1;
      return true;
    }

    lemma EarlyAnsweredFacts()
      requires Core()
      ensures EarlyReadAnswered ==> EarlyReadAccepted
    {
    }

    method FeedEncryptedInput(data: Option<seq<byte>>) returns (ok: bool)
      requires Valid()
      modifies this, Session, LowerWriter, Lower
      ensures Valid() && Later() && EarlyKept() && LowerReadsKept()
      ensures old(Removing) || data == None ==> !ok && Same()
      ensures !old(Removing) && data.Some? ==>
                && Session.Fed == old(Session.Fed) + data.value
                && (data.value == [] || !HandshakeStarted ==> ok && ResultLog == old(ResultLog))
                && ok == (Lower.Refusals == old(Lower.Refusals))
    {
      hide Core, Honest, Owed, AsyncWriteQueue.Valid, AsyncTlsStream.Valid, Settled, QueueMoves, Extends;
      ValidFacts();
      CoreFacts();
      ExtendsSelf(ResultLog);
      if Removing || data == None {
        return false;
      }
      if data.value == [] {
        return true;
      }
      Feed(data.value);
      if !HandshakeStarted {
        NotStartedFacts();
        return true;
      }
      ok := Drive();
      ValidFacts();
      CoreFacts();
    }

    method Feed(data: seq<byte>)
      requires Core()
      modifies Session`Fed
      ensures Core() && Session.Fed == old(Session.Fed) + data
    {
      hide ResultsOk, ReadOk, WriteOk, HandshakeOk, ShutdownOk, AsyncWriteQueue.Valid;
      Session.Feed(data);
    }

    // A result of the lower stream. An error or a close ends lower reading.
    method ProcessLowerResult(fromLower: bool, result: Result) returns (ok: bool)
      requires Valid()
      modifies this, Session, LowerWriter, Lower
      ensures Valid() && Later() && EarlyReadAccepted == old(EarlyReadAccepted)
      ensures EarlyReadAnswered ==
              (old(EarlyReadAnswered) || (fromLower && result.op.ReadClosed?
                                          && old(!Removing && PlainReadPending && !HandshakeStarted)))
      // any result but that of a write ends the lower read that was pending
      ensures if !old(Removing) && fromLower && EndsRead(result) then LowerReadEnded() else LowerReadsKept()
      ensures old(Removing) || !fromLower ==> !ok && Same()
      ensures !old(Removing) && fromLower ==>
                match result.op
                case Read =>
                  && ok == (Lower.Refusals == old(Lower.Refusals))
                  && Session.Fed == old(Session.Fed) + result.data
                case Write =>
                  // only the write in flight is completed, and only by its size
                  if old(LowerWriter.WritePending) && result.bytes == |Flatten(old(LowerWriter.Queue)[0])| then
                    && LowerWriter.Completed == old(LowerWriter.Completed) + Flatten(old(LowerWriter.Queue)[0])
                    && ok == (Lower.Refusals == old(Lower.Refusals))
                  else
                    !ok && Same()
                case ReadClosed =>
                  && LowerReadClosed
                  && (old(HandshakeCompleted || !HandshakeStarted) ==>
                        && ok && TlsReadClosed && !PlainReadPending
                        && |ResultLog| == |old(ResultLog)| + Count(old(PlainReadPending || PlainWriteNeedsRead)))
                  && (ok && HandshakeStarted && !HandshakeCompleted ==> Terminated())
                  && (old(PlainWriteNeedsRead) ==> !PlainWritePending)
                case Error =>
                  && ok && LowerReadClosed
                  && (!HandshakeCompleted ==> Terminated())
                  && |ResultLog| == |old(ResultLog)| + Count(!old(Terminated()))
                  && PlainReadPending == old(PlainReadPending) && PlainWritePending == old(PlainWritePending)
                  && HandshakeStarted == old(HandshakeStarted) && Removing == old(Removing)
                case _ =>
                  ok && Same()
    {
      hide Core, Honest, Owed, AsyncWriteQueue.Valid, AsyncTlsStream.Valid, Extends;
      ValidFacts();
      CoreFacts();
      ExtendsSelf(ResultLog);
      if Removing || !fromLower {
        return false;
      }
      match result.op
      case Read =>
        ok := ProcessRead(result.data);
      case Write =>
        ok := ProcessWrite(result.bytes);
      case ReadClosed =>
        ok := ProcessReadClosed();
      case Error =>
        ProcessError(result.error);
        return true;
      case _ =>
        return true;
    }

    method ProcessRead(data: seq<byte>) returns (ok: bool)
      requires Valid() && !Removing
      modifies this, Session, LowerWriter, Lower
      ensures Valid() && Later() && EarlyKept() && LowerReadEnded()
      ensures ok == (Lower.Refusals == old(Lower.Refusals))
      ensures Session.Fed == old(Session.Fed) + data
    {
      hide Core, Honest, Owed, AsyncWriteQueue.Valid, AsyncTlsStream.Valid, Settled, QueueMoves, Extends;
      ValidFacts();
      CoreFacts();
      EndLowerRead(LowerReadClosed);
      Feed(data);
      ok := Drive();
      ValidFacts();
      CoreFacts();
    }

    method ProcessWrite(bytes: nat) returns (ok: bool)
      requires Valid() && !Removing
      modifies this, Session, LowerWriter, Lower
      ensures Valid() && Later() && EarlyKept() && LowerReadsKept()
      ensures if old(LowerWriter.WritePending) && bytes == |Flatten(old(LowerWriter.Queue)[0])| then
                && LowerWriter.Completed == old(LowerWriter.Completed) + Flatten(old(LowerWriter.Queue)[0])
                && ok == (Lower.Refusals == old(Lower.Refusals))
              else
                !ok && Same()
    {
      hide Core, Honest, Owed, AsyncWriteQueue.Valid, Extends;
      CoreFacts();
      ExtendsSelf(ResultLog);
      ok := CompleteLowerWrite(bytes);
      CoreFacts();
      if !ok {
        return false;
      }
      ok := Drive();
      CoreFacts();
    }

    method EndLowerRead(closed: bool)
      requires LowerReadClosed ==> closed
      requires Core() && LowerReadsOk()
      modifies this`LowerReadPending, this`LowerReadClosed, this`LowerReadsEnded
      ensures Core() && LowerReadsOk() && !LowerReadPending && LowerReadClosed == closed
      ensures LowerReadsEnded == old(LowerReadsEnded) + Count(old(LowerReadPending))
    {
      hide ResultsOk, ReadOk, WriteOk, HandshakeOk, ShutdownOk, AsyncWriteQueue.Valid;
      LowerReadsEnded := LowerReadsEnded + Count(LowerReadPending);
      LowerReadPending := false;
      LowerReadClosed := closed;
    }

    method CompleteLowerWrite(bytes: nat) returns (ok: bool)
      requires Core() && Settled() && !Removing
      modifies LowerWriter, Lower, this`LowerSendShutdownCompleted, this`SendShutdownMark
      ensures Core() && Settled() && Lower.Refusals >= old(Lower.Refusals)
      ensures Lower.ReadsStarted == old(Lower.ReadsStarted)
      ensures if old(LowerWriter.WritePending) && bytes == |Flatten(old(LowerWriter.Queue)[0])| then
                && LowerWriter.Completed == old(LowerWriter.Completed) + Flatten(old(LowerWriter.Queue)[0])
                && ok == (Lower.Refusals == old(Lower.Refusals))
              else
                !ok && Same()
      ensures ok ==> QueueMoves()
      ensures ok && ShutdownCompleted && LowerWriter.Queue == [] ==> LowerSendShutdownCompleted
      ensures old(LowerSendShutdownCompleted) ==> LowerSendShutdownCompleted
    {
      hide Core, Honest, Owed, AsyncWriteQueue.Valid, Extends;
      CoreFacts();
      var completed;
      ok, completed := CompleteWrite(bytes);
      CoreFacts();
      if !ok {
        return false;
      }
      ok := CompleteLowerShutdown();
      CoreFacts();
    }

    method CompleteWrite(bytes: nat) returns (ok: bool, completed: Chain)
      requires Core() && Settled() && !Removing
      modifies LowerWriter, Lower
      ensures Core() && Settled()
      ensures if old(LowerWriter.WritePending) && bytes == |Flatten(old(LowerWriter.Queue)[0])| then
                && LowerWriter.Completed == old(LowerWriter.Completed) + Flatten(old(LowerWriter.Queue)[0])
                && ok == (Lower.Refusals == old(Lower.Refusals))
                && (ok ==> (LowerWriter.WritePending <==> LowerWriter.Queue != []))
              else
                !ok && Same()
      ensures OnlyWrites(Lower)
    {
      hide ResultsOk, ReadOk, HandshakeOk, Partial, WritesExact, Conserved, AsyncWriteQueue.Valid;
      ok, completed := LowerWriter.OnWriteCompleted(bytes);
      ConservedMove(old(LowerWriter.Completed), old(LowerWriter.Queued), Session.Wbio, Session.Produced,
                    LowerWriter.Completed, LowerWriter.Queued);
      WritesExactMonotone(Finished, Reported, Session.Accepted, Session.WriteEnds, |old(LowerWriter.Completed)|,
                          Session.Accepted, Session.WriteEnds, |LowerWriter.Completed|);
    }

    method ProcessReadClosed() returns (ok: bool)
      requires Valid() && !Removing
      modifies this, Session, LowerWriter, Lower
      ensures Valid() && Later() && EarlyReadAccepted == old(EarlyReadAccepted) && LowerReadEnded()
      ensures EarlyReadAnswered == (old(EarlyReadAnswered) || old(PlainReadPending && !HandshakeStarted))
      ensures LowerReadClosed
      ensures HandshakeStarted == old(HandshakeStarted)
      ensures old(HandshakeCompleted) || !HandshakeStarted ==>
                && ok && TlsReadClosed && !PlainReadPending
                && |ResultLog| == |old(ResultLog)| + Count(old(PlainReadPending || PlainWriteNeedsRead))
      ensures ok && HandshakeStarted && !HandshakeCompleted ==> Terminated()
      ensures old(PlainWriteNeedsRead) ==> !PlainWritePending
    {
      hide Core, Honest, Owed, Extends, AsyncWriteQueue.Valid, AsyncTlsStream.Valid, Settled, NeverStalls, QueueMoves;
      ValidFacts();
      CoreFacts();
      // without input a handshake ends here, and no read or write with it
      if !PlainWriteNeedsRead && HandshakeStarted && !HandshakeCompleted {
        ok := EndHandshake();
        return;
      }
      EndReading();
      return true;
    }

    method EndHandshake() returns (ok: bool)
      requires Valid() && !Removing && HandshakeStarted && !HandshakeCompleted
      modifies this, Session, LowerWriter, Lower
      ensures Valid() && Later() && EarlyKept() && LowerReadEnded()
      ensures LowerReadClosed && HandshakeStarted
      ensures ok && !HandshakeCompleted ==> Terminated()
    {
      hide Core, Honest, Owed, Extends, AsyncWriteQueue.Valid, AsyncTlsStream.Valid, Settled, NeverStalls, QueueMoves;
      ValidFacts();
      CoreFacts();
      SetReadClosed();
      ok := Drive();
      ValidFacts();
      CoreFacts();
    }

    method EndReading()
      requires Valid() && !Removing
      requires PlainWriteNeedsRead || !HandshakeStarted || HandshakeCompleted
      modifies this
      ensures Valid() && Later() && ReadingEnded()
    {
      hide Core, Honest, Owed, Extends, AsyncWriteQueue.Valid, AsyncTlsStream.Valid, Sound, NeverStalls, Settled, Tried, QueueMoves;
      ValidFacts();
      CoreFacts();
      CloseReading();
      CoreFacts();
      StillValid();
    }

    // What the end of lower reading changes, and what it leaves alone.
    twostate predicate ReadingEnded()
      reads this
    {
      && LowerReadClosed && TlsReadClosed && !PlainReadPending
      && Extends(old(ResultLog), ResultLog)
      && |ResultLog| == |old(ResultLog)| + Count(old(PlainReadPending || PlainWriteNeedsRead))
      && (old(PlainWriteNeedsRead) ==> !PlainWritePending)
      && (PlainWritePending ==>
            && old(PlainWritePending) && PlainWriteNeedsRead == old(PlainWriteNeedsRead)
            && PlainWriteOffset == old(PlainWriteOffset) && PlainWriteSize == old(PlainWriteSize))
      && EarlyReadAccepted == old(EarlyReadAccepted)
      && EarlyReadAnswered == (old(EarlyReadAnswered) || old(PlainReadPending && !HandshakeStarted))
      && (EarlyReadAnswered == old(EarlyReadAnswered) && old(Terminated()) ==> ResultLog == old(ResultLog))
      && Removing == old(Removing) && HandshakeStarted == old(HandshakeStarted)
      && HandshakeCompleted == old(HandshakeCompleted) && HandshakeResultQueued == old(HandshakeResultQueued)
      && ShutdownPending == old(ShutdownPending) && ShutdownCompleted == old(ShutdownCompleted)
      && LowerSendShutdownCompleted == old(LowerSendShutdownCompleted) && WritesStarted == old(WritesStarted)
      && LowerReadEnded()
    }

    twostate predicate LowerReadEnded()
      reads this`LowerReadsAdopted, this`LowerReadsEnded
    {
      && LowerReadsAdopted == old(LowerReadsAdopted)
      && LowerReadsEnded == old(LowerReadsEnded) + Count(old(LowerReadPending))
    }

    method CloseReading()
      requires Honest() && LowerReadsOk()
      requires Core() && (HandshakeStarted ==> HandshakeCompleted)
      modifies this
      ensures Core() && ReadingEnded()
      ensures Honest() && LowerReadsOk()
    {
      hide Core, Honest, Owed, Extends, AsyncWriteQueue.Valid;
      SetReadClosed();
      AnswerReadClosed();
    }

    // With lower reading over nothing has to be waited for, and what is no longer
    // pending need not be tried.
    twostate lemma StillValid()
      requires old(Valid()) && Honest() && LowerReadsOk() && Core() && unchanged(Session) && unchanged(LowerWriter) && unchanged(Lower)
      requires LowerReadClosed && Removing == old(Removing) && HandshakeStarted == old(HandshakeStarted)
      requires HandshakeCompleted == old(HandshakeCompleted)
      requires HandshakeStarted ==> HandshakeCompleted || HandshakeResultQueued
      requires PlainReadPending ==> old(PlainReadPending)
      requires PlainWritePending ==>
                 && old(PlainWritePending) && PlainWriteNeedsRead == old(PlainWriteNeedsRead)
                 && PlainWriteOffset == old(PlainWriteOffset) && PlainWriteSize == old(PlainWriteSize)
      requires ShutdownPending == old(ShutdownPending) && ShutdownCompleted == old(ShutdownCompleted)
      requires LowerSendShutdownCompleted == old(LowerSendShutdownCompleted)
      ensures Valid()
    {
      hide Core;
    }

    // What a close of lower reading ends: a write that waits for input, or else
    // a read.
    method AnswerReadClosed()
      requires Honest()
      requires Core() && LowerReadClosed && TlsReadClosed
      requires HandshakeStarted ==> HandshakeCompleted
      modifies this`PlainReadBuffer, this`PlainReadPending, this`EarlyReadAnswered
      modifies this`PlainWriteBuffers, this`PlainWriteOffset, this`PlainWriteSize, this`PlainWritePending
      modifies this`PlainWriteNeedsRead, this`WritesFailed
      modifies this`PendingResults, this`ResultNotified, this`HandshakeResultQueued
      modifies this`ResultLog, this`Delivered, this`Reported, this`HandshakesReported
      ensures Core() && Extends(old(ResultLog), ResultLog)
      ensures !PlainReadPending && !PlainWriteNeedsRead
      ensures old(PlainWriteNeedsRead) ==> !PlainWritePending
      ensures |ResultLog| == |old(ResultLog)| + Count(old(PlainReadPending || PlainWriteNeedsRead))
      ensures HandshakeResultQueued == old(HandshakeResultQueued)
      ensures EarlyReadAnswered == (old(EarlyReadAnswered) || old(PlainReadPending && !HandshakeStarted))
      ensures EarlyReadAnswered ==> EarlyReadAccepted
      ensures PlainWritePending ==>
                && old(PlainWritePending) && PlainWriteNeedsRead == old(PlainWriteNeedsRead)
                && PlainWriteOffset == old(PlainWriteOffset) && PlainWriteSize == old(PlainWriteSize)
      ensures EarlyReadAnswered == old(EarlyReadAnswered) ==>
                (old(Terminated()) ==> ResultLog == old(ResultLog))
      ensures Honest()
    {
      hide Core, Honest, Owed, Extends, AsyncWriteQueue.Valid;
      CoreFacts();
      ExtendsSelf(ResultLog);
      if PlainWriteNeedsRead {
        FailForLackOfInput();
      } else if PlainReadPending {
        ClosePlainRead();
      }
    }

    // The write can never get the input it needs: one error for it and for a
    // pending read.
    method FailForLackOfInput()
      requires Honest()
      requires Core() && HandshakeCompleted
      modifies this`PlainReadBuffer, this`PlainReadPending
      modifies this`PlainWriteBuffers, this`PlainWriteOffset, this`PlainWriteSize, this`PlainWritePending
      modifies this`PlainWriteNeedsRead, this`WritesFailed
      modifies this`PendingResults, this`ResultNotified, this`HandshakeResultQueued
      modifies this`ResultLog, this`Delivered, this`Reported, this`HandshakesReported
      ensures Core() && !PlainReadPending && !PlainWritePending && !PlainWriteNeedsRead
      ensures Extends(old(ResultLog), ResultLog)
      ensures ResultLog == old(ResultLog) + [Result(Error, [], 0, SSL_ERROR_SYSCALL, Transport)]
      ensures HandshakeResultQueued == old(HandshakeResultQueued)
      ensures Honest()
    {
      hide Core, Honest, Owed, AsyncWriteQueue.Valid, Extends;
      DropPlainRead();
      FailPlainWrite();
      QueueError(SSL_ERROR_SYSCALL, Transport);
    }

    // Nothing is added to what an unfinished handshake has already reported.
    method ProcessError(error: int)
      requires Valid() && !Removing
      modifies this`LowerReadPending, this`LowerReadClosed, this`LowerReadsEnded
      modifies this`PendingResults, this`ResultNotified, this`HandshakeResultQueued
      modifies this`ResultLog, this`Delivered, this`Reported, this`HandshakesReported
      ensures Valid() && Later() && EarlyKept() && LowerReadClosed && LowerReadEnded()
      ensures !HandshakeCompleted ==> Terminated()
      ensures ResultLog == if old(Terminated()) then old(ResultLog)
                           else old(ResultLog) + [Result(Error, [], 0, ReportedCode(error), Transport)]
    {
      hide Core, Honest, Owed, AsyncWriteQueue.Valid, AsyncTlsStream.Valid, Sound, NeverStalls, Settled, Tried, QueueMoves, Extends;
      ValidFacts();
      CoreFacts();
      ReportError(error);
      CoreFacts();
      StillValid();
    }

    method ReportError(error: int)
      requires Core() && Honest() && LowerReadsOk()
      modifies this`LowerReadPending, this`LowerReadClosed, this`LowerReadsEnded
      modifies this`PendingResults, this`ResultNotified, this`HandshakeResultQueued
      modifies this`ResultLog, this`Delivered, this`Reported, this`HandshakesReported
      ensures Core() && Honest() && LowerReadsOk() && LowerReadEnded() && LowerReadClosed
      ensures HandshakeResultQueued == (old(HandshakeResultQueued) || !HandshakeCompleted)
      ensures Extends(old(ResultLog), ResultLog)
      ensures ResultLog == if old(Terminated()) then old(ResultLog)
                           else old(ResultLog) + [Result(Error, [], 0, ReportedCode(error), Transport)]
    {
      hide Core, Honest, Owed, Extends;
      ExtendsSelf(ResultLog);
      EndLowerRead(true);
      if !HandshakeCompleted && HandshakeResultQueued {
        return;
      }
      QueueError(error, Transport);
    }

    method SetTlsReadClosed()
      requires Session.Closed
      requires Core()
      modifies this`TlsReadClosed
      ensures Core() && TlsReadClosed
    {
      hide ResultsOk, ReadOk, WriteOk, ShutdownOk, AsyncWriteQueue.Valid;
      TlsReadClosed := true;
    }

    method SetReadClosed()
      requires Core() && LowerReadsOk()
      modifies this`LowerReadPending, this`LowerReadClosed, this`TlsReadClosed, this`LowerReadsEnded
      ensures Core() && LowerReadsOk() && !LowerReadPending && LowerReadClosed && TlsReadClosed
      ensures LowerReadsEnded == old(LowerReadsEnded) + Count(old(LowerReadPending))
    {
      hide ResultsOk, ReadOk, WriteOk, ShutdownOk, AsyncWriteQueue.Valid;
      EndLowerRead(true);
      TlsReadClosed := true;
    }

    method DropPlainRead()
      requires Core()
      modifies this`PlainReadBuffer, this`PlainReadPending
      ensures Core() && !PlainReadPending
    {
      hide ResultsOk, ReadOk, WriteOk, ShutdownOk, AsyncWriteQueue.Valid;
      ResetPlainRead();
    }

    // Everything pending is dropped, and nothing is reported any more.
    method Close()
      requires Valid()
      modifies this, LowerWriter
      ensures Valid() && Later() && EarlyKept() && Removing && LowerReadsKept()
      ensures old(Removing) ==> unchanged(this) && unchanged(LowerWriter)
      ensures !old(Removing) ==>
                && PendingResults == [] && !HasSink && AdoptedPlainBuffers == []
                && !PlainReadPending && !PlainWritePending && !ShutdownPending
                && LowerWriter.Queue == []
    {
      hide Core, Honest, Owed, Extends, AsyncWriteQueue.Valid;
      ExtendsSelf(ResultLog);
      CoreFacts();
      if !Removing {
        DropAll();
        CoreFacts();
      }
    }

    method DropAll()
      requires Core()
      modifies this`Removing, this`ShutdownPending
      modifies this`PendingResults, this`ResultNotified, this`HasSink
      modifies LowerWriter, this`AdoptedPlainBuffers, this`AdoptedPlainOffset
      modifies this`PlainReadBuffer, this`PlainReadPending
      modifies this`PlainWriteBuffers, this`PlainWriteOffset, this`PlainWriteSize, this`PlainWritePending
      modifies this`PlainWriteNeedsRead, this`WritesFailed
      ensures Core() && Removing
      ensures PendingResults == [] && !HasSink && AdoptedPlainBuffers == []
      ensures !PlainReadPending && !PlainWritePending && !ShutdownPending
      ensures LowerWriter.Queue == []
    {
      hide Core, Honest, Owed, AsyncWriteQueue.Valid;
      SetRemoving();
      DropResults();
      DropBelow();
      DropOperations();
    }

    method DropOperations()
      requires Core()
      modifies this`PlainReadBuffer, this`PlainReadPending
      modifies this`PlainWriteBuffers, this`PlainWriteOffset, this`PlainWriteSize, this`PlainWritePending
      modifies this`PlainWriteNeedsRead, this`WritesFailed
      ensures Core() && !PlainReadPending && !PlainWritePending && !PlainWriteNeedsRead
    {
      hide Core;
      DropPlainRead();
      FailPlainWrite();
    }

    method SetRemoving()
      requires Core()
      modifies this`Removing, this`ShutdownPending
      ensures Core() && Removing && !ShutdownPending
    {
      hide ResultsOk, HandshakeOk, Partial, AsyncWriteQueue.Valid;
      Removing := true;
      ShutdownPending := false;
    }

    method DropResults()
      requires Core()
      modifies this`PendingResults, this`ResultNotified, this`HasSink
      ensures Core() && PendingResults == [] && !HasSink
    {
      hide ReadOk, WriteOk, HandshakeOk, ShutdownOk, Summary, AsyncWriteQueue.Valid;
      PendingResults, ResultNotified, HasSink := [], false, false;
    }

    method DropBelow()
      requires Core() && Removing
      modifies LowerWriter, this`AdoptedPlainBuffers, this`AdoptedPlainOffset
      ensures Core() && LowerWriter.Queue == [] && AdoptedPlainBuffers == []
    {
      hide ResultsOk, HandshakeOk, Partial, AsyncWriteQueue.Valid;
      AdoptedPlainBuffers, AdoptedPlainOffset := [], 0;
      LowerWriter.Clear();
    }

    // Results come out in the order they were queued, each once; a result that
    // comes when there was none left is notified again.
    method PopPendingResult() returns (r: Option<Result>)
      requires Valid()
      modifies this`PendingResults, this`ResultNotified
      ensures Valid() && Later() && EarlyKept()
      ensures old(PendingResults) == [] ==> r == None && PendingResults == [] && !ResultNotified
      ensures old(PendingResults) != [] ==>
                && r == Some(old(PendingResults)[0]) && PendingResults == old(PendingResults)[1..]
                && ResultNotified == (old(ResultNotified) && PendingResults != [])
    {
      hide Extends, ResultsOk, ReadOk, WriteOk, HandshakeOk, ShutdownOk, AsyncWriteQueue.Valid, NeverStalls, Settled, Tried;
      ExtendsSelf(ResultLog);
      EarlyAnsweredFacts();
      r := TakeResult();
    }

    method TakeResult() returns (r: Option<Result>)
      requires ResultsOk()
      modifies this`PendingResults, this`ResultNotified
      ensures ResultsOk()
      ensures old(PendingResults) == [] ==> r == None && PendingResults == [] && !ResultNotified
      ensures old(PendingResults) != [] ==>
                && r == Some(old(PendingResults)[0]) && PendingResults == old(PendingResults)[1..]
                && ResultNotified == (old(ResultNotified) && PendingResults != [])
    {
      hide Summary;
      if PendingResults == [] {
        ResultNotified := false;
        return None;
      }
      r := Some(PendingResults[0]);
      PendingResults := PendingResults[1..];
      if PendingResults == [] {
        ResultNotified := false;
      }
    }

    method AttachSink(sink: bool) returns (notified: bool)
      requires ResultsOk()
      modifies this`HasSink, this`ResultNotified
      ensures ResultsOk() && HasSink == sink
      ensures notified == ResultNotified == (sink && PendingResults != [])
    {
      hide Summary;
      HasSink := sink;
      ResultNotified := false;
      if HasSink && PendingResults != [] {
        ResultNotified := true;
      }
      return ResultNotified;
    }

    // `notified`: the new sink was called at once, for results already there.
    method SetResultSink(sink: bool) returns (notified: bool)
      requires Valid()
      modifies this`HasSink, this`ResultNotified
      ensures Valid() && Later() && EarlyKept()
      ensures HasSink == sink
      ensures notified == ResultNotified == (sink && PendingResults != [])
    {
      hide Extends, ResultsOk, ReadOk, WriteOk, HandshakeOk, ShutdownOk, AsyncWriteQueue.Valid, NeverStalls, Settled, Tried;
      ExtendsSelf(ResultLog);
      EarlyAnsweredFacts();
      notified := AttachSink(sink);
    }

    // ----- All runs

    lemma UnfinishedFacts()
      requires Core()
      ensures !HandshakeCompleted ==> |ResultLog| == Count(HandshakeResultQueued) + Count(EarlyReadAnswered)
      ensures EarlyReadAnswered ==> !PlainReadPending
    {
    }

    // What a call has come to.
    ghost predicate Did(call: Call)
      reads this, Session`Fed
    {
      match call
      case StartRead(buffer) =>
        || Removing || TlsReadClosed || Terminated() || buffer == None || buffer.value == 0
        || PlainReadPending || ResultLog != []
      case StartWrite(chain) => Removing || Terminated() || chain == [] || PlainWritePending || WritesStarted > 0
      case ShutdownSend => Removing || Terminated() || ShutdownPending || ShutdownCompleted
      case Close => Removing
      case StartHandshake => Removing || Terminated() || HandshakeStarted
      case AdoptPendingLowerRead => Removing || LowerReadClosed || LowerReadPending
      case FeedEncryptedInput(data) => Removing || data == None || EndsWith(Session.Fed, data.value)
      case LowerResult(fromLower, result) =>
        || Removing || !fromLower
        || (if result.op.Read? then EndsWith(Session.Fed, result.data) else EndsRead(result) ==> LowerReadClosed)
      case PopPendingResult() => true
      case SetResultSink(sink) => HasSink == sink
    }

    // Until the handshake completes, a result is queued exactly if the call ends
    // it, or brings the close of a lower read that answers a plain read made
    // before StartHandshake. Only the results of lower reads end them.
    twostate predicate Stepped(call: Call)
      reads this
    {
      && (!old(Removing) && !HandshakeCompleted ==>
            |ResultLog| == |old(ResultLog)| + Count(Terminated() && !old(Terminated()))
                           + Count(call.IsLowerClose() && old(PlainReadPending && !HandshakeStarted)))
      && LowerReadsEnded == old(LowerReadsEnded)
           + Count(!old(Removing) && call.EndsLowerRead() && old(LowerReadPending))
      && LowerReadsAdopted == old(LowerReadsAdopted)
           + Count(call.AdoptPendingLowerRead? && !old(Removing || LowerReadClosed || LowerReadPending))
      && EarlyReadAccepted ==
         (old(EarlyReadAccepted) || (call.StartRead? && PlainReadPending && old(!PlainReadPending && !HandshakeStarted)))
    }

    method Do(call: Call)
      requires Valid() && call.Valid()
      modifies this, Session, LowerWriter, Lower
      ensures Valid() && Later() && Did(call) && Stepped(call)
    {
      hide Core, Honest, Owed, AsyncWriteQueue.Valid, AsyncTlsStream.Valid, Settled, NeverStalls, QueueMoves, Extends;
      hide Did, Stepped;
      if call.LowerResult? || call.FeedEncryptedInput? {
        DoInput(call);
      } else if call.StartRead? || call.StartWrite? || call.ShutdownSend? || call.Close? || call.StartHandshake? {
        DoOperation(call);
      } else {
        DoOther(call);
      }
    }

    method DoOperation(call: Call)
      requires Valid() && call.Valid()
      requires call.StartRead? || call.StartWrite? || call.ShutdownSend? || call.Close? || call.StartHandshake?
      modifies this, Session, LowerWriter, Lower
      ensures Valid() && Later() && Did(call) && Stepped(call)
    {
      hide Core, Honest, Owed, AsyncWriteQueue.Valid, AsyncTlsStream.Valid, Settled, NeverStalls, QueueMoves, Extends;
      ValidFacts();
      CoreFacts();
      UnfinishedFacts();
      match call {
        case StartRead(buffer) => var _ := StartRead(buffer);
        case StartWrite(chain) => var _ := StartWrite(chain);
        case ShutdownSend => var _ := ShutdownSend();
        case Close => Close();
        case StartHandshake => var _ := StartHandshake();
      }
      ValidFacts();
      UnfinishedFacts();
    }

    method DoOther(call: Call)
      requires Valid()
      requires call.AdoptPendingLowerRead? || call.PopPendingResult? || call.SetResultSink?
      modifies this, Session, LowerWriter, Lower
      ensures Valid() && Later() && Did(call) && Stepped(call)
    {
      hide Core, Honest, Owed, LowerReadsOk, Sound, AsyncWriteQueue.Valid, AsyncTlsStream.Valid, Settled, NeverStalls, QueueMoves, Extends;
      ValidFacts();
      CoreFacts();
      UnfinishedFacts();
      match call {
        case AdoptPendingLowerRead => var _ := AdoptPendingLowerRead();
        case PopPendingResult => var _ := PopPendingResult();
        case SetResultSink(sink) => var _ := SetResultSink(sink);
      }
      ValidFacts();
      UnfinishedFacts();
    }

    method DoInput(call: Call)
      requires Valid() && (call.LowerResult? || call.FeedEncryptedInput?)
      modifies this, Session, LowerWriter, Lower
      ensures Valid() && Later() && Did(call) && Stepped(call)
    {
      hide Core, Honest, Owed, AsyncWriteQueue.Valid, AsyncTlsStream.Valid, Settled, NeverStalls, QueueMoves, Extends;
      ValidFacts();
      CoreFacts();
      UnfinishedFacts();
      match call {
        case LowerResult(fromLower, result) => var _ := ProcessLowerResult(fromLower, result);
        case FeedEncryptedInput(data) => var _ := FeedEncryptedInput(data);
      }
      ValidFacts();
      UnfinishedFacts();
    }

    // Any calls, in any order, with any behaviour of the session and of the
    // lower stream.
    method Run(calls: seq<Call>)
      requires Valid() && forall c :: c in calls ==> c.Valid()
      modifies this, Session, LowerWriter, Lower
      ensures Valid() && Later() && (calls != [] ==> Did(calls[|calls| - 1]))
    {
      hide Core, Honest, Owed, Extends, Did;
      ExtendsSelf(ResultLog);
      EarlyAnsweredFacts();
      for i := 0 to |calls|
        invariant Valid() && Later() && (i > 0 ==> Did(calls[i - 1]))
      {
        label before:
        Do(calls[i]);
        ExtendsTransitive(old(ResultLog), old@before(ResultLog), ResultLog);
      }
    }

    // What a valid stream, that is one reached by any run, promises.

    // Ciphertext is exact end to end: what has completed below, then what the
    // lower writer holds, then what is still in the write BIO, is all there
    // ever was; and every reported write had all of its plaintext accepted as
    // it stands and all of its ciphertext completed below.
    lemma WritesAreExact()
      requires Valid() && !Removing
      ensures LowerWriter.Completed + FlattenAll(LowerWriter.Queue) + Session.Wbio == Session.Produced
      ensures PlainWritePending ==>
                Session.Accepted[WriteBase..] == Flatten(PlainWriteBuffers)[..PlainWriteOffset]
      ensures WriteSizes(ResultLog) == FinishedSizes(Finished)
      ensures forall f :: f in Finished ==>
                && f.End() <= |Session.Accepted|
                && Session.Accepted[f.base..f.End()] == Flatten(f.chain)
                && f.End() in Session.WriteEnds
                && Session.WriteEnds[f.End()] <= |LowerWriter.Completed|
      ensures forall i, j :: 0 <= i < j < |Finished| ==> Finished[i].End() <= Finished[j].base
      ensures PlainWritePending ==> forall f :: f in Finished ==> f.End() <= WriteBase
      ensures WritesStarted == |Finished| + WritesFailed + Count(PlainWritePending)
    {
    }

    // Every failure of the session is reported, once, with its code and in order,
    // and no other error is reported as one of the session; and reading is over
    // only when the session or the lower stream has ended it.
    lemma ErrorsAreReal()
      requires Valid()
      ensures FailuresBefore <= |Session.Failures| && TlsErrors(ResultLog) == Session.Failures[FailuresBefore..]
      ensures TlsReadClosed ==> ClosedBefore || Session.Closed || LowerReadClosed
    {
    }

    // The first result before the handshake completes is the only one, unless
    // a plain read was accepted before StartHandshake and a close answered it.
    lemma OneResultUntilCompleted()
      requires Valid() && !HandshakeCompleted
      ensures |ResultLog| == Count(Terminated()) + Count(EarlyReadAnswered)
      ensures !EarlyReadAccepted ==> |ResultLog| == Count(Terminated())
      ensures Handshakes(ResultLog) == 0
    {
    }

    // The lower send side is shut down at most once, after TLS shutdown, when
    // all ciphertext there was, the close_notify alert included, had completed.
    lemma LowerShutdownIsLast()
      requires Valid()
      ensures Lower.SendShutdowns <= SendShutdownsBefore + 1
      ensures Lower.SendShutdowns > SendShutdownsBefore && !Removing ==>
                && Session.ShutdownEnd.Some?
                && Session.ShutdownEnd.value <= SendShutdownMark <= |LowerWriter.Completed|
    {
    }
  }

  ghost predicate EndsWith(all: seq<byte>, end: seq<byte>) {
    |end| <= |all| && all[|all| - |end|..] == end
  }

  predicate EndsRead(result: Result) {
    result.op.Read? || result.op.ReadClosed? || result.op.Error?
  }

  datatype Call =
    | StartRead(buffer: Option<nat>)
    | StartWrite(chain: Chain)
    | ShutdownSend
    | Close
    | StartHandshake
    | AdoptPendingLowerRead
    | FeedEncryptedInput(data: Option<seq<byte>>)
    | LowerResult(fromLower: bool, result: Result)
    | PopPendingResult
    | SetResultSink(sink: bool)
  {
    predicate Valid() {
      StartWrite? ==> ValidChain(chain)
    }

    predicate EndsLowerRead() {
      LowerResult? && fromLower && EndsRead(result)
    }

    predicate IsLowerClose() {
      LowerResult? && fromLower && result.op.ReadClosed?
    }
  }

  // Why the read before StartHandshake is excepted: a lower error is reported,
  // and then a lower close is reported too.
  method EarlyReadGetsTwoResults(lower: LowerStream, session: Ssl) returns (s: AsyncTlsStream)
    requires session.MaxRecord <= MAX_RECORD
    requires session.Wbio == session.Produced == session.Accepted == session.ReadOut == []
    requires session.ShutdownEnd == None
    modifies lower, session
    ensures s.Valid() && s.Terminated() && |s.ResultLog| == 2
  {
    hide AsyncTlsStream.Core, Extends;
    s := new AsyncTlsStream(lower, session, false, [], false);
    var ok := s.StartRead(Some(1));
    s.CoreFacts();
    ok := s.ProcessLowerResult(true, Result(Error, [], 0, 104, Transport));
    s.CoreFacts();
    ok := s.ProcessLowerResult(true, Result(ReadClosed, [], 0, 0, NoOrigin));
  }
}
