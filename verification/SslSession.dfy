/** The TLS library over two memory BIOs, as an oracle. */
module SslSession {
  import opened Buffers
  import opened Wrappers

  datatype SslOutcome = Completed | WantRead | ZeroReturn | Failed(code: int) {
    predicate IsError() {
      ZeroReturn? || Failed?
    }
  }

  const SSL_ERROR_SSL: int := 1

  function ConvertSslError(outcome: SslOutcome): int {
    if outcome.Failed? then outcome.code else 0
  }

  // The code an error is reported with: never zero.
  function ReportedCode(error: int): int {
    if error == 0 then SSL_ERROR_SSL else error
  }

  // A session over two memory BIOs. Every call may return any outcome and
  // write any output; SSL_write takes a non-empty prefix of what it is offered
  // and writes at most one record.
  class Ssl {
    const MaxRecord: nat
    var Wbio: seq<byte>            // output not yet taken by BIO_read
    ghost var Produced: seq<byte>  // all output ever written to the write BIO
    ghost var Accepted: seq<byte>  // all plaintext taken by SSL_write
    ghost var ReadOut: seq<byte>   // all plaintext returned by SSL_read
    ghost var Fed: seq<byte>       // all input written to the read BIO
    ghost var Wants: nat           // how often a call asked for input
    // How much input there was when each call last asked for more, and when
    // SSL_shutdown was last called.
    ghost var HandshakeAsked: nat
    ghost var ReadAsked: nat
    ghost var WriteAsked: nat
    ghost var ShutdownTried: nat
    ghost var Shutdowns: nat       // how often SSL_shutdown was called
    ghost var Errors: nat          // how often a call failed, or found the session closed
    // The codes of the calls that failed, in order. A session that is closed
    // fails SSL_write and SSL_shutdown, and only ends SSL_do_handshake and
    // SSL_read.
    ghost var Failures: seq<int>
    ghost var Closed: bool         // SSL_do_handshake or SSL_read has found the session closed
    ghost var HandshakeDone: bool  // SSL_do_handshake has succeeded
    ghost var ShutdownEnd: Option<nat>  // all output there was when SSL_shutdown returned 1
    // For each record's plaintext, by how much had been accepted with it: all
    // output there was then.
    ghost var WriteEnds: map<nat, nat>

    constructor (maxRecord: nat)
      ensures MaxRecord == maxRecord
      ensures Wbio == Produced == Accepted == ReadOut == Fed == [] && Wants == Shutdowns == Errors == 0
      ensures Failures == [] && !Closed && !HandshakeDone && ShutdownEnd == None && WriteEnds == map[]
    {
      MaxRecord := maxRecord;
      Wbio, Produced, Accepted, ReadOut, Fed := [], [], [], [], [];
      HandshakeAsked, ReadAsked, WriteAsked, ShutdownTried := 0, 0, 0, 0;
      Failures, Closed := [], false;
      Wants, Shutdowns, Errors, HandshakeDone, ShutdownEnd, WriteEnds := 0, 0, 0, false, None, map[];
    }

    twostate predicate Emitted()
      reads this
    {
      && old(Produced) <= Produced
      && Wbio == old(Wbio) + Produced[|old(Produced)|..]
    }

    method Emit(out: seq<byte>)
      modifies this`Wbio, this`Produced
      ensures Emitted() && |Wbio| == |old(Wbio)| + |out|
    {
      Wbio := Wbio + out;
      Produced := Produced + out;
    }

    method DoHandshake() returns (outcome: SslOutcome)
      modifies this`Wbio, this`Produced, this`Wants, this`HandshakeAsked, this`Errors, this`Failures, this`Closed, this`HandshakeDone
      ensures Emitted() && HandshakeDone == (old(HandshakeDone) || outcome == Completed)
      ensures HandshakeAsked == if outcome.WantRead? then |Fed| else old(HandshakeAsked)
      ensures Failures == old(Failures) + if outcome.Failed? then [ReportedCode(ConvertSslError(outcome))] else []
      ensures Closed == (old(Closed) || outcome.ZeroReturn?)
      ensures Wants == old(Wants) + Count(outcome.WantRead?) && Errors == old(Errors) + Count(outcome.IsError())
    {
      var out: seq<byte> := *;
      Emit(out);
      outcome := *;
      Wants, Errors := Wants + Count(outcome.WantRead?), Errors + Count(outcome.IsError());
      Failures := Failures + if outcome.Failed? then [ReportedCode(ConvertSslError(outcome))] else [];
      Closed := Closed || outcome.ZeroReturn?;
      HandshakeAsked := if outcome.WantRead? then |Fed| else HandshakeAsked;
      HandshakeDone := HandshakeDone || outcome == Completed;
    }

    // `complete` is the result 1, both close_notify alerts exchanged; an
    // outcome Completed without it is the result 0.
    method Shutdown() returns (outcome: SslOutcome, complete: bool)
      modifies this`Wbio, this`Produced, this`Wants, this`ShutdownTried, this`Errors, this`Failures, this`Shutdowns, this`ShutdownEnd
      ensures Emitted() && Shutdowns == old(Shutdowns) + 1 && ShutdownTried == |Fed|
      ensures Failures == old(Failures) + if outcome.IsError() then [ReportedCode(ConvertSslError(outcome))] else []
      ensures Wants == old(Wants) + Count(outcome.WantRead?) && Errors == old(Errors) + Count(outcome.IsError())
      ensures complete ==> outcome == Completed
      ensures ShutdownEnd == if complete then Some(|Produced|) else old(ShutdownEnd)
    {
      var out: seq<byte> := *;
      Emit(out);
      outcome := *;
      Wants, Errors := Wants + Count(outcome.WantRead?), Errors + Count(outcome.IsError());
      Failures := Failures + if outcome.IsError() then [ReportedCode(ConvertSslError(outcome))] else [];
      Shutdowns, ShutdownTried := Shutdowns + 1, |Fed|;
      complete := *;
      complete := complete && outcome == Completed;
      ShutdownEnd := if complete then Some(|Produced|) else ShutdownEnd;
    }

    method Read(capacity: nat) returns (outcome: SslOutcome, data: seq<byte>)
      requires 0 < capacity
      modifies this`Wbio, this`Produced, this`ReadOut, this`Wants, this`ReadAsked, this`Errors, this`Failures, this`Closed
      ensures Emitted()
      ensures ReadAsked == if outcome.WantRead? then |Fed| else old(ReadAsked)
      ensures Failures == old(Failures) + if outcome.Failed? then [ReportedCode(ConvertSslError(outcome))] else []
      ensures Closed == (old(Closed) || outcome.ZeroReturn?)
      ensures Wants == old(Wants) + Count(outcome.WantRead?) && Errors == old(Errors) + Count(outcome.IsError())
      ensures outcome == Completed ==> 0 < |data| <= capacity && ReadOut == old(ReadOut) + data
      ensures outcome != Completed ==> ReadOut == old(ReadOut)
    {
      var out: seq<byte> := *;
      Emit(out);
      outcome := *;
      Wants, Errors := Wants + Count(outcome.WantRead?), Errors + Count(outcome.IsError());
      Failures := Failures + if outcome.Failed? then [ReportedCode(ConvertSslError(outcome))] else [];
      Closed := Closed || outcome.ZeroReturn?;
      ReadAsked := if outcome.WantRead? then |Fed| else ReadAsked;
      data := *;
      if outcome == Completed {
        if data == [] || |data| > capacity {
          data := [0];
        }
        ReadOut := ReadOut + data;
      }
    }

    method Write(data: seq<byte>) returns (outcome: SslOutcome, n: nat)
      requires 0 < |data|
      modifies this`Wbio, this`Produced, this`Accepted, this`WriteEnds, this`Wants, this`WriteAsked, this`Errors, this`Failures
      ensures WriteAsked == if outcome.WantRead? then |Fed| else old(WriteAsked)
      ensures Failures == old(Failures) + if outcome.IsError() then [ReportedCode(ConvertSslError(outcome))] else []
      ensures Wants == old(Wants) + Count(outcome.WantRead?) && Errors == old(Errors) + Count(outcome.IsError())
      ensures Emitted() && |Wbio| <= |old(Wbio)| + MaxRecord
      ensures outcome == Completed ==> 0 < n <= |data| && Accepted == old(Accepted) + data[..n]
      ensures outcome != Completed ==> Accepted == old(Accepted) && WriteEnds == old(WriteEnds)
      ensures outcome == Completed ==> WriteEnds == old(WriteEnds)[|Accepted| := |Produced|]
    {
      var record: seq<byte> := *;
      Emit(if |record| <= MaxRecord then record else []);
      outcome := *;
      Wants, Errors := Wants + Count(outcome.WantRead?), Errors + Count(outcome.IsError());
      Failures := Failures + if outcome.IsError() then [ReportedCode(ConvertSslError(outcome))] else [];
      WriteAsked := if outcome.WantRead? then |Fed| else WriteAsked;
      var k: int := *;
      n := if 0 < k <= |data| then k else 1;
      if outcome == Completed {
        Accepted := Accepted + data[..n];
        WriteEnds := WriteEnds[|Accepted| := |Produced|];
      }
    }

    // BIO_read on a memory BIO that holds at least `size` bytes.
    method TakeOutput(size: nat) returns (chunk: seq<byte>)
      requires 0 < size <= |Wbio|
      modifies this`Wbio
      ensures chunk == old(Wbio)[..size] && Wbio == old(Wbio)[size..]
    {
      chunk := Wbio[..size];
      Wbio := Wbio[size..];
    }

    // BIO_write on a memory BIO takes everything.
    method Feed(data: seq<byte>)
      modifies this`Fed
      ensures Fed == old(Fed) + data
    {
      Fed := Fed + data;
    }
  }
}
