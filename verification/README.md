# Syncme: what its concurrent cores keep

Syncme is a C++ library of events, timers, a thread pool and asynchronous
sockets. This project models its stateful cores in Dafny, one module a core, in
the form the sources have: classes with fields, whose methods are the sections
under a lock and are proved against a specification, with ghost histories of
what went in and what came out. What one thread's section does between another
thread's sections is a protocol: a state, one step per section, and theorems
over all runs.

* `Buffers`, `WriteQueue`, `SslSession`, `TlsHistory`, `Tls` - the TLS stream
  over a lower stream. `Drive` advances the handshake, reads, writes, shutdown
  and lower reads. The session and the lower stream are oracles that may do
  anything within their contracts: `SSL_write` takes a non-empty prefix and makes
  at most one record (below 32 KiB with its overhead, section 5.2 of RFC 8446)
  or takes nothing; `BIO_read` of what a memory BIO holds succeeds; `BIO_write`
  takes everything; WANT_WRITE does not occur. Proved: the stream never stalls;
  plaintext and ciphertext are exact to the byte across any number of calls;
  ciphertext that has not been written is bounded; a handshake has one result;
  the session's errors are reported, each once, and no others;
  the lower side is shut down once and last (after the close_notify alert,
  section 6.1 of RFC 8446).
* `EventSpec`, `EventList`, `MultiWait` - events, their intrusive list of waits,
  and waiting for several at once among everything else that may happen.
* `Timers` - the worker that sleeps until the first timer is due, and the setters
  that must wake it, over a wall clock that jumps and a steady one.
* `ThreadPool`, `PoolProtocol` - the pool's lists, and submitters and workers that
  race for workers and tasks.
* `ScatterGather`, `LinuxEngine`, `WindowsEngine` - the epoll and the completion
  port engines: partial sends, one-shot arming, and streams that outlive their
  overlapped operations. `QueuedWrites` puts a write queue over an epoll stream:
  what the queue completes is exactly what is on the wire.
* `WriteRetry` - the readiness loop, whose counter spares a scan.
* `SocketQueue` - packet queues and the loops between them and the wire.
* `AsyncResult`, `Wrappers` - what is shared.

A Dafny `class` keeps the names of the C++ class it models; a `ghost` field is
history, and changes nothing. Oracles choose with `:= *`. `dafny verify
dfyconfig.toml` checks all of it.

Some behaviour of the code is less than one might expect of it. It is modelled as
it is:

* A plain read accepted before `StartHandshake` can be answered by a close after
  the handshake has already ended with an error, so that the owner gets two
  results (`Tls.EarlyReadGetsTwoResults`). Until the handshake
  completes there is no other way to a second result: besides its end, only a
  close of a lower read that meets such a read queues one (`Tls.AsyncTlsStream.Do`, `Tls.AsyncTlsStream.OneResultUntilCompleted`).
* Two sets of a synchronization event may both go to the same waiter
  (`EventSpec.SetTwiceMayWakeOne`). The second passes that
  waiter by exactly if its wait was unregistered, or its handle closed, in between
  (`EventSpec.SetsReachDistinctWaits`).
* A wait that returns TIMEOUT may have taken signals, and gives none back: a wait
  for any between its timeout and the undoing of its registrations, a wait for
  all at any time (`MultiWait.TimeoutMayTakeASignal`,
  `MultiWait.TimeoutOfAllTakesASignal`; exactly when, in
  `MultiWait.TimeoutTakesSignals`). TIMEOUT, 258, is also the number of an event
  when there are more than 258 (`MultiWait.TimeoutIsTimeout`).
* A timer that is set again while it is queued keeps its first period
  (`Timers.TimerQueue.SetTimer`).
* On a closed socket `StartRead` and `StartWrite` of the epoll engine return false
  and leave the operation pending, so that later ones are refused as busy; with
  any other handle a false return has no effect
  (`LinuxEngine.LinuxAsyncEngine.StartRead`).
* `Remove` of the completion port engine does not look whose entry it removes: a
  stream that has been removed before takes along a newer one of the same socket
  (`WindowsEngine.RemoveTwiceTakesAnother`); a stream that has not been removed
  takes only itself (`WindowsEngine.WindowsAsyncEngine.Remove`).
* A write that the completion port completes with an error leaves its size
  behind, and the stream takes no other write
  (`WindowsEngine.FailedWriteBlocksTheStream`); a stream that is free refuses a
  write exactly if that has happened to it
  (`WindowsEngine.WindowsAsyncEngine.StartWrite`).
* The readiness loop casts waits to an int: a retry 2^31 milliseconds off or more
  would not be waited for as it should (`WriteRetry.RetryIsWaitedFor`). No retry
  is, at any reading of a clock that does not go back by weeks
  (`WriteRetry.WindowsSocketEventLoop.GetEffectiveTimeout`): `GetTickCount64`, the
  clock outside GCC, never does; `gettimeofday`, the clock with GCC
  (lib/source/TickCount.cpp:8-19), can be set back.
* A packet is dropped exactly if it is larger than the caller's buffer
  (`SocketQueue.OversizedPacketIsLost`, `SocketQueue.Socket.Read`).

## Model

| member | source | states |
|---|---|---|
| `Tls.AsyncTlsStream.Run` | lib/source/Sockets/Async/AsyncTlsStream.cpp:760-824 | For any calls in any order, and any behaviour of the session and of the lower stream: every state reached is valid (see the rows below for what that promises; in particular, unless a start was refused, whatever is pending has been tried with all the input fed so far; the session's errors that were reported are exactly its failures; and a lower read is pending exactly if one was started or adopted whose result has not come), results are only ever appended, the last call has had its effect, and a handshake that ended unfinished stays so, with no further result but the one close that may answer an early read, no further lower read and no further write. |
| `Tls.AsyncTlsStream.Drive` | lib/source/Sockets/Async/AsyncTlsStream.cpp:760-824 | From any state between calls: the stream never stalls (a started, unfinished, unterminated handshake has a lower read pending; after it a pending write has a lower write in flight, or waits for input with a lower read pending, or the lower read side is closed; a pending read or shutdown has a lower read pending or closed; a completed TLS shutdown whose lower part is not done has a lower write in flight), unless the lower stream refused a start, and it fails exactly if the lower stream did; the write BIO is empty afterwards unless a start was refused; a handshake, a read, a write or a shutdown that goes on has been tried in this very call, and waits for input (a write also for lower writes, once enough ciphertext waits or all is encrypted); afterwards all of them have been tried with all the input there has been; pending operations stay as they are or are answered. |
| `Tls.AsyncTlsStream.WritesAreExact` | lib/source/Sockets/Async/AsyncTlsStream.cpp:911-984 | Bytes completed below, then held by the lower writer, then left in the write BIO are all ciphertext ever produced, in order; what SSL_write has taken of the pending write is exactly the first PlainWriteOffset bytes of the flattened chain; each reported Write carries the size of its whole chain, all of whose plaintext was accepted as it stands, in a part of the accepted plaintext that it shares with no other write and that comes after those of the writes before it; all ciphertext there was after the record with its last byte had completed below; every write started is finished, failed or pending. |
| `Tls.AsyncTlsStream.ErrorsAreReal` | lib/source/Sockets/Async/AsyncTlsStream.cpp:1242-1262 | In every state that a run reaches: the errors reported as the session's are exactly its failures since construction, each once, in order, with their codes; and reading is closed only by the session, from below, or from the start. |
| `Tls.AsyncTlsStream.OneResultUntilCompleted` | lib/source/Sockets/Async/AsyncTlsStream.cpp:1242-1298 | Until the handshake completes exactly one result has been queued in the terminated state and none outside it, but for one more when a plain read accepted before StartHandshake has been answered by a close; `Do` says which calls do either. |
| `Tls.AsyncTlsStream.Do` | lib/source/Sockets/Async/AsyncTlsStream.cpp:250-621 | For any call, from any state between calls in which the handshake does not complete: a result is queued exactly if the call ends the handshake, and one more exactly if it is the close of a lower read that meets a plain read pending before StartHandshake. A lower read that was pending ends exactly with a result of it. |
| `Tls.AsyncTlsStream.LowerShutdownIsLast` | lib/source/Sockets/Async/AsyncTlsStream.cpp:1193-1216 | The lower send side is shut down at most once, only after SSL_shutdown returned 1, and after every ciphertext byte there was then, the close_notify alert included, had completed below. |
| `Tls.EarlyReadGetsTwoResults` | lib/source/Sockets/Async/AsyncTlsStream.cpp:549-554 | A concrete run in which a plain read accepted before StartHandshake leads to two results in the terminated state: why that case is excepted. |
| `Tls.AsyncTlsStream.DrivePlainWrite` | lib/source/Sockets/Async/AsyncTlsStream.cpp:911-984 | Unwritten ciphertext never exceeds the larger of what there was and the batch limit less one plus one record; unless more than one chunk of it was waiting, at most one lower write is added (so one at most for a batch that starts with nothing unwritten); a write that stays pending keeps its chain, has been encrypted until the session wanted input, the limit was reached or nothing was left, and waits for input or for a lower write; one that ends is answered once, by its whole size or by a TLS error, and by the error exactly if SSL_write has failed, with its code. |
| `Tls.AsyncTlsStream.EncryptViews` | lib/source/Sockets/Async/AsyncTlsStream.cpp:926-973 | The encrypting loop resumes at PlainWriteOffset inside whichever view that falls in, and ends only with all views encrypted or with a reason to stop. |
| `Tls.AsyncTlsStream.EncryptView` | lib/source/Sockets/Async/AsyncTlsStream.cpp:939-968 | Within one view the records are made of consecutive bytes, none skipped or repeated. |
| `Tls.AsyncTlsStream.EncryptNext` | lib/source/Sockets/Async/AsyncTlsStream.cpp:941-967 | At the batch limit ciphertext goes down, nothing is encrypted and the write stays pending; otherwise one record of the bytes that are next is made, or the write waits for input, or fails with one error exactly if SSL_write has. |
| `Tls.AsyncTlsStream.EncryptRecord` | lib/source/Sockets/Async/AsyncTlsStream.cpp:947-962 | SSL_write takes a non-empty prefix of what is next, the offset moves by exactly that much, and the write's mark moves to the end of the ciphertext; an outcome other than success leaves both. |
| `Tls.AsyncTlsStream.FlushPlainWrite` | lib/source/Sockets/Async/AsyncTlsStream.cpp:975-984 | The Write result is queued only when the lower writer is idle after draining, and then with the whole size. |
| `Tls.AsyncTlsStream.UnwrittenCiphertext` | lib/source/Sockets/Async/AsyncTlsStream.cpp:986-995 | The number of ciphertext bytes ever produced that have not completed below. |
| `Tls.AsyncTlsStream.DrainEncryptedOutput` | lib/source/Sockets/Async/AsyncTlsStream.cpp:1020-1075 | Moves the write BIO to the lower writer without changing the sum of the two; the lower writes added are as many as the chunks that left the BIO, refused or not, so no more than one for what fits a chunk. |
| `Tls.AsyncTlsStream.DriveHandshake` | lib/source/Sockets/Async/AsyncTlsStream.cpp:826-859 | Does nothing once over or ended; otherwise it goes on without a result after WANT_READ, completes with its one result exactly if SSL_do_handshake succeeded, is closed exactly if it returned a close, and fails exactly if it failed, with its error. |
| `Tls.AsyncTlsStream.DrivePlainRead` | lib/source/Sockets/Async/AsyncTlsStream.cpp:861-909 | A pending read is answered at most once, by adopted plaintext first, with no more than fits the caller's buffer; by a close exactly if SSL_read returned one, by an error exactly if it failed, with its code; it stays pending exactly on WANT_READ. |
| `Tls.AsyncTlsStream.DeliverAdoptedPlaintext` | lib/source/Sockets/Async/AsyncTlsStream.cpp:716-758 | Adopted plaintext is delivered in order and without loss across reads of any size, empty buffers skipped. |
| `Tls.AsyncTlsStream.TakeAdopted` | lib/source/Sockets/Async/AsyncTlsStream.cpp:732-752 | Moves the next bytes from what is left of the adopted plaintext to what has been delivered; the front buffer goes exactly when it is used up. |
| `Tls.AsyncTlsStream.ReadRecord` | lib/source/Sockets/Async/AsyncTlsStream.cpp:873-891 | What SSL_read returns is delivered as it came, after all adopted plaintext. |
| `Tls.AsyncTlsStream.DriveShutdown` | lib/source/Sockets/Async/AsyncTlsStream.cpp:997-1018 | TLS shutdown completes exactly when SSL_shutdown returns 1, both alerts exchanged; an error is reported by one result and leaves it pending; otherwise nothing is reported. |
| `Tls.AsyncTlsStream.StartLowerRead` | lib/source/Sockets/Async/AsyncTlsStream.cpp:1077-1117 | Starts a lower read exactly when something waits for input and none is pending or lower reading is over; otherwise it succeeds and does nothing. |
| `Tls.AsyncTlsStream.CompleteLowerWrite` | lib/source/Sockets/Async/AsyncTlsStream.cpp:1165-1191 | Accepts only the write in flight and only its whole size; then the next chunk is in flight, or, with TLS shutdown completed, the lower send side is shut down. |
| `Tls.AsyncTlsStream.CompleteLowerShutdown` | lib/source/Sockets/Async/AsyncTlsStream.cpp:1193-1216 | Acts once, only after TLS shutdown with nothing left to write, when completed ciphertext is all that was produced. |
| `Tls.AsyncTlsStream.QueueResult` | lib/source/Sockets/Async/AsyncTlsStream.cpp:1218-1240 | Appends one result and tells the sink unless it has been told already. |
| `Tls.AsyncTlsStream.QueueError` | lib/source/Sockets/Async/AsyncTlsStream.cpp:1242-1262 | One error while the handshake runs, none after its result, any number later; an error code of zero is replaced. |
| `Tls.AsyncTlsStream.QueueHandshakeReadClosed` | lib/source/Sockets/Async/AsyncTlsStream.cpp:1278-1289 | Ends the handshake unfinished, with a close as its one result. |
| `Tls.AsyncTlsStream.ResetPlainWrite` | lib/source/Sockets/Async/AsyncTlsStream.cpp:1336-1343 | No write is pending and none of its chain is kept. |
| `Tls.AsyncTlsStream.constructor` | lib/source/Sockets/Async/AsyncTlsStream.cpp:158-209 | A new stream is valid, has nothing pending above or below, and adopted plaintext is all still to be delivered. |
| `Tls.AsyncTlsStream.StartRead` | lib/source/Sockets/Async/AsyncTlsStream.cpp:250-270 | Refused without effect for a closing, read-closed, busy or terminated stream or an empty buffer; otherwise succeeds exactly if the lower stream refused nothing, with the read pending or answered. It is the only call that may make a read an early one, and does exactly if it is accepted before StartHandshake. |
| `Tls.AsyncTlsStream.StartWrite` | lib/source/Sockets/Async/AsyncTlsStream.cpp:272-292 | Refused without effect for a closing, busy or terminated stream or an empty chain; otherwise the chain is pending as given, or answered. |
| `Tls.AsyncTlsStream.ShutdownSend` | lib/source/Sockets/Async/AsyncTlsStream.cpp:294-314 | Refused once closing or terminated, nothing to do once complete, pending or complete otherwise. |
| `Tls.AsyncTlsStream.Close` | lib/source/Sockets/Async/AsyncTlsStream.cpp:316-335 | Drops everything pending, every queued result, the sink and the adopted plaintext, and no result is ever queued again. |
| `Tls.AsyncTlsStream.StartHandshake` | lib/source/Sockets/Async/AsyncTlsStream.cpp:337-359 | Refused once closing or terminated; on a lower stream closed for reading the handshake ends unfinished at once. |
| `Tls.AsyncTlsStream.AdoptPendingLowerRead` | lib/source/Sockets/Async/AsyncTlsStream.cpp:361-385 | Takes over a lower read started by someone else, unless there is one or reading is over; it counts as one under way. |
| `Tls.AsyncTlsStream.FeedEncryptedInput` | lib/source/Sockets/Async/AsyncTlsStream.cpp:387-465 | Input is handed to the session complete and in order; before StartHandshake nothing else happens. |
| `Tls.AsyncTlsStream.ProcessLowerResult` | lib/source/Sockets/Async/AsyncTlsStream.cpp:507-578 | Which lower result does what: input is fed and everything pending is tried with it, only the write in flight is completed, a close answers a write that waits for input or else a read, an error is reported once. Any of them but a Write ends the lower read that was pending. Only a close answers an early read, exactly if one is pending. |
| `Tls.AsyncTlsStream.PopPendingResult` | lib/source/Sockets/Async/AsyncTlsStream.cpp:580-600 | Results come out in order, each once; the last one out lets the next one be notified. |
| `Tls.AsyncTlsStream.SetResultSink` | lib/source/Sockets/Async/AsyncTlsStream.cpp:609-621 | A new sink is told at once exactly if results are waiting. |
| `Buffers.PartialAdvance` | lib/source/Sockets/Async/AsyncTlsStream.cpp:955-957 | Accepting the next bytes of a chain keeps what has been accepted an exact prefix of it. |
| `TlsHistory.WritesExactPush` | lib/source/Sockets/Async/AsyncTlsStream.cpp:975-984 | A write whose plaintext was all accepted, marked with the end of the ciphertext of its last record, may join the finished ones once that much has completed. |
| `TlsHistory.ConservedDrain` | lib/source/Sockets/Async/AsyncTlsStream.cpp:1033-1069 | Moving a chunk from the BIO to the writer keeps ciphertext in order and whole. |
| `TlsHistory.AdoptedTake` | lib/source/Sockets/Async/AsyncTlsStream.cpp:732-752 | Taking bytes from the front buffer takes them from the front of all adopted plaintext that is left. |
| `SslSession.Ssl.Write` | lib/source/Sockets/Async/AsyncTlsStream.cpp:947-962 | SSL_write as assumed: a non-empty prefix and at most one record, or nothing taken. |
| `SslSession.Ssl.TakeOutput` | lib/source/Sockets/Async/AsyncTlsStream.cpp:1033-1047 | BIO_read of no more than the BIO holds: the next bytes, in order. |
| `WriteQueue.AsyncWriteQueue.Push` | lib/source/Sockets/Async/AsyncWriteQueue.cpp:81-93 | The queue grows by the chain, an empty one changes nothing; a refused start leaves the chain queued and no write in flight. |
| `WriteQueue.AsyncWriteQueue.OnWriteCompleted` | lib/source/Sockets/Async/AsyncWriteQueue.cpp:104-123 | Accepted only for the chain in flight and its exact size; it leaves the front, its bytes move from queued to completed, and the next one is started. |
| `WriteQueue.AsyncWriteQueue.StartNext` | lib/source/Sockets/Async/AsyncWriteQueue.cpp:182-198 | At most one write in flight; what the stream was given is exactly the written chains and the one in flight, each once, in order. |
| `WriteQueue.AsyncWriteQueue.Clear` | lib/source/Sockets/Async/AsyncWriteQueue.cpp:125-132 | Empties the queue and forgets the write in flight. |
| `WriteQueue.AsyncWriteQueue.IsIdle` | lib/source/Sockets/Async/AsyncWriteQueue.cpp:144-147 | Idle exactly when nothing is queued: a write in flight is still queued. |
| `WriteQueue.AsyncWriteQueue.SizeIsZeroIffEmpty` | lib/source/Sockets/Async/AsyncWriteQueue.cpp:149-152 | The cached size is the size of what is queued, zero only for an empty queue. |
| `WriteQueue.HoldsPop` | lib/source/Sockets/Async/AsyncWriteQueue.cpp:104-123 | The front chain is the first bytes of all that is queued, and never empty. |
| `Buffers.BufferChain.Add` | lib/source/Sockets/Async/BufferChain.cpp:12-27 | Accepts exactly a non-empty range inside the buffer, and appends its bytes. |
| `Buffers.BufferChain.AddWhole` | lib/source/Sockets/Async/BufferChain.cpp:29-36 | Appends a whole non-empty buffer. |
| `Buffers.BufferChain.Clear` | lib/source/Sockets/Async/BufferChain.cpp:38-42 | Leaves an empty chain of size zero. |
| `Buffers.BufferChain.MoveFrom` | lib/include/Syncme/Sockets/Async/BufferChain.h:61-73 | The target holds what the source held, the source is empty with size zero, and self-assignment changes nothing. |
| `Buffers.BufferChain.Size` | lib/source/Sockets/Async/BufferChain.cpp:49-52 | The cached size is the number of bytes the views hold, and zero exactly for no views. |
| `Buffers.FlattenAt` | lib/include/Syncme/Sockets/Async/BufferChain.h:16-38 | Where the bytes of each view are in the flattened chain. |
| `EventSpec.SignalsAreConserved` | lib/source/Event/Event.cpp:161-281 | For a synchronization event over any run of set, reset, register, unregister, close and single wait: a wait list that is not empty means no signal, and the signals delivered, given to single waits that succeeded, lost to a reset or to a set on top of another, and left are together the initial signal and the sets. |
| `EventSpec.StepKeepsSound` | lib/source/Event/Event.cpp:161-281 | Each section keeps the exact balance: deliveries, successes of single waits on an open handle, signals lost by a reset or by a set on top of another, and the signal left are the initial signal and the sets; while a notification event is signalled every listed wait has been told; no node is listed twice and closed handles have no waits. |
| `EventSpec.NotificationsReachAll` | lib/source/Event/Event.cpp:161-184 | For a notification event over any run: while it is signalled, every wait in its list has been told, and a set tells each wait of its list, once. |
| `EventSpec.FirstComeFirstServed` | lib/source/Event/Event.cpp:41-184 | For a synchronization event over any run: a set goes to exactly one wait of the list, the one that was registered first. |
| `EventSpec.ClosedForGood` | lib/source/Event/Event.cpp:125-153 | Once closed, a handle stays so in every run: no wait of it is listed any more, and registering through it fails. |
| `EventSpec.SetTwiceMayWakeOne` | lib/source/Event/Event.cpp:174-178 | The shortest run of it: two sets in a row both go to the wait at the head, and the one behind gets none. |
| `EventSpec.SetsReachDistinctWaits` | lib/source/Event/Event.cpp:161-281 | For every legal run between two sets of a synchronization event with waits: the first set goes to the wait at the head, and the second to the same one exactly if in between nothing unregistered that wait or closed its handle (and its node was not registered anew); if something did, that wait gets nothing of the second. |
| `EventSpec.NodeMayComeBack` | lib/source/Event/Event.cpp:239-294 | Why a new registration of the node is excepted: unregistered and registered again, it gets the second set too. |
| `EventSpec.OwnedMembers` | lib/source/Event/Event.cpp:136-152 | Closing a handle splits the list into its waits and the others, all kept or failed, none lost. |
| `EventList.EventState.LinkWait` | lib/source/Event/Event.cpp:41-52 | The O(1) splice appends the node to the sequence that head, tail, previous and next links spell out. |
| `EventList.EventState.UnlinkWait` | lib/source/Event/Event.cpp:54-68 | The O(1) unlink removes exactly that node from the sequence, keeps the order of the rest, and clears its links. |
| `EventList.Event.OnCloseHandle` | lib/source/Event/Event.cpp:125-153 | Fails, in list order, exactly the waits registered through this handle, keeps the others in order, leaves no failed node with an owner, and does nothing the second time. |
| `EventList.Event.CloseNode` | lib/source/Event/Event.cpp:136-152 | One turn of the loop over a list that the loop itself unlinks from. |
| `EventList.Event.SetEvent` | lib/source/Event/Event.cpp:161-184 | A notification event completes every wait in order and stays signalled; a synchronization event completes the head and is not signalled, or keeps the signal when no one waits. |
| `EventList.Event.ResetEvent` | lib/source/Event/Event.cpp:186-192 | Drops the signal and nothing else. |
| `EventList.Event.FinishWait` | lib/source/Event/Event.cpp:200-237 | A single wait succeeds exactly on a signal or a closing handle, and takes the signal only from a synchronization event that is not closing. |
| `EventList.Event.RegisterWait` | lib/source/Event/Event.cpp:239-281 | On a closing handle the wait fails and is never linked; otherwise it is linked last, and completed at once by a signal that is there. |
| `EventList.Event.UnregisterWait` | lib/source/Event/Event.cpp:283-294 | Unlinks the node exactly if it is registered through this very handle. |
| `EventList.Event.Duplicate` | lib/source/Event/Event.cpp:110-118 | A new handle of the same event, unless this one is closing. |
| `EventList.Event.constructor` | lib/source/Event/Event.cpp:77-82 | A new event has no waits and the given signal. |
| `MultiWait.WaitsReturnRight` | lib/source/Event/Wait.cpp:110-190 | For every interleaving of one wait for several handles with set, reset, close, single waits, duplication and other registrations: when it returns, no event lists a node of it; it failed exactly if a close was reported to it; otherwise it timed out, having registered with every handle, or names the first wait that completed, and all of them completed if all were asked for. |
| `MultiWait.NothingIsMissed` | lib/source/Event/Wait.cpp:110-190 | Over every run, a wait that goes on waiting is registered with every handle; a wait for any has been told of nothing, and is linked to an event without a signal for each handle, none of which is closed; a wait for all lacks at least one for which that is so. |
| `MultiWait.SetWakesTheWait` | lib/source/Event/Wait.cpp:81-108 | In every state of a run in which a wait for any sleeps untold: a set of any of its events wakes it exactly if the event is a notification event or the wait is at the head of its list, and then it ends without a timeout, whatever the timeout. |
| `MultiWait.RunKeeps` | lib/source/Event/Wait.cpp:110-190 | Every step keeps the invariant, and after the return no completion ever reaches the context again. |
| `MultiWait.OthersKeep` | lib/source/Event/Wait.cpp:81-108 | Whatever others do to any handle keeps the bookkeeping of the wait. |
| `MultiWait.UnregisterSucceeds` | lib/source/Event/Wait.cpp:148-152 | Undoing a registration fails only for a handle that is closing. |
| `MultiWait.TimeoutIsTimeout` | lib/source/Event/Wait.cpp:154-161 | The code is TIMEOUT exactly if no close was reported and the wait timed out or the first wait to complete has number 258; with no more than 258 handles, exactly for a timeout. |
| `MultiWait.TimeoutMayTakeASignal` | lib/source/Event/Wait.cpp:131-154 | A run of a wait for any that returns TIMEOUT although it took a synchronization event's only signal, between the timeout and the undoing. |
| `MultiWait.TimeoutTakesSignals` | lib/source/Event/Wait.cpp:110-190 | For every run that returns TIMEOUT for a timeout: the signals it has used up are exactly those of its completed handles of synchronization events, so some was exactly if such a handle completed; in a wait for any the completions are exactly those called after the timeout and before the registration was undone. |
| `MultiWait.NothingIsGivenBack` | lib/source/Event/Wait.cpp:148-161 | From every state in which a timed-out wait is undoing its registrations: left alone it returns TIMEOUT, and no event gets a signal back. |
| `MultiWait.TimeoutOfAllTakesASignal` | lib/source/Event/Wait.cpp:110-161 | A wait for all of two synchronization events, one fired: it returns TIMEOUT, and that event's signal is gone. |
| `MultiWait.RunKeepsHistory` | lib/source/Event/Wait.cpp:81-161 | Every step keeps the account of completions that came late and of signals used up. |
| `MultiWait.FeedRecords` | lib/source/Event/Wait.cpp:81-108 | The context's bits, first index, failure and signal are exactly what its completions so far say. |
| `MultiWait.RegisterKeeps` | lib/source/Event/Wait.cpp:178-181 | The gap between being linked and being marked loses no registration. |
| `MultiWait.MarkKeeps` | lib/source/Event/Wait.cpp:66-70 | Marking after a close has been reported leaves a mark for a node that is gone, which is harmless. |
| `MultiWait.CleanKeeps` | lib/source/Event/Wait.cpp:148-152 | Each node still linked is in the snapshot until it is unlinked. |
| `MultiWait.CountIsAll` | lib/source/Event/Wait.cpp:97-103 | Counting the bits tells whether all are set. |
| `MultiWait.WaitContext.EventSignalled` | lib/source/Event/Wait.cpp:81-108 | The completion records a bit, the first index and a failure, and wakes the wait for any, for all, or for a failure. |
| `MultiWait.WaitContext.MarkRegistered` | lib/source/Event/Wait.cpp:66-70 | Sets the pending mark of one index. |
| `MultiWait.WaitContext.Completed` | lib/source/Event/Wait.cpp:72-79 | The signal, once as many events are asked about as there are. |
| `MultiWait.WaitContext.TakePending` | lib/source/Event/Wait.cpp:135-146 | The marked indices in ascending order, and no mark left. |
| `MultiWait.WaitContext.Result` | lib/source/Event/Wait.cpp:154-161 | Failure first, then timeout, then the first index. |
| `Timers.WorkerNeverOversleeps` | lib/source/Timer/TimerQueue.cpp:54-121 | Over every run of setters and cancellers at any point of the worker's loop, with any wall clock jumps: while the worker sleeps and has not been told, no timer is due before the published deadline, an endless sleep means no timers, and the sleep's steady end is no later than that of any delay begun during it. |
| `Timers.TimersGoOffAsAsked` | lib/source/Timer/TimerQueue.cpp:81-268 | Over every run: the queue holds exactly what was last asked for, for each event, and has neither been cancelled nor gone off, with its due time and period; no timer has gone off before it was due; and the worker's next round fires one exactly if one is due, and leaves all others. |
| `Timers.StepKeeps` | lib/source/Timer/TimerQueue.cpp:54-308 | Every section keeps that, and never queues two timers for one event. |
| `Timers.SetWhileResting` | lib/source/Timer/TimerQueue.cpp:54-79 | A timer set during a sleep interrupts it exactly if either clock calls for that, and then no other does in the same sleep. |
| `Timers.SleepEndsInTime` | lib/source/Timer/TimerQueue.cpp:61-69 | Over all runs: once the steady clock has passed a delay that began during the sleep, plus what the worker took from measuring its sleep to beginning it, the worker's step out of the sleep is legal, whatever the wall clock did. |
| `Timers.SleepIsBounded` | lib/source/Timer/TimerQueue.cpp:173-222 | A finite delay is never taken for an endless one, however long; the sleep never passes the first due time and is zero exactly when something is due. |
| `Timers.RoundsAreFair` | lib/source/Timer/TimerQueue.cpp:224-268 | At one reading of the clock, as many rounds as there are due timers fire each of them once, in the order of the queue; the others keep their order, periodic ones come behind them with a due time after the reading, and the next round fires nothing. |
| `Timers.RoundTakesTheFirst` | lib/source/Timer/TimerQueue.cpp:224-268 | A round fires exactly if something is due, and then the first that is; the due ones behind it stay due in their order, and nothing that is queued again is due. |
| `Timers.MinDue` | lib/source/Timer/TimerQueue.cpp:184-190 | The earliest due time. |
| `Timers.TimerQueue.WakeForEarlierTimer` | lib/source/Timer/TimerQueue.cpp:54-79 | Tells the worker exactly if it rests and either clock says the new timer comes first, and then at most once per sleep. |
| `Timers.TimerQueue.SetTimer` | lib/source/Timer/TimerQueue.cpp:81-121 | Refuses exactly a non-positive delay or a negative period; otherwise the event's timer is due at the present plus the delay, with the given period, or, if it was queued already, the period it had; all other timers stay as they were; the first one starts the worker. |
| `Timers.TimerQueue.CancelTimer` | lib/source/Timer/TimerQueue.cpp:123-140 | Removes exactly the event's timer, if any, and keeps the order of the rest. |
| `Timers.TimerQueue.GetSleepTime` | lib/source/Timer/TimerQueue.cpp:173-222 | Publishes the deadline that goes with the sleep it returns. |
| `Timers.TimerQueue.SignallOne` | lib/source/Timer/TimerQueue.cpp:224-268 | Takes the first due timer, and queues a periodic one again. |
| `PoolProtocol.NeverTooManyWorkers` | lib/source/ThreadPool/Pool.cpp:197-261 | However many submitters race, listed workers and reserved slots whose worker is not listed yet never exceed MaxThreads. |
| `PoolProtocol.WorkersHaveOneOwner` | lib/source/ThreadPool/Pool.cpp:169-261 | Unused is a subset of All without duplicates, and a worker is unused, busy, or held by one submitter, never two of these. |
| `PoolProtocol.TasksStartOnce` | lib/source/ThreadPool/Pool.cpp:322-486 | Every task is handed to a worker at most once; a call returns with a handle exactly if its task was started, and a task whose call returned without one never starts afterwards. |
| `PoolProtocol.TurnedAwayForAReason` | lib/source/ThreadPool/Pool.cpp:197-486 | In every step of a run: a call is turned away only by a stop, or for want of room when it may not wait; it waits only if it may, with no unused worker and no room; a full pool without an unused worker makes it wait or turns it away; it gets no slot only for a stop or want of room, and is then turned away exactly if it may not wait; it gets no worker only if none is unused. |
| `PoolProtocol.TryRunNeverWaits` | lib/source/ThreadPool/Pool.cpp:452-486 | Over every run: a call waits only if it was made to, and only outside FAIL mode. |
| `PoolProtocol.CallSucceeds` | lib/source/ThreadPool/Pool.cpp:322-486 | From every state of a run in which the pool is not stopping and has an unused worker or room for one, as far as the call still needs them, a call left alone, with threads that start and workers that take their calls, returns with a handle, its task started. |
| `PoolProtocol.StopIsForGood` | lib/source/ThreadPool/Pool.cpp:132-215 | Over every run: the pool is stopping exactly once it was told to, and from then on no call gets a slot, so that only the calls that have one create a worker. |
| `PoolProtocol.NoSweepForTryRun` | lib/source/ThreadPool/Pool.cpp:169-195 | Only a call that may wait sweeps, and only when a sweep is due: otherwise nothing depends on what has expired, and a pop leaves all workers listed. |
| `PoolProtocol.OldestTaskFirst` | lib/source/ThreadPool/Pool.cpp:292-320 | Over every run in FAIL mode: a worker that has finished, and gets the task lock, starts the queued task that was submitted before all others. |
| `PoolProtocol.HandlesAreClaims` | lib/source/ThreadPool/Pool.cpp:322-486 | A task gets its handle in one of three exclusive ways: a created worker, an invoked one, or direct hand-off from the front of the queue. |
| `PoolProtocol.StepKeeps` | lib/source/ThreadPool/Pool.cpp:322-581 | Every section of Run, of a worker's hand-back and of a sweep keeps those invariants. |
| `PoolProtocol.FinishKeeps` | lib/source/ThreadPool/Worker.cpp:315-345 | A worker that has finished is given the front task, and stays busy, or becomes unused. |
| `PoolProtocol.ReturnedForGood` | lib/source/ThreadPool/Pool.cpp:462-486 | What a call has returned is never changed by anyone. |
| `PoolProtocol.SlotsLeft` | lib/source/ThreadPool/Pool.cpp:197-215 | CreatingWorkers is the number of submitters with a slot. |
| `ThreadPool.Pool.LockedStopExpired` | lib/source/ThreadPool/Pool.cpp:583-640 | The restarting scan terminates, removes exactly the expired unused workers other than its caller from both lists, keeps the order of the rest, and asks for the timer again exactly if the caller is among the expired. |
| `ThreadPool.SweptAre` | lib/source/ThreadPool/Pool.cpp:583-640 | A sweep takes exactly the unused workers that have expired, but for its caller, from both lists, none while the pool is stopping, and keeps the order of the rest. |
| `ThreadPool.Pool.PopUnused` | lib/source/ThreadPool/Pool.cpp:169-195 | The front worker, with the count taken before, and the throttled sweep after. |
| `ThreadPool.Pool.ReserveWorkerSlot` | lib/source/ThreadPool/Pool.cpp:197-206 | A slot exactly if the pool is not stopping and there is room. |
| `ThreadPool.Pool.ReleaseWorkerSlot` | lib/source/ThreadPool/Pool.cpp:208-215 | Gives one slot back. |
| `ThreadPool.Pool.ListWorker` | lib/source/ThreadPool/Pool.cpp:232-235 | A new worker is listed before it is started. |
| `ThreadPool.Pool.UnlistWorker` | lib/source/ThreadPool/Pool.cpp:245-257 | A worker that could not be started leaves the list, and only it. |
| `ThreadPool.Pool.PushUnused` | lib/source/ThreadPool/Pool.cpp:217-224 | A worker that was not used goes behind the unused. |
| `ThreadPool.Pool.QueueTask` | lib/source/ThreadPool/Pool.cpp:292-301 | The task is queued last. |
| `ThreadPool.Pool.DequeueTask` | lib/source/ThreadPool/Pool.cpp:303-320 | Takes this task out exactly if it is still queued. |
| `ThreadPool.Pool.OnFree` | lib/source/ThreadPool/Pool.cpp:535-581 | In FAIL mode the front task, if the task lock is free; otherwise the worker goes in front of the unused. |
| `PoolProtocol.FreedIsNext` | lib/source/ThreadPool/Pool.cpp:169-195 | A worker that is given back is the next one taken, and taking it undoes the return. |
| `ThreadPool.Pool.SetStopping` | lib/source/ThreadPool/Pool.cpp:132-137 | Sets the flag and nothing else. |
| `ThreadPool.MinusAdd` | lib/source/ThreadPool/Pool.cpp:600-634 | Removing one more worker from what is left of a list is removing it from the list. |
| `ScatterGather.BuildIov` | lib/source/Sockets/Async/AsyncStreamLinux.cpp:801-830 | The vector is what is left of the chain cut after the given number of views: the next bytes of the flattened chain, and empty exactly when all of it has gone. |
| `ScatterGather.RestIs` | lib/source/Sockets/Async/AsyncStreamLinux.cpp:809-827 | The views left after skipping bytes flatten to the bytes left. |
| `ScatterGather.VectorIs` | lib/source/Sockets/Async/AsyncStreamLinux.cpp:809-827 | Any cut of them is the next bytes of the chain. |
| `LinuxEngine.LinuxAsyncStream.Progress` | lib/source/Sockets/Async/AsyncStreamLinux.cpp:750-787 | One partial send moves the offset by exactly what the socket took, so that the wire holds the first WriteOffset bytes of the chain. |
| `LinuxEngine.LinuxAsyncEngine.WriteAll` | lib/source/Sockets/Async/AsyncStreamLinux.cpp:748-798 | Whatever the sends take: the write stays pending exactly when the socket blocks, ends with the whole chain's size when all its bytes are on the wire, and with an error exactly when the socket returned that error. |
| `LinuxEngine.LinuxAsyncEngine.TryWrite` | lib/source/Sockets/Async/AsyncStreamLinux.cpp:739-799 | The same for a registered stream; nothing for one without a pending write or whose socket is closed. |
| `LinuxEngine.LinuxAsyncEngine.TryRead` | lib/source/Sockets/Async/AsyncStreamLinux.cpp:675-737 | A pending read stays pending exactly when the socket has nothing, or ends with one result: what was received, a close exactly at the end of input, or the error that the socket returned. |
| `LinuxEngine.LinuxAsyncEngine.CompleteWrite` | lib/source/Sockets/Async/AsyncStreamLinux.cpp:832-846 | Reports the size of the whole chain and forgets it. |
| `LinuxEngine.LinuxAsyncEngine.FoundIs` | lib/source/Sockets/Async/AsyncStreamLinux.cpp:848-858 | For a stream of the table, what the table has under its present handle is the stream itself, and nothing exactly if its socket is closed. |
| `LinuxEngine.LinuxAsyncEngine.UpdateInterest` | lib/source/Sockets/Async/AsyncStreamLinux.cpp:860-925 | After it every stream is covered: what is pending on a registered stream is armed; if the kernel refuses, and only then, everything pending ends with one error. |
| `LinuxEngine.LinuxAsyncEngine.FailPending` | lib/source/Sockets/Async/AsyncStreamLinux.cpp:889-923 | Everything pending on the stream ends with exactly one error. |
| `LinuxEngine.LinuxAsyncEngine.ProcessEpollEvent` | lib/source/Sockets/Async/AsyncStreamLinux.cpp:603-659 | Processing one event, which had disarmed its fd, leaves no pending operation of any live stream unarmed; what the event is for is tried, and stays pending only when the socket would block, and what it is not for is not; a hang-up that leaves nothing pending is reported as a close; an error is reported once and ends the stream; one of a removed stream or an unknown fd does nothing. |
| `LinuxEngine.LinuxAsyncEngine.ProcessReady` | lib/source/Sockets/Async/AsyncStreamLinux.cpp:648-658 | What the event is for is tried, and stays pending only when the socket would block; a hang-up with nothing pending is reported as a close. |
| `LinuxEngine.LinuxAsyncEngine.Run` | lib/source/Sockets/Async/AsyncStreamLinux.cpp:352-478 | For any calls, deliveries of events and processing of one event, in any order, so that starts and removals come between two events of a batch: every pending operation of every live stream is armed or has an event to come, and each operation stays as it was started until a result answers it. Unless a stream has failed, its Write results are exactly the writes started, each once and in order, but for the pending one, and the bytes that went out with what is still to go are exactly theirs. It fails only by an error of its socket, of its arming or of an event. An ended stream stays ended, and the last call has had its effect. |
| `LinuxEngine.LinuxAsyncEngine.Deliver` | lib/source/Sockets/Async/AsyncStreamLinux.cpp:352-409 | Delivering a batch of one-shot events, which disarms their fds, leaves no pending operation without an event or arming. |
| `QueuedWrites.QueuedStream.Run` | lib/source/Sockets/Async/AsyncWriteQueue.cpp:81-123 | A write queue whose lower stream is an epoll stream, with its owner handling results in the engine's order at any time: for any pushes, events, reads, removals, and calls of the owners of other streams, the pending write of the stream is the head of the queue, and there is one Write result to come for it, pending or not handled yet, unless the stream has failed. |
| `QueuedWrites.QueuedStream.QueuedWritesAreExact` | lib/source/Sockets/Async/AsyncWriteQueue.cpp:104-123 | Unless the stream has failed, OnWriteCompleted has accepted every Write result, and the wire has exactly the bytes of the completed chains, in order, and the part of the chain in flight that has gone out. |
| `QueuedWrites.QueuedStream.HandleNext` | lib/source/Sockets/Async/AsyncWriteQueue.cpp:104-123 | Handling the next result: a Write result of the stream has the size of the chain in flight, completes it, and the next chain is started; any other leaves the queue alone. Results that the queue does not accept are counted. |
| `QueuedWrites.QueuedStream.Push` | lib/source/Sockets/Async/AsyncWriteQueue.cpp:81-93 | The chain is queued, and started on the engine if nothing is in flight and the engine takes it. |
| `QueuedWrites.AgreeMoved` | lib/source/Sockets/Async/AsyncStreamLinux.cpp:675-799 | Whatever the engine does without a start keeps the queue and the stream in agreement. |
| `LinuxEngine.LinuxAsyncEngine.StartRead` | lib/source/Sockets/Async/AsyncStreamLinux.cpp:422-448 | Refused without effect for a removed, busy or ended stream or an empty buffer. Otherwise, on a closed socket, it returns false and yet leaves the read pending, so that later ones are refused as busy; on any other it succeeds, and the read has been tried, and is pending and armed, or answered. So a false return has no effect whenever the handle is not -1. |
| `LinuxEngine.LinuxAsyncEngine.StartWrite` | lib/source/Sockets/Async/AsyncStreamLinux.cpp:450-478 | The same for writes: on a closed socket false with the chain left pending, on any other the chain pending as given, or answered. |
| `LinuxEngine.LinuxAsyncEngine.Add` | lib/source/Sockets/Async/AsyncStreamLinux.cpp:240-279 | Registers a stream exactly if the fd is one, has none, and the kernel takes it, and leaves all others registered. |
| `LinuxEngine.LinuxAsyncEngine.Remove` | lib/source/Sockets/Async/AsyncStreamLinux.cpp:310-344 | Removes exactly this stream, here and from the kernel, which refuses everything from then on. |
| `LinuxEngine.LinuxAsyncEngine.Close` | lib/source/Sockets/Async/AsyncStreamLinux.cpp:957-961 | A closed socket is no longer the key of its stream, which is then not covered. |
| `LinuxEngine.LinuxAsyncEngine.QueueResult` | lib/source/Sockets/Async/AsyncStreamLinux.cpp:579-601 | One result, none for a stream being removed. |
| `WindowsEngine.WindowsAsyncEngine.PendingIsOwned` | lib/source/Sockets/Async/AsyncStreamWindows.cpp:638-685 | A stream with an operation in the system is in the table or retired, and PendingCount is the number of its operations. |
| `WindowsEngine.WindowsAsyncEngine.CleanupRetired` | lib/source/Sockets/Async/AsyncStreamWindows.cpp:984-993 | The erasing scan frees exactly the retired streams with nothing outstanding, and keeps the order of the rest. |
| `WindowsEngine.WindowsAsyncEngine.Retire` | lib/source/Sockets/Async/AsyncStreamWindows.cpp:927-942 | A removed stream moves from the table to the retired ones. |
| `WindowsEngine.WindowsAsyncEngine.Remove` | lib/source/Sockets/Async/AsyncStreamWindows.cpp:384-403 | Retires exactly what is registered with the stream's socket: this stream if it was not removed before, otherwise the one that has taken its place; afterwards every retired stream has something outstanding. |
| `WindowsEngine.RemoveTwiceTakesAnother` | lib/source/Sockets/Async/AsyncStreamWindows.cpp:384-403 | The run of it: added, removed, another stream added for the same socket, and the first removed again; the other one is removing, and the table empty. |
| `WindowsEngine.WindowsAsyncEngine.RebindSocket` | lib/source/Sockets/Async/AsyncStreamWindows.cpp:303-382 | Moves a live stream to another socket of the same handle exactly if that one is free, and its entry with it; otherwise nothing changes. |
| `WindowsEngine.WindowsAsyncEngine.Add` | lib/source/Sockets/Async/AsyncStreamWindows.cpp:228-301 | Registers a stream exactly if the socket is usable and has none, and leaves all others registered. |
| `WindowsEngine.WindowsAsyncEngine.ProcessReadCompletion` | lib/source/Sockets/Async/AsyncStreamWindows.cpp:638-685 | A completed read always finds its stream and clears one pending operation; it is reported once, as the bytes, the close or the error that the system returned, unless it was aborted or its stream is being removed, which is then freed if this was its last. |
| `WindowsEngine.WindowsAsyncEngine.ProcessWriteCompletion` | lib/source/Sockets/Async/AsyncStreamWindows.cpp:638-685 | The same for writes; a partial one goes on from where it stopped, and one that failed keeps its chain and size, which any other end frees. |
| `WindowsEngine.WindowsAsyncEngine.Find` | lib/source/Sockets/Async/AsyncStreamWindows.cpp:899-925 | Found exactly if the socket has a stream or this one is retired. |
| `WindowsEngine.WindowsAsyncEngine.CompleteWrite` | lib/source/Sockets/Async/AsyncStreamWindows.cpp:719-755 | The write ends with the whole chain's size exactly when the last of its bytes have been sent, with a reset connection for none, and otherwise the rest is posted, or it ends with the system's refusal. |
| `WindowsEngine.WindowsAsyncEngine.CompleteRead` | lib/source/Sockets/Async/AsyncStreamWindows.cpp:687-717 | What was read, or a close for nothing. |
| `WindowsEngine.WindowsAsyncEngine.PostRead` | lib/source/Sockets/Async/AsyncStreamWindows.cpp:757-810 | The operation is counted while the system has it, and a refusal is one error with the system's code. |
| `WindowsEngine.WindowsAsyncEngine.PostWrite` | lib/source/Sockets/Async/AsyncStreamWindows.cpp:812-866 | The next vector is posted from the offset reached; the write ends with one error exactly if the system refuses it, with its code. |
| `WindowsEngine.WindowsAsyncEngine.StartRead` | lib/source/Sockets/Async/AsyncStreamWindows.cpp:497-517 | Refused exactly for a removed, busy or ended stream or an empty buffer. |
| `WindowsEngine.WindowsAsyncEngine.StartWrite` | lib/source/Sockets/Async/AsyncStreamWindows.cpp:519-541 | Refused exactly for a removed or busy stream, one that has had a write completed with an error, or an empty chain. |
| `WindowsEngine.FailedWriteBlocksTheStream` | lib/source/Sockets/Async/AsyncStreamWindows.cpp:519-541 | The run of it: a write is taken and completed with an error, and the next one is refused although nothing is pending; without the error it is accepted. |
| `WindowsEngine.WindowsAsyncEngine.ShutdownAll` | lib/source/Sockets/Async/AsyncStreamWindows.cpp:944-960 | Every stream is retired, completions are processed until the system has no operation of any stream, and then nothing is left, no result either; it is over exactly then, and always if the system reports the end of all that it has. |
| `WindowsEngine.WindowsAsyncEngine.Run` | lib/source/Sockets/Async/AsyncStreamWindows.cpp:228-541 | For any calls and completions in any order: no operation of the system outlives its stream, and each operation stays as it was started until a result answers it, it is cancelled, or its stream is removed; bytes sent are only added to; a live stream without a write has one left over exactly if a write has failed, and then for good; the last call has had its effect. |
| `WriteRetry.WindowsSocketEventLoop.GetEffectiveTimeout` | lib/source/Sockets/SocketEventLoopWindows.cpp:474-503 | The scan that the counter guards returns the shortest of the timeout and of the waits of all scheduled retries, over all entries, at any reading of a clock that has not gone back by 2^31 ms less the longest delay since a retry was scheduled. |
| `WriteRetry.WaitFits` | lib/source/Sockets/SocketEventLoopWindows.cpp:494-496 | A wait is taken for what it is exactly if it is less than 2^31 ms; at 2^31 it becomes negative, which means no end. |
| `WriteRetry.RetryIsWaitedFor` | lib/source/Sockets/SocketEventLoopWindows.cpp:483-496 | A scheduled retry is waited for as long as it should be exactly if it is less than 2^31 ms off. |
| `WriteRetry.WindowsSocketEventLoop.RetryOf` | lib/source/Sockets/SocketEventLoopWindows.cpp:483-492 | The conditions of the scan hold exactly for scheduled retries. |
| `WriteRetry.WindowsSocketEventLoop.PostDueWrites` | lib/source/Sockets/SocketEventLoopWindows.cpp:448-472 | Exactly the due retries are unscheduled, each with its write event given to the port once; all others keep theirs; it returns whether the port took any, and then the counter is lower. |
| `WriteRetry.WindowsSocketEventLoop.PostIfDue` | lib/source/Sockets/SocketEventLoopWindows.cpp:459-468 | A due retry is unscheduled and its write event given to the port, once; one that is not due is left alone. |
| `WriteRetry.WindowsSocketEventLoop.PostAllDue` | lib/source/Sockets/SocketEventLoopWindows.cpp:180-183 | Posting until a scan posts nothing ends, after no more scans than retries were scheduled, and one; no retry was due at the last scan, or still is scheduled before it. |
| `WriteRetry.WindowsSocketEventLoop.UpdateWriteState` | lib/source/Sockets/SocketEventLoopWindows.cpp:400-436 | An owner that was told and made no progress has a retry scheduled, after its delay unless there is one; progress, new bytes, an empty queue or no interest cancel it; the sizes to compare with are kept. |
| `WriteRetry.WindowsSocketEventLoop.ScheduleWriteRetry` | lib/source/Sockets/SocketEventLoopWindows.cpp:384-398 | The delay doubles from 1 up to 50 ms; a retry already scheduled is left alone. |
| `WriteRetry.WindowsSocketEventLoop.ResetWriteRetry` | lib/source/Sockets/SocketEventLoopWindows.cpp:375-382 | Unschedules and resets the delay, counted once. |
| `WriteRetry.WindowsSocketEventLoop.Update` | lib/source/Sockets/SocketEventLoopWindows.cpp:152-163 | After it a retry is scheduled exactly for an owner that still wants to write, was told, and neither sent nor added anything since, at the time it was, or after the delay; what is wanted is posted, and it fails exactly if the system refuses that. No other entry changes. |
| `WriteRetry.WindowsSocketEventLoop.Add` | lib/source/Sockets/SocketEventLoopWindows.cpp:122-150 | A new entry has no retry scheduled, and all others stay; it fails exactly for a socket that has an entry, that the port does not take, or whose operations the system refuses. |
| `WriteRetry.WindowsSocketEventLoop.Remove` | lib/source/Sockets/SocketEventLoopWindows.cpp:165-174 | A removed entry takes its retry with it. |
| `WriteRetry.WindowsSocketEventLoop.Retire` | lib/source/Sockets/SocketEventLoopWindows.cpp:317-330 | No retired state has a retry scheduled. |
| `WriteRetry.WindowsSocketEventLoop.CompleteWrite` | lib/source/Sockets/SocketEventLoopWindows.cpp:217-229 | A completed write event tells the owner, and counts its operation. |
| `WriteRetry.IocpState.Arm` | lib/source/Sockets/SocketEventLoopWindows.cpp:505-523 | What is wanted is posted or, for writes, already told, and nothing else is; it fails exactly if the entry is being removed or the system refuses; a scheduled retry is not posted early. |
| `WriteRetry.IocpState.PostWrite` | lib/source/Sockets/SocketEventLoopWindows.cpp:565-586 | Posts exactly if nothing is posted or told yet. |
| `WriteRetry.WindowsSocketEventLoop.Run` | lib/source/Sockets/SocketEventLoopWindows.cpp:122-229 | For any calls, completions and turns of the loop, at any readings of the clock: the counter counts exactly the scheduled retries, none due later than the longest delay after the latest reading at which one was scheduled, a removed entry never comes back, and the last call has had its effect. |
| `SocketQueue.Socket.WriteIO` | lib/source/Sockets/SocketIO.cpp:112-197 | For any partial sends and any appends by others in between: the wire and the queue together change only by what others append, at the end; it stops only with nothing queued, at the deadline, or when the transport would wait or fails, and sends nothing once the deadline is over. |
| `SocketQueue.Socket.SendPacket` | lib/source/Sockets/SocketIO.cpp:145-189 | What is left of a packet goes back in front. |
| `SocketQueue.Socket.ReadIO` | lib/source/Sockets/SocketIO.cpp:199-274 | Every byte read is queued, in order; the queue never refuses it and never passes its limit, nor a read its buffer; reading stops only at the limit, at the deadline, or when the transport has nothing or fails, and nothing is read once the deadline is over. |
| `SocketQueue.Socket.Write` | lib/source/Sockets/SocketIO.cpp:360-388 | With appends by others before and after the direct send: the first n bytes go out, over an empty queue, or all are queued behind what others appended, or nothing of them is anywhere; over a queue that stays empty the transport is tried first, and queueing follows only if it would wait; it fails exactly if the transport does or the queue is at its limit. |
| `SocketQueue.Socket.Read` | lib/source/Sockets/SocketIO.cpp:322-343 | One packet, or none and nothing lost; the first packet is dropped, and -1 returned, exactly if it is larger than the buffer. |
| `SocketQueue.OversizedPacketIsLost` | lib/source/Sockets/SocketIO.cpp:322-343 | The run of it: the call with too small a buffer fails, and one with a large enough buffer finds nothing. |
| `SocketQueue.Queue.Append` | lib/source/Sockets/Queue.cpp:197-255 | Refused exactly beyond the limit; otherwise the bytes are added at the end, in the last packet exactly if auto-join has room there. |
| `SocketQueue.Queue.AppendBuffer` | lib/source/Sockets/Queue.cpp:135-158 | One packet, refused exactly beyond the limit. |
| `SocketQueue.Queue.AppendQueue` | lib/source/Sockets/Queue.cpp:103-133 | Moves all packets of another queue, in order, whatever the limit. |
| `SocketQueue.Queue.Insert` | lib/source/Sockets/Queue.cpp:160-195 | The same in front. |
| `SocketQueue.Queue.Join` | lib/source/Sockets/Queue.cpp:278-308 | All bytes as one packet, that one packet if there is only one, or the first packet when there are too many bytes; nothing lost or reordered. |
| `SocketQueue.Queue.PushFront` | lib/source/Sockets/Queue.cpp:310-322 | In front, without a limit. |
| `SocketQueue.Queue.PopFirst` | lib/source/Sockets/Queue.cpp:324-345 | The first packet, and Total still the sum of the rest. |
| `SocketQueue.Queue.GetAvailableLimit` | lib/source/Sockets/Queue.cpp:38-53 | What the limit leaves, never negative, or no limit. |
| `SocketQueue.JoinLast` | lib/source/Sockets/Queue.cpp:214-229 | Growing the last packet appends to what the queue holds. |
| `SocketQueue.KeptSend` | lib/source/Sockets/SocketIO.cpp:145-165 | Splitting a packet between the wire and the queue's front keeps the stream whole. |

## Left out

Deliberately weaker than the source:

- Tls.AsyncTlsStream.constructor: takes the plaintext that the session had already decrypted as a parameter, where the source reads it out of the session in a loop (`AdoptPlaintextPending`), and cannot fail.
- Tls.AsyncTlsStream.FeedEncryptedInput: one write to the read BIO, where the source loops over what each `BIO_write` took; a memory BIO takes everything.
- Tls.AsyncTlsStream.SetResultSink: the sink is a flag that it was told, not a call.
- MultiWait.WaitsReturnRight: the sections of `SetEvent` and `OnCloseHandle` are one step each, completions included; cookies are left out.
- Timers.WorkerNeverOversleeps: without `Stop`, the stop event, and `CancelWaitableTimer` destroying an empty queue; wall time is below 2^63 ms, delays and periods are those of a 64-bit long.
- PoolProtocol.TasksStartOnce: overflow mode and limits are fixed, and creating a worker fails by returning, not by an exception.
- ThreadPool.Pool.LockedStopExpired: which workers are expired does not change during the sweep.
- ThreadPool.Pool.OnFree: the expiry timer of a surplus worker is not armed here; which workers are expired is a parameter of the sweep.
- LinuxEngine.LinuxAsyncEngine.Run: `Wait` is the delivery of a batch and the processing of its events, one call each, without its timeout and without the stop event's own results.
- WindowsEngine.WindowsAsyncEngine.ShutdownAll: `DrainRetired` gives up with its list of completions, where the source waits for more of them.
- WindowsEngine.WindowsAsyncEngine.PostWrite: view lengths are not cut to 32 bits.
- WriteRetry.WindowsSocketEventLoop.PostAllDue: the posting rounds of `Wait`; what `Wait` reports and the retired states' memory are left out (`WindowsEngine` has the same lifetime rule).
- SocketQueue.Socket.ReadIO: ends with its script, where the source reads as long as there is something to read and room for it.
- SocketQueue.Socket.Write: sizes are not cut to an int.
- SocketQueue.Queue.AppendQueue: only for another queue; a queue appended to itself never ends in the source.
- SocketQueue.Queue.Append: the limit is checked and the bytes are added in one step, where the source checks before it takes the lock.

Not modelled:

- Buffers are byte strings: sharing of buffer objects, resizing in place and the free lists of `Queue` (`PopFree`, `PushFree`, `GetBuffer`) and of the TLS stream are not captured. `Join` and the moving of views keep their loops, on values.
- Timers and queued tasks are values in their lists, not objects shared with them.
- Data races inside a section, memory ordering, condition variables and the wake-up order of waiters: a section is one step, and waking is a step that may happen when its condition holds. Fairness and liveness of events are not promised by the code.
- A null session, a null lower stream, a null engine: those calls return false.
- The handshake of a worker with its submitter (the idle, busy, invoke and stop events of `Worker`), and thread creation: a worker is created or not, and takes a call or not.
- `Pool::Stop`, which walks the list of workers without its lock, and `DoCompact`.
- `AsyncWriteQueue::GetStallTimeout`, `Detach`, and the forms of `Push` that only wrap one another.
- `RebindSocket` of the epoll engine, which changes no handle; `Wake` and `Stop` of both engines.
- Packets set aside by `Unread`, `ProcessIOEvents`, and the signal callbacks of queues.
- The wait for socket events (`IO`) in front of `Socket::Read`: what it returned is a parameter.
- Statistics, peaks, logging, error texts, diagnostics, thread names.
