/** The completion-port readiness loop: a write event is reported once, and
    reported again after a delay when the owner made no progress with it. A
    counter of the delays that run spares the scans when there are none. */
module WriteRetry {
  import opened Wrappers

  const WRITE_RETRY_MIN_MS: nat := 1
  const WRITE_RETRY_MAX_MS: nat := 50
  const INT_LIMIT: int := 0x8000_0000

  // The conversion of an unsigned 64-bit value to a 32-bit int.
  function ToInt(x: nat): int {
    (x + INT_LIMIT) % (2 * INT_LIMIT) - INT_LIMIT
  }

  // A timeout, where a negative one never ends, cut short by a wait.
  function Shorter(timeout: int, wait: int): int {
    if timeout < 0 || wait < timeout then wait else timeout
  }

  class IocpState {
    const Skt: nat
    var WantsRead: bool         // EVENT_READ
    var WantsWrite: bool        // EVENT_WRITE
    var ReadPending: bool
    var WritePending: bool
    var WriteNotified: bool
    var Removing: bool
    var PendingCount: nat
    var LastWriteSize: nat
    var WriteEventSize: nat
    var NextWriteRetry: nat     // when, or 0 if no retry is scheduled
    var WriteRetryDelay: nat
    ghost var ReadPosts: nat    // how often the system was given a read
    ghost var WritePosts: nat   // how often the port was given a write event
    ghost var Refusals: nat     // how often it did not take it

    // A retry is scheduled only for an owner that was told it can write, and
    // still wants to.
    ghost predicate Ok()
      reads this
    {
      && WRITE_RETRY_MIN_MS <= WriteRetryDelay <= WRITE_RETRY_MAX_MS
      && PendingCount == Count(ReadPending) + Count(WritePending)
      && (NextWriteRetry != 0 ==> WriteNotified && !WritePending && WantsWrite && !Removing)
    }

    constructor (socket: nat, wantsRead: bool, wantsWrite: bool)
      ensures Ok() && Skt == socket && NextWriteRetry == 0 && !Removing && !WriteNotified
      ensures WantsRead == wantsRead && WantsWrite == wantsWrite && !ReadPending && !WritePending
      ensures LastWriteSize == WriteEventSize == 0 && WriteRetryDelay == WRITE_RETRY_MIN_MS && Refusals == 0
    {
      Skt, WantsRead, WantsWrite := socket, wantsRead, wantsWrite;
      ReadPending, WritePending, WriteNotified, Removing := false, false, false, false;
      PendingCount, LastWriteSize, WriteEventSize := 0, 0, 0;
      NextWriteRetry, WriteRetryDelay := 0, WRITE_RETRY_MIN_MS;
      ReadPosts, WritePosts, Refusals := 0, 0, 0;
    }

    predicate IsWriteRetryDue(now: nat)
      reads this
    {
      WantsWrite && !Removing && !WritePending && WriteNotified && NextWriteRetry != 0 && NextWriteRetry <= now
    }

    ghost function Seen(): Sight
      reads this`WritePosts, this`NextWriteRetry, this`WritePending
    {
      Sight(WritePosts, NextWriteRetry, WritePending)
    }

    // A timeout, cut short by this entry's retry.
    function Shortened(timeout: int, now: nat): int
      reads this
    {
      if !WantsWrite || Removing || WritePending || !WriteNotified || NextWriteRetry == 0 then timeout
      else Shorter(timeout, if NextWriteRetry <= now then 0 else ToInt(NextWriteRetry - now))
    }

    method PostRead() returns (ok: bool)
      requires Ok()
      modifies this`ReadPending, this`PendingCount, this`ReadPosts, this`Refusals
      ensures Ok() && ok == ReadPending && (old(ReadPending) ==> ok)
      ensures ReadPosts == old(ReadPosts) + Count(!old(ReadPending)) && Refusals == old(Refusals) + Count(!ok)
    {
      if ReadPending {
        return true;
      }
      ReadPosts := ReadPosts + 1;
      var refused: bool := *;
      if refused {
        Refusals := Refusals + 1;
        return false;
      }
      ReadPending := true;
      PendingCount := PendingCount + 1;
      return true;
    }

    method PostWrite() returns (ok: bool)
      requires Ok()
      modifies this`WritePending, this`PendingCount, this`WritePosts, this`Refusals
      ensures Ok() && Refusals == old(Refusals) + Count(!ok)
      ensures old(WritePending || WriteNotified) ==>
                ok && WritePending == old(WritePending) && WritePosts == old(WritePosts)
      ensures !old(WritePending || WriteNotified) ==> ok == WritePending && WritePosts == old(WritePosts) + 1
    {
      if WritePending || WriteNotified {
        return true;
      }
      WritePosts := WritePosts + 1;
      var refused: bool := *;
      if refused {
        Refusals := Refusals + 1;
        return false;
      }
      WritePending := true;
      PendingCount := PendingCount + 1;
      return true;
    }

    // Posts what is wanted and not yet posted, and nothing else; it fails
    // exactly if the system takes one of them not.
    method Arm() returns (ok: bool)
      requires Ok()
      modifies this`ReadPending, this`WritePending, this`PendingCount
      modifies this`ReadPosts, this`WritePosts, this`Refusals
      ensures Ok()
      ensures ok <==> !Removing && Refusals == old(Refusals)
      ensures ok ==> (WantsRead ==> ReadPending) && (WantsWrite ==> WritePending || WriteNotified)
      ensures ReadPosts == old(ReadPosts) + Count(!Removing && WantsRead && !old(ReadPending))
      ensures old(WritePosts) <= WritePosts
              <= old(WritePosts) + Count(!Removing && WantsWrite && !WriteNotified && !old(WritePending))
      ensures ReadPosts == old(ReadPosts) ==> ReadPending == old(ReadPending)
      ensures WritePosts == old(WritePosts) ==> WritePending == old(WritePending)
      ensures old(Refusals) <= Refusals
      ensures NextWriteRetry != 0 ==> !WritePending
    {
      if Removing {
        return false;
      }
      if WantsRead && !ReadPending {
        ok := PostRead();
        if !ok {
          return false;
        }
      }
      if WantsWrite && !WritePending && !WriteNotified {
        ok := PostWrite();
        if !ok {
          return false;
        }
      }
      return true;
    }
  }

  // ----- The loop

  class WindowsSocketEventLoop {
    var Entries: map<nat, IocpState>
    var WriteRetryCount: nat
    ghost var Known: set<IocpState>    // every state ever added
    ghost var Scheduled: set<nat>      // the sockets with a retry scheduled
    ghost var Seen: nat                // the latest reading a retry was scheduled at
    ghost var Unusable: nat            // how many sockets the port did not take

    ghost predicate Tabled()
      reads this`Entries, this`Known, Known`Removing
    {
      forall k :: k in Entries ==> Entries[k] in Known && Entries[k].Skt == k && !Entries[k].Removing
    }

    // The counter counts the scheduled retries, all of them in the table.
    ghost predicate Counted()
      reads this`Entries, this`Scheduled, this`WriteRetryCount, this`Seen, this`Known, Known`NextWriteRetry, Known`Removing
    {
      && Tabled() && Timely()
      && WriteRetryCount == |Scheduled|
      && (forall k :: k in Scheduled <==> k in Entries && Entries[k].NextWriteRetry != 0)
    }

    // No retry is further off than the longest delay.
    ghost predicate Timely()
      requires Tabled()
      reads this`Entries, this`Seen, this`Known, Known`NextWriteRetry, Known`Removing
    {
      forall k :: k in Entries ==> Entries[k].NextWriteRetry <= Seen + WRITE_RETRY_MAX_MS
    }

    ghost predicate Valid()
      reads this, Known
    {
      Counted() && forall s :: s in Known ==> s.Ok()
    }

    // No entry comes back.
    twostate predicate NoneBack()
      reads this`Known, Known`Removing
    {
      forall s :: s in Known && s in old(Known) && old(s.Removing) ==> s.Removing
    }

    twostate predicate Later()
      reads this`Known, this`Seen, Known`Removing
    {
      old(Known) <= Known && old(Seen) <= Seen && NoneBack()
    }

    constructor ()
      ensures Valid() && Entries == map[] && WriteRetryCount == 0 && Known == {}
    {
      Entries, WriteRetryCount, Known, Scheduled, Seen, Unusable := map[], 0, {}, {}, 0, 0;
    }

    method ResetWriteRetry(state: IocpState)
      requires Counted() && state.Skt in Entries && Entries[state.Skt] == state
      modifies this`WriteRetryCount, this`Scheduled, state`NextWriteRetry, state`WriteRetryDelay
      ensures Counted() && state.NextWriteRetry == 0 && state.WriteRetryDelay == WRITE_RETRY_MIN_MS
      ensures Scheduled == old(Scheduled) - {state.Skt}
    {
      if state.NextWriteRetry != 0 && WriteRetryCount != 0 {
        WriteRetryCount := WriteRetryCount - 1;
      }
      Scheduled := Scheduled - {state.Skt};
      state.NextWriteRetry := 0;
      state.WriteRetryDelay := WRITE_RETRY_MIN_MS;
    }

    // The delay doubles with every retry in a row, up to its limit.
    method ScheduleWriteRetry(state: IocpState, now: nat)
      requires Counted() && state.Skt in Entries && Entries[state.Skt] == state
      requires WRITE_RETRY_MIN_MS <= state.WriteRetryDelay <= WRITE_RETRY_MAX_MS
      modifies this`WriteRetryCount, this`Scheduled, this`Seen, state`NextWriteRetry, state`WriteRetryDelay
      ensures Counted() && Scheduled == old(Scheduled) + {state.Skt} && Seen >= old(Seen)
      ensures WRITE_RETRY_MIN_MS <= state.WriteRetryDelay <= WRITE_RETRY_MAX_MS
      ensures old(state.NextWriteRetry) != 0 ==>
                state.NextWriteRetry == old(state.NextWriteRetry) && state.WriteRetryDelay == old(state.WriteRetryDelay)
      ensures old(state.NextWriteRetry) == 0 ==>
                && state.NextWriteRetry == now + old(state.WriteRetryDelay)
                && state.WriteRetryDelay == if 2 * old(state.WriteRetryDelay) < WRITE_RETRY_MAX_MS
                                            then 2 * old(state.WriteRetryDelay) else WRITE_RETRY_MAX_MS
    {
      hide Counted, Tabled, Timely;
      if state.NextWriteRetry != 0 {
        IsScheduled(state);
        return;
      }
      CountRetry(state, now);
      if state.WriteRetryDelay < WRITE_RETRY_MAX_MS {
        state.WriteRetryDelay := state.WriteRetryDelay * 2;
        if state.WriteRetryDelay > WRITE_RETRY_MAX_MS {
          state.WriteRetryDelay := WRITE_RETRY_MAX_MS;
        }
      }
    }

    lemma IsScheduled(state: IocpState)
      requires Counted() && state.Skt in Entries && Entries[state.Skt] == state && state.NextWriteRetry != 0
      ensures Scheduled == Scheduled + {state.Skt}
    {
    }

    method CountRetry(state: IocpState, now: nat)
      requires Counted() && state.Skt in Entries && Entries[state.Skt] == state && state.NextWriteRetry == 0
      requires WRITE_RETRY_MIN_MS <= state.WriteRetryDelay <= WRITE_RETRY_MAX_MS
      modifies this`WriteRetryCount, this`Scheduled, this`Seen, state`NextWriteRetry
      ensures Counted() && Scheduled == old(Scheduled) + {state.Skt} && Seen >= old(Seen)
      ensures state.NextWriteRetry == now + state.WriteRetryDelay
    {
      hide Timely;
      WriteRetryCount := WriteRetryCount + 1;
      Scheduled := Scheduled + {state.Skt};
      state.NextWriteRetry := now + state.WriteRetryDelay;
      Seen := if Seen < now then now else Seen;
      StillTimely(state);
    }

    twostate lemma StillTimely(state: IocpState)
      requires old(Tabled() && Timely()) && Tabled() && unchanged(`Entries) && unchanged(`Known) && old(Seen) <= Seen
      requires state.NextWriteRetry <= Seen + WRITE_RETRY_MAX_MS
      requires forall s :: s in Known && s != state ==> unchanged(s)
      ensures Timely()
    {
    }

    // `size` is what the socket's transmit queue holds.
    method UpdateWriteState(state: IocpState, wantsWrite: bool, size: nat, now: nat)
      requires Counted() && state.Skt in Entries && Entries[state.Skt] == state && state.Ok()
      modifies this`WriteRetryCount, this`Scheduled, this`Seen, state`NextWriteRetry, state`WriteRetryDelay
      modifies state`WriteNotified, state`LastWriteSize, state`WriteEventSize
      ensures Counted() && Seen >= old(Seen)
      ensures WRITE_RETRY_MIN_MS <= state.WriteRetryDelay <= WRITE_RETRY_MAX_MS
      ensures state.NextWriteRetry != 0 ==>
                wantsWrite && size != 0 && old(state.WriteNotified) && state.WriteNotified && !state.WritePending
      ensures state.LastWriteSize == if wantsWrite then size else 0
      ensures state.WriteEventSize == if wantsWrite && size != 0 then old(state.WriteEventSize) else 0
      // told, and nothing has moved since: the owner is told again later
      ensures wantsWrite && size != 0 && old(state.WriteNotified) && !state.WritePending ==>
                if Moved(old(state.LastWriteSize), old(state.WriteEventSize), size)
                then !state.WriteNotified && state.NextWriteRetry == 0
                else state.WriteNotified && state.NextWriteRetry
                     == RetryAt(old(state.NextWriteRetry), old(state.WriteRetryDelay), now)
      ensures !wantsWrite || size == 0 ==> !state.WriteNotified && state.NextWriteRetry == 0
    {
      hide Counted, Tabled;
      if !wantsWrite || size == 0 {
        state.WriteNotified, state.LastWriteSize, state.WriteEventSize := false, 0, 0;
        ResetWriteRetry(state);
        return;
      }
      var progressed := state.WriteEventSize != 0 && size < state.WriteEventSize;
      var appended := size > state.LastWriteSize;
      if state.WriteNotified && !state.WritePending {
        if progressed || appended {
          state.WriteNotified := false;
          ResetWriteRetry(state);
        } else {
          ScheduleWriteRetry(state, now);
        }
      }
      state.LastWriteSize := size;
    }

    method Add(socket: nat, wantsRead: bool, wantsWrite: bool) returns (ok: bool)
      requires Valid()
      modifies this`Entries, this`Known, this`Unusable
      ensures Valid() && Later()
      ensures old(socket in Entries) ==> !ok && unchanged(this)
      ensures old(Unusable) <= Unusable
      ensures old(socket !in Entries) && Unusable == old(Unusable) ==>
                socket in Entries && (ok <==> Entries[socket].Refusals == 0)
      ensures Unusable > old(Unusable) ==> !ok && Entries == old(Entries)
      // nothing is added, or an entry without a retry
      ensures (Entries == old(Entries) && Known == old(Known))
                || (socket in Entries && fresh(Entries[socket]) && Entries == old(Entries)[socket := Entries[socket]]
                    && Known == old(Known) + {Entries[socket]} && Entries[socket].NextWriteRetry == 0)
      ensures ok ==> socket in Entries
                     && Entries[socket].WantsRead == wantsRead && Entries[socket].WantsWrite == wantsWrite
                     && (wantsRead ==> Entries[socket].ReadPending) && (wantsWrite ==> Entries[socket].WritePending)
    {
      if socket in Entries {
        return false;
      }
      var usable: bool := *;
      if !usable {
        Unusable := Unusable + 1;
        return false;
      }
      hide Valid;
      var state := Insert(socket, wantsRead, wantsWrite);
      ok := ArmEntry(state);
    }

    method Insert(socket: nat, wantsRead: bool, wantsWrite: bool) returns (state: IocpState)
      requires Valid() && socket !in Entries
      modifies this`Entries, this`Known
      ensures Valid() && fresh(state) && state.Skt == socket && state.NextWriteRetry == 0
      ensures Entries == old(Entries)[socket := state] && Known == old(Known) + {state}
      ensures state.WantsRead == wantsRead && state.WantsWrite == wantsWrite && !state.WriteNotified
      ensures state.Refusals == 0
    {
      state := new IocpState(socket, wantsRead, wantsWrite);
      Entries := Entries[socket := state];
      Known := Known + {state};
      assert forall s :: s in Known ==> s.Ok();
    }

    method ArmEntry(state: IocpState) returns (ok: bool)
      requires Valid() && state.Skt in Entries && Entries[state.Skt] == state
      modifies state`ReadPending, state`WritePending, state`PendingCount
      modifies state`ReadPosts, state`WritePosts, state`Refusals
      ensures Valid() && (ok <==> state.Refusals == old(state.Refusals)) && old(state.Refusals) <= state.Refusals
      ensures ok ==> (state.WantsRead ==> state.ReadPending) && (state.WantsWrite ==> state.WritePending || state.WriteNotified)
    {
      EntryOk(state);
      hide Valid, Counted;
      ok := state.Arm();
      OneChanged(state);
    }

    // The owner did something with what it was told.
    ghost predicate Moved(lastSize: nat, eventSize: nat, size: nat) {
      size > lastSize || (eventSize != 0 && size < eventSize)
    }

    // A retry that is scheduled is left where it is.
    ghost function RetryAt(scheduled: nat, delay: nat, now: nat): nat {
      if scheduled != 0 then scheduled else now + delay
    }

    method Update(socket: nat, wantsRead: bool, wantsWrite: bool, size: nat, now: nat) returns (ok: bool)
      requires Valid()
      modifies this`WriteRetryCount, this`Scheduled, this`Seen, Known
      ensures Valid() && Later() && Entries == old(Entries)
      ensures socket !in Entries ==> !ok && unchanged(this)
      ensures forall s :: s in Known && s.Skt != socket ==> unchanged(s)
      ensures socket in Entries ==>
                && Entries[socket].WantsRead == wantsRead && Entries[socket].WantsWrite == wantsWrite
                && (ok <==> Entries[socket].Refusals == old(Entries[socket].Refusals))
                && Entries[socket].LastWriteSize == (if wantsWrite then size else 0)
                && (ok && wantsRead ==> Entries[socket].ReadPending)
                && (ok && wantsWrite ==> Entries[socket].WritePending || Entries[socket].WriteNotified)
                // only an owner that was told, and did nothing, is told again,
                // after the delay
                && Entries[socket].NextWriteRetry in {0, RetryAt(old(Entries[socket].NextWriteRetry),
                                                                 old(Entries[socket].WriteRetryDelay), now)}
                && (Entries[socket].NextWriteRetry != 0 <==>
                      && wantsWrite && size != 0 && old(Entries[socket].WriteNotified && !Entries[socket].WritePending)
                      && !Moved(old(Entries[socket].LastWriteSize), old(Entries[socket].WriteEventSize), size))
    {
      if socket !in Entries {
        return false;
      }
      ok := UpdateEntry(Entries[socket], wantsRead, wantsWrite, size, now);
    }

    method UpdateEntry(state: IocpState, wantsRead: bool, wantsWrite: bool, size: nat, now: nat) returns (ok: bool)
      requires Valid() && state.Skt in Entries && Entries[state.Skt] == state
      modifies this`WriteRetryCount, this`Scheduled, this`Seen, state
      ensures Valid() && Seen >= old(Seen) && state.Removing == old(state.Removing)
      ensures state.WantsRead == wantsRead && state.WantsWrite == wantsWrite
      ensures ok <==> state.Refusals == old(state.Refusals)
      ensures state.LastWriteSize == if wantsWrite then size else 0
      ensures state.WriteEventSize == if wantsWrite && size != 0 then old(state.WriteEventSize) else 0
      ensures ok && wantsRead ==> state.ReadPending
      ensures ok && wantsWrite ==> state.WritePending || state.WriteNotified
      ensures state.NextWriteRetry in {0, RetryAt(old(state.NextWriteRetry), old(state.WriteRetryDelay), now)}
      ensures state.NextWriteRetry != 0 <==>
                && wantsWrite && size != 0 && old(state.WriteNotified && !state.WritePending)
                && !Moved(old(state.LastWriteSize), old(state.WriteEventSize), size)
    {
      EntryOk(state);
      hide Valid, Counted, Moved;
      UpdateWriteState(state, wantsWrite, size, now);
      ok := Rearm(state, wantsRead, wantsWrite);
      OneChanged(state);
    }

    method Rearm(state: IocpState, wantsRead: bool, wantsWrite: bool) returns (ok: bool)
      requires WRITE_RETRY_MIN_MS <= state.WriteRetryDelay <= WRITE_RETRY_MAX_MS
      requires state.PendingCount == Count(state.ReadPending) + Count(state.WritePending)
      requires state.NextWriteRetry != 0 ==> state.WriteNotified && !state.WritePending && wantsWrite && !state.Removing
      modifies state`WantsRead, state`WantsWrite
      requires !state.Removing
      modifies state`ReadPending, state`WritePending, state`PendingCount
      modifies state`ReadPosts, state`WritePosts, state`Refusals
      ensures state.Ok() && state.WantsRead == wantsRead && state.WantsWrite == wantsWrite
      ensures ok <==> state.Refusals == old(state.Refusals)
      ensures ok ==> (wantsRead ==> state.ReadPending) && (wantsWrite ==> state.WritePending || state.WriteNotified)
      ensures old(state.WritePosts) <= state.WritePosts
    {
      state.WantsRead, state.WantsWrite := wantsRead, wantsWrite;
      ok := state.Arm();
    }

    twostate lemma OneChanged(state: IocpState)
      requires old(Valid()) && Counted() && state.Ok() && unchanged(`Known)
      requires forall s :: s in Known && s != state ==> unchanged(s)
      ensures Valid()
    {
      forall s | s in Known ensures s.Ok() {
        assert old(s.Ok());
      }
    }

    lemma EntryOk(state: IocpState)
      requires Valid() && state.Skt in Entries && Entries[state.Skt] == state
      ensures Counted() && state in Known && state.Ok() && !state.Removing
    {
    }

    method Remove(socket: nat) returns (ok: bool)
      requires Valid()
      modifies this`Entries, this`WriteRetryCount, this`Scheduled
      modifies Known`NextWriteRetry, Known`WriteRetryDelay, Known`Removing
      ensures Valid() && Later()
      ensures ok == old(socket in Entries) && Entries == old(Entries) - {socket}
      ensures ok ==> old(Entries)[socket].Removing && old(Entries)[socket].NextWriteRetry == 0
      ensures forall s :: s in Known && s.Skt != socket ==> unchanged(s)
    {
      if socket !in Entries {
        return false;
      }
      Retire(Entries[socket]);
      return true;
    }

    method Retire(state: IocpState)
      requires Valid() && state.Skt in Entries && Entries[state.Skt] == state
      modifies this`Entries, this`WriteRetryCount, this`Scheduled
      modifies state`NextWriteRetry, state`WriteRetryDelay, state`Removing
      ensures Valid() && Entries == old(Entries) - {state.Skt} && state.Removing && state.NextWriteRetry == 0
    {
      ResetWriteRetry(state);
      Unlist(state);
    }

    method Unlist(state: IocpState)
      requires Counted() && state.Skt in Entries && Entries[state.Skt] == state && state.NextWriteRetry == 0
      requires WRITE_RETRY_MIN_MS <= state.WriteRetryDelay <= WRITE_RETRY_MAX_MS
      requires state.PendingCount == Count(state.ReadPending) + Count(state.WritePending)
      requires forall s :: s in Known && s != state ==> s.Ok()
      modifies this`Entries, state`Removing
      ensures Valid() && Entries == old(Entries) - {state.Skt} && state.Removing
    {
      state.Removing := true;
      Entries := Entries - {state.Skt};
    }

    // The system completes an operation that was posted.
    method CompleteWrite(state: IocpState, size: nat)
      requires Valid() && state in Known && state.WritePending
      modifies state`PendingCount, state`WritePending, state`WriteNotified, state`WriteEventSize
      ensures Valid() && Later() && state.WriteNotified && !state.WritePending && state.WriteEventSize == size
    {
      if state.PendingCount != 0 {
        state.PendingCount := state.PendingCount - 1;
      }
      state.WritePending := false;
      state.WriteNotified := true;
      state.WriteEventSize := size;
    }

    method CompleteRead(state: IocpState)
      requires Valid() && state in Known && state.ReadPending
      modifies state`PendingCount, state`ReadPending
      ensures Valid() && Later() && !state.ReadPending
    {
      if state.PendingCount != 0 {
        state.PendingCount := state.PendingCount - 1;
      }
      state.ReadPending := false;
    }

    // ----- The scans that the counter spares

    ghost function WaitOf(state: IocpState, now: nat): nat
      reads state`NextWriteRetry
    {
      if state.NextWriteRetry <= now then 0 else state.NextWriteRetry - now
    }

    // The shortest of the timeout and of all the waits of these entries.
    ghost predicate IsShortest(result: int, timeout: int, now: nat, keys: set<nat>)
      requires Tabled() && keys <= Entries.Keys
      reads this`Entries, this`Known, Known`NextWriteRetry, Known`Removing
    {
      && (forall k :: k in keys && Entries[k].NextWriteRetry != 0 ==> 0 <= result <= WaitOf(Entries[k], now))
      && (timeout >= 0 ==> 0 <= result <= timeout)
      && (result == timeout
          || exists k :: k in keys && Entries[k].NextWriteRetry != 0 && result == WaitOf(Entries[k], now))
    }

    lemma ShortestNone(timeout: int, now: nat)
      requires Tabled()
      ensures IsShortest(timeout, timeout, now, {})
    {
    }

    lemma ShortestNext(result: int, timeout: int, now: nat, keys: set<nat>, k: nat)
      requires Tabled() && keys <= Entries.Keys && k in Entries && IsShortest(result, timeout, now, keys)
      ensures Entries[k].NextWriteRetry == 0 ==> IsShortest(result, timeout, now, keys + {k})
      ensures Entries[k].NextWriteRetry != 0 ==>
                IsShortest(Shorter(result, WaitOf(Entries[k], now)), timeout, now, keys + {k})
    {
    }

    ghost predicate Fits(now: nat)
      requires Tabled()
      reads this`Entries, this`Known, Known`NextWriteRetry, Known`Removing
    {
      forall k :: k in Entries && Entries[k].NextWriteRetry != 0 ==> Entries[k].NextWriteRetry - now < INT_LIMIT
    }

    lemma TimelyFits(now: nat)
      requires Valid()
      ensures Seen + WRITE_RETRY_MAX_MS < now + INT_LIMIT ==> Fits(now)
    {
    }

    // The guarded scan agrees with a scan of every entry, for a clock that has
    // not been set back by weeks: whenever no reading was ahead of this one by
    // 2^31 milliseconds less the longest delay.
    method GetEffectiveTimeout(timeout: int, now: nat) returns (result: int)
      requires Valid()
      ensures Seen + WRITE_RETRY_MAX_MS < now + INT_LIMIT ==> IsShortest(result, timeout, now, Entries.Keys)
      ensures WriteRetryCount == 0 ==> result == timeout
    {
      result := timeout;
      TimelyFits(now);
      ShortestNone(timeout, now);
      if WriteRetryCount == 0 {
        NoneScheduled(timeout, now);
        return;
      }
      assert Tabled();
      hide IsShortest, ToInt, Counted, Tabled, Valid, Fits;
      var keys := Entries.Keys;
      while keys != {}
        invariant keys <= Entries.Keys
        invariant Fits(now) ==> IsShortest(result, timeout, now, Entries.Keys - keys)
        decreases |keys|
      {
        var k :| k in keys;
        RetryOf(k, now, result);
        if Fits(now) {
          ShortestNext(result, timeout, now, Entries.Keys - keys, k);
        }
        assert Entries.Keys - keys + {k} == Entries.Keys - (keys - {k});
        keys := keys - {k};
        result := Entries[k].Shortened(result, now);
      }
      assert Entries.Keys - keys == Entries.Keys;
    }

    lemma RetryOf(k: nat, now: nat, result: int)
      requires Valid() && k in Entries
      ensures Tabled()
      ensures Entries[k].NextWriteRetry == 0 ==> Entries[k].Shortened(result, now) == result
      ensures Entries[k].NextWriteRetry != 0 && Fits(now) ==>
                Entries[k].Shortened(result, now) == Shorter(result, WaitOf(Entries[k], now))
    {
      assert Entries[k].Ok();
      if Entries[k].NextWriteRetry > now && Fits(now) {
        WaitFits(Entries[k].NextWriteRetry - now);
      }
    }

    lemma NoneScheduled(timeout: int, now: nat)
      requires Valid() && WriteRetryCount == 0
      ensures IsShortest(timeout, timeout, now, Entries.Keys)
    {
    }

    ghost function Sights(): map<nat, Sight>
      reads this`Entries, Entries.Values
    {
      map k | k in Entries :: Entries[k].Seen()
    }

    // Posts the writes whose retry is due, and no others; it returns whether the
    // port took any.
    method PostDueWrites(now: nat) returns (posted: bool)
      requires Valid()
      modifies this`WriteRetryCount, this`Scheduled, Known
      ensures Valid() && NoneBack() && Entries == old(Entries)
      ensures Scanned({}, now, old(Sights()), Sights(), posted)
      ensures forall k :: k in Scheduled <==> k in old(Scheduled) && old(Entries[k].NextWriteRetry) > now
      ensures forall k :: k in Scheduled ==> Entries[k].NextWriteRetry > now
      ensures WriteRetryCount <= old(WriteRetryCount) && (posted ==> WriteRetryCount < old(WriteRetryCount))
    {
      posted := false;
      if WriteRetryCount == 0 {
        NoneDue(now);
        return;
      }
      posted := PostAll(now);
      Fewer(now, old(Scheduled), old(Sights()), posted);
    }

    lemma NoneDue(now: nat)
      requires Valid() && Scheduled == {}
      ensures Scanned({}, now, Sights(), Sights(), false)
    {
    }

    lemma Fewer(now: nat, all: set<nat>, before: map<nat, Sight>, posted: bool)
      requires Valid() && Scanned({}, now, before, Sights(), posted)
      requires forall k :: k in all <==> k in before && before[k].retry != 0
      ensures forall k :: k in Scheduled <==> k in all && before[k].retry > now
      ensures forall k :: k in Scheduled ==> Entries[k].NextWriteRetry > now
      ensures WriteRetryCount <= |all| && (posted ==> WriteRetryCount < |all|)
    {
      forall k | k in Entries ensures k in Scheduled <==> k in all && before[k].retry > now {
        assert Sights()[k] == Entries[k].Seen();
      }
      Smaller(Scheduled, all);
    }

    method PostAll(now: nat) returns (posted: bool)
      requires Valid()
      modifies this`WriteRetryCount, this`Scheduled, Known`WriteNotified, Known`NextWriteRetry
      modifies Known`WritePending, Known`PendingCount, Known`WritePosts, Known`Refusals
      ensures Valid()
      ensures Scanned({}, now, old(Sights()), Sights(), posted)
    {
      ScannedNone(now, Sights(), Entries.Keys);
      EntryFacts();
      hide Valid, Scanned, Sights, SightsAt;
      posted := false;
      var keys := Entries.Keys;
      while keys != {}
        invariant Valid() && keys <= Entries.Keys
        invariant Scanned(keys, now, old(Sights()), Sights(), posted)
        decreases |keys|
      {
        var k :| k in keys;
        ghost var before := Sights();
        var one := PostIfDue(Entries[k], now);
        ScannedNext(keys, now, old(Sights()), before, Sights(), posted, k, one);
        keys := keys - {k};
        posted := posted || one;
      }
    }

    lemma EntryFacts()
      requires Valid()
      ensures forall k :: k in Entries ==> Entries[k] in Known && Entries[k].Skt == k
    {
    }

    method PostIfDue(state: IocpState, now: nat) returns (posted: bool)
      requires Valid() && state.Skt in Entries && Entries[state.Skt] == state
      modifies this`WriteRetryCount, this`Scheduled
      modifies state`WriteNotified, state`NextWriteRetry
      modifies state`WritePending, state`PendingCount, state`WritePosts, state`Refusals
      ensures Valid()
      ensures SightsAt(state.Skt, now, old(Sights()), Sights(), posted)
      ensures Scheduled == old(Scheduled) - if old(state.Seen()).IsDue(now) then {state.Skt} else {}
    {
      DueIs(state, now);
      posted := false;
      if state.IsWriteRetryDue(now) {
        hide Valid, Sights;
        posted := PostDue(state);
        OneSeen(state.Skt);
      }
    }

    // A retry is due exactly if its time has come: all else follows from its
    // being scheduled.
    lemma DueIs(state: IocpState, now: nat)
      requires Valid() && state.Skt in Entries && Entries[state.Skt] == state
      ensures state.IsWriteRetryDue(now) <==> state.Seen().IsDue(now)
    {
      assert state.Ok();
    }

    twostate lemma OneSeen(k: nat)
      requires k in Entries && unchanged(`Entries)
      requires forall j :: j in Entries && j != k ==> unchanged(Entries[j])
      ensures k in old(Sights()) && old(Sights())[k] == old(Entries[k].Seen())
      ensures Sights() == old(Sights())[k := Entries[k].Seen()]
    {
    }

    method PostDue(state: IocpState) returns (posted: bool)
      requires Valid() && state.Skt in Entries && Entries[state.Skt] == state && state.NextWriteRetry != 0
      modifies this`WriteRetryCount, this`Scheduled
      modifies state`WriteNotified, state`NextWriteRetry
      modifies state`WritePending, state`PendingCount, state`WritePosts, state`Refusals
      ensures Valid() && Scheduled == old(Scheduled) - {state.Skt}
      ensures posted <==> state.WritePending
      ensures state.WritePosts == old(state.WritePosts) + 1
    {
      state.WriteNotified := false;
      state.NextWriteRetry := 0;
      if WriteRetryCount != 0 {
        WriteRetryCount := WriteRetryCount - 1;
      }
      Scheduled := Scheduled - {state.Skt};
      posted := state.PostWrite();
    }

    // Before it waits, the loop posts due writes until a scan posts none, which
    // leaves nothing that was due at that scan; every scan that posts one lowers
    // the counter. `clock` is read by each scan.
    method PostAllDue(clock: int -> nat) returns (scans: nat)
      requires Valid()
      modifies this`WriteRetryCount, this`Scheduled, Known
      ensures Valid() && Later() && Entries == old(Entries) && 1 <= scans <= old(WriteRetryCount) + 1
      ensures AllAfter(clock(scans - 1))
    {
      scans := 0;
      var again := true;
      while again
        invariant Valid() && NoneBack() && Known == old(Known) && Entries == old(Entries)
        invariant again || (scans > 0 && AllAfter(clock(scans - 1)))
        invariant scans + WriteRetryCount <= old(WriteRetryCount) + if again then 0 else 1
        decreases WriteRetryCount, again
      {
        again := PostDueWrites(clock(scans));
        scans := scans + 1;
      }
    }

    // No retry is due, nor was at this time.
    ghost predicate AllAfter(time: nat)
      reads this`Entries, Entries.Values
    {
      forall k :: k in Entries && Entries[k].NextWriteRetry != 0 ==> Entries[k].NextWriteRetry > time
    }

    // ----- All runs

    // What a call has come to.
    ghost predicate Did(call: Call)
      reads this`Entries, this`Unusable, Entries.Values
    {
      match call
      case Add(socket, _, _) => socket in Entries || Unusable > 0
      case Update(socket, wantsRead, wantsWrite, size, _) =>
        socket in Entries ==>
          && Entries[socket].WantsRead == wantsRead && Entries[socket].WantsWrite == wantsWrite
          && Entries[socket].LastWriteSize == if wantsWrite then size else 0
      case Remove(socket) => socket !in Entries
      case Turn(clock, _, _) => exists scan: int :: AllAfter(clock(scan))
      case _ => true
    }

    // What the owner and the system may do, and a turn of the loop, which posts
    // the writes that are due and then waits. `states` is what the system has of
    // the entries, the removed ones included.
    method Do(call: Call, states: seq<IocpState>) returns (more: seq<IocpState>)
      requires Valid() && forall s :: s in states ==> s in Known
      modifies this, Known
      ensures Valid() && Later() && fresh(Known - old(Known)) && Did(call)
      ensures forall s :: s in more ==> s in Known
      ensures states <= more && (call.Add? && call.socket in Entries && call.socket !in old(Entries) ==> Entries[call.socket] in more)
      ensures call.WriteDone? && call.i < |states| && old(states[call.i].WritePending) ==>
                var s := states[call.i];
                !s.WritePending && s.WriteNotified && s.WriteEventSize == call.size
      ensures call.ReadDone? && call.i < |states| ==> !states[call.i].ReadPending
    {
      hide Valid;
      more := states;
      match call
      case Add(socket, wantsRead, wantsWrite) =>
        var before := Entries.Keys;
        var _ := Add(socket, wantsRead, wantsWrite);
        EntryFacts();
        if socket in Entries && socket !in before {
          more := states + [Entries[socket]];
        }
      case Update(socket, wantsRead, wantsWrite, size, now) =>
        var _ := Update(socket, wantsRead, wantsWrite, size, now);
      case Remove(socket) =>
        var _ := Remove(socket);
      case WriteDone(i, size) =>
        if i < |states| && states[i].WritePending {
          CompleteWrite(states[i], size);
        }
      case ReadDone(i) =>
        if i < |states| && states[i].ReadPending {
          CompleteRead(states[i]);
        }
      case Turn(clock, timeout, now) =>
        var scans := PostAllDue(clock);
        assert AllAfter(clock(scans - 1));
        var _ := GetEffectiveTimeout(timeout, now);
    }

    // Any calls and completions, in any order, at any readings of the clock.
    method Run(calls: seq<Call>, states: seq<IocpState>)
      requires Valid() && forall s :: s in states ==> s in Known
      modifies this, Known
      ensures Valid() && Later() && (calls != [] ==> Did(calls[|calls| - 1]))
    {
      hide Valid, Did;
      var all := states;
      for i := 0 to |calls|
        invariant Valid() && Later() && fresh(Known - old(Known))
        invariant forall s :: s in all ==> s in Known
        invariant i > 0 ==> Did(calls[i - 1])
      {
        all := Do(calls[i], all);
      }
    }
  }

  datatype Call =
    | Add(socket: nat, wantsRead: bool, wantsWrite: bool)
    | Update(socket: nat, wantsRead: bool, wantsWrite: bool, size: nat, now: nat)
    | Remove(socket: nat)
    | WriteDone(i: nat, size: nat)
    | ReadDone(i: nat)
    | Turn(clock: int -> nat, timeout: int, now: nat)

  // What a scan of the entries sees of one.
  datatype Sight = Sight(posts: nat, retry: nat, pending: bool) {
    predicate IsDue(now: nat) {
      retry != 0 && retry <= now
    }
  }

  // A due one is given to the port, once, and its retry is over; one that is not
  // due is left alone.
  ghost predicate Handled(now: nat, before: Sight, after: Sight) {
    if before.IsDue(now) then after.posts == before.posts + 1 && after.retry == 0
    else after == before
  }

  ghost predicate SightsAt(k: nat, now: nat, before: map<nat, Sight>, after: map<nat, Sight>, posted: bool) {
    && k in before && k in after && after == before[k := after[k]] && Handled(now, before[k], after[k])
    && (posted <==> before[k].IsDue(now) && after[k].pending)
  }

  // All but those under these keys are handled, and `posted` tells whether the
  // port took any of them.
  ghost predicate Scanned(keys: set<nat>, now: nat, before: map<nat, Sight>, after: map<nat, Sight>, posted: bool) {
    && after.Keys == before.Keys
    && (forall k :: k in after ==> if k in keys then after[k] == before[k] else Handled(now, before[k], after[k]))
    && (posted <==> exists k :: k in after && k !in keys && before[k].IsDue(now) && after[k].pending)
  }

  lemma ScannedNone(now: nat, before: map<nat, Sight>, keys: set<nat>)
    requires keys == before.Keys
    ensures Scanned(keys, now, before, before, false)
  {
  }

  lemma ScannedNext(keys: set<nat>, now: nat, before: map<nat, Sight>, after: map<nat, Sight>,
                    next: map<nat, Sight>, posted: bool, k: nat, one: bool)
    requires Scanned(keys, now, before, after, posted) && k in keys && SightsAt(k, now, after, next, one)
    ensures Scanned(keys - {k}, now, before, next, posted || one)
  {
    if posted {
      var j :| j in after && j !in keys && before[j].IsDue(now) && after[j].pending;
      assert next[j].pending;
    }
    if one {
      assert next[k].pending;
    }
  }

  lemma Smaller(a: set<nat>, b: set<nat>)
    requires a <= b
    ensures |a| <= |b| && (a < b ==> |a| < |b|)
  {
    assert b == a + (b - a);
  }

  // A wait is taken for what it is exactly if it fits an int.
  lemma WaitFits(wait: nat)
    ensures ToInt(wait) == wait <==> wait < INT_LIMIT
    ensures ToInt(INT_LIMIT) < 0
  {
  }

  // So an entry's retry is waited for as it should be exactly if it is less than
  // 2^31 milliseconds off; at 2^31 the wait would have no end.
  lemma RetryIsWaitedFor(state: IocpState, now: nat)
    requires state.Ok() && state.NextWriteRetry != 0
    ensures state.Shortened(-1, now) == (if state.NextWriteRetry <= now then 0 else state.NextWriteRetry - now)
            <==> state.NextWriteRetry < now + INT_LIMIT
    ensures state.NextWriteRetry == now + INT_LIMIT ==> state.Shortened(-1, now) < 0
  {
    if state.NextWriteRetry > now {
      WaitFits(state.NextWriteRetry - now);
    }
  }
}
