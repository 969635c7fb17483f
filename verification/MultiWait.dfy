/** Waiting for several events at once: a context that counts completions, and
    the interleavings of one such wait with everything else that may happen to
    the events. */
module MultiWait {
  import opened EventSpec
  import opened Wrappers

  const TIMEOUT: int := 258
  const FAILED: int := -1

  datatype Context = Context(waitAll: bool, pending: seq<bool>, bits: seq<bool>, firstSignalled: nat,
                             signalled: bool, failed: bool)

  predicate AllSet(bits: seq<bool>) {
    forall i :: 0 <= i < |bits| ==> bits[i]
  }

  function CountSet(bits: seq<bool>): nat {
    if bits == [] then 0 else CountSet(bits[..|bits| - 1]) + Count(bits[|bits| - 1])
  }

  lemma {:induction false} CountIsAll(bits: seq<bool>)
    ensures CountSet(bits) <= |bits|
    ensures CountSet(bits) == |bits| <==> AllSet(bits)
  {
    if bits != [] {
      var front := bits[..|bits| - 1];
      CountIsAll(front);
      assert AllSet(bits) <==> AllSet(front) && bits[|bits| - 1];
    }
  }

  function NewContext(waitAll: bool, count: nat): Context {
    Context(waitAll, seq(count, _ => false), seq(count, _ => false), count, false, false)
  }

  // A completion of the wait at `index`.
  function AfterSignal(c: Context, index: nat, failed: bool): Context
    requires index < |c.bits| == |c.pending|
  {
    var bits := c.bits[index := true];
    Context(c.waitAll,
            if failed then c.pending[index := false] else c.pending,
            bits,
            if c.firstSignalled == |bits| then index else c.firstSignalled,
            c.signalled || !c.waitAll || AllSet(bits) || failed,
            c.failed || failed)
  }

  function Indices(pending: seq<bool>): seq<nat> {
    if pending == [] then [] else
      Indices(pending[..|pending| - 1]) + if pending[|pending| - 1] then [|pending| - 1] else []
  }

  lemma {:induction false} IndicesOf(pending: seq<bool>)
    ensures forall i :: i in Indices(pending) <==> 0 <= i < |pending| && pending[i]
    ensures forall a, b :: 0 <= a < b < |Indices(pending)| ==> Indices(pending)[a] != Indices(pending)[b]
  {
    if pending != [] {
      var front := Indices(pending[..|pending| - 1]);
      IndicesOf(pending[..|pending| - 1]);
      assert forall a :: 0 <= a < |front| ==> front[a] in front;
    }
  }

  function ResultCode(c: Context, timedOut: bool): int {
    if c.failed then FAILED else if timedOut then TIMEOUT else c.firstSignalled
  }

  // The context itself. Each method is one section under its lock.
  class WaitContext {
    var Pending: seq<bool>
    const WaitAll: bool
    var Signalled: bool
    var Bits: seq<bool>
    var FirstSignalled: nat
    var Failed: bool

    ghost function Abs(): Context
      reads this
    {
      Context(WaitAll, Pending, Bits, FirstSignalled, Signalled, Failed)
    }

    constructor (waitAll: bool, count: nat)
      ensures Abs() == NewContext(waitAll, count)
    {
      WaitAll := waitAll;
      Pending, Bits := seq(count, _ => false), seq(count, _ => false);
      FirstSignalled := count;
      Signalled, Failed := false, false;
    }

    method MarkRegistered(index: nat)
      requires index < |Pending|
      modifies this
      ensures Abs() == old(Abs()).(pending := old(Pending)[index := true])
    {
      Pending := Pending[index := true];
    }

    method Completed(count: nat) returns (done: bool)
      ensures count <= |Bits| ==> done == Signalled
      ensures WaitAll && count > |Bits| ==> !done
    {
      if WaitAll && count > |Bits| {
        return false;
      }
      return Signalled;
    }

    method EventSignalled(index: nat, failed: bool)
      requires index < |Bits| == |Pending|
      modifies this
      ensures Abs() == AfterSignal(old(Abs()), index, failed)
    {
      if failed {
        Failed := true;
        Pending := Pending[index := false];
      }
      Bits := Bits[index := true];
      if FirstSignalled == |Bits| {
        FirstSignalled := index;
      }
      var n := CountBits();
      CountIsAll(Bits);
      if !WaitAll || n == |Bits| || failed {
        Signalled := true;
      }
    }

    method CountBits() returns (n: nat)
      ensures n == CountSet(Bits)
    {
      n := 0;
      for i := 0 to |Bits|
        invariant n == CountSet(Bits[..i])
      {
        assert Bits[..i + 1][..i] == Bits[..i];
        if Bits[i] {
          n := n + 1;
        }
      }
      assert Bits[..|Bits|] == Bits;
    }

    // The registrations that still have to be undone; they are all taken.
    method TakePending() returns (indices: seq<nat>)
      modifies this`Pending
      ensures indices == Indices(old(Pending))
      ensures Pending == seq(|old(Pending)|, _ => false)
    {
      indices := [];
      for i := 0 to |Pending|
        invariant indices == Indices(Pending[..i])
      {
        assert Pending[..i + 1][..i] == Pending[..i];
        if Pending[i] {
          indices := indices + [i];
        }
      }
      assert Pending[..|Pending|] == Pending;
      Pending := seq(|Pending|, _ => false);
    }

    method Result(timedOut: bool) returns (code: int)
      ensures code == ResultCode(Abs(), timedOut)
    {
      if Failed {
        return FAILED;
      }
      if timedOut {
        return TIMEOUT;
      }
      return FirstSignalled;
    }
  }

  // ----- One wait among everything else

  // A node of this wait's context, or of anyone else.
  datatype Node = Mine(index: nat) | Other(id: nat)
  datatype Entry = Entry(index: nat, failed: bool)

  datatype Phase =
    | Registering(k: nat)   // about to register event k
    | Marking(k: nat)       // registered, not yet marked
    | Checking(k: nat)      // marked
    | Waiting
    | Taking(timedOut: bool)
    | Cleaning(timedOut: bool, todo: seq<nat>)
    | Done(timedOut: bool, code: int)

  // The handles waited for, all handles with their events, and the wait. The
  // log is every completion the context has been called with; `late` is how many
  // of them came when the wait was over and not yet undone, and `taken` how many
  // of them used up a signal, that of a synchronization event.
  datatype State = State(handles: seq<nat>, eventOf: map<nat, nat>, events: map<nat, Shared<Node, nat>>,
                         closed: set<nat>, ctx: Context, phase: Phase, forever: bool,
                         registered: nat, log: seq<Entry>, late: nat, taken: nat)

  datatype Action =
    | Advance(timeout: bool)  // the wait goes on; it may be its timeout
    | Set(h: nat)
    | Reset(h: nat)
    | Single(h: nat)
    | Close(h: nat)
    | RegisterOther(h: nat, id: nat)
    | UnregisterOther(h: nat, id: nat)
    | Duplicate(h: nat, copy: nat)

  function LogOf(calls: seq<Call<Node>>): seq<Entry> {
    if calls == [] then [] else
      (if calls[0].node.Mine? then [Entry(calls[0].node.index, calls[0].failed)] else []) + LogOf(calls[1..])
  }

  function Successes(log: seq<Entry>): nat {
    if log == [] then 0 else Count(!log[0].failed) + Successes(log[1..])
  }

  ghost predicate InRange(log: seq<Entry>, n: nat) {
    forall e :: e in log ==> e.index < n
  }

  function Feed(c: Context, log: seq<Entry>): Context
    decreases |log|
  {
    if log == [] then c
    else if log[0].index < |c.bits| == |c.pending| then Feed(AfterSignal(c, log[0].index, log[0].failed), log[1..])
    else Feed(c, log[1..])
  }

  ghost predicate WellFormed(s: State) {
    && |s.handles| == |s.ctx.bits| == |s.ctx.pending|
    && (forall h :: h in s.handles ==> h in s.eventOf)
    && (forall h :: h in s.eventOf ==> s.eventOf[h] in s.events)
    && (match s.phase
        case Registering(k) => k < |s.handles|
        case Marking(k) => k < |s.handles|
        case Checking(k) => k < |s.handles|
        case Cleaning(_, todo) => forall i :: i in todo ==> i < |s.handles|
        case _ => true)
  }

  ghost predicate Legal(s: State, a: Action) {
    && WellFormed(s)
    && match a
       case Advance(timeout) => timeout ==> !s.forever
       case Duplicate(h, copy) => h in s.eventOf && copy !in s.eventOf
       case RegisterOther(h, id) =>
         h in s.eventOf && forall q :: q in s.events ==> !Registered(s.events[q].waits, Other(id))
       case _ => a.h in s.eventOf
  }

  function EventAt(s: State, h: nat): Shared<Node, nat>
    requires h in s.eventOf && s.eventOf[h] in s.events
  {
    s.events[s.eventOf[h]]
  }

  // One section on the event of handle h, with the completions it called.
  function Changed(s: State, h: nat, e: Shared<Node, nat>, calls: seq<Call<Node>>): State
    requires h in s.eventOf
  {
    s.(events := s.events[s.eventOf[h] := e], ctx := Feed(s.ctx, LogOf(calls)), log := s.log + LogOf(calls),
       late := s.late + if s.phase.Taking? || s.phase.Cleaning? then |LogOf(calls)| else 0,
       taken := s.taken + if e.notification then 0 else Successes(LogOf(calls)))
  }

  ghost function Advanced(s: State, timeout: bool): State
    requires WellFormed(s)
  {
    match s.phase
    case Registering(k) =>
      var h := s.handles[k];
      var (e, calls) := RegisterWait(EventAt(s, h), Wait(Mine(k), h), h in s.closed);
      Changed(s, h, e, calls).(phase := Marking(k), registered := k + 1)
    case Marking(k) =>
      s.(ctx := s.ctx.(pending := s.ctx.pending[k := true]), phase := Checking(k))
    case Checking(k) =>
      s.(phase := if s.ctx.signalled || k + 1 == |s.handles| then Waiting else Registering(k + 1))
    case Waiting =>
      s.(phase := if s.ctx.signalled then Taking(false) else if timeout then Taking(true) else Waiting)
    case Taking(timedOut) =>
      s.(phase := Cleaning(timedOut, Indices(s.ctx.pending)),
         ctx := s.ctx.(pending := seq(|s.ctx.pending|, _ => false)))
    case Cleaning(timedOut, todo) =>
      if todo == [] then
        s.(phase := Done(timedOut, ResultCode(s.ctx, timedOut)))
      else
        assert todo[0] in todo;
        var h := s.handles[todo[0]];
        var (e, _) := UnregisterWait(EventAt(s, h), Wait(Mine(todo[0]), h));
        Changed(s, h, e, []).(phase := Cleaning(timedOut, todo[1..]))
    case Done(_, _) => s
  }

  ghost function Step(s: State, a: Action): State
    requires Legal(s, a)
  {
    match a
    case Advance(timeout) => Advanced(s, timeout)
    case Set(h) => var (e, calls) := SetEvent(EventAt(s, h)); Changed(s, h, e, calls)
    case Reset(h) => Changed(s, h, ResetEvent(EventAt(s, h)), [])
    case Single(h) => Changed(s, h, SingleWait(EventAt(s, h), h in s.closed).0, [])
    case Close(h) =>
      var (e, calls) := OnCloseHandle(EventAt(s, h), h, h in s.closed);
      Changed(s, h, e, calls).(closed := s.closed + {h})
    case RegisterOther(h, id) =>
      var (e, calls) := RegisterWait(EventAt(s, h), Wait(Other(id), h), h in s.closed);
      Changed(s, h, e, calls)
    case UnregisterOther(h, id) =>
      Changed(s, h, UnregisterWait(EventAt(s, h), Wait(Other(id), h)).0, [])
    case Duplicate(h, copy) =>
      if h in s.closed then s else s.(eventOf := s.eventOf[copy := s.eventOf[h]])
  }

  ghost predicate LegalRun(s: State, actions: seq<Action>)
    decreases |actions|
  {
    actions != [] ==> Legal(s, actions[0]) && LegalRun(Step(s, actions[0]), actions[1..])
  }

  ghost function Run(s: State, actions: seq<Action>): State
    requires LegalRun(s, actions)
    decreases |actions|
  {
    if actions == [] then s else Run(Step(s, actions[0]), actions[1..])
  }

  // ----- What every run keeps

  ghost predicate Linked(s: State, i: nat)
    requires WellFormed(s) && i < |s.handles|
  {
    Wait(Mine(i), s.handles[i]) in EventAt(s, s.handles[i]).waits
  }

  // Every linked wait sits with the event of its handle, which is not closed.
  ghost predicate WaitOk(s: State, q: nat, w: Wait<Node, nat>) {
    && w.owner in s.eventOf && s.eventOf[w.owner] == q && w.owner !in s.closed
    && (w.node.Mine? ==> w.node.index < s.registered <= |s.handles| && w.owner == s.handles[w.node.index])
  }

  ghost predicate ListsOk(s: State) {
    && s.registered <= |s.handles|
    && forall q :: q in s.events ==>
         Distinct(s.events[q].waits) && forall w :: w in s.events[q].waits ==> WaitOk(s, q, w)
  }

  ghost predicate Gone(s: State, i: nat)
    requires WellFormed(s) && i < |s.handles|
  {
    s.handles[i] in s.closed
  }

  // A node that is linked is known to be: it is pending, or about to be marked
  // so, or about to be unregistered. One that is not was closed.
  ghost predicate PendingOk(s: State)
    requires WellFormed(s)
  {
    match s.phase
    case Cleaning(_, todo) =>
      && (forall i :: 0 <= i < |s.handles| && Linked(s, i) ==> i in todo)
      && (forall i :: i in todo ==> Linked(s, i) || Gone(s, i))
      && (forall a, b :: 0 <= a < b < |todo| ==> todo[a] != todo[b])
    case Done(_, _) =>
      forall i :: 0 <= i < |s.handles| ==> !Linked(s, i)
    case _ =>
      && (forall i :: 0 <= i < |s.handles| && Linked(s, i) ==> s.ctx.pending[i] || s.phase == Marking(i))
      && (forall i :: 0 <= i < |s.handles| && (s.ctx.pending[i] || s.phase == Marking(i)) ==>
            i < s.registered && (Linked(s, i) || Gone(s, i)))
  }

  // A wait rests only when it is registered with every handle, or need not be.
  ghost predicate PhaseOk(s: State) {
    match s.phase
    case Registering(k) => s.registered == k
    case Marking(k) => s.registered == k + 1
    case Checking(k) => s.registered == k + 1
    case Waiting => s.ctx.signalled || s.registered == |s.handles|
    case Taking(timedOut) => EndOk(s, timedOut)
    case Cleaning(timedOut, _) => EndOk(s, timedOut)
    case Done(timedOut, code) => EndOk(s, timedOut) && code == ResultCode(s.ctx, timedOut)
  }

  ghost predicate EndOk(s: State, timedOut: bool) {
    if timedOut then !s.forever && s.registered == |s.handles| else s.ctx.signalled
  }

  ghost predicate Fired(log: seq<Entry>, i: nat) {
    Entry(i, false) in log || Entry(i, true) in log
  }

  ghost predicate CloseReported(log: seq<Entry>) {
    exists e :: e in log && e.failed
  }

  // What the context knows of the completions it was called with.
  ghost predicate Records(c: Context, n: nat, log: seq<Entry>) {
    && |c.bits| == |c.pending| == n
    && (forall e :: e in log ==> e.index < n)
    && (forall i :: 0 <= i < n ==> (c.bits[i] <==> Fired(log, i)))
    && (c.failed <==> CloseReported(log))
    && c.firstSignalled == (if log == [] then n else log[0].index)
    && (c.signalled <==> log != [] && (!c.waitAll || c.failed || AllSet(c.bits)))
  }

  ghost predicate LogOk(s: State) {
    && Records(s.ctx, |s.handles|, s.log)
    && (forall e :: e in s.log ==> e.index < s.registered <= |s.handles|)
    && (forall e :: e in s.log && e.failed ==> e.index < |s.handles| && s.handles[e.index] in s.closed)
  }

  ghost predicate Inv(s: State) {
    WellFormed(s) && ListsOk(s) && PendingOk(s) && PhaseOk(s) && LogOk(s)
  }

  lemma SignalRecords(c: Context, n: nat, log: seq<Entry>, e: Entry)
    requires Records(c, n, log) && e.index < n
    ensures Records(AfterSignal(c, e.index, e.failed), n, log + [e])
    ensures AfterSignal(c, e.index, e.failed).waitAll == c.waitAll
    ensures forall i :: 0 <= i < n ==>
              (AfterSignal(c, e.index, e.failed).pending[i] <==> c.pending[i] && Entry(i, true) != e)
  {
    var c' := AfterSignal(c, e.index, e.failed);
    if c.failed {
      var x :| x in log && x.failed;
      assert x in log + [e];
    }
    if CloseReported(log + [e]) && !e.failed {
      var x :| x in log + [e] && x.failed;
      assert x in log;
    }
    assert e in log + [e];
  }

  lemma {:induction false} FeedRecords(c: Context, n: nat, log: seq<Entry>, more: seq<Entry>)
    requires Records(c, n, log) && InRange(more, n)
    ensures Records(Feed(c, more), n, log + more)
    ensures Feed(c, more).waitAll == c.waitAll && (c.signalled ==> Feed(c, more).signalled)
    ensures forall i :: 0 <= i < n ==> (Feed(c, more).pending[i] <==> c.pending[i] && Entry(i, true) !in more)
    decreases |more|
  {
    if more == [] {
      assert log + more == log;
    } else {
      assert more[0] in more;
      SignalRecords(c, n, log, more[0]);
      FeedRecords(AfterSignal(c, more[0].index, more[0].failed), n, log + [more[0]], more[1..]);
      assert log + more == log + [more[0]] + more[1..];
    }
  }

  lemma {:induction false} LogOfCalls(calls: seq<Call<Node>>)
    ensures forall e :: e in LogOf(calls) ==> Call(Mine(e.index), e.failed) in calls
    ensures forall c :: c in calls && c.node.Mine? ==> Entry(c.node.index, c.failed) in LogOf(calls)
    ensures (forall c :: c in calls ==> !c.node.Mine?) ==> LogOf(calls) == []
  {
    if calls != [] {
      LogOfCalls(calls[1..]);
      assert calls[0] in calls;
    }
  }

  // What a section on the event of h may do to the wait: it removes only waits
  // of closed handles, adds none of this wait, and calls only linked nodes,
  // with a failure only those it has unlinked.
  ghost predicate Fair(s: State, h: nat, e: Shared<Node, nat>, calls: seq<Call<Node>>, closed: set<nat>)
    requires WellFormed(s) && h in s.eventOf
  {
    var before := EventAt(s, h).waits;
    && s.closed <= closed <= s.closed + {h}
    && Distinct(e.waits)
    && (forall w :: w in e.waits ==>
          w.owner !in closed && (w in before || (w.node.Other? && w.owner == h)))
    && (forall w :: w in before && w.node.Mine? ==> w in e.waits || w.owner in closed)
    && (forall c :: c in calls && c.node.Mine? ==>
          && c.node.index < |s.handles| && Linked(s, c.node.index)
          && s.eventOf[s.handles[c.node.index]] == s.eventOf[h]
          && (c.failed ==> s.handles[c.node.index] in closed))
  }

  lemma SectionFacts(s: State, h: nat, e: Shared<Node, nat>, calls: seq<Call<Node>>, closed: set<nat>)
    requires Inv(s) && h in s.eventOf && Fair(s, h, e, calls, closed)
    ensures var s' := Changed(s, h, e, calls).(closed := closed);
            && WellFormed(s') && ListsOk(s')
            && (forall i :: 0 <= i < |s.handles| && Linked(s', i) ==> Linked(s, i) && !Gone(s', i))
            && (forall i :: 0 <= i < |s.handles| && Linked(s, i) ==> Linked(s', i) || Gone(s', i))
  {
    var s' := Changed(s, h, e, calls).(closed := closed);
    assert WellFormed(s') by {
      SectionLog(s, h, e, calls, closed);
    }
    forall q, w | q in s'.events && w in s'.events[q].waits ensures WaitOk(s', q, w) {
      if q != s.eventOf[h] || w in EventAt(s, h).waits {
        assert WaitOk(s, q, w);
      }
    }
    forall i | 0 <= i < |s.handles| && Linked(s', i) ensures Linked(s, i) && !Gone(s', i) {
      assert WaitOk(s', s'.eventOf[s'.handles[i]], Wait(Mine(i), s'.handles[i]));
    }
  }

  lemma SectionLog(s: State, h: nat, e: Shared<Node, nat>, calls: seq<Call<Node>>, closed: set<nat>)
    requires Inv(s) && h in s.eventOf && Fair(s, h, e, calls, closed)
    ensures LogOk(Changed(s, h, e, calls).(closed := closed))
    ensures Feed(s.ctx, LogOf(calls)).waitAll == s.ctx.waitAll
    ensures s.ctx.signalled ==> Feed(s.ctx, LogOf(calls)).signalled
    ensures forall i :: 0 <= i < |s.handles| ==>
              (Feed(s.ctx, LogOf(calls)).pending[i] <==> s.ctx.pending[i] && Entry(i, true) !in LogOf(calls))
    ensures s.phase.Done? ==> LogOf(calls) == []
  {
    LogOfCalls(calls);
    var more := LogOf(calls);
    forall x | x in more
      ensures x.index < s.registered && x.index < |s.handles| && (x.failed ==> s.handles[x.index] in closed)
    {
      var i := x.index;
      assert Call(Mine(i), x.failed) in calls && Linked(s, i);
      assert WaitOk(s, s.eventOf[s.handles[i]], Wait(Mine(i), s.handles[i]));
    }
    FeedRecords(s.ctx, |s.handles|, s.log, more);
  }

  lemma PendingKeeps(s: State, s': State)
    requires WellFormed(s) && WellFormed(s') && PendingOk(s)
    requires s'.handles == s.handles && s'.phase == s.phase && s'.registered == s.registered
    requires s.closed <= s'.closed
    requires forall i :: 0 <= i < |s.handles| && Linked(s', i) ==> Linked(s, i)
    requires forall i :: 0 <= i < |s.handles| && Linked(s, i) ==> Linked(s', i) || Gone(s', i)
    requires forall i :: 0 <= i < |s.handles| && s'.ctx.pending[i] ==> s.ctx.pending[i]
    requires forall i :: 0 <= i < |s.handles| && s.ctx.pending[i] && Linked(s', i) ==> s'.ctx.pending[i]
    ensures PendingOk(s')
  {
    hide Linked;
    assert forall i :: 0 <= i < |s.handles| && Gone(s, i) ==> Gone(s', i);
  }

  lemma SectionKeeps(s: State, h: nat, e: Shared<Node, nat>, calls: seq<Call<Node>>, closed: set<nat>)
    requires Inv(s) && h in s.eventOf && Fair(s, h, e, calls, closed)
    ensures Inv(Changed(s, h, e, calls).(closed := closed))
    ensures s.phase.Done? ==> LogOf(calls) == []
  {
    var s' := Changed(s, h, e, calls).(closed := closed);
    SectionFacts(s, h, e, calls, closed);
    SectionLog(s, h, e, calls, closed);
    LogOfCalls(calls);
    hide Records, ListsOk, LogOk, PendingOk, Linked;
    forall i | 0 <= i < |s.handles| && Linked(s', i) ensures Entry(i, true) !in LogOf(calls) {
      assert Call(Mine(i), true) !in calls;
    }
    PendingKeeps(s, s');
  }

  // ----- What the others do

  lemma LinkedCalls(s: State, h: nat, waits: seq<Wait<Node, nat>>, failed: bool)
    requires Inv(s) && h in s.eventOf
    requires forall w :: w in waits ==> w in EventAt(s, h).waits
    ensures forall c :: c in Calls(waits, failed) && c.node.Mine? ==>
              && c.node.index < |s.handles| && Linked(s, c.node.index)
              && s.eventOf[s.handles[c.node.index]] == s.eventOf[h]
              && Wait(c.node, s.handles[c.node.index]) in waits
              && c.failed == failed
  {
    forall c | c in Calls(waits, failed) && c.node.Mine?
      ensures c.node.index < |s.handles| && Wait(c.node, s.handles[c.node.index]) in waits
      ensures s.eventOf[s.handles[c.node.index]] == s.eventOf[h] && c.failed == failed
    {
      var i :| 0 <= i < |waits| && Calls(waits, failed)[i] == c;
      assert waits[i] in EventAt(s, h).waits && WaitOk(s, s.eventOf[h], waits[i]);
    }
  }

  lemma SetIsFair(s: State, h: nat)
    requires Inv(s) && h in s.eventOf
    ensures var (e, calls) := SetEvent(EventAt(s, h)); Fair(s, h, e, calls, s.closed)
  {
    var waits := EventAt(s, h).waits;
    LinkedCalls(s, h, waits, false);
    LinkedCalls(s, h, if waits == [] then [] else waits[..1], false);
    assert forall w :: w in waits ==> WaitOk(s, s.eventOf[h], w);
  }

  lemma CloseIsFair(s: State, h: nat)
    requires Inv(s) && h in s.eventOf
    ensures var (e, calls) := OnCloseHandle(EventAt(s, h), h, h in s.closed);
            Fair(s, h, e, calls, s.closed + {h})
  {
    var waits := EventAt(s, h).waits;
    OwnedMembers(waits, h);
    OwnedDistinct(waits, h);
    LinkedCalls(s, h, OwnedBy(waits, h), true);
    assert forall w :: w in waits ==> WaitOk(s, s.eventOf[h], w);
  }

  lemma RegisterOtherIsFair(s: State, h: nat, id: nat)
    requires Inv(s) && Legal(s, RegisterOther(h, id))
    ensures var (e, calls) := RegisterWait(EventAt(s, h), Wait(Other(id), h), h in s.closed);
            Fair(s, h, e, calls, s.closed)
  {
    assert !Registered(EventAt(s, h).waits, Other(id));
    assert forall w :: w in EventAt(s, h).waits ==> WaitOk(s, s.eventOf[h], w);
  }

  lemma UnregisterOtherIsFair(s: State, h: nat, id: nat)
    requires Inv(s) && h in s.eventOf
    ensures Fair(s, h, UnregisterWait(EventAt(s, h), Wait(Other(id), h)).0, [], s.closed)
  {
    WithoutMembers(EventAt(s, h).waits, Other(id));
    assert forall w :: w in EventAt(s, h).waits ==> WaitOk(s, s.eventOf[h], w);
  }

  lemma QuietIsFair(s: State, h: nat, e: Shared<Node, nat>)
    requires Inv(s) && h in s.eventOf && e.waits == EventAt(s, h).waits
    ensures Fair(s, h, e, [], s.closed)
  {
    assert forall w :: w in e.waits ==> WaitOk(s, s.eventOf[h], w);
  }

  lemma DuplicateKeeps(s: State, h: nat, copy: nat)
    requires Inv(s) && Legal(s, Duplicate(h, copy))
    ensures Inv(Step(s, Duplicate(h, copy)))
  {
    hide Records;
    var s' := Step(s, Duplicate(h, copy));
    assert s'.events == s.events && s'.closed == s.closed;
    forall i | 0 <= i < |s.handles| ensures Linked(s', i) == Linked(s, i) && Gone(s', i) == Gone(s, i) {
      assert s.handles[i] in s.handles && s.handles[i] != copy;
    }
    assert forall q, w :: q in s.events && w in s.events[q].waits && WaitOk(s, q, w) ==> WaitOk(s', q, w);
    PendingKeeps(s, s');
  }

  // Whatever the others do, in particular once the wait has returned: then no
  // completion can reach its context any more.
  lemma OthersKeep(s: State, a: Action)
    requires Inv(s) && Legal(s, a) && !a.Advance?
    ensures Inv(Step(s, a))
    ensures s.phase.Done? ==> Step(s, a).log == s.log && Step(s, a).phase == s.phase
  {
    hide Inv, Fair, Records, Linked, ListsOk, PendingOk, LogOk;
    InvIsWellFormed(s);
    match a
    case Set(h) =>
      var (e, calls) := SetEvent(EventAt(s, h));
      SetIsFair(s, h);
      SectionKeeps(s, h, e, calls, s.closed);
    case Reset(h) =>
      QuietIsFair(s, h, ResetEvent(EventAt(s, h)));
      SectionKeeps(s, h, ResetEvent(EventAt(s, h)), [], s.closed);
    case Single(h) =>
      var e := SingleWait(EventAt(s, h), h in s.closed).0;
      QuietIsFair(s, h, e);
      SectionKeeps(s, h, e, [], s.closed);
    case Close(h) =>
      var (e, calls) := OnCloseHandle(EventAt(s, h), h, h in s.closed);
      CloseIsFair(s, h);
      SectionKeeps(s, h, e, calls, s.closed + {h});
    case RegisterOther(h, id) =>
      var (e, calls) := RegisterWait(EventAt(s, h), Wait(Other(id), h), h in s.closed);
      RegisterOtherIsFair(s, h, id);
      SectionKeeps(s, h, e, calls, s.closed);
    case UnregisterOther(h, id) =>
      var e := UnregisterWait(EventAt(s, h), Wait(Other(id), h)).0;
      UnregisterOtherIsFair(s, h, id);
      SectionKeeps(s, h, e, [], s.closed);
    case Duplicate(h, copy) =>
      DuplicateKeeps(s, h, copy);
  }

  // ----- What the wait does

  // The lists after a section on the event of handle h that links or unlinks
  // the node k of this wait.
  lemma OwnSection(s: State, s': State, k: nat)
    requires WellFormed(s) && WellFormed(s') && ListsOk(s) && k < |s.handles|
    requires s'.handles == s.handles && s'.eventOf == s.eventOf && s'.closed == s.closed
    requires s.registered <= s'.registered <= |s.handles|
    requires var q := s.eventOf[s.handles[k]];
             && s'.events.Keys == s.events.Keys && Distinct(s'.events[q].waits)
             && (forall w :: w in s'.events[q].waits ==>
                   w in s.events[q].waits || (w == Wait(Mine(k), s.handles[k]) && k < s'.registered && !Gone(s, k)))
             && (forall w :: w in s.events[q].waits ==> w in s'.events[q].waits || w == Wait(Mine(k), s.handles[k]))
             && (forall p :: p in s.events && p != q ==> s'.events[p] == s.events[p])
    ensures ListsOk(s')
    ensures forall i :: 0 <= i < |s.handles| && i != k ==> Linked(s', i) == Linked(s, i) && Gone(s', i) == Gone(s, i)
  {
    var q := s.eventOf[s.handles[k]];
    forall p, w | p in s'.events && w in s'.events[p].waits ensures WaitOk(s', p, w) {
      if p != q || w in s.events[q].waits {
        assert WaitOk(s, p, w);
      }
    }
  }

  lemma RegisterLog(s: State, k: nat)
    requires Inv(s) && s.phase == Registering(k)
    ensures var s' := Advanced(s, false);
            && WellFormed(s') && LogOk(s')
            && (forall i :: 0 <= i < |s.handles| && s'.ctx.pending[i] ==> s.ctx.pending[i])
            && (forall i :: 0 <= i < |s.handles| && i != k && s.ctx.pending[i] ==> s'.ctx.pending[i])
  {
    hide Records, PendingOk, ListsOk;
    var h := s.handles[k];
    assert h in s.handles;
    var calls := RegisterWait(EventAt(s, h), Wait(Mine(k), h), h in s.closed).1;
    LogOfCalls(calls);
    FeedRecords(s.ctx, |s.handles|, s.log, LogOf(calls));
  }

  lemma RegisterLists(s: State, k: nat)
    requires Inv(s) && s.phase == Registering(k) && WellFormed(Advanced(s, false))
    ensures var s' := Advanced(s, false);
            && ListsOk(s') && (Linked(s', k) || Gone(s', k))
            && (forall i :: 0 <= i < |s.handles| && i != k ==> Linked(s', i) == Linked(s, i) && Gone(s', i) == Gone(s, i))
  {
    hide Records, PendingOk, Feed, LogOf;
    var h := s.handles[k];
    assert h in s.handles;
    var q := s.eventOf[h];
    var waits := s.events[q].waits;
    forall i | 0 <= i < |waits| ensures waits[i].node != Mine(k) {
      assert WaitOk(s, q, waits[i]);
    }
    OwnSection(s, Advanced(s, false), k);
  }

  lemma RegisterKeeps(s: State, k: nat)
    requires Inv(s) && s.phase == Registering(k)
    ensures Inv(Advanced(s, false))
  {
    RegisterLog(s, k);
    RegisterLists(s, k);
    hide Records, LogOk, ListsOk, Linked;
  }

  lemma MarkKeeps(s: State, k: nat)
    requires Inv(s) && s.phase == Marking(k)
    ensures Inv(Advanced(s, false))
  {
  }

  lemma TakeKeeps(s: State, timedOut: bool)
    requires Inv(s) && s.phase == Taking(timedOut)
    ensures Inv(Advanced(s, false))
  {
    IndicesOf(s.ctx.pending);
  }

  lemma CleanLists(s: State, timedOut: bool, todo: seq<nat>)
    requires Inv(s) && s.phase == Cleaning(timedOut, todo) && todo != []
    ensures var k := todo[0];
            var s' := Advanced(s, false);
            && WellFormed(s') && ListsOk(s') && k < |s.handles| && !Linked(s', k)
            && (forall i :: 0 <= i < |s.handles| && i != k ==> Linked(s', i) == Linked(s, i) && Gone(s', i) == Gone(s, i))
  {
    var k := todo[0];
    assert k in todo && s.handles[k] in s.handles;
    WithoutMembers(EventAt(s, s.handles[k]).waits, Mine(k));
    assert forall i :: i in todo[1..] ==> i in todo;
    OwnSection(s, Advanced(s, false), k);
  }

  lemma CleanKeeps(s: State, timedOut: bool, todo: seq<nat>)
    requires Inv(s) && s.phase == Cleaning(timedOut, todo)
    ensures Inv(Advanced(s, false))
  {
    hide Records;
    if todo != [] {
      CleanLists(s, timedOut, todo);
      hide ListsOk, Linked, Gone;
      assert Advanced(s, false).log == s.log && Advanced(s, false).ctx == s.ctx;
      assert todo == [todo[0]] + todo[1..];
      assert forall i :: i in todo[1..] ==> i in todo && i != todo[0];
    } else {
      var s' := Advanced(s, false);
      forall i | 0 <= i < |s.handles| ensures !Linked(s', i) {
        assert Linked(s, i) ==> i in todo;
        assert s'.handles[i] in s.handles && EventAt(s', s.handles[i]) == EventAt(s, s.handles[i]);
      }
    }
  }

  // Undoing a registration fails only when the handle is closing.
  lemma UnregisterSucceeds(s: State, timedOut: bool, todo: seq<nat>)
    requires Inv(s) && s.phase == Cleaning(timedOut, todo) && todo != []
    ensures var k := todo[0];
            && k in todo && k < |s.handles| && s.handles[k] in s.handles
            && (UnregisterWait(EventAt(s, s.handles[k]), Wait(Mine(k), s.handles[k])).1 || s.handles[k] in s.closed)
  {
    assert todo[0] in todo && s.handles[todo[0]] in s.handles;
    assert Linked(s, todo[0]) || Gone(s, todo[0]);
  }

  lemma StepKeeps(s: State, a: Action)
    requires Inv(s) && Legal(s, a)
    ensures Inv(Step(s, a))
  {
    hide Inv, ListsOk, PendingOk, LogOk, Records, Linked;
    if !a.Advance? {
      OthersKeep(s, a);
    } else {
      match s.phase
      case Registering(k) => RegisterKeeps(s, k);
      case Marking(k) => MarkKeeps(s, k);
      case Taking(timedOut) => TakeKeeps(s, timedOut);
      case Cleaning(timedOut, todo) => CleanKeeps(s, timedOut, todo);
      case _ => MoveOnKeeps(s, a.timeout);
    }
  }

  lemma MoveOnKeeps(s: State, timeout: bool)
    requires Inv(s) && (s.phase.Checking? || s.phase.Waiting? || s.phase.Done?) && (timeout ==> !s.forever)
    ensures Inv(Advanced(s, timeout))
  {
    hide Records;
    assert Advanced(s, timeout).log == s.log && Advanced(s, timeout).ctx == s.ctx;
  }

  lemma InvIsWellFormed(s: State)
    requires Inv(s)
    ensures WellFormed(s)
  {
  }

  // ----- All runs

  // Before the first registration: the wait has no node anywhere.
  ghost predicate Initial(s: State) {
    && WellFormed(s) && ListsOk(s)
    && s.registered == 0 && s.log == [] && s.late == s.taken == 0
    && s.ctx == NewContext(s.ctx.waitAll, |s.handles|)
    && s.phase == if s.handles == [] then Waiting else Registering(0)
  }

  lemma InitialInv(s: State)
    requires Initial(s)
    ensures Inv(s)
  {
    forall i | 0 <= i < |s.handles| ensures !Linked(s, i) {
      assert s.handles[i] in s.handles;
      assert Linked(s, i) ==> WaitOk(s, s.eventOf[s.handles[i]], Wait(Mine(i), s.handles[i]));
    }
  }

  lemma {:induction false} RunKeeps(s: State, actions: seq<Action>)
    requires Inv(s) && LegalRun(s, actions)
    ensures Inv(Run(s, actions))
    ensures s.phase.Done? ==> Run(s, actions).phase == s.phase && Run(s, actions).log == s.log
    decreases |actions|
  {
    hide Inv;
    if actions != [] {
      var a := actions[0];
      StepKeeps(s, a);
      if !a.Advance? {
        OthersKeep(s, a);
      }
      RunKeeps(Step(s, a), actions[1..]);
    }
  }

  // Once the wait has returned, none of its nodes is linked anywhere. It has
  // failed exactly if a close was reported to it; otherwise it has timed out,
  // or names the first wait that completed, and all of them did if all were
  // asked for.
  ghost predicate Returned(s: State, timedOut: bool, code: int) {
    && (forall q, w :: q in s.events && w in s.events[q].waits ==> !w.node.Mine?)
    && (code == FAILED <==> CloseReported(s.log))
    && (forall e :: e in s.log && e.failed ==> e.index < |s.handles| && s.handles[e.index] in s.closed)
    && (!CloseReported(s.log) && timedOut ==> code == TIMEOUT && !s.forever)
    && (timedOut ==> s.registered == |s.handles|)
    && (!CloseReported(s.log) && !timedOut ==>
          && s.log != [] && code == s.log[0].index < |s.handles|
          && (s.ctx.waitAll ==> forall i :: 0 <= i < |s.handles| ==> Fired(s.log, i)))
  }

  lemma LinkedWait(s: State, q: nat, w: Wait<Node, nat>)
    requires Inv(s) && q in s.events && w in s.events[q].waits && w.node.Mine?
    ensures w.node.index < |s.handles| && Linked(s, w.node.index)
  {
    assert WaitOk(s, q, w);
  }

  lemma ReturnedIsRight(s: State)
    requires Inv(s) && s.phase.Done?
    ensures Returned(s, s.phase.timedOut, s.phase.code)
  {
    forall q, w | q in s.events && w in s.events[q].waits ensures !w.node.Mine? {
      if w.node.Mine? {
        LinkedWait(s, q, w);
        assert false;
      }
    }
    if s.log != [] {
      assert s.log[0] in s.log;
    }
  }

  lemma WaitsReturnRight(s: State, actions: seq<Action>)
    requires Initial(s) && LegalRun(s, actions)
    ensures var t := Run(s, actions);
            t.phase.Done? ==> Returned(t, t.phase.timedOut, t.phase.code)
  {
    InitialInv(s);
    RunKeeps(s, actions);
    if Run(s, actions).phase.Done? {
      ReturnedIsRight(Run(s, actions));
    }
  }

  // ----- No event is missed

  // A wait that is registered with a handle either has been told of it, or is
  // linked to its event, and there is no signal there.
  ghost predicate Heard(s: State)
    requires WellFormed(s)
  {
    !s.phase.Cleaning? && !s.phase.Done? ==> forall i :: 0 <= i < s.registered && i < |s.handles| ==> HeardOf(s, i)
  }

  ghost predicate HeardOf(s: State, i: nat)
    requires WellFormed(s) && i < |s.handles|
  {
    Fired(s.log, i) || (Linked(s, i) && !EventAt(s, s.handles[i]).signalled)
  }

  // A section on an event without a signal tells every wait that it unlinks, and
  // every wait if it leaves a signal behind.
  ghost predicate Tells(before: Shared<Node, nat>, e: Shared<Node, nat>, calls: seq<Call<Node>>) {
    !before.signalled ==>
      forall w :: w in before.waits && w.node.Mine? ==>
        (w in e.waits && !e.signalled) || Call(w.node, false) in calls || Call(w.node, true) in calls
  }

  lemma SectionHeard(s: State, h: nat, e: Shared<Node, nat>, calls: seq<Call<Node>>, closed: set<nat>)
    requires Inv(s) && Heard(s) && h in s.eventOf && Tells(EventAt(s, h), e, calls)
    requires WellFormed(Changed(s, h, e, calls).(closed := closed))
    ensures Heard(Changed(s, h, e, calls).(closed := closed))
  {
    InvIsWellFormed(s);
    hide Inv, Feed, LogOf;
    var s' := Changed(s, h, e, calls).(closed := closed);
    LogOfCalls(calls);
    if !s.phase.Cleaning? && !s.phase.Done? {
      forall i | 0 <= i < s.registered && i < |s.handles| ensures HeardOf(s', i) {
        assert HeardOf(s, i) && s.handles[i] in s.handles;
        if Fired(s.log, i) {
          assert Fired(s'.log, i);
        } else if s.eventOf[s.handles[i]] == s.eventOf[h] {
          var w := Wait(Mine(i), s.handles[i]);
          assert w in EventAt(s, h).waits;
        }
      }
    }
  }

  lemma SetTells(e: Shared<Node, nat>)
    ensures var (e', calls) := SetEvent(e); Tells(e, e', calls)
  {
    var calls := Calls(e.waits, false);
    forall w | w in e.waits ensures Call(w.node, false) in calls {
      var i :| 0 <= i < |e.waits| && e.waits[i] == w;
      assert calls[i] == Call(w.node, false);
    }
  }

  lemma CloseTells(e: Shared<Node, nat>, h: nat, closing: bool)
    ensures var (e', calls) := OnCloseHandle(e, h, closing); Tells(e, e', calls)
  {
    OwnedMembers(e.waits, h);
    var mine := OwnedBy(e.waits, h);
    var calls := Calls(mine, true);
    forall w | w in mine ensures Call(w.node, true) in calls {
      var i :| 0 <= i < |mine| && mine[i] == w;
      assert calls[i] == Call(w.node, true);
    }
  }

  lemma OthersKeepHeard(s: State, a: Action)
    requires Inv(s) && Heard(s) && Legal(s, a) && !a.Advance? && WellFormed(Step(s, a))
    ensures Heard(Step(s, a))
  {
    hide Inv, SetEvent, OnCloseHandle;
    InvIsWellFormed(s);
    match a
    case Set(h) =>
      var (e, calls) := SetEvent(EventAt(s, h));
      SetTells(EventAt(s, h));
      SectionHeard(s, h, e, calls, s.closed);
    case Reset(h) =>
      SectionHeard(s, h, ResetEvent(EventAt(s, h)), [], s.closed);
    case Single(h) =>
      SectionHeard(s, h, SingleWait(EventAt(s, h), h in s.closed).0, [], s.closed);
    case Close(h) =>
      var (e, calls) := OnCloseHandle(EventAt(s, h), h, h in s.closed);
      CloseTells(EventAt(s, h), h, h in s.closed);
      SectionHeard(s, h, e, calls, s.closed + {h});
    case RegisterOther(h, id) =>
      var (e, calls) := RegisterWait(EventAt(s, h), Wait(Other(id), h), h in s.closed);
      SectionHeard(s, h, e, calls, s.closed);
    case UnregisterOther(h, id) =>
      InvIsDistinct(s, h);
      WithoutMembers(EventAt(s, h).waits, Other(id));
      SectionHeard(s, h, UnregisterWait(EventAt(s, h), Wait(Other(id), h)).0, [], s.closed);
    case Duplicate(h, copy) =>
      var s' := Step(s, a);
      forall i | 0 <= i < |s.handles| && HeardOf(s, i) ensures HeardOf(s', i) {
        assert s.handles[i] in s.handles && s.handles[i] != copy;
      }
  }

  lemma InvIsDistinct(s: State, h: nat)
    requires Inv(s) && h in s.eventOf
    ensures Distinct(EventAt(s, h).waits)
  {
  }

  lemma RegisterHeard(s: State, k: nat)
    requires Inv(s) && Heard(s) && s.phase == Registering(k) && WellFormed(Advanced(s, false))
    ensures Heard(Advanced(s, false))
  {
    InvIsWellFormed(s);
    hide Inv, Feed, LogOf;
    var s' := Advanced(s, false);
    var h := s.handles[k];
    assert h in s.handles;
    InvIsRegistering(s, k);
    var (e, calls) := RegisterWait(EventAt(s, h), Wait(Mine(k), h), h in s.closed);
    LogOfCalls(calls);
    SectionHeard(s, h, e, calls, s.closed);
    forall i | 0 <= i < s'.registered ensures HeardOf(s', i) {
      if i < k {
        assert HeardOf(Changed(s, h, e, calls).(closed := s.closed), i);
      } else if calls != [] {
        assert calls[0] in calls;
      }
    }
  }

  lemma InvIsRegistering(s: State, k: nat)
    requires Inv(s) && s.phase == Registering(k)
    ensures s.registered == k && WellFormed(s)
  {
  }

  lemma AdvanceKeepsHeard(s: State, timeout: bool)
    requires Inv(s) && Heard(s) && WellFormed(Advanced(s, timeout))
    ensures Heard(Advanced(s, timeout))
  {
    InvIsWellFormed(s);
    hide Inv;
    if s.phase.Registering? {
      RegisterHeard(s, s.phase.k);
    } else if !s.phase.Cleaning? && !s.phase.Done? {
      var s' := Advanced(s, timeout);
      assert forall i :: 0 <= i < |s.handles| && HeardOf(s, i) ==> HeardOf(s', i);
    }
  }

  lemma {:induction false} RunKeepsHeard(s: State, actions: seq<Action>)
    requires Inv(s) && Heard(s) && LegalRun(s, actions)
    ensures Inv(Run(s, actions)) && WellFormed(Run(s, actions)) && Heard(Run(s, actions))
    decreases |actions|
  {
    hide Inv, Heard, Advanced;
    InvIsWellFormed(s);
    if actions != [] {
      var a := actions[0];
      StepKeeps(s, a);
      InvIsWellFormed(Step(s, a));
      if a.Advance? {
        AdvanceKeepsHeard(s, a.timeout);
      } else {
        OthersKeepHeard(s, a);
      }
      RunKeepsHeard(Step(s, a), actions[1..]);
    }
  }

  // Over all runs: a wait that goes on waiting is registered with every handle.
  // A wait for any has been told of nothing, and is linked to an event without
  // a signal for each of them, none of which is closed; a wait for all lacks at
  // least one of which that is true.
  lemma NothingIsMissed(s: State, actions: seq<Action>)
    requires Initial(s) && LegalRun(s, actions)
    ensures var t := Run(s, actions);
            WellFormed(t) && (t.phase.Waiting? && !t.ctx.signalled ==>
              && t.registered == |t.handles|
              && (!t.ctx.waitAll ==> t.log == [] && forall i :: 0 <= i < |t.handles| ==> Quiet(t, i))
              && (t.handles != [] ==> exists i :: 0 <= i < |t.handles| && Quiet(t, i)))
  {
    hide Feed;
    InitialInv(s);
    RunKeepsHeard(s, actions);
    var t := Run(s, actions);
    if t.phase.Waiting? && !t.ctx.signalled {
      forall i | 0 <= i < |t.handles| && !Fired(t.log, i) ensures Quiet(t, i) {
        assert HeardOf(t, i) && t.handles[i] in t.handles;
        assert WaitOk(t, t.eventOf[t.handles[i]], Wait(Mine(i), t.handles[i]));
      }
      if t.handles != [] {
        if t.log == [] {
          assert !Fired(t.log, 0);
        } else {
          var i :| 0 <= i < |t.ctx.bits| && !t.ctx.bits[i];
          assert !Fired(t.log, i);
        }
      }
    }
  }

  // The wait has not been told of handle i, which is open, linked and unsignalled.
  ghost predicate Quiet(s: State, i: nat)
    requires WellFormed(s) && i < |s.handles|
  {
    !Fired(s.log, i) && !Gone(s, i) && Linked(s, i) && !EventAt(s, s.handles[i]).signalled
  }

  // A set of any of its events wakes a waiting wait for any, unless the event is
  // a synchronization event with another wait at the head of its list; and then
  // the wait ends without a timeout.
  lemma SetWakesTheWait(s: State, i: nat)
    requires Inv(s) && s.phase.Waiting? && !s.ctx.waitAll && !s.ctx.signalled && i < |s.handles| && Quiet(s, i)
    ensures s.handles[i] in s.eventOf
    ensures var before := EventAt(s, s.handles[i]);
            var s' := Step(s, Action.Set(s.handles[i]));
            && before.waits != []
            && (s'.ctx.signalled <==> before.notification || before.waits[0].node.Mine?)
            && (s'.ctx.signalled ==>
                  && WellFormed(s') && s'.log != [] && !CloseReported(s'.log)
                  && forall timeout :: Advanced(s', timeout).phase == Taking(false))
  {
    hide Feed, LogOf, SetEvent;
    var h := s.handles[i];
    assert h in s.handles;
    var (e, calls) := SetEvent(EventAt(s, h));
    SetCallsTheWait(s, i);
    SetIsFair(s, h);
    SectionKeeps(s, h, e, calls, s.closed);
    SectionLog(s, h, e, calls, s.closed);
    NoCallMeansNoLog(s);
    SignalledByAny(Step(s, Action.Set(h)), LogOf(calls));
  }

  lemma SignalledByAny(s: State, log: seq<Entry>)
    requires Inv(s) && !s.ctx.waitAll && s.log == [] + log && s.phase.Waiting?
    requires forall x :: x in log ==> !x.failed
    ensures s.ctx.signalled <==> log != []
    ensures !CloseReported(s.log)
    ensures s.ctx.signalled ==> forall timeout :: Advanced(s, timeout).phase == Taking(false)
  {
    assert s.log == log;
  }

  lemma SetCallsTheWait(s: State, i: nat)
    requires Inv(s) && i < |s.handles| && Quiet(s, i)
    ensures s.handles[i] in s.handles
    ensures var before := EventAt(s, s.handles[i]);
            var calls := SetEvent(before).1;
            && before.waits != []
            && (LogOf(calls) != [] <==> before.notification || before.waits[0].node.Mine?)
            && forall x :: x in LogOf(calls) ==> !x.failed
  {
    hide LogOf;
    assert s.handles[i] in s.handles;
    var before := EventAt(s, s.handles[i]);
    var calls := SetEvent(before).1;
    LogOfCalls(calls);
    if before.notification {
      SetTells(before);
      assert Call(Mine(i), false) in calls || Call(Mine(i), true) in calls;
    } else {
      assert calls == [Call(before.waits[0].node, false)];
      assert calls[0] in calls;
    }
  }

  lemma NoCallMeansNoLog(s: State)
    requires Inv(s) && !s.ctx.waitAll && !s.ctx.signalled
    ensures s.log == []
  {
  }

  // TIMEOUT is also the number of an event when there are more than 258 of
  // them; a wait for no more than that returns it exactly for a timeout.
  lemma TimeoutIsTimeout(s: State)
    requires Inv(s) && s.phase.Done?
    ensures s.phase.code == TIMEOUT <==>
            !CloseReported(s.log) && (s.phase.timedOut || (s.log != [] && s.log[0].index == TIMEOUT))
    ensures |s.handles| <= TIMEOUT ==> (s.phase.code == TIMEOUT <==> s.phase.timedOut && !CloseReported(s.log))
  {
    ReturnedIsRight(s);
    if s.log != [] {
      assert s.log[0] in s.log;
    }
  }

  // ----- What a timeout may have cost

  // Which of the handles are of synchronization events.
  ghost function SyncOf(s: State): (sync: seq<bool>)
    requires WellFormed(s)
    ensures |sync| == |s.handles|
  {
    seq(|s.handles|, i requires 0 <= i < |s.handles| => assert s.handles[i] in s.handles; !EventAt(s, s.handles[i]).notification)
  }

  // How many completions used up a signal.
  ghost function Used(sync: seq<bool>, log: seq<Entry>): nat {
    if log == [] then 0 else
      var e := log[|log| - 1];
      Used(sync, log[..|log| - 1]) + Count(!e.failed && e.index < |sync| && sync[e.index])
  }

  lemma {:induction false} UsedAppend(sync: seq<bool>, log: seq<Entry>, more: seq<Entry>, b: bool)
    requires forall e :: e in more ==> e.index < |sync| && sync[e.index] == b
    ensures Used(sync, log + more) == Used(sync, log) + if b then Successes(more) else 0
    decreases |more|
  {
    if more == [] {
      assert log + more == log;
    } else {
      assert more[0] in more;
      UsedAppend(sync, log + [more[0]], more[1..], b);
      assert log + more == log + [more[0]] + more[1..];
      assert (log + [more[0]])[..|log|] == log;
    }
  }

  lemma {:induction false} UsedIff(sync: seq<bool>, log: seq<Entry>)
    ensures Used(sync, log) > 0 <==> exists e :: e in log && !e.failed && e.index < |sync| && sync[e.index]
  {
    if log != [] {
      var front, last := log[..|log| - 1], log[|log| - 1];
      UsedIff(sync, front);
      assert forall e :: e in log <==> e in front || e == last;
    }
  }

  ghost predicate History(s: State)
    requires WellFormed(s)
  {
    && s.taken == Used(SyncOf(s), s.log)
    && (!s.ctx.waitAll ==>
          match s.phase
          case Taking(timedOut) => s.late <= |s.log| && (timedOut ==> s.late == |s.log|)
          case Cleaning(timedOut, _) => s.late <= |s.log| && (timedOut ==> s.late == |s.log|)
          case Done(timedOut, _) => s.late <= |s.log| && (timedOut ==> s.late == |s.log|)
          case _ => s.late == 0)
  }

  // A section that calls nodes of this wait only for handles of its own event.
  lemma SectionHistory(s: State, h: nat, e: Shared<Node, nat>, calls: seq<Call<Node>>)
    requires WellFormed(s) && History(s) && h in s.eventOf && e.notification == EventAt(s, h).notification
    requires forall x :: x in LogOf(calls) ==>
               x.index < |s.handles| && s.handles[x.index] in s.eventOf && s.eventOf[s.handles[x.index]] == s.eventOf[h]
    requires s.phase.Done? ==> LogOf(calls) == []
    requires Feed(s.ctx, LogOf(calls)).waitAll == s.ctx.waitAll && WellFormed(Changed(s, h, e, calls))
    ensures History(Changed(s, h, e, calls))
  {
    hide Feed, LogOf, Used, Successes;
    var s' := Changed(s, h, e, calls);
    assert SyncOf(s') == SyncOf(s) by {
      forall i | 0 <= i < |s.handles| ensures SyncOf(s')[i] == SyncOf(s)[i] {
        assert s.handles[i] in s.handles;
      }
    }
    UsedAppend(SyncOf(s), s.log, LogOf(calls), !e.notification);
  }

  lemma OthersHistory(s: State, h: nat, e: Shared<Node, nat>, calls: seq<Call<Node>>, closed: set<nat>)
    requires Inv(s) && History(s) && h in s.eventOf && Fair(s, h, e, calls, closed)
    requires e.notification == EventAt(s, h).notification
    ensures WellFormed(Changed(s, h, e, calls).(closed := closed))
    ensures History(Changed(s, h, e, calls).(closed := closed))
  {
    hide Records, ListsOk, PendingOk, History;
    SectionLog(s, h, e, calls, closed);
    SectionFacts(s, h, e, calls, closed);
    LogOfCalls(calls);
    forall x | x in LogOf(calls)
      ensures x.index < |s.handles| && s.eventOf[s.handles[x.index]] == s.eventOf[h]
    {
      assert Call(Mine(x.index), x.failed) in calls;
    }
    assert forall i :: 0 <= i < |s.handles| ==> s.handles[i] in s.handles;
    SectionHistory(s, h, e, calls);
    SameHistory(Changed(s, h, e, calls), Changed(s, h, e, calls).(closed := closed));
  }

  lemma SameHistory(s: State, s': State)
    requires WellFormed(s) && WellFormed(s') && History(s) && s' == s.(closed := s'.closed, eventOf := s'.eventOf)
    requires forall h :: h in s.handles ==> s'.eventOf[h] == s.eventOf[h]
    ensures History(s')
  {
    assert SyncOf(s') == SyncOf(s) by {
      forall i | 0 <= i < |s.handles| ensures SyncOf(s')[i] == SyncOf(s)[i] {
        assert s.handles[i] in s.handles;
      }
    }
  }

  lemma OthersKeepHistory(s: State, a: Action)
    requires Inv(s) && History(s) && Legal(s, a) && !a.Advance?
    ensures WellFormed(Step(s, a)) && History(Step(s, a))
  {
    hide Inv, Fair, History;
    InvIsWellFormed(s);
    match a
    case Set(h) =>
      var (e, calls) := SetEvent(EventAt(s, h));
      SetIsFair(s, h);
      OthersHistory(s, h, e, calls, s.closed);
    case Reset(h) =>
      QuietIsFair(s, h, ResetEvent(EventAt(s, h)));
      OthersHistory(s, h, ResetEvent(EventAt(s, h)), [], s.closed);
    case Single(h) =>
      var e := SingleWait(EventAt(s, h), h in s.closed).0;
      QuietIsFair(s, h, e);
      OthersHistory(s, h, e, [], s.closed);
    case Close(h) =>
      var (e, calls) := OnCloseHandle(EventAt(s, h), h, h in s.closed);
      CloseIsFair(s, h);
      OthersHistory(s, h, e, calls, s.closed + {h});
    case RegisterOther(h, id) =>
      var (e, calls) := RegisterWait(EventAt(s, h), Wait(Other(id), h), h in s.closed);
      RegisterOtherIsFair(s, h, id);
      OthersHistory(s, h, e, calls, s.closed);
    case UnregisterOther(h, id) =>
      UnregisterOtherIsFair(s, h, id);
      OthersHistory(s, h, UnregisterWait(EventAt(s, h), Wait(Other(id), h)).0, [], s.closed);
    case Duplicate(h, copy) =>
      SameHistory(s, Step(s, a));
  }

  lemma RegisterHistory(s: State, k: nat)
    requires Inv(s) && History(s) && s.phase == Registering(k) && WellFormed(Advanced(s, false))
    ensures History(Advanced(s, false))
  {
    hide Records, ListsOk, PendingOk, History, Feed, LogOf;
    var h := s.handles[k];
    assert h in s.handles;
    var (e, calls) := RegisterWait(EventAt(s, h), Wait(Mine(k), h), h in s.closed);
    LogOfCalls(calls);
    FeedRecords(s.ctx, |s.handles|, s.log, LogOf(calls));
    assert forall x :: x in LogOf(calls) ==> x.index == k;
    SectionHistory(s, h, e, calls);
    StillEarly(Changed(s, h, e, calls), Advanced(s, false));
  }

  lemma CleanHistory(s: State, timedOut: bool, todo: seq<nat>)
    requires Inv(s) && History(s) && s.phase == Cleaning(timedOut, todo) && todo != [] && WellFormed(Advanced(s, false))
    ensures History(Advanced(s, false))
  {
    hide Records, ListsOk, PendingOk;
    assert todo[0] in todo;
    var h := s.handles[todo[0]];
    assert h in s.handles;
    var e := UnregisterWait(EventAt(s, h), Wait(Mine(todo[0]), h)).0;
    assert LogOf([]) == [] && Feed(s.ctx, []) == s.ctx;
    SectionHistory(s, h, e, []);
    assert SyncOf(Advanced(s, false)) == SyncOf(Changed(s, h, e, []));
  }

  // Before the wait is over its phase says nothing about its history.
  lemma StillEarly(s: State, s': State)
    requires WellFormed(s) && WellFormed(s') && History(s) && s' == s.(phase := s'.phase, registered := s'.registered)
    requires !s.phase.Taking? && !s.phase.Cleaning? && !s.phase.Done?
    requires !s'.phase.Taking? && !s'.phase.Cleaning? && !s'.phase.Done?
    ensures History(s')
  {
    assert SyncOf(s') == SyncOf(s);
  }

  lemma AdvanceKeepsHistory(s: State, timeout: bool)
    requires Inv(s) && History(s) && WellFormed(Advanced(s, timeout))
    ensures History(Advanced(s, timeout))
  {
    hide ListsOk, PendingOk, Linked;
    if s.phase.Registering? {
      RegisterHistory(s, s.phase.k);
    } else if s.phase.Cleaning? && s.phase.todo != [] {
      CleanHistory(s, s.phase.timedOut, s.phase.todo);
    } else {
      assert SyncOf(Advanced(s, timeout)) == SyncOf(s);
    }
  }

  lemma {:induction false} RunKeepsHistory(s: State, actions: seq<Action>)
    requires Inv(s) && History(s) && LegalRun(s, actions)
    ensures Inv(Run(s, actions)) && History(Run(s, actions))
    decreases |actions|
  {
    hide Inv, History;
    RunKeeps(s, actions);
    if actions != [] {
      var a := actions[0];
      StepKeeps(s, a);
      InvIsWellFormed(Step(s, a));
      if a.Advance? {
        AdvanceKeepsHistory(s, a.timeout);
      } else {
        OthersKeepHistory(s, a);
      }
      RunKeepsHistory(Step(s, a), actions[1..]);
    }
  }

  lemma InitialHistory(s: State)
    requires Initial(s)
    ensures History(s)
  {
  }

  // What a wait that reports a timeout has used up: the signals of exactly those
  // handles of synchronization events that completed. In a wait for any these
  // are the completions called after the timeout and before the registration
  // was undone; in a wait for all they may have come at any time.
  lemma TimeoutTakesSignals(s: State, actions: seq<Action>)
    requires Initial(s) && LegalRun(s, actions)
    ensures var t := Run(s, actions);
            WellFormed(t) && (t.phase.Done? && t.phase.timedOut && t.phase.code == TIMEOUT ==>
              && t.taken == Used(SyncOf(t), t.log)
              && (t.taken > 0 <==> exists e :: e in t.log && e.index < |t.handles| && SyncOf(t)[e.index])
              && (!t.ctx.waitAll ==> |t.log| == t.late))
  {
    hide Inv, Records, SyncOf, Used;
    var t := Run(s, actions);
    InitialInv(s);
    InitialHistory(s);
    RunKeepsHistory(s, actions);
    InvIsWellFormed(t);
    UsedIff(SyncOf(t), t.log);
    if t.phase.Done? && t.phase.timedOut && t.phase.code == TIMEOUT {
      ReturnedIsRight(t);
    }
  }

  // No signal is given back: a wait that has timed out undoes its registrations
  // and leaves every signal as it is.
  lemma {:induction false} NothingIsGivenBack(s: State, todo: seq<nat>) returns (actions: seq<Action>)
    requires Inv(s) && s.phase == Cleaning(true, todo) && !CloseReported(s.log)
    ensures LegalRun(s, actions)
    ensures var t := Run(s, actions);
            && t.phase == Done(true, TIMEOUT) && t.log == s.log && t.taken == s.taken && t.events.Keys == s.events.Keys
            && forall q :: q in s.events ==> t.events[q].signalled == s.events[q].signalled
    decreases |todo|
  {
    hide Inv, Records;
    var go := Advance(false);
    InvIsWellFormed(s);
    CleanKeeps(s, true, todo);
    var s' := Step(s, go);
    InvIsWellFormed(s');
    if todo == [] {
      CodeIsTimeout(s);
      actions := [];
      RunOne(s, go, actions);
    } else {
      UndoIsQuiet(s, todo);
      actions := NothingIsGivenBack(s', todo[1..]);
      RunOne(s, go, actions);
    }
    actions := [go] + actions;
  }

  lemma CodeIsTimeout(s: State)
    requires Inv(s) && !CloseReported(s.log)
    ensures ResultCode(s.ctx, true) == TIMEOUT
  {
  }

  lemma UndoIsQuiet(s: State, todo: seq<nat>)
    requires WellFormed(s) && s.phase == Cleaning(true, todo) && todo != []
    ensures var s' := Advanced(s, false);
            && s'.phase == Cleaning(true, todo[1..]) && s'.log == s.log && s'.taken == s.taken
            && s'.events.Keys == s.events.Keys
            && forall q :: q in s.events ==> s'.events[q].signalled == s.events[q].signalled
  {
    assert todo[0] in todo && s.handles[todo[0]] in s.handles;
    assert LogOf([]) == [];
  }

  lemma RunOne(s: State, a: Action, rest: seq<Action>)
    requires Legal(s, a) && LegalRun(Step(s, a), rest)
    ensures LegalRun(s, [a] + rest) && Run(s, [a] + rest) == Run(Step(s, a), rest)
  {
    assert ([a] + rest)[1..] == rest;
  }

  function OneEvent(e: Shared<Node, nat>, phase: Phase, pending: bool, fired: bool, registered: nat): State {
    State([0], map[0 := 0], map[0 := e], {},
          Context(false, [pending], [fired], if fired then 0 else 1, fired, false), phase, false, registered,
          if fired then [Entry(0, false)] else [], Count(fired), Count(fired))
  }

  lemma OneEventSection(e: Shared<Node, nat>, e': Shared<Node, nat>, calls: seq<Call<Node>>, phase: Phase, pending: bool,
                        fired: bool, registered: nat)
    requires calls == []
    ensures Changed(OneEvent(e, phase, pending, fired, registered), 0, e', calls)
         == OneEvent(e', phase, pending, fired, registered)
  {
    assert LogOf(calls) == [];
    assert map[0 as nat := e][0 := e'] == map[0 := e'];
  }

  lemma RegisterStep(empty: Shared<Node, nat>, linked: Shared<Node, nat>)
    requires empty == Shared(false, false, []) && linked == Shared(false, false, [Wait(Mine(0), 0)])
    ensures Advanced(OneEvent(empty, Registering(0), false, false, 0), false) == OneEvent(linked, Marking(0), false, false, 1)
  {
    assert empty.waits + [Wait(Mine(0), 0)] == linked.waits;
    assert RegisterWait(empty, Wait(Mine(0), 0), false) == (linked, []);
    OneEventSection(empty, linked, [], Registering(0), false, false, 0);
  }

  lemma SetStep(linked: Shared<Node, nat>)
    requires linked == Shared(false, false, [Wait(Mine(0), 0)])
    ensures var (e, calls) := SetEvent(linked);
            Changed(OneEvent(linked, Taking(true), true, false, 1), 0, e, calls) == OneEvent(linked, Taking(true), true, true, 1)
  {
    var calls := Calls(linked.waits[..1], false);
    assert calls == [Call(Mine(0), false)] && calls[1..] == [];
    assert LogOf(calls) == [Entry(0, false)] && LogOf(calls)[1..] == [];
    assert OneEvent(linked, Taking(true), true, false, 1).events[0 := linked] == map[0 := linked];
  }

  lemma CleanStep(empty: Shared<Node, nat>, linked: Shared<Node, nat>)
    requires empty == Shared(false, false, []) && linked == Shared(false, false, [Wait(Mine(0), 0)])
    ensures Advanced(OneEvent(linked, Cleaning(true, [0]), false, true, 1), false)
         == OneEvent(empty, Cleaning(true, []), false, true, 1)
  {
    assert Without(linked.waits, Mine(0)) == empty.waits;
    assert UnregisterWait(linked, Wait(Mine(0), 0)) == (empty, true);
    assert [0 as nat][1..] == [];
    OneEventSection(linked, empty, [], Cleaning(true, [0]), false, true, 1);
  }

  lemma TakeStep(linked: Shared<Node, nat>)
    requires linked == Shared(false, false, [Wait(Mine(0), 0)])
    ensures Advanced(OneEvent(linked, Taking(true), true, true, 1), false)
         == OneEvent(linked, Cleaning(true, [0]), false, true, 1)
  {
    assert Indices([true]) == [0];
  }

  lemma OneEventInitial(empty: Shared<Node, nat>)
    requires empty == Shared(false, false, [])
    ensures Initial(OneEvent(empty, Registering(0), false, false, 0))
  {
    assert NewContext(false, 1) == OneEvent(empty, Registering(0), false, false, 0).ctx;
  }

  // A wait that reports a timeout may have taken a signal all the same: the
  // signal came after the timeout and before the registration was undone.
  lemma TimeoutMayTakeASignal() returns (s: State, actions: seq<Action>)
    ensures Initial(s) && LegalRun(s, actions) && Action.Set(0) in actions
    ensures var t := Run(s, actions);
            && t.phase == Done(true, TIMEOUT) && t.log == [Entry(0, false)] && t.late == t.taken == 1
            && t.events == map[0 := Shared(false, false, [])]
  {
    hide Feed, LogOf, Indices, Initial, RegisterWait, Registered, Run, LegalRun;
    var empty: Shared<Node, nat> := Shared(false, false, []);
    var linked: Shared<Node, nat> := Shared(false, false, [Wait(Mine(0), 0)]);
    var go := Advance(false);
    s := OneEvent(empty, Registering(0), false, false, 0);
    var s1 := OneEvent(linked, Marking(0), false, false, 1);
    var s2 := OneEvent(linked, Checking(0), true, false, 1);
    var rest := [Advance(true), Action.Set(0), go, go, go];
    SignalAfterTimeout(empty, linked);
    RegisterStep(empty, linked);
    assert Step(s1, go) == s2;
    RunOne(s2, go, rest);
    RunOne(s1, go, [go] + rest);
    RunOne(s, go, [go] + ([go] + rest));
    actions := [go] + ([go] + ([go] + rest));
    assert rest[1] == Action.Set(0);
    assert actions == [go, go, go] + rest;
    OneEventInitial(empty);
  }

  lemma SignalAfterTimeout(empty: Shared<Node, nat>, linked: Shared<Node, nat>)
    requires empty == Shared(false, false, []) && linked == Shared(false, false, [Wait(Mine(0), 0)])
    ensures var s := OneEvent(linked, Waiting, true, false, 1);
            var actions := [Advance(true), Action.Set(0), Advance(false), Advance(false), Advance(false)];
            LegalRun(s, actions) && Run(s, actions) == OneEvent(empty, Done(true, TIMEOUT), false, true, 1)
  {
    hide Feed, LogOf, Indices, RegisterWait, Registered, Run, LegalRun;
    var set0, go := Action.Set(0), Advance(false);
    SetStep(linked);
    UndoAfterSignal(empty, linked);
    RunOne(OneEvent(linked, Taking(true), true, false, 1), set0, [go, go, go]);
    RunOne(OneEvent(linked, Waiting, true, false, 1), Advance(true), [set0] + [go, go, go]);
    assert [Advance(true)] + ([set0] + [go, go, go]) == [Advance(true), set0, go, go, go];
  }

  lemma UndoAfterSignal(empty: Shared<Node, nat>, linked: Shared<Node, nat>)
    requires empty == Shared(false, false, []) && linked == Shared(false, false, [Wait(Mine(0), 0)])
    ensures var s := OneEvent(linked, Taking(true), true, true, 1);
            var actions := [Advance(false), Advance(false), Advance(false)];
            LegalRun(s, actions) && Run(s, actions) == OneEvent(empty, Done(true, TIMEOUT), false, true, 1)
  {
    hide Feed, LogOf, Indices, RegisterWait, Registered;
    var go := Advance(false);
    TakeStep(linked);
    CleanStep(empty, linked);
    RunOne(OneEvent(empty, Cleaning(true, []), false, true, 1), go, []);
    RunOne(OneEvent(linked, Cleaning(true, [0]), false, true, 1), go, [go] + []);
    RunOne(OneEvent(linked, Taking(true), true, true, 1), go, [go] + ([go] + []));
    assert [go] + ([go] + ([go] + [])) == [go, go, go];
  }

  // A wait for all of two synchronization events, one of them fired.
  function TwoEvents(first: Shared<Node, nat>, second: Shared<Node, nat>, phase: Phase, pending: seq<bool>,
                     fired: bool, registered: nat): State {
    State([0, 1], map[0 := 0, 1 := 1], map[0 := first, 1 := second], {},
          Context(true, pending, [fired, false], if fired then 0 else 2, false, false), phase, false, registered,
          if fired then [Entry(0, false)] else [], 0, Count(fired))
  }

  lemma RegisterFirst(first: Shared<Node, nat>, second: Shared<Node, nat>)
    requires first == Shared(false, true, []) && second == Shared(false, false, [])
    ensures Advanced(TwoEvents(first, second, Registering(0), [false, false], false, 0), false)
         == TwoEvents(Shared(false, false, [Wait(Mine(0), 0)]), second, Marking(0), [false, false], true, 1)
  {
    var s := TwoEvents(first, second, Registering(0), [false, false], false, 0);
    var calls := [Call(Mine(0), false)];
    var linked := Shared(false, false, [Wait(Mine(0), 0)]);
    assert RegisterWait(first, Wait(Mine(0), 0), false) == (linked, calls) by {
      assert first.waits + [Wait(Mine(0), 0)] == linked.waits;
    }
    assert calls[1..] == [] && LogOf(calls) == [Entry(0, false)] && LogOf(calls)[1..] == [];
    assert s.events[0 := linked] == map[0 := linked, 1 := second];
    var c := AfterSignal(s.ctx, 0, false);
    assert c.bits == [true, false] && !c.bits[1];
    assert !AllSet(c.bits);
    var log := [Entry(0, false)];
    assert log[1..] == [] && Successes(log[1..]) == 0;
    assert Feed(s.ctx, log) == c && Successes(log) == 1;
  }

  lemma RegisterSecond(first: Shared<Node, nat>, second: Shared<Node, nat>)
    requires second == Shared(false, false, [])
    ensures Advanced(TwoEvents(first, second, Registering(1), [true, false], true, 1), false)
         == TwoEvents(first, Shared(false, false, [Wait(Mine(1), 1)]), Marking(1), [true, false], true, 2)
  {
    var s := TwoEvents(first, second, Registering(1), [true, false], true, 1);
    var linked := Shared(false, false, [Wait(Mine(1), 1)]);
    assert RegisterWait(second, Wait(Mine(1), 1), false) == (linked, []) by {
      assert second.waits + [Wait(Mine(1), 1)] == linked.waits;
    }
    assert LogOf([]) == [] && s.log + [] == s.log;
    assert s.events[1 := linked] == map[0 := first, 1 := linked];
  }

  lemma TwoEventsMoveOn(first: Shared<Node, nat>, second: Shared<Node, nat>)
    ensures Advanced(TwoEvents(first, second, Marking(0), [false, false], true, 1), false)
         == TwoEvents(first, second, Checking(0), [true, false], true, 1)
    ensures Advanced(TwoEvents(first, second, Checking(0), [true, false], true, 1), false)
         == TwoEvents(first, second, Registering(1), [true, false], true, 1)
    ensures Advanced(TwoEvents(first, second, Marking(1), [true, false], true, 2), false)
         == TwoEvents(first, second, Checking(1), [true, true], true, 2)
    ensures Advanced(TwoEvents(first, second, Checking(1), [true, true], true, 2), false)
         == TwoEvents(first, second, Waiting, [true, true], true, 2)
    ensures Advanced(TwoEvents(first, second, Waiting, [true, true], true, 2), true)
         == TwoEvents(first, second, Taking(true), [true, true], true, 2)
    ensures Advanced(TwoEvents(first, second, Taking(true), [true, true], true, 2), false)
         == TwoEvents(first, second, Cleaning(true, [0, 1]), [false, false], true, 2)
  {
    assert [false, false][0 := true] == [true, false] && [true, false][1 := true] == [true, true];
    assert [true][..0] == [] && [true, true][..1] == [true];
    assert Indices([true]) == [0];
    assert Indices([true, true]) == [0, 1];
    assert seq(2, _ => false) == [false, false];
  }

  lemma TwoEventsInitial(first: Shared<Node, nat>, second: Shared<Node, nat>)
    requires first == Shared(false, true, []) && second == Shared(false, false, [])
    ensures Initial(TwoEvents(first, second, Registering(0), [false, false], false, 0))
  {
    assert NewContext(true, 2) == TwoEvents(first, second, Registering(0), [false, false], false, 0).ctx;
  }

  // A run that ends in the timeout, from its last step but the undoing back.
  lemma WaitForAllRun(first: Shared<Node, nat>, second: Shared<Node, nat>) returns (s: State, actions: seq<Action>)
    requires first == Shared(false, true, []) && second == Shared(false, false, [])
    ensures s == TwoEvents(first, second, Registering(0), [false, false], false, 0) && LegalRun(s, actions)
    ensures var linked0 := Shared(false, false, [Wait(Mine(0), 0)]);
            var linked1 := Shared(false, false, [Wait(Mine(1), 1)]);
            Run(s, actions) == TwoEvents(linked0, linked1, Cleaning(true, [0, 1]), [false, false], true, 2)
  {
    hide Advanced, Run, LegalRun;
    var go := Advance(false);
    var a: Shared<Node, nat> := Shared(false, false, [Wait(Mine(0), 0)]);
    var b: Shared<Node, nat> := Shared(false, false, [Wait(Mine(1), 1)]);
    s := TwoEvents(first, second, Registering(0), [false, false], false, 0);
    RegisterFirst(first, second);
    RegisterSecond(a, second);
    TwoEventsMoveOn(a, second);
    TwoEventsMoveOn(a, b);
    NoMore(TwoEvents(a, b, Cleaning(true, [0, 1]), [false, false], true, 2));
    RunOne(TwoEvents(a, b, Taking(true), [true, true], true, 2), go, []);
    actions := [go] + [];
    RunOne(TwoEvents(a, b, Waiting, [true, true], true, 2), Advance(true), actions);
    actions := [Advance(true)] + actions;
    RunOne(TwoEvents(a, b, Checking(1), [true, true], true, 2), go, actions);
    actions := [go] + actions;
    RunOne(TwoEvents(a, b, Marking(1), [true, false], true, 2), go, actions);
    actions := [go] + actions;
    RunOne(TwoEvents(a, second, Registering(1), [true, false], true, 1), go, actions);
    actions := [go] + actions;
    RunOne(TwoEvents(a, second, Checking(0), [true, false], true, 1), go, actions);
    actions := [go] + actions;
    RunOne(TwoEvents(a, second, Marking(0), [false, false], true, 1), go, actions);
    actions := [go] + actions;
    RunOne(s, go, actions);
    actions := [go] + actions;
  }

  lemma NoMore(s: State)
    ensures LegalRun(s, []) && Run(s, []) == s
  {
  }

  lemma {:induction false} RunMore(s: State, actions: seq<Action>, more: seq<Action>)
    requires LegalRun(s, actions) && LegalRun(Run(s, actions), more)
    ensures LegalRun(s, actions + more) && Run(s, actions + more) == Run(Run(s, actions), more)
    decreases |actions|
  {
    if actions == [] {
      assert actions + more == more;
    } else {
      RunMore(Step(s, actions[0]), actions[1..], more);
      assert (actions + more)[1..] == actions[1..] + more;
    }
  }

  // A wait for all that times out keeps the signal of the event that did fire:
  // the event is left without it, and the wait reports nothing but TIMEOUT.
  lemma TimeoutOfAllTakesASignal() returns (s: State, actions: seq<Action>)
    ensures Initial(s) && s.ctx.waitAll && LegalRun(s, actions)
    ensures 0 in s.events && s.events[0] == Shared(false, true, [])
    ensures var t := Run(s, actions);
            t.phase == Done(true, TIMEOUT) && t.log == [Entry(0, false)] && t.taken == 1 && 0 in t.events && !t.events[0].signalled
  {
    hide Initial, Inv, Run, LegalRun;
    var first: Shared<Node, nat> := Shared(false, true, []);
    var second: Shared<Node, nat> := Shared(false, false, []);
    s, actions := WaitForAllRun(first, second);
    TwoEventsInitial(first, second);
    InitialInv(s);
    RunKeeps(s, actions);
    var t := Run(s, actions);
    var undo := NothingIsGivenBack(t, [0, 1]);
    RunMore(s, actions, undo);
    actions := actions + undo;
  }
}
