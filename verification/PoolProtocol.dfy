/** Submitters and workers racing for the pool's workers and tasks: every section
    of Run, of a worker's hand-back and of an expiry sweep is one step. */
module PoolProtocol {
  import opened ThreadPool
  import opened Wrappers

  // Where a submitter is. With `dequeued` it has taken its own task, and
  // otherwise a worker has.
  datatype Pc =
    | Looping
    | Popping
    | Parked                  // waits for a free worker, or for the pool to stop
    | Reserving
    | Reserved                // has a slot
    | Starting                // has a slot and its task
    | Listed(worker: nat)     // its new worker is listed, and not started
    | Failed(worker: nat)     // ... and could not be started
    | Releasing(dequeued: bool)
    | Rejecting
    | Holding(worker: nat)    // has popped an unused worker
    | Invoking(worker: nat)   // ... and its task
    | Returning(worker: nat, dequeued: bool)
    | Done(dequeued: bool)
  {
    function Holds(): Option<nat> {
      match this
      case Listed(w) => Some(w)
      case Failed(w) => Some(w)
      case Holding(w) => Some(w)
      case Invoking(w) => Some(w)
      case Returning(w, _) => Some(w)
      case _ => None
    }

    predicate HasSlot() {
      Reserved? || Starting? || Listed? || Failed? || Releasing?
    }

    // The task may still be in the queue.
    predicate Undecided() {
      Looping? || Popping? || Parked? || Reserving? || Reserved? || Rejecting? || Holding?
    }
  }

  // A call of Run (`wait`) or TryRun. It makes one task, known by its number.
  datatype Submitter = Submitter(wait: bool, pc: Pc, handle: bool)

  // `started` is every task whose callback was handed to a worker, in order;
  // `slots` and `listed` are the submitters with a slot, and those of them whose
  // worker is listed.
  datatype State = State(lists: Lists, maxThreads: nat, failMode: bool, subs: map<nat, Submitter>,
                         busy: map<nat, nat>, next: nat, started: seq<nat>, slots: set<nat>, listed: set<nat>)

  // `ok`: a thread starts, a worker takes the call, a parked caller is woken by
  // a free worker and not by the stop.
  datatype Action =
    | Submit(task: nat, wait: bool)
    | Go(task: nat, ok: bool, sweep: bool, expired: set<nat>)
    | Finish(worker: nat, locked: bool)
    | Sweep(expired: set<nat>, caller: Option<nat>)
    | SetStopping

  predicate Legal(s: State, a: Action) {
    match a
    case Submit(task, _) => task !in s.subs
    case Go(task, ok, _, _) => task in s.subs && (s.subs[task].pc.Parked? && !ok ==> s.lists.stopping)
    case Finish(worker, _) => worker in s.busy
    case Sweep(_, _) => true
    case SetStopping => true
  }

  function At(s: State, t: nat, pc: Pc): State
    requires t in s.subs
  {
    s.(subs := s.subs[t := s.subs[t].(pc := pc)])
  }

  // The callback of t starts on a worker.
  function Start(s: State, t: nat, w: nat): State
    requires t in s.subs
  {
    s.(subs := s.subs[t := s.subs[t].(handle := true)], busy := s.busy[w := t], started := s.started + [t])
  }

  function Advance(s: State, t: nat, ok: bool, sweep: bool, expired: set<nat>): State
    requires t in s.subs
  {
    var wait := s.subs[t].wait;
    match s.subs[t].pc
    case Looping => At(s, t, if s.lists.stopping then Rejecting else Popping)
    case Popping =>
      var (l, w, n) := AfterPop(s.lists, sweep && wait, expired);
      At(s.(lists := l), t,
         if w.Some? then Holding(w.value)
         else if n < s.maxThreads then Reserving
         else if s.failMode || !wait then Rejecting
         else Parked)
    case Parked => At(s, t, if ok then Looping else Done(true))
    case Reserving =>
      var (l, reserved) := Reserve(s.lists, s.maxThreads);
      if reserved then At(s.(lists := l, slots := s.slots + {t}), t, Reserved)
      else At(s, t, if s.failMode || !wait then Rejecting else Looping)
    case Reserved =>
      var (l, dequeued) := Dequeue(s.lists, t);
      At(s.(lists := l), t, if dequeued then Starting else Releasing(false))
    case Starting =>
      At(s.(lists := s.lists.(all := s.lists.all + [s.next]), next := s.next + 1, listed := s.listed + {t}),
         t, Listed(s.next))
    case Listed(w) =>
      if ok then At(Start(s, t, w), t, Releasing(true)) else At(s, t, Failed(w))
    case Failed(w) =>
      At(s.(lists := s.lists.(all := Without(s.lists.all, w)), listed := s.listed - {t}), t, Releasing(true))
    case Releasing(dequeued) =>
      At(s.(lists := s.lists.(creating := if s.lists.creating > 0 then s.lists.creating - 1 else 0),
            slots := s.slots - {t}, listed := s.listed - {t}),
         t, Done(dequeued))
    case Rejecting =>
      var (l, dequeued) := Dequeue(s.lists, t);
      At(s.(lists := l), t, Done(dequeued))
    case Holding(w) =>
      var (l, dequeued) := Dequeue(s.lists, t);
      At(s.(lists := l), t, if dequeued then Invoking(w) else Returning(w, false))
    case Invoking(w) =>
      if ok then At(Start(s, t, w), t, Done(true)) else At(s, t, Returning(w, true))
    case Returning(w, dequeued) =>
      At(s.(lists := s.lists.(unused := s.lists.unused + [w])), t, Done(dequeued))
    case Done(_) => s
  }

  function Step(s: State, a: Action): State
    requires Legal(s, a)
  {
    match a
    case Submit(task, wait) =>
      s.(subs := s.subs[task := Submitter(wait, Looping, false)], lists := s.lists.(tasks := s.lists.tasks + [task]))
    case Go(task, ok, sweep, expired) => Advance(s, task, ok, sweep, expired)
    case Finish(worker, locked) =>
      var (l, task) := AfterFree(s.lists, worker, s.failMode && locked);
      if task.Some? && task.value in s.subs then Start(s.(lists := l), task.value, worker)
      else s.(lists := l, busy := s.busy - {worker})
    case Sweep(expired, caller) => s.(lists := StopExpired(s.lists, expired, caller))
    case SetStopping => s.(lists := s.lists.(stopping := true))
  }

  ghost predicate LegalRun(s: State, actions: seq<Action>)
    decreases |actions|
  {
    actions != [] ==> Legal(s, actions[0]) && LegalRun(Step(s, actions[0]), actions[1..])
  }

  function Run(s: State, actions: seq<Action>): State
    requires LegalRun(s, actions)
    decreases |actions|
  {
    if actions == [] then s else Run(Step(s, actions[0]), actions[1..])
  }

  function Empty(maxThreads: nat, failMode: bool): State {
    State(Lists([], [], 0, false, []), maxThreads, failMode, map[], map[], 0, [], {}, {})
  }

  // ----- What every run keeps

  // A listed worker is unused, busy, or held by one submitter.
  ghost predicate WorkersOk(all: seq<nat>, unused: seq<nat>, busy: set<nat>, subs: map<nat, Submitter>, next: nat) {
    && Distinct(all) && Distinct(unused)
    && (forall w :: w in all ==> w < next)
    && (forall w :: w in unused ==> w in all && w !in busy)
    && (forall w :: w in busy ==> w in all)
    && (forall t :: t in subs && subs[t].pc.Holds().Some? ==>
          var w := subs[t].pc.Holds().value; w in all && w !in unused && w !in busy)
    && (forall t, u :: t in subs && u in subs && t != u && subs[t].pc.Holds().Some? ==>
          subs[t].pc.Holds() != subs[u].pc.Holds())
  }

  // Workers there are, and slots for workers to come, are within the limit.
  ghost predicate SlotsOk(workers: nat, creating: nat, maxThreads: nat, subs: map<nat, Submitter>,
                          slots: set<nat>, listed: set<nat>) {
    && (forall t :: t in slots <==> t in subs && subs[t].pc.HasSlot())
    && (forall t :: t in listed ==> t in slots && !subs[t].pc.Reserved? && !subs[t].pc.Starting?)
    && (forall t :: t in subs && (subs[t].pc.Listed? || subs[t].pc.Failed?) ==> t in listed)
    && creating == |slots|
    && workers + |slots| - |listed| <= maxThreads
  }

  ghost predicate TaskOk(t: nat, sub: Submitter, queued: bool, failMode: bool) {
    match sub.pc
    case Starting => !queued && !sub.handle
    case Listed(_) => !queued && !sub.handle
    case Failed(_) => !queued && !sub.handle
    case Invoking(_) => !queued && !sub.handle
    case Releasing(dequeued) => !queued && (!dequeued ==> sub.handle)
    case Returning(_, dequeued) => !queued && (dequeued <==> !sub.handle)
    case Done(dequeued) => (queued ==> dequeued && !failMode && !sub.handle) && (!dequeued ==> sub.handle)
    case Parked => queued && !sub.handle && !failMode && sub.wait
    case _ => queued <==> !sub.handle
  }

  // A task is queued, or decided; it starts at most once, and has a handle
  // exactly when it has started.
  ghost predicate TasksOk(tasks: seq<nat>, subs: map<nat, Submitter>, started: seq<nat>, failMode: bool) {
    && Distinct(tasks) && Distinct(started)
    && (forall t :: t in tasks ==> t in subs)
    && (forall t :: t in started ==> t in subs)
    && (forall t :: t in subs ==> TaskOk(t, subs[t], t in tasks, failMode) && (subs[t].handle <==> t in started))
    && (!failMode ==> forall t :: t in subs && subs[t].pc.Undecided() ==> t in tasks)
  }

  ghost predicate Inv(s: State) {
    && WorkersOk(s.lists.all, s.lists.unused, s.busy.Keys, s.subs, s.next)
    && SlotsOk(|s.lists.all|, s.lists.creating, s.maxThreads, s.subs, s.slots, s.listed)
    && TasksOk(s.lists.tasks, s.subs, s.started, s.failMode)
  }

  // ----- Workers

  // A submitter moves on and holds what it held, or nothing.
  lemma MoveWorkers(s: State, t: nat, pc: Pc)
    requires Inv(s) && t in s.subs && (pc.Holds() == None || pc.Holds() == s.subs[t].pc.Holds())
    ensures WorkersOk(s.lists.all, s.lists.unused, s.busy.Keys, At(s, t, pc).subs, s.next)
  {
    hide SlotsOk, TasksOk;
  }

  lemma SweepWorkers(l: Lists, expired: set<nat>, caller: Option<nat>, busy: set<nat>, subs: map<nat, Submitter>, next: nat)
    requires WorkersOk(l.all, l.unused, busy, subs, next)
    ensures var l' := StopExpired(l, expired, caller);
            && WorkersOk(l'.all, l'.unused, busy, subs, next) && |l'.all| <= |l.all|
            && (forall w :: w in l'.unused ==> w in l.unused)
  {
    var out := if caller.Some? then expired - {caller.value} else expired;
    MinusIs(l.unused, out);
    MinusIs(l.all, out * Members(l.unused));
  }

  lemma PopWorkers(s: State, t: nat, sweep: bool, expired: set<nat>)
    requires Inv(s) && t in s.subs && s.subs[t].pc.Popping?
    ensures var s' := Advance(s, t, false, sweep, expired);
            && WorkersOk(s'.lists.all, s'.lists.unused, s'.busy.Keys, s'.subs, s'.next)
            && |s'.lists.all| <= |s.lists.all|
  {
    hide SlotsOk, TasksOk;
    if s.lists.unused == [] {
      MoveWorkers(s, t, Advance(s, t, false, sweep, expired).subs[t].pc);
    } else {
      var w := s.lists.unused[0];
      var l := s.lists.(unused := s.lists.unused[1..]);
      var subs := At(s, t, Holding(w)).subs;
      assert w in s.lists.unused;
      assert WorkersOk(l.all, l.unused, s.busy.Keys, subs, s.next);
      SweepWorkers(l, expired, None, s.busy.Keys, subs, s.next);
    }
  }

  lemma StartWorkers(s: State, t: nat, w: nat, pc: Pc)
    requires Inv(s) && t in s.subs && s.subs[t].pc.Holds() == Some(w) && pc.Holds() == None
    ensures var s' := At(Start(s, t, w), t, pc);
            WorkersOk(s.lists.all, s.lists.unused, s'.busy.Keys, s'.subs, s.next)
  {
    hide SlotsOk, TasksOk;
    var s' := At(Start(s, t, w), t, pc);
    assert s'.busy.Keys == s.busy.Keys + {w};
  }

  lemma AdvanceWorkers(s: State, t: nat, ok: bool, sweep: bool, expired: set<nat>)
    requires Inv(s) && t in s.subs
    ensures var s' := Advance(s, t, ok, sweep, expired);
            WorkersOk(s'.lists.all, s'.lists.unused, s'.busy.Keys, s'.subs, s'.next)
  {
    hide WorkersOk, SlotsOk, TasksOk;
    var s' := Advance(s, t, ok, sweep, expired);
    match s.subs[t].pc
    case Popping => PopWorkers(s, t, sweep, expired);
    case Starting => ListWorkers(s, t);
    case Failed(w) => UnlistWorkers(s, t, w);
    case Returning(w, dequeued) => ReturnWorkers(s, t, w, dequeued);
    case Listed(w) => if ok { StartWorkers(s, t, w, Releasing(true)); } else { MoveWorkers(s, t, Failed(w)); }
    case Invoking(w) => if ok { StartWorkers(s, t, w, Done(true)); } else { MoveWorkers(s, t, Returning(w, true)); }
    case _ => MoveWorkers(s, t, s'.subs[t].pc);
  }

  lemma ListWorkers(s: State, t: nat)
    requires Inv(s) && t in s.subs && s.subs[t].pc.Starting?
    ensures WorkersOk(s.lists.all + [s.next], s.lists.unused, s.busy.Keys, At(s, t, Listed(s.next)).subs, s.next + 1)
  {
    hide SlotsOk, TasksOk;
    assert forall i :: 0 <= i < |s.lists.all| ==> s.lists.all[i] in s.lists.all;
  }

  lemma UnlistWorkers(s: State, t: nat, w: nat)
    requires Inv(s) && t in s.subs && s.subs[t].pc == Failed(w)
    ensures WorkersOk(Without(s.lists.all, w), s.lists.unused, s.busy.Keys, At(s, t, Releasing(true)).subs, s.next)
  {
    hide SlotsOk, TasksOk;
    WithoutIs(s.lists.all, w);
  }

  lemma ReturnWorkers(s: State, t: nat, w: nat, dequeued: bool)
    requires Inv(s) && t in s.subs && s.subs[t].pc == Returning(w, dequeued)
    ensures WorkersOk(s.lists.all, s.lists.unused + [w], s.busy.Keys, At(s, t, Done(dequeued)).subs, s.next)
  {
    hide SlotsOk, TasksOk;
  }

  lemma FinishWorkers(s: State, w: nat)
    requires Inv(s) && w in s.busy
    ensures WorkersOk(s.lists.all, [w] + s.lists.unused, (s.busy - {w}).Keys, s.subs, s.next)
  {
    hide SlotsOk, TasksOk;
    assert forall x :: x in (s.busy - {w}).Keys ==> x in s.busy && x != w;
    assert forall x :: x in [w] + s.lists.unused ==> x == w || x in s.lists.unused;
  }

  // ----- Slots

  // Steps that leave the slots alone.
  lemma MoveSlots(s: State, t: nat, sub: Submitter, workers: nat)
    requires Inv(s) && workers <= |s.lists.all|
    requires t in s.subs ==> sub.pc.HasSlot() == s.subs[t].pc.HasSlot()
    requires t !in s.subs ==> !sub.pc.HasSlot()
    requires t in s.listed ==> !sub.pc.Reserved? && !sub.pc.Starting?
    requires sub.pc.Listed? || sub.pc.Failed? ==> t in s.listed
    ensures SlotsOk(workers, s.lists.creating, s.maxThreads, s.subs[t := sub], s.slots, s.listed)
  {
    hide WorkersOk, TasksOk;
  }

  lemma ReserveSlots(s: State, t: nat)
    requires Inv(s) && t in s.subs && s.subs[t].pc == Reserving && |s.lists.all| + s.lists.creating < s.maxThreads
    ensures SlotsOk(|s.lists.all|, s.lists.creating + 1, s.maxThreads, At(s, t, Reserved).subs, s.slots + {t}, s.listed)
  {
    hide WorkersOk, TasksOk;
    assert t !in s.slots;
  }

  lemma ListSlots(s: State, t: nat, w: nat)
    requires Inv(s) && t in s.subs && s.subs[t].pc == Starting
    ensures SlotsOk(|s.lists.all| + 1, s.lists.creating, s.maxThreads, At(s, t, Listed(w)).subs, s.slots, s.listed + {t})
  {
    hide WorkersOk, TasksOk;
    assert t in s.slots && t !in s.listed;
  }

  lemma UnlistSlots(s: State, t: nat, w: nat)
    requires Inv(s) && t in s.subs && s.subs[t].pc == Failed(w)
    ensures SlotsOk(|Without(s.lists.all, w)|, s.lists.creating, s.maxThreads, At(s, t, Releasing(true)).subs, s.slots,
                    s.listed - {t})
  {
    FailedIsListed(s, t, w);
    hide WorkersOk, TasksOk;
    assert t in s.slots && t in s.listed;
  }

  lemma ReleaseSlots(s: State, t: nat, dequeued: bool)
    requires Inv(s) && t in s.subs && s.subs[t].pc == Releasing(dequeued)
    ensures s.lists.creating > 0
    ensures SlotsOk(|s.lists.all|, s.lists.creating - 1, s.maxThreads, At(s, t, Done(dequeued)).subs, s.slots - {t},
                    s.listed - {t})
  {
    hide WorkersOk, TasksOk;
    assert t in s.slots;
  }

  // What an advance changes at all.
  predicate Quiet(pc: Pc) {
    pc.Looping? || pc.Parked? || pc.Returning? || pc.Done?
  }

  lemma QuietAdvance(s: State, t: nat, ok: bool, sweep: bool, expired: set<nat>)
    requires t in s.subs && Quiet(s.subs[t].pc)
    ensures var s' := Advance(s, t, ok, sweep, expired);
            var pc := s'.subs[t].pc;
            && s'.subs == At(s, t, pc).subs
            && s' == s.(subs := s'.subs, lists := s.lists.(unused := s'.lists.unused))
            && match s.subs[t].pc
               case Looping => pc == Rejecting || pc == Popping
               case Parked => pc == if ok then Looping else Done(true)
               case Returning(_, dequeued) => pc == Done(dequeued)
               case _ => pc == s.subs[t].pc
  {
    assert s.subs == s.subs[t := s.subs[t]];
  }

  lemma QuietSlots(s: State, t: nat, ok: bool, sweep: bool, expired: set<nat>)
    requires Inv(s) && t in s.subs && Quiet(s.subs[t].pc)
    ensures var s' := Advance(s, t, ok, sweep, expired);
            SlotsOk(|s'.lists.all|, s'.lists.creating, s'.maxThreads, s'.subs, s'.slots, s'.listed)
  {
    Unlisted(s, t);
    QuietAdvance(s, t, ok, sweep, expired);
    hide Inv, SlotsOk, Advance;
    MoveSlots(s, t, Advance(s, t, ok, sweep, expired).subs[t], |s.lists.all|);
  }

  lemma OtherSlots(s: State, t: nat, ok: bool, sweep: bool, expired: set<nat>)
    requires Inv(s) && t in s.subs
    requires var pc := s.subs[t].pc;
             pc.Reserved? || pc.Rejecting? || pc.Holding? || pc.Listed? || pc.Invoking?
    ensures var s' := Advance(s, t, ok, sweep, expired);
            SlotsOk(|s'.lists.all|, s'.lists.creating, s'.maxThreads, s'.subs, s'.slots, s'.listed)
  {
    Unlisted(s, t);
    TaskAdvance(s, t, ok, sweep, expired);
    hide Inv, SlotsOk, Advance;
    MoveSlots(s, t, Advance(s, t, ok, sweep, expired).subs[t], |s.lists.all|);
  }

  lemma TaskAdvance(s: State, t: nat, ok: bool, sweep: bool, expired: set<nat>)
    requires t in s.subs
    requires var pc := s.subs[t].pc;
             pc.Reserved? || pc.Rejecting? || pc.Holding? || pc.Listed? || pc.Invoking?
    ensures var s' := Advance(s, t, ok, sweep, expired);
            var pc := s'.subs[t].pc;
            && s'.subs == s.subs[t := s'.subs[t]] && s'.lists.all == s.lists.all
            && s'.lists.creating == s.lists.creating && s'.maxThreads == s.maxThreads
            && s'.slots == s.slots && s'.listed == s.listed
            && match s.subs[t].pc
               case Reserved => pc == Starting || pc == Releasing(false)
               case Rejecting => pc.Done?
               case Holding(w) => pc == Invoking(w) || pc == Returning(w, false)
               case Listed(w) => pc == Releasing(true) || pc == Failed(w)
               case Invoking(w) => pc == Done(true) || pc == Returning(w, true)
               case _ => false
  {
    hide Without;
  }

  lemma ReservingSlots(s: State, t: nat, ok: bool, sweep: bool, expired: set<nat>)
    requires Inv(s) && t in s.subs && s.subs[t].pc.Reserving?
    ensures var s' := Advance(s, t, ok, sweep, expired);
            SlotsOk(|s'.lists.all|, s'.lists.creating, s'.maxThreads, s'.subs, s'.slots, s'.listed)
  {
    Unlisted(s, t);
    hide Inv, SlotsOk;
    if Reserve(s.lists, s.maxThreads).1 {
      ReserveSlots(s, t);
    } else {
      MoveSlots(s, t, Advance(s, t, ok, sweep, expired).subs[t], |s.lists.all|);
    }
  }

  lemma PoppingSlots(s: State, t: nat, ok: bool, sweep: bool, expired: set<nat>)
    requires Inv(s) && t in s.subs && s.subs[t].pc.Popping?
    ensures var s' := Advance(s, t, ok, sweep, expired);
            SlotsOk(|s'.lists.all|, s'.lists.creating, s'.maxThreads, s'.subs, s'.slots, s'.listed)
  {
    Unlisted(s, t);
    PopWorkers(s, t, sweep, expired);
    hide Inv, SlotsOk, WorkersOk, Minus;
    var s' := Advance(s, t, ok, sweep, expired);
    MoveSlots(s, t, s'.subs[t], |s'.lists.all|);
  }

  lemma SlotSlots(s: State, t: nat, ok: bool, sweep: bool, expired: set<nat>)
    requires Inv(s) && t in s.subs
    requires var pc := s.subs[t].pc; pc.Starting? || pc.Failed? || pc.Releasing?
    ensures var s' := Advance(s, t, ok, sweep, expired);
            SlotsOk(|s'.lists.all|, s'.lists.creating, s'.maxThreads, s'.subs, s'.slots, s'.listed)
  {
    hide Inv, SlotsOk, Without;
    match s.subs[t].pc
    case Starting => ListSlots(s, t, s.next);
    case Failed(w) => UnlistSlots(s, t, w);
    case Releasing(dequeued) => ReleaseSlots(s, t, dequeued);
  }

  lemma AdvanceSlots(s: State, t: nat, ok: bool, sweep: bool, expired: set<nat>)
    requires Inv(s) && t in s.subs
    ensures var s' := Advance(s, t, ok, sweep, expired);
            SlotsOk(|s'.lists.all|, s'.lists.creating, s'.maxThreads, s'.subs, s'.slots, s'.listed)
  {
    hide Inv, SlotsOk, Advance;
    var pc := s.subs[t].pc;
    if Quiet(pc) {
      QuietSlots(s, t, ok, sweep, expired);
    } else if pc.Popping? {
      PoppingSlots(s, t, ok, sweep, expired);
    } else if pc.Reserving? {
      ReservingSlots(s, t, ok, sweep, expired);
    } else if pc.Starting? || pc.Failed? || pc.Releasing? {
      SlotSlots(s, t, ok, sweep, expired);
    } else {
      OtherSlots(s, t, ok, sweep, expired);
    }
  }

  lemma Unlisted(s: State, t: nat)
    requires Inv(s) && t in s.subs
    ensures t in s.listed ==> s.subs[t].pc.Listed? || s.subs[t].pc.Failed? || s.subs[t].pc.Releasing?
    ensures s.subs[t].pc.Listed? || s.subs[t].pc.Failed? ==> t in s.listed
  {
    hide WorkersOk, TasksOk;
  }

  lemma FailedIsListed(s: State, t: nat, w: nat)
    requires Inv(s) && t in s.subs && s.subs[t].pc == Failed(w)
    ensures |Without(s.lists.all, w)| == |s.lists.all| - 1
  {
    WithoutIs(s.lists.all, w);
  }

  // ----- Tasks

  lemma MoveTask(s: State, t: nat, pc: Pc)
    requires Inv(s) && t in s.subs && TaskOk(t, s.subs[t].(pc := pc), t in s.lists.tasks, s.failMode)
    requires !s.failMode && pc.Undecided() ==> t in s.lists.tasks
    ensures TasksOk(s.lists.tasks, At(s, t, pc).subs, s.started, s.failMode)
  {
    hide WorkersOk, SlotsOk;
  }

  lemma TakeTask(s: State, t: nat, pc: Pc)
    requires Inv(s) && t in s.lists.tasks && t in s.subs && !pc.Undecided()
    requires TaskOk(t, s.subs[t].(pc := pc), false, s.failMode)
    ensures TasksOk(Without(s.lists.tasks, t), At(s, t, pc).subs, s.started, s.failMode)
  {
    hide WorkersOk, SlotsOk;
    WithoutIs(s.lists.tasks, t);
  }

  lemma StartTask(s: State, t: nat, w: nat, pc: Pc)
    requires Inv(s) && t in s.subs && !pc.Undecided() && !s.subs[t].handle
    requires TaskOk(t, s.subs[t].(pc := pc, handle := true), t in s.lists.tasks, s.failMode)
    ensures var s' := At(Start(s, t, w), t, pc);
            TasksOk(s.lists.tasks, s'.subs, s'.started, s.failMode)
  {
    hide WorkersOk, SlotsOk, TaskOk;
    assert t !in s.started;
  }

  lemma TaskIs(s: State, t: nat)
    requires Inv(s) && t in s.subs
    ensures TaskOk(t, s.subs[t], t in s.lists.tasks, s.failMode)
    ensures !s.failMode && s.subs[t].pc.Undecided() ==> t in s.lists.tasks && !s.subs[t].handle
    ensures s.subs[t].handle <==> t in s.started
  {
    hide WorkersOk, SlotsOk;
  }

  lemma DequeueTasks(s: State, t: nat, ok: bool, sweep: bool, expired: set<nat>)
    requires Inv(s) && t in s.subs
    requires var pc := s.subs[t].pc; pc.Reserved? || pc.Rejecting? || pc.Holding?
    ensures var s' := Advance(s, t, ok, sweep, expired);
            TasksOk(s'.lists.tasks, s'.subs, s'.started, s'.failMode)
  {
    TaskIs(s, t);
    hide Inv, TasksOk, Without, AfterPop, Reserve, StopExpired;
    if t in s.lists.tasks {
      TakeTask(s, t, Advance(s, t, ok, sweep, expired).subs[t].pc);
    } else {
      MoveTask(s, t, Advance(s, t, ok, sweep, expired).subs[t].pc);
    }
  }

  lemma StartTasks(s: State, t: nat, ok: bool, sweep: bool, expired: set<nat>)
    requires Inv(s) && t in s.subs && (s.subs[t].pc.Listed? || s.subs[t].pc.Invoking?)
    ensures var s' := Advance(s, t, ok, sweep, expired);
            TasksOk(s'.lists.tasks, s'.subs, s'.started, s'.failMode)
  {
    TaskIs(s, t);
    hide Inv, TasksOk, AfterPop, Reserve, Dequeue, Without, StopExpired;
    var pc := s.subs[t].pc;
    if ok {
      StartTask(s, t, pc.worker, if pc.Listed? then Releasing(true) else Done(true));
    } else {
      MoveTask(s, t, if pc.Listed? then Failed(pc.worker) else Returning(pc.worker, true));
    }
  }

  lemma PopTasks(s: State, t: nat, sweep: bool, expired: set<nat>)
    requires Inv(s) && t in s.subs && s.subs[t].pc.Popping?
    ensures var s' := Advance(s, t, false, sweep, expired);
            TasksOk(s'.lists.tasks, s'.subs, s'.started, s'.failMode)
  {
    TaskIs(s, t);
    hide Inv, TasksOk, Minus;
    MoveTask(s, t, Advance(s, t, false, sweep, expired).subs[t].pc);
  }

  lemma QuietTasks(s: State, t: nat, ok: bool, sweep: bool, expired: set<nat>)
    requires Inv(s) && Legal(s, Go(t, ok, sweep, expired)) && Quiet(s.subs[t].pc)
    ensures var s' := Advance(s, t, ok, sweep, expired);
            TasksOk(s'.lists.tasks, s'.subs, s'.started, s'.failMode)
  {
    TaskIs(s, t);
    QuietAdvance(s, t, ok, sweep, expired);
    hide Inv, TasksOk, Advance;
    MoveTask(s, t, Advance(s, t, ok, sweep, expired).subs[t].pc);
  }

  lemma SlotTasks(s: State, t: nat, ok: bool, sweep: bool, expired: set<nat>)
    requires Inv(s) && t in s.subs
    requires var pc := s.subs[t].pc; pc.Reserving? || pc.Starting? || pc.Failed? || pc.Releasing?
    ensures var s' := Advance(s, t, ok, sweep, expired);
            TasksOk(s'.lists.tasks, s'.subs, s'.started, s'.failMode)
  {
    TaskIs(s, t);
    SlotAdvance(s, t, ok, sweep, expired);
    hide Inv, TasksOk, Advance;
    hide TaskOk;
    MoveTask(s, t, Advance(s, t, ok, sweep, expired).subs[t].pc);
  }

  lemma SlotAdvance(s: State, t: nat, ok: bool, sweep: bool, expired: set<nat>)
    requires t in s.subs && TaskOk(t, s.subs[t], t in s.lists.tasks, s.failMode)
    requires !s.failMode && s.subs[t].pc.Undecided() ==> t in s.lists.tasks
    requires var pc := s.subs[t].pc; pc.Reserving? || pc.Starting? || pc.Failed? || pc.Releasing?
    ensures var s' := Advance(s, t, ok, sweep, expired);
            var pc := s'.subs[t].pc;
            && s'.subs == At(s, t, pc).subs && s'.lists.tasks == s.lists.tasks
            && s'.started == s.started && s'.failMode == s.failMode
            && TaskOk(t, s.subs[t].(pc := pc), t in s.lists.tasks, s.failMode)
            && (!s.failMode && pc.Undecided() ==> t in s.lists.tasks)
  {
    hide Without;
  }

  lemma AdvanceTasks(s: State, t: nat, ok: bool, sweep: bool, expired: set<nat>)
    requires Inv(s) && Legal(s, Go(t, ok, sweep, expired))
    ensures var s' := Advance(s, t, ok, sweep, expired);
            TasksOk(s'.lists.tasks, s'.subs, s'.started, s'.failMode)
  {
    hide Inv, TasksOk, Advance;
    var pc := s.subs[t].pc;
    if pc.Popping? {
      PopIgnoresOk(s, t, ok, sweep, expired);
      PopTasks(s, t, sweep, expired);
    } else if pc.Reserved? || pc.Rejecting? || pc.Holding? {
      DequeueTasks(s, t, ok, sweep, expired);
    } else if pc.Listed? || pc.Invoking? {
      StartTasks(s, t, ok, sweep, expired);
    } else if Quiet(pc) {
      QuietTasks(s, t, ok, sweep, expired);
    } else {
      SlotTasks(s, t, ok, sweep, expired);
    }
  }

  lemma PopIgnoresOk(s: State, t: nat, ok: bool, sweep: bool, expired: set<nat>)
    requires t in s.subs && s.subs[t].pc.Popping?
    ensures Advance(s, t, ok, sweep, expired) == Advance(s, t, false, sweep, expired)
  {
  }

  lemma FinishTasks(s: State, w: nat, locked: bool)
    requires Inv(s) && w in s.busy
    ensures var s' := Step(s, Finish(w, locked));
            TasksOk(s'.lists.tasks, s'.subs, s'.started, s'.failMode)
  {
    hide WorkersOk, SlotsOk;
  }

  // ----- Steps and runs

  lemma SubmitKeeps(s: State, t: nat, wait: bool)
    requires Inv(s) && t !in s.subs
    ensures Inv(Step(s, Submit(t, wait)))
  {
    var sub := Submitter(wait, Looping, false);
    MoveSlots(s, t, sub, |s.lists.all|);
    SubmitTasks(s, t, sub);
    hide SlotsOk, TasksOk;
  }

  lemma SubmitTasks(s: State, t: nat, sub: Submitter)
    requires Inv(s) && t !in s.subs && sub.pc == Looping && !sub.handle
    ensures TasksOk(s.lists.tasks + [t], s.subs[t := sub], s.started, s.failMode)
  {
    hide WorkersOk, SlotsOk;
    assert forall i :: 0 <= i < |s.lists.tasks| ==> s.lists.tasks[i] in s.lists.tasks;
  }

  // A worker that takes a queued task goes on with it; one that does not is
  // unused from then on.
  lemma FinishKeeps(s: State, w: nat, locked: bool)
    requires Inv(s) && w in s.busy
    ensures Inv(Step(s, Finish(w, locked)))
  {
    FinishTasks(s, w, locked);
    FinishWorkers(s, w);
    var s' := Step(s, Finish(w, locked));
    if s.failMode && locked && s.lists.tasks != [] {
      var t := s.lists.tasks[0];
      assert t in s.lists.tasks;
      HandOver(s, t, w);
      MoveSlots(s, t, s.subs[t].(handle := true), |s.lists.all|);
    } else {
      SlotsStay(s);
    }
    hide WorkersOk, SlotsOk, TasksOk;
  }

  lemma HandOver(s: State, t: nat, w: nat)
    requires Inv(s) && t in s.lists.tasks && w in s.busy
    ensures t in s.subs && Start(s, t, w).busy.Keys == s.busy.Keys
    ensures WorkersOk(s.lists.all, s.lists.unused, s.busy.Keys, s.subs[t := s.subs[t].(handle := true)], s.next)
    ensures t in s.listed ==> !s.subs[t].pc.Reserved? && !s.subs[t].pc.Starting?
    ensures s.subs[t].pc.Listed? || s.subs[t].pc.Failed? ==> t in s.listed
  {
  }

  lemma SlotsStay(s: State)
    requires Inv(s)
    ensures SlotsOk(|s.lists.all|, s.lists.creating, s.maxThreads, s.subs, s.slots, s.listed)
  {
  }

  lemma SweepKeeps(s: State, expired: set<nat>, caller: Option<nat>)
    requires Inv(s)
    ensures Inv(Step(s, Sweep(expired, caller)))
  {
    SweepWorkers(s.lists, expired, caller, s.busy.Keys, s.subs, s.next);
    hide WorkersOk, TasksOk;
  }

  lemma StepKeeps(s: State, a: Action)
    requires Inv(s) && Legal(s, a)
    ensures Inv(Step(s, a))
  {
    match a
    case Submit(t, wait) => SubmitKeeps(s, t, wait);
    case Go(t, ok, sweep, expired) =>
      AdvanceWorkers(s, t, ok, sweep, expired);
      AdvanceSlots(s, t, ok, sweep, expired);
      AdvanceTasks(s, t, ok, sweep, expired);
      hide Advance, WorkersOk, SlotsOk, TasksOk;
    case Finish(w, locked) => FinishKeeps(s, w, locked);
    case Sweep(expired, caller) => SweepKeeps(s, expired, caller);
    case SetStopping => hide WorkersOk, SlotsOk, TasksOk;
  }

  lemma {:induction false} RunKeeps(s: State, actions: seq<Action>)
    requires Inv(s) && LegalRun(s, actions)
    ensures Inv(Run(s, actions))
    decreases |actions|
  {
    hide Inv;
    if actions != [] {
      StepKeeps(s, actions[0]);
      RunKeeps(Step(s, actions[0]), actions[1..]);
    }
  }

  // However many submitters race, the workers there are and those about to be
  // are within the limit.
  lemma NeverTooManyWorkers(maxThreads: nat, failMode: bool, actions: seq<Action>)
    requires LegalRun(Empty(maxThreads, failMode), actions)
    ensures var s := Run(Empty(maxThreads, failMode), actions);
            && |s.lists.all| + |s.slots - s.listed| <= s.maxThreads
            && (forall t :: t in s.slots <==> t in s.subs && s.subs[t].pc.HasSlot())
  {
    RunKeeps(Empty(maxThreads, failMode), actions);
    var s := Run(Empty(maxThreads, failMode), actions);
    SlotsLeft(s);
  }

  lemma SlotsLeft(s: State)
    requires Inv(s)
    ensures |s.lists.all| + |s.slots - s.listed| <= s.maxThreads
    ensures s.lists.creating == |s.slots|
  {
    hide WorkersOk, TasksOk;
    assert s.listed <= s.slots;
    assert s.slots == (s.slots - s.listed) + s.listed;
  }

  // The unused workers are listed, each once; a worker that is unused is not
  // busy or held, and no two submitters hold the same one.
  lemma WorkersHaveOneOwner(maxThreads: nat, failMode: bool, actions: seq<Action>)
    requires LegalRun(Empty(maxThreads, failMode), actions)
    ensures var s := Run(Empty(maxThreads, failMode), actions);
            && Distinct(s.lists.all) && Distinct(s.lists.unused)
            && (forall w :: w in s.lists.unused ==> w in s.lists.all && w !in s.busy)
            && (forall t :: t in s.subs && s.subs[t].pc.Holds().Some? ==>
                  var w := s.subs[t].pc.Holds().value;
                  w in s.lists.all && w !in s.lists.unused && w !in s.busy)
            && (forall t, u :: t in s.subs && u in s.subs && t != u && s.subs[t].pc.Holds().Some? ==>
                  s.subs[t].pc.Holds() != s.subs[u].pc.Holds())
  {
    RunKeeps(Empty(maxThreads, failMode), actions);
    hide SlotsOk, TasksOk;
  }

  // Every task is handed to a worker at most once. A call that has returned
  // with a handle had its task started; one that returned without never will,
  // whatever happens after.
  lemma TasksStartOnce(maxThreads: nat, failMode: bool, actions: seq<Action>, later: seq<Action>, t: nat)
    requires LegalRun(Empty(maxThreads, failMode), actions)
    requires var s := Run(Empty(maxThreads, failMode), actions);
             t in s.subs && s.subs[t].pc.Done? && LegalRun(s, later)
    ensures var s := Run(Empty(maxThreads, failMode), actions);
            && Distinct(s.started) && Distinct(Run(s, later).started)
            && (s.subs[t].handle <==> t in s.started)
            && (t in Run(s, later).started <==> t in s.started)
  {
    RunKeeps(Empty(maxThreads, failMode), actions);
    var s := Run(Empty(maxThreads, failMode), actions);
    ReturnedForGood(s, t, later);
    RunKeeps(s, later);
    hide WorkersOk, SlotsOk, TaskOk;
  }

  lemma {:induction false} ReturnedForGood(s: State, t: nat, later: seq<Action>)
    requires Inv(s) && t in s.subs && s.subs[t].pc.Done? && LegalRun(s, later)
    ensures var s' := Run(s, later); t in s'.subs && s'.subs[t] == s.subs[t]
    decreases |later|
  {
    if later != [] {
      StepKeeps(s, later[0]);
      ReturnedStays(s, t, later[0]);
      hide Inv, Step;
      ReturnedForGood(Step(s, later[0]), t, later[1..]);
    }
  }

  lemma ReturnedStays(s: State, t: nat, a: Action)
    requires Inv(s) && t in s.subs && s.subs[t].pc.Done? && Legal(s, a)
    ensures var s' := Step(s, a); t in s'.subs && s'.subs[t] == s.subs[t]
  {
    hide Inv, Advance, AfterFree, StopExpired;
    match a
    case Go(u, ok, sweep, expired) => AdvanceLeaves(s, u, ok, sweep, expired, t);
    case Finish(w, locked) => FinishLeaves(s, w, locked, t);
    case _ =>
  }

  lemma AdvanceLeaves(s: State, u: nat, ok: bool, sweep: bool, expired: set<nat>, t: nat)
    requires u in s.subs && t in s.subs && (u == t ==> s.subs[t].pc.Done?)
    ensures var s' := Advance(s, u, ok, sweep, expired); t in s'.subs && s'.subs[t] == s.subs[t]
  {
    hide AfterPop, Reserve, Dequeue, Without, StopExpired;
    if u != t {
      var sub := Advance(s, u, ok, sweep, expired).subs[u];
      assert Advance(s, u, ok, sweep, expired).subs == s.subs[u := sub];
    }
  }

  lemma FinishLeaves(s: State, w: nat, locked: bool, t: nat)
    requires Inv(s) && t in s.subs && s.subs[t].pc.Done? && w in s.busy
    ensures var s' := Step(s, Finish(w, locked)); t in s'.subs && s'.subs[t] == s.subs[t]
  {
    hide WorkersOk, SlotsOk;
    if s.failMode && s.lists.tasks != [] {
      var u := s.lists.tasks[0];
      assert u in s.lists.tasks && TaskOk(u, s.subs[u], true, s.failMode);
    }
  }

  lemma OnlyStartsClaim(s: State, u: nat, ok: bool, sweep: bool, expired: set<nat>, t: nat)
    requires u in s.subs && t in s.subs && !s.subs[u].pc.Listed? && !s.subs[u].pc.Invoking?
    ensures Advance(s, u, ok, sweep, expired).subs[t].handle == s.subs[t].handle
  {
    hide AfterPop, Reserve, Dequeue, Without, StopExpired;
    if u != t {
      AdvanceLeaves(s, u, ok, sweep, expired, t);
    }
  }

  lemma GoClaims(s: State, u: nat, ok: bool, sweep: bool, expired: set<nat>, t: nat)
    requires u in s.subs && t in s.subs && !s.subs[t].handle
    ensures var s' := Advance(s, u, ok, sweep, expired);
            s'.subs[t].handle ==>
              s'.started == s.started + [t] && u == t && (s.subs[t].pc.Listed? || s.subs[t].pc.Invoking?)
  {
    if !s.subs[u].pc.Listed? && !s.subs[u].pc.Invoking? {
      OnlyStartsClaim(s, u, ok, sweep, expired, t);
    }
  }

  // How a task came to its handle: the three ways exclude each other, and
  // without any of them there is no handle.
  lemma HandlesAreClaims(s: State, a: Action, t: nat)
    requires Inv(s) && Legal(s, a) && t in s.subs && !s.subs[t].handle
    requires t in Step(s, a).subs && Step(s, a).subs[t].handle
    ensures Step(s, a).started == s.started + [t] && t !in s.started
    ensures || (a.Go? && a.task == t && s.subs[t].pc.Listed?)
            || (a.Go? && a.task == t && s.subs[t].pc.Invoking?)
            || (a.Finish? && s.failMode && s.subs[t].pc.Undecided() && s.lists.tasks[..1] == [t])
  {
    TaskIs(s, t);
    hide Inv, Advance, StopExpired, AfterFree;
    match a
    case Go(u, ok, sweep, expired) => GoClaims(s, u, ok, sweep, expired, t);
    case Finish(w, locked) => FinishClaims(s, w, locked, t);
    case _ =>
  }

  lemma FinishClaims(s: State, w: nat, locked: bool, t: nat)
    requires Inv(s) && w in s.busy && t in s.subs && !s.subs[t].handle && Step(s, Finish(w, locked)).subs[t].handle
    ensures Step(s, Finish(w, locked)).started == s.started + [t] && t !in s.started
    ensures s.failMode && s.subs[t].pc.Undecided() && s.lists.tasks[..1] == [t]
  {
    TaskIs(s, t);
    hide WorkersOk, SlotsOk;
  }

  // ----- Who is served first

  // The tasks submitted in a run, in order.
  function Submitted(actions: seq<Action>): seq<nat> {
    if actions == [] then []
    else (if actions[0].Submit? then [actions[0].task] else []) + Submitted(actions[1..])
  }

  // The queued tasks are in the order of their submission.
  ghost predicate InOrder(tasks: seq<nat>, order: seq<nat>) {
    && (forall t :: t in tasks ==> t in order)
    && SameOrder(tasks, order)
  }

  lemma BeforeMore(order: seq<nat>, t: nat, u: nat)
    requires t in order
    ensures Before(order + [u], t, u)
    ensures forall x :: Before(order, t, x) ==> Before(order + [u], t, x)
  {
    var i :| 0 <= i < |order| && order[i] == t;
    assert (order + [u])[i] == t && (order + [u])[|order|] == u;
    forall x | Before(order, t, x) ensures Before(order + [u], t, x) {
      var i, j :| 0 <= i < j < |order| && order[i] == t && order[j] == x;
      assert (order + [u])[i] == t && (order + [u])[j] == x;
    }
  }

  lemma SubmitInOrder(tasks: seq<nat>, t: nat, order: seq<nat>)
    requires InOrder(tasks, order)
    ensures InOrder(tasks + [t], order + [t])
  {
    forall i, j | 0 <= i < j < |tasks + [t]| ensures Before(order + [t], (tasks + [t])[i], (tasks + [t])[j]) {
      assert tasks[i] in tasks;
      BeforeMore(order, tasks[i], t);
    }
  }

  lemma WithoutInOrder(tasks: seq<nat>, t: nat, order: seq<nat>)
    requires Distinct(tasks) && InOrder(tasks, order) && t in tasks
    ensures InOrder(Without(tasks, t), order)
  {
    hide Before;
    var k :| 0 <= k < |tasks| && tasks[k] == t;
    WithoutAt(tasks, k);
  }

  lemma TasksStay(l: Lists, sweep: bool, expired: set<nat>)
    ensures AfterPop(l, sweep, expired).0.tasks == l.tasks
  {
  }

  // What a step does to the queue of tasks.
  lemma TasksMove(s: State, a: Action)
    requires Inv(s) && Legal(s, a)
    ensures Distinct(s.lists.tasks)
    ensures var (was, now) := (s.lists.tasks, Step(s, a).lists.tasks);
            match a
            case Submit(task, _) => now == was + [task]
            case Go(task, _, _, _) => now == was || (task in was && now == Without(was, task))
            case Finish(_, _) => now == was || (was != [] && now == was[1..])
            case _ => now == was
  {
    hide WorkersOk, SlotsOk, Without;
    if a.Go? {
      TasksStay(s.lists, a.sweep && s.subs[a.task].wait, a.expired);
      hide AfterPop, StopExpired;
    }
  }

  lemma StepInOrder(s: State, a: Action, order: seq<nat>)
    requires Inv(s) && Legal(s, a) && InOrder(s.lists.tasks, order)
    ensures InOrder(Step(s, a).lists.tasks, order + if a.Submit? then [a.task] else [])
  {
    var was := s.lists.tasks;
    TasksMove(s, a);
    hide Step, Inv, Before, Without;
    match a
    case Submit(task, _) => SubmitInOrder(was, task, order);
    case Go(task, _, _, _) =>
      if task in was {
        WithoutInOrder(was, task, order);
      }
      assert order + [] == order;
    case _ => assert order + [] == order;
  }

  lemma {:induction false} RunInOrder(s: State, actions: seq<Action>, order: seq<nat>)
    requires Inv(s) && LegalRun(s, actions) && InOrder(s.lists.tasks, order)
    ensures InOrder(Run(s, actions).lists.tasks, order + Submitted(actions))
    decreases |actions|
  {
    hide Inv, Step, InOrder;
    if actions == [] {
      assert order + [] == order;
    } else {
      var a := actions[0];
      StepKeeps(s, a);
      StepInOrder(s, a, order);
      var next := order + if a.Submit? then [a.task] else [];
      RunInOrder(Step(s, a), actions[1..], next);
      assert next + Submitted(actions[1..]) == order + Submitted(actions);
    }
  }

  // Over all runs in FAIL mode: a worker that has finished, and gets the task
  // lock, starts the task that was submitted first of all that are queued.
  lemma OldestTaskFirst(maxThreads: nat, actions: seq<Action>, worker: nat)
    requires LegalRun(Empty(maxThreads, true), actions)
    ensures var s := Run(Empty(maxThreads, true), actions);
            worker in s.busy && s.lists.tasks != [] ==>
              exists t :: t in s.lists.tasks && Step(s, Finish(worker, true)).started == s.started + [t]
                          && forall u :: u in s.lists.tasks && u != t ==> Before(Submitted(actions), t, u)
  {
    var start := Empty(maxThreads, true);
    RunInOrder(start, actions, []);
    RunKeeps(start, actions);
    ModeStays(start, actions);
    assert [] + Submitted(actions) == Submitted(actions);
    var s := Run(start, actions);
    hide Run, LegalRun, Before, WorkersOk, SlotsOk;
    if worker in s.busy && s.lists.tasks != [] {
      var t := s.lists.tasks[0];
      assert t in s.lists.tasks && t in s.subs;
      forall u | u in s.lists.tasks && u != t ensures Before(Submitted(actions), t, u) {
        var j :| 0 <= j < |s.lists.tasks| && s.lists.tasks[j] == u;
      }
    }
  }

  // A worker given back is the next one taken, and taking it undoes the return.
  lemma FreedIsNext(l: Lists, worker: nat)
    ensures AfterFree(l, worker, false).1 == None
    ensures AfterPop(AfterFree(l, worker, false).0, false, {}) == (l, Some(worker), |l.all| + l.creating)
  {
    assert ([worker] + l.unused)[1..] == l.unused;
  }

  // ----- Who is turned away

  // No worker is unused, and all there may be are there or on their way.
  ghost predicate Full(s: State) {
    s.lists.unused == [] && |s.lists.all| + s.lists.creating >= s.maxThreads
  }

  // A call is only turned away by a stop or for want of room, and one of its own
  // accord; it only waits if it may, and then for want of both a worker and room.
  lemma TurnedAwayForAReason(s: State, a: Action, t: nat)
    requires Inv(s) && Legal(s, a) && t in s.subs && t in Step(s, a).subs && Step(s, a).subs[t].pc != s.subs[t].pc
    ensures Step(s, a).subs[t].pc.Rejecting? ==>
              || s.lists.stopping
              || (|s.lists.all| + s.lists.creating >= s.maxThreads && (s.failMode || !s.subs[t].wait))
    ensures Step(s, a).subs[t].pc.Parked? ==> Full(s) && !s.failMode && s.subs[t].wait
    ensures s.subs[t].pc.Reserving? && !Step(s, a).subs[t].pc.Reserved? ==>
              && (s.lists.stopping || |s.lists.all| + s.lists.creating >= s.maxThreads)
              && (Step(s, a).subs[t].pc.Rejecting? <==> s.failMode || !s.subs[t].wait)
    ensures s.subs[t].pc.Popping? && !Step(s, a).subs[t].pc.Holding? ==> s.lists.unused == []
    ensures s.subs[t].pc.Popping? && Full(s) ==> Step(s, a).subs[t].pc.Rejecting? || Step(s, a).subs[t].pc.Parked?
  {
    hide Inv, StopExpired, AfterFree, Dequeue, Without;
    if a.Go? && a.task != t {
      AdvanceLeaves(s, a.task, a.ok, a.sweep, a.expired, t);
    }
  }

  // Once the pool is told to stop it stays so, and gives no slot any more: only
  // the calls that have one still create a worker.
  lemma {:induction false} StopIsForGood(s: State, actions: seq<Action>)
    requires LegalRun(s, actions)
    ensures Run(s, actions).lists.stopping <==> s.lists.stopping || SetStopping in actions
    ensures s.lists.stopping ==> Run(s, actions).slots <= s.slots
    decreases |actions|
  {
    hide Step;
    if actions != [] {
      var a := actions[0];
      StopStays(s, a);
      assert forall x :: x in actions <==> x == a || x in actions[1..];
      StopIsForGood(Step(s, a), actions[1..]);
    }
  }

  lemma StopStays(s: State, a: Action)
    requires Legal(s, a)
    ensures Step(s, a).lists.stopping <==> s.lists.stopping || a == SetStopping
    ensures s.lists.stopping ==> Step(s, a).slots <= s.slots
  {
    if a.Go? {
      AdvanceStops(s, a.task, a.ok, a.sweep, a.expired);
      if s.lists.stopping {
        NoSlotOnceStopping(s, a.task, a.ok, a.sweep, a.expired);
      }
    } else if a.Sweep? {
      SectionsStay(s.lists, false, a.expired, a.caller, 0, 0, 0, false);
    } else if a.Finish? {
      SectionsStay(s.lists, false, {}, None, 0, 0, a.worker, s.failMode && a.locked);
    }
    hide Advance, StopExpired, AfterFree;
  }

  lemma AdvanceStops(s: State, t: nat, ok: bool, sweep: bool, expired: set<nat>)
    requires t in s.subs
    ensures Advance(s, t, ok, sweep, expired).lists.stopping == s.lists.stopping
  {
    SectionsStay(s.lists, sweep && s.subs[t].wait, expired, None, s.maxThreads, t, 0, false);
    hide AfterPop, Reserve, Dequeue, Without;
  }

  lemma NoSlotOnceStopping(s: State, t: nat, ok: bool, sweep: bool, expired: set<nat>)
    requires t in s.subs && s.lists.stopping
    ensures Advance(s, t, ok, sweep, expired).slots <= s.slots
  {
    SectionsStay(s.lists, false, expired, None, s.maxThreads, t, 0, false);
    hide AfterPop, Reserve, Dequeue, Without;
  }

  // No section of the pool's lists starts or ends a stop, and no slot is given
  // after one.
  lemma SectionsStay(l: Lists, sweep: bool, expired: set<nat>, caller: Option<nat>, maxThreads: nat,
                     task: nat, worker: nat, handOff: bool)
    ensures AfterPop(l, sweep, expired).0.stopping == StopExpired(l, expired, caller).stopping == l.stopping
    ensures Dequeue(l, task).0.stopping == AfterFree(l, worker, handOff).0.stopping == l.stopping
    ensures Reserve(l, maxThreads).0.stopping == l.stopping && (l.stopping ==> !Reserve(l, maxThreads).1)
  {
  }

  lemma StopsWhenTold(maxThreads: nat, failMode: bool, actions: seq<Action>)
    requires LegalRun(Empty(maxThreads, failMode), actions)
    ensures Run(Empty(maxThreads, failMode), actions).lists.stopping <==> SetStopping in actions
  {
    StopIsForGood(Empty(maxThreads, failMode), actions);
  }

  // Only a call that may wait sweeps, and only when a sweep is due: otherwise
  // nothing depends on what has expired, and a pop leaves all workers listed.
  lemma NoSweepForTryRun(s: State, t: nat, ok: bool, sweep: bool, expired: set<nat>)
    requires Legal(s, Go(t, ok, sweep, expired)) && !(sweep && s.subs[t].wait)
    ensures Step(s, Go(t, ok, sweep, expired)) == Step(s, Go(t, ok, false, {}))
    ensures s.subs[t].pc.Popping? ==> Step(s, Go(t, ok, sweep, expired)).lists.all == s.lists.all
  {
    PopUnswept(s.lists, expired);
    hide AfterPop, StopExpired, Reserve, Dequeue, AfterFree, Without;
  }

  lemma PopUnswept(l: Lists, expired: set<nat>)
    ensures AfterPop(l, false, expired) == AfterPop(l, false, {}) && AfterPop(l, false, expired).0.all == l.all
  {
  }

  // A call that never waits: no run brings it to wait.
  lemma {:induction false} TryRunNeverWaits(maxThreads: nat, failMode: bool, actions: seq<Action>, t: nat)
    requires LegalRun(Empty(maxThreads, failMode), actions)
    ensures var s := Run(Empty(maxThreads, failMode), actions);
            t in s.subs && s.subs[t].pc.Parked? ==> s.subs[t].wait && !failMode
  {
    RunKeeps(Empty(maxThreads, failMode), actions);
    var s := Run(Empty(maxThreads, failMode), actions);
    if t in s.subs {
      TaskIs(s, t);
    }
    ModeStays(Empty(maxThreads, failMode), actions);
  }

  lemma {:induction false} ModeStays(s: State, actions: seq<Action>)
    requires LegalRun(s, actions)
    ensures Run(s, actions).failMode == s.failMode && Run(s, actions).maxThreads == s.maxThreads
    decreases |actions|
  {
    hide AfterPop, Reserve, Dequeue, AfterFree, StopExpired, Without;
    if actions != [] {
      ModeStays(Step(s, actions[0]), actions[1..]);
    }
  }

  // ----- A call that nothing stands in the way of

  function Rank(pc: Pc): nat {
    match pc
    case Looping => 8
    case Popping => 7
    case Reserving => 6
    case Reserved => 5
    case Starting => 4
    case Listed(_) => 3
    case Holding(_) => 3
    case Invoking(_) => 2
    case Returning(_, _) => 1
    case Releasing(_) => 1
    case _ => 0
  }

  // The pool is not stopping, and has a worker that is not used or room for one.
  ghost predicate WayIsClear(s: State, t: nat) {
    && t in s.subs
    && match s.subs[t].pc
       case Looping => !s.lists.stopping && !Full(s)
       case Popping => !s.lists.stopping && !Full(s)
       case Reserving => !s.lists.stopping && |s.lists.all| + s.lists.creating < s.maxThreads
       case Parked => false
       case Rejecting => false
       case Failed(_) => false
       case Done(_) => s.subs[t].handle
       case Releasing(_) => s.subs[t].handle
       case Returning(_, dequeued) => !dequeued
       case _ => true
  }

  // Left alone, with threads that start and workers that take their calls, it
  // returns with a handle: the task has been handed to a worker.
  lemma {:induction false} CallSucceeds(s: State, t: nat) returns (actions: seq<Action>)
    requires Inv(s) && WayIsClear(s, t)
    ensures LegalRun(s, actions) && forall a :: a in actions ==> a == Go(t, true, false, {})
    ensures var end := Run(s, actions);
            t in end.subs && end.subs[t].pc.Done? && end.subs[t].handle && t in end.started
    decreases Rank(s.subs[t].pc)
  {
    hide Inv;
    TaskIs(s, t);
    if s.subs[t].pc.Done? {
      actions := [];
    } else {
      var go := Go(t, true, false, {});
      StepKeeps(s, go);
      StillClear(s, t);
      var rest := CallSucceeds(Step(s, go), t);
      actions := [go] + rest;
      assert actions[1..] == rest;
    }
  }

  lemma StillClear(s: State, t: nat)
    requires Inv(s) && WayIsClear(s, t) && !s.subs[t].pc.Done?
    ensures var s' := Step(s, Go(t, true, false, {}));
            WayIsClear(s', t) && Rank(s'.subs[t].pc) < Rank(s.subs[t].pc)
  {
    TaskIs(s, t);
    hide Inv;
    var pc := s.subs[t].pc;
    if pc.Looping? || pc.Popping? || pc.Reserving? {
      ClearToASlot(s, t);
    } else if pc.Reserved? || pc.Holding? {
      ClearToTheTask(s, t);
    } else {
      ClearToTheEnd(s, t);
    }
  }

  lemma ClearToASlot(s: State, t: nat)
    requires WayIsClear(s, t) && (s.subs[t].pc.Looping? || s.subs[t].pc.Popping? || s.subs[t].pc.Reserving?)
    ensures var s' := Advance(s, t, true, false, {});
            WayIsClear(s', t) && Rank(s'.subs[t].pc) < Rank(s.subs[t].pc)
  {
    hide Dequeue, StopExpired, Without;
  }

  lemma ClearToTheTask(s: State, t: nat)
    requires WayIsClear(s, t) && (s.subs[t].pc.Reserved? || s.subs[t].pc.Holding?)
    requires TaskOk(t, s.subs[t], t in s.lists.tasks, s.failMode)
    ensures var s' := Advance(s, t, true, false, {});
            WayIsClear(s', t) && Rank(s'.subs[t].pc) < Rank(s.subs[t].pc)
  {
    hide AfterPop, Reserve, StopExpired, Without;
  }

  lemma ClearToTheEnd(s: State, t: nat)
    requires WayIsClear(s, t) && Rank(s.subs[t].pc) in {4, 3, 2, 1} && !s.subs[t].pc.Holding?
    requires TaskOk(t, s.subs[t], t in s.lists.tasks, s.failMode)
    ensures var s' := Advance(s, t, true, false, {});
            WayIsClear(s', t) && Rank(s'.subs[t].pc) < Rank(s.subs[t].pc)
  {
    hide AfterPop, Reserve, Dequeue, StopExpired, Without;
  }
}
