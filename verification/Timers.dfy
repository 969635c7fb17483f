/** The timer queue: a worker that sleeps until the earliest timer is due, and
    callers that set timers while it sleeps. Two clocks are read: wall time, which
    may jump, and steady time, which the sleep itself is measured in. */
module Timers {
  import opened Wrappers

  const FOREVER: nat := 0xffff_ffff
  const MAX_TIME: nat := 0xffff_ffff_ffff_ffff
  // a wall clock in milliseconds, and a delay (a positive long), are below this
  const CLOCK_LIMIT: nat := 0x8000_0000_0000_0000

  datatype Timer = Timer(event: nat, period: nat, due: nat)

  // The part of the queue that its lock protects. A `wake` of zero means that
  // no sleep needs interrupting.
  datatype Queue = Queue(timers: seq<Timer>, wake: nat, steadyWake: nat)

  predicate Contains(timers: seq<Timer>, event: nat) {
    exists i :: 0 <= i < |timers| && timers[i].event == event
  }

  // ----- What each section does

  function IndexOf(timers: seq<Timer>, event: nat): (i: nat)
    ensures i <= |timers|
    ensures i < |timers| ==> timers[i].event == event
    ensures forall j :: 0 <= j < i ==> timers[j].event != event
  {
    if timers == [] || timers[0].event == event then 0 else 1 + IndexOf(timers[1..], event)
  }

  // Whether the sleep must end for a timer due at `due`, in `delay` from now.
  predicate Earlier(q: Queue, due: nat, delay: nat, steady: nat) {
    q.wake != 0 && (due < q.wake || (delay < FOREVER && steady + delay < q.steadyWake))
  }

  // The new queue, and whether the worker was told.
  function Interrupted(q: Queue, due: nat, delay: nat, steady: nat): (Queue, bool) {
    if Earlier(q, due, delay, steady) then (q.(wake := 0), true) else (q, false)
  }

  // A timer that is queued is only given its new due time; its period stays.
  function WithTimer(timers: seq<Timer>, event: nat, period: nat, due: nat): seq<Timer> {
    var i := IndexOf(timers, event);
    if i < |timers| then timers[i := timers[i].(due := due)] else timers + [Timer(event, period, due)]
  }

  function AfterSet(q: Queue, started: bool, event: nat, delay: nat, period: nat, wall: nat, steady: nat)
    : (Queue, bool)
  {
    var due := wall + delay;
    var q' := q.(timers := WithTimer(q.timers, event, period, due));
    if started || Contains(q.timers, event) then Interrupted(q', due, delay, steady) else (q', false)
  }

  function AfterCancel(q: Queue, event: nat): (Queue, bool) {
    var i := IndexOf(q.timers, event);
    if i < |q.timers| then (q.(timers := q.timers[..i] + q.timers[i + 1..]), true) else (q, false)
  }

  function MinDue(timers: seq<Timer>): (min: nat)
    requires timers != []
    ensures forall t :: t in timers ==> min <= t.due
    ensures exists t :: t in timers && t.due == min
  {
    var last := timers[|timers| - 1];
    if |timers| == 1 then last.due else
      var rest := timers[..|timers| - 1];
      var min := MinDue(rest);
      assert forall t :: t in timers ==> t in rest || t == last;
      assert forall t :: t in rest ==> t in timers;
      if last.due < min then last.due else min
  }

  // The next sleep, published under the lock that setters take.
  function SleepTime(q: Queue, wall: nat, steady: nat): (Queue, nat) {
    if q.timers == [] then (q.(wake := MAX_TIME), FOREVER)
    else
      var min := MinDue(q.timers);
      if wall >= min then (q.(wake := 0), 0)
      else
        var ms := if min - wall >= FOREVER then FOREVER - 1 else min - wall;
        (q.(wake := wall + ms, steadyWake := steady + ms), ms)
  }

  function FirstDue(timers: seq<Timer>, now: nat): (i: nat)
    ensures i <= |timers|
    ensures i < |timers| ==> timers[i].due <= now
    ensures forall j :: 0 <= j < i ==> timers[j].due > now
  {
    if timers == [] || timers[0].due <= now then 0 else 1 + FirstDue(timers[1..], now)
  }

  // One round of the worker once awake: the first timer that is due goes off; a
  // periodic one is queued again, behind the others.
  function SignalOne(q: Queue, now: nat, later: nat): (Queue, bool) {
    var i := FirstDue(q.timers, now);
    if i == |q.timers| then (q.(wake := 0), false)
    else
      var t := q.timers[i];
      var rest := q.timers[..i] + q.timers[i + 1..];
      (q.(wake := 0, timers := if t.period == 0 then rest else rest + [t.(due := later + t.period)]), true)
  }

  // ----- The queue itself

  class TimerQueue {
    var Timers: seq<Timer>
    var WakeDeadline: nat
    var WakeSteadyDeadline: nat
    var ThreadStarted: bool
    ghost var Updates: nat        // how often EvUpdate was set
    ghost var Fired: seq<nat>     // the timers that went off

    ghost function Abs(): Queue
      reads this
    {
      Queue(Timers, WakeDeadline, WakeSteadyDeadline)
    }

    constructor ()
      ensures Abs() == Queue([], 0, 0) && !ThreadStarted && Updates == 0 && Fired == []
    {
      Timers, WakeDeadline, WakeSteadyDeadline, ThreadStarted := [], 0, 0, false;
      Updates, Fired := 0, [];
    }

    method WakeForEarlierTimer(due: nat, delay: nat, steady: nat)
      modifies this`WakeDeadline, this`Updates
      ensures (Abs(), Updates > old(Updates)) == Interrupted(old(Abs()), due, delay, steady)
      ensures Updates <= old(Updates) + 1
    {
      if WakeDeadline == 0 {
        return;
      }
      var earlier := due < WakeDeadline;
      if !earlier && delay < FOREVER {
        var nextWake := steady + delay;
        earlier := nextWake < WakeSteadyDeadline;
      }
      if earlier {
        WakeDeadline := 0;
        Updates := Updates + 1;
      }
    }

    method SetTimer(event: nat, delay: int, period: int, wall: nat, steady: nat) returns (ok: bool)
      modifies this
      ensures ok <==> delay > 0 && period >= 0
      ensures !ok ==> unchanged(this)
      ensures ok ==>
                && (Abs(), Updates > old(Updates))
                   == AfterSet(old(Abs()), old(ThreadStarted), event, delay, period, wall, steady)
                && (!Contains(old(Timers), event) ==> ThreadStarted)
                && Fired == old(Fired)
      // the timer is due when its delay has run, and no other timer is touched
      ensures ok ==>
                var i := IndexOf(Timers, event);
                && i < |Timers| && |Timers| == |old(Timers)| + Count(!Contains(old(Timers), event))
                && Timers[i].event == event && Timers[i].due == wall + delay
                && Timers[i].period == (if Contains(old(Timers), event) then old(Timers)[i].period else period)
                && forall j :: 0 <= j < |old(Timers)| && j != i ==> Timers[j] == old(Timers)[j]
    {
      if delay <= 0 || period < 0 {
        return false;
      }
      var i := 0;
      while i < |Timers|
        invariant 0 <= i <= |Timers| && unchanged(this)
        invariant forall j :: 0 <= j < i ==> Timers[j].event != event
      {
        if Timers[i].event == event {
          FoundAt(Timers, event, i);
          Timers := Timers[i := Timers[i].(due := wall + delay)];
          FoundAt(Timers, event, i);
          WakeForEarlierTimer(wall + delay, delay, steady);
          return true;
        }
        i := i + 1;
      }
      NotFound(Timers, event);
      Timers := Timers + [Timer(event, period, wall + delay)];
      FoundAt(Timers, event, |Timers| - 1);
      if !ThreadStarted {
        ThreadStarted := true;
      } else {
        WakeForEarlierTimer(wall + delay, delay, steady);
      }
      return true;
    }

    method CancelTimer(event: nat) returns (ok: bool)
      modifies this`Timers
      ensures (Abs(), ok) == AfterCancel(old(Abs()), event)
      ensures ok == Contains(old(Timers), event) && |Timers| == |old(Timers)| - Count(ok)
      ensures OnePerEvent(old(Timers)) ==>
                && !Contains(Timers, event)
                && forall t :: t in Timers <==> t in old(Timers) && t.event != event
    {
      var i := 0;
      while i < |Timers|
        invariant 0 <= i <= |Timers| && Timers == old(Timers)
        invariant forall j :: 0 <= j < i ==> Timers[j].event != event
      {
        if Timers[i].event == event {
          FoundAt(Timers, event, i);
          Timers := Timers[..i] + Timers[i + 1..];
          return true;
        }
        i := i + 1;
      }
      NotFound(Timers, event);
      return false;
    }

    method GetSleepTime(wall: nat, steady: nat) returns (ms: nat)
      requires forall t :: t in Timers ==> t.due < MAX_TIME
      modifies this`WakeDeadline, this`WakeSteadyDeadline
      ensures (Abs(), ms) == SleepTime(old(Abs()), wall, steady)
    {
      if Timers == [] {
        ms := FOREVER;
        WakeDeadline := MAX_TIME;
      } else {
        var min := MAX_TIME;
        for i := 0 to |Timers|
          invariant min == if i == 0 then MAX_TIME else MinDue(Timers[..i])
        {
          assert Timers[..i + 1][..i] == Timers[..i];
          assert Timers[i] in Timers;
          if Timers[i].due < min {
            min := Timers[i].due;
          }
        }
        assert Timers[..|Timers|] == Timers;
        if wall >= min {
          ms := 0;
          WakeDeadline := 0;
        } else {
          var delay := min - wall;
          if delay >= FOREVER {
            ms := FOREVER - 1;
          } else {
            ms := delay;
          }
          WakeDeadline := wall + ms;
          WakeSteadyDeadline := steady + ms;
        }
      }
    }

    // A round of SignallTimers. A due timer's callback runs without the lock.
    method SignallOne(now: nat, later: nat) returns (fired: bool)
      modifies this`Timers, this`WakeDeadline, this`Fired
      ensures (Abs(), fired) == SignalOne(old(Abs()), now, later)
      ensures if fired then
                && Fired == old(Fired) + [old(Timers)[FirstDue(old(Timers), now)].event]
              else
                Fired == old(Fired)
    {
      WakeDeadline := 0;
      var i := 0;
      while i < |Timers|
        invariant 0 <= i <= |Timers| && Timers == old(Timers) && Fired == old(Fired) && WakeDeadline == 0
        invariant forall j :: 0 <= j < i ==> Timers[j].due > now
      {
        if Timers[i].due <= now {
          FirstDueAt(Timers, now, i);
          var t := Timers[i];
          Timers := Timers[..i] + Timers[i + 1..];
          if t.period != 0 {
            Timers := Timers + [t.(due := later + t.period)];
          }
          Fired := Fired + [t.event];
          return true;
        }
        i := i + 1;
      }
      FirstDueAt(Timers, now, i);
      return false;
    }
  }

  lemma {:induction false} FoundAt(timers: seq<Timer>, event: nat, i: nat)
    requires i < |timers| && timers[i].event == event
    requires forall j :: 0 <= j < i ==> timers[j].event != event
    ensures IndexOf(timers, event) == i && Contains(timers, event)
  {
  }

  lemma NotFound(timers: seq<Timer>, event: nat)
    requires forall j :: 0 <= j < |timers| ==> timers[j].event != event
    ensures IndexOf(timers, event) == |timers| && !Contains(timers, event)
  {
  }

  lemma FirstDueAt(timers: seq<Timer>, now: nat, i: nat)
    requires i <= |timers| && (i < |timers| ==> timers[i].due <= now)
    requires forall j :: 0 <= j < i ==> timers[j].due > now
    ensures FirstDue(timers, now) == i
  {
  }

  // ----- The worker among its callers

  // The worker's update event is a synchronization event: a signal goes to the
  // wait that is linked, or is kept for the next one.
  datatype Phase =
    | Idle        // there is no thread yet
    | Active      // about to publish a sleep
    | Published   // has published it, and not yet registered for the update
    | Sleeping    // registered
    | Ending      // the sleep is over, the registration not yet undone
    | Awake       // about to signal timers
    | Signalling  // has signalled one, and goes on

  // `asked` is what was asked for, by event: when the timer is due, and its
  // period; and `fired` is every timer that went off, with when it was due, and
  // when it did. `since` is when each timer set since the last snapshot has run its delay,
  // in steady time; the sleep was measured from `sleepStart` and began later.
  datatype World = World(q: Queue, phase: Phase, ms: nat, update: bool, delivered: bool,
                         wall: nat, steady: nat, sleepStart: nat, began: nat, since: map<nat, nat>,
                         asked: map<nat, Asked>, fired: seq<Firing>)

  datatype Asked = Asked(due: nat, period: nat)
  datatype Firing = Firing(event: nat, due: nat, at: nat)

  datatype Action =
    | Tick(wall: nat, steady: nat)
    | Set(event: nat, delay: nat, period: nat)
    | Cancel(event: nat)
    | Advance(later: nat)   // the worker goes on; `later` is a second wall reading

  // Wall time may jump either way; steady time may not go back. A finite sleep
  // ends by itself only when its time is up, an infinite one never.
  predicate Legal(w: World, a: Action) {
    match a
    case Tick(wall, steady) => wall < CLOCK_LIMIT && w.steady <= steady
    case Set(_, delay, period) => 0 < delay < CLOCK_LIMIT && period < CLOCK_LIMIT
    case Cancel(_) => true
    case Advance(later) =>
      && later < CLOCK_LIMIT && w.phase != Idle
      && (w.phase == Sleeping ==> w.delivered || (w.ms != FOREVER && w.began + w.ms <= w.steady))
  }

  // SetEvent on the update event.
  function Updated(w: World): World {
    if w.phase == Sleeping || w.phase == Ending then w.(delivered := true) else w.(update := true)
  }

  function Step(w: World, a: Action): World {
    match a
    case Tick(wall, steady) => w.(wall := wall, steady := steady)
    case Set(event, delay, period) =>
      var (q, told) := AfterSet(w.q, w.phase != Idle, event, delay, period, w.wall, w.steady);
      var w' := w.(q := q, phase := if w.phase == Idle then Active else w.phase,
                   since := w.since[event := w.steady + delay],
                   asked := w.asked[event := Asked(w.wall + delay, if event in w.asked then w.asked[event].period
                                                                   else period)]);
      if told then Updated(w') else w'
    case Cancel(event) => w.(q := AfterCancel(w.q, event).0, asked := w.asked - {event})
    case Advance(later) =>
      match w.phase
      case Idle => w
      case Active =>
        var (q, ms) := SleepTime(w.q, w.wall, w.steady);
        w.(q := q, ms := ms, phase := Published, delivered := false, sleepStart := w.steady, since := map[])
      case Published => w.(phase := Sleeping, delivered := w.update, update := false, began := w.steady)
      case Sleeping => w.(phase := Ending)
      case Ending => w.(phase := Awake)
      case Awake => Fire(w, later)
      case Signalling => Fire(w, later)
  }

  function Fire(w: World, later: nat): World {
    var i := FirstDue(w.q.timers, w.wall);
    var (q, fired) := SignalOne(w.q, w.wall, later);
    var w' := w.(q := q, phase := if fired then Signalling else Active);
    if fired && i < |w.q.timers| then WentOff(w', w.q.timers[i].event, later) else w'
  }

  // What has been asked for when the timer of an event has gone off.
  function WentOff(w: World, event: nat, later: nat): World {
    if event !in w.asked then w else
      var a := w.asked[event];
      w.(fired := w.fired + [Firing(event, a.due, w.wall)],
         asked := if a.period == 0 then w.asked - {event} else w.asked[event := Asked(later + a.period, a.period)])
  }

  function Start(wall: nat, steady: nat): World {
    World(Queue([], 0, 0), Idle, 0, false, false, wall, steady, 0, 0, map[], map[], [])
  }

  ghost predicate LegalRun(w: World, actions: seq<Action>)
    decreases |actions|
  {
    actions != [] ==> Legal(w, actions[0]) && LegalRun(Step(w, actions[0]), actions[1..])
  }

  function Run(w: World, actions: seq<Action>): World
    decreases |actions|
  {
    if actions == [] then w else Run(Step(w, actions[0]), actions[1..])
  }

  predicate Resting(phase: Phase) {
    phase == Published || phase == Sleeping
  }

  // The update is on its way to the worker.
  predicate Told(w: World) {
    w.update || (w.phase == Sleeping && w.delivered)
  }

  // The worker never oversleeps: unless it has been told, or does not sleep at
  // all, no timer is due before the published deadline, it sleeps forever only
  // over an empty queue, and the sleep's own end in steady time is no later
  // than that of any delay that started during the sleep.
  ghost predicate NeverOversleeps(w: World) {
    Resting(w.phase) && !Told(w) && w.ms != 0 ==>
      && w.q.wake != 0
      && (forall t :: t in w.q.timers ==> w.q.wake <= t.due)
      && (w.ms == FOREVER <==> w.q.wake == MAX_TIME)
      && (w.ms == FOREVER ==> w.q.timers == [] && w.since == map[])
      && (w.ms != FOREVER ==>
            && w.ms < FOREVER && w.q.steadyWake == w.sleepStart + w.ms
            && (forall e :: e in w.since ==> w.sleepStart + w.ms <= w.since[e]))
  }

  ghost predicate OnePerEvent(timers: seq<Timer>) {
    forall i, j :: 0 <= i < j < |timers| ==> timers[i].event != timers[j].event
  }

  // The queue holds exactly what was asked for and has not gone off for good.
  ghost predicate AsAsked(timers: seq<Timer>, asked: map<nat, Asked>) {
    && OnePerEvent(timers)
    && (forall t :: t in timers ==> t.event in asked && asked[t.event] == Asked(t.due, t.period))
    && (forall e :: e in asked ==> Asking(timers, e, asked[e]))
  }

  ghost predicate Asking(timers: seq<Timer>, event: nat, a: Asked) {
    Timer(event, a.period, a.due) in timers
  }

  ghost predicate Inv(w: World) {
    && w.wall < CLOCK_LIMIT
    && AsAsked(w.q.timers, w.asked)
    && (forall f :: f in w.fired ==> f.due <= f.at)
    && (forall t :: t in w.q.timers ==> t.due < MAX_TIME && t.period < CLOCK_LIMIT)
    && (w.phase == Idle || w.phase == Active || w.phase == Signalling ==> w.q.wake == 0)
    && (w.phase == Idle ==> w.q.timers == [])
    && (w.phase == Sleeping ==> w.sleepStart <= w.began <= w.steady && !w.update)
    && (w.phase == Published ==> w.sleepStart <= w.steady)
    && NeverOversleeps(w)
  }

  lemma SetKeepsTimers(timers: seq<Timer>, event: nat, period: nat, due: nat)
    requires OnePerEvent(timers)
    ensures var timers' := WithTimer(timers, event, period, due);
            && OnePerEvent(timers') && timers' != []
            && forall t :: t in timers' ==>
                 t in timers || (t.due == due && (t.period == period || t.(due := timers[IndexOf(timers, event)].due) in timers))
  {
  }

  lemma InAsked(timers: seq<Timer>, asked: map<nat, Asked>, event: nat)
    requires AsAsked(timers, asked)
    ensures event in asked <==> Contains(timers, event)
    ensures event in asked ==>
              var i := IndexOf(timers, event);
              i < |timers| && timers[i] == Timer(event, asked[event].period, asked[event].due)
  {
    if event in asked {
      assert Asking(timers, event, asked[event]);
      var i :| 0 <= i < |timers| && timers[i] == Timer(event, asked[event].period, asked[event].due);
      OnlyAt(timers, event, i);
    } else {
      forall j | 0 <= j < |timers| ensures timers[j].event != event {
        assert timers[j] in timers;
      }
    }
  }

  lemma OnlyAt(timers: seq<Timer>, event: nat, i: nat)
    requires OnePerEvent(timers) && i < |timers| && timers[i].event == event
    ensures IndexOf(timers, event) == i && Contains(timers, event)
  {
    FoundAt(timers, event, i);
  }

  lemma SetAsAsked(timers: seq<Timer>, asked: map<nat, Asked>, event: nat, period: nat, due: nat)
    requires AsAsked(timers, asked)
    ensures AsAsked(WithTimer(timers, event, period, due),
                    asked[event := Asked(due, if event in asked then asked[event].period else period)])
  {
    InAsked(timers, asked, event);
    SetKeepsTimers(timers, event, period, due);
    var i := IndexOf(timers, event);
    var timers' := WithTimer(timers, event, period, due);
    var asked' := asked[event := Asked(due, if event in asked then asked[event].period else period)];
    if i == |timers| {
      NotThere(timers, event);
      assert timers'[|timers|] == Timer(event, period, due);
    } else {
      assert timers'[i] == Timer(event, asked[event].period, due);
    }
    forall j | 0 <= j < |timers'| && j != i ensures timers'[j] == timers[j] && timers[j].event != event {
      assert j < |timers| && timers[j] in timers;
    }
    forall e | e in asked' ensures Asking(timers', e, asked'[e]) {
      if e != event {
        assert Asking(timers, e, asked[e]);
        var j :| 0 <= j < |timers| && timers[j] == Timer(e, asked[e].period, asked[e].due);
        assert timers'[j] == timers[j];
      }
    }
    forall t | t in timers' ensures t.event in asked' && asked'[t.event] == Asked(t.due, t.period) {
      var j :| 0 <= j < |timers'| && timers'[j] == t;
      if j != i {
        assert timers[j] in timers;
      }
    }
  }

  lemma NotThere(timers: seq<Timer>, event: nat)
    requires IndexOf(timers, event) == |timers|
    ensures forall t :: t in timers ==> t.event != event
  {
  }

  // One timer leaves the queue.
  lemma LessOne(timers: seq<Timer>, asked: map<nat, Asked>, i: nat)
    requires AsAsked(timers, asked) && i < |timers|
    ensures AsAsked(timers[..i] + timers[i + 1..], asked - {timers[i].event})
    ensures forall t :: t in timers[..i] + timers[i + 1..] ==> t in timers && t.event != timers[i].event
  {
    var rest, asked' := timers[..i] + timers[i + 1..], asked - {timers[i].event};
    forall j | 0 <= j < |rest| ensures rest[j] == timers[if j < i then j else j + 1] {
    }
    forall e | e in asked' ensures Asking(rest, e, asked'[e]) {
      assert Asking(timers, e, asked[e]);
      var j :| 0 <= j < |timers| && timers[j] == Timer(e, asked[e].period, asked[e].due);
      assert rest[if j < i then j else j - 1] == timers[j];
    }
    forall t | t in rest ensures t in timers && t.event != timers[i].event {
      var j :| 0 <= j < |rest| && rest[j] == t;
    }
  }

  // ... or one joins it, at its end.
  lemma OneMore(timers: seq<Timer>, asked: map<nat, Asked>, t: Timer)
    requires AsAsked(timers, asked) && t.event !in asked
    ensures AsAsked(timers + [t], asked[t.event := Asked(t.due, t.period)])
  {
    var all, asked' := timers + [t], asked[t.event := Asked(t.due, t.period)];
    forall e | e in asked' ensures Asking(all, e, asked'[e]) {
      if e != t.event {
        assert Asking(timers, e, asked[e]);
      }
    }
    forall j | 0 <= j < |timers| ensures timers[j].event != t.event {
      assert timers[j] in timers;
    }
  }

  lemma FireAsAsked(w: World, later: nat)
    requires AsAsked(w.q.timers, w.asked)
    ensures AsAsked(Fire(w, later).q.timers, Fire(w, later).asked)
    ensures Fire(w, later).fired == w.fired || (Fire(w, later).fired != [] && Fire(w, later).fired[..|w.fired|] == w.fired
              && |Fire(w, later).fired| == |w.fired| + 1 && Fire(w, later).fired[|w.fired|].due <= w.wall == Fire(w, later).fired[|w.fired|].at)
  {
    hide AsAsked;
    var i := FirstDue(w.q.timers, w.wall);
    if i < |w.q.timers| {
      var t := w.q.timers[i];
      var rest := w.q.timers[..i] + w.q.timers[i + 1..];
      LessOne(w.q.timers, w.asked, i);
      IsAsked(w.q.timers, w.asked, i);
      if t.period != 0 {
        OneMore(rest, w.asked - {t.event}, t.(due := later + t.period));
        assert (w.asked - {t.event})[t.event := Asked(later + t.period, t.period)]
            == w.asked[t.event := Asked(later + t.period, t.period)];
      }
    }
  }

  lemma IsAsked(timers: seq<Timer>, asked: map<nat, Asked>, i: nat)
    requires AsAsked(timers, asked) && i < |timers|
    ensures timers[i].event in asked && asked[timers[i].event] == Asked(timers[i].due, timers[i].period)
  {
    assert timers[i] in timers;
  }

  // A timer set while the worker rests makes it wake exactly if it is due before
  // the deadline that is published, or its delay ends before the sleep; and not
  // twice in one sleep, as there is no deadline any more.
  lemma SetWhileResting(w: World, event: nat, delay: nat, period: nat)
    requires Inv(w) && Legal(w, Set(event, delay, period)) && Resting(w.phase)
    ensures NeverOversleeps(Step(w, Set(event, delay, period)))
    ensures var w' := Step(w, Set(event, delay, period));
            var sooner := w.wall + delay < w.q.wake || (delay < FOREVER && w.steady + delay < w.q.steadyWake);
            && (Told(w') <==> Told(w) || (w.q.wake != 0 && sooner))
            && (w.q.wake != 0 && sooner ==> w'.q.wake == 0)
  {
    SetKeepsTimers(w.q.timers, event, period, w.wall + delay);
    hide WithTimer, OnePerEvent, Contains;
    var w' := Step(w, Set(event, delay, period));
    if Earlier(w.q, w.wall + delay, delay, w.steady) {
      assert Told(w');
    }
  }

  lemma OneEach(timers: seq<Timer>, asked: map<nat, Asked>)
    requires AsAsked(timers, asked)
    ensures OnePerEvent(timers)
  {
  }

  lemma SetKeeps(w: World, event: nat, delay: nat, period: nat)
    requires Inv(w) && Legal(w, Set(event, delay, period))
    ensures Inv(Step(w, Set(event, delay, period)))
  {
    hide AsAsked, OnePerEvent, WithTimer, Contains, NeverOversleeps;
    OneEach(w.q.timers, w.asked);
    SetKeepsTimers(w.q.timers, event, period, w.wall + delay);
    SetAsAsked(w.q.timers, w.asked, event, period, w.wall + delay);
    var w' := Step(w, Set(event, delay, period));
    assert w'.q.timers == WithTimer(w.q.timers, event, period, w.wall + delay);
    if Resting(w.phase) {
      SetWhileResting(w, event, delay, period);
    } else {
      NotResting(w');
    }
  }

  lemma NotResting(w: World)
    requires !Resting(w.phase)
    ensures NeverOversleeps(w)
  {
  }

  lemma CancelKeeps(w: World, event: nat)
    requires Inv(w)
    ensures Inv(Step(w, Cancel(event)))
  {
    hide AsAsked, OnePerEvent, Contains;
    var i := IndexOf(w.q.timers, event);
    InAsked(w.q.timers, w.asked, event);
    if i < |w.q.timers| {
      LessOne(w.q.timers, w.asked, i);
    } else {
      NotThere(w.q.timers, event);
      NothingAsked(w.q.timers, w.asked, event);
    }
  }

  lemma NothingAsked(timers: seq<Timer>, asked: map<nat, Asked>, event: nat)
    requires AsAsked(timers, asked) && forall t :: t in timers ==> t.event != event
    ensures asked - {event} == asked
  {
    forall e | e in asked ensures e != event {
      assert Asking(timers, e, asked[e]);
    }
  }

  lemma SnapshotKeeps(w: World, later: nat)
    requires Inv(w) && w.phase == Active
    ensures Inv(Step(w, Advance(later)))
  {
    hide AsAsked;
  }

  lemma FireTimers(w: World, later: nat)
    requires forall t :: t in w.q.timers ==> t.due < MAX_TIME && t.period < CLOCK_LIMIT
    requires later < CLOCK_LIMIT
    ensures forall t :: t in Fire(w, later).q.timers ==> t.due < MAX_TIME && t.period < CLOCK_LIMIT
    ensures Fire(w, later).q.wake == 0 && !Resting(Fire(w, later).phase) && Fire(w, later).phase != Idle
    ensures Fire(w, later).wall == w.wall
  {
  }

  lemma FireKeeps(w: World, later: nat)
    requires Inv(w) && later < CLOCK_LIMIT && (w.phase == Awake || w.phase == Signalling)
    ensures Inv(Fire(w, later))
  {
    FireAsAsked(w, later);
    FireTimers(w, later);
    hide AsAsked, SignalOne, FirstDue;
  }

  lemma StepKeeps(w: World, a: Action)
    requires Inv(w) && Legal(w, a)
    ensures Inv(Step(w, a))
  {
    match a
    case Tick(_, _) =>
    case Set(event, delay, period) => SetKeeps(w, event, delay, period);
    case Cancel(event) => CancelKeeps(w, event);
    case Advance(later) =>
      match w.phase
      case Active => SnapshotKeeps(w, later);
      case Awake => FireKeeps(w, later);
      case Signalling => FireKeeps(w, later);
      case _ =>
  }

  lemma {:induction false} RunKeeps(w: World, actions: seq<Action>)
    requires Inv(w) && LegalRun(w, actions)
    ensures Inv(Run(w, actions))
    decreases |actions|
  {
    hide Inv;
    if actions != [] {
      StepKeeps(w, actions[0]);
      RunKeeps(Step(w, actions[0]), actions[1..]);
    }
  }

  // Over all runs: the queue holds exactly what was asked for last, for each
  // event, and has not been cancelled or gone off; no timer has gone off before
  // it was due; and the worker's next round fires one exactly if one is due.
  lemma TimersGoOffAsAsked(wall: nat, steady: nat, actions: seq<Action>, later: nat)
    requires wall < CLOCK_LIMIT && LegalRun(Start(wall, steady), actions)
    ensures var w := Run(Start(wall, steady), actions);
            && AsAsked(w.q.timers, w.asked)
            && (forall f :: f in w.fired ==> f.due <= f.at)
            && var w' := Fire(w, later);
               && (|w'.fired| == |w.fired| + Count(exists e :: e in w.asked && w.asked[e].due <= w.wall))
               && (forall e :: e in w.asked && (|w'.fired| == |w.fired| || e != w'.fired[|w.fired|].event) ==>
                     e in w'.asked && w'.asked[e] == w.asked[e])
  {
    RunKeeps(Start(wall, steady), actions);
    RoundFires(Run(Start(wall, steady), actions), later);
  }

  lemma RoundFires(w: World, later: nat)
    requires AsAsked(w.q.timers, w.asked)
    ensures var w' := Fire(w, later);
            && (|w'.fired| == |w.fired| + Count(exists e :: e in w.asked && w.asked[e].due <= w.wall))
            && (forall e :: e in w.asked && (|w'.fired| == |w.fired| || e != w'.fired[|w.fired|].event) ==>
                  e in w'.asked && w'.asked[e] == w.asked[e])
  {
    DueIsAsked(w.q.timers, w.asked, w.wall);
    var i := FirstDue(w.q.timers, w.wall);
    if i < |w.q.timers| {
      IsAsked(w.q.timers, w.asked, i);
    }
    assert SignalOne(w.q, w.wall, later).1 <==> i < |w.q.timers|;
    hide AsAsked, FirstDue, SignalOne;
  }

  lemma DueIsAsked(timers: seq<Timer>, asked: map<nat, Asked>, now: nat)
    requires AsAsked(timers, asked)
    ensures FirstDue(timers, now) < |timers| <==> exists e :: e in asked && asked[e].due <= now
  {
    var i := FirstDue(timers, now);
    if i < |timers| {
      IsAsked(timers, asked, i);
    } else {
      forall e | e in asked ensures asked[e].due > now {
        assert Asking(timers, e, asked[e]);
        var j :| 0 <= j < |timers| && timers[j] == Timer(e, asked[e].period, asked[e].due);
      }
    }
  }

  // Over all runs: any timers set and cancelled at any point of the worker's
  // loop, any jump of wall time.
  lemma WorkerNeverOversleeps(wall: nat, steady: nat, actions: seq<Action>)
    requires wall < CLOCK_LIMIT && LegalRun(Start(wall, steady), actions)
    ensures NeverOversleeps(Run(Start(wall, steady), actions))
    ensures OnePerEvent(Run(Start(wall, steady), actions).q.timers)
  {
    RunKeeps(Start(wall, steady), actions);
  }

  // Whatever wall time has done, the worker's sleep is over by the time a delay
  // that started during it has run, but for the time the worker took from
  // measuring its sleep to beginning it: its step out of the sleep is legal.
  lemma SleepEndsInTime(wall: nat, steady: nat, actions: seq<Action>, event: nat, later: nat)
    requires wall < CLOCK_LIMIT && LegalRun(Start(wall, steady), actions) && later < CLOCK_LIMIT
    ensures var w := Run(Start(wall, steady), actions);
            w.phase == Sleeping && event in w.since && w.since[event] + (w.began - w.sleepStart) <= w.steady ==>
              Legal(w, Advance(later)) && Step(w, Advance(later)).phase == Ending
  {
    RunKeeps(Start(wall, steady), actions);
  }

  // A finite delay, however long, is never taken for no timer at all, and the
  // sleep does not pass the first due time.
  lemma SleepIsBounded(q: Queue, wall: nat, steady: nat)
    requires forall t :: t in q.timers ==> t.due < MAX_TIME
    ensures var (q', ms) := SleepTime(q, wall, steady);
            && (ms == FOREVER <==> q.timers == [])
            && (ms == 0 <==> exists t :: t in q.timers && t.due <= wall)
            && (forall t :: t in q.timers && wall < t.due && ms != 0 ==> wall + ms <= t.due)
            && (0 < ms < FOREVER - 1 ==> exists t :: t in q.timers && t.due == wall + ms)
  {
  }

  // ----- The rounds after a sleep

  // The timers that are due, and the others, in the order of the queue.
  function Due(timers: seq<Timer>, now: nat): seq<Timer> {
    if timers == [] then [] else (if timers[0].due <= now then [timers[0]] else []) + Due(timers[1..], now)
  }

  function NotDue(timers: seq<Timer>, now: nat): seq<Timer> {
    if timers == [] then [] else (if timers[0].due <= now then [] else [timers[0]]) + NotDue(timers[1..], now)
  }

  // A periodic timer is due again a period after the reading.
  function Again(t: Timer, later: nat): seq<Timer> {
    if t.period == 0 then [] else [t.(due := later + t.period)]
  }

  // All of them that are queued again, each with its own reading.
  function Requeued(fired: seq<Timer>, laters: seq<nat>): seq<Timer>
    requires |fired| <= |laters|
  {
    if fired == [] then [] else
      Again(fired[0], laters[0]) + Requeued(fired[1..], laters[1..])
  }

  // |laters| rounds at one reading of the clock, and the timers that went off.
  function Rounds(q: Queue, now: nat, laters: seq<nat>): (Queue, seq<Timer>)
    decreases |laters|
  {
    if laters == [] then (q, []) else
      var i := FirstDue(q.timers, now);
      var (q', fired) := SignalOne(q, now, laters[0]);
      var (end, others) := Rounds(q', now, laters[1..]);
      (end, (if fired && i < |q.timers| then [q.timers[i]] else []) + others)
  }

  lemma DueFirst(t: Timer, rest: seq<Timer>, now: nat)
    ensures Due([t] + rest, now) == (if t.due <= now then [t] else []) + Due(rest, now)
    ensures NotDue([t] + rest, now) == (if t.due <= now then [] else [t]) + NotDue(rest, now)
    ensures Due([], now) == NotDue([], now) == []
  {
    assert ([t] + rest)[1..] == rest;
  }

  lemma {:induction false} DueConcat(a: seq<Timer>, b: seq<Timer>, now: nat)
    ensures Due(a + b, now) == Due(a, now) + Due(b, now)
    ensures NotDue(a + b, now) == NotDue(a, now) + NotDue(b, now)
    decreases |a|
  {
    if a == [] {
      assert a + b == b;
    } else {
      hide Due, NotDue;
      var t, rest := a[0], a[1..];
      assert a == [t] + rest && a + b == [t] + (rest + b);
      DueFirst(t, rest, now);
      DueFirst(t, rest + b, now);
      DueConcat(rest, b, now);
    }
  }

  lemma DueBehind(a: seq<Timer>, b: seq<Timer>, now: nat)
    requires forall i :: 0 <= i < |a| ==> a[i].due > now
    ensures Due(a + b, now) == Due(b, now) && NotDue(a + b, now) == a + NotDue(b, now)
  {
    hide Due, NotDue;
    NoneDue(a, now);
    DueConcat(a, b, now);
    assert [] + Due(b, now) == Due(b, now);
  }

  lemma DueAround(a: seq<Timer>, t: Timer, b: seq<Timer>, now: nat)
    requires (forall i :: 0 <= i < |a| ==> a[i].due > now) && t.due <= now
    ensures Due(a + [t] + b, now) == [t] + Due(b, now) && NotDue(a + [t] + b, now) == a + NotDue(b, now)
    ensures Due(a + b, now) == Due(b, now) && NotDue(a + b, now) == a + NotDue(b, now)
  {
    hide Due, NotDue;
    DueBehind(a, b, now);
    assert a + [t] + b == a + ([t] + b);
    DueBehind(a, [t] + b, now);
    DueFirst(t, b, now);
    assert [] + NotDue(b, now) == NotDue(b, now);
  }

  lemma {:induction false} NoneDue(timers: seq<Timer>, now: nat)
    requires forall i :: 0 <= i < |timers| ==> timers[i].due > now
    ensures Due(timers, now) == [] && NotDue(timers, now) == timers
  {
    if timers != [] {
      NoneDue(timers[1..], now);
    }
  }

  // One round takes the first of the due timers out, and queues nothing that is
  // due already.
  lemma RoundTakesTheFirst(q: Queue, now: nat, later: nat)
    requires now <= later
    ensures var i := FirstDue(q.timers, now);
            var (q', fired) := SignalOne(q, now, later);
            && (fired <==> Due(q.timers, now) != [])
            && (!fired ==> q'.timers == q.timers && NotDue(q.timers, now) == q.timers)
            && (fired ==>
                  && i < |q.timers| && q.timers[i] == Due(q.timers, now)[0]
                  && Due(q'.timers, now) == Due(q.timers, now)[1..]
                  && NotDue(q'.timers, now) == NotDue(q.timers, now) + Again(q.timers[i], later))
  {
    hide Due, NotDue;
    var i := FirstDue(q.timers, now);
    if i == |q.timers| {
      NoneDue(q.timers, now);
    } else {
      var t, front, end := q.timers[i], q.timers[..i], q.timers[i + 1..];
      var back := Again(t, later);
      assert q.timers == front + [t] + end;
      DueAround(front, t, end, now);
      NoneDue(back, now);
      DueConcat(front + end, back, now);
      assert SignalOne(q, now, later).0.timers == front + end + back;
    }
  }

  // As many rounds as there are due timers fire each of them once, in the order
  // of the queue. The others keep their order, the periodic ones come behind
  // them, and the next round fires nothing.
  lemma {:induction false} RoundsAreFair(q: Queue, now: nat, laters: seq<nat>)
    requires |laters| == |Due(q.timers, now)| && forall later :: later in laters ==> now <= later
    ensures Rounds(q, now, laters).1 == Due(q.timers, now)
    ensures Rounds(q, now, laters).0.timers == NotDue(q.timers, now) + Requeued(Due(q.timers, now), laters)
    ensures forall later :: now <= later ==> !SignalOne(Rounds(q, now, laters).0, now, later).1
    decreases |laters|
  {
    hide Due, NotDue, SignalOne, FirstDue, Again;
    if laters == [] {
      forall later | now <= later ensures !SignalOne(q, now, later).1 {
        RoundTakesTheFirst(q, now, later);
      }
      RoundTakesTheFirst(q, now, now);
    } else {
      var later := laters[0];
      assert later in laters;
      assert forall l :: l in laters[1..] ==> l in laters;
      RoundTakesTheFirst(q, now, later);
      RoundsAreFair(SignalOne(q, now, later).0, now, laters[1..]);
    }
  }
}
