/** What an event is, on values: a signal and a list of registered waits, shared
    by all handles of the event. Every function is one lock-protected section;
    it returns the new event and the completions called, in order. */
module EventSpec {
  import opened Wrappers

  datatype Wait<N, H> = Wait(node: N, owner: H)
  datatype Call<N> = Call(node: N, failed: bool)
  datatype Shared<N, H> = Shared(notification: bool, signalled: bool, waits: seq<Wait<N, H>>)

  ghost predicate Distinct<N, H>(waits: seq<Wait<N, H>>) {
    forall i, j :: 0 <= i < j < |waits| ==> waits[i].node != waits[j].node
  }

  ghost predicate Registered<N, H>(waits: seq<Wait<N, H>>, node: N) {
    exists i :: 0 <= i < |waits| && waits[i].node == node
  }

  function Calls<N, H>(waits: seq<Wait<N, H>>, failed: bool): (calls: seq<Call<N>>)
    ensures |calls| == |waits|
    ensures forall i :: 0 <= i < |calls| ==> calls[i] == Call(waits[i].node, failed)
  {
    if waits == [] then [] else [Call(waits[0].node, failed)] + Calls(waits[1..], failed)
  }

  // The waits registered through a handle, and the others, in their order.
  function OwnedBy<N, H(==)>(waits: seq<Wait<N, H>>, owner: H): seq<Wait<N, H>> {
    if waits == [] then [] else
      OwnedBy(waits[..|waits| - 1], owner)
      + if waits[|waits| - 1].owner == owner then [waits[|waits| - 1]] else []
  }

  function NotOwnedBy<N, H(==)>(waits: seq<Wait<N, H>>, owner: H): seq<Wait<N, H>> {
    if waits == [] then [] else
      NotOwnedBy(waits[..|waits| - 1], owner)
      + if waits[|waits| - 1].owner != owner then [waits[|waits| - 1]] else []
  }

  // The waits but the one of a node.
  function Without<N(==), H>(waits: seq<Wait<N, H>>, node: N): seq<Wait<N, H>> {
    if waits == [] then []
    else if waits[0].node == node then waits[1..]
    else [waits[0]] + Without(waits[1..], node)
  }

  function SetEvent<N, H>(s: Shared<N, H>): (Shared<N, H>, seq<Call<N>>) {
    if s.notification then (s.(signalled := true), Calls(s.waits, false))
    else if s.waits != [] then (s.(signalled := false), Calls(s.waits[..1], false))
    else (s.(signalled := true), [])
  }

  function ResetEvent<N, H>(s: Shared<N, H>): Shared<N, H> {
    s.(signalled := false)
  }

  // A closing handle links nothing. A signal there already is delivered, and
  // used up unless the event is a notification event.
  function RegisterWait<N, H>(s: Shared<N, H>, w: Wait<N, H>, closing: bool): (Shared<N, H>, seq<Call<N>>) {
    if closing then (s, [Call(w.node, true)])
    else if s.signalled then
      (s.(signalled := s.notification, waits := s.waits + [w]), [Call(w.node, false)])
    else (s.(waits := s.waits + [w]), [])
  }

  function UnregisterWait<N(==), H(==)>(s: Shared<N, H>, w: Wait<N, H>): (Shared<N, H>, bool) {
    if w in s.waits then (s.(waits := Without(s.waits, w.node)), true) else (s, false)
  }

  function OnCloseHandle<N, H(==)>(s: Shared<N, H>, owner: H, closing: bool): (Shared<N, H>, seq<Call<N>>) {
    if closing then (s, [])
    else (s.(waits := NotOwnedBy(s.waits, owner)), Calls(OwnedBy(s.waits, owner), true))
  }

  // The end of a single wait: it succeeds when there is a signal or the handle
  // is closing, and otherwise only ends by timeout, without success.
  function SingleWait<N, H>(s: Shared<N, H>, closing: bool): (Shared<N, H>, bool) {
    if closing then (s, true)
    else if s.signalled then (s.(signalled := s.notification), true)
    else (s, false)
  }

  // ----- The wait list

  lemma CallsPush<N, H>(waits: seq<Wait<N, H>>, w: Wait<N, H>, failed: bool)
    ensures Calls(waits + [w], failed) == Calls(waits, failed) + [Call(w.node, failed)]
  {
  }

  lemma {:induction false} OwnedMembers<N, H>(waits: seq<Wait<N, H>>, owner: H)
    ensures forall w :: w in OwnedBy(waits, owner) ==> w in waits && w.owner == owner
    ensures forall w :: w in NotOwnedBy(waits, owner) ==> w in waits && w.owner != owner
    ensures forall w :: w in waits ==> w in OwnedBy(waits, owner) || w in NotOwnedBy(waits, owner)
    ensures |OwnedBy(waits, owner)| + |NotOwnedBy(waits, owner)| == |waits|
  {
    if waits != [] {
      OwnedMembers(waits[..|waits| - 1], owner);
      assert waits == waits[..|waits| - 1] + [waits[|waits| - 1]];
    }
  }

  lemma OwnedNext<N, H>(waits: seq<Wait<N, H>>, i: nat, owner: H)
    requires i < |waits|
    ensures var mine := waits[i].owner == owner;
            && OwnedBy(waits[..i + 1], owner) == OwnedBy(waits[..i], owner) + (if mine then [waits[i]] else [])
            && NotOwnedBy(waits[..i + 1], owner) == NotOwnedBy(waits[..i], owner) + if mine then [] else [waits[i]]
  {
    assert waits[..i + 1][..i] == waits[..i];
  }

  // The first i waits have been dealt with: those of the handle are out of the
  // list and have been failed, and the others are still in it.
  ghost predicate Swept<N, H>(waits: seq<Wait<N, H>>, i: nat, owner: H, now: seq<Wait<N, H>>, calls: seq<Call<N>>) {
    && i <= |waits|
    && now == NotOwnedBy(waits[..i], owner) + waits[i..]
    && calls == Calls(OwnedBy(waits[..i], owner), true)
  }

  lemma SweptNone<N, H>(waits: seq<Wait<N, H>>, owner: H)
    ensures Swept(waits, 0, owner, waits, [])
  {
    assert waits[..0] == [];
  }

  lemma SweptAll<N, H>(waits: seq<Wait<N, H>>, owner: H, now: seq<Wait<N, H>>, calls: seq<Call<N>>)
    requires Swept(waits, |waits|, owner, now, calls)
    ensures now == NotOwnedBy(waits, owner) && calls == Calls(OwnedBy(waits, owner), true)
  {
    assert waits[..|waits|] == waits;
  }

  lemma SweptAt<N, H>(waits: seq<Wait<N, H>>, i: nat, owner: H, now: seq<Wait<N, H>>, calls: seq<Call<N>>)
    returns (k: nat)
    requires Swept(waits, i, owner, now, calls) && i < |waits|
    ensures k < |now| && now[k] == waits[i]
    ensures k + 1 == |now| <==> i + 1 == |waits|
    ensures k + 1 < |now| ==> now[k + 1] == waits[i + 1]
    ensures if waits[i].owner == owner then
              Swept(waits, i + 1, owner, now[..k] + now[k + 1..], calls + [Call(waits[i].node, true)])
            else
              Swept(waits, i + 1, owner, now, calls)
  {
    k := |NotOwnedBy(waits[..i], owner)|;
    OwnedNext(waits, i, owner);
    CallsPush(OwnedBy(waits[..i], owner), waits[i], true);
    hide OwnedBy, NotOwnedBy, Calls;
    assert waits[i..] == [waits[i]] + waits[i + 1..];
    assert now[..k] + now[k + 1..] == NotOwnedBy(waits[..i], owner) + waits[i + 1..];
  }

  lemma {:induction false} OwnedDistinct<N, H>(waits: seq<Wait<N, H>>, owner: H)
    requires Distinct(waits)
    ensures Distinct(OwnedBy(waits, owner)) && Distinct(NotOwnedBy(waits, owner))
  {
    if waits != [] {
      var front, last := waits[..|waits| - 1], waits[|waits| - 1];
      OwnedMembers(front, owner);
      OwnedDistinct(front, owner);
      forall w | w in front ensures w.node != last.node {
        var i :| 0 <= i < |front| && front[i] == w;
        assert waits[i] == w;
      }
      DistinctPush(OwnedBy(front, owner), last);
      DistinctPush(NotOwnedBy(front, owner), last);
    }
  }

  lemma DistinctPush<N, H>(waits: seq<Wait<N, H>>, last: Wait<N, H>)
    requires Distinct(waits)
    requires Distinct(waits) && forall w :: w in waits ==> w.node != last.node
    ensures Distinct(waits + [last])
  {
    forall i | 0 <= i < |waits| ensures waits[i].node != last.node {
      assert waits[i] in waits;
    }
  }

  lemma {:induction false} WithoutMembers<N, H>(waits: seq<Wait<N, H>>, node: N)
    requires Distinct(waits)
    ensures Distinct(Without(waits, node))
    ensures forall w :: w in Without(waits, node) ==> w in waits && w.node != node
    ensures forall w :: w in waits && w.node != node ==> w in Without(waits, node)
  {
    if waits != [] && waits[0].node != node {
      WithoutMembers(waits[1..], node);
      var rest := Without(waits[1..], node);
      forall j | 0 <= j < |rest| ensures rest[j].node != waits[0].node {
        assert rest[j] in rest;
        var i :| 0 <= i < |waits[1..]| && waits[1..][i] == rest[j];
        assert waits[i + 1] == rest[j];
      }
    }
  }

  lemma {:induction false} WithoutAt<N, H>(waits: seq<Wait<N, H>>, k: nat)
    requires Distinct(waits) && k < |waits|
    ensures Without(waits, waits[k].node) == waits[..k] + waits[k + 1..]
  {
    if k > 0 {
      WithoutAt(waits[1..], k - 1);
      assert waits[1..][..k - 1] == waits[1..k];
      assert waits[1..][k..] == waits[k + 1..];
    }
  }

  // ----- All runs of one event

  datatype Op<N, H> =
    | Set
    | Reset
    | Register(w: Wait<N, H>)
    | Unregister(w: Wait<N, H>)
    | Close(owner: H)
    | Single(owner: H)

  // The event, its closed handles, and a history: signals given, signals
  // delivered to a wait, given to a single wait that succeeded, and lost (set
  // while there was one already, or reset); and the nodes that were called
  // since they were registered and since the last reset; how many registrations
  // there were, and as which of them each node was registered last.
  datatype World<N, H> = World(event: Shared<N, H>, closed: set<H>,
                               sets: nat, delivered: nat, taken: nat, lost: nat, told: set<N>,
                               arrivals: nat, arrival: map<N, nat>)

  function Told<N(==)>(calls: seq<Call<N>>): set<N> {
    set c | c in calls && !c.failed :: c.node
  }

  // A node must not be linked when it is registered.
  ghost predicate Legal<N, H>(w: World<N, H>, op: Op<N, H>) {
    op.Register? ==> !Registered(w.event.waits, op.w.node)
  }

  function Delivered<N>(calls: seq<Call<N>>): nat {
    if calls == [] then 0 else Count(!calls[0].failed) + Delivered(calls[1..])
  }

  function Step<N(==), H(==)>(w: World<N, H>, op: Op<N, H>): World<N, H> {
    match op
    case Set =>
      var (e, calls) := SetEvent(w.event);
      w.(event := e, sets := w.sets + 1, delivered := w.delivered + Delivered(calls),
         lost := w.lost + Count(w.event.signalled), told := w.told + Told(calls))
    case Reset =>
      w.(event := ResetEvent(w.event), lost := w.lost + Count(w.event.signalled), told := {})
    case Register(x) =>
      var (e, calls) := RegisterWait(w.event, x, x.owner in w.closed);
      w.(event := e, delivered := w.delivered + Delivered(calls), told := w.told - {x.node} + Told(calls),
         arrivals := w.arrivals + 1, arrival := w.arrival[x.node := w.arrivals])
    case Unregister(x) =>
      w.(event := UnregisterWait(w.event, x).0)
    case Close(owner) =>
      var (e, calls) := OnCloseHandle(w.event, owner, owner in w.closed);
      w.(event := e, closed := w.closed + {owner}, delivered := w.delivered + Delivered(calls))
    case Single(owner) =>
      var (e, f) := SingleWait(w.event, owner in w.closed);
      w.(event := e, taken := w.taken + Count(f && owner !in w.closed))
  }

  ghost predicate LegalRun<N, H>(w: World<N, H>, ops: seq<Op<N, H>>)
    decreases |ops|
  {
    ops != [] ==> Legal(w, ops[0]) && LegalRun(Step(w, ops[0]), ops[1..])
  }

  function Run<N(==), H(==)>(w: World<N, H>, ops: seq<Op<N, H>>): World<N, H>
    decreases |ops|
  {
    if ops == [] then w else Run(Step(w, ops[0]), ops[1..])
  }

  function Fresh<N, H>(notification: bool, signalled: bool): World<N, H> {
    World(Shared(notification, signalled, []), {}, 0, 0, 0, 0, {}, 0, map[])
  }

  // The waits are in the order of their registration.
  ghost predicate InOrder<N, H>(waits: seq<Wait<N, H>>, arrivals: nat, arrival: map<N, nat>) {
    && (forall x :: x in waits ==> x.node in arrival && arrival[x.node] < arrivals)
    && (forall i, j :: 0 <= i < j < |waits| ==> arrival[waits[i].node] < arrival[waits[j].node])
  }

  // What every run keeps: no node is linked twice, a closed handle has no
  // waits, every wait beside a signal has been told of it, and a synchronization
  // event neither holds a signal back from a
  // wait nor gives out one that was not set.
  ghost predicate Sound<N, H>(w: World<N, H>, initially: bool) {
    && Distinct(w.event.waits) && InOrder(w.event.waits, w.arrivals, w.arrival)
    && (forall x :: x in w.event.waits ==> x.owner !in w.closed)
    && (w.event.signalled ==> forall x :: x in w.event.waits ==> x.node in w.told)
    && (!w.event.notification ==>
          && (w.event.waits != [] ==> !w.event.signalled)
          && w.delivered + w.taken + w.lost + Count(w.event.signalled) == Count(initially) + w.sets)
  }

  lemma {:induction false} FailuresDeliverNothing<N, H>(waits: seq<Wait<N, H>>)
    ensures Delivered(Calls(waits, true)) == 0
  {
    if waits != [] {
      FailuresDeliverNothing(waits[1..]);
      assert Calls(waits, true)[1..] == Calls(waits[1..], true);
    }
  }

  lemma OneCall<N>(call: Call<N>)
    ensures Delivered([call]) == Count(!call.failed)
  {
    assert [call][1..] == [];
  }

  lemma AllTold<N, H>(waits: seq<Wait<N, H>>)
    ensures forall x :: x in waits ==> x.node in Told(Calls(waits, false))
  {
    forall x | x in waits ensures x.node in Told(Calls(waits, false)) {
      var i :| 0 <= i < |waits| && waits[i] == x;
      assert Calls(waits, false)[i] in Calls(waits, false);
    }
  }

  lemma SetKeepsSound<N, H>(w: World<N, H>, initially: bool)
    requires Sound(w, initially)
    ensures Sound(Step(w, Set), initially)
  {
    AllTold(w.event.waits);
    if !w.event.notification && w.event.waits != [] {
      assert Calls(w.event.waits[..1], false) == [Call(w.event.waits[0].node, false)];
      OneCall(Call(w.event.waits[0].node, false));
    }
  }

  lemma RegisterKeepsSound<N, H>(w: World<N, H>, x: Wait<N, H>, initially: bool)
    requires Sound(w, initially) && !Registered(w.event.waits, x.node)
    ensures Sound(Step(w, Register(x)), initially)
  {
    hide InOrder;
    InOrderRegister(w.event.waits, x, w.arrivals, w.arrival);
    assert Call(x.node, false) in [Call(x.node, false)];
    assert forall y :: y in w.event.waits ==> y.node != x.node;
    OneCall(Call(x.node, true));
    OneCall(Call(x.node, false));
  }

  lemma CloseKeepsSound<N, H>(w: World<N, H>, owner: H, initially: bool)
    requires Sound(w, initially)
    ensures Sound(Step(w, Close(owner)), initially)
  {
    OwnedMembers(w.event.waits, owner);
    OwnedDistinct(w.event.waits, owner);
    OwnedInOrder(w.event.waits, owner, w.arrivals, w.arrival);
    FailuresDeliverNothing(OwnedBy(w.event.waits, owner));
  }

  lemma {:induction false} OwnedInOrder<N, H>(waits: seq<Wait<N, H>>, owner: H, arrivals: nat, arrival: map<N, nat>)
    requires InOrder(waits, arrivals, arrival)
    ensures InOrder(NotOwnedBy(waits, owner), arrivals, arrival)
  {
    if waits != [] {
      var front, last := waits[..|waits| - 1], waits[|waits| - 1];
      InOrderFront(waits, arrivals, arrival);
      OwnedInOrder(front, owner, arrivals, arrival);
      OwnedMembers(front, owner);
      InOrderPush(NotOwnedBy(front, owner), last, arrivals, arrival);
    }
  }

  lemma InOrderFront<N, H>(waits: seq<Wait<N, H>>, arrivals: nat, arrival: map<N, nat>)
    requires InOrder(waits, arrivals, arrival) && waits != []
    ensures var (front, last) := (waits[..|waits| - 1], waits[|waits| - 1]);
            && InOrder(front, arrivals, arrival) && last.node in arrival && arrival[last.node] < arrivals
            && forall x :: x in front ==> arrival[x.node] < arrival[last.node]
  {
    var front := waits[..|waits| - 1];
    assert waits[|waits| - 1] in waits;
    forall x | x in front ensures x in waits && arrival[x.node] < arrival[waits[|waits| - 1].node] {
      var i :| 0 <= i < |front| && front[i] == x;
      assert waits[i] == x;
    }
  }

  lemma InOrderPush<N, H>(waits: seq<Wait<N, H>>, last: Wait<N, H>, arrivals: nat, arrival: map<N, nat>)
    requires InOrder(waits, arrivals, arrival) && last.node in arrival && arrival[last.node] < arrivals
    requires forall x :: x in waits ==> arrival[x.node] < arrival[last.node]
    ensures InOrder(waits + [last], arrivals, arrival)
  {
    forall i | 0 <= i < |waits| ensures arrival[waits[i].node] < arrival[last.node] {
      assert waits[i] in waits;
    }
  }

  lemma UnregisterKeepsSound<N, H>(w: World<N, H>, x: Wait<N, H>, initially: bool)
    requires Sound(w, initially)
    ensures Sound(Step(w, Unregister(x)), initially)
  {
    hide InOrder;
    WithoutMembers(w.event.waits, x.node);
    if x in w.event.waits {
      WithoutInOrder(w.event.waits, x, w.arrivals, w.arrival);
    }
  }

  lemma WithoutInOrder<N, H>(waits: seq<Wait<N, H>>, x: Wait<N, H>, arrivals: nat, arrival: map<N, nat>)
    requires Distinct(waits) && InOrder(waits, arrivals, arrival) && x in waits
    ensures InOrder(Without(waits, x.node), arrivals, arrival)
  {
    var k :| 0 <= k < |waits| && waits[k] == x;
    WithoutAt(waits, k);
  }

  // A node that is not listed, or its wait, comes last.
  lemma InOrderRegister<N, H>(waits: seq<Wait<N, H>>, x: Wait<N, H>, arrivals: nat, arrival: map<N, nat>)
    requires InOrder(waits, arrivals, arrival) && !Registered(waits, x.node)
    ensures InOrder(waits, arrivals + 1, arrival[x.node := arrivals])
    ensures InOrder(waits + [x], arrivals + 1, arrival[x.node := arrivals])
  {
    forall i | 0 <= i < |waits| ensures waits[i].node != x.node && waits[i] in waits {
    }
    InOrderPush(waits, x, arrivals + 1, arrival[x.node := arrivals]);
  }

  lemma StepKeepsSound<N, H>(w: World<N, H>, op: Op<N, H>, initially: bool)
    requires Sound(w, initially) && Legal(w, op)
    ensures Sound(Step(w, op), initially)
  {
    match op
    case Set => SetKeepsSound(w, initially);
    case Register(x) => RegisterKeepsSound(w, x, initially);
    case Unregister(x) => UnregisterKeepsSound(w, x, initially);
    case Close(owner) => CloseKeepsSound(w, owner, initially);
    case Reset =>
    case Single(owner) =>
  }

  lemma FreshIsSound<N, H>(notification: bool, signalled: bool)
    ensures Sound(Fresh<N, H>(notification, signalled), signalled)
  {
  }

  lemma {:induction false} RunsAreSound<N, H>(w: World<N, H>, ops: seq<Op<N, H>>, initially: bool)
    requires Sound(w, initially) && LegalRun(w, ops)
    ensures Sound(Run(w, ops), initially)
    ensures Run(w, ops).event.notification == w.event.notification
    decreases |ops|
  {
    if ops != [] {
      StepKeepsSound(w, ops[0], initially);
      RunsAreSound(Step(w, ops[0]), ops[1..], initially);
    }
  }

  // Every signal given to a synchronization event is delivered to a wait,
  // taken by a single wait, lost or still there; a wait never sits beside a
  // signal.
  lemma SignalsAreConserved<N, H>(signalled: bool, ops: seq<Op<N, H>>)
    requires LegalRun(Fresh<N, H>(false, signalled), ops)
    ensures var w := Run(Fresh(false, signalled), ops);
            && (w.event.waits != [] ==> !w.event.signalled)
            && w.delivered + w.taken + w.lost + Count(w.event.signalled) == Count(signalled) + w.sets
  {
    hide Run, LegalRun, Step, Distinct, Count;
    FreshIsSound<N, H>(false, signalled);
    RunsAreSound(Fresh<N, H>(false, signalled), ops, signalled);
  }

  // Over all runs of a notification event: a wait that is listed while there is a
  // signal has been called since then, and a set calls every listed wait, once.
  lemma NotificationsReachAll<N, H>(signalled: bool, ops: seq<Op<N, H>>)
    requires LegalRun(Fresh<N, H>(true, signalled), ops)
    ensures var w := Run(Fresh(true, signalled), ops);
            && w.event.notification
            && (w.event.signalled ==> forall x :: x in w.event.waits ==> x.node in w.told)
            && SetEvent(w.event).0 == w.event.(signalled := true)
            && (forall x :: x in w.event.waits ==> Call(x.node, false) in SetEvent(w.event).1)
            && |SetEvent(w.event).1| == |w.event.waits|
  {
    hide Run, LegalRun, Step, Count;
    FreshIsSound<N, H>(true, signalled);
    RunsAreSound(Fresh<N, H>(true, signalled), ops, signalled);
    var w := Run(Fresh<N, H>(true, signalled), ops);
    forall x | x in w.event.waits ensures Call(x.node, false) in Calls(w.event.waits, false) {
      var i :| 0 <= i < |w.event.waits| && w.event.waits[i] == x;
      assert Calls(w.event.waits, false)[i] in Calls(w.event.waits, false);
    }
  }

  // Over all runs of a synchronization event, with waits listed: a set goes to the
  // one of them that was registered first, and to no other.
  lemma FirstComeFirstServed<N, H>(signalled: bool, ops: seq<Op<N, H>>)
    requires LegalRun(Fresh<N, H>(false, signalled), ops)
    ensures var w := Run(Fresh(false, signalled), ops);
            w.event.waits != [] ==>
              && (forall x :: x in w.event.waits ==> x.node in w.arrival)
              && exists first :: first in w.event.waits && SetEvent(w.event).1 == [Call(first.node, false)]
                                 && forall x :: x in w.event.waits ==> w.arrival[first.node] <= w.arrival[x.node]
  {
    hide Run, LegalRun, Step, Count;
    FreshIsSound<N, H>(false, signalled);
    RunsAreSound(Fresh<N, H>(false, signalled), ops, signalled);
    var w := Run(Fresh<N, H>(false, signalled), ops);
    if w.event.waits != [] {
      var first := w.event.waits[0];
      assert Calls(w.event.waits[..1], false) == [Call(first.node, false)];
      assert first in w.event.waits;
    }
  }

  // Once a handle is closed it stays so: it has no waits any more, and a
  // registration through it fails.
  lemma {:induction false} ClosedForGood<N, H>(w: World<N, H>, ops: seq<Op<N, H>>, owner: H, initially: bool)
    requires Sound(w, initially) && LegalRun(w, ops) && owner in w.closed
    ensures var t := Run(w, ops);
            && owner in t.closed && (forall x :: x in t.event.waits ==> x.owner != owner)
            && forall x: Wait<N, H> :: x.owner == owner ==>
                 RegisterWait(t.event, x, owner in t.closed) == (t.event, [Call(x.node, true)])
    decreases |ops|
  {
    if ops != [] {
      StepKeepsSound(w, ops[0], initially);
      ClosedForGood(Step(w, ops[0]), ops[1..], owner, initially);
    }
  }

  lemma CloseCloses<N, H>(w: World<N, H>, owner: H)
    ensures owner in Step(w, Close(owner)).closed
  {
  }

  // A wait is unregistered exactly if it is listed, and then it is not any more.
  lemma UnregisterIs<N, H>(s: Shared<N, H>, w: Wait<N, H>)
    requires Distinct(s.waits)
    ensures var (s', ok) := UnregisterWait(s, w);
            && (ok <==> w in s.waits) && w !in s'.waits && s'.signalled == s.signalled
            && (forall x :: x in s'.waits ==> x in s.waits) && (forall x :: x in s.waits && x != w ==> x in s'.waits)
  {
    WithoutMembers(s.waits, w.node);
    forall x | x in s.waits && x != w && w in s.waits ensures x.node != w.node {
      var i, j :| 0 <= i < |s.waits| && 0 <= j < |s.waits| && s.waits[i] == x && s.waits[j] == w;
    }
  }

  // A single wait succeeds exactly on a signal or a closing handle, and only the
  // signal of a synchronization event is gone then.
  lemma SingleWaitIs<N, H>(s: Shared<N, H>, closing: bool)
    ensures SingleWait(s, closing).1 <==> s.signalled || closing
    ensures SingleWait(s, closing).0.signalled <==> s.signalled && (s.notification || closing)
    ensures SingleWait(s, closing).0.waits == s.waits && SingleWait(s, closing).0.notification == s.notification
  {
  }

  // ----- Who gets the next signal

  ghost predicate Removes<N, H>(op: Op<N, H>, x: Wait<N, H>) {
    op == Unregister(x) || op == Close(x.owner)
  }

  lemma {:induction false} HeadNotOwned<N, H>(waits: seq<Wait<N, H>>, owner: H)
    requires waits != [] && waits[0].owner != owner
    ensures NotOwnedBy(waits, owner) != [] && NotOwnedBy(waits, owner)[0] == waits[0]
  {
    if |waits| > 1 {
      HeadNotOwned(waits[..|waits| - 1], owner);
    }
  }

  lemma HeadStays<N, H>(w: World<N, H>, op: Op<N, H>, initially: bool)
    requires Sound(w, initially) && Legal(w, op) && !w.event.notification
    requires w.event.waits != [] && !Removes(op, w.event.waits[0])
    ensures Step(w, op).event.waits != [] && Step(w, op).event.waits[0] == w.event.waits[0]
    ensures !Step(w, op).event.notification
  {
    if op.Close? {
      HeadNotOwned(w.event.waits, op.owner);
    }
  }

  lemma HeadRemoved<N, H>(w: World<N, H>, op: Op<N, H>, initially: bool)
    requires Sound(w, initially) && w.event.waits != [] && Removes(op, w.event.waits[0])
    ensures !Registered(Step(w, op).event.waits, w.event.waits[0].node)
  {
    var waits := w.event.waits;
    WithoutMembers(waits, waits[0].node);
    OwnedMembers(waits, waits[0].owner);
    var rest := Step(w, op).event.waits;
    forall i | 0 <= i < |rest| ensures rest[i].node != waits[0].node {
      assert rest[i] in rest && rest[i] in waits;
    }
  }

  lemma StaysAway<N, H>(w: World<N, H>, op: Op<N, H>, node: N, initially: bool)
    requires Sound(w, initially) && !Registered(w.event.waits, node)
    requires op.Register? ==> op.w.node != node
    ensures !Registered(Step(w, op).event.waits, node)
  {
    var rest := Step(w, op).event.waits;
    if op.Unregister? {
      WithoutMembers(w.event.waits, op.w.node);
    } else if op.Close? {
      OwnedMembers(w.event.waits, op.owner);
    }
    forall i | 0 <= i < |rest| ensures rest[i].node != node {
      assert rest[i] in rest;
    }
  }

  lemma {:induction false} GoneForGood<N, H>(w: World<N, H>, ops: seq<Op<N, H>>, node: N, initially: bool)
    requires Sound(w, initially) && LegalRun(w, ops) && !Registered(w.event.waits, node)
    requires forall op :: op in ops && op.Register? ==> op.w.node != node
    ensures !Registered(Run(w, ops).event.waits, node)
    decreases |ops|
  {
    if ops != [] {
      StepKeepsSound(w, ops[0], initially);
      StaysAway(w, ops[0], node, initially);
      GoneForGood(Step(w, ops[0]), ops[1..], node, initially);
    }
  }

  // A set of a synchronization event goes to the wait x at the head of the
  // list. Whatever happens then, the next set goes to x again unless x has
  // been unregistered or its handle closed in between; if it has, x gets
  // nothing.
  lemma {:induction false} SetsReachDistinctWaits<N, H>(w: World<N, H>, ops: seq<Op<N, H>>, initially: bool)
    requires Sound(w, initially) && LegalRun(w, ops) && !w.event.notification && w.event.waits != []
    requires forall op :: op in ops && op.Register? ==> op.w.node != w.event.waits[0].node
    ensures SetEvent(w.event).1 == [Call(w.event.waits[0].node, false)]
    ensures Call(w.event.waits[0].node, false) in SetEvent(Run(w, ops).event).1
            <==> (forall op :: op in ops ==> !Removes(op, w.event.waits[0]))
    decreases |ops|
  {
    hide Step;
    var x, next := w.event.waits[0], Run(w, ops).event;
    if ops != [] {
      var op, rest := ops[0], ops[1..];
      StepKeepsSound(w, op, initially);
      assert forall o :: o in ops <==> o == op || o in rest;
      if Removes(op, x) {
        HeadRemoved(w, op, initially);
        GoneForGood(Step(w, op), rest, x.node, initially);
        RunsAreSound(w, ops, initially);
        assert next.waits != [] ==> next.waits[0].node != x.node;
      } else {
        HeadStays(w, op, initially);
        SetsReachDistinctWaits(Step(w, op), rest, initially);
      }
    }
  }

  // The node of a wait that is gone may be registered once more, and then gets
  // a later set for the new wait.
  lemma NodeMayComeBack()
    ensures var w: World<int, int> := World(Shared(false, false, [Wait(0, 0)]), {}, 0, 0, 0, 0, {}, 1, map[0 := 0]);
            var ops := [Unregister(Wait(0, 0)), Register(Wait(0, 0))];
            Sound(w, false) && LegalRun(w, ops) && SetEvent(Run(w, ops).event).1 == [Call(0, false)]
  {
    var w: World<int, int> := World(Shared(false, false, [Wait(0, 0)]), {}, 0, 0, 0, 0, {}, 1, map[0 := 0]);
    var ops := [Unregister(Wait(0, 0)), Register(Wait(0, 0))];
    var w1 := Step(w, Unregister(Wait(0, 0)));
    assert w1 == w.(event := Shared(false, false, []));
    var w2 := Step(w1, Register(Wait(0, 0)));
    assert w2.event == w.event;
    assert ops[1..] == [Register(Wait(0, 0))] && [Register(Wait(0, 0))][1..] == [];
    assert LegalRun(w2, []) && Run(w2, []) == w2;
    assert LegalRun(w1, ops[1..]) && Run(w1, ops[1..]) == w2;
    assert Calls(w.event.waits[..1], false) == [Call(0, false)];
  }

  // So two sets in a row go to one wait, and the one behind it gets none.
  lemma SetTwiceMayWakeOne()
    ensures var ops := [Register(Wait(0, 0)), Register(Wait(1, 0)), Set, Set];
            var w := Fresh<int, int>(false, false);
            && LegalRun(w, ops)
            && SetEvent(Run(w, ops[..2]).event).1 == SetEvent(Run(w, ops[..3]).event).1 == [Call(0, false)]
  {
    var w := Fresh<int, int>(false, false);
    var w1 := Step(w, Register(Wait(0, 0)));
    var w2 := Step(w1, Register(Wait(1, 0)));
    var w3 := Step(w2, Set);
    var ops := [Register(Wait(0, 0)), Register(Wait(1, 0)), Set, Set];
    assert ops[1..][0] == Register(Wait(1, 0)) && ops[1..][1..][0] == Set && ops[1..][1..][1..] == [Set];
    assert LegalRun(w3, [Set]);
    assert LegalRun(w2, ops[1..][1..]);
    assert LegalRun(w1, ops[1..]);
    assert Run(w, ops[..2]) == w2 by {
      assert ops[..2][1..] == [Register(Wait(1, 0))];
      assert Run(w1, ops[..2][1..]) == Run(w2, [Register(Wait(1, 0))][1..]);
    }
    assert Run(w, ops[..3]) == w3 by {
      assert ops[..3][1..] == [Register(Wait(1, 0)), Set];
      assert [Register(Wait(1, 0)), Set][1..] == [Set];
      assert Run(w2, [Set]) == Run(w3, [Set][1..]);
    }
    assert Calls(w2.event.waits[..1], false) == [Call(0, false)];
  }
}
