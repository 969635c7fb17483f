/** Events and their handles. The waits registered with an event are nodes that
    the waiters own, threaded into a doubly linked list; linking and unlinking
    one takes no search. */
module EventList {
  import opened EventSpec

  class EventWaitNode {
    var Prev: EventWaitNode?
    var Next: EventWaitNode?
    var Owner: Event?

    constructor ()
      ensures Owner == null && Prev == null && Next == null
    {
      Prev, Next, Owner := null, null, null;
    }

    // A node with an owner is linked in the list of the owner's event.
    ghost predicate Valid()
      reads this, if Owner == null then {} else {Owner.State}
    {
      Owner != null ==> this in Owner.State.Nodes
    }
  }

  ghost function Before(nodes: seq<EventWaitNode>, i: nat): EventWaitNode?
    requires i < |nodes|
  {
    if i == 0 then null else nodes[i - 1]
  }

  ghost function After(nodes: seq<EventWaitNode>, i: nat): EventWaitNode?
    requires i < |nodes|
  {
    if i == |nodes| - 1 then null else nodes[i + 1]
  }

  // The neighbours of node j once node k is out of the list.
  lemma NeighboursPast(nodes: seq<EventWaitNode>, k: nat, j: nat)
    requires k < |nodes| && j < |nodes| && j != k
    requires forall a, b :: 0 <= a < b < |nodes| ==> nodes[a] != nodes[b]
    ensures var left, i := nodes[..k] + nodes[k + 1..], if j < k then j else j - 1;
            && Before(left, i) == (if nodes[j] == After(nodes, k) then Before(nodes, k) else Before(nodes, j))
            && After(left, i) == (if nodes[j] == Before(nodes, k) then After(nodes, k) else After(nodes, j))
  {
  }

  // ... and the ends of the list.
  lemma Ends(nodes: seq<EventWaitNode>, k: nat)
    requires k < |nodes| && forall a, b :: 0 <= a < b < |nodes| ==> nodes[a] != nodes[b]
    ensures forall n :: n == Before(nodes, k) || n == After(nodes, k) ==> n == null || (n in nodes && n != nodes[k])
    ensures var left := nodes[..k] + nodes[k + 1..];
            && (if Before(nodes, k) == null then After(nodes, k) else nodes[0]) == (if left == [] then null else left[0])
            && (if After(nodes, k) == null then Before(nodes, k) else nodes[|nodes| - 1])
               == (if left == [] then null else left[|left| - 1])
  {
  }

  // The nodes with the handles they were registered through.
  ghost function WaitsOf(nodes: seq<EventWaitNode>): (waits: seq<Wait<EventWaitNode, Event?>>)
    reads nodes`Owner
    ensures |waits| == |nodes|
    ensures forall i :: 0 <= i < |nodes| ==> waits[i] == Wait(nodes[i], nodes[i].Owner)
  {
    if nodes == [] then [] else
      WaitsOf(nodes[..|nodes| - 1]) + [Wait(nodes[|nodes| - 1], nodes[|nodes| - 1].Owner)]
  }

  class EventState {
    const Notification: bool
    var Signalled: bool
    var WaitsHead: EventWaitNode?
    var WaitsTail: EventWaitNode?

    ghost var Nodes: seq<EventWaitNode>          // the list, from head to tail
    ghost var Called: seq<Call<EventWaitNode>>   // every completion ever called

    constructor (notification: bool, signalled: bool)
      ensures Valid() && Abs() == Shared(notification, signalled, [])
      ensures Nodes == [] && Called == []
    {
      Notification, Signalled := notification, signalled;
      WaitsHead, WaitsTail := null, null;
      Nodes, Called := [], [];
    }

    // Head, Tail, Prev and Next spell out a sequence without duplicates.
    ghost predicate Linked()
      reads this`Nodes, this`WaitsHead, this`WaitsTail, Nodes`Prev, Nodes`Next
    {
      && (forall i, j :: 0 <= i < j < |Nodes| ==> Nodes[i] != Nodes[j])
      && WaitsHead == (if Nodes == [] then null else Nodes[0])
      && WaitsTail == (if Nodes == [] then null else Nodes[|Nodes| - 1])
      && (forall i {:trigger Before(Nodes, i)} {:trigger After(Nodes, i)} :: 0 <= i < |Nodes| ==>
            Nodes[i].Prev == Before(Nodes, i) && Nodes[i].Next == After(Nodes, i))
    }

    ghost predicate Owned()
      reads this`Nodes, Nodes`Owner
    {
      forall n :: n in Nodes ==> n.Owner != null && n.Owner.State == this
    }

    ghost predicate Valid()
      reads this`Nodes, this`WaitsHead, this`WaitsTail, Nodes
    {
      Linked() && Owned()
    }

    lemma Head()
      requires Valid()
      ensures WaitsHead == (if Nodes == [] then null else Nodes[0])
    {
    }

    lemma NextIs(i: nat)
      requires Linked() && i < |Nodes|
      ensures Nodes[i].Next == if i == |Nodes| - 1 then null else Nodes[i + 1]
    {
      assert Nodes[i].Next == After(Nodes, i);
    }

    // Of these nodes, exactly those with an owner are linked, and no others are.
    ghost predicate Exactly(nodes: seq<EventWaitNode>)
      reads this`Nodes, nodes`Owner
    {
      && (forall i :: 0 <= i < |Nodes| ==> Nodes[i] in nodes)
      && (forall n :: n in nodes ==> (n.Owner != null ==> n in Nodes))
    }

    lemma AllLinked()
      requires Valid()
      ensures Exactly(Nodes)
    {
    }

    lemma NodesDistinct()
      requires Linked()
      ensures Distinct(WaitsOf(Nodes))
    {
    }

    ghost function Abs(): Shared<EventWaitNode, Event?>
      reads this`Nodes, this`Signalled, Nodes`Owner
    {
      Shared(Notification, Signalled, WaitsOf(Nodes))
    }

    method LinkWait(node: EventWaitNode)
      requires Linked() && node !in Nodes
      modifies this`WaitsHead, this`WaitsTail, this`Nodes, node`Prev, node`Next, Nodes`Next
      ensures Linked() && Nodes == old(Nodes) + [node]
    {
      ghost var was, last := Nodes, |Nodes| - 1;
      node.Prev := WaitsTail;
      node.Next := null;
      if WaitsTail != null {
        WaitsTail.Next := node;
      } else {
        WaitsHead := node;
      }
      WaitsTail := node;
      Nodes := was + [node];
      assert node.Prev == Before(Nodes, |was|) && node.Next == After(Nodes, |was|);
      forall i | 0 <= i < |was| ensures Nodes[i].Prev == Before(Nodes, i) && Nodes[i].Next == After(Nodes, i) {
        assert Nodes[i] == was[i] && was[i] in was;
        assert old(was[i].Prev) == Before(was, i) && old(was[i].Next) == After(was, i);
        if i != last {
          assert was[i] != was[last];
          assert After(Nodes, i) == was[i + 1];
        }
      }
    }

    // The neighbours of a node come to point past it, to each other.
    method Bypass(node: EventWaitNode)
      requires node in Nodes
      requires node.Prev != null ==> node.Prev in Nodes && node.Prev != node
      requires node.Next != null ==> node.Next in Nodes && node.Next != node
      modifies this`WaitsHead, this`WaitsTail, Nodes`Prev, Nodes`Next
      ensures node.Prev == null && node.Next == null
      ensures WaitsHead == if old(node.Prev) == null then old(node.Next) else old(WaitsHead)
      ensures WaitsTail == if old(node.Next) == null then old(node.Prev) else old(WaitsTail)
      ensures forall n :: n in Nodes && n != node ==>
                && n.Prev == (if n == old(node.Next) then old(node.Prev) else old(n.Prev))
                && n.Next == (if n == old(node.Prev) then old(node.Next) else old(n.Next))
    {
      if node.Prev != null {
        node.Prev.Next := node.Next;
      } else {
        WaitsHead := node.Next;
      }
      if node.Next != null {
        node.Next.Prev := node.Prev;
      } else {
        WaitsTail := node.Prev;
      }
      node.Prev := null;
      node.Next := null;
    }

    method UnlinkWait(node: EventWaitNode, ghost k: nat)
      requires Linked() && k < |Nodes| && Nodes[k] == node
      modifies this`WaitsHead, this`WaitsTail, this`Nodes, Nodes`Prev, Nodes`Next
      ensures Linked() && Nodes == old(Nodes[..k] + Nodes[k + 1..])
      ensures node.Prev == null && node.Next == null
    {
      hide Before, After;
      ghost var was := Nodes;
      assert node.Prev == Before(was, k) && node.Next == After(was, k);
      Ends(was, k);
      Bypass(node);
      Nodes := was[..k] + was[k + 1..];
      forall i | 0 <= i < |Nodes| ensures Nodes[i].Prev == Before(Nodes, i) && Nodes[i].Next == After(Nodes, i) {
        var j := if i < k then i else i + 1;
        assert Nodes[i] == was[j] && was[j] in was && was[j] != was[k];
        assert old(was[j].Prev) == Before(was, j) && old(was[j].Next) == After(was, j);
        NeighboursPast(was, k, j);
      }
    }

    method Append(node: EventWaitNode, owner: Event)
      requires Valid() && node.Owner == null && owner.State == this
      modifies this`WaitsHead, this`WaitsTail, this`Nodes, node, Nodes`Next
      ensures Valid() && Nodes == old(Nodes) + [node] && node.Owner == owner
      ensures WaitsOf(Nodes) == old(WaitsOf(Nodes)) + [Wait(node, owner as Event?)]
    {
      hide Linked;
      ghost var nodes := Nodes;
      node.Owner := owner;
      assert Linked();
      LinkWait(node);
      assert Nodes[..|nodes|] == nodes;
    }

    method Remove(node: EventWaitNode, ghost k: nat)
      requires Valid() && k < |Nodes| && Nodes[k] == node
      modifies this`WaitsHead, this`WaitsTail, this`Nodes, node`Owner, Nodes`Prev, Nodes`Next
      ensures Valid() && Nodes == old(Nodes[..k] + Nodes[k + 1..]) && node.Owner == null
      ensures WaitsOf(Nodes) == old(WaitsOf(Nodes)[..k] + WaitsOf(Nodes)[k + 1..])
    {
      hide WaitsOf;
      ghost var nodes := Nodes;
      assert forall i :: 0 <= i < |nodes| && i != k ==> nodes[i] != node;
      UnlinkWait(node, k);
      node.Owner := null;
      assert Owned() by {
        hide Linked;
        forall n | n in Nodes ensures n in nodes && n != node {
          assert n in nodes[..k] || n in nodes[k + 1..];
        }
      }
    }
  }

  // A handle. All handles made from one another share one state.
  class Event {
    const State: EventState
    var Closing: bool

    constructor (notification: bool, signalled: bool)
      ensures fresh(State) && State.Valid() && !Closing
      ensures State.Abs() == Shared(notification, signalled, [])
    {
      State := new EventState(notification, signalled);
      Closing := false;
    }

    constructor Share(state: EventState)
      ensures State == state && !Closing
    {
      State := state;
      Closing := false;
    }

    method Duplicate() returns (d: Event?)
      ensures d == null <==> Closing
      ensures d != null ==> fresh(d) && d.State == State && !d.Closing
    {
      if Closing {
        return null;
      }
      d := new Event.Share(State);
    }

    method SetEvent()
      requires State.Valid()
      modifies State`Signalled, State`Called
      ensures State.Valid()
      ensures var (e, calls) := EventSpec.SetEvent(old(State.Abs()));
              State.Abs() == e && State.Called == old(State.Called) + calls
    {
      hide EventState.Linked, EventState.Owned, WaitsOf, Calls;
      ghost var nodes, waits := State.Nodes, WaitsOf(State.Nodes);
      State.Head();
      State.Signalled := true;
      if State.Notification {
        var node := State.WaitsHead;
        ghost var i := 0;
        while node != null
          invariant 0 <= i <= |nodes| && node == (if i == |nodes| then null else nodes[i])
          invariant State.Called == old(State.Called) + Calls(waits, false)[..i] && State.Signalled
          decreases |nodes| - i
        {
          State.NextIs(i);
          assert Calls(waits, false)[..i + 1] == Calls(waits, false)[..i] + [Call(nodes[i], false)];
          State.Called := State.Called + [Call(node, false)];
          node := node.Next;
          i := i + 1;
        }
        assert Calls(waits, false)[..i] == Calls(waits, false);
      } else if State.WaitsHead != null {
        State.Signalled := false;
        State.Called := State.Called + [Call(State.WaitsHead, false)];
        assert Calls(waits[..1], false) == [Call(nodes[0], false)];
      }
    }

    method ResetEvent()
      requires State.Valid()
      modifies State`Signalled
      ensures State.Valid() && State.Abs() == EventSpec.ResetEvent(old(State.Abs()))
    {
      State.Signalled := false;
    }

    // What a single wait does when it is woken, or at once, or at its timeout.
    method FinishWait() returns (f: bool)
      requires State.Valid()
      modifies State`Signalled
      ensures State.Valid()
      ensures (State.Abs(), f) == SingleWait(old(State.Abs()), Closing)
    {
      f := State.Signalled || Closing;
      if f && !Closing && State.Signalled && !State.Notification {
        State.Signalled := false;
      }
    }

    method RegisterWait(node: EventWaitNode)
      requires State.Valid() && node.Owner == null
      modifies State, node, State.Nodes`Next
      ensures State.Valid() && node.Valid()
      ensures var (e, calls) := EventSpec.RegisterWait(old(State.Abs()), Wait(node, this), Closing);
              State.Abs() == e && State.Called == old(State.Called) + calls
      ensures node.Owner == if Closing then null else this
    {
      hide EventState.Linked, EventState.Owned, WaitsOf;
      if Closing {
        State.Called := State.Called + [Call(node, true)];
        return;
      }
      State.Append(node, this);
      if State.Signalled {
        if !State.Notification {
          State.Signalled := false;
        }
        State.Called := State.Called + [Call(node, false)];
      }
    }

    method UnregisterWait(node: EventWaitNode) returns (ok: bool)
      requires State.Valid() && node.Valid()
      modifies State, node, State.Nodes`Prev, State.Nodes`Next
      ensures State.Valid() && node.Valid()
      ensures (State.Abs(), ok) == EventSpec.UnregisterWait(old(State.Abs()), Wait(node, this))
      ensures State.Called == old(State.Called)
      ensures ok <==> old(node.Owner) == this
      ensures ok ==> node.Owner == null
      ensures !ok ==> node.Owner == old(node.Owner)
    {
      hide EventState.Linked, EventState.Owned, WaitsOf;
      if node.Owner != this {
        return false;
      }
      ghost var waits := WaitsOf(State.Nodes);
      ghost var k :| 0 <= k < |State.Nodes| && State.Nodes[k] == node;
      State.NodesDistinct();
      WithoutAt(waits, k);
      State.Remove(node, k);
      return true;
    }

    // One turn of OnCloseHandle's loop, at the node that was i-th in the list.
    method CloseNode(node: EventWaitNode, ghost nodes: seq<EventWaitNode>,
                     ghost waits: seq<Wait<EventWaitNode, Event?>>, ghost i: nat, ghost calls: seq<Call<EventWaitNode>>)
      returns (next: EventWaitNode?)
      requires State.Valid() && State.Exactly(nodes) && i < |waits| && waits[i].node == node
      requires Swept(waits, i, this, WaitsOf(State.Nodes), calls)
      modifies State, nodes
      ensures State.Valid() && State.Exactly(nodes) && State.Signalled == old(State.Signalled)
      ensures var added := if waits[i].owner == this then [Call(node, true)] else [];
              && State.Called == old(State.Called) + added
              && Swept(waits, i + 1, this, WaitsOf(State.Nodes), calls + added)
      ensures next == if i + 1 == |waits| then null else waits[i + 1].node
    {
      hide EventState.Linked, EventState.Owned, WaitsOf, Swept;
      ghost var now := WaitsOf(State.Nodes);
      ghost var k := SweptAt(waits, i, this, now, calls);
      assert now[k] == Wait(State.Nodes[k], State.Nodes[k].Owner);
      State.NextIs(k);
      next := node.Next;
      if node.Owner == this {
        State.Remove(node, k);
        State.Called := State.Called + [Call(node, true)];
      } else {
        assert calls + [] == calls;
      }
    }

    // Fails every wait registered through this handle, and no other; those of
    // its duplicates stay, in their order.
    method OnCloseHandle()
      requires State.Valid()
      modifies this, State, State.Nodes
      ensures State.Valid() && State.Exactly(old(State.Nodes)) && Closing
      ensures var (e, calls) := EventSpec.OnCloseHandle(old(State.Abs()), this, old(Closing));
              State.Abs() == e && State.Called == old(State.Called) + calls
    {
      hide EventState.Linked, EventState.Owned, EventState.Exactly, WaitsOf, Calls, OwnedBy, NotOwnedBy, Swept;
      State.AllLinked();
      if Closing {
        return;
      }
      Closing := true;
      ghost var nodes, waits := State.Nodes, WaitsOf(State.Nodes);
      State.Head();
      var node := State.WaitsHead;
      ghost var i, calls := 0, [];
      SweptNone(waits, this);
      while node != null
        invariant 0 <= i <= |nodes| && node == (if i == |nodes| then null else nodes[i])
        invariant Closing && State.Valid() && State.Exactly(nodes) && State.Signalled == old(State.Signalled)
        invariant Swept(waits, i, this, WaitsOf(State.Nodes), calls)
        invariant State.Called == old(State.Called) + calls
        decreases |nodes| - i
      {
        ghost var before := State.Called;
        node := CloseNode(node, nodes, waits, i, calls);
        calls := calls + State.Called[|before|..];
        i := i + 1;
      }
      SweptAll(waits, this, WaitsOf(State.Nodes), calls);
    }
  }
}
