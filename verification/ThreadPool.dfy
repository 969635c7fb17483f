/** The thread pool: the lists of workers and of queued tasks, and any number of
    submitters and workers that race for them. Workers and tasks are numbers. */
module ThreadPool {
  import opened Wrappers

  // What the pool's locks protect.
  datatype Lists = Lists(all: seq<nat>, unused: seq<nat>, creating: nat, stopping: bool, tasks: seq<nat>)

  ghost predicate Distinct(s: seq<nat>) {
    forall i, j :: 0 <= i < j < |s| ==> s[i] != s[j]
  }

  function Without(s: seq<nat>, x: nat): seq<nat> {
    if s == [] then [] else if s[0] == x then s[1..] else [s[0]] + Without(s[1..], x)
  }

  // The elements of s that are not in `out`.
  function Minus(s: seq<nat>, out: set<nat>): seq<nat> {
    if s == [] then [] else (if s[0] in out then [] else [s[0]]) + Minus(s[1..], out)
  }

  lemma {:induction false} WithoutIs(s: seq<nat>, x: nat)
    requires Distinct(s)
    ensures Distinct(Without(s, x))
    ensures forall y :: y in Without(s, x) ==> y in s && y != x
    ensures forall y :: y in s && y != x ==> y in Without(s, x)
    ensures |Without(s, x)| == |s| - if x in s then 1 else 0
  {
    if s != [] && s[0] != x {
      var rest := s[1..];
      WithoutIs(rest, x);
      assert s == [s[0]] + rest;
      forall i | 0 <= i < |Without(rest, x)| ensures Without(rest, x)[i] != s[0] {
        assert Without(rest, x)[i] in rest;
      }
    }
  }

  lemma {:induction false} WithoutAt(s: seq<nat>, k: nat)
    requires Distinct(s) && k < |s|
    ensures Without(s, s[k]) == s[..k] + s[k + 1..]
  {
    if k > 0 {
      var rest, x := s[1..], s[k];
      assert s[0] != x == rest[k - 1];
      WithoutAt(rest, k - 1);
      assert Without(s, x) == [s[0]] + Without(rest, x);
      assert [s[0]] + rest[..k - 1] == s[..k] && rest[k..] == s[k + 1..];
    }
  }

  lemma {:induction false} MinusIs(s: seq<nat>, out: set<nat>)
    ensures forall y :: y in Minus(s, out) ==> y in s && y !in out
    ensures forall y :: y in s && y !in out ==> y in Minus(s, out)
    ensures |Minus(s, out)| <= |s|
    ensures Distinct(s) ==> Distinct(Minus(s, out))
  {
    if s != [] {
      MinusIs(s[1..], out);
      assert s == [s[0]] + s[1..];
    }
  }

  lemma {:induction false} MinusAgree(s: seq<nat>, a: set<nat>, b: set<nat>)
    requires forall y :: y in s ==> (y in a <==> y in b)
    ensures Minus(s, a) == Minus(s, b)
  {
    if s != [] {
      MinusAgree(s[1..], a, b);
    }
  }

  lemma {:induction false} MinusNone(s: seq<nat>)
    ensures Minus(s, {}) == s
  {
    if s != [] {
      MinusNone(s[1..]);
    }
  }

  lemma {:induction false} MinusAdd(s: seq<nat>, a: set<nat>, x: nat)
    requires Distinct(s) && x !in a
    ensures Without(Minus(s, a), x) == Minus(s, a + {x})
  {
    if s != [] {
      if s[0] == x {
        forall i | 0 <= i < |s[1..]| ensures s[1..][i] != x {
          assert s[1..][i] == s[i + 1];
        }
        MinusAgree(s[1..], a, a + {x});
        assert Minus(s, a)[1..] == Minus(s[1..], a);
        assert Minus(s, a + {x}) == Minus(s[1..], a + {x});
      } else {
        MinusAdd(s[1..], a, x);
        assert s[0] !in a ==> Minus(s, a)[1..] == Minus(s[1..], a);
        assert s[0] in a ==> Minus(s, a) == Minus(s[1..], a) && Minus(s, a + {x}) == Minus(s[1..], a + {x});
      }
    }
  }

  // ----- What each section does

  function Members(s: seq<nat>): set<nat> {
    set x | x in s
  }

  // The expired workers leave both lists, but for the one that asks.
  function StopExpired(l: Lists, expired: set<nat>, caller: Option<nat>): Lists {
    if l.stopping then l
    else
      var out := if caller.Some? then expired - {caller.value} else expired;
      l.(all := Minus(l.all, out * Members(l.unused)), unused := Minus(l.unused, out))
  }

  // A sweep takes exactly the unused workers that have expired, but for the one
  // that asks, and only while the pool is not stopping; those that stay are in
  // the order they were in.
  lemma SweptAre(l: Lists, expired: set<nat>, caller: Option<nat>, w: nat)
    requires Distinct(l.all) && Distinct(l.unused) && forall x :: x in l.unused ==> x in l.all
    ensures var l' := StopExpired(l, expired, caller);
            var goes := !l.stopping && w in l.unused && w in expired && caller != Some(w);
            && (w in l'.unused <==> w in l.unused && !goes) && (w in l'.all <==> w in l.all && !goes)
            && (!l.stopping ==> SameOrder(l'.unused, l.unused) && SameOrder(l'.all, l.all))
            && (l.stopping ==> l' == l)
            && l'.tasks == l.tasks && l'.creating == l.creating && l'.stopping == l.stopping
  {
    var out := if caller.Some? then expired - {caller.value} else expired;
    MinusIs(l.unused, out);
    MinusIs(l.all, out * Members(l.unused));
    MinusOrder(l.unused, out);
    MinusOrder(l.all, out * Members(l.unused));
  }

  ghost predicate Before(order: seq<nat>, t: nat, u: nat) {
    exists i, j :: 0 <= i < j < |order| && order[i] == t && order[j] == u
  }

  // All of s is in t, in the order of t.
  ghost predicate SameOrder(s: seq<nat>, t: seq<nat>) {
    forall i, j :: 0 <= i < j < |s| ==> Before(t, s[i], s[j])
  }

  lemma {:induction false} MinusOrder(s: seq<nat>, out: set<nat>)
    ensures SameOrder(Minus(s, out), s)
  {
    if s != [] {
      var rest := s[1..];
      MinusOrder(rest, out);
      MinusIs(rest, out);
      var kept := Minus(rest, out);
      forall i, j | 0 <= i < j < |kept| ensures Before(s, kept[i], kept[j]) {
        assert Before(rest, kept[i], kept[j]);
        BeforeBehind(s, kept[i], kept[j]);
      }
      if s[0] !in out {
        forall j | 0 <= j < |kept| ensures Before(s, s[0], kept[j]) {
          assert kept[j] in rest;
          var m :| 0 <= m < |rest| && rest[m] == kept[j];
          assert s[m + 1] == kept[j];
        }
      }
    }
  }

  lemma BeforeBehind(s: seq<nat>, t: nat, u: nat)
    requires s != [] && Before(s[1..], t, u)
    ensures Before(s, t, u)
  {
    var i, j :| 0 <= i < j < |s[1..]| && s[1..][i] == t && s[1..][j] == u;
    assert s[i + 1] == t && s[j + 1] == u;
  }

  // The front worker that is not used, if any; all there are and will be are
  // counted before it is taken.
  function AfterPop(l: Lists, sweep: bool, expired: set<nat>): (Lists, Option<nat>, nat) {
    if l.unused == [] then (l, None, |l.all| + l.creating)
    else
      var l' := l.(unused := l.unused[1..]);
      (if sweep then StopExpired(l', expired, None) else l', Some(l.unused[0]), |l.all| + l.creating)
  }

  function Reserve(l: Lists, maxThreads: nat): (Lists, bool) {
    if l.stopping || |l.all| + l.creating >= maxThreads then (l, false)
    else (l.(creating := l.creating + 1), true)
  }

  function Dequeue(l: Lists, task: nat): (Lists, bool) {
    if task in l.tasks then (l.(tasks := Without(l.tasks, task)), true) else (l, false)
  }

  // A worker that has finished takes the first queued task, if the pool's mode
  // and a free task lock let it, and is otherwise put in front of the unused.
  function AfterFree(l: Lists, worker: nat, handOff: bool): (Lists, Option<nat>) {
    if handOff && l.tasks != [] then (l.(tasks := l.tasks[1..]), Some(l.tasks[0]))
    else (l.(unused := [worker] + l.unused), None)
  }

  // ----- The pool itself

  class Pool {
    const MaxThreads: nat
    const FailMode: bool    // OVERFLOW_MODE::FAIL, else WAIT
    var All: seq<nat>
    var Unused: seq<nat>
    var CreatingWorkers: nat
    var Stopping: bool
    var Tasks: seq<nat>

    ghost function Abs(): Lists
      reads this
    {
      Lists(All, Unused, CreatingWorkers, Stopping, Tasks)
    }

    ghost predicate Valid()
      reads this
    {
      Distinct(All) && Distinct(Unused) && Distinct(Tasks) && forall w :: w in Unused ==> w in All
    }

    constructor (maxThreads: nat, failMode: bool)
      ensures Valid() && Abs() == Lists([], [], 0, false, [])
      ensures MaxThreads == maxThreads && FailMode == failMode
    {
      MaxThreads, FailMode := maxThreads, failMode;
      All, Unused, CreatingWorkers, Stopping, Tasks := [], [], 0, false, [];
    }

    method SetStopping()
      modifies this`Stopping
      ensures Abs() == old(Abs()).(stopping := true)
    {
      Stopping := true;
    }

    method Find(list: seq<nat>, x: nat) returns (k: nat)
      requires Distinct(list)
      ensures k <= |list| && (k < |list| <==> x in list)
      ensures k < |list| ==> list[k] == x && Without(list, x) == list[..k] + list[k + 1..]
    {
      k := 0;
      while k < |list|
        invariant 0 <= k <= |list| && forall j :: 0 <= j < k ==> list[j] != x
      {
        if list[k] == x {
          WithoutAt(list, k);
          return;
        }
        k := k + 1;
      }
    }

    // The worker to stop, if it is not the caller's own.
    ghost function Out(expired: set<nat>, caller: Option<nat>): set<nat> {
      if caller.Some? then expired - {caller.value} else expired
    }

    ghost predicate Self(expired: set<nat>, caller: Option<nat>)
      reads this`Unused
    {
      caller.Some? && caller.value in expired && caller.value in Unused
    }

    // The first expired worker other than the caller. `self` is set when the
    // caller comes before it.
    method FindExpired(expired: set<nat>, caller: Option<nat>) returns (k: nat, self: bool)
      ensures k <= |Unused|
      ensures k < |Unused| ==> Unused[k] in Out(expired, caller)
      ensures k == |Unused| ==> forall w :: w in Unused ==> w !in Out(expired, caller)
      ensures self ==> Self(expired, caller)
      ensures k == |Unused| && Self(expired, caller) ==> self
    {
      k, self := 0, false;
      while k < |Unused|
        invariant 0 <= k <= |Unused|
        invariant forall j :: 0 <= j < k ==> Unused[j] !in Out(expired, caller)
        invariant self ==> Self(expired, caller)
        invariant !self ==> forall j :: 0 <= j < k ==> Unused[j] in expired ==> Some(Unused[j]) != caller
      {
        if Unused[k] in expired {
          if caller.Some? && Unused[k] == caller.value {
            self := true;
          } else {
            return;
          }
        }
        k := k + 1;
      }
    }

    // One scan of the unused workers, up to the first that is stopped.
    method SweepOnce(expired: set<nat>, caller: Option<nat>) returns (cont: bool, self: bool, ghost w: nat)
      requires Valid()
      modifies this`All, this`Unused
      ensures Valid()
      ensures if cont then
                && w in old(Unused) && w in Out(expired, caller)
                && All == Without(old(All), w) && Unused == Without(old(Unused), w) && |Unused| < |old(Unused)|
              else
                unchanged(this) && forall w :: w in Unused ==> w !in Out(expired, caller)
      ensures self ==> Self(expired, caller)
      ensures !cont && Self(expired, caller) ==> self
    {
      var k;
      k, self := FindExpired(expired, caller);
      w := 0;
      if k == |Unused| {
        return false, self, 0;
      }
      var worker := Unused[k];
      WithoutAt(Unused, k);
      WithoutIs(Unused, worker);
      WithoutIs(All, worker);
      var a := Find(All, worker);
      Unused := Unused[..k] + Unused[k + 1..];
      All := All[..a] + All[a + 1..];
      return true, self, worker;
    }

    // Starts over after every worker it removes, until none is left to remove.
    // `again` is whether the timer is set again, for the caller's own sake.
    method LockedStopExpired(expired: set<nat>, caller: Option<nat>) returns (again: bool)
      requires Valid()
      modifies this`All, this`Unused
      ensures Valid()
      ensures Abs() == StopExpired(old(Abs()), expired, caller)
      ensures again <==> !Stopping && Self(expired, caller)
    {
      again := false;
      if Stopping {
        return;
      }
      ghost var removed: set<nat> := {};
      MinusNone(All);
      MinusNone(Unused);
      var cont := true;
      while cont
        invariant Valid()
        invariant removed <= Out(expired, caller) * Members(old(Unused))
        invariant All == Minus(old(All), removed) && Unused == Minus(old(Unused), removed)
        invariant again ==> Self(expired, caller)
        invariant !cont ==> forall w :: w in Unused ==> w !in Out(expired, caller)
        invariant !cont && Self(expired, caller) ==> again
        decreases |Unused|, cont
      {
        ghost var w;
        var self;
        ghost var unused := Unused;
        MinusIs(old(Unused), removed);
        cont, self, w := SweepOnce(expired, caller);
        again := again || self;
        if cont {
          WithoutIs(unused, w);
          MinusAdd(old(All), removed, w);
          MinusAdd(old(Unused), removed, w);
          removed := removed + {w};
        }
      }
      MinusIs(old(Unused), removed);
      MinusAgree(old(Unused), removed, Out(expired, caller));
      MinusAgree(old(All), removed, Out(expired, caller) * Members(old(Unused)));
    }

    method PopUnused(sweep: bool, expired: set<nat>) returns (w: Option<nat>, allCount: nat)
      requires Valid()
      modifies this`All, this`Unused
      ensures Valid()
      ensures (Abs(), w, allCount) == AfterPop(old(Abs()), sweep, expired)
    {
      allCount := |All| + CreatingWorkers;
      if Unused == [] {
        return None, allCount;
      }
      w := Some(Unused[0]);
      Unused := Unused[1..];
      if sweep {
        var _ := LockedStopExpired(expired, None);
      }
    }

    method ReserveWorkerSlot() returns (ok: bool)
      modifies this`CreatingWorkers
      ensures (Abs(), ok) == Reserve(old(Abs()), MaxThreads)
    {
      if Stopping || |All| + CreatingWorkers >= MaxThreads {
        return false;
      }
      CreatingWorkers := CreatingWorkers + 1;
      return true;
    }

    method ReleaseWorkerSlot()
      requires CreatingWorkers > 0
      modifies this`CreatingWorkers
      ensures Abs() == old(Abs()).(creating := old(CreatingWorkers) - 1)
    {
      CreatingWorkers := CreatingWorkers - 1;
    }

    // The first and the last section of CreateWorker: the new worker is listed
    // before it is started, and unlisted if it could not be.
    method ListWorker(w: nat)
      requires Valid() && w !in All
      modifies this`All
      ensures Valid() && Abs() == old(Abs()).(all := old(All) + [w])
    {
      All := All + [w];
    }

    method UnlistWorker(w: nat)
      requires Valid() && w !in Unused
      modifies this`All
      ensures Valid() && Abs() == old(Abs()).(all := Without(old(All), w))
    {
      WithoutIs(All, w);
      var k := Find(All, w);
      if k < |All| {
        All := All[..k] + All[k + 1..];
      } else {
        NotThere(All, w);
      }
    }

    method PushUnused(w: nat)
      requires Valid() && w in All && w !in Unused
      modifies this`Unused
      ensures Valid() && Abs() == old(Abs()).(unused := old(Unused) + [w])
    {
      Unused := Unused + [w];
    }

    method QueueTask(task: nat)
      requires Valid() && task !in Tasks
      modifies this`Tasks
      ensures Valid() && Abs() == old(Abs()).(tasks := old(Tasks) + [task])
    {
      Tasks := Tasks + [task];
    }

    method DequeueTask(task: nat) returns (ok: bool)
      requires Valid()
      modifies this`Tasks
      ensures Valid() && (Abs(), ok) == Dequeue(old(Abs()), task)
    {
      WithoutIs(Tasks, task);
      var k := Find(Tasks, task);
      if k < |Tasks| {
        Tasks := Tasks[..k] + Tasks[k + 1..];
        return true;
      }
      return false;
    }

    // `locked`: the task lock was free.
    method OnFree(worker: nat, locked: bool) returns (task: Option<nat>)
      requires Valid() && worker in All && worker !in Unused
      modifies this`Tasks, this`Unused
      ensures Valid() && (Abs(), task) == AfterFree(old(Abs()), worker, FailMode && locked)
    {
      if FailMode && locked {
        if Tasks != [] {
          task := Some(Tasks[0]);
          Tasks := Tasks[1..];
          return;
        }
      }
      Unused := [worker] + Unused;
      return None;
    }
  }

  lemma {:induction false} NotThere(s: seq<nat>, x: nat)
    requires x !in s
    ensures Without(s, x) == s
  {
    if s != [] {
      NotThere(s[1..], x);
    }
  }
}
