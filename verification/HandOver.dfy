/** A mutex leaving its owner's hands: straight to the first waiter when there is one. */
module HandOvers {
  import opened Lists
  import opened ReadyQueue
  import opened KernelState
  import opened Inheritance
  import opened Transitions

  /** `self` owns `m` and waits for nothing, as a running caller of unlock does. */
  ghost predicate Releases(k: K, m: MutexId, self: TaskId) {
    && Sound(k) && m in k.mutexes && k.mutexes[m].owner == Some(self)
    && self in k.tasks && k.tasks[self].wait.None?
  }

  /** The state in which the new owner, unlinked, still names `m` as its wait object. */
  function Given(k: K, m: MutexId, self: TaskId): K
    requires m in k.mutexes && self in k.tasks
  {
    var q := Q(k, MutexQ(m));
    var k1 := HandOver(k, m, self);
    if q == [] then k1 else k1.(waiters := k1.waiters[MutexQ(m) := Without(q, q[0])])
  }

  lemma FirstWaiter(k: K, m: MutexId, self: TaskId)
    requires Releases(k, m, self) && Q(k, MutexQ(m)) != []
    ensures var next := Q(k, MutexQ(m))[0];
            next in k.tasks && next != self && k.tasks[next].wait == Some(MutexQ(m)) && m !in k.tasks[next].held
  {
    var next := Q(k, MutexQ(m))[0];
    assert next in Q(k, MutexQ(m));
    assert Owner(k, m) == Some(self);
  }

  ghost predicate GivenShape(k: K, m: MutexId, self: TaskId, r: K)
    requires self in k.tasks
  {
    var q := Q(k, MutexQ(m));
    && r.tasks.Keys == k.tasks.Keys && r.ready == k.ready
    && (forall t :: t in k.tasks ==> r.tasks[t] == k.tasks[t].(held := r.tasks[t].held))
    && (forall t :: t in k.tasks && t != self && (q != [] ==> t != q[0]) ==> r.tasks[t] == k.tasks[t])
    && r.tasks[self].held == Without(k.tasks[self].held, m)
    && (forall n :: n != m ==> Owner(r, n) == Owner(k, n))
    && (forall l :: l != MutexQ(m) ==> Q(r, l) == Q(k, l))
    && (q == [] ==> Owner(r, m).None? && Q(r, MutexQ(m)) == [])
    && (q != [] ==> q[0] in k.tasks && q[0] != self && k.tasks[q[0]].wait == Some(MutexQ(m))
                    && Owner(r, m) == Some(q[0])
                    && Q(r, MutexQ(m)) == Without(q, q[0])
                    && r.tasks[q[0]].held == k.tasks[q[0]].held + [m])
  }

  lemma GivenIsShaped(k: K, m: MutexId, self: TaskId)
    requires Releases(k, m, self)
    ensures GivenShape(k, m, self, Given(k, m, self))
  {
    hide Sound, Without;
    var q := Q(k, MutexQ(m));
    if q != [] {
      FirstWaiter(k, m, self);
      GivenLists(k, m, self);
      GivenTasks(k, m, self, q[0]);
      hide Q, Given, HandOver;
    } else {
      assert Given(k, m, self) == HandOver(k, m, self);
    }
  }

  lemma GivenLists(k: K, m: MutexId, self: TaskId)
    requires m in k.mutexes && self in k.tasks && Q(k, MutexQ(m)) != []
    ensures var q := Q(k, MutexQ(m)); var r := Given(k, m, self);
            && Q(r, MutexQ(m)) == Without(q, q[0]) && forall l :: l != MutexQ(m) ==> Q(r, l) == Q(k, l)
  {
    hide Without;
  }

  lemma GivenTasks(k: K, m: MutexId, self: TaskId, w: TaskId)
    requires m in k.mutexes && self in k.tasks && Q(k, MutexQ(m)) != [] && Q(k, MutexQ(m))[0] == w && w in k.tasks && w != self
    ensures var r := Given(k, m, self);
            && r.tasks == k.tasks[self := k.tasks[self].(held := Without(k.tasks[self].held, m))]
                                 [w := k.tasks[w].(held := k.tasks[w].held + [m])]
            && r.mutexes == k.mutexes[m := Mutex(Some(w), 1)] && r.ready == k.ready
  {
    hide Without, Q;
  }

  lemma ShapedOwners(k: K, m: MutexId, self: TaskId, r: K)
    requires Owner(k, m) == Some(self) && self in k.tasks
    requires OwnersOk(k) && NoDup(Q(k, MutexQ(m))) && GivenShape(k, m, self, r)
    ensures OwnersOk(r)
  {
    var q := Q(k, MutexQ(m));
    WithoutIsDeletion(k.tasks[self].held, m);
    if q != [] {
      WithoutIsDeletion(q, q[0]);
      assert m !in k.tasks[q[0]].held;
    }
    forall t, n | t in k.tasks ensures n in r.tasks[t].held <==> Owner(r, n) == Some(t) {
      assert n in k.tasks[t].held <==> Owner(k, n) == Some(t);
    }
    forall n | Q(r, MutexQ(n)) != [] ensures Owner(r, n).Some? && Owner(r, n).value !in Q(r, MutexQ(n)) {}
  }

  lemma ShapedList(k: K, m: MutexId, self: TaskId, r: K, l: WaitList)
    requires self in k.tasks && NoDup(Q(k, l)) && GivenShape(k, m, self, r)
    ensures NoDup(Q(r, l)) && forall t :: t in Q(r, l) ==> t in Q(k, l)
    ensures l.MutexQ? && SortedByPriority(k.tasks, Q(k, l)) ==> SortedByPriority(r.tasks, Q(r, l))
  {
    var q := Q(k, l);
    if l == MutexQ(m) && q != [] {
      WithoutIsDeletion(q, q[0]);
      if SortedByPriority(k.tasks, q) {
        WithoutIsSorted(k.tasks, q, q[0]);
      }
    }
    if SortedByPriority(k.tasks, q) {
      StillSorted(k.tasks, r.tasks, Q(r, l));
    }
  }

  lemma ShapedLists(k: K, m: MutexId, self: TaskId, r: K)
    requires self in k.tasks && WaitersOk(k) && WaitersSorted(k) && GivenShape(k, m, self, r)
    ensures WaitersOk(r) && WaitersSorted(r)
  {
    forall l ensures NoDup(Q(r, l)) && forall t :: t in Q(r, l) ==> t in Q(k, l) {
      assert NoDup(Q(k, l));
      ShapedList(k, m, self, r, l);
    }
    forall n ensures SortedByPriority(r.tasks, Q(r, MutexQ(n))) {
      assert NoDup(Q(k, MutexQ(n))) && SortedByPriority(k.tasks, Q(k, MutexQ(n)));
      ShapedList(k, m, self, r, MutexQ(n));
    }
  }

  lemma GivenSound(k: K, m: MutexId, self: TaskId)
    requires Releases(k, m, self)
    ensures Sound(Given(k, m, self))
  {
    var r := Given(k, m, self);
    GivenIsShaped(k, m, self);
    assert NoDup(Q(k, MutexQ(m)));
    assert PrioritiesInRange(r) && ReadyOk(r) && |r.tasks| <= TASK_LIMIT by {
      hide Given, HandOver, WaitersOk, WaitersSorted, OwnersOk, NoDup;
    }
    hide PrioritiesInRange, ReadyOk, WaitersOk, WaitersSorted, OwnersOk, Given, GivenShape;
    ShapedOwners(k, m, self, r);
    ShapedLists(k, m, self, r);
  }

  /** Only the two hands the mutex passes between are unsettled. */
  lemma ShapedFixed(k: K, m: MutexId, self: TaskId, r: K, t: TaskId)
    requires self in k.tasks && Owner(k, m) == Some(self) && OwnersOk(k) && WaitersOk(k) && GivenShape(k, m, self, r)
    requires t in k.tasks && t != self && (Q(k, MutexQ(m)) != [] ==> t != Q(k, MutexQ(m))[0])
    requires FixedAt(k, t)
    ensures FixedAt(r, t)
  {
    forall n | n in k.tasks[t].held ensures Top(r, n) == Top(k, n) {
      assert Owner(k, n) == Some(t);
      if Q(k, MutexQ(n)) != [] {
        assert Q(k, MutexQ(n))[0] in Q(k, MutexQ(n));
      }
    }
    hide OwnersOk, WaitersOk, GivenShape;
    MaxTopSame(k, r, k.tasks[t].held, k.tasks[t].held, k.tasks[t].base);
  }

  lemma GivenFixed(k: K, m: MutexId, self: TaskId)
    requires Releases(k, m, self) && Fixed(k, {})
    ensures var q := Q(k, MutexQ(m));
            Fixed(Given(k, m, self), {self} + if q == [] then {} else {q[0]})
  {
    var r := Given(k, m, self);
    var q := Q(k, MutexQ(m));
    GivenIsShaped(k, m, self);
    hide Given, HandOver, OwnersOk, WaitersOk, WaitersSorted, PrioritiesInRange, ReadyOk, FixedAt;
    forall t | t in k.tasks && t != self && (q != [] ==> t != q[0]) ensures FixedAt(r, t) {
      ShapedFixed(k, m, self, r, t);
    }
  }

  /** The other waiters now wait for the new owner, which waits for nobody. */
  lemma ShapedNext(k: K, m: MutexId, self: TaskId, r: K, t: TaskId)
    requires self in k.tasks && Owner(k, m) == Some(self) && k.tasks[self].wait.None? && GivenShape(k, m, self, r)
    requires t in k.tasks && Next(r, t).Some?
    ensures if k.tasks[t].wait == Some(MutexQ(m))
            then Next(k, t) == Some(self) && Q(k, MutexQ(m)) != [] && t != Q(k, MutexQ(m))[0]
                 && Next(r, t) == Some(Q(k, MutexQ(m))[0])
            else Next(r, t) == Next(k, t) && (Q(k, MutexQ(m)) != [] ==> t != Q(k, MutexQ(m))[0])
  {}

  lemma ShapedKeys(k: K, m: MutexId, self: TaskId, r: K)
    requires self in k.tasks && GivenShape(k, m, self, r)
    ensures r.tasks.Keys == k.tasks.Keys
    ensures Q(k, MutexQ(m)) != [] ==> Q(k, MutexQ(m))[0] in k.tasks
  {}

  function Lowered(rank: map<TaskId, nat>, q: seq<TaskId>): map<TaskId, nat> {
    if q == [] then rank else rank[q[0] := 0]
  }

  lemma LoweredStep(k: K, m: MutexId, self: TaskId, r: K, rank: map<TaskId, nat>, t: TaskId)
    requires self in k.tasks && Owner(k, m) == Some(self) && k.tasks[self].wait.None? && GivenShape(k, m, self, r)
    requires Ranked(k, rank) && t in k.tasks && Next(r, t).Some?
    ensures var lowered := Lowered(rank, Q(k, MutexQ(m)));
            t in lowered && Next(r, t).value in lowered && lowered[Next(r, t).value] < lowered[t]
  {
    hide Next, Q;
    ShapedKeys(k, m, self, r);
    ShapedNext(k, m, self, r, t);
    hide GivenShape;
    RankedStep(k, t, rank);
  }

  lemma GivenRanked(k: K, m: MutexId, self: TaskId, r: K, rank: map<TaskId, nat>)
    requires self in k.tasks && Owner(k, m) == Some(self) && k.tasks[self].wait.None? && GivenShape(k, m, self, r)
    requires Ranked(k, rank)
    ensures Ranked(r, Lowered(rank, Q(k, MutexQ(m))))
  {
    hide GivenShape, Next, Q, Owner;
    ShapedKeys(k, m, self, r);
    forall t | t in r.tasks && Next(r, t).Some?
      ensures Next(r, t).value in Lowered(rank, Q(k, MutexQ(m)))
      ensures Lowered(rank, Q(k, MutexQ(m)))[Next(r, t).value] < Lowered(rank, Q(k, MutexQ(m)))[t]
    {
      LoweredStep(k, m, self, r, rank, t);
    }
  }

  lemma GivenAcyclic(k: K, m: MutexId, self: TaskId)
    requires Releases(k, m, self) && Acyclic(k)
    ensures Acyclic(Given(k, m, self))
  {
    hide Given, HandOver, Sound, GivenShape, Next, Q, Ranked;
    GivenIsShaped(k, m, self);
    var rank :| Ranked(k, rank);
    GivenRanked(k, m, self, Given(k, m, self), rank);
  }

  /** After the hand-over the woken task still names `m`, but is already its owner:
      leaving the wait list re-settles the new owner itself. */
  lemma HeldOnlyLists(k: K, r: K)
    requires WaitersOk(k) && r.waiters == k.waiters && r.tasks.Keys == k.tasks.Keys
    requires forall t :: t in k.tasks ==> r.tasks[t].wait == k.tasks[t].wait
    ensures WaitersOk(r) && forall l :: Q(r, l) == Q(k, l)
  {
    hide NoDup;
    assert forall l :: Q(r, l) == Q(k, l);
  }

  lemma NewHeld(tasks: map<TaskId, Tcb>, t: TaskId, held: seq<MutexId>)
    requires t in tasks
    ensures var r := tasks[t := tasks[t].(held := held)];
            r.Keys == tasks.Keys && forall u :: u in tasks ==> r[u] == tasks[u].(held := r[u].held)
  {}

  lemma HandOverWaits(k: K, m: MutexId, self: TaskId)
    requires m in k.mutexes && self in k.tasks
    ensures var r := HandOver(k, m, self);
            && r.waiters == k.waiters && r.tasks.Keys == k.tasks.Keys
            && forall t :: t in k.tasks ==> r.tasks[t] == k.tasks[t].(held := r.tasks[t].held)
  {
    hide Without;
    var q := Q(k, MutexQ(m));
    hide Q;
    var held := Without(k.tasks[self].held, m);
    var tasks := k.tasks[self := k.tasks[self].(held := held)];
    NewHeld(k.tasks, self, held);
    if q != [] && q[0] in k.tasks {
      NewHeld(tasks, q[0], tasks[q[0]].held + [m]);
      assert HandOver(k, m, self).tasks == tasks[q[0] := tasks[q[0]].(held := tasks[q[0]].held + [m])];
    } else {
      assert HandOver(k, m, self).tasks == tasks;
    }
  }

  lemma GivenIsUnlinked(k: K, m: MutexId, self: TaskId)
    requires Releases(k, m, self) && Q(k, MutexQ(m)) != []
    ensures var k1 := HandOver(k, m, self); var next := Q(k, MutexQ(m))[0];
            && WaitersOk(k1) && Linked(k1, next) && k1.tasks[next].wait == Some(MutexQ(m))
            && Unlink(k1, next) == Given(k, m, self)
            && k1.tasks[next].state == k.tasks[next].state
  {
    hide NoDup, HandOver, WaitersOk, OwnersOk, ReadyOk, WaitersSorted;
    var k1 := HandOver(k, m, self);
    FirstWaiter(k, m, self);
    assert Q(k, MutexQ(m))[0] in Q(k, MutexQ(m));
    HandOverWaits(k, m, self);
    HeldOnlyLists(k, k1);
  }

  lemma HandOverWakes(k: K, m: MutexId, self: TaskId)
    requires Releases(k, m, self) && Acyclic(k) && Fixed(k, {})
    requires Q(k, MutexQ(m)) != [] && Q(k, MutexQ(m))[0] in k.tasks
    requires k.tasks[Q(k, MutexQ(m))[0]].state == Blocked
    ensures var next := Q(k, MutexQ(m))[0]; var k1 := HandOver(k, m, self);
            var r := Wake(k1, next, Ok);
            Sound(r) && Acyclic(r) && Fixed(r, {self}) && Freed(k1, next, Ok, Ready, r)
  {
    var next := Q(k, MutexQ(m))[0];
    var k1 := HandOver(k, m, self);
    var u := Given(k, m, self);
    GivenIsUnlinked(k, m, self);
    GivenSound(k, m, self);
    GivenAcyclic(k, m, self);
    GivenFixed(k, m, self);
    FirstWaiter(k, m, self);
    assert Owner(u, m) == Some(next);
    assert {self} + {next} == {self} + {Owner(u, m).value};
    hide Sound, Acyclic, Fixed, WaitersOk, OnlyPriorities, Detached, Given, HandOver, Freed, Wake, Releases;
    RecomputeOwnerRestores(u, m, {self});
    assert LeaveWaitList(k1, next) == RecomputeOwner(u, m);
    DetachShape(k1, next, Ok);
    hide LeaveWaitList, RecomputeOwner, ClearWait, Linked;
    KeysKept(k1, next);
    ClearWaitKeeps(LeaveWaitList(k1, next), next, Ok, {self});
    WakeAfterDetach(k1, next, Ok, {self});
  }
}
