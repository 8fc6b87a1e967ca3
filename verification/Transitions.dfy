/** What the building blocks of the kernel calls (leaving a wait list, waking,
    blocking, hand-over) do to the structures and to the priority fix-point. */
module Transitions {
  import opened Lists
  import opened ReadyQueue
  import opened KernelState
  import opened Inheritance
  import opened WaitsFor

  // ----- changes that leave queues, owners and priorities alone

  /** Nothing priority inheritance looks at differs, except that a task in no list
      may have stopped naming one. */
  ghost predicate SameShape(k: K, r: K) {
    && r.tasks.Keys == k.tasks.Keys
    && (forall t :: t in k.tasks ==>
          && r.tasks[t].prio == k.tasks[t].prio && r.tasks[t].base == k.tasks[t].base
          && r.tasks[t].held == k.tasks[t].held
          && (r.tasks[t].wait == k.tasks[t].wait || (r.tasks[t].wait.None? && !Linked(k, t))))
    && (forall m :: Owner(r, m) == Owner(k, m))
    && r.waiters == k.waiters
  }

  lemma SameShapeFixed(k: K, r: K, except: set<TaskId>)
    requires SameShape(k, r) && Fixed(k, except)
    requires forall l, t :: t in Q(k, l) ==> t in k.tasks
    ensures Fixed(r, except)
  {
    forall m ensures Top(r, m) == Top(k, m) {
      if Q(k, MutexQ(m)) != [] {
        assert Q(k, MutexQ(m))[0] in Q(k, MutexQ(m));
      }
    }
    forall t | t in k.tasks && t !in except ensures FixedAt(r, t) {
      assert FixedAt(k, t);
      MaxTopSame(k, r, k.tasks[t].held, k.tasks[t].held, k.tasks[t].base);
    }
  }

  lemma SameShapeLists(k: K, r: K)
    requires SameShape(k, r) && WaitersOk(k)
    ensures WaitersOk(r)
  {
    hide NoDup;
    assert forall l :: Q(r, l) == Q(k, l);
    forall l, t | t in Q(r, l) ensures t in r.tasks && r.tasks[t].wait == Some(l) {
      assert t in Q(k, l);
    }
  }

  lemma SameShapeSorted(k: K, r: K)
    requires SameShape(k, r) && WaitersSorted(k)
    ensures WaitersSorted(r)
  {
    forall m ensures SortedByPriority(r.tasks, Q(r, MutexQ(m))) {
      assert SortedByPriority(k.tasks, Q(k, MutexQ(m)));
      StillSorted(k.tasks, r.tasks, Q(k, MutexQ(m)));
    }
  }

  lemma SameShapeOwners(k: K, r: K)
    requires SameShape(k, r) && OwnersOk(k)
    ensures OwnersOk(r)
  {
    hide NoDup;
    assert forall l :: Q(r, l) == Q(k, l);
  }

  lemma SameShapeRange(k: K, r: K)
    requires SameShape(k, r) && PrioritiesInRange(k) && |k.tasks.Keys| <= TASK_LIMIT
    ensures PrioritiesInRange(r) && |r.tasks| <= TASK_LIMIT
  {}

  lemma SameShapeSound(k: K, r: K)
    requires SameShape(k, r) && Sound(k) && ReadyOk(r)
    ensures Sound(r)
  {
    hide SameShape, WaitersOk, WaitersSorted, OwnersOk, PrioritiesInRange, ReadyOk;
    SameShapeLists(k, r);
    SameShapeSorted(k, r);
    SameShapeOwners(k, r);
    SameShapeRange(k, r);
  }

  lemma SameShapeAcyclic(k: K, r: K)
    requires SameShape(k, r) && Acyclic(k)
    ensures Acyclic(r)
  {
    var rank :| Ranked(k, rank);
    forall t | t in r.tasks && Next(r, t).Some? ensures Next(r, t) == Next(k, t) {
      assert Owner(r, r.tasks[t].wait.value.mutex) == Owner(k, r.tasks[t].wait.value.mutex);
    }
    assert Ranked(r, rank);
  }

  lemma SameShapeKeeps(k: K, r: K, except: set<TaskId>)
    requires SameShape(k, r) && Sound(k) && ReadyOk(r) && Fixed(k, except) && Acyclic(k)
    ensures Sound(r) && Fixed(r, except) && Acyclic(r)
  {
    hide ReadyOk, WaitersSorted, OwnersOk, Fixed, Acyclic, SameShape;
    assert forall l, t :: t in Q(k, l) ==> t in k.tasks;
    SameShapeFixed(k, r, except);
    SameShapeSound(k, r);
    SameShapeAcyclic(k, r);
  }

  // ----- leaving a wait list

  lemma UnlinkLists(k: K, t: TaskId, l: WaitList)
    requires WaitersOk(k) && Linked(k, t)
    ensures NoDup(Q(Unlink(k, t), l))
    ensures forall u :: u in Q(Unlink(k, t), l) <==> u in Q(k, l) && u != t
    ensures k.tasks[t].wait != Some(l) ==> Q(Unlink(k, t), l) == Q(k, l) && t !in Q(k, l)
  {
    assert NoDup(Q(k, l));
    WithoutIsDeletion(Q(k, l), t);
  }

  lemma UnlinkSound(k: K, t: TaskId)
    requires Sound(k) && Linked(k, t)
    ensures Sound(Unlink(k, t))
  {
    var r := Unlink(k, t);
    assert WaitersSorted(r) by {
      forall m ensures SortedByPriority(r.tasks, Q(r, MutexQ(m))) {
        assert SortedByPriority(k.tasks, Q(k, MutexQ(m))) && NoDup(Q(k, MutexQ(m)));
        if k.tasks[t].wait == Some(MutexQ(m)) {
          WithoutIsSorted(k.tasks, Q(k, MutexQ(m)), t);
        }
      }
    }
    assert WaitersOk(r) by {
      forall l ensures NoDup(Q(r, l)) && forall u :: u in Q(r, l) ==> u in Q(k, l) {
        UnlinkLists(k, t, l);
      }
    }
    assert OwnersOk(r) by {
      assert forall m :: Owner(r, m) == Owner(k, m);
      forall m | Q(r, MutexQ(m)) != []
        ensures Owner(r, m).Some? && Owner(r, m).value !in Q(r, MutexQ(m))
      {
        UnlinkLists(k, t, MutexQ(m));
        assert Q(r, MutexQ(m))[0] in Q(k, MutexQ(m));
      }
    }
    assert ReadyOk(r);
  }

  /** Leaving a mutex's list unsettles at most its owner, leaving any other list nobody. */
  lemma UnlinkFixed(k: K, t: TaskId, except: set<TaskId>)
    requires Sound(k) && Linked(k, t) && Fixed(k, except)
    ensures Fixed(Unlink(k, t),
                  if k.tasks[t].wait.value.MutexQ? && Owner(k, k.tasks[t].wait.value.mutex).Some?
                  then except + {Owner(k, k.tasks[t].wait.value.mutex).value} else except)
  {
    var r := Unlink(k, t);
    forall u | u in k.tasks && u !in except &&
               (k.tasks[t].wait.value.MutexQ? ==> Owner(k, k.tasks[t].wait.value.mutex) != Some(u))
      ensures FixedAt(r, u)
    {
      assert FixedAt(k, u);
      forall m | m in k.tasks[u].held ensures Top(r, m) == Top(k, m) {
        assert Owner(k, m) == Some(u);
      }
      MaxTopSame(k, r, k.tasks[u].held, k.tasks[u].held, k.tasks[u].base);
    }
  }

  lemma UnlinkNext(k: K, t: TaskId)
    requires Linked(k, t)
    ensures forall u :: Next(Unlink(k, t), u) == Next(k, u)
    ensures Unlink(k, t).tasks == k.tasks && Unlink(k, t).mutexes == k.mutexes
  {}

  lemma RecomputeOwnerRestores(k: K, m: MutexId, except: set<TaskId>)
    requires Sound(k) && Acyclic(k)
    requires Fixed(k, if Owner(k, m).Some? then except + {Owner(k, m).value} else except)
    ensures Sound(RecomputeOwner(k, m)) && Acyclic(RecomputeOwner(k, m))
    ensures Fixed(RecomputeOwner(k, m), except) && OnlyPriorities(k, RecomputeOwner(k, m))
  {
    var rank :| Ranked(k, rank);
    if Owner(k, m).Some? {
      OwnerExists(k, m);
      RecomputeKeepsAll(k, Owner(k, m).value, rank, except);
    }
  }

  lemma OwnerExists(k: K, m: MutexId)
    requires Sound(k) && Owner(k, m).Some?
    ensures Owner(k, m).value in k.tasks && m in k.tasks[Owner(k, m).value].held
  {}

  lemma RecomputeKeepsAll(k: K, t: TaskId, rank: map<TaskId, nat>, except: set<TaskId>)
    requires Sound(k) && Ranked(k, rank) && Fixed(k, except + {t}) && t in k.tasks
    ensures var r := Recompute(k, t, 0);
            Sound(r) && Ranked(r, rank) && Fixed(r, except) && OnlyPriorities(k, r)
  {
    hide Sound, Fixed, Recompute;
    RecomputeRestores(k, t, 0, rank, {}, except);
    OnlyPrioritiesNext(k, Recompute(k, t, 0));
  }

  lemma OnlyPrioritiesNext(k: K, r: K)
    requires OnlyPriorities(k, r)
    ensures forall t :: Next(r, t) == Next(k, t)
  {}

  /** Everything a detached task gives up, and nothing else, is gone. */
  ghost predicate Detached(k: K, t: TaskId, result: Code, r: K) {
    && r.tasks.Keys == k.tasks.Keys && t in k.tasks
    && (forall u :: u in k.tasks && u != t ==> r.tasks[u] == k.tasks[u].(prio := r.tasks[u].prio))
    && r.tasks[t] == k.tasks[t].(prio := r.tasks[t].prio, wait := None, result := result)
    && r == k.(tasks := r.tasks, ready := r.ready, waiters := r.waiters, timeouts := Without(k.timeouts, t))
    && (forall l, u :: u in Q(r, l) <==> u in Q(k, l) && !(u == t && k.tasks[t].wait == Some(l)))
  }

  lemma LeaveWaitListKeeps(k: K, t: TaskId, except: set<TaskId>)
    requires Sound(k) && Acyclic(k) && Fixed(k, except) && Linked(k, t)
    ensures var r := LeaveWaitList(k, t);
            Sound(r) && Acyclic(r) && Fixed(r, except) && OnlyPriorities(Unlink(k, t), r)
  {
    hide Sound, Fixed, OnlyPriorities, RecomputeOwner;
    var u := Unlink(k, t);
    UnlinkSound(k, t);
    UnlinkFixed(k, t, except);
    UnlinkNext(k, t);
    var rank :| Ranked(k, rank);
    RankedCarries(k, u, rank);
    if k.tasks[t].wait.value.MutexQ? {
      RecomputeOwnerRestores(u, k.tasks[t].wait.value.mutex, except);
    } else {
      OnlyPrioritiesReflexive(u);
    }
  }

  lemma OnlyPrioritiesReflexive(k: K)
    ensures OnlyPriorities(k, k)
  {}

  lemma KeysKept(k: K, t: TaskId)
    requires t in k.tasks
    requires Linked(k, t) ==> OnlyPriorities(Unlink(k, t), LeaveWaitList(k, t))
    ensures LeaveWaitList(k, t).tasks.Keys == k.tasks.Keys
  {}

  lemma ClearWaitShape(k: K, t: TaskId, result: Code)
    requires ReadyOk(k) && t in k.tasks && !Linked(k, t)
    ensures SameShape(k, ClearWait(k, t, result)) && ReadyOk(ClearWait(k, t, result))
  {}

  lemma ClearWaitKeeps(k: K, t: TaskId, result: Code, except: set<TaskId>)
    requires Sound(k) && Acyclic(k) && Fixed(k, except) && t in k.tasks && !Linked(k, t)
    ensures var r := ClearWait(k, t, result);
            Sound(r) && Acyclic(r) && Fixed(r, except)
  {
    hide ReadyOk, WaitersSorted, WaitersOk, OwnersOk, Acyclic, Fixed, SameShape, ClearWait;
    ClearWaitShape(k, t, result);
    SameShapeKeeps(k, ClearWait(k, t, result), except);
  }

  lemma DetachShape(k: K, t: TaskId, result: Code)
    requires WaitersOk(k) && t in k.tasks
    requires var r1 := LeaveWaitList(k, t);
             if Linked(k, t) then OnlyPriorities(Unlink(k, t), r1) else r1 == k
    ensures Detached(k, t, result, Detach(k, t, result))
    ensures !Linked(LeaveWaitList(k, t), t)
  {
    var r1 := LeaveWaitList(k, t);
    forall l, u ensures u in Q(r1, l) <==> u in Q(k, l) && !(u == t && k.tasks[t].wait == Some(l)) {
      if Linked(k, t) {
        UnlinkLists(k, t, l);
      }
    }
  }

  /** `task_detach_wait_locked` keeps the structures, the absence of cycles and the fix-point. */
  lemma DetachKeeps(k: K, t: TaskId, result: Code, except: set<TaskId>)
    requires Sound(k) && Acyclic(k) && Fixed(k, except) && t in k.tasks
    ensures var r := Detach(k, t, result);
            Sound(r) && Acyclic(r) && Fixed(r, except) && Detached(k, t, result, r)
  {
    var r1 := LeaveWaitList(k, t);
    assert WaitersOk(k);
    hide Sound, Acyclic, Fixed, WaitersOk, OnlyPriorities, Detached;
    if Linked(k, t) {
      LeaveWaitListKeeps(k, t, except);
    }
    DetachShape(k, t, result);
    hide LeaveWaitList, ClearWait, Linked;
    assert t in r1.tasks by { KeysKept(k, t); }
    ClearWaitKeeps(r1, t, result, except);
  }

  // ----- becoming ready

  lemma AddKeepsReadyOk(k: K, t: TaskId, r: K)
    requires ReadyOk(k) && t in k.tasks && !Runnable(k.tasks[t].state) && InRange(k.tasks[t].prio)
    requires r.tasks == k.tasks[t := k.tasks[t].(state := Ready)]
    requires r.ready == Add(k.ready, k.tasks[t].prio, t)
    ensures ReadyOk(r)
  {
    AddIsAddition(k.ready, k.tasks[t].prio, t);
  }

  lemma PreemptionOnlyFlags(k: K)
    ensures RequestPreemption(k) == k.(resched := RequestPreemption(k).resched)
  {}

  lemma ReadyOkIsAboutTasks(k: K, r: K)
    requires ReadyOk(k) && r.tasks == k.tasks && r.ready == k.ready
    ensures ReadyOk(r)
  {}

  lemma MakeReadyShape(k: K, t: TaskId)
    requires PrioritiesInRange(k) && ReadyOk(k) && t in k.tasks && !Runnable(k.tasks[t].state)
    ensures SameShape(k, MakeReady(k, t)) && ReadyOk(MakeReady(k, t))
    ensures var r := MakeReady(k, t);
            r == k.(tasks := k.tasks[t := k.tasks[t].(state := Ready)], ready := r.ready, resched := r.resched)
  {
    var r1 := k.(tasks := k.tasks[t := k.tasks[t].(state := Ready)], ready := Add(k.ready, k.tasks[t].prio, t));
    AddKeepsReadyOk(k, t, r1);
    PreemptionOnlyFlags(r1);
    ReadyOkIsAboutTasks(r1, MakeReady(k, t));
  }

  lemma MakeReadyKeeps(k: K, t: TaskId, except: set<TaskId>)
    requires Sound(k) && Acyclic(k) && Fixed(k, except) && t in k.tasks && !Runnable(k.tasks[t].state)
    ensures var r := MakeReady(k, t);
            Sound(r) && Acyclic(r) && Fixed(r, except)
    ensures var r := MakeReady(k, t);
            r == k.(tasks := k.tasks[t := k.tasks[t].(state := Ready)], ready := r.ready, resched := r.resched)
  {
    hide ReadyOk, PrioritiesInRange, WaitersSorted, WaitersOk, OwnersOk, Acyclic, Fixed, SameShape, MakeReady;
    MakeReadyShape(k, t);
    SameShapeKeeps(k, MakeReady(k, t), except);
  }

  /** A freed task names no list, is in none, and is in state `s`; others at most changed priority. */
  ghost predicate Freed(k: K, t: TaskId, result: Code, s: TaskState, r: K) {
    && r.tasks.Keys == k.tasks.Keys && t in k.tasks
    && (forall u :: u in k.tasks && u != t ==> r.tasks[u] == k.tasks[u].(prio := r.tasks[u].prio))
    && r.tasks[t] == k.tasks[t].(prio := r.tasks[t].prio, wait := None, result := result, state := s)
    && r == k.(tasks := r.tasks, ready := r.ready, waiters := r.waiters, timeouts := Without(k.timeouts, t),
               resched := r.resched)
    && (forall l, u :: u in Q(r, l) <==> u in Q(k, l) && !(u == t && k.tasks[t].wait == Some(l)))
  }

  lemma DetachedIsFreed(k: K, t: TaskId, result: Code, s: TaskState, d: K, r: K)
    requires Detached(k, t, result, d)
    requires r == d.(tasks := d.tasks[t := d.tasks[t].(state := s)], ready := r.ready, resched := r.resched)
    ensures Freed(k, t, result, s, r)
  {}

  lemma DetachedState(k: K, t: TaskId, result: Code, d: K)
    requires Detached(k, t, result, d)
    ensures t in d.tasks && d.tasks[t].state == k.tasks[t].state
  {}

  lemma WakeAfterDetach(k: K, t: TaskId, result: Code, except: set<TaskId>)
    requires t in k.tasks && k.tasks[t].state in {Blocked, Delayed}
    requires var d := Detach(k, t, result);
             Sound(d) && Acyclic(d) && Fixed(d, except) && Detached(k, t, result, d)
    ensures var r := Wake(k, t, result);
            Sound(r) && Acyclic(r) && Fixed(r, except) && Freed(k, t, result, Ready, r)
  {
    hide Sound, Acyclic, Fixed, Freed, Detached, Detach, MakeReady;
    var d := Detach(k, t, result);
    DetachedState(k, t, result, d);
    MakeReadyKeeps(d, t, except);
    DetachedIsFreed(k, t, result, Ready, d, MakeReady(d, t));
  }

  /** `aixos_task_wake` keeps the structures, the absence of cycles and the fix-point. */
  lemma WakeKeeps(k: K, t: TaskId, result: Code, except: set<TaskId>)
    requires Sound(k) && Acyclic(k) && Fixed(k, except)
    requires t in k.tasks && k.tasks[t].state in {Blocked, Delayed}
    ensures var r := Wake(k, t, result);
            Sound(r) && Acyclic(r) && Fixed(r, except) && Freed(k, t, result, Ready, r)
  {
    hide Sound, Acyclic, Fixed, Freed, Detached, Detach, Wake;
    DetachKeeps(k, t, result, except);
    WakeAfterDetach(k, t, result, except);
  }

  // ----- blocking

  lemma ParkReady(k: K, t: TaskId, l: Option<WaitList>)
    requires ReadyOk(k) && t in k.tasks && InRange(k.tasks[t].prio)
    ensures ReadyOk(Park(k, t, l))
  {
    RemoveIsDeletion(k.ready, k.tasks[t].prio, t);
  }

  lemma ParkList(k: K, t: TaskId, l: Option<WaitList>, x: WaitList)
    requires WaitersOk(k) && t in k.tasks && k.tasks[t].wait.None?
    ensures NoDup(Q(Park(k, t, l), x))
    ensures forall u :: u in Q(Park(k, t, l), x) <==> u in Q(k, x) || (u == t && l == Some(x))
    ensures l != Some(x) ==> Q(Park(k, t, l), x) == Q(k, x)
  {
    var r := Park(k, t, l);
    assert NoDup(Q(k, x)) && t !in Q(k, x);
    if l == Some(x) {
      InsertAtIsAddition(Q(k, x), PriorityPosition(r.tasks, Q(k, x), t), t);
    }
  }

  lemma ParkLists(k: K, t: TaskId, l: Option<WaitList>)
    requires WaitersOk(k) && t in k.tasks && k.tasks[t].wait.None?
    ensures WaitersOk(Park(k, t, l))
    ensures forall x, u :: u in Q(Park(k, t, l), x) <==> u in Q(k, x) || (u == t && l == Some(x))
  {
    var r := Park(k, t, l);
    hide NoDup, InsertByPriority, Remove;
    forall x
      ensures NoDup(Q(r, x)) && forall u :: u in Q(r, x) <==> u in Q(k, x) || (u == t && l == Some(x))
    {
      ParkList(k, t, l, x);
    }
    assert r.tasks.Keys == k.tasks.Keys && r.tasks[t].wait == l;
    assert forall u :: u in k.tasks && u != t ==> r.tasks[u] == k.tasks[u];
    forall x, u | u in Q(r, x) ensures u in r.tasks && r.tasks[u].wait == Some(x) {}
  }

  lemma ParkSorted(k: K, t: TaskId, l: Option<WaitList>)
    requires WaitersSorted(k) && t in k.tasks
    ensures WaitersSorted(Park(k, t, l))
  {
    var r := Park(k, t, l);
    forall m ensures SortedByPriority(r.tasks, Q(r, MutexQ(m))) {
      assert SortedByPriority(k.tasks, Q(k, MutexQ(m)));
      StillSorted(k.tasks, r.tasks, Q(k, MutexQ(m)));
      if l == Some(MutexQ(m)) {
        InsertedIsSorted(r.tasks, Q(k, MutexQ(m)), t);
      }
    }
  }

  lemma ParkOwners(k: K, t: TaskId, l: Option<WaitList>)
    requires OwnersOk(k) && WaitersOk(k) && t in k.tasks && k.tasks[t].wait.None?
    requires l.Some? && l.value.MutexQ? ==> Owner(k, l.value.mutex).Some? && Owner(k, l.value.mutex) != Some(t)
    ensures OwnersOk(Park(k, t, l))
  {
    hide InsertByPriority, Remove, NoDup, WaitersOk;
    var r := Park(k, t, l);
    ParkLists(k, t, l);
    NotWaiting(k, t);
    assert forall m :: Owner(r, m) == Owner(k, m);
    assert forall u :: u in k.tasks ==> r.tasks[u].held == k.tasks[u].held;
    hide Park, Owner, Q;
    forall m | Q(r, MutexQ(m)) != []
      ensures Owner(r, m).Some? && Owner(r, m).value !in Q(r, MutexQ(m))
    {
      assert Q(r, MutexQ(m))[0] in Q(r, MutexQ(m));
    }
  }

  lemma NotWaiting(k: K, t: TaskId)
    requires WaitersOk(k) && t in k.tasks && k.tasks[t].wait.None?
    ensures forall l :: t !in Q(k, l)
  {}

  lemma ParkSound(k: K, t: TaskId, l: Option<WaitList>)
    requires Sound(k) && t in k.tasks && k.tasks[t].wait.None?
    requires l.Some? && l.value.MutexQ? ==> Owner(k, l.value.mutex).Some? && Owner(k, l.value.mutex) != Some(t)
    ensures Sound(Park(k, t, l))
  {
    hide ReadyOk, WaitersOk, WaitersSorted, OwnersOk, InsertByPriority, Remove;
    var r := Park(k, t, l);
    assert PrioritiesInRange(r) && r.tasks.Keys == k.tasks.Keys;
    assert InRange(k.tasks[t].prio);
    hide PrioritiesInRange, Park;
    ParkReady(k, t, l);
    ParkLists(k, t, l);
    ParkSorted(k, t, l);
    ParkOwners(k, t, l);
  }

  /** Joining a mutex's list unsettles at most its owner. */
  lemma ParkFixed(k: K, t: TaskId, l: Option<WaitList>, except: set<TaskId>)
    requires Sound(k) && t in k.tasks && k.tasks[t].wait.None? && Fixed(k, except)
    ensures Fixed(Park(k, t, l),
                  if l.Some? && l.value.MutexQ? && Owner(k, l.value.mutex).Some?
                  then except + {Owner(k, l.value.mutex).value} else except)
  {
    var r := Park(k, t, l);
    forall u | u in k.tasks && u !in except &&
               (l.Some? && l.value.MutexQ? ==> Owner(k, l.value.mutex) != Some(u))
      ensures FixedAt(r, u)
    {
      assert FixedAt(k, u);
      forall m | m in k.tasks[u].held ensures Top(r, m) == Top(k, m) {
        assert Owner(k, m) == Some(u);
        ParkTop(k, t, l, m);
      }
      hide Sound;
      MaxTopSame(k, r, k.tasks[u].held, k.tasks[u].held, k.tasks[u].base);
    }
  }

  lemma ParkTop(k: K, t: TaskId, l: Option<WaitList>, m: MutexId)
    requires t in k.tasks && l != Some(MutexQ(m))
    ensures Top(Park(k, t, l), m) == Top(k, m)
  {}

  lemma ParkNext(k: K, t: TaskId, l: Option<WaitList>)
    requires t in k.tasks && k.tasks[t].wait.None?
    ensures forall u :: u != t ==> Next(Park(k, t, l), u) == Next(k, u)
    ensures Next(k, t).None?
    ensures l.Some? && l.value.MutexQ? && Owner(k, l.value.mutex).Some? && Owner(k, l.value.mutex) != Some(t)
            ==> Next(Park(k, t, l), t) == Owner(k, l.value.mutex)
    ensures !(l.Some? && l.value.MutexQ?) ==> Next(Park(k, t, l), t).None?
  {}

  lemma ParkAcyclic(k: K, t: TaskId, l: Option<WaitList>)
    requires Sound(k) && Acyclic(k) && t in k.tasks && k.tasks[t].wait.None?
    requires l.Some? && l.value.MutexQ? ==>
               Owner(k, l.value.mutex).Some? && !Reaches(k, Owner(k, l.value.mutex).value, t)
    ensures Acyclic(Park(k, t, l))
  {
    var r := Park(k, t, l);
    ParkNext(k, t, l);
    if l.Some? && l.value.MutexQ? {
      var owner := Owner(k, l.value.mutex).value;
      OwnerExists(k, l.value.mutex);
      assert Up(k, t, 0) == Some(t);
      BlockingIsSafeIff(k, r, t, owner);
    } else {
      var rank :| Ranked(k, rank);
      RankedCarries(k, r, rank);
    }
  }

  /** Everything a parked task takes on, and nothing else, is new. */
  ghost predicate Parked'(k: K, t: TaskId, l: Option<WaitList>, r: K) {
    && r.tasks.Keys == k.tasks.Keys && t in k.tasks
    && (forall u :: u in k.tasks && u != t ==> r.tasks[u] == k.tasks[u].(prio := r.tasks[u].prio))
    && r.tasks[t] == k.tasks[t].(prio := r.tasks[t].prio, wait := l, result := Ok,
                                 state := if l.None? then Delayed else Blocked)
    && r == k.(tasks := r.tasks, ready := r.ready, waiters := r.waiters)
    && (forall x, u :: u in Q(r, x) <==> u in Q(k, x) || (u == t && l == Some(x)))
  }

  lemma ParkShape(k: K, t: TaskId, l: Option<WaitList>, r: K)
    requires WaitersOk(k) && t in k.tasks && k.tasks[t].wait.None? && OnlyPriorities(Park(k, t, l), r)
    ensures Parked'(k, t, l, r)
  {
    ParkLists(k, t, l);
  }

  /** The blocking half of `aixos_task_block_current`: the structures, the absence of
      cycles and the fix-point survive when the owner chain does not reach the caller. */
  lemma ParkKeeps(k: K, t: TaskId, l: Option<WaitList>)
    requires Sound(k) && Acyclic(k) && Fixed(k, {}) && t in k.tasks && k.tasks[t].wait.None?
    requires l.Some? && l.value.MutexQ? ==>
               Owner(k, l.value.mutex).Some? && !Reaches(k, Owner(k, l.value.mutex).value, t)
    ensures var r1 := Park(k, t, l);
            var r := if l.Some? && l.value.MutexQ? then RecomputeOwner(r1, l.value.mutex) else r1;
            Sound(r) && Acyclic(r) && Fixed(r, {}) && Parked'(k, t, l, r)
  {
    var r1 := Park(k, t, l);
    assert Up(k, t, 0) == Some(t);
    assert WaitersOk(k);
    assert forall m :: Owner(r1, m) == Owner(k, m);
    hide Sound, Acyclic, Fixed, OnlyPriorities, WaitersOk, RecomputeOwner, Parked', Up, Park;
    ParkSound(k, t, l);
    ParkAcyclic(k, t, l);
    ParkFixed(k, t, l, {});
    if l.Some? && l.value.MutexQ? {
      RecomputeOwnerRestores(r1, l.value.mutex, {});
      ParkShape(k, t, l, RecomputeOwner(r1, l.value.mutex));
    } else {
      OnlyPrioritiesReflexive(r1);
      ParkShape(k, t, l, r1);
    }
  }
}
