/** Semaphore calls, task calls, the tick and the scheduler keep the invariant. */
module TaskCalls {
  import opened Lists
  import opened ReadyQueue
  import opened KernelState
  import opened Inheritance
  import opened Transitions
  import opened Timeouts
  import opened KernelInvariant
  import opened KernelCalls

  // ----- semaphores

  lemma SemCountShape(k: K, s: SemId, count: nat)
    requires Counts(k) && count <= SEM_MAX_COUNT && Q(k, SemQ(s)) == []
    ensures var r := k.(sems := k.sems[s := count]); Counts(r) && SameShape(k, r)
  {
    var r := k.(sems := k.sems[s := count]);
    assert forall l :: Q(r, l) == Q(k, l);
  }

  /** A change of a semaphore's count while nobody waits on it. */
  lemma SemCountStep(k: K, s: SemId, count: nat)
    requires Inv(k) && count <= SEM_MAX_COUNT && Q(k, SemQ(s)) == []
    ensures Stepped(k, k.(sems := k.sems[s := count]))
  {
    var r := k.(sems := k.sems[s := count]);
    ReadyOkOf(k);
    hide Inherits, Waits, Timers, Counts, ReadyOk, SameShape, SameClock;
    SemCountShape(k, s, count);
    ReadyOkCarries(k, r);
    SameShapeKeeps(k, r, {});
    assert Waits(r) by {
      SameListsWaits(k, r);
    }
    TimersCarry(k, r, 1);
  }

  lemma SameListsWaits(k: K, r: K)
    requires Waits(k) && r.tasks == k.tasks && r.waiters == k.waiters && r.timeouts == k.timeouts && r.cur == k.cur
    ensures Waits(r)
  {}

  lemma SemOf(k: K, s: SemId)
    requires Inv(k) && s in k.sems
    ensures k.sems[s] <= SEM_MAX_COUNT && (Q(k, SemQ(s)) != [] ==> k.sems[s] == 0)
    ensures Q(k, SemQ(s)) != [] ==>
              Q(k, SemQ(s))[0] in k.tasks && k.tasks[Q(k, SemQ(s))[0]].state == Blocked
  {
    if Q(k, SemQ(s)) != [] {
      assert Q(k, SemQ(s))[0] in Q(k, SemQ(s));
    }
  }

  lemma SemWaitStep(k: K, s: SemId, ms: nat)
    requires Inv(k) && CallerRuns(k) && ms <= UINT32_MAX
    ensures Stepped(k, SemWait(k, s, ms).0)
    ensures SemWait(k, s, ms).1 == Parked && ms != UINT32_MAX ==>
              k.cur.value in SemWait(k, s, ms).0.timeouts
              && Remaining(SemWait(k, s, ms).0, k.cur.value) == MsToTicks(ms)
  {
    hide Inherits, Rest, SameClock, Block, Remaining, MsToTicks;
    SameClockReflexive(k);
    if !k.inIsr && s in k.sems {
      SemOf(k, s);
      if k.sems[s] > 0 {
        SemCountStep(k, s, k.sems[s] - 1);
      } else if ms > 0 {
        BlockStep(k, Some(SemQ(s)), ms);
      }
    }
  }

  lemma SemPostStep(k: K, s: SemId)
    requires Inv(k)
    ensures Stepped(k, SemPost(k, s).0)
  {
    hide Inherits, Rest, SameClock, Wake, Freed;
    SameClockReflexive(k);
    if s in k.sems {
      SemOf(k, s);
      if Q(k, SemQ(s)) != [] {
        WakeStep(k, Q(k, SemQ(s))[0], Ok, 1);
      } else if k.sems[s] != SEM_MAX_COUNT {
        SemCountStep(k, s, k.sems[s] + 1);
      }
    }
  }

  lemma SemCreateStep(k: K, s: SemId, count: int)
    requires Inv(k)
    ensures Stepped(k, SemCreate(k, s, count).0)
  {
    SameClockReflexive(k);
    if SemCreate(k, s, count).1 == Ok {
      assert Q(k, SemQ(s)) == [];
      hide Inv, Stepped;
      SemCountStep(k, s, count);
    }
  }

  // ----- mutex creation and deletion

  lemma MutexCreateShape(k: K, m: MutexId)
    requires Counts(k) && m !in k.mutexes
    ensures var r := k.(mutexes := k.mutexes[m := Mutex(None, 0)]);
            Counts(r) && SameShape(k, r) && SameRest(k, r)
  {
    var r := k.(mutexes := k.mutexes[m := Mutex(None, 0)]);
    assert forall l :: Q(r, l) == Q(k, l);
  }

  lemma MutexCreateStep(k: K, m: MutexId)
    requires Inv(k)
    ensures Stepped(k, MutexCreate(k, m).0)
  {
    SameClockReflexive(k);
    if MutexCreate(k, m).1 == Ok {
      var r := k.(mutexes := k.mutexes[m := Mutex(None, 0)]);
      ReadyOkOf(k);
      hide Inherits, Waits, Timers, Counts, ReadyOk, SameShape, SameRest, SameClock;
      MutexCreateShape(k, m);
      ReadyOkCarries(k, r);
      PlainStep(k, r);
    }
  }

  /** On a state already at its fix-point the pass changes nothing. */
  lemma {:induction false} RecomputeIdle(k: K, t: TaskId, depth: nat)
    requires Fixed(k, {})
    ensures Recompute(k, t, depth) == k
    decreases TASK_LIMIT - depth
  {
    if t in k.tasks && depth < TASK_LIMIT {
      assert FixedAt(k, t);
      match Next(k, t)
      case None =>
      case Some(owner) => RecomputeIdle(k, owner, depth + 1);
    }
  }

  /** `m`, which nobody waits for, taken out of its owner's held list. */
  function Drop(k: K, m: MutexId): K {
    match Owner(k, m)
    case None => k
    case Some(o) =>
      if o in k.tasks then k.(tasks := k.tasks[o := k.tasks[o].(held := Without(k.tasks[o].held, m))]) else k
  }

  lemma DropShape(k: K, m: MutexId)
    requires OwnersOk(k)
    ensures var r := Drop(k, m);
            && r == k.(tasks := r.tasks) && r.tasks.Keys == k.tasks.Keys
            && (forall t :: t in k.tasks ==> r.tasks[t] == k.tasks[t].(held := r.tasks[t].held) && NoDup(r.tasks[t].held))
            && (forall t, n :: t in k.tasks ==> (n in r.tasks[t].held <==> n in k.tasks[t].held && n != m))
  {
    var r := Drop(k, m);
    if Owner(k, m).Some? {
      WithoutIsDeletion(k.tasks[Owner(k, m).value].held, m);
    }
    forall t, n | t in k.tasks ensures n in r.tasks[t].held <==> n in k.tasks[t].held && n != m {
      assert n in k.tasks[t].held <==> Owner(k, n) == Some(t);
    }
  }

  lemma DropFixed(k: K, m: MutexId)
    requires Sound(k) && Fixed(k, {}) && Q(k, MutexQ(m)) == []
    ensures Fixed(Drop(k, m), {})
  {
    var r := Drop(k, m);
    DropShape(k, m);
    hide Drop, ReadyOk, WaitersSorted, OwnersOk, NoDup;
    forall t | t in r.tasks ensures FixedAt(r, t) {
      assert FixedAt(k, t) && InRange(k.tasks[t].base);
      SameTops(k, r);
      assert Top(k, m) == -1;
      hide Sound;
      MaxTopSame(k, r, k.tasks[t].held, r.tasks[t].held, k.tasks[t].base);
    }
  }

  lemma SameTops(k: K, r: K)
    requires WaitersOk(k) && r.waiters == k.waiters && r.tasks.Keys == k.tasks.Keys
    requires forall t :: t in k.tasks ==> r.tasks[t].prio == k.tasks[t].prio
    ensures forall m :: Top(r, m) == Top(k, m)
  {
    forall m ensures Top(r, m) == Top(k, m) {
      if Q(k, MutexQ(m)) != [] {
        assert Q(k, MutexQ(m))[0] in Q(k, MutexQ(m));
      }
    }
  }

  function Deleted(k: K, m: MutexId): K {
    var r := Drop(k, m);
    r.(mutexes := r.mutexes - {m})
  }

  lemma DeletedOwners(k: K, m: MutexId)
    requires OwnersOk(k) && Q(k, MutexQ(m)) == []
    ensures OwnersOk(Deleted(k, m))
  {
    var r := Deleted(k, m);
    DropShape(k, m);
    hide Drop;
    assert forall n :: Owner(r, n) == if n == m then None else Owner(k, n);
    assert forall l :: Q(r, l) == Q(k, l);
  }

  lemma HeldOnly(k: K, r: K)
    requires r == k.(tasks := r.tasks, mutexes := r.mutexes) && r.tasks.Keys == k.tasks.Keys
    requires forall t :: t in k.tasks ==> r.tasks[t] == k.tasks[t].(held := r.tasks[t].held)
    ensures SameRest(k, r)
    ensures WaitersOk(k) ==> WaitersOk(r)
    ensures WaitersSorted(k) ==> WaitersSorted(r)
    ensures PrioritiesInRange(k) ==> PrioritiesInRange(r)
    ensures ReadyOk(k) ==> ReadyOk(r)
  {
    assert forall l :: Q(r, l) == Q(k, l);
    hide NoDup;
    if WaitersSorted(k) {
      hide WaitersOk, ReadyOk;
      forall n ensures SortedByPriority(r.tasks, Q(r, MutexQ(n))) {
        StillSorted(k.tasks, r.tasks, Q(k, MutexQ(n)));
      }
    }
  }

  lemma DeletedFields(k: K, m: MutexId)
    requires OwnersOk(k)
    ensures var r := Deleted(k, m);
            && r == k.(tasks := r.tasks, mutexes := k.mutexes - {m}) && r.tasks.Keys == k.tasks.Keys
            && (forall t :: t in k.tasks ==> r.tasks[t] == k.tasks[t].(held := r.tasks[t].held))
  {
    DropShape(k, m);
    hide Drop, OwnersOk, NoDup;
  }

  lemma DeletedSound(k: K, m: MutexId)
    requires Sound(k) && Q(k, MutexQ(m)) == []
    ensures Sound(Deleted(k, m))
  {
    hide OwnersOk, WaitersOk, WaitersSorted, PrioritiesInRange, ReadyOk, SameRest, Deleted;
    DeletedFields(k, m);
    DeletedOwners(k, m);
    HeldOnly(k, Deleted(k, m));
  }

  lemma DeletedFixed(k: K, m: MutexId)
    requires Sound(k) && Fixed(k, {}) && Q(k, MutexQ(m)) == []
    ensures Fixed(Deleted(k, m), {})
  {
    var d := Drop(k, m);
    var r := Deleted(k, m);
    hide Sound, Drop;
    DropFixed(k, m);
    forall t | t in r.tasks ensures FixedAt(r, t) {
      assert FixedAt(d, t);
      MaxTopSame(d, r, d.tasks[t].held, r.tasks[t].held, d.tasks[t].base);
    }
  }

  lemma DeletedAcyclic(k: K, m: MutexId)
    requires OwnersOk(k) && Acyclic(k)
    ensures Acyclic(Deleted(k, m))
  {
    var r := Deleted(k, m);
    DropShape(k, m);
    hide Drop, OwnersOk;
    var rank :| Ranked(k, rank);
    forall t | t in r.tasks && Next(r, t).Some? ensures Next(r, t) == Next(k, t) {}
    assert Ranked(r, rank);
  }

  lemma DeletedRest(k: K, m: MutexId)
    requires OwnersOk(k) && Counts(k)
    ensures SameRest(k, Deleted(k, m)) && Counts(Deleted(k, m))
  {
    DeletedFields(k, m);
    hide OwnersOk, Deleted, SameRest, WaitersOk, WaitersSorted, ReadyOk, PrioritiesInRange;
    HeldOnly(k, Deleted(k, m));
    assert forall s :: Q(Deleted(k, m), SemQ(s)) == Q(k, SemQ(s));
  }

  /** The pass over the owner of a mutex nobody waits for changes nothing. */
  lemma DeleteIsDrop(k: K, m: MutexId)
    requires Fixed(Drop(k, m), {}) && MutexDelete(k, m).1 == Ok
    ensures MutexDelete(k, m).0 == Deleted(k, m)
  {
    hide Fixed, Without, Recompute;
    if Owner(k, m).Some? {
      RecomputeIdle(Drop(k, m), Owner(k, m).value, 0);
    }
  }

  lemma MutexDeleteStep(k: K, m: MutexId)
    requires Inv(k)
    ensures Stepped(k, MutexDelete(k, m).0)
  {
    hide Acyclic, Fixed, Waits, Timers, Counts, SameClock, SameRest, OwnersOk, WaitersOk, ReadyOk, WaitersSorted;
    hide PrioritiesInRange, Deleted, Drop, Recompute;
    SameClockReflexive(k);
    if MutexDelete(k, m).1 == Ok {
      DropFixed(k, m);
      DeleteIsDrop(k, m);
      DeletedSound(k, m);
      DeletedFixed(k, m);
      DeletedAcyclic(k, m);
      DeletedRest(k, m);
      SameRestKeeps(k, Deleted(k, m), 1);
    }
  }

  // ----- yield and sleep

  lemma RotateKeepsReadyOk(k: K, p: int, t: TaskId, r: K)
    requires ReadyOk(k) && r.tasks == k.tasks && r.ready == Rotate(k.ready, p, t)
    ensures ReadyOk(r)
  {
    if r.ready != k.ready {
      WithoutIsDeletion(k.ready[p], t);
    }
  }

  lemma ReadyOnly(k: K, r: K)
    requires r == k.(ready := r.ready) && Counts(k)
    ensures Counts(r) && SameShape(k, r) && SameRest(k, r)
  {
    assert forall l :: Q(r, l) == Q(k, l);
  }

  lemma RotateStep(k: K)
    requires Inv(k)
    ensures Stepped(k, RotateCurrent(k)) && RotateCurrent(k).timeouts == k.timeouts
  {
    hide Inherits, Waits, Timers, Counts, ReadyOk, SameShape, SameRest, SameClock, Rotate;
    SameClockReflexive(k);
    var r := RotateCurrent(k);
    ReadyOkOf(k);
    ReadyOnly(k, r);
    if k.cur.Some? {
      RotateKeepsReadyOk(k, Prio(k.tasks, k.cur.value), k.cur.value, r);
    }
    PlainStep(k, r);
  }

  lemma YieldStep(k: K)
    requires Inv(k)
    ensures Stepped(k, Yield(k).0)
  {
    hide Inherits, Rest, RotateCurrent;
    SameClockReflexive(k);
    RotateStep(k);
    FlagStep(RotateCurrent(k), true);
  }

  lemma SleepStep(k: K, ms: nat)
    requires Inv(k) && CallerRuns(k) && ms <= UINT32_MAX
    ensures Stepped(k, Sleep(k, ms).0)
    ensures Sleep(k, ms).1 == Parked && ms != UINT32_MAX ==>
              k.cur.value in Sleep(k, ms).0.timeouts
              && Remaining(Sleep(k, ms).0, k.cur.value) == MsToTicks(ms)
  {
    hide Inherits, Rest, SameClock, Block, Remaining, MsToTicks;
    SameClockReflexive(k);
    if !k.inIsr {
      if ms == 0 {
        YieldStep(k);
      } else {
        BlockStep(k, None, ms);
      }
    }
  }

  // ----- suspend, resume, delete, create

  /** `t` out of whatever list it is in, and suspended. */
  function Stopped(k: K, t: TaskId): K
    requires t in k.tasks
  {
    var d := if k.tasks[t].state in {Blocked, Delayed} then Detach(k, t, Interrupted)
             else k.(ready := Remove(k.ready, k.tasks[t].prio, t));
    if t in d.tasks then d.(tasks := d.tasks[t := d.tasks[t].(state := Suspended)]) else d
  }

  lemma SuspendedShape(k: K, t: TaskId, r: K)
    requires ReadyOk(k) && t in k.tasks && InRange(k.tasks[t].prio)
    requires r == k.(tasks := k.tasks[t := k.tasks[t].(state := Suspended)], ready := Remove(k.ready, k.tasks[t].prio, t))
    ensures SameShape(k, r) && ReadyOk(r)
  {
    RemoveIsDeletion(k.ready, k.tasks[t].prio, t);
  }

  lemma NotQueued(k: K, t: TaskId)
    requires ReadyOk(k) && t in k.tasks && !Runnable(k.tasks[t].state) && InRange(k.tasks[t].prio)
    ensures Remove(k.ready, k.tasks[t].prio, t) == k.ready
  {}

  lemma StoppedRunnableWaits(k: K, t: TaskId, r: K)
    requires Waits(k) && t in k.tasks && k.tasks[t].state !in {Blocked, Delayed}
    requires r == k.(tasks := k.tasks[t := k.tasks[t].(state := Suspended)], ready := r.ready)
    ensures Waits(r) && t !in k.timeouts && k.tasks[t].wait.None?
  {
    assert forall l :: Q(r, l) == Q(k, l);
  }

  ghost predicate IsStopped(k: K, t: TaskId, r: K)
    requires t in k.tasks
  {
    && t in r.tasks && r.tasks[t].state == Suspended && r.tasks[t].held == k.tasks[t].held
    && t !in r.timeouts && r.tasks[t].wait.None?
  }

  lemma StopWaiting(k: K, t: TaskId)
    requires Inv(k) && t in k.tasks && k.tasks[t].state in {Blocked, Delayed}
    ensures Stepped(k, Stopped(k, t)) && IsStopped(k, t, Stopped(k, t))
  {
    var d := Detach(k, t, Interrupted);
    hide Sound, Acyclic, Fixed, Rest, SameClock, Detached, Freed, Detach;
    DetachKeeps(k, t, Interrupted, {});
    DetachedState(k, t, Interrupted, d);
    var r := Stopped(k, t);
    assert r == d.(tasks := d.tasks[t := d.tasks[t].(state := Suspended)]);
    SuspendFrom(d, t, r);
    DetachedIsFreed(k, t, Interrupted, Suspended, d, r);
    FreedRest(k, t, Interrupted, Suspended, r, 1);
    FreedTask(k, t, Interrupted, Suspended, r);
  }

  lemma PriorityOf(k: K, t: TaskId)
    requires Inv(k) && t in k.tasks
    ensures InRange(k.tasks[t].prio)
    ensures !Runnable(k.tasks[t].state) ==> Remove(k.ready, k.tasks[t].prio, t) == k.ready
  {
    ReadyOkOf(k);
    hide Inv;
    if !Runnable(k.tasks[t].state) {
      NotQueued(k, t);
    }
  }

  lemma StopOther(k: K, t: TaskId)
    requires Inv(k) && t in k.tasks && k.tasks[t].state !in {Blocked, Delayed}
    ensures Stepped(k, Stopped(k, t)) && IsStopped(k, t, Stopped(k, t))
  {
    hide Sound, Fixed, Acyclic, Timers, Counts, Waits, ReadyOk, SameShape, SameClock, Remove, PrioritiesInRange, NoDup;
    var r := Stopped(k, t);
    ReadyOkOf(k);
    PriorityOf(k, t);
    StoppedRunnableWaits(k, t, r);
    SuspendedShape(k, t, r);
    SameShapeKeeps(k, r, {});
    TimersCarry(k, r, 1);
    CountsCarry(k, r);
  }

  /** Stopping keeps the whole invariant and leaves the task in no list at all. */
  lemma StopStep(k: K, t: TaskId)
    requires Inv(k) && t in k.tasks
    ensures Stepped(k, Stopped(k, t)) && IsStopped(k, t, Stopped(k, t))
  {
    hide Inv, Stepped, IsStopped;
    if k.tasks[t].state in {Blocked, Delayed} {
      StopWaiting(k, t);
    } else {
      StopOther(k, t);
    }
  }

  lemma FreedTask(k: K, t: TaskId, result: Code, s: TaskState, r: K)
    requires Freed(k, t, result, s, r)
    ensures t in r.tasks && r.tasks[t].wait.None? && r.tasks[t].held == k.tasks[t].held
    ensures r.tasks[t].state == s && r.tasks[t].result == result
  {}

  lemma SuspendFrom(d: K, t: TaskId, r: K)
    requires Inherits(d) && t in d.tasks && !Runnable(d.tasks[t].state)
    requires r == d.(tasks := d.tasks[t := d.tasks[t].(state := Suspended)])
    ensures Inherits(r)
  {
    assert ReadyOk(d) && InRange(d.tasks[t].prio);
    hide Sound, Acyclic, Fixed, ReadyOk, SameShape;
    NotQueued(d, t);
    SuspendedShape(d, t, r);
    SameShapeKeeps(d, r, {});
  }

  lemma SuspendRefused(k: K, t: TaskId)
    requires TaskSuspend(k, t).1 != Ok
    ensures TaskSuspend(k, t).0 == k
  {}

  lemma SuspendIsStop(k: K, t: TaskId)
    requires Inv(k) && TaskSuspend(k, t).1 == Ok
    ensures t in k.tasks
    ensures TaskSuspend(k, t).0 == Stopped(k, t).(resched := TaskSuspend(k, t).0.resched)
  {
    hide Inv, Detach, Remove;
    if k.tasks[t].state in {Blocked, Delayed} {
      PriorityOf(k, t);
    }
  }

  lemma SuspendStep(k: K, t: TaskId)
    requires Inv(k)
    ensures Stepped(k, TaskSuspend(k, t).0)
  {
    hide Inherits, Rest, SameClock, Stopped, TaskSuspend;
    SameClockReflexive(k);
    if TaskSuspend(k, t).1 == Ok {
      SuspendIsStop(k, t);
      StopStep(k, t);
      SameFlag(k, Stopped(k, t), TaskSuspend(k, t).0.resched);
    } else {
      SuspendRefused(k, t);
    }
  }

  lemma SameFlag(k: K, r: K, flag: bool)
    requires Stepped(k, r)
    ensures Stepped(k, r.(resched := flag))
  {
    hide Inherits, Rest;
    FlagStep(r, flag);
  }

  lemma ResumeWaits(k: K, t: TaskId, r: K)
    requires Waits(k) && t in k.tasks && k.tasks[t].state == Suspended
    requires r == k.(tasks := k.tasks[t := k.tasks[t].(state := Ready)], ready := r.ready, resched := r.resched)
    ensures Waits(r)
  {
    assert forall l :: Q(r, l) == Q(k, l);
  }

  lemma ResumeStep(k: K, t: TaskId)
    requires Inv(k)
    ensures Stepped(k, TaskResume(k, t).0)
  {
    hide Sound, Acyclic, Fixed, Waits, Timers, Counts, SameClock, MakeReady;
    SameClockReflexive(k);
    if TaskResume(k, t).1 == Ok {
      var r := MakeReady(k, t);
      MakeReadyKeeps(k, t, {});
      ResumeWaits(k, t, r);
      assert forall l :: Q(r, l) == Q(k, l);
      assert forall u :: u in k.timeouts ==> WakeTick(r.tasks, u) == WakeTick(k.tasks, u);
      hide Q;
      TimersCarry(k, r, 1);
      CountsCarry(k, r);
    }
  }

  /** A suspended task that holds no mutex can be forgotten. */
  lemma ForgottenLists(k: K, t: TaskId)
    requires Sound(k) && t in k.tasks && k.tasks[t].wait.None?
    ensures forall l :: t !in Q(k, l)
    ensures k.tasks[t].held == [] ==> forall m :: Owner(k, m) != Some(t)
  {
    if k.tasks[t].held == [] {
      forall m ensures Owner(k, m) != Some(t) {
        assert m !in k.tasks[t].held;
      }
    }
  }

  lemma ForgetOwners(k: K, t: TaskId)
    requires OwnersOk(k) && forall m :: Owner(k, m) != Some(t)
    ensures OwnersOk(k.(tasks := k.tasks - {t}))
  {
    var r := k.(tasks := k.tasks - {t});
    assert forall l :: Q(r, l) == Q(k, l);
    assert forall m :: Owner(r, m) == Owner(k, m);
  }

  lemma ForgetLists(k: K, t: TaskId)
    requires WaitersOk(k) && WaitersSorted(k) && forall l :: t !in Q(k, l)
    ensures WaitersOk(k.(tasks := k.tasks - {t})) && WaitersSorted(k.(tasks := k.tasks - {t}))
  {
    var r := k.(tasks := k.tasks - {t});
    assert forall l :: Q(r, l) == Q(k, l);
    forall n ensures SortedByPriority(r.tasks, Q(r, MutexQ(n))) {
      assert SortedByPriority(k.tasks, Q(k, MutexQ(n)));
      StillSorted(k.tasks, r.tasks, Q(k, MutexQ(n)));
    }
  }

  lemma ForgetReady(k: K, t: TaskId)
    requires ReadyOk(k) && PrioritiesInRange(k) && |k.tasks.Keys| <= TASK_LIMIT
    requires t in k.tasks && !Runnable(k.tasks[t].state)
    ensures var r := k.(tasks := k.tasks - {t});
            ReadyOk(r) && PrioritiesInRange(r) && |r.tasks| <= TASK_LIMIT
  {
    hide NoDup;
    SmallerSet((k.tasks - {t}).Keys, k.tasks.Keys);
  }

  lemma ForgetSound(k: K, t: TaskId)
    requires Sound(k) && t in k.tasks && k.tasks[t].wait.None? && k.tasks[t].held == []
    requires k.tasks[t].state == Suspended
    ensures Sound(k.(tasks := k.tasks - {t}))
  {
    hide OwnersOk, WaitersOk, WaitersSorted, ReadyOk, PrioritiesInRange, Q;
    ForgottenLists(k, t);
    ForgetOwners(k, t);
    ForgetLists(k, t);
    ForgetReady(k, t);
  }

  lemma ForgetFixed(k: K, t: TaskId, u: TaskId)
    requires Sound(k) && t in k.tasks && u in k.tasks && u != t && k.tasks[t].wait.None? && FixedAt(k, u)
    ensures FixedAt(k.(tasks := k.tasks - {t}), u)
  {
    var r := k.(tasks := k.tasks - {t});
    ForgottenLists(k, t);
    forall m ensures Top(r, m) == Top(k, m) {
      if Q(k, MutexQ(m)) != [] {
        assert Q(k, MutexQ(m))[0] in Q(k, MutexQ(m));
      }
    }
    hide Sound;
    MaxTopSame(k, r, k.tasks[u].held, k.tasks[u].held, k.tasks[u].base);
  }

  lemma ForgetAcyclic(k: K, t: TaskId)
    requires Acyclic(k) && t in k.tasks && forall m :: Owner(k, m) != Some(t)
    ensures Acyclic(k.(tasks := k.tasks - {t}))
  {
    var r := k.(tasks := k.tasks - {t});
    var rank :| Ranked(k, rank);
    assert (rank - {t}).Keys == r.tasks.Keys;
    forall u | u in r.tasks && Next(r, u).Some? ensures Next(r, u) == Next(k, u) && Next(k, u) != Some(t) {
      assert Owner(r, k.tasks[u].wait.value.mutex) == Owner(k, k.tasks[u].wait.value.mutex);
    }
    assert Ranked(r, rank - {t});
  }

  lemma ForgetRest(k: K, t: TaskId)
    requires Waits(k) && Counts(k) && t in k.tasks && t !in k.timeouts
    ensures Waits(k.(tasks := k.tasks - {t})) && Counts(k.(tasks := k.tasks - {t}))
  {
    var r := k.(tasks := k.tasks - {t});
    assert forall l :: Q(r, l) == Q(k, l);
  }

  lemma ForgetStep(k: K, t: TaskId)
    requires Inv(k) && t in k.tasks && k.tasks[t].wait.None? && k.tasks[t].held == []
    requires k.tasks[t].state == Suspended && t !in k.timeouts
    ensures Stepped(k, k.(tasks := k.tasks - {t}))
  {
    var r := k.(tasks := k.tasks - {t});
    hide Sound, Acyclic, FixedAt, Waits, Counts, Timers, SameClock;
    ForgottenLists(k, t);
    ForgetSound(k, t);
    ForgetAcyclic(k, t);
    ForgetRest(k, t);
    forall u | u in r.tasks ensures FixedAt(r, u) {
      ForgetFixed(k, t, u);
    }
    TimersCarry(k, r, 1);
  }

  lemma DeleteWaiting(k: K, t: TaskId)
    requires t in k.tasks && TaskDelete(k, t).1 == Ok && k.tasks[t].state in {Blocked, Delayed}
    requires Remove(k.ready, k.tasks[t].prio, t) == k.ready && t in Stopped(k, t).tasks
    ensures var s := Stopped(k, t); var r := TaskDelete(k, t).0;
            r == s.(tasks := s.tasks - {t}, resched := r.resched)
  {
    hide Detach, Remove;
  }

  lemma DeleteOther(k: K, t: TaskId)
    requires t in k.tasks && TaskDelete(k, t).1 == Ok && k.tasks[t].state !in {Blocked, Delayed}
    requires t !in k.timeouts && k.tasks[t].wait.None?
    ensures var s := Stopped(k, t); var r := TaskDelete(k, t).0;
            r == s.(tasks := s.tasks - {t}, resched := r.resched)
  {
    hide Remove;
    WithoutNothing(k.timeouts, t);
    var d := k.(ready := Remove(k.ready, k.tasks[t].prio, t));
    assert Detach(d, t, Interrupted) == ClearWait(d, t, Interrupted);
    assert ClearWait(d, t, Interrupted).tasks - {t} == d.tasks - {t};
  }

  lemma WaitsOf(k: K)
    requires Inv(k)
    ensures Waits(k)
  {}

  /** Deleting is stopping and forgetting. */
  lemma DeleteIsStopAndForget(k: K, t: TaskId)
    requires Inv(k) && t in k.tasks && TaskDelete(k, t).1 == Ok
    ensures var s := Stopped(k, t); var r := TaskDelete(k, t).0;
            r == s.(tasks := s.tasks - {t}, resched := r.resched)
  {
    hide Inherits, Rest, TaskDelete, Stopped;
    if k.tasks[t].state in {Blocked, Delayed} {
      PriorityOf(k, t);
      StopStep(k, t);
      DeleteWaiting(k, t);
    } else {
      WaitsOf(k);
      assert t !in k.timeouts && k.tasks[t].wait.None? by {
        StoppedRunnableWaits(k, t, k.(tasks := k.tasks[t := k.tasks[t].(state := Suspended)]));
      }
      DeleteOther(k, t);
    }
  }

  lemma DeleteStep(k: K, t: TaskId)
    requires Inv(k)
    ensures Stepped(k, TaskDelete(k, t).0)
  {
    SameClockReflexive(k);
    if TaskDelete(k, t).1 == Ok {
      DeleteIsStopAndForget(k, t);
      var s := Stopped(k, t);
      var r := s.(tasks := s.tasks - {t});
      assert k.tasks[t].held == [];
      hide Inherits, Rest, SameClock, TaskDelete, Stopped;
      StopStep(k, t);
      ForgetStep(s, t);
      ClockChain(k, s, r);
      SameFlag(k, r, TaskDelete(k, t).0.resched);
    }
  }

  /** `r` is `k` with one more task, of its own base priority and in no list but, perhaps, a ready queue. */
  ghost predicate NewTask(k: K, t: TaskId, tcb: Tcb, r: K) {
    && t !in k.tasks && tcb.held == [] && tcb.wait.None? && tcb.state == Ready && tcb.prio == tcb.base
    && r == k.(tasks := k.tasks[t := tcb], ready := r.ready)
  }

  lemma NewOwners(k: K, t: TaskId, tcb: Tcb, r: K)
    requires OwnersOk(k) && NewTask(k, t, tcb, r)
    ensures OwnersOk(r)
  {
    assert forall l :: Q(r, l) == Q(k, l);
    assert forall m :: Owner(r, m) == Owner(k, m);
  }

  lemma NewReady(k: K, t: TaskId, tcb: Tcb, r: K)
    requires ReadyOk(k) && NewTask(k, t, tcb, r) && InRange(tcb.prio) && r.ready == Add(k.ready, tcb.prio, t)
    ensures ReadyOk(r)
  {
    AddIsAddition(k.ready, tcb.prio, t);
  }

  lemma NewLists(k: K, t: TaskId, tcb: Tcb, r: K)
    requires WaitersOk(k) && WaitersSorted(k) && NewTask(k, t, tcb, r)
    ensures WaitersOk(r) && WaitersSorted(r)
    ensures forall m :: Top(r, m) == Top(k, m)
  {
    assert forall l :: Q(r, l) == Q(k, l);
    forall m ensures SortedByPriority(r.tasks, Q(r, MutexQ(m))) {
      assert SortedByPriority(k.tasks, Q(k, MutexQ(m)));
      StillSorted(k.tasks, r.tasks, Q(k, MutexQ(m)));
    }
    forall m ensures Top(r, m) == Top(k, m) {
      if Q(k, MutexQ(m)) != [] {
        assert Q(k, MutexQ(m))[0] in Q(k, MutexQ(m));
      }
    }
  }

  lemma NewFixed(k: K, t: TaskId, tcb: Tcb, r: K)
    requires Fixed(k, {}) && NewTask(k, t, tcb, r)
    requires forall m :: Top(r, m) == Top(k, m)
    ensures Fixed(r, {})
  {
    forall u | u in r.tasks ensures FixedAt(r, u) {
      if u != t {
        assert FixedAt(k, u);
        MaxTopSame(k, r, k.tasks[u].held, k.tasks[u].held, k.tasks[u].base);
      }
    }
  }

  lemma NewAcyclic(k: K, t: TaskId, tcb: Tcb, r: K)
    requires Acyclic(k) && NewTask(k, t, tcb, r)
    ensures Acyclic(r)
  {
    var rank :| Ranked(k, rank);
    assert rank[t := 0].Keys == r.tasks.Keys;
    forall u | u in r.tasks && Next(r, u).Some? ensures u != t && Next(r, u) == Next(k, u) {}
    assert Ranked(r, rank[t := 0]);
  }

  lemma NewWaits(k: K, t: TaskId, tcb: Tcb, r: K)
    requires Waits(k) && NewTask(k, t, tcb, r)
    ensures Waits(r) && t !in k.timeouts
  {
    assert forall l :: Q(r, l) == Q(k, l);
  }

  lemma NewCounts(k: K, t: TaskId, tcb: Tcb, r: K)
    requires Counts(k) && NewTask(k, t, tcb, r)
    ensures Counts(r)
  {
    assert forall l :: Q(r, l) == Q(k, l);
  }

  lemma NewSize(k: K, t: TaskId, tcb: Tcb, r: K)
    requires NewTask(k, t, tcb, r)
    ensures |r.tasks| == |k.tasks| + 1
    ensures r.timeouts == k.timeouts && r.now == k.now
  {
    assert r.tasks.Keys == k.tasks.Keys + {t};
  }

  lemma NewRange(k: K, t: TaskId, tcb: Tcb, r: K)
    requires PrioritiesInRange(k) && InRange(tcb.prio) && NewTask(k, t, tcb, r)
    ensures PrioritiesInRange(r)
  {}

  lemma CreateStep(k: K, t: TaskId, p: int)
    requires Inv(k)
    ensures Stepped(k, TaskCreate(k, t, p).0)
  {
    SameClockReflexive(k);
    hide ReadyOk, PrioritiesInRange, WaitersOk, WaitersSorted, OwnersOk, Fixed, Acyclic, Waits, Timers, Counts;
    hide SameClock, NewTask, Top;
    if TaskCreate(k, t, p).1 == Ok {
      var tcb := Tcb(p, p, Ready, None, [], 0, Ok);
      var r := TaskCreate(k, t, p).0;
      IsNewTask(k, t, p);
      NewReady(k, t, tcb, r);
      NewLists(k, t, tcb, r);
      NewOwners(k, t, tcb, r);
      NewFixed(k, t, tcb, r);
      NewAcyclic(k, t, tcb, r);
      NewWaits(k, t, tcb, r);
      NewCounts(k, t, tcb, r);
      NewRange(k, t, tcb, r);
      NewSize(k, t, tcb, r);
      TimersCarry(k, r, 1);
    }
  }

  lemma IsNewTask(k: K, t: TaskId, p: int)
    requires TaskCreate(k, t, p).1 == Ok
    ensures NewTask(k, t, Tcb(p, p, Ready, None, [], 0, Ok), TaskCreate(k, t, p).0)
  {}

  // ----- set priority

  function Rebased(tcb: Tcb, p: nat): Tcb { tcb.(base := p, prio := p) }

  lemma RebaseMoved(k: K, t: TaskId, p: nat)
    requires t in k.tasks && InRange(p)
    ensures Moved(k, t, Rebased(k.tasks[t], p), Rebase(k, t, p))
    ensures forall u :: Next(Rebase(k, t, p), u) == Next(k, u)
    ensures Rebase(k, t, p).mutexes == k.mutexes
  {
    hide Requeue, InsertByPriority, Without;
  }

  lemma RebaseSound(k: K, t: TaskId, p: nat)
    requires Sound(k) && t in k.tasks && InRange(p)
    ensures Sound(Rebase(k, t, p))
  {
    hide Linkage, WaitersOk, Rebase, Moved, SortedByPriority;
    var tcb := Rebased(k.tasks[t], p);
    RebaseMoved(k, t, p);
    MovedLinkage(k, t, tcb, Rebase(k, t, p));
    WaitersOkOf(k);
    forall m ensures SortedByPriority(Rebase(k, t, p).tasks, Q(Rebase(k, t, p), MutexQ(m))) {
      assert SortedByPriority(k.tasks, Q(k, MutexQ(m)));
      MovedSorted(k, t, tcb, Rebase(k, t, p), m);
    }
  }

  lemma WaitersOkOf(k: K)
    requires Linkage(k)
    ensures WaitersOk(k) && OwnersOk(k)
  {}

  /** Only the task itself and the owner it waits for are unsettled. */
  lemma RebaseFixed(k: K, t: TaskId, p: nat)
    requires Sound(k) && Fixed(k, {}) && t in k.tasks && InRange(p)
    ensures Fixed(Rebase(k, t, p), if WaitsOnMutex(k, t) && Linked(k, t)
                    then {t, Owner(k, k.tasks[t].wait.value.mutex).value} else {t})
  {
    var r := Rebase(k, t, p);
    hide Linkage, WaitersSorted, WaitersOk, OwnersOk, Rebase, Moved;
    RebaseMoved(k, t, p);
    WaitersOkOf(k);
    assert r.tasks.Keys == k.tasks.Keys && forall u :: u in k.tasks && u != t ==> r.tasks[u] == k.tasks[u] by {
      MovedTasks(k, t, Rebased(k.tasks[t], p), r);
    }
    if WaitsOnMutex(k, t) && Linked(k, t) {
      WaitedIsOwned(k, t);
    }
    forall u | u in k.tasks && u != t
               && (WaitsOnMutex(k, t) && Linked(k, t) ==> Owner(k, k.tasks[t].wait.value.mutex) != Some(u))
      ensures FixedAt(r, u)
    {
      assert FixedAt(k, u);
      MovedEffective(k, t, Rebased(k.tasks[t], p), r, u);
    }
  }

  lemma WaitedIsOwned(k: K, t: TaskId)
    requires OwnersOk(k) && WaitsOnMutex(k, t) && Linked(k, t)
    ensures Owner(k, k.tasks[t].wait.value.mutex).Some?
  {}

  lemma RebaseSameRest(k: K, t: TaskId, p: nat)
    requires WaitersOk(k) && t in k.tasks && InRange(p)
    ensures SameRest(k, Rebase(k, t, p)) && Rebase(k, t, p).mutexes == k.mutexes
  {
    hide WaitersOk, Rebase, Moved;
    var r := Rebase(k, t, p);
    RebaseMoved(k, t, p);
    MovedTasks(k, t, Rebased(k.tasks[t], p), r);
    forall l, u ensures u in Q(r, l) <==> u in Q(k, l) {
      MovedList(k, t, Rebased(k.tasks[t], p), r, l);
    }
  }

  lemma RebaseRest(k: K, t: TaskId, p: nat)
    requires WaitersOk(k) && Rest(k, 1) && t in k.tasks && InRange(p)
    ensures Rest(Rebase(k, t, p), 1) && SameClock(k, Rebase(k, t, p))
    ensures WaitsOnMutex(k, t) ==> Linked(Rebase(k, t, p), t) && Linked(k, t)
  {
    hide WaitersOk, Rebase, Waits, Timers, SameClock, Counts, SameRest;
    var r := Rebase(k, t, p);
    RebaseSameRest(k, t, p);
    SameRestKeeps(k, r, 1);
    assert Counts(r) by {
      SameRestLists(k, r);
      CountsCarry(k, r);
    }
    WaiterLinked(k, t);
    SameRestLinked(k, r, t);
  }

  lemma SameRestLists(k: K, r: K)
    requires SameRest(k, r)
    ensures forall l, u :: u in Q(r, l) ==> u in Q(k, l)
    ensures r.sems == k.sems
  {}

  lemma WaiterLinked(k: K, t: TaskId)
    requires Waits(k) && t in k.tasks
    ensures WaitsOnMutex(k, t) ==> Linked(k, t)
  {}

  lemma SameRestLinked(k: K, r: K, t: TaskId)
    requires SameRest(k, r) && t in k.tasks
    ensures Linked(r, t) <==> Linked(k, t)
  {}

  lemma RebaseAcyclic(k: K, t: TaskId, p: nat)
    requires Acyclic(k) && t in k.tasks && InRange(p)
    ensures Acyclic(Rebase(k, t, p))
  {
    hide Ranked, Rebase, Moved, Next;
    RebaseMoved(k, t, p);
    RebaseKeys(k, t, p);
    var rank :| Ranked(k, rank);
    RankedCarries(k, Rebase(k, t, p), rank);
  }

  lemma SetPriorityStep(k: K, t: TaskId, p: int)
    requires Inv(k)
    ensures Stepped(k, SetPriority(k, t, p).0)
  {
    SameClockReflexive(k);
    hide Linkage, WaitersSorted, Fixed, Waits, Timers, Counts, SameClock, Rebase, RecomputeOwner, Recompute;
    hide RequestPreemption, Acyclic, OnlyPriorities, Linked, WaitersOk, OwnersOk, Next, Moved, Remaining;
    if SetPriority(k, t, p).1 == Ok {
      var k1 := Rebase(k, t, p);
      WaitersOkOf(k);
      RebaseSound(k, t, p);
      RebaseFixed(k, t, p);
      RebaseRest(k, t, p);
      RebaseMoved(k, t, p);
      RebaseKeys(k, t, p);
      RebaseAcyclic(k, t, p);
      RebaseWait(k, t, p);
      SetPriorityPasses(k, k1, t);
      var k2 := if WaitsOnMutex(k1, t) && Linked(k1, t)
                then RecomputeOwner(k1, k1.tasks[t].wait.value.mutex) else k1;
      var k3 := Recompute(k2, t, 0);
      PreemptionStep(k3);
      PreemptionOnlyFlags(k3);
      ClockChain(k, k1, k3);
      ClockChain(k, k3, RequestPreemption(k3));
    }
  }

  lemma RebaseWait(k: K, t: TaskId, p: nat)
    requires t in k.tasks && InRange(p)
    ensures t in Rebase(k, t, p).tasks && Rebase(k, t, p).tasks[t].wait == k.tasks[t].wait
    ensures Rebase(k, t, p).timeouts == k.timeouts
  {
    hide Requeue, InsertByPriority, Without;
  }

  lemma RebaseKeys(k: K, t: TaskId, p: nat)
    requires t in k.tasks && InRange(p)
    ensures Rebase(k, t, p).tasks.Keys == k.tasks.Keys
  {
    hide Requeue, InsertByPriority, Without;
  }

  /** The two passes of `aixos_mutex_task_priority_changed`. */
  lemma SetPriorityPasses(k: K, k1: K, t: TaskId)
    requires Sound(k1) && Acyclic(k1) && Rest(k1, 1) && t in k1.tasks && k1.mutexes == k.mutexes
    requires t in k.tasks && k1.tasks[t].wait == k.tasks[t].wait && (WaitsOnMutex(k, t) ==> Linked(k, t))
    requires WaitsOnMutex(k, t) ==> Linked(k1, t)
    requires Fixed(k1, if WaitsOnMutex(k, t) && Linked(k, t)
                     then {t, Owner(k, k.tasks[t].wait.value.mutex).value} else {t})
    ensures var k2 := if WaitsOnMutex(k1, t) && Linked(k1, t)
                then RecomputeOwner(k1, k1.tasks[t].wait.value.mutex) else k1;
            Stepped(k1, Recompute(k2, t, 0)) && Recompute(k2, t, 0).timeouts == k1.timeouts
  {
    var k2 := if WaitsOnMutex(k1, t) && Linked(k1, t)
              then RecomputeOwner(k1, k1.tasks[t].wait.value.mutex) else k1;
    if WaitsOnMutex(k1, t) {
      var m := k1.tasks[t].wait.value.mutex;
      assert Owner(k1, m) == Owner(k, m) && Owner(k1, m).Some? by {
        WaitersOkOf(k1);
        WaitedIsOwned(k1, t);
      }
      assert {t} + {Owner(k1, m).value} == {t, Owner(k1, m).value};
      hide Sound, Acyclic, Fixed, Rest, SameClock, RecomputeOwner, Recompute, Linked;
      RecomputeOwnerRestores(k1, m, {t});
      OnlyPrioritiesRest(k1, k2, 1);
      ReleaserSettles(k2, t);
      ClockChain(k1, k2, Recompute(k2, t, 0));
    } else {
      hide Sound, Acyclic, Fixed, Rest, SameClock, Recompute, Linked;
      ReleaserSettles(k1, t);
    }
  }

  // ----- the tick

  /** What the timeout list does at a tick: exactly the tasks with nothing left to wait
      become ready, with OK for a sleeper and TIMEOUT for a waiter; the others keep
      waiting, and nobody else changes but in current priority. */
  ghost predicate Expired(k: K, r: K) {
    && r.tasks.Keys == k.tasks.Keys && r.now == k.now && r.cur == k.cur
    && (forall t :: t in k.tasks && t in k.timeouts && Remaining(k, t) == 0 ==>
          && t !in r.timeouts
          && r.tasks[t] == k.tasks[t].(prio := r.tasks[t].prio, state := Ready, wait := None,
                                       result := if k.tasks[t].state == Delayed then Ok else Timeout))
    && (forall t :: t in k.tasks && !(t in k.timeouts && Remaining(k, t) == 0) ==>
          && r.tasks[t] == k.tasks[t].(prio := r.tasks[t].prio)
          && (t in r.timeouts <==> t in k.timeouts))
    && (forall t :: t in r.timeouts ==> t in k.timeouts && Remaining(r, t) == Remaining(k, t))
  }

  lemma NothingExpired(k: K)
    requires forall t :: t in k.timeouts ==> Remaining(k, t) >= 1
    ensures Expired(k, k)
  {
    hide Remaining;
  }

  lemma FirstOf(k: K)
    requires Waits(k) && Timers(k, 0) && k.timeouts != []
    ensures var t := k.timeouts[0];
            && t in k.tasks && k.tasks[t].state in {Blocked, Delayed}
            && (TickReached(k.now, WakeTick(k.tasks, t)) <==> Remaining(k, t) == 0)
            && Without(k.timeouts, t) == k.timeouts[1..]
    ensures Remaining(k, k.timeouts[0]) >= 1 ==> Timers(k, 1)
  {
    var t := k.timeouts[0];
    assert t in k.timeouts;
    ReachedIffNothingRemains(k.now, WakeTick(k.tasks, t));
    hide Remaining, TickReached;
    if Remaining(k, t) >= 1 {
      forall u | u in k.timeouts ensures Remaining(k, u) >= 1 {
        var i :| 0 <= i < |k.timeouts| && k.timeouts[i] == u;
      }
    }
  }

  lemma ExpiredAfterWake(k: K, t: TaskId, result: Code, w: K, r: K)
    requires t in k.timeouts && Remaining(k, t) == 0 && Freed(k, t, result, Ready, w) && Expired(w, r)
    requires t !in w.timeouts && result == if k.tasks[t].state == Delayed then Ok else Timeout
    requires forall u :: u in w.timeouts <==> u in k.timeouts && u != t
    requires forall u :: u in w.timeouts ==> Remaining(w, u) == Remaining(k, u)
    ensures Expired(k, r)
  {
    hide Remaining, Freed;
    forall u | u in k.tasks && u != t
      ensures u in w.tasks && w.tasks[u] == k.tasks[u].(prio := w.tasks[u].prio)
    {
      FreedOther(k, t, result, w, u);
    }
    FreedSelf(k, t, result, w);
    assert r.tasks[t] == w.tasks[t].(prio := r.tasks[t].prio);
  }

  lemma FreedOther(k: K, t: TaskId, result: Code, w: K, u: TaskId)
    requires Freed(k, t, result, Ready, w) && u in k.tasks && u != t
    ensures u in w.tasks && w.tasks[u] == k.tasks[u].(prio := w.tasks[u].prio)
  {}

  lemma FreedSelf(k: K, t: TaskId, result: Code, w: K)
    requires Freed(k, t, result, Ready, w)
    ensures t in k.tasks && w.tasks.Keys == k.tasks.Keys && w.now == k.now && w.cur == k.cur
    ensures w.tasks[t] == k.tasks[t].(prio := w.tasks[t].prio, wait := None, result := result, state := Ready)
  {
    hide Without;
  }

  lemma WakeHead(k: K, t: TaskId, result: Code)
    requires Inherits(k) && Rest(k, 0) && t in k.timeouts
    requires t in k.tasks && k.tasks[t].state in {Blocked, Delayed}
    ensures var w := Wake(k, t, result);
            && Inherits(w) && Rest(w, 0) && Freed(k, t, result, Ready, w)
            && w.timeouts == Without(k.timeouts, t)
            && (forall u :: u in w.timeouts <==> u in k.timeouts && u != t)
            && (forall u :: u in w.timeouts ==> Remaining(w, u) == Remaining(k, u))
  {
    var w := Wake(k, t, result);
    hide Sound, Acyclic, Fixed, Rest, Remaining, Wake, SameClock;
    WakeStep(k, t, result, 0);
    assert w.timeouts == Without(k.timeouts, t);
    hide Freed;
    FreedRest(k, t, result, Ready, w, 0);
  }

  lemma {:induction false} ExpireExact(k: K)
    requires Inherits(k) && Rest(k, 0)
    ensures var r := Expire(k, k.timeouts);
            Inv(r) && Expired(k, r)
    decreases |k.timeouts|
  {
    if k.timeouts == [] {
      NothingExpired(k);
    } else {
      var t := k.timeouts[0];
      FirstOf(k);
      hide Inherits, Waits, Counts, Remaining, Wake, Freed, Expired, TickReached;
      if Remaining(k, t) >= 1 {
        NothingExpired(k);
      } else {
        var result := if k.tasks[t].state == Delayed then Ok else Timeout;
        var w := Wake(k, t, result);
        WakeHead(k, t, result);
        ExpireExact(w);
        ExpiredAfterWake(k, t, result, w, Expire(w, w.timeouts));
      }
    }
  }

  lemma LaterTimers(k: K)
    requires Timers(k, 1)
    ensures Timers(k.(now := k.now + 1), 0)
    ensures forall t :: t in k.timeouts ==> Remaining(k.(now := k.now + 1), t) == Remaining(k, t) - 1
  {
    var r := k.(now := k.now + 1);
    forall t | t in k.timeouts ensures Remaining(r, t) == Remaining(k, t) - 1 {
      TickBringsNearer(k, t);
    }
    hide Remaining;
    forall i, j | 0 <= i < j < |r.timeouts| ensures Remaining(r, r.timeouts[i]) <= Remaining(r, r.timeouts[j]) {
      assert k.timeouts[i] in k.timeouts && k.timeouts[j] in k.timeouts;
    }
  }

  lemma LaterShape(k: K)
    requires ReadyOk(k) && Waits(k) && Counts(k)
    ensures var r := k.(now := k.now + 1); ReadyOk(r) && SameShape(k, r) && Waits(r) && Counts(r)
  {
    hide NoDup;
    assert forall l :: Q(k.(now := k.now + 1), l) == Q(k, l);
  }

  /** One tick wakes exactly the tasks that had one tick to go, wherever the 32-bit
      counter stands, brings every other one in the list a tick nearer, and leaves the
      tasks that are not in the list alone but for their current priority. */
  ghost predicate Ticked(k: K, r: K) {
    && r.now == k.now + 1 && r.tasks.Keys == k.tasks.Keys && r.cur == k.cur
    && (forall t :: t in k.timeouts && Remaining(k, t) == 1 ==>
          && t in k.tasks && t !in r.timeouts
          && r.tasks[t] == k.tasks[t].(prio := r.tasks[t].prio, state := Ready, wait := None,
                                       result := if k.tasks[t].state == Delayed then Ok else Timeout))
    && (forall t :: t in k.timeouts && Remaining(k, t) > 1 ==>
          && t in k.tasks && t in r.timeouts && Remaining(r, t) == Remaining(k, t) - 1
          && r.tasks[t] == k.tasks[t].(prio := r.tasks[t].prio))
    && (forall t :: t in k.tasks && t !in k.timeouts ==>
          t !in r.timeouts && r.tasks[t] == k.tasks[t].(prio := r.tasks[t].prio))
  }

  lemma LaterInherits(k: K)
    requires Inv(k)
    ensures var k1 := k.(now := k.now + 1); Inherits(k1) && Rest(k1, 0) && k1.timeouts == k.timeouts
  {
    hide Sound, Acyclic, Fixed, Waits, Timers, Counts, ReadyOk, SameShape, Remaining;
    ReadyOkOf(k);
    LaterTimers(k);
    LaterShape(k);
    SameShapeKeeps(k, k.(now := k.now + 1), {});
  }

  lemma TickExact(k: K)
    requires Inv(k)
    ensures Inv(Tick(k)) && Ticked(k, Tick(k))
  {
    hide Inherits, Waits, Timers, Counts, Remaining, Expire, Expired, Ticked;
    LaterInherits(k);
    LaterTimers(k);
    ExpireExact(k.(now := k.now + 1));
    LeastOne(k);
    TickFromExpired(k, k.(now := k.now + 1), Tick(k));
  }

  lemma LeastOne(k: K)
    requires Timers(k, 1)
    ensures forall t :: t in k.timeouts ==> Remaining(k, t) >= 1
  {
    hide Remaining;
  }

  lemma TickFromExpired(k: K, k1: K, r: K)
    requires Waits(k) && k1 == k.(now := k.now + 1) && Expired(k1, r)
    requires forall t :: t in k.timeouts ==> Remaining(k, t) >= 1 && Remaining(k1, t) == Remaining(k, t) - 1
    ensures Ticked(k, r)
  {
    hide Remaining;
  }

  // ----- the scheduler

  lemma HighestIsQueued(q: Queues)
    ensures Highest(q).Some? ==> exists p :: 0 <= p < MAX_PRIORITY && Highest(q).value in q[p]
  {
    HighestBelowIsFirst(q, MAX_PRIORITY);
  }

  /** Only the task that stops and the task that starts running change, and only in state. */
  ghost predicate Rescheduled(k: K, r: K) {
    && r == k.(tasks := r.tasks, cur := r.cur, resched := false)
    && r.tasks.Keys == k.tasks.Keys
    && (forall t :: t in k.tasks ==>
          && r.tasks[t] == k.tasks[t].(state := r.tasks[t].state)
          && (Runnable(r.tasks[t].state) <==> Runnable(k.tasks[t].state))
          && (!Runnable(k.tasks[t].state) ==> r.tasks[t].state == k.tasks[t].state)
          && (r.tasks[t].state == Running <==> r.cur == Some(t)))
  }

  lemma ScheduleTasks(k: K)
    requires Waits(k)
    requires Highest(k.ready).Some? ==>
               Highest(k.ready).value in k.tasks && Runnable(k.tasks[Highest(k.ready).value].state)
    ensures Rescheduled(k, Schedule(k)) && Schedule(k).cur == Highest(k.ready)
  {
    hide Highest, Rescheduled;
    var next := Highest(k.ready);
    var stops := k.cur.Some? && k.cur.value in k.tasks && k.tasks[k.cur.value].state == Running;
    var tasks := if stops then k.tasks[k.cur.value := k.tasks[k.cur.value].(state := Ready)] else k.tasks;
    assert tasks.Keys == k.tasks.Keys;
    assert forall t :: t in k.tasks ==>
      tasks[t] == k.tasks[t].(state := if k.tasks[t].state == Running then Ready else k.tasks[t].state);
    hide Waits;
    var r := Schedule(k);
    assert r.tasks == if next.Some? then tasks[next.value := tasks[next.value].(state := Running)] else tasks;
    assert r == k.(tasks := r.tasks, cur := next, resched := false);
    hide Schedule;
    TurnTaken(k, tasks, r, next);
  }

  lemma TurnTaken(k: K, tasks: map<TaskId, Tcb>, r: K, next: Option<TaskId>)
    requires tasks.Keys == k.tasks.Keys && r == k.(tasks := r.tasks, cur := next, resched := false)
    requires forall t :: t in k.tasks ==>
      tasks[t] == k.tasks[t].(state := if k.tasks[t].state == Running then Ready else k.tasks[t].state)
    requires next.Some? ==> next.value in k.tasks && Runnable(k.tasks[next.value].state)
    requires r.tasks == if next.Some? then tasks[next.value := tasks[next.value].(state := Running)] else tasks
    ensures Rescheduled(k, r)
  {}

  lemma HighestRuns(k: K)
    requires ReadyOk(k)
    ensures Highest(k.ready).Some? ==>
              Highest(k.ready).value in k.tasks && Runnable(k.tasks[Highest(k.ready).value].state)
  {
    hide Highest, NoDup;
    HighestIsQueued(k.ready);
  }

  /** The scheduler runs the head of the highest non-empty queue and keeps the invariant. */
  lemma ScheduleStep(k: K)
    requires Inv(k)
    ensures Stepped(k, Schedule(k))
    ensures Schedule(k).cur == Highest(k.ready) && Rescheduled(k, Schedule(k))
  {
    hide Sound, Acyclic, Fixed, Waits, Timers, Counts, ReadyOk, NoDup, SameShape, SameClock, Schedule, Highest;
    hide Rescheduled;
    var r := Schedule(k);
    ReadyOkOf(k);
    HighestRuns(k);
    ScheduleTasks(k);
    RescheduledShape(k, r);
    SameShapeKeeps(k, r, {});
    TimersCarry(k, r, 1);
    CountsCarry(k, r);
  }

  lemma RescheduledShape(k: K, r: K)
    requires Rescheduled(k, r) && ReadyOk(k) && Waits(k)
    ensures SameShape(k, r) && ReadyOk(r) && Waits(r)
    ensures r.mutexes == k.mutexes && r.sems == k.sems && r.timeouts == k.timeouts && r.now == k.now
    ensures forall l :: Q(r, l) == Q(k, l)
    ensures forall t :: WakeTick(r.tasks, t) == WakeTick(k.tasks, t)
  {
    hide ReadyOk;
    ReadyOkCarries(k, r);
    StatesShape(k, r);
    hide SameShape;
    assert forall l :: Q(r, l) == Q(k, l);
  }

  lemma StatesShape(k: K, r: K)
    requires r.tasks.Keys == k.tasks.Keys && r.mutexes == k.mutexes && r.waiters == k.waiters
    requires forall t :: t in k.tasks ==> r.tasks[t] == k.tasks[t].(state := r.tasks[t].state)
    ensures SameShape(k, r)
  {}

  /** Interrupt entry and exit and the scheduler lock change only their own flags. */
  lemma EnvironmentStep(k: K, inIsr: bool, locked: bool)
    requires Inv(k)
    ensures Stepped(k, k.(inIsr := inIsr, locked := locked))
  {
    var r := k.(inIsr := inIsr, locked := locked);
    ReadyOkOf(k);
    hide Inherits, Waits, Timers, Counts, ReadyOk, SameShape, SameRest, SameClock;
    assert SameShape(k, r) && SameRest(k, r);
    CountsCarry(k, r);
    ReadyOkCarries(k, r);
    PlainStep(k, r);
  }
}
