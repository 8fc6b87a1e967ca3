/** What the calls that move tasks do, told by who ends up where. */
module Outcomes {
  import opened Lists
  import opened ReadyQueue
  import opened KernelState
  import opened Inheritance
  import opened Transitions
  import opened HandOvers
  import opened KernelInvariant
  import opened KernelCalls
  import opened TaskCalls

  /** Nothing about `t` but, perhaps, its current priority changed. */
  ghost predicate Untouched(k: K, r: K, t: TaskId)
    requires t in k.tasks && t in r.tasks
  {
    r.tasks[t] == k.tasks[t].(prio := r.tasks[t].prio)
  }

  /** Exactly `t` left its wait list and the timeout list, with `result`, and is in state `s`. */
  ghost predicate LeftWaiting(k: K, r: K, t: TaskId, result: Code, s: TaskState) {
    && t in k.tasks && r.tasks.Keys == k.tasks.Keys
    && r.tasks[t].state == s && r.tasks[t].wait.None? && r.tasks[t].result == result && t !in r.timeouts
    && (forall u :: u in r.timeouts <==> u in k.timeouts && u != t)
    && (forall l, u :: u in Q(r, l) <==> u in Q(k, l) && u != t)
    && r.now == k.now && r.cur == k.cur && r.sems == k.sems
  }

  lemma OnlyInItsList(k: K, t: TaskId, l: WaitList)
    requires WaitersOk(k) && t in Q(k, l)
    ensures t in k.tasks && k.tasks[t].wait == Some(l)
  {}

  lemma FreedLeft(k: K, t: TaskId, result: Code, s: TaskState, r: K)
    requires Freed(k, t, result, s, r) && WaitersOk(k) && NoDup(k.timeouts)
    ensures LeftWaiting(k, r, t, result, s)
    ensures r.mutexes == k.mutexes
  {
    hide WaitersOk;
    WithoutIsDeletion(k.timeouts, t);
    forall l, u ensures u in Q(r, l) <==> u in Q(k, l) && u != t {
      if u == t && t in Q(k, l) {
        OnlyInItsList(k, t, l);
      }
    }
  }

  // ----- semaphores

  /** A post with waiters hands the unit to the first of them and leaves the count alone;
      without, it is counted, up to the limit. */
  lemma PostGoesToFirst(k: K, s: SemId)
    requires Inv(k) && s in k.sems
    ensures var (r, code) := SemPost(k, s); var q := Q(k, SemQ(s));
            && (q != [] ==> code == Ok && r.sems == k.sems && LeftWaiting(k, r, q[0], Ok, Ready)
                            && forall u :: u in k.tasks && u != q[0] ==> Untouched(k, r, u))
            && (q == [] && k.sems[s] < SEM_MAX_COUNT ==> code == Ok && r == k.(sems := k.sems[s := k.sems[s] + 1]))
            && (q == [] && k.sems[s] >= SEM_MAX_COUNT ==> code == Overflow && r == k)
  {
    SemOf(k, s);
    WaitersAndTimers(k);
    hide Inherits, Rest, Freed, Wake, SameClock, LeftWaiting;
    var q := Q(k, SemQ(s));
    if q != [] {
      var r := Wake(k, q[0], Ok);
      WakeStep(k, q[0], Ok, 1);
      FreedLeft(k, q[0], Ok, Ready, r);
      FreedOthers(k, q[0], Ok, Ready, r);
    }
  }

  lemma WaitersAndTimers(k: K)
    requires Inv(k)
    ensures WaitersOk(k) && NoDup(k.timeouts) && WaitersSorted(k)
  {}

  lemma FreedOthers(k: K, t: TaskId, result: Code, s: TaskState, r: K)
    requires Freed(k, t, result, s, r)
    ensures r.tasks.Keys == k.tasks.Keys && r.sems == k.sems
    ensures forall u :: u in k.tasks && u != t ==> Untouched(k, r, u)
  {}

  // ----- unlock

  /** The mutex is in the hands of `w`, which no longer waits; `self` gave it up. */
  ghost predicate HandedOn(k: K, m: MutexId, self: TaskId, w: TaskId, r: K) {
    && self in k.tasks && w in k.tasks && w != self
    && r.mutexes == k.mutexes[m := Mutex(Some(w), 1)]
    && LeftWaiting(k, r, w, Ok, Ready)
    && r.tasks[w].held == k.tasks[w].held + [m] && r.tasks[w].base == k.tasks[w].base
    && r.tasks[self].held == Without(k.tasks[self].held, m) && r.tasks[self].base == k.tasks[self].base
    && r.tasks[self].state == k.tasks[self].state
    && forall u :: u in k.tasks && u != self && u != w ==> Untouched(k, r, u)
  }

  lemma ReleaserOnlyPriorities(k: K, self: TaskId)
    requires Sound(k) && Acyclic(k) && Fixed(k, {self}) && self in k.tasks
    ensures OnlyPriorities(k, Recompute(k, self, 0))
  {
    hide Sound, Recompute, Fixed, Ranked, OnlyPriorities;
    var rank :| Ranked(k, rank);
    assert {} + {self} == {self};
    RecomputeKeepsAll(k, self, rank, {});
  }

  /** Wake-up and recomputation, seen from the state right after the hand-over. */
  lemma WokenAndSettled(k1: K, w: TaskId, k2: K, r: K)
    requires Freed(k1, w, Ok, Ready, k2) && OnlyPriorities(k2, r) && WaitersOk(k1) && NoDup(k1.timeouts)
    ensures LeftWaiting(k1, r, w, Ok, Ready) && r.mutexes == k1.mutexes
    ensures w in k1.tasks && r.tasks[w].held == k1.tasks[w].held && r.tasks[w].base == k1.tasks[w].base
    ensures forall u :: u in k1.tasks && u != w ==> Untouched(k1, r, u)
  {
    FreedLeft(k1, w, Ok, Ready, k2);
    FreedOthers(k1, w, Ok, Ready, k2);
    assert forall l, u :: u in Q(r, l) <==> u in Q(k2, l);
    assert r.timeouts == k2.timeouts;
  }

  lemma HandOverIs(k: K, m: MutexId, self: TaskId, w: TaskId)
    requires m in k.mutexes && self in k.tasks && Q(k, MutexQ(m)) != [] && Q(k, MutexQ(m))[0] == w
    requires w in k.tasks && w != self
    ensures var r := HandOver(k, m, self);
            && r.mutexes == k.mutexes[m := Mutex(Some(w), 1)]
            && r.tasks.Keys == k.tasks.Keys
            && r.tasks[w] == k.tasks[w].(held := k.tasks[w].held + [m])
            && r.tasks[self] == k.tasks[self].(held := Without(k.tasks[self].held, m))
            && (forall u :: u in k.tasks && u != self && u != w ==> r.tasks[u] == k.tasks[u])
            && (forall l :: Q(r, l) == Q(k, l))
            && r.timeouts == k.timeouts && r.now == k.now && r.cur == k.cur && r.sems == k.sems
  {
    hide Without;
  }

  lemma FirstIsHighest(k: K, m: MutexId)
    requires WaitersSorted(k) && Q(k, MutexQ(m)) != []
    ensures forall u :: u in Q(k, MutexQ(m)) ==> Prio(k.tasks, u) <= Prio(k.tasks, Q(k, MutexQ(m))[0])
  {
    assert SortedByPriority(k.tasks, Q(k, MutexQ(m)));
  }

  lemma AfterHandOver(k: K, m: MutexId, self: TaskId)
    requires Inv(k) && Releases(k, m, self) && Q(k, MutexQ(m)) != []
    ensures var w := Q(k, MutexQ(m))[0]; var k1 := HandOver(k, m, self); var k2 := Wake(k1, w, Ok);
            && w in k.tasks && w != self && WaitersOk(k1) && NoDup(k1.timeouts)
            && Freed(k1, w, Ok, Ready, k2) && OnlyPriorities(k2, Recompute(k2, self, 0))
  {
    var w := Q(k, MutexQ(m))[0];
    var k1 := HandOver(k, m, self);
    WaitersAndTimers(k);
    FirstWaiterBlocked(k, m, self);
    GivenIsUnlinked(k, m, self);
    hide Sound, Acyclic, Fixed, Rest, HandOver, Wake, Recompute, Freed, OnlyPriorities, WaitersOk;
    HandOverWakes(k, m, self);
    HandOverRest(k, m, self);
    FreedKeys(k1, w, Ok, Ready, Wake(k1, w, Ok));
    ReleaserOnlyPriorities(Wake(k1, w, Ok), self);
    NotItself(k, m, self);
  }

  lemma NotItself(k: K, m: MutexId, self: TaskId)
    requires Releases(k, m, self) && Q(k, MutexQ(m)) != []
    ensures Q(k, MutexQ(m))[0] != self
  {
    hide Acyclic, Fixed;
    FirstWaiter(k, m, self);
  }

  lemma UnlockIs(k: K, m: MutexId)
    requires Caller(k).Some? && Caller(k) == k.cur && k.cur.value in k.tasks
    requires m in k.mutexes && k.mutexes[m] == Mutex(k.cur, 1) && Q(k, MutexQ(m)) != []
    ensures MutexUnlock(k, m)
            == (Recompute(Wake(HandOver(k, m, k.cur.value), Q(k, MutexQ(m))[0], Ok), k.cur.value, 0), Ok)
  {
    hide HandOver, Wake, Recompute;
  }

  lemma HandedOnIs(k: K, m: MutexId, self: TaskId, w: TaskId, k1: K, r: K)
    requires self in k.tasks && w in k.tasks && w != self
    requires k1.mutexes == k.mutexes[m := Mutex(Some(w), 1)] && k1.tasks.Keys == k.tasks.Keys
    requires k1.tasks[w] == k.tasks[w].(held := k.tasks[w].held + [m])
    requires k1.tasks[self] == k.tasks[self].(held := Without(k.tasks[self].held, m))
    requires forall u :: u in k.tasks && u != self && u != w ==> k1.tasks[u] == k.tasks[u]
    requires forall l :: Q(k1, l) == Q(k, l)
    requires k1.timeouts == k.timeouts && k1.now == k.now && k1.cur == k.cur && k1.sems == k.sems
    requires LeftWaiting(k1, r, w, Ok, Ready) && r.mutexes == k1.mutexes
    requires r.tasks[w].held == k1.tasks[w].held && r.tasks[w].base == k1.tasks[w].base
    requires forall u :: u in k1.tasks && u != w ==> Untouched(k1, r, u)
    ensures HandedOn(k, m, self, w, r)
  {
    hide Q, Without;
    assert LeftWaiting(k, r, w, Ok, Ready);
    forall u | u in k.tasks && u != self && u != w ensures Untouched(k, r, u) {
      assert Untouched(k1, r, u);
    }
    assert Untouched(k1, r, self);
  }

  /** `aixos_mutex_unlock` with waiters: the mutex goes to the first one, which no other
      waiter outranks, and that one is woken with it. */
  lemma UnlockHandsOn(k: K, m: MutexId)
    requires Inv(k) && CallerRuns(k) && !k.inIsr && k.cur.Some?
    requires m in k.mutexes && k.mutexes[m] == Mutex(k.cur, 1) && Q(k, MutexQ(m)) != []
    ensures var (r, code) := MutexUnlock(k, m); var q := Q(k, MutexQ(m));
            && code == Ok && HandedOn(k, m, k.cur.value, q[0], r)
            && forall u :: u in q ==> Prio(k.tasks, u) <= Prio(k.tasks, q[0])
  {
    hide Inv, Releases, CallerRuns, Prio, MutexUnlock, WaitersOk, HandOver, Wake, Recompute, Freed, OnlyPriorities;
    hide WaitersSorted, NoDup, HandedOn, LeftWaiting, Untouched, Caller;
    ReleasesIt(k, m);
    WaitersAndTimers(k);
    UnlockIs(k, m);
    var self, w := k.cur.value, Q(k, MutexQ(m))[0];
    var k1 := HandOver(k, m, self);
    AfterHandOver(k, m, self);
    FirstIsHighest(k, m);
    HandOverIs(k, m, self, w);
    var r := Recompute(Wake(k1, w, Ok), self, 0);
    WokenAndSettled(k1, w, Wake(k1, w, Ok), r);
    LeftKeys(k1, r, w);
    HandedOnIs(k, m, self, w, k1, r);
  }

  lemma LeftKeys(k: K, r: K, t: TaskId)
    requires LeftWaiting(k, r, t, Ok, Ready)
    ensures r.tasks.Keys == k.tasks.Keys
  {}

  lemma ReleasesIt(k: K, m: MutexId)
    requires Inv(k) && CallerRuns(k) && !k.inIsr && k.cur.Some? && m in k.mutexes && k.mutexes[m].owner == k.cur
    ensures k.cur.value in k.tasks && Releases(k, m, k.cur.value) && Caller(k) == k.cur
  {}

  // ----- running

  /** The selected task is in the highest queue that has any. */
  lemma SelectedIsHighest(q: Queues)
    ensures Highest(q).None? <==> forall p :: 0 <= p < MAX_PRIORITY ==> q[p] == []
    ensures Highest(q).Some? ==>
              exists p :: 0 <= p < MAX_PRIORITY && Highest(q).value in q[p] && forall h :: p < h < MAX_PRIORITY ==> q[h] == []
  {
    HighestBelowIsFirst(q, MAX_PRIORITY);
  }

  lemma QueuedByPriority(k: K, t: TaskId)
    requires ReadyOk(k) && PrioritiesInRange(k) && t in k.tasks && Runnable(k.tasks[t].state)
    ensures InRange(k.tasks[t].prio) && t in k.ready[k.tasks[t].prio] && k.ready[k.tasks[t].prio] != []
  {}

  lemma QueuedCanRun(k: K, t: TaskId, p: nat)
    requires ReadyOk(k) && p < MAX_PRIORITY && t in k.ready[p]
    ensures t in k.tasks && Runnable(k.tasks[t].state) && k.tasks[t].prio == p
  {}

  lemma HighestOfAll(k: K)
    requires ReadyOk(k) && PrioritiesInRange(k)
    ensures Highest(k.ready).Some? <==> exists t :: t in k.tasks && Runnable(k.tasks[t].state)
    ensures Highest(k.ready).Some? ==>
              Highest(k.ready).value in k.tasks && Runnable(k.tasks[Highest(k.ready).value].state)
              && forall t :: t in k.tasks && Runnable(k.tasks[t].state) ==> k.tasks[t].prio <= k.tasks[Highest(k.ready).value].prio
  {
    hide ReadyOk, Highest, PrioritiesInRange;
    SelectedIsHighest(k.ready);
    if Highest(k.ready).Some? {
      var h := Highest(k.ready).value;
      var p :| 0 <= p < MAX_PRIORITY && h in k.ready[p] && forall g :: p < g < MAX_PRIORITY ==> k.ready[g] == [];
      QueuedCanRun(k, h, p);
      forall t | t in k.tasks && Runnable(k.tasks[t].state) ensures k.tasks[t].prio <= p {
        QueuedByPriority(k, t);
      }
    } else {
      forall t | t in k.tasks ensures !Runnable(k.tasks[t].state) {
        if Runnable(k.tasks[t].state) {
          QueuedByPriority(k, t);
        }
      }
    }
  }

  /** Some task that can run is above the current one, or there is none. */
  ghost predicate CurrentOutranked(k: K) {
    exists t :: t in k.tasks && Runnable(k.tasks[t].state) && k.cur != Some(t)
                && (k.cur.None? || k.tasks[t].prio > Prio(k.tasks, k.cur.value))
  }

  /** The test for preemption asks for a switch exactly then. */
  lemma PreemptionIff(k: K)
    requires ReadyOk(k) && PrioritiesInRange(k)
    ensures RequestPreemption(k) == k.(resched := k.resched || CurrentOutranked(k))
  {
    hide ReadyOk, PrioritiesInRange, Highest;
    HighestOfAll(k);
    if Highest(k.ready).Some? {
      var h := Highest(k.ready).value;
      assert k.cur != Some(h) && (k.cur.None? || k.tasks[h].prio > Prio(k.tasks, k.cur.value)) ==> CurrentOutranked(k);
      if CurrentOutranked(k) {
        var t :| t in k.tasks && Runnable(k.tasks[t].state) && k.cur != Some(t)
                 && (k.cur.None? || k.tasks[t].prio > Prio(k.tasks, k.cur.value));
        assert k.tasks[t].prio <= k.tasks[h].prio;
      }
    }
  }

  lemma FlagIsNotRanked(k: K, flag: bool)
    ensures CurrentOutranked(k.(resched := flag)) <==> CurrentOutranked(k)
  {}

  /** Waking a task, too, asks for a switch exactly then. */
  lemma WakeAsks(k: K, t: TaskId, result: Code)
    requires t in k.tasks && k.tasks[t].state in {Blocked, Delayed} && t in Detach(k, t, result).tasks
    requires ReadyOk(Wake(k, t, result)) && PrioritiesInRange(Wake(k, t, result))
    ensures Wake(k, t, result).resched <==> Detach(k, t, result).resched || CurrentOutranked(Wake(k, t, result))
  {
    var r := Wake(k, t, result);
    var d := Detach(k, t, result);
    var a := d.(tasks := d.tasks[t := d.tasks[t].(state := Ready)], ready := Add(d.ready, d.tasks[t].prio, t));
    hide Detach, ReadyOk, PrioritiesInRange, Add;
    assert r == RequestPreemption(a);
    PreemptionOnlyFlags(a);
    SameReady(r, a);
    PreemptionIff(a);
    FlagIsNotRanked(a, r.resched);
  }

  lemma SameReady(r: K, a: K)
    requires ReadyOk(r) && PrioritiesInRange(r) && a.tasks == r.tasks && a.ready == r.ready
    ensures ReadyOk(a) && PrioritiesInRange(a)
  {
    hide NoDup;
  }

  /** After `aixos_schedule` the running task has at least the priority of every task that
      can run, and there is one whenever some task can. */
  lemma RunsTheHighest(k: K)
    requires Inv(k)
    ensures var r := Schedule(k);
            && (r.cur.Some? <==> exists t :: t in k.tasks && Runnable(k.tasks[t].state))
            && (r.cur.Some? ==> r.cur.value in r.tasks && r.tasks[r.cur.value].state == Running
                                && forall t :: t in k.tasks && Runnable(k.tasks[t].state) ==>
                                     k.tasks[t].prio <= r.tasks[r.cur.value].prio)
  {
    ReadyOkOf(k);
    hide Inv, Schedule, Highest, NoDup, ReadyOk, PrioritiesInRange;
    ScheduleStep(k);
    HighestOfAll(k);
  }

  // ----- stopping

  /** `aixos_task_suspend` and `aixos_task_delete` take a waiting task off its lists as
      interrupted; a suspended task is in no list, a deleted one is gone. */
  lemma SuspendStops(k: K, t: TaskId)
    requires Inv(k) && TaskSuspend(k, t).1 == Ok
    ensures var r := TaskSuspend(k, t).0;
            && t in k.tasks && t in r.tasks && r.tasks[t].state == Suspended && r.tasks[t].wait.None?
            && t !in r.timeouts && (forall l :: t !in Q(r, l)) && (forall p :: 0 <= p < MAX_PRIORITY ==> t !in r.ready[p])
            && r.tasks[t].held == k.tasks[t].held
  {
    hide Inv, Stopped, Stepped, TaskSuspend;
    SuspendIsStop(k, t);
    StopStep(k, t);
    SuspendStep(k, t);
    SteppedInv(k, TaskSuspend(k, t).0);
    InNoList(TaskSuspend(k, t).0, t);
  }

  lemma InNoList(k: K, t: TaskId)
    requires Inv(k) && t in k.tasks && k.tasks[t].state == Suspended && k.tasks[t].wait.None?
    ensures forall l :: t !in Q(k, l)
    ensures forall p :: 0 <= p < MAX_PRIORITY ==> t !in k.ready[p]
  {
    WaitersAndTimers(k);
    ReadyOkOf(k);
    hide Inv, SameClock, NoDup;
  }

  lemma DeletedInNoList(k: K, t: TaskId)
    requires Inv(k) && t !in k.tasks
    ensures t !in k.timeouts && (forall l :: t !in Q(k, l))
    ensures forall p :: 0 <= p < MAX_PRIORITY ==> t !in k.ready[p]
    ensures forall m :: Owner(k, m) != Some(t)
  {
    hide Acyclic, Fixed, Counts, NoDup;
  }

  /** A task can be deleted only while it holds no mutex, and then nothing refers to it any more. */
  lemma DeleteForgets(k: K, t: TaskId)
    requires Inv(k)
    ensures TaskDelete(k, t).1 == Ok ==> t in k.tasks && k.tasks[t].held == [] && t !in TaskDelete(k, t).0.tasks
    ensures var r := TaskDelete(k, t).0;
            TaskDelete(k, t).1 == Ok ==>
              && t !in r.timeouts && (forall l :: t !in Q(r, l))
              && (forall p :: 0 <= p < MAX_PRIORITY ==> t !in r.ready[p]) && (forall m :: Owner(r, m) != Some(t))
  {
    hide Inv, Stepped, Q;
    if TaskDelete(k, t).1 == Ok {
      DeleteStep(k, t);
      assert t !in TaskDelete(k, t).0.tasks;
      hide TaskDelete;
      SteppedInv(k, TaskDelete(k, t).0);
      DeletedInNoList(TaskDelete(k, t).0, t);
    }
  }

  lemma SteppedInv(k: K, r: K)
    requires Stepped(k, r)
    ensures Inv(r)
  {}
}
