/** What every call answers, and all it changes: who gets what, and that nobody else does. */
module Answers {
  import opened Lists
  import opened ReadyQueue
  import opened KernelState
  import opened Inheritance
  import opened Transitions
  import opened HandOvers
  import opened Timeouts
  import opened KernelInvariant
  import opened KernelCalls
  import opened TaskCalls
  import opened Outcomes

  // ----- what recomputation and waking leave alone, in any state

  /** Current priorities changed, and with them places in queues and lists. */
  ghost predicate Repriced(k: K, r: K) {
    && r == k.(tasks := r.tasks, ready := r.ready, waiters := r.waiters) && r.tasks.Keys == k.tasks.Keys
    && forall t :: t in k.tasks ==> r.tasks[t] == k.tasks[t].(prio := r.tasks[t].prio)
  }

  lemma ReprioritiseFrame(k: K, t: TaskId, p: int)
    requires t in k.tasks
    ensures Repriced(k, Reprioritise(k, t, p))
  {
    hide Requeue, InsertByPriority, Without;
  }

  lemma {:induction false} RecomputeFrame(k: K, t: TaskId, depth: nat)
    ensures Repriced(k, Recompute(k, t, depth))
    decreases TASK_LIMIT - depth
  {
    if t in k.tasks && depth < TASK_LIMIT {
      var k1 := Reprioritise(k, t, Effective(k, t));
      ReprioritiseFrame(k, t, Effective(k, t));
      hide Reprioritise, Effective, Next;
      match Next(k1, t)
      case None =>
      case Some(owner) => RecomputeFrame(k1, owner, depth + 1);
    }
  }

  /** Everything but tasks, lists, queues and the flag is as before. */
  ghost predicate SameObjects(k: K, r: K) {
    r.mutexes == k.mutexes && r.sems == k.sems && r.now == k.now && r.cur == k.cur && r.inIsr == k.inIsr && r.locked == k.locked
  }

  lemma LeaveFrame(k: K, t: TaskId)
    ensures SameObjects(k, LeaveWaitList(k, t)) && LeaveWaitList(k, t).resched == k.resched
  {
    hide Recompute, Without, Q;
    if Linked(k, t) && k.tasks[t].wait.value.MutexQ? {
      var u := Unlink(k, t);
      match Owner(u, k.tasks[t].wait.value.mutex)
      case None =>
      case Some(owner) => RecomputeFrame(u, owner, 0);
    }
  }

  lemma DetachFrame(k: K, t: TaskId, result: Code)
    ensures SameObjects(k, Detach(k, t, result)) && Detach(k, t, result).resched == k.resched
  {
    LeaveFrame(k, t);
    hide LeaveWaitList, Without;
  }

  lemma WakeFrame(k: K, t: TaskId, result: Code)
    ensures SameObjects(k, Wake(k, t, result))
  {
    DetachFrame(k, t, result);
    hide Detach, Add, Highest;
  }

  lemma {:induction false} ExpireFrame(k: K, todo: seq<TaskId>)
    ensures SameObjects(k, Expire(k, todo))
    decreases |todo|
  {
    if !(todo == [] || !TickReached(k.now, WakeTick(k.tasks, todo[0]))) {
      var t := todo[0];
      var result := if t in k.tasks && k.tasks[t].state == Delayed then Ok else Timeout;
      WakeFrame(k, t, result);
      hide Wake, TickReached;
      ExpireFrame(Wake(k, t, result), todo[1..]);
    }
  }

  // ----- blocking

  /** The task waits in `l`, or for the clock alone, and nobody else changed but, perhaps, in priority. */
  ghost predicate WaitsNow(k: K, t: TaskId, l: Option<WaitList>, r: K) {
    && t in k.tasks && r.tasks.Keys == k.tasks.Keys && SameObjects(k, r)
    && r.tasks[t].state == (if l.None? then Delayed else Blocked) && r.tasks[t].wait == l && r.tasks[t].result == Ok
    && r.tasks[t].base == k.tasks[t].base && r.tasks[t].held == k.tasks[t].held
    && (forall u :: u in k.tasks && u != t ==> Untouched(k, r, u))
    && (forall x, u :: u in Q(r, x) <==> u in Q(k, x) || (u == t && l == Some(x)))
  }

  lemma ParkedNow(k: K, t: TaskId, l: Option<WaitList>, r: K, ticks: nat)
    requires Parked'(k, t, l, r)
    ensures WaitsNow(k, t, l, ArmTimeout(r, t, ticks).(resched := true))
  {
    hide ArmTimeout, Q;
    var a := ArmTimeout(r, t, ticks).(resched := true);
    ArmFields(r, t, ticks);
    SameWaiters(r, a);
    forall u | u in k.tasks && u != t ensures Untouched(k, a, u) {
      assert a.tasks[u] == r.tasks[u];
    }
  }

  /** Every answer of a blocking call: refused without effect outside a task or under the
      scheduler lock, else the caller waits and a switch is asked for. */
  lemma BlockAnswers(k: K, l: Option<WaitList>, ms: nat)
    requires Inv(k) && CallerRuns(k)
    requires l.Some? && l.value.MutexQ? ==> Owner(k, l.value.mutex).Some? && NoDeadlock(k, l.value.mutex)
                                            && Owner(k, l.value.mutex) != k.cur
    ensures var (r, code) := Block(k, l, ms);
            && code == (if Caller(k).None? then Context else if k.locked then Locked else Parked)
            && (code != Parked ==> r == k)
            && (code == Parked ==> k.cur.Some? && WaitsNow(k, k.cur.value, l, r) && r.resched)
  {
    hide Sound, Acyclic, Fixed, KernelInvariant.Rest, Parked', Park, RecomputeOwner, ArmTimeout, MsToTicks, WaitsNow;
    if Block(k, l, ms).1 == Parked {
      var t := k.cur.value;
      var r1 := Park(k, t, l);
      var r2 := if l.Some? && l.value.MutexQ? then RecomputeOwner(r1, l.value.mutex) else r1;
      RunningWaitsNot(k, t);
      ParkKeeps(k, t, l);
      ParkedNow(k, t, l, r2, MsToTicks(ms));
    }
  }

  lemma RunningWaitsNot(k: K, t: TaskId)
    requires Inv(k) && t in k.tasks && k.tasks[t].state == Running
    ensures k.tasks[t].wait.None?
  {
    hide Inherits, Counts;
  }

  // ----- mutexes

  /** Every answer of a lock: a free mutex is the caller's with count 1, one it owns already
      counts one more, and only a mutex of somebody else's makes it wait. */
  lemma LockAnswers(k: K, m: MutexId, ms: nat)
    requires Inv(k) && CallerRuns(k) && NoDeadlock(k, m)
    ensures var (r, code) := MutexLock(k, m, ms); var self := Caller(k);
            var known := self.Some? && m in k.mutexes; var free := known && Owner(k, m).None?;
            var own := known && Owner(k, m) == self; var taken := known && !free && !own;
            && (code == Context <==> self.None?) && (code == Invalid <==> self.Some? && m !in k.mutexes)
            && (code == Ok <==> free || (own && k.mutexes[m].lockCount < UINT32_MAX))
            && (code == Overflow <==> own && k.mutexes[m].lockCount == UINT32_MAX)
            && (code == Busy <==> taken && ms == 0) && (code == Locked <==> taken && ms > 0 && k.locked)
            && (code == Parked <==> taken && ms > 0 && !k.locked)
            && (code != Ok && code != Parked ==> r == k)
            && (code == Parked ==> WaitsNow(k, self.value, Some(MutexQ(m)), r) && r.resched)
            && (free ==> r.mutexes == k.mutexes[m := Mutex(self, 1)] && Acquired(k, m, self.value, r))
            && (own && code == Ok ==> r == k.(mutexes := k.mutexes[m := Mutex(self, k.mutexes[m].lockCount + 1)]))
  {
    if m in k.mutexes {
      LockCountBound(k, m);
    }
    hide Inv, CallerRuns, NoDeadlock, WaitsNow, MutexLock, Block;
    if Caller(k).Some? && m in k.mutexes && Owner(k, m).Some? && Owner(k, m) != Caller(k) && ms > 0 {
      BlockAnswers(k, Some(MutexQ(m)), ms);
      LockOfOthers(k, m, ms);
    } else {
      LockAtOnce(k, m, ms);
    }
  }

  lemma LockAtOnce(k: K, m: MutexId, ms: nat)
    requires Caller(k).Some? && m in k.mutexes && Owner(k, m).Some? && Owner(k, m) != Caller(k) ==> ms == 0
    ensures var (r, code) := MutexLock(k, m, ms); var self := Caller(k);
            && (self.None? ==> code == Context && r == k)
            && (self.Some? && m !in k.mutexes ==> code == Invalid && r == k)
            && (self.Some? && m in k.mutexes && Owner(k, m).None? ==>
                  code == Ok && r.mutexes == k.mutexes[m := Mutex(self, 1)] && Acquired(k, m, self.value, r))
            && (self.Some? && m in k.mutexes && Owner(k, m) == self && k.mutexes[m].lockCount != UINT32_MAX ==>
                  code == Ok && r == k.(mutexes := k.mutexes[m := Mutex(self, k.mutexes[m].lockCount + 1)]))
            && (self.Some? && m in k.mutexes && Owner(k, m) == self && k.mutexes[m].lockCount == UINT32_MAX ==>
                  code == Overflow && r == k)
            && (self.Some? && m in k.mutexes && Owner(k, m).Some? && Owner(k, m) != self ==> code == Busy && r == k)
  {
    hide Block;
  }

  lemma LockOfOthers(k: K, m: MutexId, ms: nat)
    requires Caller(k).Some? && m in k.mutexes && Owner(k, m).Some? && Owner(k, m) != Caller(k) && ms > 0
    ensures MutexLock(k, m, ms) == Block(k, Some(MutexQ(m)), ms)
  {
    hide Block;
  }

  /** `t` holds `m` besides what it held, and nothing else changed. */
  ghost predicate Acquired(k: K, m: MutexId, t: TaskId, r: K) {
    && t in k.tasks && r == k.(mutexes := r.mutexes, tasks := r.tasks)
    && r.tasks == k.tasks[t := k.tasks[t].(held := k.tasks[t].held + [m])]
  }

  /** Every answer of an unlock: only the owner may, all but its last only count down, and the
      last leaves a mutex nobody waits for free and the caller without it. */
  lemma UnlockAnswers(k: K, m: MutexId)
    requires Inv(k) && CallerRuns(k)
    ensures var (r, code) := MutexUnlock(k, m); var self := Caller(k);
            var own := self.Some? && m in k.mutexes && Owner(k, m) == self;
            && (code == Context <==> self.None?) && (code == Ok <==> own) && (code == Invalid <==> self.Some? && !own)
            && (code != Ok ==> r == k)
            && (own && k.mutexes[m].lockCount > 1 ==>
                  r == k.(mutexes := k.mutexes[m := Mutex(self, k.mutexes[m].lockCount - 1)]))
            && (own && k.mutexes[m].lockCount <= 1 && Q(k, MutexQ(m)) == [] ==>
                  && r == k.(mutexes := k.mutexes[m := Mutex(None, 0)], tasks := r.tasks, ready := r.ready, waiters := r.waiters)
                  && GaveUp(k, m, self.value, r))
            && (own && k.mutexes[m].lockCount <= 1 && Q(k, MutexQ(m)) != [] ==>
                  HandedOn(k, m, self.value, Q(k, MutexQ(m))[0], r) && r.inIsr == k.inIsr && r.locked == k.locked)
  {
    hide Inv, HandedOn, GaveUp, CallerRuns, MutexUnlock, Q;
    if Caller(k).Some? && m in k.mutexes && Owner(k, m) == Caller(k) && k.mutexes[m].lockCount <= 1 {
      CountedIfOwned(k, m);
      if Q(k, MutexQ(m)) != [] {
        UnlockHandsOn(k, m);
        UnlockFrame(k, m, k.cur.value);
      } else {
        UnwaitedUnlock(k, m, k.cur.value);
      }
    } else {
      UnlockOnlyCounts(k, m);
    }
  }

  lemma UnlockFrame(k: K, m: MutexId, self: TaskId)
    requires Caller(k) == Some(self) && m in k.mutexes && k.mutexes[m].owner == Some(self) && k.mutexes[m].lockCount <= 1
    ensures MutexUnlock(k, m).0.inIsr == k.inIsr && MutexUnlock(k, m).0.locked == k.locked
  {
    var k1 := HandOver(k, m, self);
    var q := Q(k, MutexQ(m));
    hide Wake, Recompute, Without, Q;
    if q != [] {
      WakeFrame(k1, q[0], Ok);
      RecomputeFrame(Wake(k1, q[0], Ok), self, 0);
    } else {
      RecomputeFrame(k1, self, 0);
    }
  }

  lemma UnlockOnlyCounts(k: K, m: MutexId)
    requires !(Caller(k).Some? && m in k.mutexes && Owner(k, m) == Caller(k) && k.mutexes[m].lockCount <= 1)
    ensures var (r, code) := MutexUnlock(k, m); var self := Caller(k);
            && (self.None? ==> code == Context && r == k)
            && (self.Some? && !(m in k.mutexes && Owner(k, m) == self) ==> code == Invalid && r == k)
            && (self.Some? && m in k.mutexes && Owner(k, m) == self ==>
                  code == Ok && r == k.(mutexes := k.mutexes[m := Mutex(self, k.mutexes[m].lockCount - 1)]))
  {
    hide HandOver, Wake, Recompute;
  }

  lemma CountedIfOwned(k: K, m: MutexId)
    requires Inv(k) && Owner(k, m).Some?
    ensures m in k.mutexes && k.mutexes[m].lockCount >= 1
  {}

  /** `self` no longer holds `m`; other fields of any task but its priority are as before. */
  ghost predicate GaveUp(k: K, m: MutexId, self: TaskId, r: K) {
    && self in k.tasks && r.tasks.Keys == k.tasks.Keys
    && r.tasks[self] == k.tasks[self].(held := Without(k.tasks[self].held, m), prio := r.tasks[self].prio)
    && forall u :: u in k.tasks && u != self ==> Untouched(k, r, u)
  }

  lemma UnwaitedUnlock(k: K, m: MutexId, self: TaskId)
    requires k.cur == Some(self) && self in k.tasks && !k.inIsr && m in k.mutexes && k.mutexes[m] == Mutex(Some(self), 1)
    requires Q(k, MutexQ(m)) == []
    ensures var (r, code) := MutexUnlock(k, m);
            && code == Ok && GaveUp(k, m, self, r)
            && r == k.(mutexes := k.mutexes[m := Mutex(None, 0)], tasks := r.tasks, ready := r.ready, waiters := r.waiters)
  {
    hide Without;
    RecomputeFrame(HandOver(k, m, self), self, 0);
    hide Recompute;
  }

  /** Every answer of a deletion: a mutex that somebody waits for stays; otherwise it is gone,
      from the owner's held list too. */
  lemma MutexDeleteAnswers(k: K, m: MutexId)
    requires Inv(k)
    ensures var (r, code) := MutexDelete(k, m);
            && (code == Context <==> k.inIsr) && (code == Invalid <==> !k.inIsr && m !in k.mutexes)
            && (code == Busy <==> !k.inIsr && m in k.mutexes && Q(k, MutexQ(m)) != [])
            && (code == Ok <==> !k.inIsr && m in k.mutexes && Q(k, MutexQ(m)) == [])
            && (code != Ok ==> r == k)
            && (code == Ok ==> && r == k.(mutexes := k.mutexes - {m}, tasks := r.tasks) && r.tasks.Keys == k.tasks.Keys
                               && forall t :: t in k.tasks ==>
                                    r.tasks[t] == k.tasks[t].(held := Without(k.tasks[t].held, m)))
  {
    hide Acyclic, Waits, Counts, Recompute, Deleted, Drop, ReadyOk, WaitersSorted, PrioritiesInRange;
    if MutexDelete(k, m).1 == Ok {
      DropFixed(k, m);
      DeleteIsDrop(k, m);
      hide MutexDelete, Fixed;
      DeletedHeld(k, m);
    }
  }

  lemma DeletedHeld(k: K, m: MutexId)
    requires OwnersOk(k)
    ensures var r := Deleted(k, m);
            && r == k.(mutexes := k.mutexes - {m}, tasks := r.tasks) && r.tasks.Keys == k.tasks.Keys
            && forall t :: t in k.tasks ==> r.tasks[t] == k.tasks[t].(held := Without(k.tasks[t].held, m))
  {
    forall t | t in k.tasks && Owner(k, m) != Some(t) ensures Without(k.tasks[t].held, m) == k.tasks[t].held {
      WithoutNothing(k.tasks[t].held, m);
    }
    hide Without, NoDup;
  }

  // ----- semaphores

  /** Every answer of a wait: with a unit there it takes exactly that one; without, it waits or,
      asked not to, times out. */
  lemma SemWaitAnswers(k: K, s: SemId, ms: nat)
    requires Inv(k) && CallerRuns(k)
    ensures var (r, code) := SemWait(k, s, ms); var known := !k.inIsr && s in k.sems;
            && (code == Context <==> k.inIsr) && (code == Invalid <==> !k.inIsr && s !in k.sems)
            && (code == Ok <==> known && k.sems[s] > 0) && (code == Timeout <==> known && k.sems[s] == 0 && ms == 0)
            && (code == Locked <==> known && k.sems[s] == 0 && ms > 0 && k.locked)
            && (code == Parked <==> known && k.sems[s] == 0 && ms > 0 && !k.locked)
            && (code == Ok ==> r == k.(sems := k.sems[s := k.sems[s] - 1]))
            && (code == Parked ==> k.cur.Some? && WaitsNow(k, k.cur.value, Some(SemQ(s)), r) && r.resched)
            && (code != Ok && code != Parked ==> r == k)
  {
    hide Inv, Block, WaitsNow, CallerRuns;
    if !k.inIsr && s in k.sems && k.sems[s] == 0 && ms > 0 {
      BlockAnswers(k, Some(SemQ(s)), ms);
      CallerInTask(k);
    }
  }

  lemma CallerInTask(k: K)
    requires CallerRuns(k)
    ensures Caller(k).None? <==> k.inIsr
  {}

  /** Every answer of a sleep; for no time at all it is a yield. */
  lemma SleepAnswers(k: K, ms: nat)
    requires Inv(k) && CallerRuns(k)
    ensures ms == 0 ==> Sleep(k, ms) == Yield(k)
    ensures var (r, code) := Sleep(k, ms);
            ms > 0 ==>
            && code == (if k.inIsr then Context else if k.locked then Locked else Parked)
            && (code != Parked ==> r == k) && (code == Parked ==> k.cur.Some? && WaitsNow(k, k.cur.value, None, r) && r.resched)
  {
    hide Inv, Block, WaitsNow, CallerRuns;
    BlockAnswers(k, None, ms);
    CallerInTask(k);
  }

  // ----- posts

  /** A post that wakes a task asks for a switch exactly when the current task is then outranked,
      or one had been asked for. */
  lemma PostAsks(k: K, s: SemId)
    requires Inv(k) && s in k.sems && Q(k, SemQ(s)) != []
    ensures var r := SemPost(k, s).0; SameObjects(k, r) && (r.resched <==> k.resched || CurrentOutranked(r))
  {
    var t := Q(k, SemQ(s))[0];
    SemOf(k, s);
    SemPostStep(k, s);
    var r := SemPost(k, s).0;
    assert r == Wake(k, t, Ok) by {
      hide Wake;
    }
    ReadyOkOf(r);
    hide SemPost;
    WakeAnswers(k, t, Ok);
  }

  lemma WakeAnswers(k: K, t: TaskId, result: Code)
    requires Inherits(k) && t in k.tasks && k.tasks[t].state in {Blocked, Delayed}
    requires ReadyOk(Wake(k, t, result)) && PrioritiesInRange(Wake(k, t, result))
    ensures var r := Wake(k, t, result); SameObjects(k, r) && (r.resched <==> k.resched || CurrentOutranked(r))
  {
    hide Sound, Acyclic, Fixed, Detached, Detach, ReadyOk, PrioritiesInRange, CurrentOutranked, Wake;
    DetachKeeps(k, t, result, {});
    DetachedState(k, t, result, Detach(k, t, result));
    WakeFrame(k, t, result);
    DetachFrame(k, t, result);
    WakeAsks(k, t, result);
  }

  // ----- suspend, resume, delete

  /** Whatever `t` was doing it does no more: a wait is over as interrupted. */
  ghost predicate StoppedNow(k: K, t: TaskId, r: K) {
    && t in k.tasks && r.tasks.Keys == k.tasks.Keys && SameObjects(k, r)
    && r.tasks[t] == k.tasks[t].(prio := r.tasks[t].prio, state := Suspended, wait := None,
                                 result := if k.tasks[t].state in {Blocked, Delayed} then Interrupted else k.tasks[t].result)
    && (forall u :: u in k.tasks && u != t ==> Untouched(k, r, u))
    && (forall l, u :: u in Q(r, l) <==> u in Q(k, l) && u != t)
    && (forall u :: u in r.timeouts <==> u in k.timeouts && u != t)
  }

  lemma StoppedIs(k: K, t: TaskId)
    requires Inv(k) && t in k.tasks
    ensures StoppedNow(k, t, Stopped(k, t)) && Stopped(k, t).resched == k.resched
  {
    if k.tasks[t].state in {Blocked, Delayed} {
      hide Sound, Acyclic, Fixed, Rest, Detached, Detach, StoppedNow;
      WaitersAndTimers(k);
      DetachKeeps(k, t, Interrupted, {});
      DetachFrame(k, t, Interrupted);
      DetachedStops(k, t, Detach(k, t, Interrupted), Stopped(k, t));
    } else {
      WaitersAndTimers(k);
      RunnableStops(k, t);
    }
  }

  lemma DetachedStops(k: K, t: TaskId, d: K, r: K)
    requires WaitersOk(k) && NoDup(k.timeouts) && Detached(k, t, Interrupted, d) && k.tasks[t].state in {Blocked, Delayed}
    requires r == d.(tasks := d.tasks[t := d.tasks[t].(state := Suspended)])
    ensures StoppedNow(k, t, r)
  {
    WithoutIsDeletion(k.timeouts, t);
    hide Without;
    assert forall l :: Q(r, l) == Q(d, l);
    forall l, u ensures u in Q(r, l) <==> u in Q(k, l) && u != t {
      if u == t && t in Q(k, l) {
        OnlyInItsList(k, t, l);
      }
    }
  }

  lemma RunnableStops(k: K, t: TaskId)
    requires Waits(k) && WaitersOk(k) && t in k.tasks && k.tasks[t].state !in {Blocked, Delayed}
    ensures StoppedNow(k, t, Stopped(k, t)) && Stopped(k, t).resched == k.resched
  {
    hide Remove, NoDup;
    var r := Stopped(k, t);
    assert forall l :: Q(r, l) == Q(k, l);
    forall l ensures t !in Q(k, l) {
      if t in Q(k, l) {
        OnlyInItsList(k, t, l);
      }
    }
  }

  /** Every answer of a suspension. */
  lemma SuspendAnswers(k: K, t: TaskId)
    requires Inv(k)
    ensures var (r, code) := TaskSuspend(k, t); var can := !k.inIsr && t in k.tasks && k.tasks[t].state != Suspended;
            && (code == Context <==> k.inIsr) && (code == Invalid <==> !k.inIsr && !can)
            && (code == Locked <==> can && k.cur == Some(t) && k.locked)
            && (code == Ok <==> can && !(k.cur == Some(t) && k.locked))
            && (code != Ok ==> r == k)
            && (code == Ok ==> StoppedNow(k, t, r) && (r.resched <==> k.resched || k.cur == Some(t)))
  {
    if TaskSuspend(k, t).1 == Ok {
      SuspendCodes(k, t);
      hide Inv, Stopped, TaskSuspend, StoppedNow;
      SuspendIsStop(k, t);
      StoppedIs(k, t);
      FlagOnly(k, t, Stopped(k, t), TaskSuspend(k, t).0.resched);
      StillThere(k, t, TaskSuspend(k, t).0);
      SuspendFlag(k, t);
    } else {
      SuspendCodes(k, t);
      SuspendRefused(k, t);
      hide Inv, TaskSuspend, StoppedNow;
    }
  }

  lemma FlagOnly(k: K, t: TaskId, r: K, flag: bool)
    requires StoppedNow(k, t, r)
    ensures StoppedNow(k, t, r.(resched := flag))
  {
    var f := r.(resched := flag);
    assert forall l :: Q(f, l) == Q(r, l);
    assert forall u :: u in k.tasks && u != t ==> Untouched(k, r, u);
  }

  lemma StillThere(k: K, t: TaskId, r: K)
    requires StoppedNow(k, t, r)
    ensures t in r.tasks
  {}

  lemma SuspendCodes(k: K, t: TaskId)
    ensures var code := TaskSuspend(k, t).1; var can := !k.inIsr && t in k.tasks && k.tasks[t].state != Suspended;
            && (code == Context <==> k.inIsr) && (code == Invalid <==> !k.inIsr && !can)
            && (code == Locked <==> can && k.cur == Some(t) && k.locked)
            && (code == Ok <==> can && !(k.cur == Some(t) && k.locked))
  {
    hide Detach, Remove;
  }

  lemma SuspendFlag(k: K, t: TaskId)
    requires TaskSuspend(k, t).1 == Ok && t in TaskSuspend(k, t).0.tasks
    ensures TaskSuspend(k, t).0.resched <==> k.resched || k.cur == Some(t)
  {
    hide Detach, Remove;
    DetachFrame(k.(ready := Remove(k.ready, k.tasks[t].prio, t)), t, Interrupted);
  }

  /** Every answer of a resumption: a suspended task is ready and last in its queue, and nothing
      else changed but that a switch is asked for if it, or another, outranks the current task. */
  lemma ResumeAnswers(k: K, t: TaskId)
    requires Inv(k)
    ensures var (r, code) := TaskResume(k, t); var can := !k.inIsr && t in k.tasks && k.tasks[t].state == Suspended;
            && (code == Context <==> k.inIsr) && (code == Invalid <==> !k.inIsr && !can) && (code == Ok <==> can)
            && (code != Ok ==> r == k)
            && (code == Ok ==> && r == k.(tasks := k.tasks[t := k.tasks[t].(state := Ready)], ready := r.ready, resched := r.resched)
                               && InRange(k.tasks[t].prio)
                               && r.ready == k.ready[k.tasks[t].prio := k.ready[k.tasks[t].prio] + [t]]
                               && (r.resched <==> k.resched || CurrentOutranked(r)))
  {
    if TaskResume(k, t).1 == Ok {
      ResumeStep(k, t);
      PriorityOf(k, t);
      var r := TaskResume(k, t).0;
      ReadyOkOf(r);
      hide Inv, ReadyOk, PrioritiesInRange, CurrentOutranked, Stepped;
      var a := k.(tasks := k.tasks[t := k.tasks[t].(state := Ready)], ready := Add(k.ready, k.tasks[t].prio, t));
      assert r == RequestPreemption(a);
      PreemptionOnlyFlags(a);
      SameReady(r, a);
      PreemptionIff(a);
      FlagIsNotRanked(a, r.resched);
    }
  }

  /** Every answer of a deletion: it is a suspension after which the task is gone. */
  lemma DeleteAnswers(k: K, t: TaskId)
    requires Inv(k)
    ensures var (r, code) := TaskDelete(k, t);
            && (code == Invalid <==> t !in k.tasks) && (code == Busy <==> t in k.tasks && k.tasks[t].held != [])
            && (code == Locked <==> t in k.tasks && k.tasks[t].held == [] && k.cur == Some(t) && k.locked)
            && (code == Ok <==> t in k.tasks && k.tasks[t].held == [] && !(k.cur == Some(t) && k.locked))
            && (code != Ok ==> r == k)
            && (code == Ok ==> && r.tasks.Keys == k.tasks.Keys - {t} && SameObjects(k, r)
                               && (forall u :: u in k.tasks && u != t ==> Untouched(k, r, u))
                               && (forall l, u :: u in Q(r, l) <==> u in Q(k, l) && u != t)
                               && (forall u :: u in r.timeouts <==> u in k.timeouts && u != t)
                               && (r.resched <==> k.resched || k.cur == Some(t)))
  {
    hide Inv, Stopped, TaskDelete, StoppedNow, Untouched, Q;
    DeleteCodes(k, t);
    if TaskDelete(k, t).1 == Ok {
      DeleteFlag(k, t);
      DeleteIsStopAndForget(k, t);
      StoppedIs(k, t);
      Forgotten(k, t, Stopped(k, t), TaskDelete(k, t).0);
    }
  }

  lemma Forgotten(k: K, t: TaskId, s: K, r: K)
    requires StoppedNow(k, t, s) && r == s.(tasks := s.tasks - {t}, resched := r.resched)
    ensures r.tasks.Keys == k.tasks.Keys - {t} && SameObjects(k, r)
    ensures forall u :: u in k.tasks && u != t ==> Untouched(k, r, u)
    ensures (forall l, u :: u in Q(r, l) <==> u in Q(k, l) && u != t) && (forall u :: u in r.timeouts <==> u in k.timeouts && u != t)
  {
    assert forall l :: Q(r, l) == Q(s, l);
    hide Q;
    forall u | u in k.tasks && u != t ensures Untouched(k, r, u) {
      assert Untouched(k, s, u);
    }
  }

  lemma DeleteCodes(k: K, t: TaskId)
    ensures var code := TaskDelete(k, t).1;
            && (code == Invalid <==> t !in k.tasks) && (code == Busy <==> t in k.tasks && k.tasks[t].held != [])
            && (code == Locked <==> t in k.tasks && k.tasks[t].held == [] && k.cur == Some(t) && k.locked)
            && (code == Ok <==> t in k.tasks && k.tasks[t].held == [] && !(k.cur == Some(t) && k.locked))
            && (code != Ok ==> TaskDelete(k, t).0 == k)
  {
    hide Detach, Remove;
  }

  lemma DeleteFlag(k: K, t: TaskId)
    requires TaskDelete(k, t).1 == Ok
    ensures TaskDelete(k, t).0.resched <==> k.resched || k.cur == Some(t)
  {
    DetachFrame(k.(ready := Remove(k.ready, k.tasks[t].prio, t)), t, Interrupted);
    hide Detach, Remove;
  }

  // ----- priorities

  lemma RebaseFrame(k: K, t: TaskId, p: nat)
    requires t in k.tasks
    ensures var r := Rebase(k, t, p);
            r == k.(tasks := k.tasks[t := k.tasks[t].(base := p, prio := p)], ready := r.ready, waiters := r.waiters)
  {
    hide Requeue, InsertByPriority, Without;
  }

  /** `t` has the base priority `p`; priorities apart nothing changed in any other task. */
  ghost predicate BaseTaken(k: K, t: TaskId, p: int, r: K) {
    && t in k.tasks && 0 <= p && r.tasks.Keys == k.tasks.Keys
    && r.tasks[t] == k.tasks[t].(base := p, prio := r.tasks[t].prio)
    && (forall u :: u in k.tasks && u != t ==> Untouched(k, r, u))
    && r == k.(tasks := r.tasks, ready := r.ready, waiters := r.waiters, resched := r.resched)
  }

  lemma RepricedBase(k: K, t: TaskId, p: int, a: K, r: K)
    requires BaseTaken(k, t, p, a) && Repriced(a, r)
    ensures BaseTaken(k, t, p, r) && r.resched == a.resched
  {
    forall u | u in k.tasks && u != t ensures Untouched(k, r, u) {
      assert Untouched(k, a, u);
    }
  }

  /** `aixos_task_set_priority` before its test for preemption. */
  function Repriorised(k: K, t: TaskId, p: nat): K
    requires t in k.tasks
  {
    var k1 := Rebase(k, t, p);
    var k2 := if WaitsOnMutex(k1, t) && Linked(k1, t) then RecomputeOwner(k1, k1.tasks[t].wait.value.mutex) else k1;
    Recompute(k2, t, 0)
  }

  lemma RepriorisedIs(k: K, t: TaskId, p: nat)
    requires t in k.tasks
    ensures BaseTaken(k, t, p, Repriorised(k, t, p)) && Repriorised(k, t, p).resched == k.resched
  {
    var k1 := Rebase(k, t, p);
    RebaseFrame(k, t, p);
    var k2 := if WaitsOnMutex(k1, t) && Linked(k1, t) then RecomputeOwner(k1, k1.tasks[t].wait.value.mutex) else k1;
    hide Rebase, Recompute, BaseTaken, Repriced, Linked;
    RebasedIs(k, t, p);
    RepricedSame(k1);
    if WaitsOnMutex(k1, t) && Linked(k1, t) && Owner(k1, k1.tasks[t].wait.value.mutex).Some? {
      RecomputeFrame(k1, Owner(k1, k1.tasks[t].wait.value.mutex).value, 0);
    }
    RepricedBase(k, t, p, k1, k2);
    RecomputeFrame(k2, t, 0);
    RepricedBase(k, t, p, k2, Recompute(k2, t, 0));
  }

  lemma RebasedIs(k: K, t: TaskId, p: nat)
    requires t in k.tasks
    ensures BaseTaken(k, t, p, Rebase(k, t, p)) && Rebase(k, t, p).resched == k.resched
  {
    RebaseFrame(k, t, p);
    hide Rebase;
  }

  lemma RepricedSame(k: K)
    ensures Repriced(k, k)
  {}

  /** Every answer of a priority change: the priority asked for is the task's base priority from
      now on, and a switch is asked for if the current task is then outranked. */
  lemma SetPriorityAnswers(k: K, t: TaskId, p: int)
    requires Inv(k)
    ensures var (r, code) := SetPriority(k, t, p);
            && (code == Ok <==> InRange(p) && t in k.tasks) && (code == Invalid <==> !(InRange(p) && t in k.tasks))
            && (code != Ok ==> r == k)
            && (code == Ok ==> BaseTaken(k, t, p, r) && (r.resched <==> k.resched || CurrentOutranked(r)))
  {
    if InRange(p) && t in k.tasks {
      SetPriorityStep(k, t, p);
      var r := SetPriority(k, t, p).0;
      ReadyOkOf(r);
      var a := Repriorised(k, t, p);
      assert SetPriority(k, t, p) == (RequestPreemption(a), Ok);
      hide Inv, ReadyOk, PrioritiesInRange, CurrentOutranked, Stepped, Repriorised, SetPriority, BaseTaken;
      RepriorisedIs(k, t, p);
      PreemptionOnlyFlags(a);
      SameReady(r, a);
      PreemptionIff(a);
      FlagIsNotRanked(a, r.resched);
      FlagBase(k, t, p, a, r.resched);
    } else {
      hide Inv, CurrentOutranked, BaseTaken;
    }
  }

  lemma FlagBase(k: K, t: TaskId, p: int, r: K, flag: bool)
    requires BaseTaken(k, t, p, r)
    ensures BaseTaken(k, t, p, r.(resched := flag))
  {
    assert forall u :: u in k.tasks && u != t ==> Untouched(k, r, u);
  }

  // ----- creation, yield, tick

  /** A new mutex is free. */
  lemma MutexCreateAnswers(k: K, m: MutexId)
    requires Inv(k)
    ensures var (r, code) := MutexCreate(k, m);
            && (code == Ok <==> !k.inIsr && m !in k.mutexes) && (code != Ok ==> r == k && code == Invalid)
            && (code == Ok ==> r == k.(mutexes := k.mutexes[m := Mutex(None, 0)]) && Q(r, MutexQ(m)) == [])
  {
    NobodyWaits(k, m, 0, 0);
    hide Inv;
  }

  /** A new semaphore has the units asked for. */
  lemma SemCreateAnswers(k: K, s: SemId, count: int)
    requires Inv(k)
    ensures var (r, code) := SemCreate(k, s, count);
            && (code == Ok <==> !k.inIsr && s !in k.sems && 0 <= count <= SEM_MAX_COUNT) && (code != Ok ==> r == k && code == Invalid)
            && (code == Ok ==> r == k.(sems := k.sems[s := count]) && Q(r, SemQ(s)) == [])
  {
    NobodyWaits(k, 0, s, 0);
    hide Inv;
  }

  /** A new task is ready, last in the queue of its priority, holds nothing and is on no list. */
  lemma TaskCreateAnswers(k: K, t: TaskId, p: int)
    requires Inv(k)
    ensures var (r, code) := TaskCreate(k, t, p);
            && (code == Ok <==> !k.inIsr && InRange(p) && t !in k.tasks && |k.tasks| < TASK_LIMIT)
            && (code != Ok ==> r == k && code == Invalid)
            && (code == Ok ==>
                  && t in r.tasks && r == k.(tasks := k.tasks[t := r.tasks[t]], ready := k.ready[p := k.ready[p] + [t]])
                  && r.tasks[t].base == r.tasks[t].prio == p && r.tasks[t].state == Ready
                  && r.tasks[t].held == [] && r.tasks[t].wait.None? && t !in r.timeouts && forall l :: t !in Q(r, l))
  {
    NobodyWaits(k, 0, 0, t);
    hide Inv, Q, Add;
    if TaskCreate(k, t, p).1 == Ok {
      SameWaiters(k, TaskCreate(k, t, p).0);
      AddIs(k.ready, p, t);
    }
  }

  lemma SameWaiters(k: K, r: K)
    requires r.waiters == k.waiters
    ensures forall l :: Q(r, l) == Q(k, l)
  {}

  lemma AddIs(q: Queues, p: int, t: TaskId)
    requires InRange(p)
    ensures Add(q, p, t) == q[p := q[p] + [t]]
  {}

  lemma NobodyWaits(k: K, m: MutexId, s: SemId, t: TaskId)
    requires Inv(k)
    ensures m !in k.mutexes ==> Q(k, MutexQ(m)) == []
    ensures s !in k.sems ==> Q(k, SemQ(s)) == []
    ensures t !in k.tasks ==> t !in k.timeouts && forall l :: t !in Q(k, l)
  {
    hide Acyclic, Fixed, ReadyOk, NoDup;
  }

  /** A yield asks for a switch and puts the caller behind the others of its priority, and only that. */
  lemma YieldAnswers(k: K)
    requires Inv(k)
    ensures var (r, code) := Yield(k);
            && code == (if k.inIsr then Context else Ok) && (code != Ok ==> r == k)
            && (code == Ok ==> r == k.(ready := r.ready, resched := true))
            && (code == Ok && k.cur.Some? && k.cur.value in k.tasks && Runnable(k.tasks[k.cur.value].state) ==>
                  var t := k.cur.value; var p := k.tasks[t].prio;
                  InRange(p) && t in k.ready[p] && r.ready == k.ready[p := Without(k.ready[p], t) + [t]])
            && (code == Ok && !(k.cur.Some? && k.cur.value in k.tasks && Runnable(k.tasks[k.cur.value].state)) ==> r.ready == k.ready)
  {
    ReadyOkOf(k);
    hide Inv, Rotate, NoDup, Without;
    if k.cur.Some? {
      RotateIs(k.ready, Prio(k.tasks, k.cur.value), k.cur.value);
      WhereQueued(k, k.cur.value);
    }
    hide ReadyOk, PrioritiesInRange;
  }

  lemma RotateIs(q: Queues, p: int, t: TaskId)
    ensures InRange(p) && t in q[p] ==> Rotate(q, p, t) == q[p := Without(q[p], t) + [t]]
    ensures !(InRange(p) && t in q[p]) ==> Rotate(q, p, t) == q
  {
    if InRange(p) && t in q[p] && |q[p]| <= 1 {
      assert q[p] == [t] && Without([t], t) + [t] == [t];
      assert q[p := [t]] == q;
    }
  }

  lemma WhereQueued(k: K, t: TaskId)
    requires ReadyOk(k) && PrioritiesInRange(k)
    ensures var p := Prio(k.tasks, t);
            InRange(p) && t in k.ready[p] <==> t in k.tasks && Runnable(k.tasks[t].state)
  {
    hide NoDup;
  }

  /** Tasks woken by the clock are tested against the current one: the last of them asks for a
      switch if the current task is then outranked. */
  lemma {:induction false} ExpireAsks(k: K)
    requires Inherits(k) && KernelInvariant.Rest(k, 0)
    ensures var r := Expire(k, k.timeouts);
            && (k.resched ==> r.resched)
            && (k.timeouts != [] && Remaining(k, k.timeouts[0]) == 0 && CurrentOutranked(r) ==> r.resched)
    decreases |k.timeouts|
  {
    if k.timeouts != [] {
      var t := k.timeouts[0];
      FirstOf(k);
      hide Sound, Acyclic, Fixed, KernelInvariant.Rest, Remaining, Wake, Freed, TickReached, CurrentOutranked, ReadyOk, PrioritiesInRange;
      if Remaining(k, t) == 0 {
        var result := if k.tasks[t].state == Delayed then Ok else Timeout;
        var w := Wake(k, t, result);
        WakeHead(k, t, result);
        SoundReady(w);
        WakeAnswers(k, t, result);
        ExpireAsks(w);
        if !(w.timeouts != [] && Remaining(w, w.timeouts[0]) == 0) {
          NotDue(w);
        }
      }
    }
  }

  lemma NotDue(k: K)
    requires Inherits(k) && KernelInvariant.Rest(k, 0) && !(k.timeouts != [] && Remaining(k, k.timeouts[0]) == 0)
    ensures Expire(k, k.timeouts) == k
  {
    if k.timeouts != [] {
      FirstOf(k);
    }
    hide Inherits, KernelInvariant.Rest, Remaining, TickReached;
  }

  lemma SoundReady(k: K)
    requires Inherits(k)
    ensures ReadyOk(k) && PrioritiesInRange(k)
  {
    hide ReadyOk, PrioritiesInRange, WaitersOk, WaitersSorted, OwnersOk, Acyclic, Fixed;
  }

  /** A tick touches no mutex, semaphore or environment, forgets no request, and asks for a switch
      if it woke somebody and the current task is then outranked. */
  lemma TickAnswers(k: K)
    requires Inv(k)
    ensures var r := Tick(k);
            && r.mutexes == k.mutexes && r.sems == k.sems && r.cur == k.cur && r.inIsr == k.inIsr && r.locked == k.locked
            && (k.resched ==> r.resched)
            && ((exists t :: t in k.timeouts && Remaining(k, t) == 1) && CurrentOutranked(r) ==> r.resched)
  {
    hide Inherits, Waits, Counts, Expire, CurrentOutranked, Remaining;
    var k1 := k.(now := k.now + 1);
    ExpireFrame(k1, k1.timeouts);
    LaterInherits(k);
    ExpireAsks(k1);
    LaterTimers(k);
    if t :| t in k.timeouts && Remaining(k, t) == 1 {
      FirstIsDue(k1, t);
    }
  }

  lemma FirstIsDue(k: K, t: TaskId)
    requires Timers(k, 0) && t in k.timeouts && Remaining(k, t) == 0
    ensures k.timeouts != [] && Remaining(k, k.timeouts[0]) == 0
  {
    hide Remaining;
    var i :| 0 <= i < |k.timeouts| && k.timeouts[i] == t;
    assert k.timeouts[0] in k.timeouts;
  }
}
