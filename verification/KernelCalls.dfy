/** Every kernel call keeps the invariant. */
module KernelCalls {
  import opened Lists
  import opened ReadyQueue
  import opened KernelState
  import opened Inheritance
  import opened WaitsFor
  import opened Transitions
  import opened HandOvers
  import opened Timeouts
  import opened KernelInvariant

  /** A call made from task context is made by the running task. */
  ghost predicate CallerRuns(k: K) {
    !k.inIsr ==> k.cur.Some? && k.cur.value in k.tasks && k.tasks[k.cur.value].state == Running
  }

  /** The caller does not already block, through a chain of owners, the owner of `m`. */
  ghost predicate NoDeadlock(k: K, m: MutexId) {
    k.cur.Some? && Owner(k, m).Some? && Owner(k, m) != k.cur ==> !Reaches(k, Owner(k, m).value, k.cur.value)
  }

  // ----- blocking

  lemma ParkedWaits(k: K, t: TaskId, l: Option<WaitList>, r: K)
    requires Parked'(k, t, l, r) && Waits(k) && k.tasks[t].state == Running
    ensures Waits(r) && t !in r.timeouts
  {
    forall u | u in r.tasks && r.tasks[u].wait.Some? ensures u in Q(r, r.tasks[u].wait.value) {}
  }

  lemma ParkedRest(k: K, t: TaskId, l: Option<WaitList>, r: K)
    requires Parked'(k, t, l, r) && Rest(k, 1) && k.tasks[t].state == Running
    requires l.Some? && l.value.SemQ? ==> l.value.sem in k.sems && k.sems[l.value.sem] == 0
    ensures Rest(r, 1) && SameClock(k, r) && t !in r.timeouts && t in r.tasks
    ensures r.tasks[t].state in {Blocked, Delayed}
  {
    assert Counts(r) by {
      hide Waits, Timers;
      forall s | Q(r, SemQ(s)) != [] ensures s in r.sems && r.sems[s] == 0 {
        assert Q(r, SemQ(s))[0] in Q(r, SemQ(s));
        if l != Some(SemQ(s)) {
          EmptyCarries(k, r, SemQ(s));
        }
      }
    }
    assert r.timeouts == k.timeouts && r.now == k.now;
    assert forall u :: WakeTick(r.tasks, u) == WakeTick(k.tasks, u);
    ParkedWaits(k, t, l, r);
    hide Parked', Waits, Timers, Counts, SameClock;
    TimersCarry(k, r, 1);
  }

  lemma ArmWaits(k: K, t: TaskId, ticks: nat, r: K)
    requires Waits(k) && t in k.tasks && k.tasks[t].state in {Blocked, Delayed}
    requires r == k.(tasks := k.tasks[t := k.tasks[t].(wakeTick := ticks)], timeouts := r.timeouts)
    requires forall u :: u in r.timeouts ==> u in k.timeouts || u == t
    ensures Waits(r)
  {
    assert forall l :: Q(r, l) == Q(k, l);
  }

  lemma ReadyOkCarries(k: K, r: K)
    requires ReadyOk(k) && r.ready == k.ready && r.tasks.Keys == k.tasks.Keys
    requires forall t :: t in k.tasks ==> r.tasks[t].prio == k.tasks[t].prio
                                          && Runnable(r.tasks[t].state) == Runnable(k.tasks[t].state)
    ensures ReadyOk(r)
  {
    hide NoDup;
  }

  lemma OneTaskShape(k: K, r: K, t: TaskId, tcb: Tcb)
    requires t in k.tasks && r.tasks == k.tasks[t := tcb] && r.mutexes == k.mutexes && r.waiters == k.waiters
    requires tcb.prio == k.tasks[t].prio && tcb.base == k.tasks[t].base && tcb.held == k.tasks[t].held
    requires tcb.wait == k.tasks[t].wait
    ensures SameShape(k, r)
  {}

  lemma ArmFields(k: K, t: TaskId, ticks: nat)
    requires t in k.tasks
    ensures var r := ArmTimeout(k, t, ticks);
            && r == k.(tasks := r.tasks, timeouts := r.timeouts)
            && r.tasks == k.tasks[t := k.tasks[t].(wakeTick := WakeTick(r.tasks, t))]
  {}

  lemma ArmShape(k: K, t: TaskId, ticks: nat)
    requires ReadyOk(k) && t in k.tasks
    ensures SameShape(k, ArmTimeout(k, t, ticks)) && ReadyOk(ArmTimeout(k, t, ticks))
    ensures var r := ArmTimeout(k, t, ticks);
            && r.now == k.now && r.waiters == k.waiters && r.mutexes == k.mutexes && r.sems == k.sems
            && (forall u :: u != t ==> WakeTick(r.tasks, u) == WakeTick(k.tasks, u))
  {
    hide ArmTimeout, ReadyOk, SameShape;
    var r := ArmTimeout(k, t, ticks);
    ArmFields(k, t, ticks);
    ReadyOkCarries(k, r);
    OneTaskShape(k, r, t, k.tasks[t].(wakeTick := WakeTick(r.tasks, t)));
  }

  lemma ArmStep(k: K, t: TaskId, ms: nat)
    requires Inherits(k) && Rest(k, 1) && ms <= UINT32_MAX && ms > 0
    requires t in k.tasks && t !in k.timeouts && k.tasks[t].state in {Blocked, Delayed}
    ensures var r := ArmTimeout(k, t, MsToTicks(ms));
            Inherits(r) && Rest(r, 1) && SameClock(k, r)
    ensures var r := ArmTimeout(k, t, MsToTicks(ms));
            ms != UINT32_MAX ==> t in r.timeouts && Remaining(r, t) == MsToTicks(ms)
  {
    var ticks := MsToTicks(ms);
    var r := ArmTimeout(k, t, ticks);
    MsToTicksExact(ms);
    if ticks != UINT32_MAX {
      assert ReadyOk(k);
      hide Sound, Acyclic, Fixed, ReadyOk, SameShape, Waits, Timers, Counts, Remaining, ArmTimeout, MsToTicks;
      ArmShape(k, t, ticks);
      ArmKeepsTimers(k, t, ticks);
      SameShapeKeeps(k, r, {});
      ArmFields(k, t, ticks);
      ArmWaits(k, t, WakeTick(r.tasks, t), r);
      CountsCarry(k, r);
    }
  }

  /** A blocking call keeps the invariant and, unless it waits for ever, puts the caller
      in the timeout list with exactly the requested ticks to go. */
  lemma BlockStep(k: K, l: Option<WaitList>, ms: nat)
    requires Inv(k) && CallerRuns(k) && 0 < ms <= UINT32_MAX
    requires l.Some? && l.value.MutexQ? ==> Owner(k, l.value.mutex).Some? && NoDeadlock(k, l.value.mutex)
                                            && Owner(k, l.value.mutex) != k.cur
    requires l.Some? && l.value.SemQ? ==> l.value.sem in k.sems && k.sems[l.value.sem] == 0
    ensures Stepped(k, Block(k, l, ms).0)
    ensures Block(k, l, ms).1 == Parked && ms != UINT32_MAX ==>
              k.cur.value in Block(k, l, ms).0.timeouts
              && Remaining(Block(k, l, ms).0, k.cur.value) == MsToTicks(ms)
  {
    if Block(k, l, ms).1 == Parked {
      var t := k.cur.value;
      var r1 := Park(k, t, l);
      var r2 := if l.Some? && l.value.MutexQ? then RecomputeOwner(r1, l.value.mutex) else r1;
      assert k.tasks[t].wait.None?;
      hide Sound, Acyclic, Fixed, Rest, SameClock, Parked', Park, RecomputeOwner, ArmTimeout, MsToTicks, Remaining;
      ParkKeeps(k, t, l);
      ParkedRest(k, t, l, r2);
      ArmStep(r2, t, ms);
      BlockFlag(k, r2, ArmTimeout(r2, t, MsToTicks(ms)), t);
    } else {
      hide Inherits, Rest;
    }
  }

  lemma BlockFlag(k: K, r2: K, r3: K, t: TaskId)
    requires SameClock(k, r2) && SameClock(r2, r3) && Inherits(r3) && Rest(r3, 1) && t !in k.timeouts
    requires forall u :: u in r2.timeouts <==> u in k.timeouts
    ensures Stepped(k, r3.(resched := true))
    ensures Remaining(r3.(resched := true), t) == Remaining(r3, t)
  {
    hide Remaining;
    FlagStep(r3, true);
  }

  lemma FlagShape(k: K, flag: bool)
    requires Counts(k) && ReadyOk(k)
    ensures var r := k.(resched := flag); Counts(r) && ReadyOk(r) && SameShape(k, r) && SameRest(k, r)
    ensures forall t :: Remaining(k.(resched := flag), t) == Remaining(k, t)
  {
    hide NoDup;
  }

  /** The deferred-switch flag is nobody else's business. */
  lemma FlagStep(k: K, flag: bool)
    requires Inv(k)
    ensures Stepped(k, k.(resched := flag))
    ensures forall t :: Remaining(k.(resched := flag), t) == Remaining(k, t)
  {
    hide Inherits, Waits, Timers, Counts, ReadyOk, SameShape, SameRest, SameClock, Remaining;
    ReadyOkOf(k);
    FlagShape(k, flag);
    PlainStep(k, k.(resched := flag));
  }

  lemma PreemptionStep(k: K)
    requires Inv(k)
    ensures Stepped(k, RequestPreemption(k))
    ensures forall t :: Remaining(RequestPreemption(k), t) == Remaining(k, t)
  {
    hide Inv, Stepped, Remaining, RequestPreemption;
    PreemptionOnlyFlags(k);
    FlagStep(k, RequestPreemption(k).resched);
  }

  // ----- mutexes

  /** The state after an unowned mutex is taken by `t`. */
  function Take(k: K, m: MutexId, t: TaskId): K
    requires t in k.tasks
  {
    k.(mutexes := k.mutexes[m := Mutex(Some(t), 1)],
       tasks := k.tasks[t := k.tasks[t].(held := k.tasks[t].held + [m])])
  }

  lemma TakeOwners(k: K, m: MutexId, t: TaskId)
    requires OwnersOk(k) && t in k.tasks && Owner(k, m).None?
    ensures OwnersOk(Take(k, m, t)) && Q(k, MutexQ(m)) == []
  {
    var r := Take(k, m, t);
    assert m !in k.tasks[t].held;
    assert r.tasks.Keys == k.tasks.Keys && r.waiters == k.waiters;
    forall u | u in k.tasks ensures r.tasks[u].held == if u == t then k.tasks[t].held + [m] else k.tasks[u].held {}
    forall n ensures Owner(r, n) == if n == m then Some(t) else Owner(k, n) {}
    assert NoDup(k.tasks[t].held + [m]);
    hide Take;
    forall u, n | u in r.tasks ensures n in r.tasks[u].held <==> Owner(r, n) == Some(u) {
      assert n in k.tasks[u].held <==> Owner(k, n) == Some(u);
    }
    forall u | u in r.tasks ensures NoDup(r.tasks[u].held) {
      assert NoDup(k.tasks[u].held);
    }
    forall n | Owner(r, n).Some? ensures Owner(r, n).value in r.tasks {
      assert n != m ==> Owner(k, n).Some?;
    }
    forall n | Q(r, MutexQ(n)) != [] ensures Owner(r, n).Some? && Owner(r, n).value !in Q(r, MutexQ(n)) {
      assert Q(r, MutexQ(n)) == Q(k, MutexQ(n));
    }
  }

  lemma TakeSound(k: K, m: MutexId, t: TaskId)
    requires Sound(k) && t in k.tasks && Owner(k, m).None?
    ensures Sound(Take(k, m, t))
  {
    var r := Take(k, m, t);
    assert OwnersOk(r) by {
      hide WaitersOk, WaitersSorted, ReadyOk, PrioritiesInRange, Take;
      TakeOwners(k, m, t);
    }
    hide OwnersOk;
    assert PrioritiesInRange(r) && r.tasks.Keys == k.tasks.Keys;
    assert WaitersOk(r) by {
      hide NoDup;
      assert forall l :: Q(r, l) == Q(k, l);
    }
    assert WaitersSorted(r) by {
      forall n ensures SortedByPriority(r.tasks, Q(r, MutexQ(n))) {
        StillSorted(k.tasks, r.tasks, Q(k, MutexQ(n)));
      }
    }
    hide WaitersOk, WaitersSorted, PrioritiesInRange;
    ReadyOkCarries(k, r);
  }

  lemma TakeFixed(k: K, m: MutexId, t: TaskId, u: TaskId)
    requires WaitersOk(k) && PrioritiesInRange(k) && t in k.tasks && u in k.tasks
    requires Q(k, MutexQ(m)) == [] && FixedAt(k, u)
    ensures FixedAt(Take(k, m, t), u)
  {
    var r := Take(k, m, t);
    forall n ensures Top(r, n) == Top(k, n) {
      if Q(k, MutexQ(n)) != [] {
        assert Q(k, MutexQ(n))[0] in Q(k, MutexQ(n));
      }
    }
    assert Top(k, m) == -1 && InRange(k.tasks[u].base);
    hide WaitersOk, PrioritiesInRange, Top;
    MaxTopSame(k, r, k.tasks[u].held, r.tasks[u].held, k.tasks[u].base);
  }

  lemma TakeNext(k: K, m: MutexId, t: TaskId, u: TaskId)
    requires t in k.tasks && Q(k, MutexQ(m)) == [] && (WaitsOnMutex(k, u) ==> Linked(k, u))
    ensures Next(Take(k, m, t), u) == Next(k, u)
  {}

  lemma TakeAcyclic(k: K, m: MutexId, t: TaskId)
    requires Acyclic(k) && Waits(k) && t in k.tasks && Q(k, MutexQ(m)) == []
    ensures Acyclic(Take(k, m, t))
  {
    var r := Take(k, m, t);
    forall u ensures Next(r, u) == Next(k, u) {
      TakeNext(k, m, t, u);
    }
    hide Waits, Next;
    var rank :| Ranked(k, rank);
    RankedCarries(k, r, rank);
  }

  lemma TakeFixedAll(k: K, m: MutexId, t: TaskId)
    requires WaitersOk(k) && PrioritiesInRange(k) && Fixed(k, {}) && t in k.tasks && Q(k, MutexQ(m)) == []
    ensures Fixed(Take(k, m, t), {})
  {
    hide WaitersOk, PrioritiesInRange, FixedAt;
    forall u | u in k.tasks ensures FixedAt(Take(k, m, t), u) {
      TakeFixed(k, m, t, u);
    }
  }

  lemma TakeRest(k: K, m: MutexId, t: TaskId)
    requires Counts(k) && t in k.tasks
    ensures SameRest(k, Take(k, m, t)) && Counts(Take(k, m, t))
  {
    var r := Take(k, m, t);
    assert r.tasks.Keys == k.tasks.Keys && r.waiters == k.waiters && r.sems == k.sems;
    assert forall l :: Q(r, l) == Q(k, l);
    assert SameRest(k, r) by {
      hide Counts;
      assert forall u :: u in k.tasks && u != t ==> r.tasks[u] == k.tasks[u];
    }
    hide SameRest, Q;
    assert forall n :: n in k.mutexes && n != m ==> r.mutexes[n] == k.mutexes[n];
    assert r.mutexes[m] == Mutex(Some(t), 1);
  }

  lemma TakeStep(k: K, m: MutexId, t: TaskId)
    requires Inv(k) && t in k.tasks && m in k.mutexes && k.mutexes[m].owner.None?
    ensures Stepped(k, Take(k, m, t))
  {
    hide OwnersOk, WaitersOk, WaitersSorted, ReadyOk, PrioritiesInRange, Acyclic, Fixed;
    hide Waits, Counts, Timers, SameRest, SameClock, Take;
    TakeOwners(k, m, t);
    TakeSound(k, m, t);
    TakeFixedAll(k, m, t);
    TakeAcyclic(k, m, t);
    TakeRest(k, m, t);
    SameRestKeeps(k, Take(k, m, t), 1);
  }

  lemma LockCountShape(k: K, m: MutexId, count: nat)
    requires Counts(k) && m in k.mutexes && k.mutexes[m].owner.Some? && 0 < count <= UINT32_MAX
    ensures var r := k.(mutexes := k.mutexes[m := k.mutexes[m].(lockCount := count)]);
            Counts(r) && SameShape(k, r) && SameRest(k, r)
  {
    var r := k.(mutexes := k.mutexes[m := k.mutexes[m].(lockCount := count)]);
    assert forall l :: Q(r, l) == Q(k, l);
  }

  lemma LockCountStep(k: K, m: MutexId, count: nat)
    requires Inv(k) && m in k.mutexes && k.mutexes[m].owner.Some? && 0 < count <= UINT32_MAX
    ensures Stepped(k, k.(mutexes := k.mutexes[m := k.mutexes[m].(lockCount := count)]))
  {
    var r := k.(mutexes := k.mutexes[m := k.mutexes[m].(lockCount := count)]);
    ReadyOkOf(k);
    hide Inherits, Waits, Timers, Counts, ReadyOk, SameShape, SameRest, SameClock;
    LockCountShape(k, m, count);
    ReadyOkCarries(k, r);
    PlainStep(k, r);
  }

  lemma LockStep(k: K, m: MutexId, ms: nat)
    requires Inv(k) && CallerRuns(k) && ms <= UINT32_MAX && NoDeadlock(k, m)
    ensures Stepped(k, MutexLock(k, m, ms).0)
    ensures MutexLock(k, m, ms).1 == Parked && ms != UINT32_MAX ==>
              k.cur.value in MutexLock(k, m, ms).0.timeouts
              && Remaining(MutexLock(k, m, ms).0, k.cur.value) == MsToTicks(ms)
  {
    hide Inherits, Rest, SameClock, NoDeadlock, Block, Remaining, MsToTicks;
    if Caller(k).Some? && m in k.mutexes {
      var self := k.cur.value;
      if k.mutexes[m].owner.None? {
        TakeStep(k, m, self);
        assert MutexLock(k, m, ms) == (Take(k, m, self), Ok);
      } else if k.mutexes[m].owner == Some(self) {
        if k.mutexes[m].lockCount != UINT32_MAX {
          LockCountBound(k, m);
          LockCountStep(k, m, k.mutexes[m].lockCount + 1);
        }
      } else if ms > 0 {
        BlockStep(k, Some(MutexQ(m)), ms);
      }
    }
    SameClockReflexive(k);
  }

  lemma SameClockReflexive(k: K)
    ensures SameClock(k, k)
  {}

  lemma LockCountBound(k: K, m: MutexId)
    requires Inv(k) && m in k.mutexes
    ensures k.mutexes[m].lockCount <= UINT32_MAX
  {}

  lemma HandOverFields(k: K, m: MutexId, self: TaskId)
    requires m in k.mutexes && self in k.tasks
    ensures var r := HandOver(k, m, self);
            && r == k.(tasks := r.tasks, mutexes := k.mutexes[m := r.mutexes[m]])
            && (r.mutexes[m].owner.None? <==> r.mutexes[m].lockCount == 0) && r.mutexes[m].lockCount <= 1
  {
    hide Without, Q;
  }

  lemma OneMutexCounts(k: K, r: K, m: MutexId, mutex: Mutex)
    requires Counts(k) && r.mutexes == k.mutexes[m := mutex] && r.sems == k.sems && r.waiters == k.waiters
    requires (mutex.owner.None? <==> mutex.lockCount == 0) && mutex.lockCount <= UINT32_MAX
    ensures Counts(r)
  {
    assert forall l :: Q(r, l) == Q(k, l);
  }

  lemma HandOverRest(k: K, m: MutexId, self: TaskId)
    requires Rest(k, 1) && m in k.mutexes && self in k.tasks
    ensures Rest(HandOver(k, m, self), 1) && SameClock(k, HandOver(k, m, self))
    ensures HandOver(k, m, self).timeouts == k.timeouts && HandOver(k, m, self).tasks.Keys == k.tasks.Keys
  {
    hide HandOver, Waits, Timers, SameClock, Counts, SameRest;
    var r := HandOver(k, m, self);
    HandOverFields(k, m, self);
    HandOverWaits(k, m, self);
    HeldOnlyRest(k, r);
    SameRestKeeps(k, r, 1);
    OneMutexCounts(k, r, m, r.mutexes[m]);
  }

  lemma HeldOnlyRest(k: K, r: K)
    requires r == k.(tasks := r.tasks, mutexes := r.mutexes) && r.tasks.Keys == k.tasks.Keys
    requires forall t :: t in k.tasks ==> r.tasks[t] == k.tasks[t].(held := r.tasks[t].held)
    ensures SameRest(k, r)
  {
    assert forall l :: Q(r, l) == Q(k, l);
  }

  /** The last pass of unlock, over the releasing task. */
  lemma ReleaserSettles(k: K, self: TaskId)
    requires Sound(k) && Acyclic(k) && Fixed(k, {self}) && Rest(k, 1) && self in k.tasks
    ensures Stepped(k, Recompute(k, self, 0))
    ensures Recompute(k, self, 0).timeouts == k.timeouts
  {
    hide Sound, Rest, SameClock, Recompute, Fixed, Ranked;
    var rank :| Ranked(k, rank);
    assert {} + {self} == {self};
    RecomputeKeepsAll(k, self, rank, {});
    OnlyPrioritiesRest(k, Recompute(k, self, 0), 1);
  }

  lemma ReleaseToWaiter(k: K, m: MutexId, self: TaskId)
    requires Inv(k) && Releases(k, m, self) && Q(k, MutexQ(m)) != []
    ensures Stepped(k, Recompute(Wake(HandOver(k, m, self), Q(k, MutexQ(m))[0], Ok), self, 0))
  {
    var next := Q(k, MutexQ(m))[0];
    var k1 := HandOver(k, m, self);
    FirstWaiterBlocked(k, m, self);
    hide Sound, Acyclic, Fixed, Rest, SameClock, HandOver, Wake, Recompute, Freed, Remaining;
    HandOverRest(k, m, self);
    var k2 := Wake(k1, next, Ok);
    HandOverWakes(k, m, self);
    FreedRest(k1, next, Ok, Ready, k2, 1);
    FreedKeys(k1, next, Ok, Ready, k2);
    ReleaserSettles(k2, self);
    ClockChain(k, k1, k2);
    ClockChain(k, k2, Recompute(k2, self, 0));
  }

  lemma FirstWaiterBlocked(k: K, m: MutexId, self: TaskId)
    requires Waits(k) && Releases(k, m, self) && Q(k, MutexQ(m)) != []
    ensures Q(k, MutexQ(m))[0] in k.tasks && k.tasks[Q(k, MutexQ(m))[0]].state == Blocked
  {
    hide Sound;
    FirstWaiter(k, m, self);
  }

  lemma ReleaseToNobody(k: K, m: MutexId, self: TaskId)
    requires Inv(k) && Releases(k, m, self) && Q(k, MutexQ(m)) == []
    ensures Stepped(k, Recompute(HandOver(k, m, self), self, 0))
  {
    hide Sound, Acyclic, Fixed, Rest, SameClock, HandOver, Recompute;
    var k1 := HandOver(k, m, self);
    HandOverRest(k, m, self);
    GivenSound(k, m, self);
    GivenAcyclic(k, m, self);
    GivenFixed(k, m, self);
    assert {self} + {} == {self};
    ReleaserSettles(k1, self);
    ClockChain(k, k1, Recompute(k1, self, 0));
  }

  lemma FreedKeys(k: K, t: TaskId, result: Code, s: TaskState, r: K)
    requires Freed(k, t, result, s, r)
    ensures r.tasks.Keys == k.tasks.Keys
  {}

  lemma ClockChain(k: K, r: K, s: K)
    requires SameClock(k, r) && SameClock(r, s)
    requires forall t :: t in s.timeouts ==> t in r.timeouts
    ensures SameClock(k, s)
  {}

  lemma UnlockStep(k: K, m: MutexId)
    requires Inv(k) && CallerRuns(k)
    ensures Stepped(k, MutexUnlock(k, m).0)
  {
    SameClockReflexive(k);
    if Caller(k).Some? && m in k.mutexes && k.mutexes[m].owner == k.cur {
      LockCountBound(k, m);
      ReleasesOwn(k, m);
      hide Inv, Stepped, Releases, HandOver, Wake, Recompute;
      if k.mutexes[m].lockCount > 1 {
        LockCountStep(k, m, k.mutexes[m].lockCount - 1);
      } else if Q(k, MutexQ(m)) != [] {
        ReleaseToWaiter(k, m, k.cur.value);
      } else {
        ReleaseToNobody(k, m, k.cur.value);
      }
    } else {
      hide Inherits, Rest, SameClock;
    }
  }

  lemma ReleasesOwn(k: K, m: MutexId)
    requires Inv(k) && CallerRuns(k) && Caller(k).Some? && m in k.mutexes && k.mutexes[m].owner == k.cur
    ensures Releases(k, m, k.cur.value)
  {
    hide Sound, Acyclic, Fixed, Timers, Counts;
  }
}
