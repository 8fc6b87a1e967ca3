/** The invariant of the running kernel and what every building block does to the part
    of it that is not about priorities: states, timeouts and counts. */
module KernelInvariant {
  import opened Lists
  import opened ReadyQueue
  import opened KernelState
  import opened Inheritance
  import opened Transitions
  import opened Timeouts

  /** List membership follows from the task state. */
  ghost predicate Waits(k: K) {
    && (forall t :: t in k.tasks ==> (k.tasks[t].wait.Some? <==> k.tasks[t].state == Blocked))
    && (forall t :: t in k.tasks && k.tasks[t].wait.Some? ==> t in Q(k, k.tasks[t].wait.value))
    && (forall t :: t in k.timeouts ==> t in k.tasks && k.tasks[t].state in {Blocked, Delayed})
    && (forall t :: t in k.tasks && k.tasks[t].state == Running ==> k.cur == Some(t))
  }

  /** A mutex has an owner iff it is counted; a semaphore with waiters has no units left. */
  ghost predicate Counts(k: K) {
    && (forall m :: m in k.mutexes ==>
          (k.mutexes[m].owner.None? <==> k.mutexes[m].lockCount == 0) && k.mutexes[m].lockCount <= UINT32_MAX)
    && (forall s :: Q(k, SemQ(s)) != [] ==> s in k.sems && k.sems[s] == 0)
    && (forall s :: s in k.sems ==> k.sems[s] <= SEM_MAX_COUNT)
  }

  ghost predicate Rest(k: K, least: nat) {
    Waits(k) && Timers(k, least) && Counts(k)
  }

  ghost predicate Inherits(k: K) {
    Sound(k) && Acyclic(k) && Fixed(k, {})
  }

  ghost predicate Inv(k: K) {
    Inherits(k) && Rest(k, 1)
  }

  /** Time stood still and nobody's wake tick changed while it stayed in the list. */
  ghost predicate SameClock(k: K, r: K) {
    && r.now == k.now
    && forall t :: t in k.timeouts && t in r.timeouts ==> WakeTick(r.tasks, t) == WakeTick(k.tasks, t)
  }

  ghost predicate Stepped(k: K, r: K) {
    Inv(r) && SameClock(k, r)
  }

  // ----- building blocks

  /** Fields nothing but priority inheritance looks at may differ. */
  ghost predicate SameRest(k: K, r: K) {
    && r.tasks.Keys == k.tasks.Keys
    && (forall t :: t in k.tasks ==>
          && r.tasks[t].state == k.tasks[t].state && r.tasks[t].wait == k.tasks[t].wait
          && r.tasks[t].wakeTick == k.tasks[t].wakeTick)
    && (forall l, t :: t in Q(r, l) <==> t in Q(k, l))
    && r.timeouts == k.timeouts && r.now == k.now && r.cur == k.cur && r.sems == k.sems
  }

  lemma TimersCarry(k: K, r: K, least: nat)
    requires Timers(k, least) && r.timeouts == k.timeouts && r.now == k.now
    requires forall t :: t in k.timeouts ==> WakeTick(r.tasks, t) == WakeTick(k.tasks, t)
    ensures Timers(r, least) && SameClock(k, r)
  {
    assert forall t :: t in k.timeouts ==> Remaining(r, t) == Remaining(k, t);
    hide Remaining;
    SoonestFirstCarries(k, r, k.timeouts);
  }

  lemma EmptyCarries(k: K, r: K, l: WaitList)
    requires forall t :: t in Q(r, l) ==> t in Q(k, l)
    requires Q(r, l) != []
    ensures Q(k, l) != []
  {
    assert Q(r, l)[0] in Q(k, l);
  }

  lemma SameRestWaits(k: K, r: K)
    requires SameRest(k, r) && Waits(k)
    ensures Waits(r)
  {}

  lemma SameRestKeeps(k: K, r: K, least: nat)
    requires SameRest(k, r) && Waits(k) && Timers(k, least)
    ensures Waits(r) && Timers(r, least) && SameClock(k, r)
  {
    hide Timers, SameClock, Waits;
    SameRestWaits(k, r);
    assert forall t :: WakeTick(r.tasks, t) == WakeTick(k.tasks, t);
    TimersCarry(k, r, least);
  }

  lemma CountsCarry(k: K, r: K)
    requires Counts(k) && r.mutexes == k.mutexes && r.sems == k.sems
    requires forall l, t :: t in Q(r, l) ==> t in Q(k, l)
    ensures Counts(r)
  {
    forall s | Q(r, SemQ(s)) != [] ensures Q(k, SemQ(s)) != [] {
      EmptyCarries(k, r, SemQ(s));
    }
  }

  lemma OnlyPrioritiesRest(k: K, r: K, least: nat)
    requires OnlyPriorities(k, r) && Rest(k, least)
    ensures Rest(r, least) && SameClock(k, r)
  {
    assert SameRest(k, r) && r.mutexes == k.mutexes;
    assert forall l, t :: t in Q(r, l) ==> t in Q(k, l);
    hide OnlyPriorities, Waits, Timers, SameClock;
    SameRestKeeps(k, r, least);
    CountsCarry(k, r);
  }

  lemma FreedWaits(k: K, t: TaskId, result: Code, s: TaskState, r: K)
    requires Freed(k, t, result, s, r) && s in {Ready, Suspended} && Waits(k) && NoDup(k.timeouts)
    ensures Waits(r)
  {
    WithoutIsDeletion(k.timeouts, t);
    assert t !in r.timeouts;
    forall u | u in r.tasks && r.tasks[u].wait.Some? ensures u in Q(r, r.tasks[u].wait.value) {
      assert u in Q(k, k.tasks[u].wait.value);
    }
  }

  lemma FreedTimers(k: K, t: TaskId, result: Code, s: TaskState, r: K, least: nat)
    requires Freed(k, t, result, s, r) && Timers(k, least)
    ensures Timers(r, least) && SameClock(k, r)
    ensures forall u :: u in r.timeouts <==> u in k.timeouts && u != t
    ensures forall u :: u in r.timeouts ==> Remaining(r, u) == Remaining(k, u)
  {
    assert forall u :: WakeTick(r.tasks, u) == WakeTick(k.tasks, u);
    hide Timers, Remaining;
    WithoutKeepsTimers(k, r, t, least);
  }

  lemma FreedRest(k: K, t: TaskId, result: Code, s: TaskState, r: K, least: nat)
    requires Freed(k, t, result, s, r) && s in {Ready, Suspended} && Rest(k, least)
    ensures Rest(r, least) && SameClock(k, r)
    ensures forall u :: u in r.timeouts <==> u in k.timeouts && u != t
    ensures forall u :: u in r.timeouts ==> Remaining(r, u) == Remaining(k, u)
  {
    assert NoDup(k.timeouts);
    assert r.mutexes == k.mutexes && r.sems == k.sems;
    assert forall l, u :: u in Q(r, l) ==> u in Q(k, l);
    hide Freed, Waits, Timers, Remaining, SameClock;
    FreedWaits(k, t, result, s, r);
    FreedTimers(k, t, result, s, r, least);
    CountsCarry(k, r);
  }

  /** Waking keeps the whole invariant. */
  lemma WakeStep(k: K, t: TaskId, result: Code, least: nat)
    requires Inherits(k) && Rest(k, least) && t in k.tasks && k.tasks[t].state in {Blocked, Delayed}
    ensures var r := Wake(k, t, result);
            Inherits(r) && Rest(r, least) && Freed(k, t, result, Ready, r) && SameClock(k, r)
  {
    hide Sound, Acyclic, Fixed, Freed, Rest, SameClock, Wake, Remaining;
    WakeKeeps(k, t, result, {});
    FreedRest(k, t, result, Ready, Wake(k, t, result), least);
  }

  // ----- changes of no consequence for inheritance

  lemma PlainStep(k: K, r: K)
    requires Inv(k) && SameShape(k, r) && ReadyOk(r) && SameRest(k, r) && Counts(r)
    ensures Stepped(k, r)
  {
    hide SameShape, ReadyOk, SameRest, Counts, Sound, Acyclic, Fixed, Waits, Timers, SameClock;
    SameShapeKeeps(k, r, {});
    SameRestKeeps(k, r, 1);
  }

  lemma ReadyOkOf(k: K)
    requires Inv(k)
    ensures ReadyOk(k) && PrioritiesInRange(k) && NoDup(k.timeouts)
  {}
}
