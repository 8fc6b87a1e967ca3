/** Runs of the kernel: any sequence of calls, ticks and context switches. */
module KernelRun {
  import opened ReadyQueue
  import opened KernelState
  import opened Inheritance
  import opened WaitsFor
  import opened Transitions
  import opened Timeouts
  import opened KernelInvariant
  import opened KernelCalls
  import opened TaskCalls

  datatype Op =
    | OpMutexCreate(m: MutexId)
    | OpMutexLock(m: MutexId, ms: nat)
    | OpMutexUnlock(m: MutexId)
    | OpMutexDelete(m: MutexId)
    | OpSemCreate(s: SemId, count: int)
    | OpSemWait(s: SemId, ms: nat)
    | OpSemPost(s: SemId)
    | OpTaskCreate(t: TaskId, p: int)
    | OpTaskDelete(t: TaskId)
    | OpTaskSuspend(t: TaskId)
    | OpTaskResume(t: TaskId)
    | OpSetPriority(t: TaskId, p: int)
    | OpYield
    | OpSleep(ms: nat)
    | OpTick
    | OpSchedule
    | OpEnvironment(inIsr: bool, locked: bool)

  function Apply(k: K, op: Op): (K, Code) {
    match op
    case OpMutexCreate(m) => MutexCreate(k, m)
    case OpMutexLock(m, ms) => MutexLock(k, m, ms)
    case OpMutexUnlock(m) => MutexUnlock(k, m)
    case OpMutexDelete(m) => MutexDelete(k, m)
    case OpSemCreate(s, count) => SemCreate(k, s, count)
    case OpSemWait(s, ms) => SemWait(k, s, ms)
    case OpSemPost(s) => SemPost(k, s)
    case OpTaskCreate(t, p) => TaskCreate(k, t, p)
    case OpTaskDelete(t) => TaskDelete(k, t)
    case OpTaskSuspend(t) => TaskSuspend(k, t)
    case OpTaskResume(t) => TaskResume(k, t)
    case OpSetPriority(t, p) => SetPriority(k, t, p)
    case OpYield => Yield(k)
    case OpSleep(ms) => Sleep(k, ms)
    case OpTick => (Tick(k), Ok)
    case OpSchedule => (Schedule(k), Ok)
    case OpEnvironment(inIsr, locked) => (k.(inIsr := inIsr, locked := locked), Ok)
  }

  /** What the kernel asks of its callers: a blocking call comes from the running task
      with a 32-bit timeout, and does not close a cycle of waiting owners. */
  ghost predicate Allowed(k: K, op: Op) {
    match op
    case OpMutexLock(m, ms) => CallerRuns(k) && ms <= UINT32_MAX && NoDeadlock(k, m)
    case OpMutexUnlock(m) => CallerRuns(k)
    case OpSemWait(s, ms) => CallerRuns(k) && ms <= UINT32_MAX
    case OpSleep(ms) => CallerRuns(k) && ms <= UINT32_MAX
    case _ => true
  }

  function Run(k: K, ops: seq<Op>): K
    decreases |ops|
  {
    if ops == [] then k else Run(Apply(k, ops[0]).0, ops[1..])
  }

  ghost predicate AllAllowed(k: K, ops: seq<Op>)
    decreases |ops|
  {
    ops == [] || (Allowed(k, ops[0]) && AllAllowed(Apply(k, ops[0]).0, ops[1..]))
  }

  const START: K := K(map[], map[], map[], map[], EMPTY, [], 0, None, false, false, false)

  lemma StartInv()
    ensures Inv(START)
  {
    assert forall p :: 0 <= p < MAX_PRIORITY ==> START.ready[p] == [];
    assert Ranked(START, map[]);
    assert forall l :: Q(START, l) == [];
  }

  lemma SteppedParts(k: K, r: K)
    requires Stepped(k, r)
    ensures Inv(r) && SameClock(k, r)
  {}

  /** Every call, tick and context switch keeps the invariant; only the tick moves time. */
  lemma ApplyKeeps(k: K, op: Op)
    requires Inv(k) && Allowed(k, op)
    ensures Inv(Apply(k, op).0)
    ensures !op.OpTick? ==> SameClock(k, Apply(k, op).0)
    ensures op.OpTick? ==> Ticked(k, Apply(k, op).0)
  {
    hide Inv, Stepped, SameClock, Ticked, CallerRuns, NoDeadlock, Remaining, MsToTicks, Rescheduled;
    hide MutexCreate, MutexLock, MutexUnlock, MutexDelete, SemCreate, SemWait, SemPost, TaskCreate, TaskDelete;
    hide TaskSuspend, TaskResume, SetPriority, Yield, Sleep, Tick, Schedule;
    match op
    case OpMutexCreate(m) => MutexCreateStep(k, m); SteppedParts(k, MutexCreate(k, m).0);
    case OpMutexLock(m, ms) => LockStep(k, m, ms); SteppedParts(k, MutexLock(k, m, ms).0);
    case OpMutexUnlock(m) => UnlockStep(k, m); SteppedParts(k, MutexUnlock(k, m).0);
    case OpMutexDelete(m) => MutexDeleteStep(k, m); SteppedParts(k, MutexDelete(k, m).0);
    case OpSemCreate(s, count) => SemCreateStep(k, s, count); SteppedParts(k, SemCreate(k, s, count).0);
    case OpSemWait(s, ms) => SemWaitStep(k, s, ms); SteppedParts(k, SemWait(k, s, ms).0);
    case OpSemPost(s) => SemPostStep(k, s); SteppedParts(k, SemPost(k, s).0);
    case OpTaskCreate(t, p) => CreateStep(k, t, p); SteppedParts(k, TaskCreate(k, t, p).0);
    case OpTaskDelete(t) => DeleteStep(k, t); SteppedParts(k, TaskDelete(k, t).0);
    case OpTaskSuspend(t) => SuspendStep(k, t); SteppedParts(k, TaskSuspend(k, t).0);
    case OpTaskResume(t) => ResumeStep(k, t); SteppedParts(k, TaskResume(k, t).0);
    case OpSetPriority(t, p) => SetPriorityStep(k, t, p); SteppedParts(k, SetPriority(k, t, p).0);
    case OpYield => YieldStep(k); SteppedParts(k, Yield(k).0);
    case OpSleep(ms) => SleepStep(k, ms); SteppedParts(k, Sleep(k, ms).0);
    case OpTick => TickExact(k);
    case OpSchedule => ScheduleStep(k); SteppedParts(k, Schedule(k));
    case OpEnvironment(inIsr, locked) =>
      EnvironmentStep(k, inIsr, locked);
      SteppedParts(k, k.(inIsr := inIsr, locked := locked));
  }

  lemma {:induction false} RunKeeps(k: K, ops: seq<Op>)
    requires Inv(k) && AllAllowed(k, ops)
    ensures Inv(Run(k, ops))
    decreases |ops|
  {
    hide Inv, Apply, Allowed;
    if ops != [] {
      ApplyKeeps(k, ops[0]);
      RunKeeps(Apply(k, ops[0]).0, ops[1..]);
    }
  }

  // ----- what the invariant says in every reachable state

  lemma InvGraph(k: K)
    requires Inv(k)
    ensures Sound(k) && Fixed(k, {}) && Acyclic(k) && MutexWaitersLinked(k)
  {}

  /** In every reachable state each task runs at the maximum of the base priorities of
      itself and of all tasks blocked on it through any chain of mutexes. */
  lemma ReachablePriorities(ops: seq<Op>, t: TaskId)
    requires AllAllowed(START, ops) && t in Run(START, ops).tasks
    ensures var k := Run(START, ops);
            && (forall u :: u in k.tasks && Reaches(k, u, t) ==> k.tasks[u].base <= k.tasks[t].prio)
            && (exists u :: u in k.tasks && Reaches(k, u, t) && k.tasks[u].base == k.tasks[t].prio)
  {
    hide Inv, Sound, Fixed, Acyclic, MutexWaitersLinked, Reaches, Run, AllAllowed;
    StartInv();
    RunKeeps(START, ops);
    InvGraph(Run(START, ops));
    PriorityIsTransitiveMaximum(Run(START, ops), t);
  }

  lemma InvLists(k: K)
    requires Inv(k)
    ensures forall m :: SortedByPriority(k.tasks, Q(k, MutexQ(m)))
    ensures forall t, p :: 0 <= p < MAX_PRIORITY ==>
              (t in k.ready[p] <==> t in k.tasks && Runnable(k.tasks[t].state) && k.tasks[t].prio == p)
    ensures forall t, l :: t in Q(k, l) <==> t in k.tasks && k.tasks[t].state == Blocked && k.tasks[t].wait == Some(l)
    ensures forall t :: t in k.timeouts ==> t in k.tasks && k.tasks[t].state in {Blocked, Delayed}
    ensures Lists.NoDup(k.timeouts) && (forall l :: Lists.NoDup(Q(k, l)))
    ensures forall p :: 0 <= p < MAX_PRIORITY ==> Lists.NoDup(k.ready[p])
  {
    hide Acyclic, Fixed, Counts, OwnersOk, Remaining, Lists.NoDup;
  }

  /** In every reachable state list membership says exactly what the task states say, no
      list holds a task twice, and mutex wait lists are sorted by current priority. */
  lemma ReachableLists(ops: seq<Op>)
    requires AllAllowed(START, ops)
    ensures var k := Run(START, ops);
            && (forall m :: SortedByPriority(k.tasks, Q(k, MutexQ(m))))
            && (forall t, p :: 0 <= p < MAX_PRIORITY ==>
                  (t in k.ready[p] <==> t in k.tasks && Runnable(k.tasks[t].state) && k.tasks[t].prio == p))
            && (forall t, l :: t in Q(k, l) <==> t in k.tasks && k.tasks[t].state == Blocked && k.tasks[t].wait == Some(l))
            && (forall t :: t in k.timeouts ==> t in k.tasks && k.tasks[t].state in {Blocked, Delayed})
            && Lists.NoDup(k.timeouts) && (forall l :: Lists.NoDup(Q(k, l)))
            && (forall p :: 0 <= p < MAX_PRIORITY ==> Lists.NoDup(k.ready[p]))
  {
    hide Inv, Run, AllAllowed, SortedByPriority, Q, Lists.NoDup;
    StartInv();
    RunKeeps(START, ops);
    InvLists(Run(START, ops));
  }

  // ----- timeouts over runs

  function Ticks(ops: seq<Op>): nat {
    if ops == [] then 0 else (if ops[0].OpTick? then 1 else 0) + Ticks(ops[1..])
  }

  /** `t` stays in the timeout list all through the run. */
  predicate Waiting(k: K, ops: seq<Op>, t: TaskId)
    decreases |ops|
  {
    t in k.timeouts && (ops == [] || Waiting(Apply(k, ops[0]).0, ops[1..], t))
  }

  lemma SameClockRemaining(k: K, r: K, t: TaskId)
    requires SameClock(k, r) && t in k.timeouts && t in r.timeouts
    ensures Remaining(r, t) == Remaining(k, t)
  {}

  lemma TickedRemaining(k: K, r: K, t: TaskId)
    requires Inv(k) && Ticked(k, r) && t in k.timeouts && t in r.timeouts
    ensures Remaining(k, t) >= 2 && Remaining(r, t) == Remaining(k, t) - 1
  {
    hide Inherits, Remaining;
  }

  /** A task that stays in the timeout list has had its time run down by exactly the
      ticks that passed, so it cannot be there any more once its ticks have passed. */
  lemma {:induction false} TimeRunsDown(k: K, ops: seq<Op>, t: TaskId)
    requires Inv(k) && AllAllowed(k, ops) && Waiting(k, ops, t)
    ensures Ticks(ops) < Remaining(k, t)
    ensures Remaining(Run(k, ops), t) == Remaining(k, t) - Ticks(ops)
    decreases |ops|
  {
    RemainingPositive(k, t);
    hide Inv, Apply, Allowed, Remaining, SameClock, Ticked;
    if ops != [] {
      var r := Apply(k, ops[0]).0;
      ApplyKeeps(k, ops[0]);
      TimeRunsDown(r, ops[1..], t);
      assert t in r.timeouts;
      if ops[0].OpTick? {
        TickedRemaining(k, r, t);
      } else {
        SameClockRemaining(k, r, t);
      }
    }
  }

  lemma RemainingPositive(k: K, t: TaskId)
    requires Inv(k) && t in k.timeouts
    ensures Remaining(k, t) >= 1
  {
    hide Inherits, Remaining;
  }

  /** Exact timeouts: a task that blocked for `ticks` ticks and has not been woken while
      `ticks - 1` of them passed is woken by the next one, whatever else happens between. */
  lemma WokenOnTheTick(k: K, ops: seq<Op>, t: TaskId, ticks: nat)
    requires Inv(k) && AllAllowed(k, ops) && Waiting(k, ops, t)
    requires Remaining(k, t) == ticks && Ticks(ops) == ticks - 1
    ensures var before := Run(k, ops); var after := Tick(before);
            && t !in after.timeouts && t in after.tasks && after.tasks[t].state == Ready
            && t in before.tasks
            && after.tasks[t].result == if before.tasks[t].state == Delayed then Ok else Timeout
  {
    TimeRunsDown(k, ops, t);
    RunKeeps(k, ops);
    hide AllAllowed, Remaining, Run, Tick, Waiting;
    var before := Run(k, ops);
    assert t in before.timeouts by {
      StillWaiting(k, ops, t);
    }
    assert t in before.tasks by { hide Inherits; }
    hide Inv;
    TickExact(before);
  }

  /** The calls that block for a time. */
  predicate Timed(op: Op) {
    match op
    case OpMutexLock(_, ms) => ms < UINT32_MAX
    case OpSemWait(_, ms) => ms < UINT32_MAX
    case OpSleep(ms) => ms < UINT32_MAX
    case _ => false
  }

  /** From the call to the wake-up: a lock, semaphore wait or sleep that blocks with a time
      limit has exactly that many ticks to go, is never timed out while fewer have passed,
      and is woken in the very tick that completes them, unless something woke it before. */
  lemma TimedCallsExact(k: K, op: Op, ops: seq<Op>)
    requires Inv(k) && Allowed(k, op) && Timed(op) && Apply(k, op).1 == Parked && k.cur.Some?
    requires AllAllowed(Apply(k, op).0, ops) && Waiting(Apply(k, op).0, ops, k.cur.value)
    ensures Ticks(ops) < MsToTicks(op.ms)
    ensures Ticks(ops) == MsToTicks(op.ms) - 1 ==>
              var t := k.cur.value; var before := Run(Apply(k, op).0, ops); var after := Tick(before);
              && t !in after.timeouts && t in after.tasks && after.tasks[t].state == Ready
              && t in before.tasks
              && after.tasks[t].result == if before.tasks[t].state == Delayed then Ok else Timeout
  {
    hide Inv, Stepped, MutexLock, SemWait, Sleep, Remaining, MsToTicks, CallerRuns, NoDeadlock, Run, Tick, AllAllowed, Waiting;
    var r := Apply(k, op).0;
    ApplyKeeps(k, op);
    match op {
      case OpMutexLock(m, ms) => LockStep(k, m, ms);
      case OpSemWait(s, ms) => SemWaitStep(k, s, ms);
      case OpSleep(ms) => SleepStep(k, ms);
    }
    TimeRunsDown(r, ops, k.cur.value);
    if Ticks(ops) == MsToTicks(op.ms) - 1 {
      WokenOnTheTick(r, ops, k.cur.value, MsToTicks(op.ms));
    }
  }

  lemma {:induction false} StillWaiting(k: K, ops: seq<Op>, t: TaskId)
    requires Waiting(k, ops, t)
    ensures t in Run(k, ops).timeouts
    decreases |ops|
  {
    if ops != [] {
      StillWaiting(Apply(k, ops[0]).0, ops[1..], t);
    }
  }

  // ----- deadlock

  lemma {:induction false} RecomputeKeepsGraph(k: K, t: TaskId, depth: nat)
    ensures Recompute(k, t, depth).tasks.Keys == k.tasks.Keys
    ensures forall u :: Next(Recompute(k, t, depth), u) == Next(k, u)
    decreases TASK_LIMIT - depth
  {
    if t in k.tasks && depth < TASK_LIMIT {
      var k1 := Reprioritise(k, t, Effective(k, t));
      ReprioritiseKeepsGraph(k, t, Effective(k, t));
      hide Next;
      match Next(k1, t)
      case None =>
      case Some(owner) => RecomputeKeepsGraph(k1, owner, depth + 1);
    }
  }

  lemma ReprioritiseKeepsGraph(k: K, t: TaskId, p: int)
    requires t in k.tasks
    ensures Reprioritise(k, t, p).tasks.Keys == k.tasks.Keys
    ensures forall u :: Next(Reprioritise(k, t, p), u) == Next(k, u)
  {
    hide Requeue, InsertByPriority, Lists.Without;
  }

  lemma GraphAcyclic(k: K, r: K)
    requires r.tasks.Keys == k.tasks.Keys && forall u :: Next(r, u) == Next(k, u)
    ensures Acyclic(r) <==> Acyclic(k)
  {
    hide Next;
    if rank :| Ranked(k, rank) {
      assert Ranked(r, rank);
    }
    if rank :| Ranked(r, rank) {
      assert Ranked(k, rank);
    }
  }

  lemma BlockedCaller(k: K, m: MutexId, ms: nat)
    requires Inv(k) && CallerRuns(k) && MutexLock(k, m, ms).1 == Parked
    ensures k.cur.Some? && k.cur.value in k.tasks && k.tasks[k.cur.value].wait.None? && Acyclic(k)
    ensures Owner(k, m).Some? && Owner(k, m) != k.cur && Owner(k, m).value in k.tasks
    ensures MutexLock(k, m, ms) == Block(k, Some(MutexQ(m)), ms) && !k.inIsr && !k.locked
  {
    OwnerOf(k, m);
    hide Sound, Fixed, Acyclic, Timers, Counts;
  }

  lemma OwnerOf(k: K, m: MutexId)
    requires Inv(k) && Owner(k, m).Some?
    ensures Owner(k, m).value in k.tasks
  {
    OwnerExists(k, m);
  }

  lemma ParkIsOneEdge(k: K, t: TaskId, m: MutexId)
    requires t in k.tasks && k.tasks[t].wait.None?
    requires Owner(k, m).Some? && Owner(k, m) != Some(t) && Owner(k, m).value in k.tasks
    ensures OneMoreEdge(k, Park(k, t, Some(MutexQ(m))), t, Owner(k, m).value)
    ensures Owner(Park(k, t, Some(MutexQ(m))), m) == Owner(k, m)
  {
    ParkNext(k, t, Some(MutexQ(m)));
    hide InsertByPriority, Remove, Next;
  }

  /** The code does not detect deadlock: a lock that blocks leaves a cycle of waiting
      owners exactly when the owner chain of the mutex leads back to the caller. */
  lemma LockDeadlocksIff(k: K, m: MutexId, ms: nat)
    requires Inv(k) && CallerRuns(k) && MutexLock(k, m, ms).1 == Parked
    ensures Acyclic(MutexLock(k, m, ms).0) <==> !Reaches(k, Owner(k, m).value, k.cur.value)
  {
    hide Inv, CallerRuns, Park, Next, OneMoreEdge, MutexLock, Acyclic, Recompute, ArmTimeout, MsToTicks, Reaches;
    BlockedCaller(k, m, ms);
    var self := k.cur.value;
    var r1 := Park(k, self, Some(MutexQ(m)));
    ParkIsOneEdge(k, self, m);
    BlockingIsSafeIff(k, r1, self, Owner(k, m).value);
    var r2 := RecomputeOwner(r1, m);
    RecomputeKeepsGraph(r1, Owner(k, m).value, 0);
    GraphAcyclic(r1, r2);
    var r3 := ArmTimeout(r2, self, MsToTicks(ms));
    ArmKeepsGraph(r2, self, MsToTicks(ms));
    GraphAcyclic(r2, r3);
    FlagKeepsGraph(r3);
    GraphAcyclic(r3, r3.(resched := true));
  }

  lemma ArmKeepsGraph(k: K, t: TaskId, ticks: nat)
    ensures ArmTimeout(k, t, ticks).tasks.Keys == k.tasks.Keys
    ensures forall u :: Next(ArmTimeout(k, t, ticks), u) == Next(k, u)
  {
    hide TimeoutPosition, Lists.InsertAt;
  }

  lemma FlagKeepsGraph(k: K)
    ensures forall u :: Next(k.(resched := true), u) == Next(k, u)
  {}
}
