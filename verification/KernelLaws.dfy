/** What is conserved over whole runs: a mutex counts the locks its owner has still to undo, and
    the units of a semaphore are neither lost nor made up. */
module KernelLaws {
  import opened ReadyQueue
  import opened KernelState
  import opened Inheritance
  import opened WaitsFor
  import opened Timeouts
  import opened KernelInvariant
  import opened KernelCalls
  import opened TaskCalls
  import opened Outcomes
  import opened Answers
  import opened KernelRun

  predicate OnMutexes(op: Op) { op.OpMutexCreate? || op.OpMutexLock? || op.OpMutexUnlock? || op.OpMutexDelete? }

  predicate OnSems(op: Op) { op.OpSemCreate? || op.OpSemWait? || op.OpSemPost? }

  // ----- mutexes and semaphores are each other's and nobody else's business

  lemma MutexOpsSems(k: K, op: Op)
    requires Inv(k) && Allowed(k, op) && OnMutexes(op)
    ensures Apply(k, op).0.sems == k.sems
  {
    hide Inv, CallerRuns, NoDeadlock, WaitsNow, HandedOn, GaveUp, Acquired, MutexLock, MutexUnlock, MutexDelete, MutexCreate;
    match op
    case OpMutexCreate(m) => MutexCreateAnswers(k, m);
    case OpMutexLock(m, ms) =>
      LockAnswers(k, m, ms);
      LockSems(k, m, MutexLock(k, m, ms).0);
    case OpMutexUnlock(m) =>
      UnlockAnswers(k, m);
      HandedSems(k, m, MutexUnlock(k, m).0);
    case OpMutexDelete(m) => MutexDeleteAnswers(k, m);
  }

  lemma LockSems(k: K, m: MutexId, r: K)
    ensures Caller(k).Some? && WaitsNow(k, Caller(k).value, Some(MutexQ(m)), r) ==> r.sems == k.sems && r.mutexes == k.mutexes
    ensures Caller(k).Some? && Acquired(k, m, Caller(k).value, r) ==> r.sems == k.sems
  {}

  lemma HandedSems(k: K, m: MutexId, r: K)
    ensures forall t, w :: HandedOn(k, m, t, w, r) ==> r.sems == k.sems
  {
    hide Lists.Without, Q;
  }

  lemma SemOpsMutexes(k: K, op: Op)
    requires Inv(k) && Allowed(k, op) && OnSems(op)
    ensures Apply(k, op).0.mutexes == k.mutexes
  {
    hide Inv, CallerRuns, WaitsNow, SemCreate, SemWait, SemPost, LeftWaiting, CurrentOutranked;
    match op
    case OpSemCreate(s, count) => SemCreateAnswers(k, s, count);
    case OpSemWait(s, ms) =>
      SemWaitAnswers(k, s, ms);
      WaitingSame(k, k.cur, Some(SemQ(s)), SemWait(k, s, ms).0);
    case OpSemPost(s) =>
      if s in k.sems {
        PostGoesToFirst(k, s);
        if Q(k, SemQ(s)) != [] {
          PostAsks(k, s);
        }
      } else {
        UnknownPost(k, s);
      }
  }

  lemma UnknownPost(k: K, s: SemId)
    requires s !in k.sems
    ensures SemPost(k, s) == (k, Invalid)
  {}

  lemma WaitingSame(k: K, t: Option<TaskId>, l: Option<WaitList>, r: K)
    ensures t.Some? && WaitsNow(k, t.value, l, r) ==> SameObjects(k, r)
  {}

  /** Calls on tasks, ticks and switches leave mutexes and semaphores alone. */
  lemma OtherOpsObjects(k: K, op: Op)
    requires Inv(k) && Allowed(k, op) && !OnMutexes(op) && !OnSems(op)
    ensures Apply(k, op).0.mutexes == k.mutexes && Apply(k, op).0.sems == k.sems
  {
    hide Inv, CallerRuns, WaitsNow, StoppedNow, BaseTaken, Rescheduled, Stepped, CurrentOutranked;
    hide TaskCreate, TaskDelete, TaskSuspend, TaskResume, SetPriority, Yield, Sleep, Tick, Schedule;
    match op
    case OpTaskCreate(t, p) => TaskCreateAnswers(k, t, p);
    case OpTaskDelete(t) => DeleteAnswers(k, t);
    case OpTaskSuspend(t) =>
      SuspendAnswers(k, t);
      StoppedObjects(k, t, TaskSuspend(k, t).0);
    case OpTaskResume(t) => ResumeAnswers(k, t);
    case OpSetPriority(t, p) =>
      SetPriorityAnswers(k, t, p);
      BaseObjects(k, t, p, SetPriority(k, t, p).0);
    case OpYield => YieldAnswers(k);
    case OpSleep(ms) =>
      if ms == 0 {
        SleepAnswers(k, ms);
        YieldAnswers(k);
      } else {
        SleepAnswers(k, ms);
        WaitingSame(k, k.cur, None, Sleep(k, ms).0);
      }
    case OpTick => TickAnswers(k);
    case OpSchedule =>
      ScheduleStep(k);
      RescheduledObjects(k, Schedule(k));
    case OpEnvironment(inIsr, locked) =>
  }

  lemma StoppedObjects(k: K, t: TaskId, r: K)
    ensures StoppedNow(k, t, r) ==> SameObjects(k, r)
  {}

  lemma BaseObjects(k: K, t: TaskId, p: int, r: K)
    ensures BaseTaken(k, t, p, r) ==> SameObjects(k, r)
  {}

  lemma RescheduledObjects(k: K, r: K)
    requires Rescheduled(k, r)
    ensures r.mutexes == k.mutexes && r.sems == k.sems
  {}

  // ----- a mutex counts the locks to be undone

  function Count(k: K, m: MutexId): nat { if m in k.mutexes then k.mutexes[m].lockCount else 0 }

  /** The locks the owner of `m` has to undo after a step, if there were `n` before it: one when
      somebody has just got it, one more for a lock, one less for an unlock. */
  function ToUndo(k: K, op: Op, m: MutexId, n: nat): nat {
    var (r, code) := Apply(k, op);
    if Owner(r, m).None? then 0
    else if Owner(r, m) != Owner(k, m) then 1
    else if op.OpMutexLock? && op.m == m && code == Ok then n + 1
    else if op.OpMutexUnlock? && op.m == m && code == Ok && n > 0 then n - 1
    else n
  }

  function ToUndoAfter(k: K, ops: seq<Op>, m: MutexId, n: nat): nat
    decreases |ops|
  {
    if ops == [] then n else ToUndoAfter(Apply(k, ops[0]).0, ops[1..], m, ToUndo(k, ops[0], m, n))
  }

  lemma CountedIffOwned(k: K, m: MutexId)
    requires Inv(k)
    ensures Count(k, m) == 0 <==> Owner(k, m).None?
  {
    hide Inherits, Waits;
  }

  lemma LockCounts(k: K, m: MutexId, x: MutexId, ms: nat)
    requires Inv(k) && CallerRuns(k) && NoDeadlock(k, x)
    ensures var (r, code) := MutexLock(k, x, ms);
            Owner(r, m).Some? ==>
              Count(r, m) == if Owner(r, m) != Owner(k, m) then 1
                             else if x == m && code == Ok then Count(k, m) + 1 else Count(k, m)
  {
    hide Inv, CallerRuns, NoDeadlock, WaitsNow, Acquired, MutexLock;
    LockAnswers(k, x, ms);
    LockSems(k, x, MutexLock(k, x, ms).0);
    hide Caller;
  }

  lemma UnlockCounts(k: K, m: MutexId, x: MutexId)
    requires Inv(k) && CallerRuns(k)
    ensures var (r, code) := MutexUnlock(k, x);
            Owner(r, m).Some? ==>
              Count(r, m) == if Owner(r, m) != Owner(k, m) then 1
                             else if x == m && code == Ok then Count(k, m) - 1 else Count(k, m)
  {
    hide Inv, CallerRuns, HandedOn, GaveUp, MutexUnlock, Q;
    UnlockAnswers(k, x);
    if Caller(k).Some? && Q(k, MutexQ(x)) != [] {
      HandedMutexes(k, x, Caller(k).value, Q(k, MutexQ(x))[0], MutexUnlock(k, x).0);
    }
    hide Caller;
  }

  lemma HandedMutexes(k: K, m: MutexId, t: TaskId, w: TaskId, r: K)
    ensures HandedOn(k, m, t, w, r) ==> r.mutexes == k.mutexes[m := Mutex(Some(w), 1)] && w != t
  {
    hide Lists.Without, Q;
  }

  lemma SameCounts(k: K, r: K, m: MutexId, x: MutexId)
    requires forall y :: y in r.mutexes && y != x ==> y in k.mutexes && r.mutexes[y] == k.mutexes[y]
    requires x in r.mutexes ==> r.mutexes[x].owner.None?
    ensures Owner(r, m).Some? ==> Owner(r, m) == Owner(k, m) && Count(r, m) == Count(k, m)
  {}

  lemma SameOwners(k: K, r: K, m: MutexId)
    requires r.mutexes == k.mutexes
    ensures Owner(r, m) == Owner(k, m) && Count(r, m) == Count(k, m)
  {}

  /** A mutex that is owned after a step: by somebody new and counted once, or by its owner of
      before, and counted as that one locked or unlocked it. */
  lemma OwnedCounts(k: K, op: Op, m: MutexId)
    requires Inv(k) && Allowed(k, op)
    ensures var (r, code) := Apply(k, op);
            Owner(r, m).Some? ==>
              Count(r, m) == if Owner(r, m) != Owner(k, m) then 1
                             else if op.OpMutexLock? && op.m == m && code == Ok then Count(k, m) + 1
                             else if op.OpMutexUnlock? && op.m == m && code == Ok then Count(k, m) - 1
                             else Count(k, m)
  {
    hide Inv, MutexLock, MutexUnlock, MutexDelete, MutexCreate, CallerRuns, NoDeadlock, Count, Q;
    if op.OpMutexLock? {
      LockCounts(k, m, op.m, op.ms);
    } else if op.OpMutexUnlock? {
      UnlockCounts(k, m, op.m);
    } else if op.OpMutexCreate? {
      MutexCreateAnswers(k, op.m);
      if Apply(k, op).1 == Ok {
        SameCounts(k, Apply(k, op).0, m, op.m);
      }
    } else if op.OpMutexDelete? {
      MutexDeleteAnswers(k, op.m);
      if Apply(k, op).1 == Ok {
        SameCounts(k, Apply(k, op).0, m, op.m);
      }
    } else {
      if OnSems(op) {
        SemOpsMutexes(k, op);
      } else {
        OtherOpsObjects(k, op);
      }
      SameOwners(k, Apply(k, op).0, m);
      hide Apply;
    }
  }

  /** Every allowed step keeps the count of a mutex at the locks to be undone. */
  lemma CountStep(k: K, op: Op, m: MutexId)
    requires Inv(k) && Allowed(k, op)
    ensures Count(Apply(k, op).0, m) == ToUndo(k, op, m, Count(k, m))
  {
    hide Inv, SameClock, Ticked, Apply, Allowed, Count;
    ApplyKeeps(k, op);
    CountedIffOwned(k, m);
    CountedIffOwned(Apply(k, op).0, m);
    OwnedCounts(k, op, m);
  }

  /** Over every allowed run a mutex counts the locks its owner has made, less those it has
      undone, since it got the mutex, be it by a lock or by hand-over. */
  lemma {:induction false} CountIsLocksToUndo(k: K, ops: seq<Op>, m: MutexId)
    requires Inv(k) && AllAllowed(k, ops)
    ensures Count(Run(k, ops), m) == ToUndoAfter(k, ops, m, Count(k, m))
    decreases |ops|
  {
    if ops != [] {
      ApplyKeeps(k, ops[0]);
      CountStep(k, ops[0], m);
      hide Inv, Apply, Allowed, SameClock, Ticked, Count, ToUndo;
      CountIsLocksToUndo(Apply(k, ops[0]).0, ops[1..], m);
    }
  }

  lemma ReachableCounts(ops: seq<Op>, m: MutexId)
    requires AllAllowed(START, ops)
    ensures Count(Run(START, ops), m) == ToUndoAfter(START, ops, m, 0)
  {
    hide Inv, Run, AllAllowed;
    StartInv();
    CountIsLocksToUndo(START, ops, m);
  }

  // ----- as many unlocks as locks

  function Repeated(op: Op, n: nat): seq<Op> { seq(n, _ => op) }

  /** The caller is a task that runs; `m` is there and counted `n` times as its own. */
  ghost predicate Holding(k: K, self: TaskId, m: MutexId, n: nat) {
    && Inv(k) && CallerRuns(k) && !k.inIsr && k.cur == Some(self) && Q(k, MutexQ(m)) == []
    && m in k.mutexes && k.mutexes[m] == (if n == 0 then Mutex(None, 0) else Mutex(Some(self), n))
  }

  lemma LockOnce(k: K, self: TaskId, m: MutexId, ms: nat, n: nat)
    requires Holding(k, self, m, n) && n < UINT32_MAX && ms <= UINT32_MAX
    ensures Allowed(k, OpMutexLock(m, ms)) && Holding(MutexLock(k, m, ms).0, self, m, n + 1)
  {
    hide Inv, MutexLock, Acquired, WaitsNow, Reaches;
    ApplyKeeps(k, OpMutexLock(m, ms));
    LockAnswers(k, m, ms);
    var r := MutexLock(k, m, ms).0;
    if n > 0 {
      hide CallerRuns;
      CountedAs(k, r, self, m, n + 1);
    } else {
      GotBy(k, r, self, m);
    }
  }

  lemma GotBy(k: K, r: K, self: TaskId, m: MutexId)
    requires Inv(r) && CallerRuns(k) && !k.inIsr && k.cur == Some(self) && Q(k, MutexQ(m)) == []
    requires r.mutexes == k.mutexes[m := Mutex(Some(self), 1)] && Acquired(k, m, self, r)
    ensures Holding(r, self, m, 1)
  {
    hide Inv;
  }

  lemma UnlockOnce(k: K, self: TaskId, m: MutexId, n: nat)
    requires Holding(k, self, m, n) && n > 0
    ensures Allowed(k, OpMutexUnlock(m)) && Holding(MutexUnlock(k, m).0, self, m, n - 1)
  {
    hide Inv, MutexUnlock, GaveUp, HandedOn;
    ApplyKeeps(k, OpMutexUnlock(m));
    UnlockAnswers(k, m);
    var r := MutexUnlock(k, m).0;
    if n > 1 {
      hide CallerRuns;
      CountedAs(k, r, self, m, n - 1);
    } else {
      FreedBy(k, r, self, m);
    }
  }

  lemma CountedAs(k: K, r: K, self: TaskId, m: MutexId, n: nat)
    requires Inv(r) && CallerRuns(k) && !k.inIsr && k.cur == Some(self) && Q(k, MutexQ(m)) == [] && n > 0
    requires r == k.(mutexes := k.mutexes[m := Mutex(Some(self), n)])
    ensures Holding(r, self, m, n)
  {
    hide Inv;
  }

  lemma FreedBy(k: K, r: K, self: TaskId, m: MutexId)
    requires Inv(k) && Inv(r) && CallerRuns(k) && !k.inIsr && k.cur == Some(self) && Q(k, MutexQ(m)) == []
    requires r == k.(mutexes := k.mutexes[m := Mutex(None, 0)], tasks := r.tasks, ready := r.ready, waiters := r.waiters)
    requires GaveUp(k, m, self, r)
    ensures Holding(r, self, m, 0)
  {
    hide Inv, Lists.Without;
    forall t | t in k.tasks ensures r.tasks[t].wait == k.tasks[t].wait && r.tasks[t].state == k.tasks[t].state {
      assert t != self ==> Untouched(k, r, t);
    }
    NobodyJoins(k, m, r);
  }

  lemma WaitedBefore(k: K, l: WaitList, r: K, t: TaskId)
    requires Inv(k) && Inv(r) && r.tasks.Keys == k.tasks.Keys && t in Q(r, l)
    requires forall u :: u in k.tasks ==> r.tasks[u].wait == k.tasks[u].wait && r.tasks[u].state == k.tasks[u].state
    ensures t in Q(k, l)
  {
    hide Inv, Q;
    InvLists(k);
    InvLists(r);
    assert t in r.tasks && r.tasks[t].state == Blocked && r.tasks[t].wait == Some(l);
  }

  /** Nobody waits for a mutex all of a sudden. */
  lemma NobodyJoins(k: K, m: MutexId, r: K)
    requires Inv(k) && Inv(r) && Q(k, MutexQ(m)) == [] && r.tasks.Keys == k.tasks.Keys
    requires forall t :: t in k.tasks ==> r.tasks[t].wait == k.tasks[t].wait && r.tasks[t].state == k.tasks[t].state
    ensures Q(r, MutexQ(m)) == []
  {
    hide Inv;
    forall t | t in Q(r, MutexQ(m)) ensures t in Q(k, MutexQ(m)) {
      WaitedBefore(k, MutexQ(m), r, t);
    }
    if Q(r, MutexQ(m)) != [] {
      EmptyCarries(k, r, MutexQ(m));
    }
  }

  lemma RepeatedRun(k: K, op: Op, n: nat)
    requires Allowed(k, op) && AllAllowed(Apply(k, op).0, Repeated(op, n))
    ensures AllAllowed(k, Repeated(op, n + 1)) && Run(k, Repeated(op, n + 1)) == Run(Apply(k, op).0, Repeated(op, n))
  {
    assert Repeated(op, n + 1)[0] == op && Repeated(op, n + 1)[1..] == Repeated(op, n);
    hide Allowed, Apply;
  }

  lemma RepeatedNone(k: K, op: Op)
    ensures AllAllowed(k, Repeated(op, 0)) && Run(k, Repeated(op, 0)) == k
  {
    assert Repeated(op, 0) == [];
  }

  lemma {:induction false} LocksInARow(k: K, self: TaskId, m: MutexId, ms: nat, n: nat, more: nat)
    requires Holding(k, self, m, n) && n + more <= UINT32_MAX && ms <= UINT32_MAX
    ensures var ops := Repeated(OpMutexLock(m, ms), more); AllAllowed(k, ops) && Holding(Run(k, ops), self, m, n + more)
    decreases more
  {
    hide Holding, MutexLock, Allowed, AllAllowed, Run, Repeated;
    RepeatedNone(k, OpMutexLock(m, ms));
    if more > 0 {
      LockOnce(k, self, m, ms, n);
      LocksInARow(MutexLock(k, m, ms).0, self, m, ms, n + 1, more - 1);
      RepeatedRun(k, OpMutexLock(m, ms), more - 1);
    }
  }

  lemma {:induction false} UnlocksInARow(k: K, self: TaskId, m: MutexId, n: nat, j: nat)
    requires Holding(k, self, m, n) && j <= n
    ensures var ops := Repeated(OpMutexUnlock(m), j); AllAllowed(k, ops) && Holding(Run(k, ops), self, m, n - j)
    decreases j
  {
    hide Holding, MutexUnlock, Allowed, AllAllowed, Run, Repeated;
    RepeatedNone(k, OpMutexUnlock(m));
    if j > 0 {
      UnlockOnce(k, self, m, n);
      UnlocksInARow(MutexUnlock(k, m).0, self, m, n - 1, j - 1);
      RepeatedRun(k, OpMutexUnlock(m), j - 1);
    }
  }

  lemma {:induction false} RunsJoin(k: K, a: seq<Op>, b: seq<Op>)
    requires AllAllowed(k, a) && AllAllowed(Run(k, a), b)
    ensures AllAllowed(k, a + b) && Run(k, a + b) == Run(Run(k, a), b)
    decreases |a|
  {
    if a == [] {
      assert a + b == b;
    } else {
      assert (a + b)[0] == a[0] && (a + b)[1..] == a[1..] + b;
      hide Apply, Allowed;
      RunsJoin(Apply(k, a[0]).0, a[1..], b);
    }
  }

  /** Locked `n` times, a mutex nobody else asks for stays its owner's through the first `n - 1`
      unlocks and is free after the `n`-th. */
  lemma AsManyUnlocksAsLocks(k: K, self: TaskId, m: MutexId, ms: nat, n: nat, j: nat)
    requires Inv(k) && CallerRuns(k) && !k.inIsr && k.cur == Some(self) && m in k.mutexes && k.mutexes[m].owner.None?
    requires j <= n <= UINT32_MAX && ms <= UINT32_MAX
    ensures var ops := Repeated(OpMutexLock(m, ms), n) + Repeated(OpMutexUnlock(m), j); var r := Run(k, ops);
            AllAllowed(k, ops) && Owner(r, m) == (if j < n then Some(self) else None) && Count(r, m) == n - j
  {
    FreeUnwaited(k, m);
    hide Run, AllAllowed, Inv, Repeated;
    LocksInARow(k, self, m, ms, 0, n);
    var a := Run(k, Repeated(OpMutexLock(m, ms), n));
    UnlocksInARow(a, self, m, n, j);
    RunsJoin(k, Repeated(OpMutexLock(m, ms), n), Repeated(OpMutexUnlock(m), j));
  }

  lemma FreeUnwaited(k: K, m: MutexId)
    requires Inv(k) && m in k.mutexes && k.mutexes[m].owner.None?
    ensures Q(k, MutexQ(m)) == [] && k.mutexes[m] == Mutex(None, 0)
  {
    hide Acyclic, Fixed, Waits, ReadyOk, WaitersOk, WaitersSorted;
    assert Owner(k, m).None?;
  }

  // ----- units of a semaphore

  /** The tasks that left the wait list of `s` with a unit. */
  ghost function Served(k: K, r: K, s: SemId): set<TaskId> {
    set t | t in k.tasks && t in r.tasks && t in Q(k, SemQ(s)) && t !in Q(r, SemQ(s)) && r.tasks[t].result == Ok
  }

  predicate PostsUnit(k: K, op: Op, s: SemId) { op == OpSemPost(s) && Apply(k, op).1 == Ok }

  predicate TakesUnit(k: K, op: Op, s: SemId) { op.OpSemWait? && op.s == s && Apply(k, op).1 == Ok }

  /** A task that stays where it is, or gives up without a unit. */
  predicate Unserved(k: K, r: K, t: TaskId) {
    t in k.tasks && t in r.tasks && k.tasks[t].state == Blocked && r.tasks[t].result == Ok ==>
      r.tasks[t].state == Blocked && r.tasks[t].wait == k.tasks[t].wait
  }

  lemma NobodyServed(k: K, r: K, s: SemId)
    requires Inv(k) && Inv(r) && forall t :: Unserved(k, r, t)
    ensures Served(k, r, s) == {}
  {
    hide Inv;
    InvLists(k);
    InvLists(r);
    forall t ensures t !in Served(k, r, s) {
      assert Unserved(k, r, t);
    }
  }

  lemma RunningIs(k: K)
    requires CallerRuns(k) && Caller(k).Some?
    ensures Caller(k).value in k.tasks && k.tasks[Caller(k).value].state == Running && Caller(k) == k.cur
  {}

  lemma WaitingUnserved(k: K, t: TaskId, l: Option<WaitList>, r: K)
    requires WaitsNow(k, t, l, r) && k.tasks[t].state == Running
    ensures forall u :: Unserved(k, r, u)
  {
    forall u ensures Unserved(k, r, u) {
      assert u in k.tasks && u != t ==> Untouched(k, r, u);
    }
  }

  lemma HandedUnserved(k: K, m: MutexId, t: TaskId, w: TaskId, r: K, u: TaskId)
    requires HandedOn(k, m, t, w, r) && k.tasks[t].state == Running && u != w
    ensures Unserved(k, r, u)
  {
    if u in k.tasks && u != t {
      assert Untouched(k, r, u);
    }
    hide Lists.Without, Q;
  }

  lemma GivenUpUnserved(k: K, m: MutexId, t: TaskId, r: K)
    requires GaveUp(k, m, t, r)
    ensures forall u :: Unserved(k, r, u)
  {
    forall u ensures Unserved(k, r, u) {
      assert u in k.tasks && u != t ==> Untouched(k, r, u);
    }
    hide Lists.Without;
  }

  lemma StoppedUnserved(k: K, t: TaskId, r: K)
    requires StoppedNow(k, t, r)
    ensures forall u :: Unserved(k, r, u)
  {
    forall u ensures Unserved(k, r, u) {
      assert u in k.tasks && u != t ==> Untouched(k, r, u);
    }
  }

  lemma BasedUnserved(k: K, t: TaskId, p: int, r: K)
    requires BaseTaken(k, t, p, r)
    ensures forall u :: Unserved(k, r, u)
  {
    forall u ensures Unserved(k, r, u) {
      assert u in k.tasks && u != t ==> Untouched(k, r, u);
    }
  }

  lemma TickedUnserved(k: K, r: K)
    requires Inv(k) && Ticked(k, r)
    ensures forall u :: Unserved(k, r, u)
  {
    hide Inherits, Remaining;
    forall u ensures Unserved(k, r, u) {
      assert u in k.timeouts ==> Remaining(k, u) >= 1;
    }
  }

  lemma RescheduledUnserved(k: K, r: K)
    requires Rescheduled(k, r)
    ensures forall u :: Unserved(k, r, u)
  {}

  lemma SameTasksUnserved(k: K, r: K)
    requires forall t :: t in k.tasks && t in r.tasks && k.tasks[t].state == Blocked ==>
               r.tasks[t] == k.tasks[t].(held := r.tasks[t].held, prio := r.tasks[t].prio)
    ensures forall u :: Unserved(k, r, u)
  {}

  /** A hand-over of a mutex serves nobody that waits for a semaphore. */
  lemma HandOverServesNobody(k: K, m: MutexId, t: TaskId, w: TaskId, r: K, s: SemId)
    requires Inv(k) && Inv(r) && HandedOn(k, m, t, w, r) && t in k.tasks && k.tasks[t].state == Running
    requires w in Q(k, MutexQ(m))
    ensures Served(k, r, s) == {}
  {
    hide Inv, HandedOn, Q;
    InvLists(k);
    InvLists(r);
    forall u ensures u !in Served(k, r, s) {
      if u != w {
        HandedUnserved(k, m, t, w, r, u);
      }
    }
  }

  /** No mutex operation serves anybody. */
  lemma MutexOpsServe(k: K, op: Op, s: SemId)
    requires Inv(k) && Allowed(k, op) && OnMutexes(op)
    ensures Served(k, Apply(k, op).0, s) == {}
  {
    ApplyKeeps(k, op);
    hide Inv, MutexLock, MutexUnlock, MutexDelete, MutexCreate, CallerRuns, NoDeadlock;
    hide Served, Unserved, SameClock, Ticked, Q;
    match op
    case OpMutexCreate(m) => CreateServes(k, m, s);
    case OpMutexLock(m, ms) => LockServesNobody(k, m, ms, s);
    case OpMutexUnlock(m) => UnlockServes(k, m, s);
    case OpMutexDelete(m) => MutexDeleteServes(k, m, s);
  }

  lemma LockServesNobody(k: K, m: MutexId, ms: nat, s: SemId)
    requires Inv(k) && Inv(MutexLock(k, m, ms).0) && CallerRuns(k) && NoDeadlock(k, m)
    ensures Served(k, MutexLock(k, m, ms).0, s) == {}
  {
    hide Inv, MutexLock, CallerRuns, NoDeadlock, Served, Unserved;
    LockServes(k, m, ms);
    NobodyServed(k, MutexLock(k, m, ms).0, s);
  }

  lemma CreateServes(k: K, m: MutexId, s: SemId)
    requires Inv(k) && Inv(MutexCreate(k, m).0)
    ensures Served(k, MutexCreate(k, m).0, s) == {}
  {
    hide Inv, MutexCreate, Served, Unserved, Q;
    MutexCreateAnswers(k, m);
    SameTasksUnserved(k, MutexCreate(k, m).0);
    NobodyServed(k, MutexCreate(k, m).0, s);
  }

  lemma MutexDeleteServes(k: K, m: MutexId, s: SemId)
    requires Inv(k) && Inv(MutexDelete(k, m).0)
    ensures Served(k, MutexDelete(k, m).0, s) == {}
  {
    hide Inv, MutexDelete, Served, Unserved, Q, Lists.Without;
    MutexDeleteAnswers(k, m);
    SameTasksUnserved(k, MutexDelete(k, m).0);
    NobodyServed(k, MutexDelete(k, m).0, s);
  }

  lemma LockServes(k: K, m: MutexId, ms: nat)
    requires Inv(k) && CallerRuns(k) && NoDeadlock(k, m)
    ensures forall u :: Unserved(k, MutexLock(k, m, ms).0, u)
  {
    hide Inv, CallerRuns, NoDeadlock, WaitsNow, Acquired, MutexLock, Unserved, Caller;
    LockAnswers(k, m, ms);
    var (r, code) := MutexLock(k, m, ms);
    if Caller(k).Some? {
      RunningIs(k);
      if code == Parked {
        WaitingUnserved(k, Caller(k).value, Some(MutexQ(m)), r);
      } else if m in k.mutexes && Owner(k, m).None? {
        AcquiredTasks(k, m, Caller(k).value, r);
        SameTasksUnserved(k, r);
      } else {
        SameTasksUnserved(k, r);
      }
    } else {
      SameTasksUnserved(k, r);
    }
  }

  lemma AcquiredTasks(k: K, m: MutexId, t: TaskId, r: K)
    requires Acquired(k, m, t, r)
    ensures r.tasks.Keys == k.tasks.Keys && forall u :: u in k.tasks ==> r.tasks[u] == k.tasks[u].(held := r.tasks[u].held)
  {}

  lemma UnlockServes(k: K, m: MutexId, s: SemId)
    requires Inv(k) && Inv(MutexUnlock(k, m).0) && CallerRuns(k)
    ensures Served(k, MutexUnlock(k, m).0, s) == {}
  {
    hide Inv, CallerRuns, HandedOn, GaveUp, MutexUnlock, Unserved, Served, Caller, Q;
    UnlockAnswers(k, m);
    var (r, code) := MutexUnlock(k, m);
    if code == Ok && k.mutexes[m].lockCount <= 1 {
      RunningIs(k);
      if Q(k, MutexQ(m)) != [] {
        assert Q(k, MutexQ(m))[0] in Q(k, MutexQ(m));
        HandOverServesNobody(k, m, Caller(k).value, Q(k, MutexQ(m))[0], r, s);
      } else {
        GivenUpUnserved(k, m, Caller(k).value, r);
        NobodyServed(k, r, s);
      }
    } else {
      SameTasksUnserved(k, r);
      NobodyServed(k, r, s);
    }
  }

  /** Nor does an operation on tasks, the clock or the processor. */
  lemma OtherOpsServe(k: K, op: Op, s: SemId)
    requires Inv(k) && Allowed(k, op) && !OnMutexes(op) && !OnSems(op)
    ensures Served(k, Apply(k, op).0, s) == {}
  {
    ApplyKeeps(k, op);
    hide Inv, CallerRuns, WaitsNow, StoppedNow, BaseTaken, Rescheduled, Stepped, CurrentOutranked, SameClock, Ticked;
    hide TaskCreate, TaskDelete, TaskSuspend, TaskResume, SetPriority, Yield, Sleep, Tick, Schedule, Served, Unserved, Q;
    var r := Apply(k, op).0;
    OtherOpsUnserved(k, op);
    NobodyServed(k, r, s);
  }

  lemma OtherOpsUnserved(k: K, op: Op)
    requires Inv(k) && Allowed(k, op) && !OnMutexes(op) && !OnSems(op)
    ensures forall u :: Unserved(k, Apply(k, op).0, u)
  {
    hide Inv, CallerRuns, WaitsNow, StoppedNow, BaseTaken, Rescheduled, Stepped, CurrentOutranked, Ticked;
    hide TaskCreate, TaskDelete, TaskSuspend, TaskResume, SetPriority, Yield, Sleep, Tick, Schedule, Unserved, Q;
    var r := Apply(k, op).0;
    match op
    case OpTaskCreate(t, p) =>
      TaskCreateAnswers(k, t, p);
      SameTasksUnserved(k, r);
    case OpTaskDelete(t) => DeleteServes(k, t);
    case OpTaskSuspend(t) =>
      SuspendAnswers(k, t);
      if TaskSuspend(k, t).1 == Ok {
        StoppedUnserved(k, t, r);
      } else {
        SameTasksUnserved(k, r);
      }
    case OpTaskResume(t) =>
      ResumeAnswers(k, t);
      SameTasksUnserved(k, r);
    case OpSetPriority(t, p) =>
      SetPriorityAnswers(k, t, p);
      if SetPriority(k, t, p).1 == Ok {
        BasedUnserved(k, t, p, r);
      } else {
        SameTasksUnserved(k, r);
      }
    case OpYield =>
      YieldAnswers(k);
      SameTasksUnserved(k, r);
    case OpSleep(ms) => SleepServes(k, ms);
    case OpTick =>
      TickExact(k);
      TickedUnserved(k, r);
    case OpSchedule =>
      ScheduleStep(k);
      RescheduledUnserved(k, r);
    case OpEnvironment(inIsr, locked) => SameTasksUnserved(k, r);
  }

  lemma DeleteServes(k: K, t: TaskId)
    requires Inv(k)
    ensures forall u :: Unserved(k, TaskDelete(k, t).0, u)
  {
    hide Inv, TaskDelete, Q;
    DeleteAnswers(k, t);
    var (r, code) := TaskDelete(k, t);
    forall u ensures Unserved(k, r, u) {
      assert code == Ok && u in k.tasks && u != t ==> Untouched(k, r, u);
    }
  }

  lemma SleepServes(k: K, ms: nat)
    requires Inv(k) && CallerRuns(k)
    ensures forall u :: Unserved(k, Sleep(k, ms).0, u)
  {
    hide Inv, CallerRuns, WaitsNow, Sleep, Yield, Unserved;
    var (r, code) := Sleep(k, ms);
    if ms == 0 {
      SleepAnswers(k, ms);
      YieldAnswers(k);
      SameTasksUnserved(k, r);
    } else {
      SleepAnswers(k, ms);
      if code == Parked {
        CallerIsCurrent(k);
        RunningIs(k);
        WaitingUnserved(k, k.cur.value, None, r);
      } else {
        SameTasksUnserved(k, r);
      }
    }
  }

  lemma CallerIsCurrent(k: K)
    requires CallerRuns(k)
    ensures !k.inIsr ==> Caller(k) == k.cur && Caller(k).Some?
  {}

  // ----- conservation

  /** A wait takes one unit or waits, and serves nobody else. */
  lemma WaitUnits(k: K, x: SemId, ms: nat, s: SemId)
    requires Inv(k) && CallerRuns(k) && ms <= UINT32_MAX && s in k.sems
    ensures var (r, code) := SemWait(k, x, ms);
            s in r.sems && r.sems[s] + (if x == s && code == Ok then 1 else 0) == k.sems[s] && Served(k, r, s) == {}
  {
    hide Inv, CallerRuns, WaitsNow, SemWait, Unserved, Served, Stepped;
    SemWaitStep(k, x, ms);
    SteppedInv(k, SemWait(k, x, ms).0);
    SemWaitAnswers(k, x, ms);
    var (r, code) := SemWait(k, x, ms);
    if code == Parked {
      CallerIsCurrent(k);
      RunningIs(k);
      WaitingUnserved(k, k.cur.value, Some(SemQ(x)), r);
      WaitingSame(k, k.cur, Some(SemQ(x)), r);
    } else {
      SameTasksUnserved(k, r);
    }
    NobodyServed(k, r, s);
  }

  /** A post is counted or serves the first waiter, and nobody else. */
  lemma PostUnits(k: K, x: SemId, s: SemId)
    requires Inv(k) && s in k.sems
    ensures var (r, code) := SemPost(k, x);
            s in r.sems && r.sems[s] + |Served(k, r, s)| == k.sems[s] + if x == s && code == Ok then 1 else 0
  {
    hide Inv, SemPost, Served, Stepped, LeftWaiting;
    SemPostStep(k, x);
    SteppedInv(k, SemPost(k, x).0);
    var (r, code) := SemPost(k, x);
    if x !in k.sems {
      UnknownPost(k, x);
      SameTasksUnserved(k, r);
      NobodyServed(k, r, s);
    } else {
      PostGoesToFirst(k, x);
      if Q(k, SemQ(x)) != [] {
        PostServes(k, x, r, s);
      } else {
        SameTasksUnserved(k, r);
        NobodyServed(k, r, s);
      }
    }
  }

  lemma PostServes(k: K, x: SemId, r: K, s: SemId)
    requires Inv(k) && Inv(r) && Q(k, SemQ(x)) != [] && LeftWaiting(k, r, Q(k, SemQ(x))[0], Ok, Ready)
    ensures Served(k, r, s) == if x == s then {Q(k, SemQ(x))[0]} else {}
  {
    hide Inv, Q;
    var t := Q(k, SemQ(x))[0];
    assert t in Q(k, SemQ(x));
    InvLists(k);
  }

  /** Every allowed step neither loses nor makes up a unit: what is there and what is posted is
      what is left and what is given out, to a wait that finds it or to a waiter it is handed to. */
  lemma UnitStep(k: K, op: Op, s: SemId)
    requires Inv(k) && Allowed(k, op) && s in k.sems
    ensures var r := Apply(k, op).0;
            s in r.sems && k.sems[s] + (if PostsUnit(k, op, s) then 1 else 0)
                           == r.sems[s] + (if TakesUnit(k, op, s) then 1 else 0) + |Served(k, r, s)|
  {
    hide Inv, CallerRuns, NoDeadlock, Served;
    if op.OpSemWait? {
      hide SemWait;
      WaitUnits(k, op.s, op.ms, s);
    } else if op.OpSemPost? {
      hide SemPost;
      PostUnits(k, op.s, s);
    } else if op.OpSemCreate? {
      hide SemCreate;
      CreateUnits(k, op.s, op.count, s);
    } else {
      if OnMutexes(op) {
        MutexOpsSems(k, op);
        MutexOpsServe(k, op, s);
      } else {
        OtherOpsObjects(k, op);
        OtherOpsServe(k, op, s);
      }
      hide Apply;
    }
  }

  lemma CreateUnits(k: K, x: SemId, count: int, s: SemId)
    requires Inv(k) && s in k.sems
    ensures var r := SemCreate(k, x, count).0; s in r.sems && r.sems[s] == k.sems[s] && Served(k, r, s) == {}
  {
    hide Inv, SemCreate, Stepped, Served, Unserved;
    SemCreateStep(k, x, count);
    SteppedInv(k, SemCreate(k, x, count).0);
    SemCreateAnswers(k, x, count);
    SameTasksUnserved(k, SemCreate(k, x, count).0);
    NobodyServed(k, SemCreate(k, x, count).0, s);
  }

  function Posted(k: K, ops: seq<Op>, s: SemId): nat
    decreases |ops|
  {
    if ops == [] then 0
    else (if PostsUnit(k, ops[0], s) then 1 else 0) + Posted(Apply(k, ops[0]).0, ops[1..], s)
  }

  ghost function GivenOut(k: K, ops: seq<Op>, s: SemId): nat
    decreases |ops|
  {
    if ops == [] then 0
    else var r := Apply(k, ops[0]).0;
         (if TakesUnit(k, ops[0], s) then 1 else 0) + |Served(k, r, s)| + GivenOut(r, ops[1..], s)
  }

  /** Over every allowed run the units there were and the units posted are the units left and the
      units given out. */
  lemma {:induction false} UnitsConserved(k: K, ops: seq<Op>, s: SemId)
    requires Inv(k) && AllAllowed(k, ops) && s in k.sems
    ensures s in Run(k, ops).sems && k.sems[s] + Posted(k, ops, s) == Run(k, ops).sems[s] + GivenOut(k, ops, s)
    decreases |ops|
  {
    if ops != [] {
      UnitStep(k, ops[0], s);
      ApplyKeeps(k, ops[0]);
      hide Inv, Apply, Allowed, SameClock, Ticked, Served, PostsUnit, TakesUnit;
      UnitsConserved(Apply(k, ops[0]).0, ops[1..], s);
    }
  }
}
