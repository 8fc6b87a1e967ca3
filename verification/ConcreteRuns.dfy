/** Two runs from the start state that show what the code lets happen: two tasks that lock two
    mutexes crosswise, and an unlock that asks for no switch to the task it has just woken. */
module ConcreteRuns {
  import opened Lists
  import opened ReadyQueue
  import opened KernelState
  import opened Inheritance
  import opened WaitsFor
  import opened KernelInvariant
  import opened KernelCalls
  import opened KernelRun
  import Outcomes
  import Preemption

  const TOP: nat := 255
  const FOREVER: nat := UINT32_MAX

  const CROSSWISE: seq<Op> :=
    [OpTaskCreate(0, TOP), OpTaskCreate(1, TOP), OpMutexCreate(0), OpMutexCreate(1), OpSchedule,
     OpMutexLock(0, FOREVER), OpYield, OpSchedule, OpMutexLock(1, FOREVER), OpMutexLock(0, FOREVER), OpSchedule]

  /** The ready queues with `q` at the highest priority, `low` at the next and nothing below. */
  function Levels(q: seq<TaskId>, low: seq<TaskId>): Queues {
    seq(MAX_PRIORITY, p => if p == TOP then q else if p == TOP - 1 then low else [])
  }

  function Level(q: seq<TaskId>): Queues { Levels(q, []) }

  function Task(state: TaskState, held: seq<MutexId>, wait: Option<WaitList>): Tcb {
    Tcb(TOP, TOP, state, wait, held, 0, Ok)
  }

  /** Tasks 0 and 1, mutexes 0 and 1 with these owners, and a list of waiters for mutex 0. */
  function Two(a: Tcb, b: Tcb, owner: Option<TaskId>, other: Option<TaskId>, waiters: map<WaitList, seq<TaskId>>,
               ready: seq<TaskId>, cur: Option<TaskId>, resched: bool): K {
    K(map[0 := a, 1 := b], map[0 := Owned(owner), 1 := Owned(other)], map[], waiters, Level(ready), [], 0, cur,
      false, false, resched)
  }

  function Owned(owner: Option<TaskId>): Mutex { Mutex(owner, if owner.None? then 0 else 1) }

  lemma Queueing(q: seq<TaskId>, t: TaskId)
    ensures Level([]) == EMPTY && Add(Level(q), TOP, t) == Level(q + [t])
  {}

  ghost predicate Goes(k: K, op: Op, r: K) { Allowed(k, op) && Apply(k, op).0 == r }

  lemma Chain(k: K, op: Op, r: K, rest: seq<Op>, last: K)
    requires Goes(k, op, r) && AllAllowed(r, rest) && Run(r, rest) == last
    ensures AllAllowed(k, [op] + rest) && Run(k, [op] + rest) == last
  {
    hide Allowed, Apply;
    assert ([op] + rest)[1..] == rest;
  }

  const IDLE: Tcb := Task(Ready, [], None)
  const HOLDER: Tcb := Task(Ready, [0], None)
  const WAITER: Tcb := Task(Blocked, [1], Some(MutexQ(0)))

  const ONE_TASK: K := START.(tasks := map[0 := IDLE], ready := Level([0]))
  const TWO_TASKS: K := ONE_TASK.(tasks := ONE_TASK.tasks[1 := IDLE], ready := Level([0, 1]))
  const ONE_MUTEX: K := TWO_TASKS.(mutexes := map[0 := Owned(None)])
  const CREATED: K := Two(IDLE, IDLE, None, None, map[], [0, 1], None, false)
  const FIRST_RUNS: K := Two(Task(Running, [], None), IDLE, None, None, map[], [0, 1], Some(0), false)
  const FIRST_HOLDS: K := Two(Task(Running, [0], None), IDLE, Some(0), None, map[], [0, 1], Some(0), false)
  const FIRST_YIELDS: K := Two(Task(Running, [0], None), IDLE, Some(0), None, map[], [1, 0], Some(0), true)
  const SECOND_RUNS: K := Two(HOLDER, Task(Running, [], None), Some(0), None, map[], [1, 0], Some(1), false)
  const BOTH_HOLD: K := Two(HOLDER, Task(Running, [1], None), Some(0), Some(1), map[], [1, 0], Some(1), false)
  const SECOND_PARKS: K := Two(HOLDER, WAITER, Some(0), Some(1), map[MutexQ(0) := [1]], [0], Some(1), true)
  const FIRST_AGAIN: K :=
    Two(Task(Running, [0], None), WAITER, Some(0), Some(1), map[MutexQ(0) := [1]], [0], Some(0), false)

  lemma Creating()
    ensures Goes(START, OpTaskCreate(0, TOP), ONE_TASK)
    ensures Goes(ONE_TASK, OpTaskCreate(1, TOP), TWO_TASKS)
  {
    Queueing([], 0);
    Queueing([0], 1);
    assert [] + [0] == [0] && [0] + [1] == [0, 1];
    assert |START.tasks| == 0 && ONE_TASK.tasks.Keys == {0} && |ONE_TASK.tasks| == |ONE_TASK.tasks.Keys|;
    hide Level, Add;
    assert START.tasks[0 := IDLE] == ONE_TASK.tasks;
  }

  lemma CreatingMutexes()
    ensures Goes(TWO_TASKS, OpMutexCreate(0), ONE_MUTEX)
    ensures Goes(ONE_MUTEX, OpMutexCreate(1), CREATED)
  {
    hide Level;
  }

  /** A switch to the first task of the highest queue. */
  lemma Switching(k: K, q: seq<TaskId>, low: seq<TaskId>, t: TaskId, r: K)
    requires k.ready == Levels(q, low) && t in k.tasks && k.tasks[t].state == Ready && k.cur != Some(t)
    requires if q != [] then t == q[0] else low != [] && t == low[0]
    requires r == k.(tasks := r.tasks, cur := Some(t), resched := false)
    requires var a := k.tasks[t].(state := Running);
             r.tasks == if k.cur.Some? && k.cur.value in k.tasks && k.tasks[k.cur.value].state == Running
                        then k.tasks[k.cur.value := k.tasks[k.cur.value].(state := Ready)][t := a]
                        else k.tasks[t := a]
    ensures Goes(k, OpSchedule, r)
  {
    assert q == [] ==> HighestBelow(k.ready, TOP) == Some(t);
    assert Highest(k.ready) == Some(t);
    hide Levels, Highest;
  }

  lemma Taking(k: K, m: MutexId, r: K)
    requires CallerRuns(k) && !k.inIsr && m in k.mutexes && k.mutexes[m] == Mutex(None, 0)
    requires var t := k.cur.value;
             r == k.(mutexes := k.mutexes[m := Mutex(k.cur, 1)],
                     tasks := k.tasks[t := k.tasks[t].(held := k.tasks[t].held + [m])])
    ensures Goes(k, OpMutexLock(m, FOREVER), r)
  {
    hide Block, Reaches;
  }

  lemma Yielding()
    ensures Goes(FIRST_HOLDS, OpYield, FIRST_YIELDS)
  {
    assert Without([0, 1], 0) == [1] && [1] + [0] == [1, 0];
    assert Rotate(Level([0, 1]), TOP, 0) == Level([1, 0]);
    hide Level, Rotate;
  }

  /** Task 1 asks for the mutex of task 0 and leaves the ready queue. */
  lemma Parking()
    ensures Park(BOTH_HOLD, 1, Some(MutexQ(0))) == SECOND_PARKS.(resched := false)
  {
    assert Remove(Level([1, 0]), TOP, 1) == Level([0]);
    hide Remove, Level;
    assert InsertByPriority(BOTH_HOLD.tasks, [], 1) == [1];
    hide InsertByPriority;
    assert Q(BOTH_HOLD, MutexQ(0)) == [];
    assert BOTH_HOLD.tasks[1 := WAITER] == SECOND_PARKS.tasks;
  }

  lemma ParkedRecompute()
    ensures var k := SECOND_PARKS.(resched := false); Recompute(k, 0, 0) == k && RecomputeOwner(k, 0) == k
  {
    var k := SECOND_PARKS.(resched := false);
    assert Top(k, 0) == TOP;
    assert Effective(k, 0) == TOP;
    hide Level;
  }

  lemma NothingReached(k: K, t: TaskId, u: TaskId)
    requires Next(k, t).None? && t != u
    ensures !Reaches(k, t, u)
  {
    ReachesStep(k, t, u);
  }

  lemma SecondBlocks()
    ensures Goes(BOTH_HOLD, OpMutexLock(0, FOREVER), SECOND_PARKS)
  {
    NothingReached(BOTH_HOLD, 0, 1);
    Parking();
    ParkedRecompute();
    hide Level, Park, Recompute, RecomputeOwner, Reaches;
  }

  lemma Steps()
    ensures Goes(CREATED, OpSchedule, FIRST_RUNS) && Goes(FIRST_RUNS, OpMutexLock(0, FOREVER), FIRST_HOLDS)
    ensures Goes(FIRST_YIELDS, OpSchedule, SECOND_RUNS) && Goes(SECOND_RUNS, OpMutexLock(1, FOREVER), BOTH_HOLD)
    ensures Goes(SECOND_PARKS, OpSchedule, FIRST_AGAIN)
  {
    hide Goes, Levels;
    assert [] + [0] == [0] && [] + [1] == [1];
    assert FIRST_HOLDS.mutexes == FIRST_RUNS.mutexes[0 := Owned(Some(0))];
    assert FIRST_HOLDS.tasks == FIRST_RUNS.tasks[0 := Task(Running, [0], None)];
    assert BOTH_HOLD.mutexes == SECOND_RUNS.mutexes[1 := Owned(Some(1))];
    assert BOTH_HOLD.tasks == SECOND_RUNS.tasks[1 := Task(Running, [1], None)];
    Switching(CREATED, [0, 1], [], 0, FIRST_RUNS);
    Taking(FIRST_RUNS, 0, FIRST_HOLDS);
    Switching(FIRST_YIELDS, [1, 0], [], 1, SECOND_RUNS);
    Taking(SECOND_RUNS, 1, BOTH_HOLD);
    Switching(SECOND_PARKS, [0], [], 0, FIRST_AGAIN);
  }

  lemma LastSteps(s: seq<Op>)
    requires s == CROSSWISE
    ensures AllAllowed(SECOND_RUNS, s[8..]) && Run(SECOND_RUNS, s[8..]) == FIRST_AGAIN
  {
    assert AllAllowed(FIRST_AGAIN, []) && Run(FIRST_AGAIN, []) == FIRST_AGAIN;
    Steps();
    SecondBlocks();
    hide AllAllowed, Run, Goes, Level, Two;
    Chain(SECOND_PARKS, s[10], FIRST_AGAIN, [], FIRST_AGAIN);
    Chain(BOTH_HOLD, s[9], SECOND_PARKS, [s[10]] + [], FIRST_AGAIN);
    Chain(SECOND_RUNS, s[8], BOTH_HOLD, [s[9]] + ([s[10]] + []), FIRST_AGAIN);
    assert s[8..] == [s[8]] + ([s[9]] + ([s[10]] + []));
  }

  lemma MiddleSteps(s: seq<Op>)
    requires s == CROSSWISE
    ensures AllAllowed(CREATED, s[4..]) && Run(CREATED, s[4..]) == FIRST_AGAIN
  {
    LastSteps(s);
    Steps();
    Yielding();
    hide AllAllowed, Run, Goes, Level, Two;
    Chain(FIRST_YIELDS, s[7], SECOND_RUNS, s[8..], FIRST_AGAIN);
    Chain(FIRST_HOLDS, s[6], FIRST_YIELDS, [s[7]] + s[8..], FIRST_AGAIN);
    Chain(FIRST_RUNS, s[5], FIRST_HOLDS, [s[6]] + ([s[7]] + s[8..]), FIRST_AGAIN);
    Chain(CREATED, s[4], FIRST_RUNS, [s[5]] + ([s[6]] + ([s[7]] + s[8..])), FIRST_AGAIN);
    assert s[4..] == [s[4]] + ([s[5]] + ([s[6]] + ([s[7]] + s[8..])));
  }

  lemma CrosswiseRun(s: seq<Op>)
    requires s == CROSSWISE
    ensures AllAllowed(START, s) && Run(START, s) == FIRST_AGAIN
  {
    MiddleSteps(s);
    Creating();
    CreatingMutexes();
    hide AllAllowed, Run, Goes, Level, Two;
    Chain(ONE_MUTEX, s[3], CREATED, s[4..], FIRST_AGAIN);
    Chain(TWO_TASKS, s[2], ONE_MUTEX, [s[3]] + s[4..], FIRST_AGAIN);
    Chain(ONE_TASK, s[1], TWO_TASKS, [s[2]] + ([s[3]] + s[4..]), FIRST_AGAIN);
    Chain(START, s[0], ONE_TASK, [s[1]] + ([s[2]] + ([s[3]] + s[4..])), FIRST_AGAIN);
    assert s == [s[0]] + ([s[1]] + ([s[2]] + ([s[3]] + s[4..])));
  }

  /** From the start state allowed calls lead to where task 0 may ask for the mutex of task 1:
      the code lets it wait, and two tasks then wait for each other. */
  lemma CrosswiseLocksDeadlock()
    ensures AllAllowed(START, CROSSWISE)
    ensures var k := Run(START, CROSSWISE);
            && CallerRuns(k) && k.cur == Some(0) && Owner(k, 1) == Some(1) && Reaches(k, 1, 0)
            && MutexLock(k, 1, FOREVER).1 == Parked && !Acyclic(MutexLock(k, 1, FOREVER).0)
            && Next(MutexLock(k, 1, FOREVER).0, 0) == Some(1) && Next(MutexLock(k, 1, FOREVER).0, 1) == Some(0)
  {
    var k := FIRST_AGAIN;
    CrosswiseRun(CROSSWISE);
    FirstReached();
    StartInv();
    RunKeeps(START, CROSSWISE);
    hide AllAllowed, Run, Inv, Reaches, Acyclic, Next, Level, MutexLock;
    LastParks();
    LockDeadlocksIff(k, 1, FOREVER);
  }

  lemma FirstReached()
    ensures Reaches(FIRST_AGAIN, 1, 0) && CallerRuns(FIRST_AGAIN) && Owner(FIRST_AGAIN, 1) == Some(1)
  {
    hide Level;
    assert Next(FIRST_AGAIN, 1) == Some(0);
    assert Up(FIRST_AGAIN, 0, 0) == Some(0);
    assert Up(FIRST_AGAIN, 1, 1) == Some(0);
  }

  lemma LastParks()
    ensures var (r, code) := MutexLock(FIRST_AGAIN, 1, FOREVER);
            code == Parked && Next(r, 0) == Some(1) && Next(r, 1) == Some(0)
  {
    hide Level, Park, Recompute, Next, Owner;
    var r := Park(FIRST_AGAIN, 0, Some(MutexQ(1)));
    LastEdge(r);
    RecomputeKeepsGraph(r, 1, 0);
    var w := RecomputeOwner(r, 1);
    FlagKeepsGraph(w);
  }

  lemma LastEdge(r: K)
    requires r == Park(FIRST_AGAIN, 0, Some(MutexQ(1)))
    ensures Owner(r, 1) == Some(1) && Next(r, 0) == Some(1) && Next(r, 1) == Some(0) && 1 in r.tasks && 0 in r.tasks
  {
    hide Level, Remove, InsertByPriority;
  }

  // ----- an unlock without a switch

  const LOW: nat := 254

  const BOOSTED: seq<Op> :=
    [OpTaskCreate(0, LOW), OpMutexCreate(0), OpSchedule, OpMutexLock(0, FOREVER), OpTaskCreate(1, TOP), OpSchedule,
     OpMutexLock(0, FOREVER), OpSchedule]

  function LowTask(prio: nat, state: TaskState, held: seq<MutexId>): Tcb { Tcb(LOW, prio, state, None, held, 0, Ok) }

  /** Task 0 of lower priority alone, with mutex 0. */
  function Alone(a: Tcb, owner: Option<TaskId>, cur: Option<TaskId>): K {
    K(map[0 := a], map[0 := Owned(owner)], map[], map[], Levels([], [0]), [], 0, cur, false, false, false)
  }

  /** Tasks 0 and 1, and mutex 0 held by task 0. */
  function Both(a: Tcb, b: Tcb, waiters: map<WaitList, seq<TaskId>>, q: seq<TaskId>, low: seq<TaskId>,
                cur: Option<TaskId>, resched: bool): K {
    K(map[0 := a, 1 := b], map[0 := Owned(Some(0))], map[], waiters, Levels(q, low), [], 0, cur, false, false, resched)
  }

  const HIGH_WAITING: Tcb := Task(Blocked, [], Some(MutexQ(0)))

  const LOW_TASK_ONLY: K := START.(tasks := map[0 := LowTask(LOW, Ready, [])], ready := Levels([], [0]))
  const LOW_AND_MUTEX: K := Alone(LowTask(LOW, Ready, []), None, None)
  const LOW_RUNS: K := Alone(LowTask(LOW, Running, []), None, Some(0))
  const LOW_HOLDS: K := Alone(LowTask(LOW, Running, [0]), Some(0), Some(0))
  const HIGH_COMES: K := Both(LowTask(LOW, Running, [0]), IDLE, map[], [1], [0], Some(0), false)
  const HIGH_RUNS: K := Both(LowTask(LOW, Ready, [0]), Task(Running, [], None), map[], [1], [0], Some(1), false)
  const HIGH_LEAVES: K := Both(LowTask(LOW, Ready, [0]), HIGH_WAITING, map[MutexQ(0) := [1]], [], [0], Some(1), false)
  const HIGH_WAITS: K := Both(LowTask(TOP, Ready, [0]), HIGH_WAITING, map[MutexQ(0) := [1]], [0], [], Some(1), true)
  const LOW_BOOSTED: K := Both(LowTask(TOP, Running, [0]), HIGH_WAITING, map[MutexQ(0) := [1]], [0], [], Some(0), false)

  lemma LowCreating()
    ensures Goes(START, OpTaskCreate(0, LOW), LOW_TASK_ONLY) && Goes(LOW_TASK_ONLY, OpMutexCreate(0), LOW_AND_MUTEX)
    ensures Goes(LOW_HOLDS, OpTaskCreate(1, TOP), HIGH_COMES)
  {
    assert [] + [0] == [0] && [] + [1] == [1];
    assert Levels([], []) == EMPTY;
    assert Add(Levels([], []), LOW, 0) == Levels([], [0]);
    assert Add(Levels([], [0]), TOP, 1) == Levels([1], [0]);
    assert |START.tasks| == 0 && LOW_HOLDS.tasks.Keys == {0} && |LOW_HOLDS.tasks| == |LOW_HOLDS.tasks.Keys|;
    hide Levels, Add;
    assert START.tasks[0 := LowTask(LOW, Ready, [])] == LOW_TASK_ONLY.tasks;
    assert LOW_HOLDS.tasks[1 := IDLE] == HIGH_COMES.tasks;
  }

  lemma LowSteps()
    ensures Goes(LOW_AND_MUTEX, OpSchedule, LOW_RUNS) && Goes(LOW_RUNS, OpMutexLock(0, FOREVER), LOW_HOLDS)
    ensures Goes(HIGH_COMES, OpSchedule, HIGH_RUNS) && Goes(HIGH_WAITS, OpSchedule, LOW_BOOSTED)
  {
    hide Goes, Levels;
    assert [] + [0] == [0];
    assert LOW_HOLDS.mutexes == LOW_RUNS.mutexes[0 := Owned(Some(0))];
    assert LOW_HOLDS.tasks == LOW_RUNS.tasks[0 := LowTask(LOW, Running, [0])];
    Switching(LOW_AND_MUTEX, [], [0], 0, LOW_RUNS);
    Taking(LOW_RUNS, 0, LOW_HOLDS);
    Switching(HIGH_COMES, [1], [0], 1, HIGH_RUNS);
    Switching(HIGH_WAITS, [0], [], 0, LOW_BOOSTED);
  }

  lemma HighParks()
    ensures Park(HIGH_RUNS, 1, Some(MutexQ(0))) == HIGH_LEAVES
  {
    assert Remove(Levels([1], [0]), TOP, 1) == Levels([], [0]);
    hide Remove, Levels;
    assert InsertByPriority(HIGH_RUNS.tasks, [], 1) == [1];
    hide InsertByPriority;
    assert Q(HIGH_RUNS, MutexQ(0)) == [];
    assert HIGH_RUNS.tasks[1 := HIGH_WAITING] == HIGH_LEAVES.tasks;
  }

  /** Task 0 inherits the priority of task 1. */
  lemma LowInherits()
    ensures Recompute(HIGH_LEAVES, 0, 0) == HIGH_WAITS.(resched := false)
  {
    var k := HIGH_LEAVES;
    assert Top(k, 0) == TOP;
    assert Effective(k, 0) == TOP;
    assert Requeue(Levels([], [0]), LOW, TOP, 0) == Levels([0], []) by {
      assert Without([0], 0) == [] && [] + [0] == [0];
      assert Remove(Levels([], [0]), LOW, 0) == Levels([], []);
    }
    hide Levels, Requeue, Effective;
    assert k.tasks[0 := LowTask(TOP, Ready, [0])] == HIGH_WAITS.tasks;
  }

  lemma HighBlocks()
    ensures Goes(HIGH_RUNS, OpMutexLock(0, FOREVER), HIGH_WAITS)
  {
    NothingReached(HIGH_RUNS, 0, 1);
    HighParks();
    LowInherits();
    assert Owner(HIGH_LEAVES, 0) == Some(0);
    hide Levels, Park, Recompute, Reaches;
  }

  lemma BoostedEnd(s: seq<Op>)
    requires s == BOOSTED
    ensures AllAllowed(LOW_HOLDS, s[4..]) && Run(LOW_HOLDS, s[4..]) == LOW_BOOSTED
  {
    assert AllAllowed(LOW_BOOSTED, []) && Run(LOW_BOOSTED, []) == LOW_BOOSTED;
    LowCreating();
    LowSteps();
    HighBlocks();
    hide AllAllowed, Run, Goes, Levels, Both;
    Chain(HIGH_WAITS, s[7], LOW_BOOSTED, [], LOW_BOOSTED);
    Chain(HIGH_RUNS, s[6], HIGH_WAITS, [s[7]] + [], LOW_BOOSTED);
    Chain(HIGH_COMES, s[5], HIGH_RUNS, [s[6]] + ([s[7]] + []), LOW_BOOSTED);
    Chain(LOW_HOLDS, s[4], HIGH_COMES, [s[5]] + ([s[6]] + ([s[7]] + [])), LOW_BOOSTED);
    assert s[4..] == [s[4]] + ([s[5]] + ([s[6]] + ([s[7]] + [])));
  }

  lemma BoostedRun(s: seq<Op>)
    requires s == BOOSTED
    ensures AllAllowed(START, s) && Run(START, s) == LOW_BOOSTED
  {
    BoostedEnd(s);
    LowCreating();
    LowSteps();
    hide AllAllowed, Run, Goes, Levels, Both, Alone;
    Chain(LOW_RUNS, s[3], LOW_HOLDS, s[4..], LOW_BOOSTED);
    Chain(LOW_AND_MUTEX, s[2], LOW_RUNS, [s[3]] + s[4..], LOW_BOOSTED);
    Chain(LOW_TASK_ONLY, s[1], LOW_AND_MUTEX, [s[2]] + ([s[3]] + s[4..]), LOW_BOOSTED);
    Chain(START, s[0], LOW_TASK_ONLY, [s[1]] + ([s[2]] + ([s[3]] + s[4..])), LOW_BOOSTED);
    assert s == [s[0]] + ([s[1]] + ([s[2]] + ([s[3]] + s[4..])));
  }

  /** The ordinary case of inheritance is one where the switch is missed: task 0 gives back the
      mutex that task 1 of higher priority waits for, and goes on running. */
  lemma BoostedUnlockMissesSwitch()
    ensures AllAllowed(START, BOOSTED)
    ensures var k := Run(START, BOOSTED); var (r, code) := MutexUnlock(k, 0);
            && CallerRuns(k) && k.cur == Some(0) && Owner(k, 0) == Some(0) && Q(k, MutexQ(0)) == [1]
            && code == Ok && 0 in r.tasks && 1 in r.tasks && r.tasks[1].state == Ready && !r.resched
            && Preemption.Outranked(r, 0)
  {
    var k := LOW_BOOSTED;
    BoostedRun(BOOSTED);
    StartInv();
    RunKeeps(START, BOOSTED);
    BoostedAbove(k);
    hide AllAllowed, Run, Inv, Levels, MutexUnlock, Outcomes.HandedOn;
    Preemption.UnlockMissesPreemptionIff(k, 0);
    Outcomes.UnlockHandsOn(k, 0);
    UnlockedOk(k, MutexUnlock(k, 0).0);
  }

  lemma UnlockedOk(k: K, r: K)
    requires 1 in k.tasks && 0 in k.tasks && Outcomes.HandedOn(k, 0, 0, 1, r)
    ensures 0 in r.tasks && 1 in r.tasks && r.tasks[1].state == Ready
  {}

  lemma BoostedAbove(k: K)
    requires k == LOW_BOOSTED
    ensures CallerRuns(k) && Q(k, MutexQ(0)) == [1]
    ensures Preemption.PriorityWithout(k, 0, 0) == LOW
    ensures Preemption.Above(k, 0, Some(1), LOW) && !Preemption.Above(k, 0, Some(1), TOP)
  {
    hide Levels;
    assert Without([0], 0) == [];
    assert 1 in k.tasks;
  }
}
