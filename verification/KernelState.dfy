/** The kernel globals, task control blocks and mutexes as one value, and what each
    kernel call makes of it. Every function follows one C function of
    `kernel/task.c`, `kernel/ipc/mutex.c`, `kernel/ipc/sem.c` or `kernel/sched.c`. */
module KernelState {
  import opened Lists
  import opened ReadyQueue

  type MutexId = nat
  type SemId = nat

  const TASK_LIMIT: nat := 256
  const SEM_MAX_COUNT: nat := 0x7FFF_FFFF
  const UINT32_MAX: nat := 0xFFFF_FFFF
  const TICK_MODULUS: nat := 0x1_0000_0000
  const TIMEOUT_MAX_TICKS: nat := 0x7FFF_FFFF
  const SYSTICK_HZ: nat := 1000

  datatype TaskState = Ready | Running | Blocked | Delayed | Suspended

  /** The list a blocked task waits on; it also names the object (`wait_obj`). */
  datatype WaitList = MutexQ(mutex: MutexId) | SemQ(sem: SemId)

  datatype Code = Ok | Timeout | Busy | Invalid | Context | Overflow | Locked | Interrupted
    | Parked // the caller is blocked; its code is `result` when it runs again

  datatype Tcb = Tcb(
    base: nat,
    prio: int,
    state: TaskState,
    wait: Option<WaitList>,
    held: seq<MutexId>,
    wakeTick: nat,
    result: Code)

  datatype Mutex = Mutex(owner: Option<TaskId>, lockCount: nat)

  datatype K = K(
    tasks: map<TaskId, Tcb>,
    mutexes: map<MutexId, Mutex>,
    sems: map<SemId, nat>,
    waiters: map<WaitList, seq<TaskId>>,
    ready: Queues,
    timeouts: seq<TaskId>,
    now: nat,
    cur: Option<TaskId>,
    inIsr: bool,
    locked: bool,
    resched: bool)

  // ----- reading the state

  function Prio(tasks: map<TaskId, Tcb>, t: TaskId): int {
    if t in tasks then tasks[t].prio else 0
  }

  function Q(k: K, l: WaitList): seq<TaskId> {
    if l in k.waiters then k.waiters[l] else []
  }

  function Owner(k: K, m: MutexId): Option<TaskId> {
    if m in k.mutexes then k.mutexes[m].owner else None
  }

  predicate Linked(k: K, t: TaskId) {
    t in k.tasks && k.tasks[t].wait.Some? && t in Q(k, k.tasks[t].wait.value)
  }

  predicate WaitsOnMutex(k: K, t: TaskId) {
    t in k.tasks && k.tasks[t].wait.Some? && k.tasks[t].wait.value.MutexQ?
  }

  /** The owner `recompute_chain` goes on to from `t`; a task that was handed the
      mutex it still names as its wait object is where the chain stops. */
  function Next(k: K, t: TaskId): Option<TaskId> {
    if WaitsOnMutex(k, t) then
      var o := Owner(k, k.tasks[t].wait.value.mutex);
      if o == Some(t) then None else o
    else None
  }

  // ----- sorted insertions

  /** `task_wait_insert_priority`: in front of the first waiter of lower priority. */
  function PriorityPosition(tasks: map<TaskId, Tcb>, q: seq<TaskId>, t: TaskId): (i: nat)
    ensures i <= |q|
    ensures forall j :: 0 <= j < i ==> Prio(tasks, t) <= Prio(tasks, q[j])
    ensures i < |q| ==> Prio(tasks, t) > Prio(tasks, q[i])
  {
    if q == [] || Prio(tasks, t) > Prio(tasks, q[0]) then 0
    else 1 + PriorityPosition(tasks, q[1..], t)
  }

  function InsertByPriority(tasks: map<TaskId, Tcb>, q: seq<TaskId>, t: TaskId): seq<TaskId> {
    InsertAt(q, PriorityPosition(tasks, q, t), t)
  }

  function WakeTick(tasks: map<TaskId, Tcb>, t: TaskId): nat {
    if t in tasks then tasks[t].wakeTick else 0
  }

  /** `(int32_t)(a - b)`: the 32-bit difference read as a signed number. */
  function SignedDifference(a: int, b: int): int {
    var d := (a - b) % TICK_MODULUS;
    if d < TICK_MODULUS / 2 then d else d - TICK_MODULUS
  }

  /** `timeout_insert`: in front of the first task that wakes strictly later. */
  function TimeoutPosition(tasks: map<TaskId, Tcb>, q: seq<TaskId>, t: TaskId): (i: nat)
    ensures i <= |q|
    ensures forall j :: 0 <= j < i ==>
              SignedDifference(WakeTick(tasks, t), WakeTick(tasks, q[j])) >= 0
    ensures i < |q| ==> SignedDifference(WakeTick(tasks, t), WakeTick(tasks, q[i])) < 0
  {
    if q == [] || SignedDifference(WakeTick(tasks, t), WakeTick(tasks, q[0])) < 0 then 0
    else 1 + TimeoutPosition(tasks, q[1..], t)
  }

  /** `tick_reached`. */
  predicate TickReached(now: int, deadline: int) {
    SignedDifference(now, deadline) >= 0
  }

  /** `aixos_ms_to_ticks`; UINT32_MAX means no timeout. */
  function MsToTicks(ms: nat): (ticks: nat) {
    if ms == UINT32_MAX then UINT32_MAX else
      var ticks := (ms * SYSTICK_HZ + 999) / 1000;
      var atLeastOne := if ticks == 0 && ms != 0 then 1 else ticks;
      if atLeastOne > TIMEOUT_MAX_TICKS then TIMEOUT_MAX_TICKS else atLeastOne
  }

  // ----- priority inheritance

  /** Priority of the first waiter of `m`, below every priority when there is none. */
  function Top(k: K, m: MutexId): int {
    var q := Q(k, MutexQ(m));
    if q == [] then -1 else Prio(k.tasks, q[0])
  }

  function MaxTop(k: K, held: seq<MutexId>, priority: int): int
    decreases |held|
  {
    if held == [] then priority
    else MaxTop(k, held[1..], if Top(k, held[0]) > priority then Top(k, held[0]) else priority)
  }

  /** `task_effective_priority`. */
  function Effective(k: K, t: TaskId): int
    requires t in k.tasks
  {
    MaxTop(k, k.tasks[t].held, k.tasks[t].base)
  }

  /** `aixos_task_waiter_priority_changed`: `t` moves to its place in its wait list. */
  function Resort(k: K, t: TaskId): K {
    if Linked(k, t) then
      var l := k.tasks[t].wait.value;
      k.(waiters := k.waiters[l := InsertByPriority(k.tasks, Without(Q(k, l), t), t)])
    else k
  }

  function Reprioritise(k: K, t: TaskId, p: int): K
    requires t in k.tasks
  {
    var tcb := k.tasks[t];
    if p == tcb.prio then k else
      var k1 := k.(tasks := k.tasks[t := tcb.(prio := p)],
                   ready := Requeue(k.ready, tcb.prio, p, t));
      if WaitsOnMutex(k1, t) then Resort(k1, t) else k1
  }

  /** `recompute_chain`. */
  function Recompute(k: K, t: TaskId, depth: nat): K
    decreases TASK_LIMIT - depth
  {
    if t !in k.tasks || depth >= TASK_LIMIT then k else
      var k1 := Reprioritise(k, t, Effective(k, t));
      match Next(k1, t)
      case None => k1
      case Some(owner) => Recompute(k1, owner, depth + 1)
  }

  function RecomputeOwner(k: K, m: MutexId): K {
    match Owner(k, m)
    case None => k
    case Some(owner) => Recompute(k, owner, 0)
  }

  // ----- blocking and waking

  function RequestPreemption(k: K): K {
    match Highest(k.ready)
    case None => k
    case Some(h) =>
      if k.cur == Some(h) then k
      else if k.cur.None? || Prio(k.tasks, h) > Prio(k.tasks, k.cur.value) then k.(resched := true)
      else k
  }

  function Unlink(k: K, t: TaskId): K
    requires t in k.tasks && k.tasks[t].wait.Some?
  {
    var l := k.tasks[t].wait.value;
    k.(waiters := k.waiters[l := Without(Q(k, l), t)])
  }

  /** The wait-list half of `task_detach_wait_locked`, with `aixos_mutex_waiter_removed`. */
  function LeaveWaitList(k: K, t: TaskId): K {
    if !Linked(k, t) then k
    else if k.tasks[t].wait.value.MutexQ? then RecomputeOwner(Unlink(k, t), k.tasks[t].wait.value.mutex)
    else Unlink(k, t)
  }

  /** The rest of `task_detach_wait_locked`. */
  function ClearWait(k: K, t: TaskId, result: Code): K {
    if t in k.tasks then
      k.(timeouts := Without(k.timeouts, t),
         tasks := k.tasks[t := k.tasks[t].(wait := None, result := result)])
    else k
  }

  function Detach(k: K, t: TaskId, result: Code): K {
    ClearWait(LeaveWaitList(k, t), t, result)
  }

  function MakeReady(k: K, t: TaskId): K {
    if t in k.tasks then
      RequestPreemption(k.(tasks := k.tasks[t := k.tasks[t].(state := Ready)],
                           ready := Add(k.ready, k.tasks[t].prio, t)))
    else k
  }

  /** `aixos_task_wake`. */
  function Wake(k: K, t: TaskId, result: Code): K {
    if t in k.tasks && k.tasks[t].state in {Blocked, Delayed}
    then MakeReady(Detach(k, t, result), t)
    else k
  }

  /** The task stops running and enters `l` by priority. */
  function Park(k: K, t: TaskId, l: Option<WaitList>): K
    requires t in k.tasks
  {
    var tcb := k.tasks[t];
    var k1 := k.(tasks := k.tasks[t := tcb.(state := if l.None? then Delayed else Blocked,
                                            wait := l, result := Ok)],
                 ready := Remove(k.ready, tcb.prio, t));
    if l.Some?
    then k1.(waiters := k1.waiters[l.value := InsertByPriority(k1.tasks, Q(k1, l.value), t)])
    else k1
  }

  function ArmTimeout(k: K, t: TaskId, ticks: nat): K {
    if t in k.tasks && ticks != UINT32_MAX then
      var tasks := k.tasks[t := k.tasks[t].(wakeTick := (k.now + ticks) % TICK_MODULUS)];
      k.(tasks := tasks, timeouts := InsertAt(k.timeouts, TimeoutPosition(tasks, k.timeouts, t), t))
    else k
  }

  /** `aixos_task_block_current` on `l`, or on nothing but the clock. */
  function Block(k: K, l: Option<WaitList>, ms: nat): (K, Code) {
    if k.cur.None? || k.cur.value !in k.tasks || k.inIsr then (k, Context)
    else if k.locked then (k, Locked)
    else
      var self := k.cur.value;
      var k1 := Park(k, self, l);
      var k2 := if l.Some? && l.value.MutexQ? then RecomputeOwner(k1, l.value.mutex) else k1;
      (ArmTimeout(k2, self, MsToTicks(ms)).(resched := true), Parked)
  }

  // ----- kernel calls

  function Caller(k: K): Option<TaskId> {
    if k.inIsr || k.cur.None? || k.cur.value !in k.tasks then None else k.cur
  }

  function MutexCreate(k: K, m: MutexId): (K, Code) {
    if k.inIsr || m in k.mutexes then (k, Invalid)
    else (k.(mutexes := k.mutexes[m := Mutex(None, 0)]), Ok)
  }

  /** `aixos_mutex_lock`. */
  function MutexLock(k: K, m: MutexId, ms: nat): (K, Code) {
    if Caller(k).None? then (k, Context)
    else if m !in k.mutexes then (k, Invalid)
    else
      var self := k.cur.value;
      var mutex := k.mutexes[m];
      if mutex.owner.None? then
        (k.(mutexes := k.mutexes[m := Mutex(Some(self), 1)],
            tasks := k.tasks[self := k.tasks[self].(held := k.tasks[self].held + [m])]), Ok)
      else if mutex.owner == Some(self) then
        if mutex.lockCount == UINT32_MAX then (k, Overflow)
        else (k.(mutexes := k.mutexes[m := mutex.(lockCount := mutex.lockCount + 1)]), Ok)
      else if ms == 0 then (k, Busy)
      else Block(k, Some(MutexQ(m)), ms)
  }

  /** `mutex` leaves the hands of `self` and goes to the first waiter, if any. */
  function HandOver(k: K, m: MutexId, self: TaskId): K
    requires m in k.mutexes && self in k.tasks
  {
    var k1 := k.(tasks := k.tasks[self := k.tasks[self].(held := Without(k.tasks[self].held, m))]);
    var q := Q(k, MutexQ(m));
    if q != [] && q[0] in k.tasks then
      k1.(mutexes := k1.mutexes[m := Mutex(Some(q[0]), 1)],
          tasks := k1.tasks[q[0] := k1.tasks[q[0]].(held := k1.tasks[q[0]].held + [m])])
    else k1.(mutexes := k1.mutexes[m := Mutex(None, 0)])
  }

  /** `aixos_mutex_unlock`. */
  function MutexUnlock(k: K, m: MutexId): (K, Code) {
    if Caller(k).None? then (k, Context)
    else if m !in k.mutexes || k.mutexes[m].owner != k.cur then (k, Invalid)
    else if k.mutexes[m].lockCount > 1 then
      (k.(mutexes := k.mutexes[m := k.mutexes[m].(lockCount := k.mutexes[m].lockCount - 1)]), Ok)
    else
      var self := k.cur.value;
      var q := Q(k, MutexQ(m));
      var k1 := HandOver(k, m, self);
      var k2 := if q != [] then Wake(k1, q[0], Ok) else k1;
      (Recompute(k2, self, 0), Ok)
  }

  /** `aixos_mutex_delete`. */
  function MutexDelete(k: K, m: MutexId): (K, Code) {
    if k.inIsr then (k, Context)
    else if m !in k.mutexes then (k, Invalid)
    else if Q(k, MutexQ(m)) != [] then (k, Busy)
    else
      var k1 := match k.mutexes[m].owner
        case Some(o) =>
          if o in k.tasks then
            Recompute(k.(tasks := k.tasks[o := k.tasks[o].(held := Without(k.tasks[o].held, m))]), o, 0)
          else k
        case None => k;
      (k1.(mutexes := k1.mutexes - {m}), Ok)
  }

  function SemCreate(k: K, s: SemId, count: int): (K, Code) {
    if k.inIsr || s in k.sems || count < 0 || count > SEM_MAX_COUNT then (k, Invalid)
    else (k.(sems := k.sems[s := count]), Ok)
  }

  /** `aixos_sem_wait`. */
  function SemWait(k: K, s: SemId, ms: nat): (K, Code) {
    if k.inIsr then (k, Context)
    else if s !in k.sems then (k, Invalid)
    else if k.sems[s] > 0 then (k.(sems := k.sems[s := k.sems[s] - 1]), Ok)
    else if ms == 0 then (k, Timeout)
    else Block(k, Some(SemQ(s)), ms)
  }

  /** `sem_post_common`: a waiter is handed the unit and the count stays. */
  function SemPost(k: K, s: SemId): (K, Code) {
    if s !in k.sems then (k, Invalid)
    else if Q(k, SemQ(s)) != [] then (Wake(k, Q(k, SemQ(s))[0], Ok), Ok)
    else if k.sems[s] == SEM_MAX_COUNT then (k, Overflow)
    else (k.(sems := k.sems[s := k.sems[s] + 1]), Ok)
  }

  /** `aixos_task_yield`. */
  function Yield(k: K): (K, Code) {
    if k.inIsr then (k, Context)
    else (RotateCurrent(k).(resched := true), Ok)
  }

  function RotateCurrent(k: K): K {
    if k.cur.Some? then k.(ready := Rotate(k.ready, Prio(k.tasks, k.cur.value), k.cur.value)) else k
  }

  /** `aixos_task_sleep`. */
  function Sleep(k: K, ms: nat): (K, Code) {
    if k.inIsr then (k, Context)
    else if ms == 0 then Yield(k)
    else Block(k, None, ms)
  }

  function TaskCreate(k: K, t: TaskId, p: int): (K, Code) {
    if k.inIsr || !InRange(p) || t in k.tasks || |k.tasks| >= TASK_LIMIT then (k, Invalid)
    else (k.(tasks := k.tasks[t := Tcb(p, p, Ready, None, [], 0, Ok)],
             ready := Add(k.ready, p, t)), Ok)
  }

  /** `aixos_task_delete`. */
  function TaskDelete(k: K, t: TaskId): (K, Code) {
    if t !in k.tasks then (k, Invalid)
    else if k.tasks[t].held != [] then (k, Busy)
    else if k.cur == Some(t) && k.locked then (k, Locked)
    else
      var k1 := Detach(k.(ready := Remove(k.ready, k.tasks[t].prio, t)), t, Interrupted);
      (k1.(tasks := k1.tasks - {t}, resched := k1.resched || k.cur == Some(t)), Ok)
  }

  /** `aixos_task_suspend`. */
  function TaskSuspend(k: K, t: TaskId): (K, Code) {
    if k.inIsr then (k, Context)
    else if t !in k.tasks || k.tasks[t].state == Suspended then (k, Invalid)
    else if k.cur == Some(t) && k.locked then (k, Locked)
    else
      var k1 := k.(ready := Remove(k.ready, k.tasks[t].prio, t));
      var k2 := if k1.tasks[t].state in {Blocked, Delayed} then Detach(k1, t, Interrupted) else k1;
      (if t in k2.tasks then
         k2.(tasks := k2.tasks[t := k2.tasks[t].(state := Suspended)],
             resched := k2.resched || k.cur == Some(t))
       else k2, Ok)
  }

  /** `aixos_task_resume`. */
  function TaskResume(k: K, t: TaskId): (K, Code) {
    if k.inIsr then (k, Context)
    else if t !in k.tasks || k.tasks[t].state != Suspended then (k, Invalid)
    else (MakeReady(k, t), Ok)
  }

  /** The new base priority takes effect and `t` moves in its queues. */
  function Rebase(k: K, t: TaskId, p: nat): K
    requires t in k.tasks
  {
    Resort(k.(tasks := k.tasks[t := k.tasks[t].(base := p, prio := p)],
              ready := Requeue(k.ready, k.tasks[t].prio, p, t)), t)
  }

  /** `aixos_task_set_priority` with `aixos_mutex_task_priority_changed`. */
  function SetPriority(k: K, t: TaskId, p: int): (K, Code) {
    if !InRange(p) || t !in k.tasks then (k, Invalid)
    else
      var k1 := Rebase(k, t, p);
      var k2 := if WaitsOnMutex(k1, t) && Linked(k1, t)
                then RecomputeOwner(k1, k1.tasks[t].wait.value.mutex) else k1;
      (RequestPreemption(Recompute(k2, t, 0)), Ok)
  }

  /** The loop of `aixos_task_tick` over the rest of the timeout list. */
  function Expire(k: K, todo: seq<TaskId>): K
    decreases |todo|
  {
    if todo == [] || !TickReached(k.now, WakeTick(k.tasks, todo[0])) then k
    else
      var t := todo[0];
      var result := if t in k.tasks && k.tasks[t].state == Delayed then Ok else Timeout;
      Expire(Wake(k, t, result), todo[1..])
  }

  /** `aixos_tick_handler` up to the end of `aixos_task_tick`. */
  function Tick(k: K): K {
    var k1 := k.(now := k.now + 1);
    Expire(k1, k1.timeouts)
  }

  /** `aixos_schedule`. */
  function Schedule(k: K): K {
    var k1 := if k.cur.Some? && k.cur.value in k.tasks && k.tasks[k.cur.value].state == Running
              then k.(tasks := k.tasks[k.cur.value := k.tasks[k.cur.value].(state := Ready)]) else k;
    var next := Highest(k1.ready);
    var k2 := k1.(cur := next, resched := false);
    if next.Some? && next.value in k2.tasks
    then k2.(tasks := k2.tasks[next.value := k2.tasks[next.value].(state := Running)]) else k2
  }
}
