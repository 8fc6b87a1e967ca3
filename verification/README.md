# AIXOS kernel: a verified model

AIXOS is a small fixed-priority real-time kernel written in C. Its data structures are intrusive lists,
ring buffers and bitmaps changed step by step inside short critical sections. This Dafny project models
the parts of it in which several structures have to agree with each other, and proves what they keep.

`dafny verify dfyconfig.toml` checks everything.

## What is modelled

- **Lists** (`Lists`, `IntrusiveList`, `RingTable`): the circular doubly linked list, relinked in place on heap nodes,
  the sequence it stands for, and families of lists that share one node per element.
- **Ready queues** (`ReadyQueue`, `SortedReadyList`, `BitWords`, `Schedulers`): first-in-first-out queues by priority,
  and the two backends, a bitmap of queues and one sorted list, both in place, which always pick the same task.
- **Blocking, priority inheritance, timeouts** (`KernelState`, `Inheritance`, `WaitsFor`, `Timeouts`, `Transitions`,
  `HandOver`, `KernelInvariant`, `KernelCalls`, `TaskCalls`, `Outcomes`, `Answers`, `Preemption`, `KernelRun`,
  `KernelLaws`, `ConcreteRuns`, `Kernel`). `KernelState` says what each call makes of the kernel globals as values. Class `Kernel` is the kernel in
  place: the ready tasks are in the bitmap scheduler, and wait, timeout and held-mutex lists are rings relinked through
  the nodes of tasks and mutexes; its `Valid()` ties all of them to one value, and every method is proved to make of
  that value what the function says. The other files prove the invariant that every call, tick and context switch
  keeps and what it means, every answer of every call, and what is conserved over whole runs.
- **Heap** (`HeapChain`, `Heap`): the best-fit allocator over a chain of guarded headers and one array of bytes.
- **Message queue and pipe** (`Bytes`, `StableQueue`, `MsgQueue`, `Pipe`).
- **Software timers** (`SoftTimers`).
- **POSIX monitors** (`CondVar`, `RwLock`, `Barrier`), as state machines over their critical sections, and as classes.
- **Interrupts** (`Isr`): one step per atomic access, handlers nesting like parentheses at any point; a class does the
  same accesses in place.
- **Identity and integrity** (`Handles`, `Bitmaps`, `ObjectPools`, `Crc`, `CrcRemainder`, `CrashRecord`).

A call is one atomic step wherever the C code runs it with interrupts disabled. A blocking call ends with code
`Parked`; the code it returns later is the task's `result` at its wake-up.

## What is assumed, and where the code differs from what one might expect

- The kernel is modelled after `aixos_start`. Before it `ready_node` is linked to itself, and requeueing would
  enqueue a task that has not been started.
- The code does not detect deadlock. The callers' side of a blocking lock is that the owner chain of the mutex does
  not lead back to the caller; `KernelRun.LockDeadlocksIff` shows that this is exactly what keeps the graph acyclic,
  and `ConcreteRuns.CrosswiseLocksDeadlock` is a run that ends in a deadlock.
- Only mutex wait lists are sorted again when a waiter is boosted, and only for them is sortedness claimed.
- `aixos_mutex_unlock` lowers the releasing task after the wake-up's preemption check and does not check again, so a
  boosted caller goes on running although the task it has just woken outranks it.
  `Preemption.UnlockMissesPreemptionIff` says exactly when a switch is missed, `ConcreteRuns.BoostedUnlockMissesSwitch`
  is a run in which it is; `Outcomes.RunsTheHighest` speaks about the next switch.
- A broadcast frees every thread on the semaphore, but a thread that has given up the mutex and is not there yet can
  lose its token to a thread that starts to wait later (`CondVars.LaterWaiterTakesToken`).
  `CondVars.BroadcastFreesIff` says exactly when everybody who has begun to wait is freed all the same, from what is
  known before the call; `CondVars.SignalFreesIff` does so for a signal, which has to free one of them. Waiting threads
  own the mutex they pass in.
- A signal that comes between a time-out and its discount leaves a token for nobody, which the next wait will take for a
  signal (`CondVars.LateSignalLeavesToken`); `CondVars.UnitsMatchWaiters` bounds such leftovers.
- A writer that times out does not wake the readers it held back (`RwLocks.HeldBackReaderSleepsOn`).
- A barrier wait that fails leaves its arrival counted, so its round still completes at `threshold` arrivals, with one
  thread fewer waiting for it (`Barriers.BarrierHolds` covers this).
- A jump of the tick counter and any running timer's interval together stay within half the counter range;
  `SoftTimers.SignedExactIff` shows that the comparison itself fails beyond it.
- A live task handle is equal to `AIXOS_HANDLE_INVALID` for one generation of the last slot (`Handles.LiveHandle`),
  which a run reaches (`Handles.InvalidHandleReached`). A barrier sleeper that is not given the processor for 2^32 rounds
  goes back to sleep (`Barriers.LeavesIff`, `Barriers.SleeperMissesItsRound`).
- The heap region is 8-aligned and fits 32 bits, and nobody frees a pointer into the middle of a block.
- The read-write lock takes its internal mutex again after every wait.
- Configuration constants have the default values of `config/aixos_cfg.h`, and pointers are 32 bits wide, so a heap
  header is 24 bytes.

## Model

| member | source | states |
|---|---|---|
| IntrusiveLists.AddBetween | kernel/list.h:24-32 | the four pointer writes turn a ring for s into the ring for s with the node inserted at that place; next and prev stay inverse |
| IntrusiveLists.AddTail | kernel/list.h:39-42 | the node becomes the last of the ring |
| IntrusiveLists.AddFirst | kernel/list.h:34-37 | the node becomes the first of the ring |
| IntrusiveLists.Bypass | kernel/list.h:44-48 | two writes leave a ring without exactly the node between |
| IntrusiveLists.Del | kernel/list.h:50-55 | the ring loses exactly that node, whose own links are cleared |
| IntrusiveLists.First | kernel/list.h:57-66 | emptiness and first element agree with the sequence |
| IntrusiveLists.Walk | kernel/list.h:71-72 | following next meets every node once, in order, and ends at the head |
| IntrusiveLists.InsertBefore | kernel/task.c:129-141 | the walk-and-insert of all sorted lists: in front of the first node that must come later, at the end if none |
| RingTables.RingTable.AddHead | kernel/list.h:18-22 | a new list is an empty ring of its own; all other lists of the family stand |
| RingTables.RingTable.AddNode | kernel/task.c:278-281 | a new element is on no list of the family |
| RingTables.RingTable.LinkBefore | kernel/list.h:24-42 | in a family of rings over one node per element: that list gets the element at that place, no other list changes, and each element stays on at most one |
| RingTables.RingTable.Unlink | kernel/task.c:63-71 | the element leaves whatever list it is on, which need not be known, and is on none; no other list changes |
| RingTables.RingTable.Linked | kernel/task.c:63-71 | a node is not linked to itself iff its element is on some list of the family, which is how the kernel tells |
| RingTables.RingTable.Following | kernel/list.h:71-72 | the next pointer leads from one element of the list to the next one, and from the last to the head |
| Lists.WithoutIsDeletion | kernel/list.h:50-55 | unlinking from a list without repetitions removes that element and no other |
| Lists.InsertAtIsAddition | kernel/list.h:24-32 | linking in adds that element and no other, and no repetition |
| ReadyQueue.HighestBelowIsFirst | kernel/sched.c:159-185 | the selected task is the head of a queue above which every queue is empty; none is selected iff all are |
| Schedulers.BitmapScheduler.Enqueue | kernel/sched.c:80-96 | bitmap backend: the task is last of its priority, and each bitmap bit is set iff its queue is not empty |
| Schedulers.BitmapScheduler.Dequeue | kernel/sched.c:98-113 | bitmap backend: exactly that task leaves, the bit is cleared iff its queue became empty |
| Schedulers.BitmapScheduler.Reenqueue | kernel/sched.c:115-130 | bitmap backend: from the old priority to the end of the new one, only if it was queued |
| Schedulers.BitmapScheduler.RotateQueue | kernel/sched.c:132-157 | bitmap backend: the task goes to the end of its own queue |
| Schedulers.BitmapScheduler.FindHighest | kernel/sched.c:159-185 | scanning words and counting leading zeros finds the head of the highest non-empty queue |
| Schedulers.SimpleScheduler.Insert | kernel/sched.c:45-57 | list backend: behind every task of at least its priority |
| Schedulers.SimpleScheduler.InsertAfterSame | kernel/sched.c:59-77 | list backend: the last one of the same priority |
| Schedulers.SimpleScheduler.RotateList | kernel/sched.c:132-157 | list backend: behind the others of its priority, only when one follows |
| SortedReadyList.AddRefines | kernel/sched.c:80-96 | adding to the sorted list is adding to the queues, flattened from high to low |
| SortedReadyList.RemoveRefines | kernel/sched.c:98-113 | removing from the sorted list is removing from the queues |
| SortedReadyList.RequeueRefines | kernel/sched.c:115-130 | requeueing in the sorted list is requeueing in the queues |
| SortedReadyList.RotateRefines | kernel/sched.c:132-157 | rotating in the sorted list is rotating in the queues |
| SortedReadyList.BackendsAgree | kernel/sched.c:44-185 | after every sequence of add, remove, requeue, rotate and select the two backends select the same task |
| BitWords.SetBit | kernel/sched.c:80-96 | or-ing the mask sets that bit of the 64-bit word and no other |
| BitWords.ClearBit | kernel/sched.c:98-113 | and-ing the complement clears that bit and no other |
| BitWords.NonZeroHasBit | kernel/sched.c:166-170 | a word is zero iff it has no bit, so the leading-zero count is only taken when it is defined |
| Kernels.Kernel.EffectivePriority | kernel/ipc/mutex.c:24-40 | the walk over the ring of held mutexes computes the maximum of the base priority and the first waiters |
| Inheritance.MaxTopBounds | kernel/ipc/mutex.c:24-40 | the effective priority is an upper bound of base and first waiters, and is attained |
| Kernels.Kernel.RecomputeChain | kernel/ipc/mutex.c:42-84 | the recursion over ready queues and wait rings computes the recomputation whose properties follow |
| Inheritance.RecomputeRestores | kernel/ipc/mutex.c:42-84 | one upward pass from the only unsettled task restores the fix-point everywhere, keeps all structures, terminates, and never meets its depth cap |
| WaitsFor.PriorityIsTransitiveMaximum | kernel/ipc/mutex.c:24-67 | at the fix-point, without cycles, a priority is the maximum base priority over everything blocked on the task through any chain of mutexes |
| KernelRun.ReachablePriorities | kernel/ipc/mutex.c:24-67 | the same in every state reachable by any sequence of calls, ticks and switches |
| WaitsFor.BlockingIsSafeIff | kernel/ipc/mutex.c:120-159 | one more waiting edge keeps the owner graph acyclic iff the owner chain does not lead back to the caller |
| KernelRun.LockDeadlocksIff | kernel/ipc/mutex.c:120-159 | a lock that blocks leaves no cycle iff the owner chain of the mutex does not reach the caller; the code does not test this |
| ConcreteRuns.CrosswiseLocksDeadlock | kernel/ipc/mutex.c:120-159 | a run from the start state, every call allowed, after which a lock by one of two tasks is accepted and leaves both waiting for each other |
| Transitions.UnlinkSound | kernel/task.c:61-76 | taking a waiter off its list keeps every structural invariant |
| Transitions.DetachKeeps | kernel/task.c:61-76 | detaching a waiter keeps structures, acyclicity and fix-point, and exactly its list memberships are gone |
| Transitions.WakeKeeps | kernel/task.c:455-466 | waking keeps structures, acyclicity and fix-point; the task is ready, in no list, and nobody else changed but for priority |
| Transitions.ParkKeeps | kernel/task.c:406-441 | blocking keeps structures, acyclicity and fix-point when the owner chain does not reach the caller |
| HandOvers.HandOverWakes | kernel/ipc/mutex.c:161-196 | giving the mutex to the first waiter and waking it leaves only the releasing task unsettled |
| KernelCalls.LockStep | kernel/ipc/mutex.c:120-159 | lock keeps the whole invariant; if it blocks, exactly the requested number of ticks remain |
| KernelCalls.UnlockStep | kernel/ipc/mutex.c:161-196 | unlock keeps the whole invariant, in every case |
| KernelCalls.BlockStep | kernel/task.c:406-441 | blocking on a list or on the clock keeps the whole invariant and arms exactly the requested timeout |
| Outcomes.UnlockHandsOn | kernel/ipc/mutex.c:161-196 | the mutex goes to the first waiter, which no other waiter outranks; exactly that one is woken, with success; other tasks change at most in priority |
| Preemption.UnlockMissesPreemptionIff | kernel/ipc/mutex.c:161-196 | unlock returns with the caller outranked and no switch asked for iff none was asked for before, some task that can run (the new owner counted in) is above the priority the other mutexes leave the caller, and, if a waiter was woken, none is above its priority before |
| ConcreteRuns.BoostedUnlockMissesSwitch | kernel/ipc/mutex.c:161-196 | a run from the start state in which a boosted task gives its mutex to the higher task waiting for it and no switch is asked for |
| Answers.LockAnswers | kernel/ipc/mutex.c:120-159 | every answer of lock: a free mutex becomes the caller's with count 1 and joins its held list, its own counts one more, at the limit it overflows, another's is busy, or makes the caller wait; nothing else changes |
| Answers.UnlockAnswers | kernel/ipc/mutex.c:161-196 | every answer of unlock: only the owner may; all but its last only count down; the last leaves the mutex free or hands it on |
| KernelLaws.CountIsLocksToUndo | kernel/ipc/mutex.c:120-196 | over every allowed run a mutex counts its owner's locks less its unlocks since it got the mutex, by lock or by hand-over |
| KernelLaws.ReachableCounts | kernel/ipc/mutex.c:120-196 | the same from the start state on |
| KernelLaws.AsManyUnlocksAsLocks | kernel/ipc/mutex.c:120-196 | after n locks the mutex stays its owner's through n - 1 unlocks and is free after the n-th, for every n up to the limit |
| TaskCalls.MutexDeleteStep | kernel/ipc/mutex.c:198-229 | deleting a mutex, owned or not, keeps the invariant |
| Answers.MutexDeleteAnswers | kernel/ipc/mutex.c:198-229 | every answer of delete: refused while somebody waits; otherwise the mutex is gone, from its owner's held list too, and no priority changes |
| TaskCalls.SetPriorityStep | kernel/task.c:574-596 | a new base priority, with both recomputations, keeps the invariant, the fix-point included |
| Answers.SetPriorityAnswers | kernel/task.c:574-596 | succeeds iff the priority is in range and the task exists; the base priority is then the one asked for, other tasks change at most in current priority, and a switch is asked for iff one was or the current task is now outranked |
| TaskCalls.SetPriorityPasses | kernel/ipc/mutex.c:260-273 | a pass from the waited-for owner and one from the task itself settle everybody |
| TaskCalls.SemWaitStep | kernel/ipc/sem.c:56-82 | semaphore wait keeps the invariant; if it blocks, exactly the requested ticks remain |
| Answers.SemWaitAnswers | kernel/ipc/sem.c:56-82 | every answer of wait: OK iff there is a unit, which then is gone and nothing else changes; TIMEOUT iff there is none and no time; otherwise refused or waiting |
| KernelLaws.UnitStep | kernel/ipc/sem.c:56-106 | every allowed step of any kind: units there and posted are units left and given out, to a wait that finds one or to a waiter handed one |
| KernelLaws.UnitsConserved | kernel/ipc/sem.c:56-106 | over every allowed run the units of a semaphore are neither lost nor made up |
| TaskCalls.SemPostStep | kernel/ipc/sem.c:84-106 | post keeps the invariant: a semaphore with waiters has no units |
| Outcomes.PostGoesToFirst | kernel/ipc/sem.c:84-106 | with waiters the unit is handed to the first and the count stands still; without, it is counted; at the limit it is refused |
| Answers.PostAsks | kernel/ipc/sem.c:84-106 | a post that wakes a task asks for a switch iff one was asked for or the current task is then outranked |
| Answers.BlockAnswers | kernel/task.c:406-441 | every answer of a blocking call: refused without effect outside a task or under the scheduler lock, else exactly the caller waits, where asked, and a switch is asked for |
| Answers.WakeAnswers | kernel/task.c:455-466 | a wake-up touches no mutex, semaphore or environment and asks for a switch iff the current task is then outranked or one was asked for |
| Outcomes.PreemptionIff | kernel/sched.c:187-196 | the test for preemption asks for a switch iff a task that can run is above the current one, or there is none |
| TaskCalls.SuspendStep | kernel/task.c:523-552 | suspending any task, blocked, ready or running, keeps the invariant |
| Answers.SuspendAnswers | kernel/task.c:523-552 | every answer of suspend: the task is suspended and a wait of its is over as interrupted; nobody else changes but in priority |
| TaskCalls.ResumeStep | kernel/task.c:554-572 | resuming keeps the invariant |
| Answers.ResumeAnswers | kernel/task.c:554-572 | every answer of resume: the task is ready and last in its queue, nothing else changes, and a switch is asked for iff due |
| TaskCalls.DeleteStep | kernel/task.c:354-404 | deleting keeps the invariant |
| Answers.DeleteAnswers | kernel/task.c:354-404 | every answer of delete: refused to a holder of mutexes; otherwise the task is gone from everywhere and nobody else changes but in priority |
| Answers.TaskCreateAnswers | kernel/task.c:194-312 | a new task is ready, last in the queue of the priority asked for, holds nothing and is on no list |
| Answers.MutexCreateAnswers | kernel/ipc/mutex.c:86-118 | a new mutex is free and nobody waits for it |
| Answers.SemCreateAnswers | kernel/ipc/sem.c:21-54 | a new semaphore has the units asked for and nobody waits on it |
| TaskCalls.CreateStep | kernel/task.c:194-312 | creating keeps the invariant |
| TaskCalls.ScheduleStep | kernel/sched.c:198-220 | the context switch keeps the invariant; only the states of the task that stops and the one that starts change |
| TaskCalls.SleepStep | kernel/task.c:491-504 | sleep keeps the invariant and arms exactly the requested ticks |
| Answers.SleepAnswers | kernel/task.c:491-504 | every answer of sleep; for no time it is a yield |
| TaskCalls.YieldStep | kernel/task.c:506-516 | yield keeps the invariant |
| Answers.YieldAnswers | kernel/task.c:506-516 | the caller goes behind the others of its priority and a switch is asked for; nothing else changes |
| Outcomes.SuspendStops | kernel/task.c:523-552 | a suspended task is in no ready queue, wait list or timeout list |
| Outcomes.DeleteForgets | kernel/task.c:354-404 | only a task without mutexes is deleted, and then no list and no owner field names it |
| Outcomes.RunsTheHighest | kernel/sched.c:198-220 | after the switch the running task has the highest priority of all that can run, and one runs iff one can |
| KernelRun.ApplyKeeps | kernel/task.c:61-76 | every call, tick and switch keeps the whole invariant, and only the tick moves time |
| KernelRun.RunKeeps | kernel/task.c:406-466 | so does every sequence of them |
| KernelRun.ReachableLists | kernel/task.c:61-76 | in every reachable state: in a ready queue, that of its priority, iff ready or running; in its recorded wait list iff blocked; timed only if blocked or delayed; no list twice; mutex waiters sorted |
| Kernels.Kernel.constructor | kernel/task.c:183-192 | empty rings, empty bitmap and no task stand for the start state, which satisfies the invariant |
| Kernels.Kernel.FindWaiterPlace | kernel/task.c:78-91 | the walk along the ring finds the place in front of the first waiter of lower priority |
| Kernels.Kernel.FindTimerPlace | kernel/task.c:129-141 | the walk along the ring by signed difference finds the specified place |
| Kernels.Kernel.WithFirstWaiter | kernel/ipc/mutex.c:29-38 | emptiness and first node of the wait ring give the priority of the first waiter |
| Kernels.Kernel.ResortWaiter | kernel/task.c:443-453 | relinking the node of a boosted waiter puts it where the specification has it, whatever ring it is in |
| Kernels.Kernel.Reprice | kernel/ipc/mutex.c:42-67 | priority, ready queue and bitmap, and wait ring move together |
| Kernels.Kernel.RecomputeOwnerOf | kernel/ipc/mutex.c:236-245 | recomputation from the owner of the mutex that gained or lost a waiter |
| Kernels.Kernel.LeaveList | kernel/task.c:61-70 | whether the node is linked decides; unlinking it recomputes the owner it waited for |
| Kernels.Kernel.DetachWait | kernel/task.c:61-76 | wait and timeout nodes are unlinked where they are linked; what results is the specified detachment |
| Kernels.Kernel.Wake | kernel/task.c:455-466 | rings, ready queue, bitmap and flag end up as the specified wake-up |
| Kernels.Kernel.BlockCurrent | kernel/task.c:406-441 | off the ready queue, into the wait ring by priority and the timeout ring by time: the specified block, or its refusal |
| Kernels.Kernel.LockMutex | kernel/ipc/mutex.c:120-159 | every outcome of lock as `Answers.LockAnswers` tells them, the node of a mutex acquired linked into the ring of held ones |
| Kernels.Kernel.ReleaseMutex | kernel/ipc/mutex.c:181-193 | the mutex node goes from one ring of held mutexes to that of the first waiter, which is woken |
| Kernels.Kernel.UnlockMutex | kernel/ipc/mutex.c:161-196 | every outcome of unlock refines the specification |
| Kernels.Kernel.DeleteMutex | kernel/ipc/mutex.c:198-229 | every outcome of delete; the mutex node and its empty wait ring go away |
| Kernels.Kernel.WaitSem | kernel/ipc/sem.c:56-82 | every outcome of wait as `Answers.SemWaitAnswers` tells them |
| Kernels.Kernel.PostSem | kernel/ipc/sem.c:84-106 | the first node of the wait ring is the task woken; every outcome of post |
| Kernels.Kernel.RotateRunning | kernel/sched.c:132-157 | the running task goes to the end of its ready queue, bitmap included |
| Kernels.Kernel.CreateTask | kernel/task.c:194-312 | a task gets its nodes, an empty held ring and a place in the ready queue, or is refused |
| Kernels.Kernel.DeleteTask | kernel/task.c:354-404 | only a task with an empty held ring; it leaves every structure and its nodes go away |
| Kernels.Kernel.SuspendTask | kernel/task.c:523-552 | the task leaves ready queue, wait ring and timeout ring as specified |
| Kernels.Kernel.ResumeTask | kernel/task.c:554-572 | every outcome of resume refines the specification |
| Kernels.Kernel.ChangePriority | kernel/task.c:574-596 | every outcome of a priority change as `Answers.SetPriorityAnswers` tells them, with both recomputations |
| Kernels.Kernel.ExpireTimeouts | kernel/task.c:468-489 | the walk that keeps the next node before it wakes a task, with its early break, treats the tasks of the specified expiry |
| Kernels.Kernel.HandleTick | kernel/sched.c:222-249 | one tick: the counter and the expiry |
| Kernels.Kernel.SwitchContext | kernel/sched.c:198-220 | the bitmap scan selects the task the specification selects |
| Kernels.Kernel.Perform | kernel/task.c:61-76 | whatever allowed call is made, rings, queues, bitmap and rows go on standing for the specified state, which keeps the whole invariant |
| Timeouts.SignedIsRemaining | kernel/task.c:39-42 | the signed 32-bit difference of two wake ticks is the difference of the times remaining |
| Timeouts.MsToTicksExact | kernel/task.c:93-107 | the tick count of a request: itself up to 2^31-1, forever only for the largest number |
| Timeouts.RetryKeepsDeadline | kernel/task.c:109-127 | a retried wait has the wake tick of the first one, across the wrap, and nothing is left iff the time is up |
| Timeouts.InsertKeepsSoonestFirst | kernel/task.c:129-141 | insertion by signed difference keeps the list in order of time remaining |
| TaskCalls.TickExact | kernel/task.c:468-489 | a tick wakes exactly the tasks with one tick to go and brings every other listed one a tick nearer; the early break misses nobody |
| Answers.TickAnswers | kernel/task.c:468-489 | a tick touches no mutex or semaphore, forgets no request, and asks for a switch if it woke a task and the current one is then outranked |
| KernelRun.TimeRunsDown | kernel/task.c:468-489 | while a task stays listed its remaining time falls by exactly the ticks that pass |
| KernelRun.WokenOnTheTick | kernel/task.c:468-489 | a task with k ticks to go, not woken otherwise, is woken by the k-th tick |
| KernelRun.TimedCallsExact | kernel/task.c:406-489 | lock, semaphore wait and sleep time out in exactly the tick they asked for, never before or after, wherever the counter stands |
| HeapChain.AllocKeepsShape | kernel/heap.c:163-191 | allocation keeps the blocks tiling the pool, multiples of 8, no two free neighbours, and adds the block and its header to the bytes used |
| HeapChain.CarveWastesLittle | kernel/heap.c:163-191 | the block is split iff more than a header and a smallest payload would be left, so at most that much is handed out beyond the request |
| HeapChain.FreeKeepsShape | kernel/heap.c:269-303 | release with two-sided coalescing keeps the same and takes the block and its header off |
| HeapChain.FreeUndoesAlloc | kernel/heap.c:114-306 | allocating and freeing restores the very same blocks |
| HeapChain.RunsKeepShape | kernel/heap.c:114-306 | the shape holds after any run of allocations and releases |
| HeapChain.EmptiedHeapIsWhole | kernel/heap.c:114-306 | whatever was taken, and in whatever order it was released, an empty heap is the one initial block |
| HeapChain.BytesConserved | kernel/heap.c:308-341 | bytes in use, free payload and one header per free block add up to the pool |
| Heaps.SplitLinked | kernel/heap.c:164-184 | the header writes of a split leave the chain of headers of the split blocks, guards and back links included |
| Heaps.ReleaseLinked | kernel/heap.c:269-303 | the header writes of a release leave the chain of headers of the joined blocks |
| Heaps.PayloadsDisjoint | kernel/heap.c:114-198 | payload and canary of different blocks are disjoint, and no header lies in either |
| Heaps.GrantedKeeps | kernel/heap.c:114-198 | an allocation changes no byte of any other live payload |
| Heaps.FreeKeepsOthers | kernel/heap.c:251-306 | a release keeps every other live block and its payload |
| Heaps.CanariesAfterAlloc | kernel/heap.c:63-77 | after an allocation every canary is intact |
| Heaps.CanariesAfterFree | kernel/heap.c:63-77 | after a release every canary is intact |
| Heaps.Heap.constructor | kernel/heap.c:79-112 | the region is the caller's rounded down, or the built-in pool, as one free block |
| Heaps.Heap.FindBest | kernel/heap.c:140-156 | the walk finds the first of the smallest free blocks that fit, or none if none fits, and meets no damaged header |
| Heaps.Heap.Take | kernel/heap.c:164-184 | in place: the chosen block is split or taken whole, and every header is right again |
| Heaps.Heap.Allocate | kernel/heap.c:114-198 | fails exactly when refused outright or nothing fits; otherwise a first smallest fitting block is carved, filled and guarded, and no other byte changes; every counter is stated |
| Heaps.RefusedIff | kernel/heap.c:114-138 | refused outright iff called from an interrupt, too large for its caller or for the arithmetic, or from outside the kernel on a locked heap |
| Heaps.EnoughRoomIsGranted | kernel/heap.c:131-161 | a free block with room for payload, canary and rounding is enough |
| Heaps.Heap.Coalesce | kernel/heap.c:270-303 | the writes of a release, in order, leave the headers of the chain in which the block and its free neighbours are one |
| Heaps.Heap.Free | kernel/heap.c:251-306 | releases exactly the live pointers: these pass the range, alignment, header, magic, canary and adjacency tests and join their free neighbours; a null, out-of-range or misaligned pointer changes nothing, a block that is already free is counted as corruption |
| Heaps.Heap.Realloc | kernel/heap.c:218-249 | success moves the first min(old, new) bytes and releases the old block; failure, exactly when refused or nothing fits, changes nothing; no other payload changes |
| Heaps.Heap.Check | kernel/heap.c:343-370 | on any memory contents it accepts exactly an intact chain: guards, inverse links, contiguous blocks, canaries |
| Heaps.Heap.CheckAccepts | kernel/heap.c:343-370 | a heap in a reachable state is always accepted |
| Heaps.Heap.MemInfo | kernel/heap.c:308-341 | used bytes are the counter plus a header per free block; largest free block and fragmentation are right |
| Heaps.Heap.Lockdown | kernel/heap.c:372-380 | locks the heap for good, but not from an interrupt |
| StableQueue.QueuedSorted | kernel/ipc/mq.c:160-190 | queueing keeps the messages in order of priority |
| StableQueue.QueuedIsLast | kernel/ipc/mq.c:160-190 | queueing appends within its own priority and leaves every other priority alone |
| StableQueue.FrontIsFirst | kernel/ipc/mq.c:281-294 | the front is the oldest message of the highest priority there is |
| StableQueue.SortedIsDetermined | kernel/ipc/mq.c:160-203 | a sorted queue is determined by its messages of each priority in order, so this is the only stable priority queue |
| StableQueue.RunsConserve | kernel/ipc/mq.c:120-302 | over any run, of each priority: what was there and was sent is, in order, what was received and is left |
| MsgQueues.MsgQueue.FindInsert | kernel/ipc/mq.c:172-180 | the ring search finds the place behind all messages of equal or higher priority |
| MsgQueues.MsgQueue.Shift | kernel/ipc/mq.c:181-194 | the backward slot copies move every later message one place on, across the wrap |
| MsgQueues.MsgQueue.Place | kernel/ipc/mq.c:160-203 | search result, shift and store are one sequence insertion |
| MsgQueues.MsgQueue.Send | kernel/ipc/mq.c:120-211 | one attempt: the code, and the contents of the stable queue with the message, or unchanged |
| MsgQueues.MsgQueue.Receive | kernel/ipc/mq.c:241-302 | one attempt: the front leaves if it fits; too small a buffer learns the size and changes nothing |
| Pipes.CheckIff | kernel/ipc/pipe.c:96-104 | a transfer is turned away iff it is too long for its caller or made from the wrong context |
| Pipes.Pipe.Write | kernel/ipc/pipe.c:89-152 | as many bytes as fit are appended; everything written is everything read followed by the ring contents |
| Pipes.Pipe.Read | kernel/ipc/pipe.c:154-214 | the oldest bytes leave, as many as asked for and present |
| Pipes.Pipe.CopyIn | kernel/ipc/pipe.c:134-141 | the two copies fill the next cells round the ring and touch no queued byte |
| Pipes.Pipe.CopyOut | kernel/ipc/pipe.c:196-203 | the two copies read the queued bytes in order |
| Pipes.RunIsFifo | kernel/ipc/pipe.c:89-214 | over any run of partial transfers: what was there and all accepted bytes are what came out and what is left, in order |
| SoftTimers.SignedExactIff | kernel/timer.c:30-33 | the signed comparison of two deadlines is right iff they are less than half the counter range apart |
| SoftTimers.CaughtUpIs | kernel/timer.c:206-209 | a periodic deadline moves by whole intervals to the first one after now, at most one interval away |
| SoftTimers.ExpiredExact | kernel/timer.c:206-209 | the 32-bit catch-up computes that deadline modulo 2^32 |
| SoftTimers.TimerService.ActiveInsert | kernel/timer.c:35-47 | the timer goes behind every deadline not later than its own, and the list stays in order |
| SoftTimers.TimerService.Create | kernel/timer.c:62-104 | a new timer is on no list |
| SoftTimers.TimerService.Start | kernel/timer.c:106-135 | falls due exactly the interval from now; every refusal |
| SoftTimers.TimerService.Stop | kernel/timer.c:137-163 | off both lists, whatever lists it was on |
| SoftTimers.TimerService.ExpireFirst | kernel/timer.c:198-217 | one pass of the loop in place |
| SoftTimers.MidwayNext | kernel/timer.c:198-217 | a pass deals with exactly the next due timer and a re-inserted one lands behind all that are still due, so the loop ends |
| SoftTimers.TickedIs | kernel/timer.c:198-217 | at the end no timer is due and exactly the formerly due ones were treated |
| SoftTimers.TimerService.Tick | kernel/timer.c:193-218 | for any jump within half the range: each formerly due timer is pending, once; one-shots stop; periodic ones go on; others are unchanged |
| SoftTimers.TimerService.NextCallback | kernel/timer.c:227-249 | callbacks are taken in the order in which they were queued |
| CondVars.StepKeeps | compat/posix/posix.c:765-840 | every step keeps waiters plus tokens at least the number of threads that wait or are not yet discounted |
| CondVars.NoLostWakeUp | compat/posix/posix.c:765-840 | over all interleavings a signal unblocks a thread if any is blocked, and a broadcast unblocks them all |
| CondVars.UnitsMatchWaiters | compat/posix/posix.c:765-840 | over every run from a fresh condition, counted waiters and tokens are at least the waiting threads and at most those plus the discounts that found nothing left to take |
| CondVars.TimeOutsLeaveNothing | compat/posix/posix.c:765-809 | while nobody signals no wait ends as signalled, and once nobody waits there is neither a unit nor a token |
| CondVars.LateSignalLeavesToken | compat/posix/posix.c:765-823 | a run in which a signal between a time-out and its discount leaves a token for nobody |
| CondVars.SignalUnblocks | compat/posix/posix.c:811-823 | exactly the first blocked thread is unblocked |
| CondVars.BroadcastUnblocksAll | compat/posix/posix.c:825-840 | nobody is left on the semaphore and there is a token for everyone on the way to it |
| CondVars.NobodyBlocksIff | compat/posix/posix.c:765-840 | with nobody on the semaphore: over all runs in which at most n threads start to wait nobody blocks iff there are tokens for everyone on the way and n more |
| CondVars.BroadcastFreesIff | compat/posix/posix.c:825-840 | every thread that has begun to wait when the broadcast comes, and does not begin again, is off the wait list for good, whatever at most n later waiters do, iff nobody is on the way to the semaphore, or there is no other thread, or the tokens and counted waiters, less those for the wait list and capped at the semaphore maximum, cover those on the way and n; the condition can be read off before the call |
| CondVars.SignalFreesIff | compat/posix/posix.c:811-823 | some thread that has begun to wait when the signal comes is off the wait list for good, whatever at most n later waiters do, iff there is one and the wait list is not empty, or every thread is on the way, or more than n tokens are there with the one the signal adds |
| CondVars.WakeUpsInReach | compat/posix/posix.c:765-840 | both exact conditions hold in every reachable state, and with no later waiter broadcast frees all and signal frees one, always |
| CondVars.LaterWaiterTakesToken | compat/posix/posix.c:765-840 | a run from the initial state in which a later waiter takes the token and the broadcast leaves a thread blocked |
| CondVars.Condition.SignalOne | compat/posix/posix.c:811-823 | in place: exactly the first thread leaves the wait list and wakes up; an empty list stays empty; the invariant is kept |
| CondVars.Condition.BroadcastAll | compat/posix/posix.c:825-840 | the loop with its early exit posts what the specification posts: afterwards nobody is on the wait list and every thread that was is waking up |
| CondVars.Condition.Perform | compat/posix/posix.c:765-840 | every critical section in place, keeping the invariant |
| RwLocks.StepKeeps | compat/posix/posix.c:926-1077 | every critical section keeps the lock invariant, time-outs and spurious wake-ups included |
| RwLocks.LockIsSafe | compat/posix/posix.c:909-1077 | in every reachable state a writer excludes readers, readers is the sum of the counts, no thread is listed twice, counts are the granted locks, and only a holder can unlock |
| RwLocks.UnlockIffHolder | compat/posix/posix.c:1043-1077 | unlock succeeds iff the caller holds the lock |
| RwLocks.ReadLockIff | compat/posix/posix.c:926-970 | every answer of a read lock: granted iff nobody writes, nobody waits to write or the caller reads already, fewer than 2^32-1 locks are out and the table has room; what changes is stated |
| RwLocks.WriteLockIff | compat/posix/posix.c:989-1024 | every answer of a write lock: granted iff nobody holds the lock; busy iff the caller holds it or a try would wait |
| RwLocks.WakeIff | compat/posix/posix.c:943-970 | every answer of a wait that ends: failed iff the wait failed, else granted on the same terms or asleep again |
| RwLocks.UnlockSignals | compat/posix/posix.c:1043-1077 | an unlock signals writers iff one sleeps and nobody holds the lock, readers iff nobody writes or waits to; so all sleepers that could go on, and no others |
| RwLocks.ReachableSleepers | compat/posix/posix.c:926-1024 | in every reachable state a sleeper holds no read lock, and a sleeping writer not the lock |
| RwLocks.HeldBackReaderSleepsOn | compat/posix/posix.c:1003-1013 | a run in which a writer times out and a reader it held back sleeps on although it could have the lock |
| RwLocks.RwLock.ReaderSlot | compat/posix/posix.c:909-924 | the scan finds the thread's entry, else on request the first free one |
| RwLocks.RwLock.ReadLock | compat/posix/posix.c:926-970 | every outcome of a read lock up to return or sleep |
| RwLocks.RwLock.WriteLock | compat/posix/posix.c:989-1024 | every outcome of a write lock up to return or sleep |
| RwLocks.RwLock.Wake | compat/posix/posix.c:944-955 | a sleeper goes on: fails, sleeps again, or gets the lock |
| RwLocks.RwLock.Unlock | compat/posix/posix.c:1043-1077 | every outcome of unlock, and whom it signals |
| Barriers.RunsKeep | compat/posix/posix.c:1132-1159 | over every run arrivals are the threshold times completed generations plus the count |
| Barriers.BarrierHolds | compat/posix/posix.c:1132-1159 | nobody is released from a round before threshold arrivals of it; each complete round has exactly one closing thread; every arrival sleeps or has left |
| Barriers.LeavesIff | compat/posix/posix.c:1150-1158 | a woken sleeper leaves iff the rounds completed since are not a multiple of 2^32 |
| Barriers.StepAnswers | compat/posix/posix.c:1139-1159 | what each thread gets: the one that completes a round is the serial one unless its broadcast failed, others sleep; a failed wait leaves with its error, another leaves iff the generation changed |
| Barriers.SleeperOutlasts | compat/posix/posix.c:1132-1159 | for every threshold above 1 and every n there is a run from the start in which n rounds complete while a thread that arrived in the first has not left |
| Barriers.SleeperMissesItsRound | compat/posix/posix.c:1150-1158 | after 2^32 rounds of such a run the sleeper wakes and goes back to sleep although its round is over |
| Barriers.Barrier.Arrive | compat/posix/posix.c:1139-1149 | arrival in place: the last one closes the round, others sleep |
| Barriers.Barrier.Wake | compat/posix/posix.c:1150-1158 | waking in place: leave, fail or sleep again |
| Isr.StepKeeps | kernel/isr.c:139-221 | every atomic access of any handler or task keeps the invariant |
| Isr.NoRequestLost | kernel/isr.c:139-221 | over all interleavings the flag is set only while a handler or lock is open or the last exit is on its way to it, and once all is quiet no deferred request is owed |
| Isr.OnlySwitchesSettle | kernel/isr.c:149-168 | a deferred request is settled only by a context switch, and none happens under nesting or the scheduler lock |
| Isr.ExitNeverRetries | kernel/isr.c:149-168 | with interrupts nested like parentheses the compare and exchange of an exit succeeds at once |
| Isr.HandlerRequestIsDue | kernel/isr.c:175-183 | a request under nesting sets the flag and nothing else |
| Isr.TaskRequestIsDue | kernel/isr.c:175-183 | a request by a task asks for the switch at once or, under the scheduler lock, sets the flag |
| Isr.LockNests | kernel/isr.c:185-221 | an unlock takes back what a lock did unless it is the last and finds the flag set; without a lock it does nothing |
| Isr.DueIsServed | kernel/isr.c:149-221 | from any state in which a switch is due (flag set, request owed, or the last exit or unlock has taken the flag), through any further interrupts, requests and calls: once no handler is open and nothing is locked the switch has been asked for |
| Isr.LeftAloneDueIsServed | kernel/isr.c:149-168 | left alone, the open handlers return within a stated number of accesses, and unless the scheduler is locked the switch has then been asked for, or is by the next access of an unlock |
| Isr.LastUnlockServes | kernel/isr.c:198-221 | the last unlock with the flag set takes the flag and asks for the switch |
| Isr.DispatchKeeps | kernel/isr.c:175-221 | when the switch takes place the flag is clear and nothing is owed |
| Isr.Interrupts.Perform | kernel/isr.c:139-221 | in place, whatever access comes next: the counters keep the invariant, only a switch outside nesting and locks settles a request, and a switch that is due stays due |
| Handles.MakeExact | include/aixos/types.h:11-16 | index and generation can be read back; which one handle is 0 and which one looks invalid |
| Handles.GenerationRepeats | kernel/object.c:88-91 | a generation recurs exactly after multiples of 2^24-1 allocations of the slot |
| Handles.AllocAnswers | kernel/object.c:138-167 | an allocation fails iff all slots are in use; else the lowest free one holds the object in its next generation and no other changes |
| Handles.FreeAnswers | kernel/object.c:185-210 | freeing frees that slot if it is in use and changes no other |
| Handles.LiveHandle | kernel/object.c:169-231 | a live handle is not 0 and leads to its object; it equals the invalid handle iff index 255 and the last generation |
| Handles.SlotReached | kernel/object.c:138-210 | from an empty table, for every slot and every n > 0 there is a run after which the slot is in use and has been allocated n times |
| Handles.InvalidHandleReached | kernel/object.c:64-98 | a run from the empty table of 256 slots ends with a live handle equal to the invalid one |
| Handles.HandleLater | kernel/object.c:138-231 | over any run a handle leads to its own object until freed, then to nothing until its slot has been allocated again a multiple of 2^24-1 times |
| ObjectPools.LowestBit | kernel/object.c:149-156 | the shift loop finds the lowest set bit |
| ObjectPools.Pool.constructor | kernel/object.c:127-135 | all slots free, and the bitmap says so |
| ObjectPools.Pool.Allocate | kernel/object.c:138-167 | the lowest free slot in its next generation, or -1 iff none; bitmap and used flags agree |
| ObjectPools.Pool.Release | kernel/object.c:185-210 | frees a used slot, nothing otherwise; bitmap and used flags agree |
| ObjectPools.Pool.Usage | kernel/object.c:271-279 | the bit count is the number of used slots |
| ObjectPools.FlatFirstFree | kernel/object.c:64-98 | the lowest free slot over all pages is that of the first page with room |
| ObjectPools.TaskTable.Allocate | kernel/object.c:64-98 | the paged table behaves as one table of 256 slots; it fails iff full, or the first page with room is missing and there is no memory |
| ObjectPools.TaskTable.Release | kernel/object.c:185-210 | the same for freeing a task slot |
| ObjectPools.TaskTable.Lookup | kernel/object.c:212-231 | the same for resolving a task handle |
| Crc.ShiftLinear | kernel/crash.c:22-28 | the shift-and-exclusive-or step is linear |
| Crc.ShiftBijective | kernel/crash.c:22-28 | the step is a bijection of 32-bit registers |
| Crc.EightSteps | kernel/crash.c:22-28 | eight steps bring a byte down untouched |
| Crc.Differences | kernel/crash.c:20-29 | over up to four bytes the registers differ by the shifted word of the byte differences |
| Crc.BurstDetected | kernel/crash.c:15-30 | for any length, a change confined to four consecutive bytes changes the checksum |
| CrcRemainder.PolynomialIsGenerator | kernel/crash.c:25-26 | the constant of the loop is the generator of CRC-32, given by its exponents, without the leading term |
| CrcRemainder.ShiftTimesX | kernel/crash.c:24-27 | a step multiplies the register by x and takes away the generator when the top coefficient falls off |
| CrcRemainder.RemainderIsUnique | kernel/crash.c:15-30 | a polynomial leaves one remainder below x^32 by the generator |
| CrcRemainder.ChecksumIsRemainder | kernel/crash.c:15-30 | for any message, the complement of the checksum is that remainder of the message times x^32 with its first 32 bits inverted, and no other polynomial is |
| Crc.Compute | kernel/crash.c:15-30 | the nested loops compute the checksum |
| CrashRecords.CoveredInjective | kernel/crash.c:20-21 | the covered bytes determine every covered field |
| CrashRecords.AlteredRecordRejected | kernel/crash.c:32-41 | a valid record altered within four consecutive covered bytes is reported as corrupt |
| CrashRecords.NextChecks | kernel/crash.c:43-72 | the stored record checks once, and only once, its magic number is in place |
| CrashRecords.NextReports | kernel/crash.c:43-72 | the record tells the fault, task and tick that were reported |
| CrashRecords.CrashStore.Store | kernel/crash.c:43-72 | the new record checks, tells what was reported and is numbered after the previous valid one, else 1; no intermediate record checks |
| CrashRecords.CrashStore.Get | kernel/crash.c:84-89 | a record is returned iff it checks |
| CrashRecords.CrashStore.Clear | kernel/crash.c:91-94 | the cleared record does not check |

## Left out

- Kernels.Kernel.BlockCurrent: the result a blocked caller reads after it runs again is the task's `result` in the state, not a return value of the call, because the call and its return are two steps.
- Kernels.Kernel.SwitchContext: registers, stacks, stack guards, switch counters and the trace hook are not part of this model.
- Kernels.Kernel.HandleTick: run-time and idle counters and the time slice are not part of this model; rotation of the current task is `YieldCpu` without the request.
- Answers.MutexCreateAnswers: the limit of the object pools is modelled in `ObjectPools`, not in the kernel state; the same holds for semaphores.
- Kernels.Kernel.CreateTask: memory for stack and control block and the checks of names, entry points and stack sizes are not part of this model.
- Heaps.Heap.Free: a pointer into the middle of a block is left to the caller, as what the code then reads as a header is that block's contents; `corruption_count` is the result `corrupt`; the branches for damaged headers, which a valid heap never takes, are left out in `FindBest`, and `Check` models detection on arbitrary memory.
- Heaps.Heap.Allocate: header fields are kept apart from the bytes between them, so a write through a payload pointer cannot damage a header in the model.
- MsgQueues.MsgQueue.Send: one attempt; blocking, retrying and waking a receiver are the kernel's blocking calls and are not repeated here.
- MsgQueues.MsgQueue.Receive: one attempt, for the same reason.
- Pipes.Pipe.Write: one attempt, for the same reason; so is `Read`.
- SoftTimers.TimerService.Tick: waking the timer service task is left out; so are the callbacks themselves, which are foreign code.
- CondVars.StepKeeps: the 32-bit wrap of `waiters` is not modelled, as it would take 2^32 timed-out waits that were also signalled.
- RwLocks.RwLock.Unlock: an error of the condition signal itself is not modelled; whom it signals is.
- RwLocks.StepKeeps: the 32-bit wrap of `waiting_writers` is not modelled, as it would take 2^32 threads.
- Isr.NoRequestLost: the nesting high-water mark, the overflow record and the 32-bit wrap of the counters are not part of this model.
- ObjectPools.TaskTable.Allocate: pages are values in an array, so a pointer into a page is not modelled.
- Kernels.Kernel.EffectivePriority: the scalar fields of tasks and mutexes are rows of maps by identity rather than fields of heap objects; their list nodes and list heads are heap objects. A ready queue is a sequence in the scheduler's array rather than a ring.
- The wait lists of message queues, pipes, events and the timer service are not lists of `Kernels.Kernel`; they use the same block and wake-up as a semaphore.
- The 64-bit tick counter is unbounded; its low 32 bits are what timeouts use, and these wrap.
- NULL pointers, handles of other types and the range checks on pool numbers are represented by absent keys.
- Timer, queue, pipe and semaphore deletion and the pools' registration tables: easy members.
- `kernel/timewheel.c`: nothing in the kernel inserts into it, and its cascade can put a task back into the slot it is emptying.
- `kernel/ipc/event.c`: a woken CLEAR waiter tests flags that were already cleared on its behalf, so its blocking waits do not meet their description.
- Synchronous channels in `kernel/microkernel.c`: a reply looks for a message that receive has already unlinked.
- POSIX timers, attributes, thread-specific data, named objects and descriptors; memory pools, trace, namespace, notifications, strings: easy members.
- Architecture ports, start-up, memory protection and tools: hardware or foreign code.
