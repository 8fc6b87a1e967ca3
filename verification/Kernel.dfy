/** The kernel as it works in place: ready tasks in a bitmap of queues, and wait, timeout and
    held lists as rings through one node each of every task and every mutex. */
module Kernels {
  import opened Lists
  import opened IntrusiveLists
  import opened RingTables
  import opened Schedulers
  import opened ReadyQueue
  import opened KernelState
  import KernelInvariant
  import KernelCalls
  import KernelRun
  import TaskCalls

  /** The fields of a task control block that are not list nodes. */
  datatype Row = Row(base: nat, prio: int, state: TaskState, wait: Option<WaitList>, wakeTick: nat, result: Code)

  function WithRow(t: Tcb, row: Row): Tcb {
    Tcb(row.base, row.prio, row.state, row.wait, t.held, row.wakeTick, row.result)
  }

  function RowOf(t: Tcb): Row { Row(t.base, t.prio, t.state, t.wait, t.wakeTick, t.result) }

  /** The one list of tasks that wait for a time. */
  const CLOCK: nat := 0

  ghost predicate SameRows(rows: map<TaskId, Row>, tasks: map<TaskId, Tcb>) {
    rows.Keys == tasks.Keys && forall t :: t in rows ==> rows[t] == RowOf(tasks[t])
  }

  ghost predicate SameHeld(lists: map<TaskId, seq<nat>>, tasks: map<TaskId, Tcb>) {
    lists.Keys == tasks.Keys && forall t :: t in tasks ==> lists[t] == tasks[t].held
  }

  predicate Waitable(k: K, l: WaitList) { if l.MutexQ? then l.mutex in k.mutexes else l.sem in k.sems }

  /** Every object that can be waited for has a list, and nothing waits elsewhere. */
  ghost predicate SameWait(lists: map<WaitList, seq<nat>>, k: K) {
    && (forall l :: l in lists <==> Waitable(k, l))
    && (forall l :: Q(k, l) == if l in lists then lists[l] else [])
  }

  /** A task on a wait list names that list. */
  ghost predicate Named(k: K) {
    forall l, t :: t in Q(k, l) ==> t in k.tasks && k.tasks[t].wait == Some(l)
  }

  /** The state but for tasks and lists. */
  datatype Rest = Rest(mutexes: map<MutexId, Mutex>, sems: map<SemId, nat>, now: nat, cur: Option<TaskId>,
                       inIsr: bool, locked: bool, resched: bool)

  function RestOf(k: K): Rest { Rest(k.mutexes, k.sems, k.now, k.cur, k.inIsr, k.locked, k.resched) }

  lemma RowSet(rows: map<TaskId, Row>, tasks: map<TaskId, Tcb>, t: TaskId, tcb: Tcb)
    requires SameRows(rows, tasks)
    ensures SameRows(rows[t := RowOf(tcb)], tasks[t := tcb])
  {}

  lemma RowGot(rows: map<TaskId, Row>, tasks: map<TaskId, Tcb>, t: TaskId)
    requires SameRows(rows, tasks)
    ensures t in rows <==> t in tasks
    ensures t in rows ==> rows[t] == RowOf(tasks[t]) && Prio(tasks, t) == rows[t].prio
  {}

  lemma HeldKept(lists: map<TaskId, seq<nat>>, tasks: map<TaskId, Tcb>, t: TaskId, tcb: Tcb)
    requires SameHeld(lists, tasks) && t in tasks && tcb.held == tasks[t].held
    ensures SameHeld(lists, tasks[t := tcb])
  {}

  /** One task's fields change; its lists do not. */
  lemma TaskSet(rows: map<TaskId, Row>, held: map<TaskId, seq<nat>>, lists: map<WaitList, seq<nat>>,
                k: K, t: TaskId, tcb: Tcb, r: K)
    requires SameRows(rows, k.tasks) && SameHeld(held, k.tasks) && SameWait(lists, k) && Named(k) && t in k.tasks
    requires tcb.held == k.tasks[t].held && (tcb.wait == k.tasks[t].wait || forall l :: t !in Q(k, l))
    requires r.tasks == k.tasks[t := tcb] && r.waiters == k.waiters
    requires r.mutexes == k.mutexes && r.sems == k.sems
    ensures SameRows(rows[t := RowOf(tcb)], r.tasks) && SameHeld(held, r.tasks) && SameWait(lists, r) && Named(r)
    ensures RowOf(tcb) == rows[t].(base := tcb.base, prio := tcb.prio, state := tcb.state, wait := tcb.wait,
                                   wakeTick := tcb.wakeTick, result := tcb.result)
    ensures r.now == k.now && r.cur == k.cur && r.inIsr == k.inIsr && r.locked == k.locked && r.resched == k.resched ==>
              RestOf(r) == RestOf(k)
  {
    RowSet(rows, k.tasks, t, tcb);
    HeldKept(held, k.tasks, t, tcb);
    WaitKept(lists, k, r);
    hide SameWait, SameRows, SameHeld;
    assert forall l :: Q(r, l) == Q(k, l);
    forall l, u | u in Q(r, l) ensures u in r.tasks && r.tasks[u].wait == Some(l) {
      assert u in Q(k, l);
    }
  }

  lemma HeldSet(lists: map<TaskId, seq<nat>>, tasks: map<TaskId, Tcb>, t: TaskId, tcb: Tcb)
    requires SameHeld(lists, tasks) && t in tasks
    ensures SameHeld(lists[t := tcb.held], tasks[t := tcb])
  {}

  lemma WaitSet(lists: map<WaitList, seq<nat>>, k: K, l: WaitList, q: seq<TaskId>, r: K)
    requires SameWait(lists, k) && l in lists
    requires r.waiters == k.waiters[l := q] && r.mutexes.Keys == k.mutexes.Keys && r.sems.Keys == k.sems.Keys
    ensures SameWait(lists[l := q], r) && Q(r, l) == q && forall x :: x != l ==> Q(r, x) == Q(k, x)
  {}

  lemma WaitKept(lists: map<WaitList, seq<nat>>, k: K, r: K)
    requires SameWait(lists, k) && r.waiters == k.waiters && r.mutexes.Keys == k.mutexes.Keys && r.sems.Keys == k.sems.Keys
    ensures SameWait(lists, r)
  {
    assert forall l :: Q(r, l) == Q(k, l);
  }

  lemma NamedKept(k: K, r: K)
    requires Named(k) && forall l, t :: t in Q(r, l) ==> t in Q(k, l)
    requires forall t :: t in k.tasks ==> t in r.tasks && r.tasks[t].wait == k.tasks[t].wait
    ensures Named(r)
  {}

  lemma NothingYet()
    ensures Named(KernelRun.START) && SameRows(map[], KernelRun.START.tasks)
    ensures SameHeld(map[], KernelRun.START.tasks) && SameWait(map[], KernelRun.START)
  {}

  class Kernel {
    var rows: map<TaskId, Row>
    var mutexes: map<MutexId, Mutex>
    var sems: map<SemId, nat>
    var now: nat
    var cur: Option<TaskId>
    var inIsr: bool
    var locked: bool
    var resched: bool

    const waits: RingTable<WaitList>
    const timers: RingTable<nat>
    const holds: RingTable<TaskId>
    const ready: BitmapScheduler

    /** What all of this stands for. */
    ghost var model: K

    // ----- the lists

    /** The lists are well linked and share no node. */
    ghost predicate Sound()
      reads waits, timers, holds, ready, waits.Repr, timers.Repr, holds.Repr, ready.queues, ready.bitmap
    {
      && waits.Valid() && timers.Valid() && holds.Valid() && ready.Valid() && timers != holds
      && waits.Repr !! timers.Repr && waits.Repr !! holds.Repr && timers.Repr !! holds.Repr
    }

    ghost predicate ReadyIs(q: seq<seq<TaskId>>)
      reads ready.queues
    {
      ready.queues[..] == q
    }

    ghost predicate TimersAre(q: seq<TaskId>)
      reads timers
    {
      timers.lists == map[CLOCK := q]
    }

    /** There is a node for every task on the wait and timeout lists and for every mutex. */
    ghost predicate Peopled(tasks: set<TaskId>, mutexes: set<MutexId>)
      reads waits, timers, holds
    {
      waits.nodes.Keys == timers.nodes.Keys == tasks && holds.nodes.Keys == mutexes
    }

    ghost predicate Valid()
      reads this, waits, timers, holds, ready, waits.Repr, timers.Repr, holds.Repr, ready.queues, ready.bitmap
    {
      && timers != holds && Sound() && Named(model) && Peopled(rows.Keys, mutexes.Keys)
      && SameRows(rows, model.tasks) && SameHeld(holds.lists, model.tasks) && SameWait(waits.lists, model)
      && TimersAre(model.timeouts) && ReadyIs(model.ready)
      && Rest(mutexes, sems, now, cur, inIsr, locked, resched) == RestOf(model)
    }

    constructor ()
      ensures Valid() && model == KernelRun.START && KernelInvariant.Inv(model)
      ensures fresh(waits) && fresh(timers) && fresh(holds) && fresh(ready.queues) && fresh(ready.bitmap)
      ensures fresh(waits.Repr) && fresh(timers.Repr) && fresh(holds.Repr)
    {
      hide RingTable.Valid, BitmapScheduler.Valid, KernelInvariant.Inv, Q, SameRows, SameHeld, SameWait, Named, OnNone;
      rows, mutexes, sems, now, cur := map[], map[], map[], 0, None;
      inIsr, locked, resched := false, false, false;
      waits := new RingTable();
      timers := new RingTable();
      holds := new RingTable();
      ready := new BitmapScheduler();
      model := KernelRun.START;
      new;
      AddClock();
      KernelRun.StartInv();
      NothingYet();
    }

    method AddClock()
      requires Sound() && timers.lists == map[]
      modifies timers
      ensures Sound() && TimersAre([]) && timers.nodes == old(timers.nodes) && fresh(timers.Repr - old(timers.Repr))
    {
      hide RingTable.Valid, BitmapScheduler.Valid;
      timers.Heads(CLOCK);
      timers.AddHead(CLOCK);
    }

    /** The node of a task tells whether the task is on any list. */
    method OnWaitList(t: TaskId) returns (on: bool)
      requires Valid() && t in rows
      ensures on <==> !OnNone(waits.lists, t)
      ensures on ==> rows[t].wait.Some? && rows[t].wait.value in waits.lists && t in waits.lists[rows[t].wait.value]
      ensures on <==> KernelState.Linked(model, t)
    {
      hide RingTable.Valid, BitmapScheduler.Valid, SameHeld, SameRows;
      on := waits.Linked(t);
      RowGot(rows, model.tasks, t);
      if on {
        ghost var l :| l in waits.lists && t in waits.lists[l];
        assert t in Q(model, l);
      }
    }

    /** The walk of `task_wait_insert_priority`: to the first waiter of lower priority. */
    method FindWaiterPlace(l: WaitList, t: TaskId, ghost tasks: map<TaskId, Tcb>) returns (position: Node, ghost i: nat)
      requires waits.Valid() && l in waits.lists && t in rows
      requires SameRows(rows, tasks) && Peopled(rows.Keys, mutexes.Keys)
      ensures i == PriorityPosition(tasks, waits.lists[l], t) <= |waits.lists[l]|
      ensures position == waits.Stop(l, PriorityPosition(tasks, waits.lists[l], t) + 1)
    {
      hide RingTable.Valid, RingTable.Stop, SameRows, PriorityPosition;
      ghost var q := waits.lists[l];
      position := waits.FirstStop(l);
      i := 0;
      waits.Heads(l);
      waits.Stops(l, 1);
      RowGot(rows, tasks, t);
      assert q[0..] == q;
      while position != waits.heads[l] && rows[t].prio <= rows[position.item].prio
        invariant i <= |q| && position == waits.Stop(l, i + 1)
        invariant position == waits.heads[l] <==> i == |q|
        invariant i < |q| ==> position.item == q[i] && q[i] in rows
        invariant PriorityPosition(tasks, q, t) == i + PriorityPosition(tasks, q[i..], t)
        decreases |q| - i
      {
        RowGot(rows, tasks, q[i]);
        PlaceStep(tasks, q, t, i);
        position := waits.Following(position, l, i + 1);
        i := i + 1;
        waits.Stops(l, i + 1);
      }
      if i < |q| {
        RowGot(rows, tasks, q[i]);
      }
      PlaceStep(tasks, q, t, i);
    }

    /** `task_wait_insert_priority`. */
    method PutWaiter(l: WaitList, t: TaskId, ghost tasks: map<TaskId, Tcb>)
      requires Sound() && l in waits.lists && t in rows && OnNone(waits.lists, t)
      requires SameRows(rows, tasks) && Peopled(rows.Keys, mutexes.Keys)
      modifies waits`lists, waits.Repr
      ensures Sound() && Peopled(rows.Keys, mutexes.Keys)
      ensures waits.lists == old(waits.lists)[l := InsertByPriority(tasks, old(waits.lists)[l], t)]
    {
      hide RingTable.Valid, BitmapScheduler.Valid, RingTable.Stop, OnNone, SameRows, PriorityPosition;
      var position, i := FindWaiterPlace(l, t, tasks);
      waits.Heads(l);
      waits.LinkBefore(l, t, position, i);
    }

    /** `aixos_list_del` of a task's wait node. */
    method TakeWaiter(t: TaskId, ghost l: WaitList)
      requires Sound() && Peopled(rows.Keys, mutexes.Keys)
      requires l in waits.lists && t in waits.lists[l]
      modifies waits`lists, waits.Repr
      ensures Sound() && Peopled(rows.Keys, mutexes.Keys)
      ensures waits.lists == old(waits.lists)[l := Without(old(waits.lists)[l], t)] && OnNone(waits.lists, t)
    {
      hide RingTable.Valid, BitmapScheduler.Valid, OnNone;
      waits.Heads(l);
      waits.Unlink(t, l);
    }

    method TakeTimer(t: TaskId, ghost q: seq<TaskId>)
      requires Sound() && Peopled(rows.Keys, mutexes.Keys) && TimersAre(q) && t in q
      modifies timers`lists, timers.Repr
      ensures Sound() && Peopled(rows.Keys, mutexes.Keys) && TimersAre(Without(q, t))
    {
      hide RingTable.Valid, BitmapScheduler.Valid, OnNone, Without;
      assert timers.lists[CLOCK] == q;
      timers.Heads(CLOCK);
      timers.Unlink(t, CLOCK);
    }

    /** The task leaves the timeout list, if it is on it. */
    method LeaveTimers(t: TaskId, ghost q: seq<TaskId>)
      requires Sound() && Peopled(rows.Keys, mutexes.Keys) && TimersAre(q) && t in rows
      modifies timers`lists, timers.Repr
      ensures Sound() && Peopled(rows.Keys, mutexes.Keys) && TimersAre(Without(q, t))
    {
      hide RingTable.Valid, BitmapScheduler.Valid, Without;
      assert timers.lists[CLOCK] == q;
      var on := timers.Linked(t);
      if on {
        TakeTimer(t, q);
      } else {
        WithoutNothing(q, t);
      }
    }

    method TakeHeld(m: MutexId, ghost t: TaskId)
      requires Sound() && Peopled(rows.Keys, mutexes.Keys)
      requires t in holds.lists && m in holds.lists[t]
      modifies holds`lists, holds.Repr
      ensures Sound() && Peopled(rows.Keys, mutexes.Keys)
      ensures holds.lists == old(holds.lists)[t := Without(old(holds.lists)[t], m)] && OnNone(holds.lists, m)
    {
      hide RingTable.Valid, BitmapScheduler.Valid, OnNone;
      holds.Heads(t);
      holds.Unlink(m, t);
    }

    /** `aixos_list_add_tail` to a task's held mutexes. */
    method PutHeld(m: MutexId, t: TaskId)
      requires Sound() && Peopled(rows.Keys, mutexes.Keys)
      requires t in holds.lists && m in holds.nodes && OnNone(holds.lists, m)
      modifies holds`lists, holds.Repr
      ensures Sound() && Peopled(rows.Keys, mutexes.Keys)
      ensures holds.lists == old(holds.lists)[t := old(holds.lists)[t] + [m]]
    {
      hide RingTable.Valid, BitmapScheduler.Valid, OnNone, RingTable.Stop;
      holds.Heads(t);
      ghost var i := |holds.lists[t]|;
      holds.Stops(t, i + 1);
      holds.LinkBefore(t, m, holds.heads[t], i);
      assert InsertAt(old(holds.lists)[t], i, m) == old(holds.lists)[t] + [m];
    }

    /** The walk of `timeout_insert`: to the first task that wakes strictly later. */
    method FindTimerPlace(clock: nat, t: TaskId, ghost tasks: map<TaskId, Tcb>) returns (position: Node, ghost i: nat)
      requires timers.Valid() && clock in timers.lists && t in rows
      requires SameRows(rows, tasks) && Peopled(rows.Keys, mutexes.Keys)
      ensures i == TimeoutPosition(tasks, timers.lists[clock], t) <= |timers.lists[clock]|
      ensures position == timers.Stop(clock, TimeoutPosition(tasks, timers.lists[clock], t) + 1)
    {
      hide RingTable.Valid, RingTable.Stop, SameRows, SignedDifference, TimeoutPosition;
      ghost var q := timers.lists[clock];
      position := timers.FirstStop(clock);
      i := 0;
      timers.Heads(clock);
      timers.Stops(clock, 1);
      RowGot(rows, tasks, t);
      assert q[0..] == q;
      while position != timers.heads[clock] && SignedDifference(rows[t].wakeTick, rows[position.item].wakeTick) >= 0
        invariant i <= |q| && position == timers.Stop(clock, i + 1)
        invariant position == timers.heads[clock] <==> i == |q|
        invariant i < |q| ==> position.item == q[i] && q[i] in rows
        invariant TimeoutPosition(tasks, q, t) == i + TimeoutPosition(tasks, q[i..], t)
        decreases |q| - i
      {
        RowGot(rows, tasks, q[i]);
        ClockStep(tasks, q, t, i);
        position := timers.Following(position, clock, i + 1);
        i := i + 1;
        timers.Stops(clock, i + 1);
      }
      if i < |q| {
        RowGot(rows, tasks, q[i]);
      }
      ClockStep(tasks, q, t, i);
    }

    /** `timeout_insert`. */
    method PutTimer(t: TaskId, ghost q: seq<TaskId>, ghost tasks: map<TaskId, Tcb>)
      requires Sound() && Peopled(rows.Keys, mutexes.Keys) && TimersAre(q) && t in rows && t !in q
      requires SameRows(rows, tasks)
      modifies timers`lists, timers.Repr
      ensures Sound() && Peopled(rows.Keys, mutexes.Keys)
      ensures TimersAre(InsertAt(q, TimeoutPosition(tasks, q, t), t))
    {
      hide RingTable.Valid, BitmapScheduler.Valid, RingTable.Stop, SameRows, TimeoutPosition, InsertAt;
      assert timers.lists[CLOCK] == q && OnNone(timers.lists, t);
      hide OnNone;
      var position, i := FindTimerPlace(CLOCK, t, tasks);
      timers.Heads(CLOCK);
      timers.LinkBefore(CLOCK, t, position, i);
    }

    /** `aixos_sched_requeue_task` and its likes leave the rings alone. */
    method RequeueReady(t: TaskId, was: int, p: int)
      requires Sound()
      modifies ready.queues, ready.bitmap
      ensures Sound() && ready.queues[..] == Requeue(old(ready.queues[..]), was, p, t)
    {
      hide RingTable.Valid, BitmapScheduler.Valid, Requeue;
      ready.Reenqueue(t, was, p);
    }

    method AddReady(t: TaskId, p: int)
      requires Sound()
      modifies ready.queues, ready.bitmap
      ensures Sound() && ready.queues[..] == Add(old(ready.queues[..]), p, t)
    {
      hide RingTable.Valid, BitmapScheduler.Valid, Add;
      ready.Enqueue(t, p);
    }

    method RemoveReady(t: TaskId, p: int)
      requires Sound()
      modifies ready.queues, ready.bitmap
      ensures Sound() && ready.queues[..] == Remove(old(ready.queues[..]), p, t)
    {
      hide RingTable.Valid, BitmapScheduler.Valid, Remove;
      ready.Dequeue(t, p);
    }

    // ----- priority inheritance

    /** The better of a priority and that of the first waiter of a mutex. */
    method WithFirstWaiter(m: MutexId, priority: int) returns (r: int)
      requires Valid() && m in mutexes && priority >= 0
      ensures r == if Top(model, m) > priority then Top(model, m) else priority
    {
      hide RingTable.Valid, BitmapScheduler.Valid, RingTable.Stop, SameRows, SameHeld;
      var l := MutexQ(m);
      assert l in waits.lists;
      r := priority;
      if !waits.Empty(l) {
        var waiter := waits.First(l);
        RowGot(rows, model.tasks, waiter);
        assert waiter in Q(model, l);
        if rows[waiter].prio > priority {
          r := rows[waiter].prio;
        }
      }
    }

    /** Walks the held mutexes, keeping the best first-waiter priority seen. */
    method EffectivePriority(t: TaskId) returns (priority: int)
      requires Valid() && t in rows
      ensures priority == Effective(model, t)
    {
      hide RingTable.Valid, BitmapScheduler.Valid, RingTable.Stop, Named, SameRows, SameWait, Sound, Valid, Top, MaxTop;
      HeldOf(t);
      priority := rows[t].base;
      ghost var q := model.tasks[t].held;
      var position := holds.FirstStop(t);
      ghost var i := 0;
      holds.Stops(t, 1);
      assert q[0..] == q;
      while position != holds.heads[t]
        invariant i <= |q| && position == holds.Stop(t, i + 1) && priority >= 0
        invariant position == holds.heads[t] <==> i == |q|
        invariant i < |q| ==> position.item == q[i]
        invariant MaxTop(model, q[i..], priority) == Effective(model, t)
        decreases |q| - i
      {
        MaxTopStep(model, q, i, priority);
        assert q[i] in mutexes;
        priority := WithFirstWaiter(position.item, priority);
        position := holds.Following(position, t, i + 1);
        i := i + 1;
        holds.Stops(t, i + 1);
      }
      MaxTopStep(model, q, i, priority);
    }

    /** A linked waiter goes to the place its priority gives it. */
    method MoveWaiter(l: WaitList, t: TaskId, ghost tasks: map<TaskId, Tcb>)
      requires Sound() && l in waits.lists && t in waits.lists[l] && t in rows
      requires SameRows(rows, tasks) && Peopled(rows.Keys, mutexes.Keys)
      modifies waits`lists, waits.Repr
      ensures Sound() && Peopled(rows.Keys, mutexes.Keys)
      ensures waits.lists == old(waits.lists)[l := InsertByPriority(tasks, Without(old(waits.lists)[l], t), t)]
    {
      hide Sound, SameRows, InsertByPriority, Without, OnNone, Peopled;
      TakeWaiter(t, l);
      PutWaiter(l, t, tasks);
    }

    /** `aixos_task_waiter_priority_changed`. */
    method ResortWaiter(t: TaskId)
      requires Valid() && t in rows
      modifies this`model, waits`lists, waits.Repr
      ensures Valid() && model == Resort(old(model), t)
    {
      hide Sound, Named, SameWait, SameHeld, SameRows, InsertByPriority, Without, OnNone, Resort, Linked;
      hide ReadyIs, TimersAre, RestOf, Peopled;
      var on := OnWaitList(t);
      NotResorted(model, t);
      if on {
        var l := rows[t].wait.value;
        ghost var k := model;
        ResortIs(waits.lists, k, t);
        RowGot(rows, k.tasks, t);
        MoveWaiter(l, t, k.tasks);
        model := Resort(k, t);
      }
    }

    method Requeued(t: TaskId, was: int, p: int)
      requires Valid()
      modifies this`model, ready.queues, ready.bitmap
      ensures Valid() && model == old(model).(ready := Requeue(old(model).ready, was, p, t))
    {
      hide Sound, Named, SameHeld, SameRows, TimersAre, Q, SameWait, Requeue, Peopled, RestOf;
      ghost var k := model;
      ghost var r := k.(ready := Requeue(k.ready, was, p, t));
      ReadyKept(waits.lists, k, r);
      SameRest(k, r);
      RequeueReady(t, was, p);
      model := r;
    }

    /** A task gets a new current priority, and with it a place in its queues. */
    method Reprice(t: TaskId, p: int)
      requires Valid() && t in rows
      modifies this`rows, this`model, waits`lists, waits.Repr, ready.queues, ready.bitmap
      ensures Valid() && model == Reprioritise(old(model), t, p) && rows.Keys == old(rows.Keys)
    {
      hide Valid, Requeue, Resort;
      KnownTask(t);
      if p == rows[t].prio {
        return;
      }
      Requeued(t, rows[t].prio, p);
      SetRow(t, rows[t].(prio := p));
      if rows[t].wait.Some? && rows[t].wait.value.MutexQ? {
        ResortWaiter(t);
      }
    }

    /** `recompute_chain`. */
    method RecomputeChain(t: TaskId, depth: nat)
      requires Valid()
      modifies this`rows, this`model, waits`lists, waits.Repr, ready.queues, ready.bitmap
      ensures Valid() && model == Recompute(old(model), t, depth)
      decreases TASK_LIMIT - depth
    {
      hide Valid, Reprioritise, Effective;
      KnownTask(t);
      if t !in rows || depth >= TASK_LIMIT {
        return;
      }
      var priority := EffectivePriority(t);
      Reprice(t, priority);
      KnownTask(t);
      if rows[t].wait.Some? && rows[t].wait.value.MutexQ? && rows[t].wait.value.mutex in mutexes {
        var owner := mutexes[rows[t].wait.value.mutex].owner;
        if owner.Some? && owner.value != t {
          RecomputeChain(owner.value, depth + 1);
        }
      }
    }

    lemma KnownTasks()
      requires Valid()
      ensures rows.Keys == model.tasks.Keys
    {
      hide Sound, Named, SameWait, SameHeld, ReadyIs, TimersAre, Peopled, RestOf;
    }

    lemma WaitersNoDup()
      requires Valid()
      ensures forall l :: l in waits.lists ==> NoDup(waits.lists[l])
    {
      hide RingTable.Valid, BitmapScheduler.Valid, SameWait, SameHeld, SameRows, NoDup;
      forall l | l in waits.lists ensures NoDup(waits.lists[l]) {
        waits.Heads(l);
        waits.ListNoDup(l);
      }
    }

    lemma KnownTask(t: TaskId)
      requires Valid()
      ensures t in rows <==> t in model.tasks
      ensures t in rows ==> rows[t] == RowOf(model.tasks[t])
      ensures mutexes == model.mutexes && sems == model.sems && now == model.now && cur == model.cur
      ensures inIsr == model.inIsr && locked == model.locked && resched == model.resched
    {
      hide Sound, Named, SameWait, SameHeld, ReadyIs, TimersAre, Peopled;
    }

    method RecomputeOwnerOf(m: MutexId)
      requires Valid()
      modifies this`rows, this`model, waits`lists, waits.Repr, ready.queues, ready.bitmap
      ensures Valid() && model == RecomputeOwner(old(model), m)
    {
      hide Valid, Recompute;
      KnownTask(0);
      if m in mutexes && mutexes[m].owner.Some? {
        RecomputeChain(mutexes[m].owner.value, 0);
      }
    }

    // ----- blocking and waking

    /** `aixos_sched_request_preemption`. */
    method RequestPreemption()
      requires Valid()
      modifies this`resched, this`model
      ensures Valid() && model == KernelState.RequestPreemption(old(model))
    {
      hide Sound, Named, SameWait, SameHeld, SameRows, TimersAre, Peopled, Q, Highest;
      ghost var k := model;
      var highest := HighestReady();
      if highest.Some? && cur != highest {
        var outranked := true;
        if cur.Some? {
          outranked := PriorityOf(highest.value) > PriorityOf(cur.value);
        }
        if outranked {
          FlagKept(waits.lists, k, k.(resched := true));
          resched := true;
          model := k.(resched := true);
        }
      }
    }

    method HighestReady() returns (task: Option<TaskId>)
      requires Valid()
      ensures task == Highest(model.ready)
    {
      hide RingTable.Valid, BitmapScheduler.Valid, Named, SameWait, SameHeld, SameRows, TimersAre, Peopled, Highest;
      task := ready.FindHighest();
    }

    function PriorityOf(t: TaskId): int
      reads this, waits, timers, holds, ready, waits.Repr, timers.Repr, holds.Repr, ready.queues, ready.bitmap
      requires Valid()
      ensures PriorityOf(t) == Prio(model.tasks, t)
    {
      KnownTask(t);
      if t in rows then rows[t].prio else 0
    }

    /** The wait-list half of `task_detach_wait_locked`. */
    method LeaveList(t: TaskId)
      requires Valid() && t in rows
      modifies this`rows, this`model, waits`lists, waits.Repr, ready.queues, ready.bitmap
      ensures Valid() && model == LeaveWaitList(old(model), t) && rows.Keys == old(rows.Keys)
      ensures forall l :: t !in Q(model, l)
    {
      hide Sound, Named, SameWait, SameHeld, SameRows, Without, OnNone, TimersAre, ReadyIs, RestOf, Peopled;
      hide Recompute, Q, Linked, Unlink;
      RowGot(rows, model.tasks, t);
      var on := OnWaitList(t);
      ghost var k := model;
      KnownTasks();
      if on {
        var l := rows[t].wait.value;
        WaitersNoDup();
        UnlinkIs(waits.lists, k, t);
        TakeWaiter(t, l);
        model := Unlink(k, t);
        if l.MutexQ? {
          RecomputeMembers(model, l.mutex, t);
          RecomputeOwnerOf(l.mutex);
        }
        KnownTasks();
      } else {
        ListedIsLinked(waits.lists, k, t);
      }
    }

    /** The fields of a task change; its lists and queue do not. */
    method SetRow(t: TaskId, row: Row)
      requires Valid() && t in rows && (row.wait == rows[t].wait || forall l :: t !in Q(model, l))
      modifies this`rows, this`model
      ensures Valid() && t in old(model).tasks
      ensures model == old(model).(tasks := old(model).tasks[t := WithRow(old(model).tasks[t], row)])
      ensures rows == old(rows)[t := row] && rows.Keys == old(rows.Keys)
    {
      hide Sound, Named, SameHeld, SameRows, TimersAre, Q, SameWait, Peopled, ReadyIs, RestOf;
      ghost var k := model;
      RowGot(rows, k.tasks, t);
      ghost var tcb := WithRow(k.tasks[t], row);
      ghost var r := k.(tasks := k.tasks[t := tcb]);
      TaskSet(rows, holds.lists, waits.lists, k, t, tcb, r);
      rows := rows[t := row];
      assert rows.Keys == old(rows).Keys;
      model := r;
    }

    method LeaveClock(t: TaskId)
      requires Valid() && t in rows
      modifies this`model, timers`lists, timers.Repr
      ensures Valid() && model == old(model).(timeouts := Without(old(model).timeouts, t))
      ensures forall l :: Q(model, l) == Q(old(model), l)
    {
      hide Sound, Named, SameWait, SameHeld, SameRows, Without, ReadyIs, RestOf, Peopled;
      ghost var k := model;
      ghost var r := k.(timeouts := Without(k.timeouts, t));
      ListsKept(waits.lists, k, r);
      hide Q;
      LeaveTimers(t, k.timeouts);
      SameRest(k, r);
      model := r;
    }

    /** The rest of `task_detach_wait_locked`. */
    method ClearTimeout(t: TaskId, result: Code)
      requires Valid() && t in rows && forall l :: t !in Q(model, l)
      modifies this`rows, this`model, timers`lists, timers.Repr
      ensures Valid() && model == ClearWait(old(model), t, result) && rows.Keys == old(rows.Keys)
    {
      hide Valid, Without, Q;
      KnownTask(t);
      LeaveClock(t);
      SetRow(t, rows[t].(wait := None, result := result));
    }

    /** `task_detach_wait_locked`. */
    method DetachWait(t: TaskId, result: Code)
      requires Valid() && t in rows
      modifies this`rows, this`model, waits`lists, waits.Repr, timers`lists, timers.Repr, ready.queues, ready.bitmap
      ensures Valid() && model == Detach(old(model), t, result) && rows.Keys == old(rows.Keys)
      ensures forall l :: t !in Q(model, l)
      ensures t !in model.timeouts
    {
      hide Valid, LeaveWaitList, Q, NoDup;
      LeaveList(t);
      TimersNoDup();
      KnownTask(t);
      ClearedIs(model, t, result);
      ClearTimeout(t, result);
    }

    lemma TimersNoDup()
      requires Valid()
      ensures NoDup(model.timeouts)
    {
      hide RingTable.Valid, BitmapScheduler.Valid, SameWait, SameHeld, SameRows, Named, NoDup;
      assert CLOCK in timers.lists && timers.lists[CLOCK] == model.timeouts;
      timers.Heads(CLOCK);
      timers.ListNoDup(CLOCK);
    }

    /** The task goes to the end of its ready queue. */
    method Enready(t: TaskId)
      requires Valid() && t in rows
      modifies this`model, ready.queues, ready.bitmap
      ensures Valid() && t in old(model).tasks
      ensures model == old(model).(ready := Add(old(model).ready, old(model).tasks[t].prio, t))
    {
      hide Sound, Named, SameHeld, SameRows, TimersAre, Q, SameWait, Add, Peopled, ReadyIs, RestOf;
      KnownTask(t);
      ghost var k := model;
      ghost var r := k.(ready := Add(k.ready, k.tasks[t].prio, t));
      ReadyKept(waits.lists, k, r);
      SameRest(k, r);
      ReadyWith(t, rows[t].prio, k.ready);
      model := r;
    }

    method EnterReady(t: TaskId)
      requires Valid() && t in rows
      modifies this`rows, this`model, this`resched, ready.queues, ready.bitmap
      ensures Valid() && model == MakeReady(old(model), t) && rows.Keys == old(rows.Keys)
    {
      hide Valid, Add, KernelState.RequestPreemption;
      KnownTask(t);
      Enready(t);
      SetState(t, Ready);
      RequestPreemption();
    }

    /** `aixos_task_wake`. */
    method Wake(t: TaskId, result: Code)
      requires Valid()
      modifies this`rows, this`model, this`resched, waits`lists, waits.Repr, timers`lists, timers.Repr, ready.queues, ready.bitmap
      ensures Valid() && model == KernelState.Wake(old(model), t, result) && rows.Keys == old(rows.Keys)
    {
      hide Valid, Detach, MakeReady;
      KnownTask(t);
      if t in rows && rows[t].state in {Blocked, Delayed} {
        DetachWait(t, result);
        EnterReady(t);
      }
    }

    method JoinList(l: WaitList, t: TaskId)
      requires Valid() && t in rows && rows[t].wait == Some(l) && l in waits.lists && forall x :: t !in Q(model, x)
      modifies this`model, waits`lists, waits.Repr
      ensures Valid()
      ensures model == old(model).(waiters := old(model).waiters[l := InsertByPriority(old(model).tasks, Q(old(model), l), t)])
    {
      hide Sound, Named, SameWait, SameHeld, SameRows, TimersAre, RestOf, Peopled, InsertByPriority, OnNone, ReadyIs, Q;
      ghost var k := model;
      ghost var r := k.(waiters := k.waiters[l := InsertByPriority(k.tasks, Q(k, l), t)]);
      RowGot(rows, k.tasks, t);
      JoinedIs(waits.lists, k, t, l, r);
      PutWaiter(l, t, k.tasks);
      SameRest(k, r);
      model := r;
    }

    /** The task stops running and enters `l` by priority. */
    method StopRunning(t: TaskId, l: Option<WaitList>)
      requires Valid() && t in rows && (forall x :: t !in Q(model, x)) && (l.Some? ==> l.value in waits.lists)
      modifies this`rows, this`model, waits`lists, waits.Repr, ready.queues, ready.bitmap
      ensures Valid() && model == Park(old(model), t, l) && rows.Keys == old(rows.Keys)
    {
      hide Valid, Remove, InsertByPriority, Q;
      ghost var k := model;
      KnownTask(t);
      Unready(t);
      KnownTask(t);
      SameLists(k, model);
      SetRow(t, rows[t].(state := if l.None? then Delayed else Blocked, wait := l, result := Ok));
      SameLists(k, model);
      if l.Some? {
        JoinList(l.value, t);
      }
    }

    method ReadyWithout(t: TaskId, p: int, ghost q: Queues)
      requires Sound() && ReadyIs(q)
      modifies ready.queues, ready.bitmap
      ensures Sound() && ReadyIs(Remove(q, p, t))
    {
      hide Sound, Remove;
      RemoveReady(t, p);
    }

    method JoinClock(t: TaskId)
      requires Valid() && t in rows && t !in model.timeouts
      modifies this`model, timers`lists, timers.Repr
      ensures Valid()
      ensures var k := old(model); model == k.(timeouts := InsertAt(k.timeouts, TimeoutPosition(k.tasks, k.timeouts, t), t))
    {
      hide Sound, Named, SameWait, SameHeld, SameRows, RestOf, Peopled, TimeoutPosition, InsertAt, OnNone, ReadyIs;
      ghost var k := model;
      ghost var r := k.(timeouts := InsertAt(k.timeouts, TimeoutPosition(k.tasks, k.timeouts, t), t));
      ListsKept(waits.lists, k, r);
      PutTimer(t, k.timeouts, k.tasks);
      SameRest(k, r);
      model := r;
    }

    method StartTimeout(t: TaskId, ticks: nat)
      requires Valid() && t in rows && t !in model.timeouts
      modifies this`rows, this`model, timers`lists, timers.Repr
      ensures Valid() && model == ArmTimeout(old(model), t, ticks) && rows.Keys == old(rows.Keys)
    {
      hide Valid, TimeoutPosition, InsertAt;
      KnownTask(t);
      if ticks != UINT32_MAX {
        SetRow(t, rows[t].(wakeTick := (now + ticks) % TICK_MODULUS));
        JoinClock(t);
      }
    }

    /** `aixos_task_block_current`, for a caller that is on no list. */
    method BlockCurrent(l: Option<WaitList>, ms: nat) returns (code: Code)
      requires Valid() && (l.Some? ==> l.value in waits.lists) && CallerFree(model)
      modifies this`rows, this`model, this`resched, waits`lists, waits.Repr, timers`lists, timers.Repr, ready.queues, ready.bitmap
      ensures Valid() && (model, code) == Block(old(model), l, ms)
    {
      hide Valid, MsToTicks, ArmTimeout, Park, RecomputeOwner, Q;
      KnownTask(0);
      if cur.Some? {
        KnownTask(cur.value);
      }
      if cur.None? || cur.value !in rows || inIsr {
        return Context;
      }
      if locked {
        return Locked;
      }
      ghost var k := model;
      StopRunning(cur.value, l);
      if l.Some? && l.value.MutexQ? {
        RecomputeOwnerOf(l.value.mutex);
      }
      BlockedTimeouts(k, cur.value, l);
      KnownTask(cur.value);
      StartTimeout(cur.value, MsToTicks(ms));
      RaiseFlag();
      return Parked;
    }

    method RaiseFlag()
      requires Valid()
      modifies this`resched, this`model
      ensures Valid() && model == old(model).(resched := true)
    {
      hide Sound, Named, SameWait, SameHeld, SameRows, TimersAre, Peopled, Q, ReadyIs;
      FlagKept(waits.lists, model, model.(resched := true));
      resched := true;
      model := model.(resched := true);
    }

    // ----- mutexes

    method LockMutex(m: MutexId, ms: nat) returns (code: Code)
      requires Valid() && CallerFree(model) && HoldersAgree(model)
      modifies this`rows, this`mutexes, this`model, this`resched, waits`lists, waits.Repr, timers`lists, timers.Repr
      modifies holds`lists, holds.Repr, ready.queues, ready.bitmap
      ensures Valid() && (model, code) == MutexLock(old(model), m, ms)
    {
      hide Valid, Block;
      KnownTask(0);
      if cur.Some? {
        KnownTask(cur.value);
      }
      if inIsr || cur.None? || cur.value !in rows {
        return Context;
      }
      if m !in mutexes {
        return Invalid;
      }
      var self := cur.value;
      if mutexes[m].owner.None? {
        NobodyHolds(model, m);
        TakeMutex(m, self);
        return Ok;
      }
      if mutexes[m].owner == Some(self) {
        if mutexes[m].lockCount == UINT32_MAX {
          return Overflow;
        }
        SetMutex(m, mutexes[m].(lockCount := mutexes[m].lockCount + 1));
        return Ok;
      }
      if ms == 0 {
        return Busy;
      }
      MutexListed(m);
      code := BlockCurrent(Some(MutexQ(m)), ms);
    }

    /** Writes the owner and the count of a mutex, and nothing else. */
    method SetMutex(m: MutexId, mutex: Mutex)
      requires Valid() && m in mutexes
      modifies this`mutexes, this`model
      ensures Valid() && model == old(model).(mutexes := old(model).mutexes[m := mutex])
    {
      hide Sound, Named, SameHeld, SameRows, TimersAre, Q, ReadyIs;
      ghost var k := model;
      mutexes := mutexes[m := mutex];
      assert mutexes.Keys == old(mutexes).Keys;
      model := k.(mutexes := mutexes);
      hide SameWait;
      MutexesKept(waits.lists, k, model);
    }

    lemma MutexListed(m: MutexId)
      requires Valid() && m in mutexes
      ensures MutexQ(m) in waits.lists && MutexQ(m) in waits.heads
    {
      hide RingTable.Valid, BitmapScheduler.Valid, Named, SameHeld, SameRows;
      waits.Heads(MutexQ(m));
    }

    lemma MutexNode(m: MutexId)
      requires Valid() && m in mutexes
      ensures m in holds.nodes
    {
      hide Sound, Named, SameWait, SameHeld, SameRows, ReadyIs, TimersAre;
    }

    /** A mutex that nobody has goes to a task. */
    method TakeMutex(m: MutexId, t: TaskId)
      requires Valid() && m in mutexes && t in rows && HeldByNone(model, m)
      modifies this`mutexes, this`model, holds`lists, holds.Repr
      ensures Valid() && model == Taken(old(model), m, t) && rows == old(rows) && mutexes.Keys == old(mutexes.Keys)
    {
      hide Sound, Named, SameHeld, SameRows, TimersAre, Q, ReadyIs, SameWait, HeldByNone, OnNone, Peopled;
      ghost var k := model;
      KnownTasks();
      MutexNode(m);
      TakenIs(rows, holds.lists, waits.lists, k, m, t);
      PutHeld(m, t);
      mutexes := mutexes[m := Mutex(Some(t), 1)];
      assert mutexes.Keys == old(mutexes).Keys;
      model := Taken(k, m, t);
    }

    /** A task gives up a mutex, which then belongs to nobody. */
    method DropMutex(m: MutexId, t: TaskId)
      requires Valid() && m in mutexes && t in rows && m in model.tasks[t].held
      modifies this`mutexes, this`model, holds`lists, holds.Repr
      ensures Valid() && model == Dropped(old(model), m, t) && rows == old(rows) && mutexes.Keys == old(mutexes.Keys)
      ensures HeldByNone(model, m)
    {
      hide Sound, Named, SameHeld, SameRows, TimersAre, Q, ReadyIs, SameWait, HeldByNone, OnNone, Peopled, Without;
      ghost var k := model;
      KnownTasks();
      DroppedIs(rows, holds.lists, waits.lists, k, m, t);
      TakeHeld(m, t);
      mutexes := mutexes[m := Mutex(None, 0)];
      assert mutexes.Keys == old(mutexes).Keys;
      model := Dropped(k, m, t);
      NoneHolds(holds.lists, model, m);
    }

    /** The owner's last unlock: the first waiter, if any, becomes owner before it is woken. */
    method ReleaseMutex(m: MutexId, self: TaskId)
      requires Valid() && m in mutexes && self in rows && m in model.tasks[self].held
      modifies this`rows, this`mutexes, this`model, this`resched, waits`lists, waits.Repr, timers`lists, timers.Repr
      modifies holds`lists, holds.Repr, ready.queues, ready.bitmap
      ensures var k := old(model); var q := Q(k, MutexQ(m)); var k1 := HandOver(k, m, self);
              Valid() && model == if q != [] then KernelState.Wake(k1, q[0], Ok) else k1
    {
      hide Valid, Without, KernelState.Wake, Q, HeldByNone, HandOver, Dropped, Taken;
      ghost var k := model;
      KnownTask(self);
      MutexListed(m);
      FirstWaiterIs(m);
      DropMutex(m, self);
      MutexListed(m);
      FirstWaiterIs(m);
      HandOverIs(k, m, self);
      if !NoWaiter(m) {
        var next := waits.First(MutexQ(m));
        TakeMutex(m, next);
        Wake(next, Ok);
      }
    }

    predicate NoWaiter(m: MutexId)
      reads this, waits, timers, holds, ready, waits.Repr, timers.Repr, holds.Repr, ready.queues, ready.bitmap
      requires Valid() && m in mutexes
      ensures NoWaiter(m) <==> Q(model, MutexQ(m)) == []
    {
      hide RingTable.Valid, BitmapScheduler.Valid, Named, SameHeld, SameRows;
      MutexListed(m);
      waits.Empty(MutexQ(m))
    }

    /** The first waiter as the rings have it is the one meant. */
    lemma FirstWaiterIs(m: MutexId)
      requires Valid() && m in mutexes
      ensures waits.Valid() && MutexQ(m) in waits.lists && waits.lists[MutexQ(m)] == Q(model, MutexQ(m))
      ensures Q(model, MutexQ(m)) != [] ==> Q(model, MutexQ(m))[0] in rows && Q(model, MutexQ(m))[0] in model.tasks
    {
      hide RingTable.Valid, BitmapScheduler.Valid, SameHeld;
      MutexListed(m);
      assert Q(model, MutexQ(m)) != [] ==> Q(model, MutexQ(m))[0] in Q(model, MutexQ(m));
    }

    method UnlockMutex(m: MutexId) returns (code: Code)
      requires Valid() && HoldersAgree(model)
      modifies this`rows, this`mutexes, this`model, this`resched, waits`lists, waits.Repr, timers`lists, timers.Repr
      modifies holds`lists, holds.Repr, ready.queues, ready.bitmap
      ensures Valid() && (model, code) == MutexUnlock(old(model), m)
    {
      hide Valid, KernelState.Wake, HandOver, Recompute, Q;
      KnownTask(0);
      if cur.Some? {
        KnownTask(cur.value);
      }
      if inIsr || cur.None? || cur.value !in rows {
        return Context;
      }
      if m !in mutexes || mutexes[m].owner != cur {
        return Invalid;
      }
      if mutexes[m].lockCount > 1 {
        SetMutex(m, mutexes[m].(lockCount := mutexes[m].lockCount - 1));
        return Ok;
      }
      var self := cur.value;
      HolderOf(model, m, self);
      ReleaseMutex(m, self);
      RecomputeChain(self, 0);
      return Ok;
    }

    method AddList(l: WaitList)
      requires Sound() && Peopled(rows.Keys, mutexes.Keys) && l !in waits.lists
      modifies waits
      ensures Sound() && Peopled(rows.Keys, mutexes.Keys) && waits.lists == old(waits.lists)[l := []]
      ensures fresh(waits.Repr - old(waits.Repr))
    {
      hide RingTable.Valid, BitmapScheduler.Valid;
      waits.Heads(l);
      waits.AddHead(l);
    }

    method AddMutexNode(m: MutexId)
      requires Sound() && Peopled(rows.Keys, mutexes.Keys) && m !in mutexes
      modifies holds
      ensures Sound() && Peopled(rows.Keys, mutexes.Keys + {m}) && holds.lists == old(holds.lists)
      ensures fresh(holds.Repr - old(holds.Repr))
    {
      hide RingTable.Valid, BitmapScheduler.Valid, OnNone;
      holds.AddNode(m);
    }

    /** `aixos_mutex_create`: a new wait list and a new node for held lists. */
    method CreateMutex(m: MutexId) returns (code: Code)
      requires Valid()
      modifies this`mutexes, this`model, waits, holds
      ensures Valid() && (model, code) == MutexCreate(old(model), m)
      ensures fresh(waits.Repr - old(waits.Repr)) && fresh(holds.Repr - old(holds.Repr))
    {
      hide Sound, Named, SameHeld, SameRows, TimersAre, Q, ReadyIs, SameWait, Peopled;
      if inIsr || m in mutexes {
        return Invalid;
      }
      ghost var k := model;
      var mutex := Mutex(None, 0);
      NewList(waits.lists, k, MutexQ(m), k.(mutexes := k.mutexes[m := mutex]));
      AddList(MutexQ(m));
      AddMutexNode(m);
      mutexes := mutexes[m := mutex];
      assert mutexes.Keys == old(mutexes).Keys + {m};
      model := k.(mutexes := k.mutexes[m := mutex]);
      return Ok;
    }

    method CreateSem(s: SemId, count: int) returns (code: Code)
      requires Valid()
      modifies this`sems, this`model, waits
      ensures Valid() && (model, code) == SemCreate(old(model), s, count)
      ensures fresh(waits.Repr - old(waits.Repr))
    {
      hide Sound, Named, SameHeld, SameRows, TimersAre, Q, ReadyIs, SameWait, Peopled;
      if inIsr || s in sems || count < 0 || count > SEM_MAX_COUNT {
        return Invalid;
      }
      ghost var k := model;
      NewList(waits.lists, k, SemQ(s), k.(sems := k.sems[s := count]));
      AddList(SemQ(s));
      sems := sems[s := count];
      model := k.(sems := k.sems[s := count]);
      return Ok;
    }

    /** The owner's held list loses the mutex, whose own fields stay as they are. */
    method LetGo(m: MutexId, t: TaskId)
      requires Valid() && m in mutexes && t in rows && m in model.tasks[t].held
      modifies this`model, holds`lists, holds.Repr
      ensures Valid() && OnNone(holds.lists, m)
      ensures model == old(model).(tasks := old(model).tasks[t := old(model).tasks[t].(held := Without(old(model).tasks[t].held, m))])
      ensures Q(model, MutexQ(m)) == old(Q(model, MutexQ(m)))
    {
      hide Sound, Named, SameHeld, SameRows, TimersAre, Q, ReadyIs, SameWait, OnNone, Peopled, Without;
      ghost var k := model;
      KnownTasks();
      LetGoIs(rows, holds.lists, waits.lists, k, m, t);
      TakeHeld(m, t);
      model := k.(tasks := k.tasks[t := k.tasks[t].(held := Without(k.tasks[t].held, m))]);
      SameLists(k, model);
    }

    lemma NotHeld(m: MutexId)
      requires Valid() && HoldersAgree(model) && m in mutexes
      requires mutexes[m].owner.Some? ==> mutexes[m].owner.value !in rows
      ensures OnNone(holds.lists, m)
    {
      hide Sound, Named, SameRows, TimersAre, Q, ReadyIs, SameWait, Peopled;
      KnownTasks();
      assert Owner(model, m) == mutexes[m].owner;
      forall t | t in holds.lists ensures m !in holds.lists[t] {
        assert t in model.tasks && holds.lists[t] == model.tasks[t].held;
      }
    }

    /** The mutex goes away, with its wait list and its node. */
    method ForgetMutex(m: MutexId)
      requires Valid() && m in mutexes && Q(model, MutexQ(m)) == [] && OnNone(holds.lists, m)
      modifies this`mutexes, this`model, waits, holds
      ensures Valid() && model == old(model).(mutexes := old(model).mutexes - {m})
      ensures waits.Repr == old(waits.Repr) && holds.Repr == old(holds.Repr)
    {
      hide Sound, Named, SameHeld, SameRows, TimersAre, Q, ReadyIs, SameWait, OnNone, Peopled;
      ghost var k := model;
      ListGone(waits.lists, k, m);
      DropList(MutexQ(m));
      DropMutexNode(m);
      mutexes := mutexes - {m};
      assert mutexes.Keys == old(mutexes).Keys - {m};
      model := k.(mutexes := k.mutexes - {m});
    }

    method DropList(l: WaitList)
      requires Sound() && Peopled(rows.Keys, mutexes.Keys) && l in waits.lists && waits.lists[l] == []
      modifies waits
      ensures Sound() && Peopled(rows.Keys, mutexes.Keys) && waits.lists == old(waits.lists) - {l}
      ensures waits.Repr == old(waits.Repr)
    {
      hide RingTable.Valid, BitmapScheduler.Valid;
      waits.Heads(l);
      waits.DropHead(l);
    }

    method DropMutexNode(m: MutexId)
      requires Sound() && Peopled(rows.Keys, mutexes.Keys) && m in mutexes && OnNone(holds.lists, m)
      modifies holds
      ensures Sound() && Peopled(rows.Keys, mutexes.Keys - {m}) && holds.lists == old(holds.lists)
      ensures holds.Repr == old(holds.Repr)
    {
      hide RingTable.Valid, BitmapScheduler.Valid, OnNone;
      holds.DropNode(m);
    }

    /** `aixos_mutex_delete`: only without waiters; an owner loses it and is recomputed first. */
    method DeleteMutex(m: MutexId) returns (code: Code)
      requires Valid() && HoldersAgree(model)
      modifies this`rows, this`mutexes, this`model, waits, waits.Repr, holds, holds.Repr, ready.queues, ready.bitmap
      ensures Valid() && (model, code) == MutexDelete(old(model), m)
      ensures waits.Repr == old(waits.Repr) && holds.Repr == old(holds.Repr)
    {
      hide Valid, Recompute, Without, Q, HeldByNone;
      KnownTask(0);
      if inIsr {
        return Context;
      }
      if m !in mutexes {
        return Invalid;
      }
      if !NoWaiter(m) {
        return Busy;
      }
      ghost var k := model;
      var owner := mutexes[m].owner;
      if owner.Some? {
        KnownTask(owner.value);
        if owner.value in rows {
          HolderOf(k, m, owner.value);
          LetGo(m, owner.value);
          EmptyStays(model, owner.value, 0, MutexQ(m));
          RecomputeChain(owner.value, 0);
        } else {
          NotHeld(m);
        }
      } else {
        NotHeld(m);
      }
      ForgetMutex(m);
      return Ok;
    }

    // ----- semaphores

    method WaitSem(s: SemId, ms: nat) returns (code: Code)
      requires Valid() && CallerFree(model)
      modifies this`rows, this`sems, this`model, this`resched, waits`lists, waits.Repr, timers`lists, timers.Repr
      modifies ready.queues, ready.bitmap
      ensures Valid() && (model, code) == SemWait(old(model), s, ms)
    {
      hide Valid, Block;
      KnownTask(0);
      if inIsr {
        return Context;
      }
      if s !in sems {
        return Invalid;
      }
      if sems[s] > 0 {
        SetCount(s, sems[s] - 1);
        return Ok;
      }
      if ms == 0 {
        return Timeout;
      }
      SemListed(s);
      code := BlockCurrent(Some(SemQ(s)), ms);
    }

    lemma SemListed(s: SemId)
      requires Valid() && s in sems
      ensures waits.Valid() && SemQ(s) in waits.lists && waits.lists[SemQ(s)] == Q(model, SemQ(s))
    {
      hide RingTable.Valid, BitmapScheduler.Valid, Named, SameHeld, SameRows;
    }

    method SetCount(s: SemId, count: nat)
      requires Valid() && s in sems
      modifies this`sems, this`model
      ensures Valid() && model == old(model).(sems := old(model).sems[s := count])
    {
      hide Sound, Named, SameHeld, SameRows, TimersAre, Q, ReadyIs, SameWait;
      ghost var k := model;
      sems := sems[s := count];
      assert sems.Keys == old(sems).Keys;
      model := k.(sems := sems);
      SemsKept(waits.lists, k, model);
    }

    /** `sem_post_common`. */
    method PostSem(s: SemId) returns (code: Code)
      requires Valid()
      modifies this`rows, this`sems, this`model, this`resched, waits`lists, waits.Repr, timers`lists, timers.Repr
      modifies ready.queues, ready.bitmap
      ensures Valid() && (model, code) == SemPost(old(model), s)
    {
      hide Valid, KernelState.Wake;
      KnownTask(0);
      if s !in sems {
        return Invalid;
      }
      SemListed(s);
      if !waits.Empty(SemQ(s)) {
        var first := waits.First(SemQ(s));
        Wake(first, Ok);
      } else {
        if sems[s] == SEM_MAX_COUNT {
          return Overflow;
        }
        SetCount(s, sems[s] + 1);
      }
      return Ok;
    }

    // ----- tasks

    method YieldCpu() returns (code: Code)
      requires Valid()
      modifies this`resched, this`model, ready.queues, ready.bitmap
      ensures Valid() && (model, code) == Yield(old(model))
    {
      hide Valid, RotateCurrent;
      KnownTask(0);
      if inIsr {
        return Context;
      }
      RotateRunning();
      RaiseFlag();
      return Ok;
    }

    /** `aixos_sched_rotate_current`. */
    method RotateRunning()
      requires Valid()
      modifies this`model, ready.queues, ready.bitmap
      ensures Valid() && model == RotateCurrent(old(model))
    {
      hide Sound, Named, SameHeld, SameRows, TimersAre, Q, SameWait, Rotate;
      ghost var k := model;
      if cur.Some? {
        ReadyKept(waits.lists, k, RotateCurrent(k));
        RotateReady(cur.value, PriorityOf(cur.value));
        model := RotateCurrent(k);
      }
    }

    method RotateReady(t: TaskId, p: int)
      requires Sound()
      modifies ready.queues, ready.bitmap
      ensures Sound() && ready.queues[..] == Rotate(old(ready.queues[..]), p, t)
    {
      hide RingTable.Valid, BitmapScheduler.Valid, Rotate;
      ready.RotateQueue(t, p);
    }

    method SleepFor(ms: nat) returns (code: Code)
      requires Valid() && CallerFree(model)
      modifies this`rows, this`model, this`resched, waits`lists, waits.Repr, timers`lists, timers.Repr
      modifies ready.queues, ready.bitmap
      ensures Valid() && (model, code) == Sleep(old(model), ms)
    {
      hide Valid, Block, Yield;
      KnownTask(0);
      if inIsr {
        return Context;
      }
      if ms == 0 {
        code := YieldCpu();
      } else {
        code := BlockCurrent(None, ms);
      }
    }

    /** `task_create_common`: nodes for the new task's waits and timeouts, and a held list. */
    method CreateTask(t: TaskId, p: int) returns (code: Code)
      requires Valid()
      modifies this`rows, this`model, waits, timers, holds, ready.queues, ready.bitmap
      ensures Valid() && (model, code) == TaskCreate(old(model), t, p)
      ensures fresh(waits.Repr - old(waits.Repr)) && fresh(timers.Repr - old(timers.Repr)) && fresh(holds.Repr - old(holds.Repr))
    {
      hide Valid, Add;
      KnownTask(t);
      KnownTasks();
      KeyCount(rows, model.tasks);
      if inIsr || !InRange(p) || t in rows || |rows| >= TASK_LIMIT {
        return Invalid;
      }
      NewTask(t, p);
      return Ok;
    }

    method NewTask(t: TaskId, p: nat)
      requires Valid() && t !in rows
      modifies this`rows, this`model, waits, timers, holds, ready.queues, ready.bitmap
      ensures Valid()
      ensures model == old(model).(tasks := old(model).tasks[t := Tcb(p, p, Ready, None, [], 0, Ok)],
                                   ready := Add(old(model).ready, p, t))
      ensures fresh(waits.Repr - old(waits.Repr)) && fresh(timers.Repr - old(timers.Repr)) && fresh(holds.Repr - old(holds.Repr))
    {
      hide Sound, Named, SameHeld, SameRows, TimersAre, Q, SameWait, Add, Peopled, ReadyIs, RestOf;
      KnownTasks();
      ghost var k := model;
      ghost var tcb := Tcb(p, p, Ready, None, [], 0, Ok);
      ghost var r := k.(tasks := k.tasks[t := tcb], ready := Add(k.ready, p, t));
      CreatedIs(rows, holds.lists, waits.lists, k, t, tcb, r);
      ReadyWith(t, p, k.ready);
      AddTaskNodes(t, k.timeouts);
      rows := rows[t := Row(p, p, Ready, None, 0, Ok)];
      assert rows.Keys == old(rows).Keys + {t};
      model := r;
    }

    method ReadyWith(t: TaskId, p: int, ghost q: Queues)
      requires Sound() && ReadyIs(q)
      modifies ready.queues, ready.bitmap
      ensures Sound() && ReadyIs(Add(q, p, t))
    {
      hide Sound, Add;
      AddReady(t, p);
    }

    method AddTaskNodes(t: TaskId, ghost q: seq<TaskId>)
      requires timers != holds && Sound() && Peopled(rows.Keys, mutexes.Keys) && t !in rows && t !in holds.lists && TimersAre(q)
      modifies waits, timers, holds
      ensures Sound() && Peopled(rows.Keys + {t}, mutexes.Keys) && TimersAre(q)
      ensures waits.lists == old(waits.lists) && holds.lists == old(holds.lists)[t := []]
      ensures fresh(waits.Repr - old(waits.Repr)) && fresh(timers.Repr - old(timers.Repr)) && fresh(holds.Repr - old(holds.Repr))
    {
      hide Sound;
      AddWaitNode(t);
      AddTimerNode(t);
      AddHeldList(t);
    }

    method AddWaitNode(t: TaskId)
      requires Sound() && t !in waits.nodes
      modifies waits
      ensures Sound() && waits.lists == old(waits.lists) && waits.nodes.Keys == old(waits.nodes).Keys + {t}
      ensures fresh(waits.Repr - old(waits.Repr))
    {
      hide RingTable.Valid, BitmapScheduler.Valid, OnNone;
      waits.AddNode(t);
    }

    method AddTimerNode(t: TaskId)
      requires Sound() && t !in timers.nodes
      modifies timers
      ensures Sound() && timers.lists == old(timers.lists) && timers.nodes.Keys == old(timers.nodes).Keys + {t}
      ensures fresh(timers.Repr - old(timers.Repr))
    {
      hide RingTable.Valid, BitmapScheduler.Valid, OnNone;
      timers.AddNode(t);
    }

    method AddHeldList(t: TaskId)
      requires Sound() && t !in holds.lists
      modifies holds
      ensures Sound() && holds.lists == old(holds.lists)[t := []] && holds.nodes == old(holds.nodes)
      ensures fresh(holds.Repr - old(holds.Repr))
    {
      hide RingTable.Valid, BitmapScheduler.Valid, OnNone;
      holds.Heads(t);
      holds.AddHead(t);
    }

    /** The task leaves its ready queue, if it is in one. */
    method Unready(t: TaskId)
      requires Valid() && t in rows
      modifies this`model, ready.queues, ready.bitmap
      ensures Valid() && model == old(model).(ready := Remove(old(model).ready, old(model).tasks[t].prio, t))
      ensures rows.Keys == model.tasks.Keys == old(model).tasks.Keys
    {
      hide Sound, Named, SameHeld, SameRows, TimersAre, Q, SameWait, Remove, Peopled, ReadyIs, RestOf;
      KnownTasks();
      KnownTask(t);
      ghost var k := model;
      ghost var r := k.(ready := Remove(k.ready, k.tasks[t].prio, t));
      ReadyKept(waits.lists, k, r);
      SameRest(k, r);
      ReadyWithout(t, rows[t].prio, k.ready);
      model := r;
    }

    method SetState(t: TaskId, state: TaskState)
      requires Valid() && t in rows
      modifies this`rows, this`model
      ensures Valid() && model == old(model).(tasks := old(model).tasks[t := old(model).tasks[t].(state := state)])
      ensures rows.Keys == old(rows.Keys)
    {
      hide Valid;
      KnownTask(t);
      SetRow(t, rows[t].(state := state));
    }

    /** `aixos_task_suspend`. */
    method SuspendTask(t: TaskId) returns (code: Code)
      requires Valid()
      modifies this`rows, this`model, this`resched, waits`lists, waits.Repr, timers`lists, timers.Repr
      modifies ready.queues, ready.bitmap
      ensures Valid() && (model, code) == TaskSuspend(old(model), t)
    {
      hide Valid, Detach, Remove;
      KnownTask(t);
      if inIsr {
        return Context;
      }
      if t !in rows || rows[t].state == Suspended {
        return Invalid;
      }
      if cur == Some(t) && locked {
        return Locked;
      }
      Unready(t);
      KnownTask(t);
      if rows[t].state in {Blocked, Delayed} {
        DetachWait(t, Interrupted);
        KnownTask(t);
      }
      SetState(t, Suspended);
      if cur == Some(t) {
        RaiseFlag();
      }
      return Ok;
    }

    /** `aixos_task_resume`. */
    method ResumeTask(t: TaskId) returns (code: Code)
      requires Valid()
      modifies this`rows, this`model, this`resched, ready.queues, ready.bitmap
      ensures Valid() && (model, code) == TaskResume(old(model), t)
    {
      hide Valid, MakeReady;
      KnownTask(t);
      if inIsr {
        return Context;
      }
      if t !in rows || rows[t].state != Suspended {
        return Invalid;
      }
      EnterReady(t);
      return Ok;
    }

    /** `aixos_task_delete`. */
    method DeleteTask(t: TaskId) returns (code: Code)
      requires Valid()
      modifies this`rows, this`model, this`resched, waits, waits.Repr, timers, timers.Repr, holds, ready.queues, ready.bitmap
      ensures Valid() && (model, code) == TaskDelete(old(model), t)
      ensures waits.Repr == old(waits.Repr) && timers.Repr == old(timers.Repr) && holds.Repr == old(holds.Repr)
    {
      hide Valid, Detach, Remove;
      KnownTask(t);
      if t !in rows {
        return Invalid;
      }
      HeldOf(t);
      if !holds.Empty(t) {
        return Busy;
      }
      if cur == Some(t) && locked {
        return Locked;
      }
      RemoveTask(t);
      return Ok;
    }

    /** Off the ready queue, the wait list and the timeout list. */
    method LeaveAll(t: TaskId)
      requires Valid() && t in rows
      modifies this`rows, this`model, waits`lists, waits.Repr, timers`lists, timers.Repr, ready.queues, ready.bitmap
      ensures Valid() && t in rows && t in old(model).tasks && t !in model.timeouts && forall l :: t !in Q(model, l)
      ensures var k := old(model); model == Detach(k.(ready := Remove(k.ready, k.tasks[t].prio, t)), t, Interrupted)
    {
      hide Valid, Detach, Remove, Q;
      KnownTask(t);
      Unready(t);
      DetachWait(t, Interrupted);
    }

    /** A task that holds nothing leaves every structure. */
    method RemoveTask(t: TaskId)
      requires Valid() && t in rows && model.tasks[t].held == []
      modifies this`rows, this`model, this`resched, waits, waits.Repr, timers, timers.Repr, holds, ready.queues, ready.bitmap
      ensures Valid() && waits.Repr == old(waits.Repr) && timers.Repr == old(timers.Repr) && holds.Repr == old(holds.Repr)
      ensures var k := old(model); var k1 := Detach(k.(ready := Remove(k.ready, k.tasks[t].prio, t)), t, Interrupted);
              model == k1.(tasks := k1.tasks - {t}, resched := k1.resched || k.cur == Some(t))
    {
      hide Valid, Detach, Remove, Q;
      KnownTask(t);
      HeldOf(t);
      LeaveAll(t);
      ForgetTask(t);
      if cur == Some(t) {
        RaiseFlag();
      }
    }

    /** The task's nodes and its empty held list go away. */
    method ForgetTask(t: TaskId)
      requires Valid() && t in rows && t !in model.timeouts && (forall l :: t !in Q(model, l))
      requires t in holds.lists && holds.lists[t] == []
      modifies this`rows, this`model, waits, timers, holds
      ensures Valid() && model == old(model).(tasks := old(model).tasks - {t})
      ensures waits.Repr == old(waits.Repr) && timers.Repr == old(timers.Repr) && holds.Repr == old(holds.Repr)
    {
      hide Sound, Named, SameHeld, SameRows, TimersAre, Q, SameWait, Peopled, ReadyIs, RestOf, OnNone;
      ghost var k := model;
      ForgottenIs(rows, holds.lists, waits.lists, k, t);
      DropTaskNodes(t, k.timeouts);
      rows := rows - {t};
      assert rows.Keys == old(rows).Keys - {t};
      model := k.(tasks := k.tasks - {t});
    }

    method DropTaskNodes(t: TaskId, ghost q: seq<TaskId>)
      requires timers != holds && Sound() && Peopled(rows.Keys, mutexes.Keys) && t in rows && TimersAre(q) && t !in q
      requires OnNone(waits.lists, t) && t in holds.lists && holds.lists[t] == []
      modifies waits, timers, holds
      ensures Sound() && Peopled(rows.Keys - {t}, mutexes.Keys) && TimersAre(q)
      ensures waits.lists == old(waits.lists) && holds.lists == old(holds.lists) - {t}
      ensures waits.Repr == old(waits.Repr) && timers.Repr == old(timers.Repr) && holds.Repr == old(holds.Repr)
    {
      hide RingTable.Valid, BitmapScheduler.Valid;
      assert OnNone(timers.lists, t);
      hide OnNone;
      holds.Heads(t);
      waits.DropNode(t);
      timers.DropNode(t);
      holds.DropHead(t);
    }

    method MoveToBase(t: TaskId, p: nat)
      requires Valid() && t in rows
      modifies this`rows, this`model, waits`lists, waits.Repr, ready.queues, ready.bitmap
      ensures Valid() && model == Rebase(old(model), t, p) && rows.Keys == old(rows.Keys)
    {
      hide Valid, Requeue, Resort;
      KnownTask(t);
      Requeued(t, rows[t].prio, p);
      SetRow(t, rows[t].(base := p, prio := p));
      ResortWaiter(t);
    }

    /** `aixos_task_set_priority`. */
    method ChangePriority(t: TaskId, p: int) returns (code: Code)
      requires Valid()
      modifies this`rows, this`model, this`resched, waits`lists, waits.Repr, ready.queues, ready.bitmap
      ensures Valid() && (model, code) == SetPriority(old(model), t, p)
    {
      hide Valid, Rebase, RecomputeOwner, Recompute, KernelState.RequestPreemption, KernelState.Linked;
      KnownTask(t);
      if !InRange(p) || t !in rows {
        return Invalid;
      }
      MoveToBase(t, p);
      KnownTask(t);
      var on := OnWaitList(t);
      if on && rows[t].wait.value.MutexQ? {
        RecomputeOwnerOf(rows[t].wait.value.mutex);
      }
      RecomputeChain(t, 0);
      RequestPreemption();
      return Ok;
    }

    // ----- the tick and the scheduler

    lemma TimersKnown()
      requires Valid()
      ensures timers.Valid() && CLOCK in timers.lists && timers.lists[CLOCK] == model.timeouts && timers != holds
      ensures CLOCK in timers.heads
      ensures timers.Stop(CLOCK, 1) == if model.timeouts == [] then timers.heads[CLOCK] else timers.nodes[model.timeouts[0]]
      ensures timers.Stop(CLOCK, 1) == timers.heads[CLOCK] <==> model.timeouts == []
      ensures model.timeouts != [] ==> timers.Stop(CLOCK, 1).item == model.timeouts[0]
      ensures |model.timeouts| > 0 ==>
                timers.Stop(CLOCK, 2) == if |model.timeouts| == 1 then timers.heads[CLOCK] else timers.nodes[model.timeouts[1]]
    {
      hide RingTable.Valid, BitmapScheduler.Valid, RingTable.Stop, Named, SameHeld, SameRows, SameWait;
      assert timers.lists[CLOCK] == model.timeouts;
      timers.Heads(CLOCK);
      timers.Stops(CLOCK, 1);
      if |model.timeouts| > 0 {
        timers.Stops(CLOCK, 2);
      }
    }

    /** The walk of `aixos_task_tick`, which keeps the next node before it wakes a task, and
        stops at the first that is not due. */
    method ExpireTimeouts()
      requires Valid() && Midway(model)
      modifies this`rows, this`model, this`resched, waits`lists, waits.Repr, timers`lists, timers.Repr, ready.queues, ready.bitmap
      ensures Valid() && model == Expire(old(model), old(model).timeouts)
    {
      hide Valid, RingTable.Valid, RingTable.Stop, KernelState.Wake, Expire, TickReached, Midway;
      TimersKnown();
      var position := timers.FirstStop(CLOCK);
      while position != timers.heads[CLOCK]
        invariant Valid() && Midway(model) && timers.Valid() && CLOCK in timers.lists && timers.lists[CLOCK] == model.timeouts
        invariant CLOCK in timers.heads && position == timers.Stop(CLOCK, 1)
        invariant position == timers.heads[CLOCK] <==> model.timeouts == []
        invariant Expire(model, model.timeouts) == Expire(old(model), old(model).timeouts)
        invariant rows.Keys == old(rows.Keys)
        decreases |model.timeouts|
      {
        TimersKnown();
        var next := timers.Following(position, CLOCK, 1);
        var t := position.item;
        KnownTask(t);
        ExpireOne(model);
        if !TickReached(now, rows[t].wakeTick) {
          break;
        }
        ghost var k := model;
        Wake(t, if rows[t].state == Delayed then Ok else Timeout);
        TimersKnown();
        position := next;
      }
      ExpireEnds(model);
    }

    method HandleTick()
      requires Valid() && KernelInvariant.Inv(model)
      modifies this`rows, this`model, this`resched, this`now, waits`lists, waits.Repr, timers`lists, timers.Repr
      modifies ready.queues, ready.bitmap
      ensures Valid() && model == Tick(old(model))
    {
      hide Valid, Expire, KernelInvariant.Inv, Midway;
      LaterMidway(model);
      CountTick();
      ExpireTimeouts();
    }

    method CountTick()
      requires Valid()
      modifies this`now, this`model
      ensures Valid() && model == old(model).(now := old(model).now + 1)
    {
      hide Sound, Named, SameHeld, SameRows, TimersAre, Q, SameWait, Peopled, ReadyIs;
      FlagKept(waits.lists, model, model.(now := now + 1));
      model := model.(now := now + 1);
      now := now + 1;
    }

    method SetCurrent(next: Option<TaskId>)
      requires Valid()
      modifies this`cur, this`resched, this`model
      ensures Valid() && model == old(model).(cur := next, resched := false)
    {
      hide Sound, Named, SameHeld, SameRows, TimersAre, Q, SameWait, Peopled, ReadyIs;
      FlagKept(waits.lists, model, model.(cur := next, resched := false));
      model := model.(cur := next, resched := false);
      cur, resched := next, false;
    }

    method SetEnvironment(isr: bool, lock: bool)
      requires Valid()
      modifies this`inIsr, this`locked, this`model
      ensures Valid() && model == old(model).(inIsr := isr, locked := lock)
    {
      hide Sound, Named, SameHeld, SameRows, TimersAre, Q, SameWait, Peopled, ReadyIs;
      FlagKept(waits.lists, model, model.(inIsr := isr, locked := lock));
      model := model.(inIsr := isr, locked := lock);
      inIsr, locked := isr, lock;
    }

    /** `aixos_schedule`. */
    method SwitchContext()
      requires Valid()
      modifies this`rows, this`cur, this`resched, this`model
      ensures Valid() && model == Schedule(old(model))
    {
      hide Valid, Highest;
      KnownTask(0);
      if cur.Some? {
        KnownTask(cur.value);
        if cur.value in rows && rows[cur.value].state == Running {
          SetState(cur.value, Ready);
        }
      }
      var next := HighestReady();
      SetCurrent(next);
      if next.Some? {
        KnownTask(next.value);
        if next.value in rows {
          SetState(next.value, Running);
        }
      }
    }

    /** Any call, tick or switch the kernel's callers may make: what it does is what the
        functions say, and the invariant holds again. */
    method Perform(op: KernelRun.Op) returns (code: Code)
      requires Valid() && KernelInvariant.Inv(model) && KernelRun.Allowed(model, op)
      modifies this, waits, waits.Repr, timers, timers.Repr, holds, holds.Repr, ready.queues, ready.bitmap
      ensures Valid() && (model, code) == KernelRun.Apply(old(model), op) && KernelInvariant.Inv(model)
      ensures fresh(waits.Repr - old(waits.Repr)) && fresh(timers.Repr - old(timers.Repr)) && fresh(holds.Repr - old(holds.Repr))
    {
      hide Valid, KernelInvariant.Inv, KernelRun.Allowed, MutexCreate, MutexLock, MutexUnlock, MutexDelete, SemCreate;
      hide SemWait, SemPost, TaskCreate, TaskDelete, TaskSuspend, TaskResume, SetPriority, Yield, Sleep, Tick, Schedule;
      hide CallerFree, HoldersAgree, TaskCalls.Ticked, KernelInvariant.SameClock;
      KernelRun.ApplyKeeps(model, op);
      InvHolders(model);
      CallerIsFree(model, op);
      code := Ok;
      match op
      case OpMutexCreate(m) => code := CreateMutex(m);
      case OpMutexLock(m, ms) => code := LockMutex(m, ms);
      case OpMutexUnlock(m) => code := UnlockMutex(m);
      case OpMutexDelete(m) => code := DeleteMutex(m);
      case OpSemCreate(s, count) => code := CreateSem(s, count);
      case OpSemWait(s, ms) => code := WaitSem(s, ms);
      case OpSemPost(s) => code := PostSem(s);
      case OpTaskCreate(t, p) => code := CreateTask(t, p);
      case OpTaskDelete(t) => code := DeleteTask(t);
      case OpTaskSuspend(t) => code := SuspendTask(t);
      case OpTaskResume(t) => code := ResumeTask(t);
      case OpSetPriority(t, p) => code := ChangePriority(t, p);
      case OpYield => code := YieldCpu();
      case OpSleep(ms) => code := SleepFor(ms);
      case OpTick => HandleTick();
      case OpSchedule => SwitchContext();
      case OpEnvironment(isr, lock) => SetEnvironment(isr, lock);
    }

    lemma HeldOf(t: TaskId)
      requires Valid() && t in rows
      ensures holds.Valid() && timers != holds && t in holds.lists && t in holds.heads && t in model.tasks
      ensures holds.lists[t] == model.tasks[t].held && rows[t].base == model.tasks[t].base
      ensures forall m :: m in holds.lists[t] ==> m in mutexes
    {
      hide BitmapScheduler.Valid, Named;
      assert holds.RingAt(t);
    }
  }

  lemma FlagKept(lists: map<WaitList, seq<nat>>, k: K, r: K)
    requires SameWait(lists, k) && Named(k) && r == k.(resched := r.resched, cur := r.cur, now := r.now, inIsr := r.inIsr, locked := r.locked)
    ensures SameWait(lists, r) && Named(r)
  {
    assert forall l :: Q(r, l) == Q(k, l);
  }

  lemma ListedIsLinked(lists: map<WaitList, seq<nat>>, k: K, t: TaskId)
    requires SameWait(lists, k) && Named(k)
    ensures !KernelState.Linked(k, t) ==> forall l :: t !in Q(k, l)
    ensures KernelState.Linked(k, t) ==> forall l :: t in Q(k, l) <==> k.tasks[t].wait == Some(l)
  {}

  lemma UnlinkIs(lists: map<WaitList, seq<nat>>, k: K, t: TaskId)
    requires SameWait(lists, k) && Named(k) && t in k.tasks && KernelState.Linked(k, t)
    requires forall l :: l in lists ==> NoDup(lists[l])
    ensures var l := k.tasks[t].wait.value; var r := Unlink(k, t);
            && l in lists && t in lists[l] && r == k.(waiters := r.waiters) && RestOf(r) == RestOf(k)
            && SameWait(lists[l := Without(lists[l], t)], r) && Named(r) && forall x :: t !in Q(r, x)
  {
    var l := k.tasks[t].wait.value;
    var q := Without(Q(k, l), t);
    ListedIsLinked(lists, k, t);
    WaitSet(lists, k, l, q, Unlink(k, t));
    assert t in Q(k, l) && Q(k, l) == lists[l];
    WithoutIsDeletion(lists[l], t);
    hide SameWait, Without;
    NamedKept(k, Unlink(k, t));
  }

  /** Recomputation puts nobody on a list. */
  lemma {:induction false} ChainMembers(k: K, owner: TaskId, depth: nat, t: TaskId)
    requires forall l :: t !in Q(k, l)
    ensures forall l :: t !in Q(Recompute(k, owner, depth), l)
    ensures Recompute(k, owner, depth).tasks.Keys == k.tasks.Keys
    decreases TASK_LIMIT - depth
  {
    if owner in k.tasks && depth < TASK_LIMIT {
      var k1 := Reprioritise(k, owner, Effective(k, owner));
      RepriceMembers(k, owner, Effective(k, owner), t);
      hide Reprioritise, Effective, Q;
      match Next(k1, owner)
      case None =>
      case Some(next) => ChainMembers(k1, next, depth + 1, t);
    }
  }

  lemma RepriceMembers(k: K, u: TaskId, p: int, t: TaskId)
    requires u in k.tasks && forall l :: t !in Q(k, l)
    ensures forall l :: t !in Q(Reprioritise(k, u, p), l)
    ensures Reprioritise(k, u, p).tasks.Keys == k.tasks.Keys
  {
    hide Requeue, InsertByPriority, Without;
    var k1 := k.(tasks := k.tasks[u := k.tasks[u].(prio := p)], ready := Requeue(k.ready, k.tasks[u].prio, p, u));
    assert forall l :: Q(k1, l) == Q(k, l);
    if KernelState.Linked(k1, u) {
      var l := k1.tasks[u].wait.value;
      assert u in Q(k1, l) && u != t;
      if t in InsertByPriority(k1.tasks, Without(Q(k1, l), u), u) {
        ResortMembers(k1.tasks, Q(k1, l), u, t);
      }
      assert forall x :: x != l ==> Q(Resort(k1, u), x) == Q(k1, x);
    }
  }

  lemma RecomputeMembers(k: K, m: MutexId, t: TaskId)
    requires forall l :: t !in Q(k, l)
    ensures forall l :: t !in Q(RecomputeOwner(k, m), l)
    ensures RecomputeOwner(k, m).tasks.Keys == k.tasks.Keys
  {
    hide Recompute, Q;
    match Owner(k, m)
    case None =>
    case Some(owner) => ChainMembers(k, owner, 0, t);
  }

  lemma ClearedIs(k: K, t: TaskId, result: Code)
    requires (forall l :: t !in Q(k, l)) && NoDup(k.timeouts)
    ensures t in k.tasks ==> (forall l :: t !in Q(ClearWait(k, t, result), l)) && t !in ClearWait(k, t, result).timeouts
  {
    WithoutIsDeletion(k.timeouts, t);
    assert forall l :: Q(ClearWait(k, t, result), l) == Q(k, l);
  }

  /** A task that names a list gets on it. */
  lemma JoinedIs(lists: map<WaitList, seq<nat>>, k: K, t: TaskId, l: WaitList, r: K)
    requires SameWait(lists, k) && Named(k) && t in k.tasks && k.tasks[t].wait == Some(l) && l in lists
    requires (forall x :: t !in Q(k, x)) && r == k.(waiters := k.waiters[l := InsertByPriority(k.tasks, Q(k, l), t)])
    ensures SameWait(lists[l := InsertByPriority(k.tasks, lists[l], t)], r) && Named(r) && OnNone(lists, t)
  {
    hide InsertByPriority;
    forall x | x in lists ensures t !in lists[x] {
      assert Q(k, x) == lists[x];
    }
    ListIs(lists, k, l);
    WaitSet(lists, k, l, InsertByPriority(k.tasks, Q(k, l), t), r);
    hide SameWait, Q;
    NamedParked(k, t, l, r);
  }

  /** Timeouts, queues and flags are nothing to the wait lists. */
  lemma ListsKept(lists: map<WaitList, seq<nat>>, k: K, r: K)
    requires SameWait(lists, k) && Named(k) && r == k.(timeouts := r.timeouts)
    ensures SameWait(lists, r) && Named(r) && forall l :: Q(r, l) == Q(k, l)
  {
    WaitKept(lists, k, r);
    assert forall l :: Q(r, l) == Q(k, l);
  }

  lemma SameLists(k: K, r: K)
    requires k.waiters == r.waiters
    ensures forall x :: Q(r, x) == Q(k, x)
  {}

  lemma ListIs(lists: map<WaitList, seq<nat>>, k: K, l: WaitList)
    requires SameWait(lists, k) && l in lists
    ensures Q(k, l) == lists[l]
  {}

  lemma NamedParked(k1: K, t: TaskId, l: WaitList, r: K)
    requires Named(k1) && t in k1.tasks && k1.tasks[t].wait == Some(l) && r.tasks == k1.tasks
    requires Q(r, l) == InsertByPriority(k1.tasks, Q(k1, l), t) && forall x :: x != l ==> Q(r, x) == Q(k1, x)
    ensures Named(r)
  {
    hide InsertByPriority, Q;
    forall x, u | u in Q(r, x) ensures u in r.tasks && r.tasks[u].wait == Some(x) {
      if x == l && u != t {
        InsertMembers(r.tasks, Q(k1, x), t, u);
      }
      assert u != t || x != l ==> u in Q(k1, x);
    }
  }

  lemma InsertMembers(tasks: map<TaskId, Tcb>, q: seq<TaskId>, t: TaskId, u: TaskId)
    requires u in InsertByPriority(tasks, q, t) && u != t
    ensures u in q
  {
    hide PriorityPosition;
    var i := PriorityPosition(tasks, q, t);
    assert InsertByPriority(tasks, q, t) == q[..i] + [t] + q[i..];
  }

  lemma NewList(lists: map<WaitList, seq<nat>>, k: K, l: WaitList, r: K)
    requires SameWait(lists, k) && Named(k) && !Waitable(k, l) && r == k.(mutexes := r.mutexes, sems := r.sems)
    requires forall x :: Waitable(r, x) <==> x == l || Waitable(k, x)
    ensures SameWait(lists[l := []], r) && Named(r) && l !in lists
  {
    assert forall x :: Q(r, x) == Q(k, x);
  }

  lemma ListGone(lists: map<WaitList, seq<nat>>, k: K, m: MutexId)
    requires SameWait(lists, k) && Named(k) && m in k.mutexes && Q(k, MutexQ(m)) == []
    ensures var r := k.(mutexes := k.mutexes - {m});
            && SameWait(lists - {MutexQ(m)}, r) && Named(r)
            && MutexQ(m) in lists && lists[MutexQ(m)] == []
  {
    var r := k.(mutexes := k.mutexes - {m});
    assert forall x :: Q(r, x) == Q(k, x);
    assert forall x :: Waitable(r, x) <==> Waitable(k, x) && x != MutexQ(m);
  }

  lemma LetGoIs(rows: map<TaskId, Row>, held: map<TaskId, seq<nat>>, lists: map<WaitList, seq<nat>>,
                k: K, m: MutexId, t: TaskId)
    requires SameRows(rows, k.tasks) && SameHeld(held, k.tasks) && SameWait(lists, k) && Named(k) && t in k.tasks
    ensures var r := k.(tasks := k.tasks[t := k.tasks[t].(held := Without(k.tasks[t].held, m))]);
            && SameRows(rows, r.tasks) && t in held && held[t] == k.tasks[t].held
            && SameHeld(held[t := Without(held[t], m)], r.tasks) && SameWait(lists, r) && Named(r)
  {
    var without := Without(k.tasks[t].held, m);
    hide Without;
    var r := k.(tasks := k.tasks[t := k.tasks[t].(held := without)]);
    HeldRows(rows, k.tasks, t, without);
    HeldSet(held, k.tasks, t, r.tasks[t]);
    WaitKept(lists, k, r);
    hide SameWait, SameRows;
    NamedHeld(k, r, t, without);
  }

  /** A list that is empty stays empty through a recomputation. */
  lemma {:induction false} EmptyStays(k: K, owner: TaskId, depth: nat, l: WaitList)
    requires Q(k, l) == []
    ensures Q(Recompute(k, owner, depth), l) == []
    decreases TASK_LIMIT - depth
  {
    if owner in k.tasks && depth < TASK_LIMIT {
      var k1 := Reprioritise(k, owner, Effective(k, owner));
      RepriceEmpty(k, owner, Effective(k, owner), l);
      hide Reprioritise, Effective, Q;
      match Next(k1, owner)
      case None =>
      case Some(next) => EmptyStays(k1, next, depth + 1, l);
    }
  }

  lemma RepriceEmpty(k: K, u: TaskId, p: int, l: WaitList)
    requires u in k.tasks && Q(k, l) == []
    ensures Q(Reprioritise(k, u, p), l) == []
  {
    hide Requeue, InsertByPriority, Without;
  }

  lemma SemsKept(lists: map<WaitList, seq<nat>>, k: K, r: K)
    requires SameWait(lists, k) && Named(k) && r == k.(sems := r.sems) && r.sems.Keys == k.sems.Keys
    ensures SameWait(lists, r) && Named(r)
  {
    WaitKept(lists, k, r);
    assert forall l :: Q(r, l) == Q(k, l);
  }

  lemma ReadyKept(lists: map<WaitList, seq<nat>>, k: K, r: K)
    requires SameWait(lists, k) && Named(k) && r == k.(ready := r.ready)
    ensures SameWait(lists, r) && Named(r)
  {
    WaitKept(lists, k, r);
    assert forall l :: Q(r, l) == Q(k, l);
  }

  lemma KeyCount(rows: map<TaskId, Row>, tasks: map<TaskId, Tcb>)
    requires rows.Keys == tasks.Keys
    ensures |rows| == |tasks|
  {
    assert |rows| == |rows.Keys| && |tasks| == |tasks.Keys|;
  }

  lemma CreatedIs(rows: map<TaskId, Row>, held: map<TaskId, seq<nat>>, lists: map<WaitList, seq<nat>>,
                  k: K, t: TaskId, tcb: Tcb, r: K)
    requires SameRows(rows, k.tasks) && SameHeld(held, k.tasks) && SameWait(lists, k) && Named(k) && t !in k.tasks
    requires tcb.held == [] && r == k.(tasks := k.tasks[t := tcb], ready := r.ready)
    ensures SameRows(rows[t := RowOf(tcb)], r.tasks) && SameHeld(held[t := []], r.tasks) && t !in held
    ensures SameWait(lists, r) && Named(r) && RestOf(r) == RestOf(k)
  {
    WaitKept(lists, k, r);
    assert forall l :: Q(r, l) == Q(k, l);
    forall l, u | u in Q(r, l) ensures u in r.tasks && r.tasks[u].wait == Some(l) {
      assert u in Q(k, l);
    }
  }

  lemma SameRest(k: K, r: K)
    requires r == k.(tasks := r.tasks, waiters := r.waiters, ready := r.ready, timeouts := r.timeouts)
    ensures RestOf(r) == RestOf(k)
  {}

  lemma ForgottenIs(rows: map<TaskId, Row>, held: map<TaskId, seq<nat>>, lists: map<WaitList, seq<nat>>, k: K, t: TaskId)
    requires SameRows(rows, k.tasks) && SameHeld(held, k.tasks) && SameWait(lists, k) && Named(k) && t in rows
    requires forall l :: t !in Q(k, l)
    ensures var r := k.(tasks := k.tasks - {t});
            && SameRows(rows - {t}, r.tasks) && SameHeld(held - {t}, r.tasks) && SameWait(lists, r) && Named(r)
            && RestOf(r) == RestOf(k) && OnNone(lists, t)
  {
    var r := k.(tasks := k.tasks - {t});
    WaitKept(lists, k, r);
    assert forall l :: Q(r, l) == Q(k, l);
    forall l, u | u in Q(r, l) ensures u in r.tasks && r.tasks[u].wait == Some(l) {
      assert u in Q(k, l) && u != t;
    }
    forall x | x in lists ensures t !in lists[x] {
      assert Q(k, x) == lists[x];
    }
  }

  /** The caller of a blocking call is on no wait list and waits for no time. */
  ghost predicate CallerFree(k: K) {
    k.cur.Some? && k.cur.value in k.tasks && !k.inIsr ==>
      k.cur.value !in k.timeouts && forall l :: k.cur.value !in Q(k, l)
  }

  /** Held lists and owner fields are inverse. */
  ghost predicate HoldersAgree(k: K) {
    forall t, m :: t in k.tasks ==> (m in k.tasks[t].held <==> Owner(k, m) == Some(t))
  }

  ghost predicate HeldByNone(k: K, m: MutexId) { forall t :: t in k.tasks ==> m !in k.tasks[t].held }

  function Taken(k: K, m: MutexId, t: TaskId): K
    requires t in k.tasks
  {
    k.(mutexes := k.mutexes[m := Mutex(Some(t), 1)], tasks := k.tasks[t := k.tasks[t].(held := k.tasks[t].held + [m])])
  }

  function Dropped(k: K, m: MutexId, t: TaskId): K
    requires t in k.tasks
  {
    k.(mutexes := k.mutexes[m := Mutex(None, 0)], tasks := k.tasks[t := k.tasks[t].(held := Without(k.tasks[t].held, m))])
  }

  lemma InvHolders(k: K)
    requires KernelInvariant.Inv(k)
    ensures HoldersAgree(k)
  {}

  /** A running task is on no list. */
  lemma CallerIsFree(k: K, op: KernelRun.Op)
    requires KernelInvariant.Inv(k) && KernelRun.Allowed(k, op)
    ensures op.OpMutexLock? || op.OpSemWait? || op.OpSleep? ==> CallerFree(k)
  {
    hide KernelInvariant.Inherits, KernelInvariant.Waits, KernelInvariant.Counts, KernelCalls.NoDeadlock;
    InvParts(k);
    if KernelCalls.CallerRuns(k) && k.cur.Some? && k.cur.value in k.tasks && !k.inIsr {
      RunningIsFree(k, k.cur.value);
    }
  }

  lemma InvParts(k: K)
    requires KernelInvariant.Inv(k)
    ensures KernelInvariant.Waits(k) && Named(k)
  {
    hide KernelInvariant.Waits, KernelInvariant.Counts;
  }

  lemma RunningIsFree(k: K, t: TaskId)
    requires KernelInvariant.Waits(k) && Named(k) && t in k.tasks && k.tasks[t].state == Running
    ensures t !in k.timeouts && forall l :: t !in Q(k, l)
  {
    hide Q;
  }

  /** The state in the middle of a tick: tasks may be due. */
  ghost predicate Midway(k: K) { KernelInvariant.Inherits(k) && KernelInvariant.Rest(k, 0) }

  lemma LaterMidway(k: K)
    requires KernelInvariant.Inv(k)
    ensures Midway(k.(now := k.now + 1))
  {
    TaskCalls.LaterInherits(k);
  }

  /** Waking the first due task takes it, and only it, off the timeout list. */
  lemma ExpireOne(k: K)
    requires Midway(k) && k.timeouts != []
    ensures var t := k.timeouts[0];
            t in k.tasks && (TickReached(k.now, WakeTick(k.tasks, t)) ==>
              var r := KernelState.Wake(k, t, if k.tasks[t].state == Delayed then Ok else Timeout);
              Midway(r) && r.timeouts == k.timeouts[1..] && Expire(r, r.timeouts) == Expire(k, k.timeouts))
  {
    var t := k.timeouts[0];
    TaskCalls.FirstOf(k);
    if TickReached(k.now, WakeTick(k.tasks, t)) {
      var result := if k.tasks[t].state == Delayed then Ok else Timeout;
      KernelInvariant.WakeStep(k, t, result, 0);
    }
  }

  lemma ExpireEnds(k: K)
    ensures k.timeouts == [] || !TickReached(k.now, WakeTick(k.tasks, k.timeouts[0])) ==> Expire(k, k.timeouts) == k
  {}

  lemma NobodyHolds(k: K, m: MutexId)
    requires HoldersAgree(k) && Owner(k, m).None?
    ensures HeldByNone(k, m)
  {}

  lemma HolderOf(k: K, m: MutexId, t: TaskId)
    requires HoldersAgree(k) && t in k.tasks && Owner(k, m) == Some(t)
    ensures m in k.tasks[t].held
  {}

  lemma HandOverIs(k: K, m: MutexId, self: TaskId)
    requires m in k.mutexes && self in k.tasks
    requires Q(k, MutexQ(m)) != [] ==> Q(k, MutexQ(m))[0] in k.tasks
    ensures var d := Dropped(k, m, self); var q := Q(k, MutexQ(m));
            && Q(d, MutexQ(m)) == q && d.tasks.Keys == k.tasks.Keys
            && HandOver(k, m, self) == if q != [] then Taken(d, m, q[0]) else d
  {
    hide Without;
  }

  lemma BlockedTimeouts(k: K, t: TaskId, l: Option<WaitList>)
    requires t in k.tasks
    ensures var r := Park(k, t, l);
            && r.timeouts == k.timeouts && r.tasks.Keys == k.tasks.Keys
            && (l.Some? && l.value.MutexQ? ==> RecomputeOwner(r, l.value.mutex).timeouts == k.timeouts
                                               && RecomputeOwner(r, l.value.mutex).tasks.Keys == k.tasks.Keys)
  {
    hide InsertByPriority, Remove;
    if l.Some? && l.value.MutexQ? {
      var r := Park(k, t, l);
      hide Park, Recompute;
      match Owner(r, l.value.mutex)
      case None =>
      case Some(owner) => ChainTimeouts(r, owner, 0);
    }
  }

  lemma {:induction false} ChainTimeouts(k: K, owner: TaskId, depth: nat)
    ensures Recompute(k, owner, depth).timeouts == k.timeouts
    ensures Recompute(k, owner, depth).tasks.Keys == k.tasks.Keys
    decreases TASK_LIMIT - depth
  {
    if owner in k.tasks && depth < TASK_LIMIT {
      var k1 := Reprioritise(k, owner, Effective(k, owner));
      RepriceTimeouts(k, owner, Effective(k, owner));
      hide Reprioritise, Effective;
      match Next(k1, owner)
      case None =>
      case Some(next) => ChainTimeouts(k1, next, depth + 1);
    }
  }

  lemma RepriceTimeouts(k: K, u: TaskId, p: int)
    requires u in k.tasks
    ensures Reprioritise(k, u, p).timeouts == k.timeouts && Reprioritise(k, u, p).tasks.Keys == k.tasks.Keys
  {
    hide Requeue, InsertByPriority, Without;
  }

  lemma MutexesKept(lists: map<WaitList, seq<nat>>, k: K, r: K)
    requires SameWait(lists, k) && Named(k) && r == k.(mutexes := r.mutexes) && r.mutexes.Keys == k.mutexes.Keys
    ensures SameWait(lists, r) && Named(r)
  {
    WaitKept(lists, k, r);
    assert forall l :: Q(r, l) == Q(k, l);
  }

  lemma HeldRows(rows: map<TaskId, Row>, tasks: map<TaskId, Tcb>, t: TaskId, held: seq<MutexId>)
    requires SameRows(rows, tasks) && t in tasks
    ensures SameRows(rows, tasks[t := tasks[t].(held := held)])
  {}

  lemma NamedHeld(k: K, r: K, t: TaskId, held: seq<MutexId>)
    requires Named(k) && t in k.tasks && r.tasks == k.tasks[t := k.tasks[t].(held := held)] && r.waiters == k.waiters
    ensures Named(r)
  {
    assert forall l :: Q(r, l) == Q(k, l);
  }

  lemma TakenIs(rows: map<TaskId, Row>, held: map<TaskId, seq<nat>>, lists: map<WaitList, seq<nat>>,
                k: K, m: MutexId, t: TaskId)
    requires SameRows(rows, k.tasks) && SameHeld(held, k.tasks) && SameWait(lists, k) && Named(k) && t in k.tasks
    requires m in k.mutexes && HeldByNone(k, m)
    ensures var r := Taken(k, m, t);
            && SameRows(rows, r.tasks) && t in held && SameHeld(held[t := held[t] + [m]], r.tasks)
            && SameWait(lists, r) && Named(r) && OnNone(held, m) && r.timeouts == k.timeouts && r.ready == k.ready
  {
    var r := Taken(k, m, t);
    HeldRows(rows, k.tasks, t, k.tasks[t].held + [m]);
    HeldSet(held, k.tasks, t, r.tasks[t]);
    WaitKept(lists, k, r);
    hide SameWait, SameRows;
    NamedHeld(k, r, t, k.tasks[t].held + [m]);
  }

  lemma DroppedIs(rows: map<TaskId, Row>, held: map<TaskId, seq<nat>>, lists: map<WaitList, seq<nat>>,
                  k: K, m: MutexId, t: TaskId)
    requires SameRows(rows, k.tasks) && SameHeld(held, k.tasks) && SameWait(lists, k) && Named(k) && t in k.tasks
    requires m in k.mutexes
    ensures var r := Dropped(k, m, t);
            && SameRows(rows, r.tasks) && t in held && held[t] == k.tasks[t].held
            && SameHeld(held[t := Without(held[t], m)], r.tasks)
            && SameWait(lists, r) && Named(r) && r.timeouts == k.timeouts && r.ready == k.ready
  {
    var r := Dropped(k, m, t);
    var without := Without(k.tasks[t].held, m);
    hide Without;
    HeldRows(rows, k.tasks, t, without);
    HeldSet(held, k.tasks, t, r.tasks[t]);
    WaitKept(lists, k, r);
    hide SameWait, SameRows;
    NamedHeld(k, r, t, without);
  }

  lemma NoneHolds(held: map<TaskId, seq<nat>>, k: K, m: MutexId)
    requires SameHeld(held, k.tasks) && OnNone(held, m)
    ensures HeldByNone(k, m)
  {}

  lemma NotResorted(k: K, t: TaskId)
    ensures !KernelState.Linked(k, t) ==> Resort(k, t) == k
    ensures KernelState.Linked(k, t) ==> t in k.tasks && k.tasks[t].wait.Some?
  {}

  lemma ResortIs(lists: map<WaitList, seq<nat>>, k: K, t: TaskId)
    requires SameWait(lists, k) && Named(k) && t in k.tasks && KernelState.Linked(k, t)
    ensures var l := k.tasks[t].wait.value; var r := Resort(k, t);
            && l in lists && t in lists[l] && r == k.(waiters := r.waiters) && RestOf(r) == RestOf(k)
            && SameWait(lists[l := InsertByPriority(k.tasks, Without(lists[l], t), t)], r) && Named(r)
  {
    var l := k.tasks[t].wait.value;
    var q := InsertByPriority(k.tasks, Without(Q(k, l), t), t);
    WaitSet(lists, k, l, q, Resort(k, t));
    assert t in Q(k, l) && Q(k, l) == lists[l];
    hide SameWait;
    forall u | u in q ensures u in Q(k, l) {
      ResortMembers(k.tasks, Q(k, l), t, u);
    }
    NamedKept(k, Resort(k, t));
  }

  lemma {:induction false} WithoutMembers(q: seq<TaskId>, t: TaskId, u: TaskId)
    requires u in Without(q, t)
    ensures u in q
  {
    if q != [] && q[0] != t && u != q[0] {
      WithoutMembers(q[1..], t, u);
    }
  }

  lemma ResortMembers(tasks: map<TaskId, Tcb>, q: seq<TaskId>, t: TaskId, u: TaskId)
    requires t in q && u in InsertByPriority(tasks, Without(q, t), t)
    ensures u in q
  {
    hide Without, PriorityPosition;
    var w := Without(q, t);
    var i := PriorityPosition(tasks, w, t);
    assert InsertByPriority(tasks, w, t) == w[..i] + [t] + w[i..];
    if u != t {
      WithoutMembers(q, t, u);
    }
  }

  lemma PlaceStep(tasks: map<TaskId, Tcb>, q: seq<TaskId>, t: TaskId, i: nat)
    requires i <= |q|
    ensures PriorityPosition(tasks, q[i..], t)
            == if i == |q| || Prio(tasks, t) > Prio(tasks, q[i]) then 0 else 1 + PriorityPosition(tasks, q[i + 1..], t)
  {
    assert i < |q| ==> q[i..][1..] == q[i + 1..];
  }

  lemma ClockStep(tasks: map<TaskId, Tcb>, q: seq<TaskId>, t: TaskId, i: nat)
    requires i <= |q|
    ensures TimeoutPosition(tasks, q[i..], t)
            == if i == |q| || SignedDifference(WakeTick(tasks, t), WakeTick(tasks, q[i])) < 0 then 0
               else 1 + TimeoutPosition(tasks, q[i + 1..], t)
  {
    hide SignedDifference;
    assert i < |q| ==> q[i..][1..] == q[i + 1..];
  }

  lemma MaxTopStep(k: K, held: seq<MutexId>, i: nat, priority: int)
    requires i <= |held|
    ensures MaxTop(k, held[i..], priority)
            == if i == |held| then priority
               else MaxTop(k, held[i + 1..], if Top(k, held[i]) > priority then Top(k, held[i]) else priority)
  {
    hide Top;
    assert i < |held| ==> held[i..][1..] == held[i + 1..];
  }
}