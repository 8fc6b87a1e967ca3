/** Priority inheritance: what the kernel structures keep between calls, and that
    one upward pass of `recompute_chain` repairs the fix-point they must be in. */
module Inheritance {
  import opened Lists
  import opened ReadyQueue
  import opened KernelState

  // ----- structure

  ghost predicate PrioritiesInRange(k: K) {
    forall t :: t in k.tasks ==> InRange(k.tasks[t].prio) && InRange(k.tasks[t].base)
  }

  predicate Runnable(s: TaskState) { s == Ready || s == Running }

  /** A task is in a ready queue iff it may run, and then in that of its priority. */
  ghost predicate ReadyOk(k: K) {
    && (forall p :: 0 <= p < MAX_PRIORITY ==> NoDup(k.ready[p]))
    && (forall p, t :: 0 <= p < MAX_PRIORITY ==>
          (t in k.ready[p] <==> t in k.tasks && Runnable(k.tasks[t].state) && k.tasks[t].prio == p))
  }

  /** A task in a wait list records that list. */
  ghost predicate WaitersOk(k: K) {
    && (forall l :: NoDup(Q(k, l)))
    && (forall l, t :: t in Q(k, l) ==> t in k.tasks && k.tasks[t].wait == Some(l))
  }

  ghost predicate SortedByPriority(tasks: map<TaskId, Tcb>, q: seq<TaskId>) {
    forall i, j :: 0 <= i < j < |q| ==> Prio(tasks, q[i]) >= Prio(tasks, q[j])
  }

  ghost predicate WaitersSorted(k: K) {
    forall m :: SortedByPriority(k.tasks, Q(k, MutexQ(m)))
  }

  /** Held lists and owner fields are inverse; only an owned mutex has waiters. */
  ghost predicate OwnersOk(k: K) {
    && (forall t, m :: t in k.tasks ==> (m in k.tasks[t].held <==> Owner(k, m) == Some(t)))
    && (forall t :: t in k.tasks ==> NoDup(k.tasks[t].held))
    && (forall m :: Owner(k, m).Some? ==> Owner(k, m).value in k.tasks)
    && (forall m :: Q(k, MutexQ(m)) != [] ==>
          Owner(k, m).Some? && Owner(k, m).value !in Q(k, MutexQ(m)))
  }

  ghost predicate Linkage(k: K) {
    && PrioritiesInRange(k) && ReadyOk(k) && WaitersOk(k) && OwnersOk(k)
    && |k.tasks| <= TASK_LIMIT
  }

  // ----- the waits-for graph

  ghost predicate Ranked(k: K, rank: map<TaskId, nat>) {
    && rank.Keys == k.tasks.Keys
    && forall t :: t in k.tasks && Next(k, t).Some? ==>
         Next(k, t).value in rank && rank[Next(k, t).value] < rank[t]
  }

  /** No task waits, through any chain of owners, for itself. */
  ghost predicate Acyclic(k: K) {
    exists rank :: Ranked(k, rank)
  }

  // ----- the fix-point

  ghost predicate FixedAt(k: K, t: TaskId) {
    t in k.tasks ==> k.tasks[t].prio == Effective(k, t)
  }

  /** Every task outside `except` runs at its effective priority. */
  ghost predicate Fixed(k: K, except: set<TaskId>) {
    forall t :: t in k.tasks && t !in except ==> FixedAt(k, t)
  }

  /** Between `k` and `r` only current priorities moved, and with them places in
      the ready queues and in the mutex wait lists. */
  ghost predicate OnlyPriorities(k: K, r: K) {
    && r.tasks.Keys == k.tasks.Keys
    && (forall t :: t in k.tasks ==> r.tasks[t] == k.tasks[t].(prio := r.tasks[t].prio))
    && r == k.(tasks := r.tasks, ready := r.ready, waiters := r.waiters)
    && (forall l, t :: t in Q(r, l) <==> t in Q(k, l))
    && (forall s :: Q(r, SemQ(s)) == Q(k, SemQ(s)))
  }

  // ----- effective priorities

  lemma {:induction false} MaxTopBounds(k: K, held: seq<MutexId>, p: int)
    ensures MaxTop(k, held, p) >= p
    ensures forall m :: m in held ==> Top(k, m) <= MaxTop(k, held, p)
    ensures MaxTop(k, held, p) == p || exists m :: m in held && Top(k, m) == MaxTop(k, held, p)
    decreases |held|
  {
    if held != [] {
      MaxTopBounds(k, held[1..], if Top(k, held[0]) > p then Top(k, held[0]) else p);
    }
  }

  /** Only the set of held mutexes and the tops of their lists matter. */
  lemma MaxTopSame(k: K, r: K, held: seq<MutexId>, held': seq<MutexId>, p: int)
    requires forall m :: m in held && Top(k, m) > p ==> m in held' && Top(r, m) == Top(k, m)
    requires forall m :: m in held' && Top(r, m) > p ==> m in held && Top(r, m) == Top(k, m)
    ensures MaxTop(k, held, p) == MaxTop(r, held', p)
  {
    MaxTopBounds(k, held, p);
    MaxTopBounds(r, held', p);
  }

  lemma EffectiveInRange(k: K, t: TaskId)
    requires PrioritiesInRange(k) && t in k.tasks
    ensures InRange(Effective(k, t)) && Effective(k, t) >= k.tasks[t].base
  {
    MaxTopBounds(k, k.tasks[t].held, k.tasks[t].base);
  }

  // ----- sorted insertion

  lemma InsertedIsSorted(tasks: map<TaskId, Tcb>, q: seq<TaskId>, t: TaskId)
    requires SortedByPriority(tasks, q)
    ensures SortedByPriority(tasks, InsertByPriority(tasks, q, t))
  {
  }

  lemma WithoutIsSorted(tasks: map<TaskId, Tcb>, q: seq<TaskId>, t: TaskId)
    requires NoDup(q) && SortedByPriority(tasks, q)
    ensures SortedByPriority(tasks, Without(q, t))
  {
    hide NoDup;
    if t in q {
      var i :| 0 <= i < |q| && q[i] == t;
      WithoutAt(q, i);
      var r := q[..i] + q[i + 1..];
      forall a, b | 0 <= a < b < |r| ensures Prio(tasks, r[a]) >= Prio(tasks, r[b]) {
        assert r[a] == q[if a < i then a else a + 1] && r[b] == q[if b < i then b else b + 1];
      }
    } else {
      WithoutNothing(q, t);
    }
  }

  /** Moving one task keeps a list, sorted but for that task, sorted. */
  lemma ResortedIsSorted(tasks: map<TaskId, Tcb>, tasks': map<TaskId, Tcb>, q: seq<TaskId>, t: TaskId)
    requires NoDup(q) && SortedByPriority(tasks, q)
    requires forall u :: u in q && u != t ==> Prio(tasks', u) == Prio(tasks, u)
    ensures SortedByPriority(tasks', InsertByPriority(tasks', Without(q, t), t))
  {
    WithoutIsDeletion(q, t);
    WithoutIsSorted(tasks, q, t);
    var rest := Without(q, t);
    StillSorted(tasks, tasks', rest);
    InsertedIsSorted(tasks', rest, t);
  }

  // ----- ready queues

  lemma AddIsAddition(q: Queues, p: int, t: TaskId)
    requires InRange(p) && forall i :: 0 <= i < MAX_PRIORITY ==> NoDup(q[i])
    requires t !in q[p]
    ensures forall i :: 0 <= i < MAX_PRIORITY ==> NoDup(Add(q, p, t)[i])
    ensures forall i, u :: 0 <= i < MAX_PRIORITY ==>
              (u in Add(q, p, t)[i] <==> u in q[i] || (u == t && i == p))
  {
  }

  lemma RemoveIsDeletion(q: Queues, p: int, t: TaskId)
    requires InRange(p) && forall i :: 0 <= i < MAX_PRIORITY ==> NoDup(q[i])
    ensures forall i :: 0 <= i < MAX_PRIORITY ==> NoDup(Remove(q, p, t)[i])
    ensures forall i, u :: 0 <= i < MAX_PRIORITY ==>
              (u in Remove(q, p, t)[i] <==> u in q[i] && !(u == t && i == p))
  {
    WithoutIsDeletion(q[p], t);
  }

  /** After a change of `t`'s priority the requeue puts `t` where it now belongs. */
  lemma RequeueKeepsReadyOk(k: K, t: TaskId, tcb: Tcb)
    requires ReadyOk(k) && t in k.tasks
    requires InRange(k.tasks[t].prio) && InRange(tcb.prio) && tcb.state == k.tasks[t].state
    ensures ReadyOk(k.(tasks := k.tasks[t := tcb],
                       ready := Requeue(k.ready, k.tasks[t].prio, tcb.prio, t)))
  {
    RemoveIsDeletion(k.ready, k.tasks[t].prio, t);
    var removed := Remove(k.ready, k.tasks[t].prio, t);
    AddIsAddition(removed, tcb.prio, t);
  }

  // ----- one step of the pass

  /** `t` gets the control block `tcb`, whose priorities may differ, and moves in its
      queues; its place in a wait list may only be left alone when that list is not a mutex's. */
  ghost predicate Moved(k: K, t: TaskId, tcb: Tcb, r: K) {
    && t in k.tasks && InRange(tcb.prio) && InRange(tcb.base)
    && tcb == k.tasks[t].(prio := tcb.prio, base := tcb.base)
    && var k1 := k.(tasks := k.tasks[t := tcb],
                    ready := Requeue(k.ready, k.tasks[t].prio, tcb.prio, t));
       r == Resort(k1, t) || (r == k1 && !WaitsOnMutex(k, t))
  }

  lemma MovedTasks(k: K, t: TaskId, tcb: Tcb, r: K)
    requires Moved(k, t, tcb, r)
    ensures r == k.(tasks := k.tasks[t := tcb], waiters := r.waiters,
                    ready := Requeue(k.ready, k.tasks[t].prio, tcb.prio, t))
    ensures forall l :: Q(r, l) == if Linked(k, t) && k.tasks[t].wait == Some(l) && r.waiters != k.waiters
                        then InsertByPriority(r.tasks, Without(Q(k, l), t), t) else Q(k, l)
  {}

  lemma MovedList(k: K, t: TaskId, tcb: Tcb, r: K, l: WaitList)
    requires WaitersOk(k) && Moved(k, t, tcb, r)
    ensures NoDup(Q(r, l))
    ensures forall u :: u in Q(r, l) <==> u in Q(k, l)
    ensures k.tasks[t].wait != Some(l) ==> Q(r, l) == Q(k, l) && t !in Q(k, l)
  {
    MovedTasks(k, t, tcb, r);
    var q := Q(k, l);
    assert NoDup(q);
    if Q(r, l) != q {
      WithoutIsDeletion(q, t);
      InsertAtIsAddition(Without(q, t), PriorityPosition(r.tasks, Without(q, t), t), t);
    }
  }

  lemma MovedSorted(k: K, t: TaskId, tcb: Tcb, r: K, m: MutexId)
    requires WaitersOk(k) && SortedByPriority(k.tasks, Q(k, MutexQ(m))) && Moved(k, t, tcb, r)
    ensures SortedByPriority(r.tasks, Q(r, MutexQ(m)))
  {
    var q := Q(k, MutexQ(m));
    assert NoDup(q);
    MovedTasks(k, t, tcb, r);
    if t in q {
      assert Linked(k, t) && WaitsOnMutex(k, t);
      ResortedIsSorted(k.tasks, r.tasks, q, t);
      assert Q(r, MutexQ(m)) == InsertByPriority(r.tasks, Without(q, t), t);
    } else {
      assert Q(r, MutexQ(m)) == q;
      StillSorted(k.tasks, r.tasks, q);
    }
  }

  lemma StillSorted(tasks: map<TaskId, Tcb>, tasks': map<TaskId, Tcb>, q: seq<TaskId>)
    requires SortedByPriority(tasks, q)
    requires forall u :: u in q ==> Prio(tasks', u) == Prio(tasks, u)
    ensures SortedByPriority(tasks', q)
  {
    forall i, j | 0 <= i < j < |q| ensures Prio(tasks', q[i]) >= Prio(tasks', q[j]) {
      assert q[i] in q && q[j] in q;
    }
  }

  lemma MovedTop(k: K, t: TaskId, tcb: Tcb, r: K, m: MutexId)
    requires WaitersOk(k) && Moved(k, t, tcb, r) && t !in Q(k, MutexQ(m))
    ensures Top(r, m) == Top(k, m)
  {
    MovedTasks(k, t, tcb, r);
    var q := Q(k, MutexQ(m));
    assert Q(r, MutexQ(m)) == q;
    if q != [] {
      assert q[0] in q;
    }
  }

  /** Only the owner of the mutex `t` waits for can be unsettled by the move. */
  lemma MovedEffective(k: K, t: TaskId, tcb: Tcb, r: K, u: TaskId)
    requires WaitersOk(k) && OwnersOk(k) && Moved(k, t, tcb, r)
    requires u in k.tasks && (u == t ==> tcb.base == k.tasks[t].base)
    requires Linked(k, t) && k.tasks[t].wait.value.MutexQ? ==> Owner(k, k.tasks[t].wait.value.mutex) != Some(u)
    ensures Effective(r, u) == Effective(k, u)
  {
    forall m | m in k.tasks[u].held ensures Top(r, m) == Top(k, m) {
      assert Owner(k, m) == Some(u);
      MovedTop(k, t, tcb, r, m);
    }
    MaxTopSame(k, r, k.tasks[u].held, k.tasks[u].held, k.tasks[u].base);
  }

  lemma MovedLinkage(k: K, t: TaskId, tcb: Tcb, r: K)
    requires Linkage(k) && Moved(k, t, tcb, r)
    ensures Linkage(r)
  {
    MovedTasks(k, t, tcb, r);
    assert OwnersOk(r) by {
      assert forall m :: Owner(r, m) == Owner(k, m);
      assert forall u :: u in k.tasks ==> r.tasks[u].held == k.tasks[u].held;
      forall m | Q(r, MutexQ(m)) != []
        ensures Owner(r, m).Some? && Owner(r, m).value !in Q(r, MutexQ(m))
      {
        MovedList(k, t, tcb, r, MutexQ(m));
        assert Q(r, MutexQ(m))[0] in Q(k, MutexQ(m));
      }
    }
    assert WaitersOk(r) by {
      forall l ensures NoDup(Q(r, l)) && forall u :: u in Q(r, l) ==> u in Q(k, l) {
        MovedList(k, t, tcb, r, l);
      }
    }
    assert ReadyOk(r) by {
      RequeueKeepsReadyOk(k, t, tcb);
    }
  }

  lemma MovedOnlyPriorities(k: K, t: TaskId, tcb: Tcb, r: K)
    requires WaitersOk(k) && Moved(k, t, tcb, r)
    requires tcb.base == k.tasks[t].base && (r.waiters == k.waiters || WaitsOnMutex(k, t))
    ensures OnlyPriorities(k, r)
    ensures forall u :: Next(r, u) == Next(k, u)
  {
    MovedTasks(k, t, tcb, r);
    forall l, u ensures u in Q(r, l) <==> u in Q(k, l) {
      MovedList(k, t, tcb, r, l);
    }
  }

  /** `recompute_chain` on one task: the structures stay in order ... */
  lemma ReprioritiseKeeps(k: K, t: TaskId, p: int)
    requires Linkage(k) && WaitersSorted(k) && t in k.tasks && InRange(p)
    ensures var r := Reprioritise(k, t, p);
            Linkage(r) && WaitersSorted(r) && OnlyPriorities(k, r)
    ensures forall u :: Next(Reprioritise(k, t, p), u) == Next(k, u)
  {
    var r := Reprioritise(k, t, p);
    var tcb := k.tasks[t].(prio := p);
    if p != k.tasks[t].prio {
      assert Moved(k, t, tcb, r);
      assert Linkage(r) by {
        MovedLinkage(k, t, tcb, r);
      }
      assert WaitersSorted(r) by {
        forall m ensures SortedByPriority(r.tasks, Q(r, MutexQ(m))) {
          MovedSorted(k, t, tcb, r, m);
        }
      }
      MovedOnlyPriorities(k, t, tcb, r);
    }
  }

  /** ... and it settles that task and unsettles at most the next owner. */
  lemma ReprioritiseSettles(k: K, t: TaskId, except: set<TaskId>)
    requires Linkage(k) && t in k.tasks && Fixed(k, except + {t})
    ensures Fixed(Reprioritise(k, t, Effective(k, t)),
                  except + if Next(k, t).Some? then {Next(k, t).value} else {})
  {
    EffectiveInRange(k, t);
    var p := Effective(k, t);
    var r := Reprioritise(k, t, p);
    var tcb := k.tasks[t].(prio := p);
    if p != k.tasks[t].prio {
      assert Moved(k, t, tcb, r);
    }
    forall u | u in k.tasks && u !in except && Next(k, t) != Some(u) ensures FixedAt(r, u) {
      assert u != t ==> FixedAt(k, u);
      if p != k.tasks[t].prio {
        MovedEffective(k, t, tcb, r, u);
      }
    }
  }

  lemma OnlyPrioritiesTransitive(k: K, r: K, s: K)
    requires OnlyPriorities(k, r) && OnlyPriorities(r, s)
    ensures OnlyPriorities(k, s)
  {}

  lemma RankedCarries(k: K, r: K, rank: map<TaskId, nat>)
    requires Ranked(k, rank) && r.tasks.Keys == k.tasks.Keys && forall u :: Next(r, u) == Next(k, u)
    ensures Ranked(r, rank)
  {}

  lemma RankedStep(k: K, t: TaskId, rank: map<TaskId, nat>)
    requires Ranked(k, rank) && t in k.tasks && Next(k, t).Some?
    ensures Next(k, t).value in k.tasks && rank[Next(k, t).value] < rank[t]
  {}

  lemma TasksFit(k: K)
    requires Sound(k)
    ensures |k.tasks.Keys| <= TASK_LIMIT
  {}

  lemma SmallerSet<T>(a: set<T>, b: set<T>)
    requires a <= b
    ensures |a| <= |b|
  {
    assert b == a + (b - a);
  }

  /** The structures in order, mutex wait lists sorted included. */
  ghost predicate Sound(k: K) {
    Linkage(k) && WaitersSorted(k)
  }

  lemma RecomputeStep(k: K, t: TaskId, except: set<TaskId>)
    requires Sound(k) && t in k.tasks && Fixed(k, except + {t})
    ensures var r := Reprioritise(k, t, Effective(k, t));
            Sound(r) && OnlyPriorities(k, r) && r.tasks.Keys == k.tasks.Keys
    ensures forall u :: Next(Reprioritise(k, t, Effective(k, t)), u) == Next(k, u)
    ensures Fixed(Reprioritise(k, t, Effective(k, t)),
                  if Next(k, t).Some? then except + {Next(k, t).value} else except)
  {
    EffectiveInRange(k, t);
    ReprioritiseKeeps(k, t, Effective(k, t));
    ReprioritiseSettles(k, t, except);
    assert except + {} == except;
  }

  /** The whole pass: started at `t`, with every task below `t` on the chain already
      visited, it restores the fix-point and the depth limit never cuts it short. */
  lemma {:induction false} RecomputeRestores(k: K, t: TaskId, depth: nat, rank: map<TaskId, nat>,
                                             visited: set<TaskId>, except: set<TaskId>)
    requires Sound(k) && Ranked(k, rank) && Fixed(k, except + {t})
    requires t in k.tasks && visited <= k.tasks.Keys && |visited| == depth
    requires forall v :: v in visited ==> rank[v] > rank[t]
    ensures depth < TASK_LIMIT
    ensures Sound(Recompute(k, t, depth)) && OnlyPriorities(k, Recompute(k, t, depth))
    ensures Fixed(Recompute(k, t, depth), except)
    decreases k.tasks.Keys - visited
  {
    hide Sound, Fixed, OnlyPriorities, Reprioritise, Effective, Next, Ranked;
    TasksFit(k);
    assert t !in visited;
    SmallerSet(visited + {t}, k.tasks.Keys);
    RecomputeStep(k, t, except);
    var k1 := Reprioritise(k, t, Effective(k, t));
    RankedCarries(k, k1, rank);
    match Next(k1, t)
    case None =>
    case Some(owner) =>
      RankedStep(k, t, rank);
      assert visited + {t} <= k1.tasks.Keys && |visited + {t}| == depth + 1;
      RecomputeRestores(k1, owner, depth + 1, rank, visited + {t}, except);
      OnlyPrioritiesTransitive(k, k1, Recompute(k1, owner, depth + 1));
  }
}
