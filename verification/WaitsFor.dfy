/** The waits-for graph: what a task's priority means over whole chains of owners,
    and exactly when one more blocked lock keeps the graph free of cycles. */
module WaitsFor {
  import opened ReadyQueue
  import opened KernelState
  import opened Inheritance

  /** The task `n` owners up the chain from `t`. */
  function Up(k: K, t: TaskId, n: nat): (r: Option<TaskId>)
    decreases n
  {
    if n == 0 then Some(t)
    else match Next(k, t)
         case None => None
         case Some(owner) => Up(k, owner, n - 1)
  }

  /** `u` is `t` or is blocked, directly or through owners that are themselves
      blocked, on a mutex `t` holds. */
  ghost predicate Reaches(k: K, u: TaskId, t: TaskId) {
    exists n: nat :: Up(k, u, n) == Some(t)
  }

  /** Every task that names a mutex as its wait object is in that mutex's list. */
  ghost predicate MutexWaitersLinked(k: K) {
    forall t :: WaitsOnMutex(k, t) ==> Linked(k, t)
  }

  lemma {:induction false} UpOneMore(k: K, t: TaskId, n: nat)
    requires Up(k, t, n).Some?
    ensures Up(k, t, n + 1) == Next(k, Up(k, t, n).value)
    decreases n
  {
    if n > 0 {
      UpOneMore(k, Next(k, t).value, n - 1);
    }
  }

  // ----- transitive inheritance

  lemma OwnerOutranksWaiter(k: K, t: TaskId)
    requires Sound(k) && Fixed(k, {}) && MutexWaitersLinked(k)
    requires t in k.tasks && Next(k, t).Some?
    ensures Next(k, t).value in k.tasks && k.tasks[t].prio <= k.tasks[Next(k, t).value].prio
  {
    var m := k.tasks[t].wait.value.mutex;
    var owner := Next(k, t).value;
    var q := Q(k, MutexQ(m));
    assert WaitsOnMutex(k, t) && t in q;
    assert Owner(k, m) == Some(owner) && owner in k.tasks && m in k.tasks[owner].held;
    var i :| 0 <= i < |q| && q[i] == t;
    assert SortedByPriority(k.tasks, q);
    assert Prio(k.tasks, q[0]) >= Prio(k.tasks, t);
    assert FixedAt(k, owner);
    MaxTopBounds(k, k.tasks[owner].held, k.tasks[owner].base);
  }

  lemma BaseIsFloor(k: K, t: TaskId)
    requires Sound(k) && Fixed(k, {}) && t in k.tasks
    ensures k.tasks[t].base <= k.tasks[t].prio
  {
    assert FixedAt(k, t);
    EffectiveInRange(k, t);
  }

  lemma {:induction false} ReachedOutranks(k: K, u: TaskId, n: nat)
    requires Sound(k) && Fixed(k, {}) && MutexWaitersLinked(k)
    requires u in k.tasks && Up(k, u, n).Some?
    ensures Up(k, u, n).value in k.tasks && k.tasks[u].base <= k.tasks[u].prio <= k.tasks[Up(k, u, n).value].prio
    decreases n
  {
    hide Sound, Fixed, MutexWaitersLinked, Next;
    BaseIsFloor(k, u);
    if n > 0 {
      OwnerOutranksWaiter(k, u);
      ReachedOutranks(k, Next(k, u).value, n - 1);
    }
  }

  lemma FirstWaiterWaits(k: K, t: TaskId, m: MutexId)
    requires Sound(k) && t in k.tasks && m in k.tasks[t].held && Q(k, MutexQ(m)) != []
    ensures Q(k, MutexQ(m))[0] in k.tasks && Next(k, Q(k, MutexQ(m))[0]) == Some(t)
  {
    assert Q(k, MutexQ(m))[0] in Q(k, MutexQ(m)) && Owner(k, m) == Some(t);
  }

  /** A task above its base priority has it from the first waiter of a mutex it holds. */
  lemma PriorityComesFromWaiter(k: K, t: TaskId) returns (w: TaskId)
    requires Sound(k) && Fixed(k, {}) && t in k.tasks && k.tasks[t].prio != k.tasks[t].base
    ensures w in k.tasks && k.tasks[w].prio == k.tasks[t].prio && Next(k, w) == Some(t)
  {
    assert FixedAt(k, t) && InRange(k.tasks[t].prio);
    hide Sound, Fixed;
    MaxTopBounds(k, k.tasks[t].held, k.tasks[t].base);
    var m :| m in k.tasks[t].held && Top(k, m) == k.tasks[t].prio;
    w := Q(k, MutexQ(m))[0];
    FirstWaiterWaits(k, t, m);
  }

  lemma {:induction false} PriorityIsAttained(k: K, t: TaskId, rank: map<TaskId, nat>, visited: set<TaskId>)
    returns (u: TaskId, n: nat)
    requires Sound(k) && Fixed(k, {}) && Ranked(k, rank)
    requires t in k.tasks && forall v :: v in visited ==> v in k.tasks && rank[v] < rank[t]
    ensures u in k.tasks && Up(k, u, n) == Some(t) && k.tasks[u].base == k.tasks[t].prio
    decreases k.tasks.Keys - visited
  {
    if k.tasks[t].prio == k.tasks[t].base {
      u, n := t, 0;
    } else {
      var w := PriorityComesFromWaiter(k, t);
      RankedStep(k, w, rank);
      u, n := PriorityIsAttained(k, w, rank, visited + {t});
      UpOneMore(k, u, n);
      n := n + 1;
    }
  }

  /** Exact transitive inheritance: the priority of a task is the maximum of the base
      priorities of itself and of everything blocked on it through any chain. */
  lemma PriorityIsTransitiveMaximum(k: K, t: TaskId)
    requires Sound(k) && Fixed(k, {}) && Acyclic(k) && MutexWaitersLinked(k) && t in k.tasks
    ensures forall u :: u in k.tasks && Reaches(k, u, t) ==> k.tasks[u].base <= k.tasks[t].prio
    ensures exists u :: u in k.tasks && Reaches(k, u, t) && k.tasks[u].base == k.tasks[t].prio
  {
    forall u | u in k.tasks && Reaches(k, u, t) ensures k.tasks[u].base <= k.tasks[t].prio {
      var n: nat :| Up(k, u, n) == Some(t);
      ReachedOutranks(k, u, n);
    }
    var rank :| Ranked(k, rank);
    var u, n := PriorityIsAttained(k, t, rank, {});
    assert Reaches(k, u, t);
  }

  // ----- deadlock

  lemma {:induction false} RankFallsAlong(k: K, t: TaskId, n: nat, rank: map<TaskId, nat>)
    requires Ranked(k, rank) && t in k.tasks && Up(k, t, n).Some?
    ensures Up(k, t, n).value in k.tasks && rank[Up(k, t, n).value] <= rank[t] - n
    decreases n
  {
    if n > 0 {
      RankFallsAlong(k, Next(k, t).value, n - 1, rank);
    }
  }

  /** `r` is `k` with one more edge of the waits-for graph, from `self` to `owner`. */
  ghost predicate OneMoreEdge(k: K, r: K, self: TaskId, owner: TaskId) {
    && r.tasks.Keys == k.tasks.Keys && self in k.tasks && owner in k.tasks && owner != self
    && Next(k, self).None? && Next(r, self) == Some(owner)
    && forall t :: t != self ==> Next(r, t) == Next(k, t)
  }

  lemma {:induction false} PathSurvives(k: K, r: K, self: TaskId, owner: TaskId, t: TaskId, n: nat)
    requires OneMoreEdge(k, r, self, owner) && Up(k, t, n) == Some(self)
    ensures Up(r, t, n) == Some(self)
    decreases n
  {
    if n > 0 {
      PathSurvives(k, r, self, owner, Next(k, t).value, n - 1);
    }
  }

  lemma ReachesStep(k: K, t: TaskId, self: TaskId)
    requires t != self
    ensures Reaches(k, t, self) <==> Next(k, t).Some? && Reaches(k, Next(k, t).value, self)
  {
    if Reaches(k, t, self) {
      var n: nat :| Up(k, t, n) == Some(self);
      assert Up(k, Next(k, t).value, n - 1) == Some(self);
    }
    if Next(k, t).Some? && Reaches(k, Next(k, t).value, self) {
      var n: nat :| Up(k, Next(k, t).value, n) == Some(self);
      assert Up(k, t, n + 1) == Some(self);
    }
  }

  /** A lock that blocks keeps the graph acyclic exactly when the owner chain of the
      mutex does not lead back to the caller; the code does not check this. */
  lemma BlockingIsSafeIff(k: K, r: K, self: TaskId, owner: TaskId)
    requires Acyclic(k) && OneMoreEdge(k, r, self, owner)
    ensures Acyclic(r) <==> !Reaches(k, owner, self)
  {
    if Reaches(k, owner, self) {
      var n: nat :| Up(k, owner, n) == Some(self);
      PathSurvives(k, r, self, owner, owner, n);
      if rank :| Ranked(r, rank) {
        RankFallsAlong(r, owner, n, rank);
        RankedStep(r, self, rank);
        assert false;
      }
    } else {
      var rank :| Ranked(k, rank);
      var lift := rank[owner] + 1;
      var raised := map t | t in k.tasks :: if Reaches(k, t, self) then rank[t] + lift else rank[t];
      assert Up(k, self, 0) == Some(self);
      forall t | t in r.tasks && Next(r, t).Some?
        ensures Next(r, t).value in raised && raised[Next(r, t).value] < raised[t]
      {
        if t != self {
          ReachesStep(k, t, self);
          RankedStep(k, t, rank);
        }
      }
      assert Ranked(r, raised);
    }
  }
}
