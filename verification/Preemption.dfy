/** Whether an unlock asks for a switch: the test for preemption is made when the next owner is
    woken, while the releaser still has the priority it may have inherited. */
module Preemption {
  import opened Lists
  import opened ReadyQueue
  import opened KernelState
  import opened Inheritance
  import opened Transitions
  import opened HandOvers
  import opened KernelInvariant
  import opened KernelCalls
  import opened Outcomes
  import TaskCalls
  import KernelRun

  /** Some task other than `self` that can run, or is `next`, has a priority above `p`. */
  ghost predicate Above(k: K, self: TaskId, next: Option<TaskId>, p: int) {
    exists t :: t in k.tasks && t != self && (Runnable(k.tasks[t].state) || next == Some(t)) && k.tasks[t].prio > p
  }

  ghost predicate Outranked(k: K, self: TaskId)
    requires self in k.tasks
  {
    Above(k, self, None, k.tasks[self].prio)
  }

  /** The first waiter, which an unlock makes the owner. */
  function NextOwner(k: K, m: MutexId): Option<TaskId> {
    if Q(k, MutexQ(m)) == [] then None else Some(Q(k, MutexQ(m))[0])
  }

  /** What the mutexes `self` keeps leave it of its priority once `m` is gone. */
  function PriorityWithout(k: K, self: TaskId, m: MutexId): int
    requires self in k.tasks
  {
    MaxTop(k, Without(k.tasks[self].held, m), k.tasks[self].base)
  }

  /** The request is made exactly when somebody else that can run outranks the current task. */
  lemma FlagIs(a: K, self: TaskId)
    requires ReadyOk(a) && PrioritiesInRange(a) && a.cur == Some(self) && self in a.tasks
    ensures RequestPreemption(a).resched <==> a.resched || Outranked(a, self)
    ensures RequestPreemption(a) == a.(resched := RequestPreemption(a).resched)
  {
    hide ReadyOk, PrioritiesInRange, KernelState.RequestPreemption;
    PreemptionIff(a);
  }

  // ----- the new owner keeps its priority

  lemma GivenTop(k: K, m: MutexId, self: TaskId, n: MutexId)
    requires self in k.tasks && m in k.mutexes && WaitersOk(k) && GivenShape(k, m, self, Given(k, m, self))
    ensures n != m ==> Top(Given(k, m, self), n) == Top(k, n)
  {
    hide Given, NoDup;
    var u := Given(k, m, self);
    if n != m && Q(k, MutexQ(n)) != [] {
      assert Q(k, MutexQ(n))[0] in Q(k, MutexQ(n));
    }
  }

  lemma GivenTopLeft(k: K, m: MutexId, self: TaskId)
    requires self in k.tasks && m in k.mutexes && GivenShape(k, m, self, Given(k, m, self))
    requires WaitersSorted(k) && PrioritiesInRange(k) && WaitersOk(k)
    requires Q(k, MutexQ(m)) != []
    ensures Top(Given(k, m, self), m) <= k.tasks[Q(k, MutexQ(m))[0]].prio
  {
    hide Given, NoDup;
    var q := Q(k, MutexQ(m));
    assert SortedByPriority(k.tasks, q);
    assert Without(q, q[0]) == q[1..];
    if |q| > 1 {
      assert q[1] in q;
    }
  }

  lemma NewOwnerTops(k: K, m: MutexId, self: TaskId, w: TaskId, u: K)
    requires Releases(k, m, self) && Q(k, MutexQ(m)) != [] && Q(k, MutexQ(m))[0] == w && u == Given(k, m, self)
    ensures w in k.tasks && w in u.tasks && u.tasks[w] == k.tasks[w].(held := k.tasks[w].held + [m])
    ensures (forall n :: n in k.tasks[w].held ==> Top(u, n) == Top(k, n)) && Top(u, m) <= k.tasks[w].prio
  {
    FirstWaiter(k, m, self);
    GivenIsShaped(k, m, self);
    GivenTopLeft(k, m, self);
    hide OwnersOk, WaitersSorted, PrioritiesInRange, ReadyOk, Given, Q, Top;
    forall n | n in k.tasks[w].held ensures Top(u, n) == Top(k, n) {
      GivenTop(k, m, self, n);
    }
    hide WaitersOk;
  }

  lemma NewOwnerSettled(k: K, m: MutexId, self: TaskId)
    requires Releases(k, m, self) && Fixed(k, {}) && Q(k, MutexQ(m)) != []
    ensures var w := Q(k, MutexQ(m))[0]; var u := Given(k, m, self);
            w in k.tasks && w in u.tasks && Effective(u, w) == u.tasks[w].prio == k.tasks[w].prio
  {
    var w, u := Q(k, MutexQ(m))[0], Given(k, m, self);
    hide Sound, Given, Top, Q;
    NewOwnerTops(k, m, self, w, u);
    assert FixedAt(k, w);
    hide Releases, Fixed, MaxTop;
    OneMoreTop(k, u, k.tasks[w].held, m, k.tasks[w].base);
  }

  /** A further mutex changes nothing when its waiters are no higher. */
  lemma OneMoreTop(k: K, u: K, held: seq<MutexId>, m: MutexId, p: int)
    requires (forall n :: n in held ==> Top(u, n) == Top(k, n)) && Top(u, m) <= MaxTop(k, held, p)
    ensures MaxTop(u, held + [m], p) == MaxTop(k, held, p)
  {
    hide Top;
    MaxTopBounds(k, held, p);
    MaxTopBounds(u, held + [m], p);
  }

  lemma NewOwnerUnmoved(k: K, m: MutexId, self: TaskId)
    requires Releases(k, m, self) && Fixed(k, {}) && Q(k, MutexQ(m)) != []
    ensures var w := Q(k, MutexQ(m))[0]; var u := Given(k, m, self);
            RecomputeOwner(u, m) == u
  {
    var w, u := Q(k, MutexQ(m))[0], Given(k, m, self);
    NewOwnerSettled(k, m, self);
    FirstWaiter(k, m, self);
    GivenIsShaped(k, m, self);
    assert Next(u, w).None? && Owner(u, m) == Some(w);
    hide Releases, Fixed, Given, Effective, GivenShape, Next, Q;
    assert Reprioritise(u, w, Effective(u, w)) == u;
  }

  // ----- before the releaser is recomputed

  /** After the hand-over and before the recomputation: everybody has the priority of before. */
  ghost predicate Halfway(k: K, m: MutexId, self: TaskId, h: K) {
    && self in k.tasks && h.tasks.Keys == k.tasks.Keys && h.cur == k.cur
    && (forall t :: t in k.tasks ==> h.tasks[t].prio == k.tasks[t].prio && h.tasks[t].base == k.tasks[t].base)
    && (forall t :: t in k.tasks ==>
          (Runnable(h.tasks[t].state) <==> Runnable(k.tasks[t].state) || NextOwner(k, m) == Some(t)))
    && (forall n :: n != m ==> Q(h, MutexQ(n)) == Q(k, MutexQ(n)))
    && h.tasks[self].held == Without(k.tasks[self].held, m) && h.tasks[self].wait.None?
  }

  lemma HalfwayTop(k: K, m: MutexId, self: TaskId, h: K, n: MutexId)
    requires Halfway(k, m, self, h) && n != m
    ensures Top(h, n) == Top(k, n)
  {}

  lemma HalfwayEffective(k: K, m: MutexId, self: TaskId, h: K)
    requires Halfway(k, m, self, h) && NoDup(k.tasks[self].held)
    ensures Effective(h, self) == PriorityWithout(k, self, m)
  {
    var held := Without(k.tasks[self].held, m);
    WithoutIsDeletion(k.tasks[self].held, m);
    forall n | n in held ensures Top(h, n) == Top(k, n) {
      HalfwayTop(k, m, self, h, n);
    }
    hide Top, Without;
    MaxTopSame(h, k, held, held, k.tasks[self].base);
  }

  /** The releaser waits for nothing, so only its own priority is recomputed. */
  lemma ReleaserAlone(h: K, self: TaskId)
    requires self in h.tasks && h.tasks[self].wait.None?
    ensures var r := Recompute(h, self, 0);
            && r.tasks == h.tasks[self := h.tasks[self].(prio := Effective(h, self))] && r.resched == h.resched
  {
    hide Effective, Requeue;
  }

  lemma HalfwayAbove(k: K, m: MutexId, self: TaskId, h: K, p: int)
    requires Halfway(k, m, self, h)
    ensures Above(h, self, None, p) <==> Above(k, self, NextOwner(k, m), p)
  {
    hide Q, NextOwner;
    if Above(h, self, None, p) {
      var t :| t in h.tasks && t != self && Runnable(h.tasks[t].state) && h.tasks[t].prio > p;
      assert t in k.tasks;
    }
    if Above(k, self, NextOwner(k, m), p) {
      var t :| t in k.tasks && t != self && (Runnable(k.tasks[t].state) || NextOwner(k, m) == Some(t)) && k.tasks[t].prio > p;
      assert t in h.tasks;
    }
  }

  lemma AboveButSelf(h: K, r: K, self: TaskId, prio: int, p: int)
    requires self in h.tasks && r.tasks == h.tasks[self := h.tasks[self].(prio := prio)]
    ensures Above(r, self, None, p) <==> Above(h, self, None, p)
  {
    if Above(h, self, None, p) {
      var t :| t in h.tasks && t != self && Runnable(h.tasks[t].state) && h.tasks[t].prio > p;
      assert t in r.tasks;
    }
    if Above(r, self, None, p) {
      var t :| t in r.tasks && t != self && Runnable(r.tasks[t].state) && r.tasks[t].prio > p;
      assert t in h.tasks;
    }
  }

  /** From halfway on. */
  lemma HalfwayOutcome(k: K, m: MutexId, self: TaskId, h: K)
    requires Halfway(k, m, self, h) && NoDup(k.tasks[self].held)
    ensures var r := Recompute(h, self, 0);
            && self in r.tasks && r.tasks[self].prio == PriorityWithout(k, self, m) && r.resched == h.resched
            && (Outranked(r, self) <==> Above(k, self, NextOwner(k, m), PriorityWithout(k, self, m)))
  {
    hide Recompute, PriorityWithout, Effective, Above, NoDup;
    HalfwayEffective(k, m, self, h);
    assert self in h.tasks && h.tasks[self].wait.None?;
    ReleaserAlone(h, self);
    var r := Recompute(h, self, 0);
    AboveButSelf(h, r, self, Effective(h, self), r.tasks[self].prio);
    HalfwayAbove(k, m, self, h, r.tasks[self].prio);
  }

  lemma UnwaitedHalfway(k: K, m: MutexId, self: TaskId)
    requires Releases(k, m, self) && Q(k, MutexQ(m)) == []
    ensures Halfway(k, m, self, HandOver(k, m, self)) && HandOver(k, m, self).resched == k.resched
  {
    hide Sound, Without;
  }

  /** The woken owner, before the test for preemption. */
  function Woken(u: K, w: TaskId): K
    requires w in u.tasks
  {
    var c := ClearWait(u, w, Ok);
    c.(tasks := c.tasks[w := c.tasks[w].(state := Ready)], ready := Add(c.ready, c.tasks[w].prio, w))
  }

  lemma WakesInto(k: K, m: MutexId, self: TaskId)
    requires Releases(k, m, self) && Fixed(k, {}) && Q(k, MutexQ(m)) != [] && Q(k, MutexQ(m))[0] in k.tasks
    requires k.tasks[Q(k, MutexQ(m))[0]].state == Blocked
    ensures var w := Q(k, MutexQ(m))[0]; var u := Given(k, m, self);
            w in u.tasks && Wake(HandOver(k, m, self), w, Ok) == RequestPreemption(Woken(u, w))
  {
    var w, u := Q(k, MutexQ(m))[0], Given(k, m, self);
    GivenIsUnlinked(k, m, self);
    NewOwnerUnmoved(k, m, self);
    NewOwnerSettled(k, m, self);
    hide Releases, Fixed, Given, HandOver, RecomputeOwner, Effective, KernelState.RequestPreemption, WaitersOk, Q, Without;
    assert LeaveWaitList(HandOver(k, m, self), w) == u;
  }

  lemma WokenHalfway(k: K, m: MutexId, self: TaskId, u: K)
    requires self in k.tasks && k.tasks[self].wait.None? && GivenShape(k, m, self, u) && u.cur == k.cur
    requires Q(k, MutexQ(m)) != []
    ensures Q(k, MutexQ(m))[0] in u.tasks && Halfway(k, m, self, Woken(u, Q(k, MutexQ(m))[0]))
    ensures Woken(u, Q(k, MutexQ(m))[0]).resched == u.resched
  {
    hide Without, Add;
  }

  lemma WokenReady(u: K, w: TaskId)
    requires ReadyOk(u) && PrioritiesInRange(u) && w in u.tasks && !Runnable(u.tasks[w].state)
    ensures ReadyOk(Woken(u, w)) && PrioritiesInRange(Woken(u, w))
  {
    hide Without, NoDup;
    var c := ClearWait(u, w, Ok);
    assert ReadyOk(c);
    AddKeepsReadyOk(c, w, Woken(u, w));
  }

  lemma WokenFacts(k: K, m: MutexId, self: TaskId, w: TaskId, u: K)
    requires Releases(k, m, self) && Q(k, MutexQ(m)) != [] && Q(k, MutexQ(m))[0] == w && w in k.tasks
    requires k.tasks[w].state == Blocked && u == Given(k, m, self)
    ensures w in u.tasks && Halfway(k, m, self, Woken(u, w)) && Woken(u, w).resched == k.resched
    ensures ReadyOk(Woken(u, w)) && PrioritiesInRange(Woken(u, w))
  {
    hide Sound, Given, Halfway, Woken, Q, GivenShape;
    GivenIsShaped(k, m, self);
    GivenFlag(k, m, self);
    WokenHalfway(k, m, self, u);
    GivenSound(k, m, self);
    SameState(k, m, self, u, w);
    SoundReady(u);
    hide Releases, ReadyOk, PrioritiesInRange;
    WokenReady(u, w);
  }

  lemma SameState(k: K, m: MutexId, self: TaskId, u: K, w: TaskId)
    requires self in k.tasks && w in k.tasks && GivenShape(k, m, self, u)
    ensures w in u.tasks && u.tasks[w].state == k.tasks[w].state
  {
    hide Q, Without;
  }

  lemma SoundReady(k: K)
    requires Sound(k)
    ensures ReadyOk(k) && PrioritiesInRange(k)
  {
    hide ReadyOk, PrioritiesInRange, WaitersOk, WaitersSorted, OwnersOk;
  }

  lemma HalfwaySelf(k: K, m: MutexId, self: TaskId, h: K)
    requires Halfway(k, m, self, h)
    ensures self in k.tasks && self in h.tasks && h.cur == k.cur && h.tasks[self].prio == k.tasks[self].prio
  {}

  lemma WaitedHalfway(k: K, m: MutexId, self: TaskId)
    requires Releases(k, m, self) && Fixed(k, {}) && Q(k, MutexQ(m)) != [] && Q(k, MutexQ(m))[0] in k.tasks
    requires k.tasks[Q(k, MutexQ(m))[0]].state == Blocked && k.cur == Some(self)
    ensures var h := Wake(HandOver(k, m, self), Q(k, MutexQ(m))[0], Ok);
            && Halfway(k, m, self, h)
            && (h.resched <==> k.resched || Above(k, self, NextOwner(k, m), k.tasks[self].prio))
  {
    hide Sound, HandOver, Wake, Fixed, Above, Woken, KernelState.RequestPreemption, ReadyOk, PrioritiesInRange;
    hide Q, Halfway, NextOwner, Given;
    var w, u := Q(k, MutexQ(m))[0], Given(k, m, self);
    WakesInto(k, m, self);
    WokenFacts(k, m, self, w, u);
    var a := Woken(u, w);
    HalfwaySelf(k, m, self, a);
    FlagIs(a, self);
    HalfwayAbove(k, m, self, a, k.tasks[self].prio);
    HalfwayFlag(k, m, self, a, KernelState.RequestPreemption(a).resched);
  }

  lemma HalfwayFlag(k: K, m: MutexId, self: TaskId, h: K, resched: bool)
    requires Halfway(k, m, self, h)
    ensures Halfway(k, m, self, h.(resched := resched))
  {}

  lemma GivenFlag(k: K, m: MutexId, self: TaskId)
    requires m in k.mutexes && self in k.tasks
    ensures Given(k, m, self).resched == k.resched && Given(k, m, self).cur == k.cur
  {
    hide Without;
  }

  /** An unlock that gives the mutex up leaves the caller with what its other mutexes lend it;
      it returns without a switch asked for although somebody that can run now outranks the
      caller exactly when none had been asked for before, somebody (the next owner counted in)
      is above that lower priority, and, if there was a waiter to wake, nobody is above the
      higher one the caller had. */
  lemma UnlockMissesPreemptionIff(k: K, m: MutexId)
    requires Inv(k) && CallerRuns(k) && !k.inIsr && k.cur.Some? && m in k.mutexes && k.mutexes[m] == Mutex(k.cur, 1)
    ensures var r := MutexUnlock(k, m).0; var self := k.cur.value; var next := NextOwner(k, m);
            && self in k.tasks && self in r.tasks && r.tasks[self].prio == PriorityWithout(k, self, m)
            && (!r.resched && Outranked(r, self) <==>
                  && !k.resched && Above(k, self, next, PriorityWithout(k, self, m))
                  && (next.Some? ==> !Above(k, self, next, k.tasks[self].prio)))
  {
    var self := k.cur.value;
    ReleasesIt(k, m);
    HeldNoDup(k, self);
    KernelRun.InvGraph(k);
    hide Sound, Inv, HandOver, Wake, Halfway, Above, Fixed, Recompute, PriorityWithout, NoDup;
    var k1 := HandOver(k, m, self);
    if Q(k, MutexQ(m)) == [] {
      UnwaitedHalfway(k, m, self);
      HalfwayOutcome(k, m, self, k1);
    } else {
      TaskCalls.WaitsOf(k);
      FirstWaiterBlocked(k, m, self);
      WaitedHalfway(k, m, self);
      HalfwayOutcome(k, m, self, Wake(k1, Q(k, MutexQ(m))[0], Ok));
    }
  }

  lemma HeldNoDup(k: K, t: TaskId)
    requires Inv(k) && t in k.tasks
    ensures NoDup(k.tasks[t].held)
  {}
}
