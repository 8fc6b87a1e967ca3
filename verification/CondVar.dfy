/** The condition variable: a counter of waiters and a semaphore, with a gap between giving
    up the mutex and waiting, and between a timeout and its discount. */
module CondVars {
  import opened Lists

  type Thread = nat

  const SEM_MAX: nat := 0x7FFF_FFFF
  const MAX_THREADS: nat := 256

  /** Where a thread is inside `cond_wait_common`. */
  datatype Phase =
    | Outside
    | Entered             // counted as a waiter, mutex still held
    | Released            // mutex given up, semaphore not yet looked at
    | InSem               // on the semaphore's wait list
    | Failed              // the semaphore wait ended without a token, not yet discounted
    | Relocking(ok: bool) // about to take the mutex again

  datatype Cond = Cond(waiters: nat, count: nat, queue: seq<Thread>, locked: bool, owner: Thread, phase: map<Thread, Phase>)

  predicate IsWaiting(p: Phase) { p == Entered || p == Released || p == InSem || p == Failed }

  ghost function Waiting(c: Cond): set<Thread> {
    set t | t in c.phase && IsWaiting(c.phase[t])
  }

  predicate Owns(c: Cond, t: Thread) { c.locked && c.owner == t }

  datatype Step =
    | Lock(t: Thread)
    | Unlock(t: Thread)
    | Enter(t: Thread)
    | Release(t: Thread)
    | SemWait(t: Thread, mayBlock: bool, at: nat) // a wait without time left may not
    | Fail(t: Thread)
    | Discount(t: Thread)
    | Relock(t: Thread)
    | Signal
    | Broadcast

  predicate In(c: Cond, t: Thread, p: Phase) { t in c.phase && c.phase[t] == p }

  /** When a step can happen: callers of wait own the mutex, and a waiter that the kernel
      puts on the wait list goes to some place in it. */
  predicate Enabled(c: Cond, s: Step) {
    match s
    case Lock(t) => In(c, t, Outside) && !c.locked
    case Unlock(t) => In(c, t, Outside) && Owns(c, t)
    case Enter(t) => In(c, t, Outside) && Owns(c, t)
    case Release(t) => In(c, t, Entered) && Owns(c, t)
    case SemWait(t, mayBlock, at) => In(c, t, Released) && at <= |c.queue|
    case Fail(t) => In(c, t, InSem)
    case Discount(t) => In(c, t, Failed)
    case Relock(t) => t in c.phase && c.phase[t].Relocking? && !c.locked
    case Signal => true
    case Broadcast => true
  }

  function To(c: Cond, t: Thread, p: Phase): Cond { c.(phase := c.phase[t := p]) }

  /** `aixos_sem_post`: the token goes to the first waiter, else to the count; a full count
      refuses it. */
  function Post(c: Cond): Cond {
    if c.queue != [] then To(c, c.queue[0], Relocking(true)).(queue := c.queue[1..])
    else if c.count == SEM_MAX then c
    else c.(count := c.count + 1)
  }

  /** `n` posts, up to the first refusal. */
  function Posts(c: Cond, n: nat): Cond
    decreases n
  {
    if n == 0 || (c.queue == [] && c.count == SEM_MAX) then c else Posts(Post(c), n - 1)
  }

  function Apply(c: Cond, s: Step): Cond
    requires Enabled(c, s)
  {
    match s
    case Lock(t) => c.(locked := true, owner := t)
    case Unlock(t) => c.(locked := false)
    case Enter(t) => To(c, t, Entered).(waiters := c.waiters + 1)
    case Release(t) => To(c, t, Released).(locked := false)
    case SemWait(t, mayBlock, at) =>
      if c.count > 0 then To(c, t, Relocking(true)).(count := c.count - 1)
      else if !mayBlock then To(c, t, Failed)
      else To(c, t, InSem).(queue := InsertAt(c.queue, at, t))
    case Fail(t) => To(c, t, Failed).(queue := Without(c.queue, t))
    case Discount(t) => To(c, t, Relocking(false)).(waiters := if c.waiters != 0 then c.waiters - 1 else 0)
    case Relock(t) => To(c, t, Outside).(locked := true, owner := t)
    case Signal => if c.waiters != 0 then Post(c.(waiters := c.waiters - 1)) else c
    case Broadcast => Posts(c.(waiters := 0), c.waiters)
  }

  /** Nothing is lost: units of `waiters` and tokens together cover every thread that waits
      or has failed and is not yet discounted. */
  ghost predicate Covered(c: Cond) { c.waiters + c.count >= |Waiting(c)| }

  ghost predicate Queued(c: Cond) {
    && NoDup(c.queue) && (c.queue != [] ==> c.count == 0)
    && forall t :: t in c.queue <==> In(c, t, InSem)
  }

  ghost predicate Inv(c: Cond) {
    Queued(c) && Covered(c) && c.count <= SEM_MAX && |c.phase.Keys| <= MAX_THREADS
  }

  lemma Count(c: Cond, r: Cond, t: Thread, p: Phase)
    requires t in c.phase && r.phase == c.phase[t := p]
    ensures |Waiting(r)| == |Waiting(c)| - (if IsWaiting(c.phase[t]) then 1 else 0) + (if IsWaiting(p) then 1 else 0)
    ensures r.phase.Keys == c.phase.Keys
  {
    var rest := Waiting(c) - {t};
    assert Waiting(c) == if IsWaiting(c.phase[t]) then rest + {t} else rest;
    assert Waiting(r) == if IsWaiting(p) then rest + {t} else rest;
  }

  lemma WaitingBounded(c: Cond)
    ensures |Waiting(c)| <= |c.phase.Keys|
  {
    assert Waiting(c) <= c.phase.Keys;
    SubsetSize(Waiting(c), c.phase.Keys);
  }

  lemma {:induction false} SubsetSize<T>(a: set<T>, b: set<T>)
    requires a <= b
    ensures |a| <= |b|
    decreases a
  {
    if x :| x in a {
      SubsetSize(a - {x}, b - {x});
    }
  }

  lemma PostQueued(c: Cond)
    requires Queued(c)
    ensures Queued(Post(c))
  {
    if c.queue != [] {
      var t, rest := c.queue[0], c.queue[1..];
      assert c.queue == [t] + rest;
      assert NoDup(rest) && t !in rest;
      forall u ensures u in rest <==> In(Post(c), u, InSem) {
        assert u in c.queue <==> In(c, u, InSem);
      }
    }
  }

  /** A post with a unit to spare keeps every thread covered; it is refused only when there
      are tokens for everybody. */
  lemma PostKeeps(c: Cond)
    requires Queued(c) && c.waiters + c.count + 1 >= |Waiting(c)| && c.count <= SEM_MAX && |c.phase.Keys| <= MAX_THREADS
    ensures Inv(Post(c)) && Post(c).waiters == c.waiters && Post(c).queue == if c.queue == [] then [] else c.queue[1..]
  {
    PostQueued(c);
    if c.queue != [] {
      var t := c.queue[0];
      assert In(c, t, InSem);
      Count(c, Post(c), t, Relocking(true));
    } else {
      WaitingBounded(c);
      assert Waiting(Post(c)) == Waiting(c);
    }
  }

  /** Posting once for every unit of `waiters` leaves nobody on the wait list, and a token
      for everybody else who was waiting. */
  lemma {:induction false} PostsKeep(c: Cond, n: nat)
    requires Queued(c) && c.waiters == 0 && n + c.count >= |Waiting(c)| && c.count <= SEM_MAX
    requires |c.phase.Keys| <= MAX_THREADS
    ensures Inv(Posts(c, n)) && Posts(c, n).queue == [] && Posts(c, n).waiters == 0
    decreases n
  {
    WaitingBounded(c);
    hide Queued, Waiting;
    if n == 0 || (c.queue == [] && c.count == SEM_MAX) {
      AllCovered(c);
    } else {
      PostOne(c, n);
      PostsKeep(Post(c), n - 1);
    }
  }

  /** A wait list that is not empty means more waiters than tokens. */
  lemma AllCovered(c: Cond)
    requires Queued(c) && c.count >= |Waiting(c)|
    ensures c.queue == []
  {
    if c.queue != [] {
      OnTheList(c);
    }
  }

  lemma PostOne(c: Cond, n: nat)
    requires Queued(c) && n > 0 && n + c.count >= |Waiting(c)| && !(c.queue == [] && c.count == SEM_MAX)
    ensures Queued(Post(c)) && n - 1 + Post(c).count >= |Waiting(Post(c))| && Post(c).waiters == c.waiters
    ensures c.count <= SEM_MAX ==> Post(c).count <= SEM_MAX
    ensures Post(c).phase.Keys == c.phase.Keys
  {
    PostQueued(c);
    if c.queue != [] {
      var t := c.queue[0];
      assert In(c, t, InSem);
      Count(c, Post(c), t, Relocking(true));
    } else {
      assert Waiting(Post(c)) == Waiting(c);
    }
  }

  /** If any thread is on the wait list there is a unit of `waiters` for a signal to spend. */
  lemma UnitForWaiter(c: Cond)
    requires Inv(c) && c.queue != []
    ensures c.waiters > 0 && c.count == 0
  {
    OnTheList(c);
  }

  lemma OnTheList(c: Cond)
    requires Queued(c) && c.queue != []
    ensures |Waiting(c)| > 0 && c.count == 0
  {
    assert In(c, c.queue[0], InSem);
    assert c.queue[0] in Waiting(c);
  }

  /** `pthread_cond_signal` unblocks a thread if any is blocked: the first on the wait list. */
  lemma SignalUnblocks(c: Cond)
    requires Inv(c) && c.queue != []
    ensures var r := Apply(c, Signal);
            && In(r, c.queue[0], Relocking(true)) && r.queue == c.queue[1..]
            && forall t :: t in c.phase && t != c.queue[0] ==> In(r, t, c.phase[t])
  {
    UnitForWaiter(c);
  }

  /** `pthread_cond_broadcast` unblocks every blocked thread, and leaves a token for every
      thread on its way to the semaphore. */
  lemma BroadcastUnblocksAll(c: Cond)
    requires Inv(c)
    ensures var r := Apply(c, Broadcast);
            && Inv(r) && r.queue == [] && r.waiters == 0 && r.count >= |Waiting(r)|
            && forall t :: In(c, t, InSem) ==> In(r, t, Relocking(true))
  {
    PostsKeep(c.(waiters := 0), c.waiters) by {
      assert Waiting(c.(waiters := 0)) == Waiting(c);
    }
    var r := Apply(c, Broadcast);
    forall t | In(c, t, InSem) ensures In(r, t, Relocking(true)) {
      PostsMove(c.(waiters := 0), c.waiters, t);
      assert t !in r.queue;
    }
  }

  /** Posting moves threads only from the wait list to waking up. */
  lemma {:induction false} PostsMove(c: Cond, n: nat, t: Thread)
    requires Queued(c) && t in c.phase
    ensures Queued(Posts(c, n)) && t in Posts(c, n).phase
    ensures Posts(c, n).phase[t] == c.phase[t] || (c.phase[t] == InSem && Posts(c, n).phase[t] == Relocking(true))
    decreases n
  {
    hide Queued;
    if !(n == 0 || (c.queue == [] && c.count == SEM_MAX)) {
      PostQueued(c);
      PostMoves(c, t);
      PostsMove(Post(c), n - 1, t);
    }
  }

  lemma PostMoves(c: Cond, t: Thread)
    requires Queued(c) && t in c.phase
    ensures t in Post(c).phase
    ensures Post(c).phase[t] == c.phase[t] || (c.phase[t] == InSem && Post(c).phase[t] == Relocking(true))
  {
    if c.queue != [] {
      assert In(c, c.queue[0], InSem);
    }
  }

  // ----- every step, every run

  lemma QueuedAfter(c: Cond, r: Cond, t: Thread, p: Phase)
    requires Queued(c) && t in c.phase && r.phase == c.phase[t := p] && r.queue == c.queue
    requires c.phase[t] != InSem && p != InSem && (c.queue != [] ==> r.count == 0)
    ensures Queued(r)
  {
    forall u ensures u in r.queue <==> In(r, u, InSem) {
      assert u in c.queue <==> In(c, u, InSem);
    }
  }

  lemma EnqueueQueued(c: Cond, t: Thread, at: nat)
    requires Queued(c) && In(c, t, Released) && at <= |c.queue| && c.count == 0
    ensures Queued(To(c, t, InSem).(queue := InsertAt(c.queue, at, t)))
  {
    var r := To(c, t, InSem).(queue := InsertAt(c.queue, at, t));
    assert t !in c.queue;
    InsertAtIsAddition(c.queue, at, t);
    hide InsertAt;
    forall u ensures u in r.queue <==> In(r, u, InSem) {
      assert u in c.queue <==> In(c, u, InSem);
    }
  }

  lemma FailQueued(c: Cond, t: Thread)
    requires Queued(c) && In(c, t, InSem)
    ensures Queued(To(c, t, Failed).(queue := Without(c.queue, t)))
  {
    var r := To(c, t, Failed).(queue := Without(c.queue, t));
    WithoutIsDeletion(c.queue, t);
    hide Without;
    assert t in c.queue;
    forall u ensures u in r.queue <==> In(r, u, InSem) {
      assert u in c.queue <==> In(c, u, InSem);
    }
  }

  /** Every step keeps every waiting thread covered. */
  lemma StepKeeps(c: Cond, s: Step)
    requires Inv(c) && Enabled(c, s)
    ensures Inv(Apply(c, s))
  {
    var r := Apply(c, s);
    match s {
      case Lock(t) => assert Waiting(r) == Waiting(c);
      case Unlock(t) => assert Waiting(r) == Waiting(c);
      case Signal =>
        if c.waiters != 0 {
          assert Waiting(c.(waiters := c.waiters - 1)) == Waiting(c);
          PostKeeps(c.(waiters := c.waiters - 1));
        }
      case Broadcast => BroadcastUnblocksAll(c);
      case _ => ThreadStepKeeps(c, s);
    }
  }

  lemma ThreadStepKeeps(c: Cond, s: Step)
    requires Inv(c) && Enabled(c, s) && !s.Lock? && !s.Unlock? && !s.Signal? && !s.Broadcast?
    ensures Inv(Apply(c, s))
  {
    hide Queued, Waiting;
    var r := Apply(c, s);
    var t := s.t;
    Count(c, r, t, r.phase[t]);
    EmptyOrNone(c);
    if s.SemWait? && c.count == 0 && s.mayBlock {
      EnqueueQueued(c, t, s.at);
    } else if s.Fail? {
      FailQueued(c, t);
    } else {
      QueuedAfter(c, r, t, r.phase[t]);
    }
  }

  lemma EmptyOrNone(c: Cond)
    requires Queued(c)
    ensures c.queue != [] ==> c.count == 0
  {}

  predicate Possible(c: Cond, ss: seq<Step>)
    decreases |ss|
  {
    ss == [] || (Enabled(c, ss[0]) && Possible(Apply(c, ss[0]), ss[1..]))
  }

  function Run(c: Cond, ss: seq<Step>): Cond
    requires Possible(c, ss)
    decreases |ss|
  {
    if ss == [] then c else Run(Apply(c, ss[0]), ss[1..])
  }

  lemma {:induction false} RunKeeps(c: Cond, ss: seq<Step>)
    requires Inv(c) && Possible(c, ss)
    ensures Inv(Run(c, ss))
    decreases |ss|
  {
    hide Apply, Enabled, Inv;
    if ss != [] {
      StepKeeps(c, ss[0]);
      RunKeeps(Apply(c, ss[0]), ss[1..]);
    }
  }

  /** `pthread_cond_init`, with any number of threads up to the kernel's limit. */
  ghost predicate Fresh(c: Cond) {
    && c.waiters == c.count == 0 && c.queue == [] && !c.locked
    && |c.phase.Keys| <= MAX_THREADS && forall t :: t in c.phase ==> c.phase[t] == Outside
  }

  /** No wake-up is lost, over all interleavings: in every reachable state a signal unblocks
      a thread if any is blocked, and a broadcast unblocks them all. */
  lemma NoLostWakeUp(c: Cond, ss: seq<Step>)
    requires Fresh(c) && Possible(c, ss)
    ensures var r := Run(c, ss);
            && r.waiters + r.count >= |Waiting(r)|
            && (r.queue != [] ==> In(Apply(r, Signal), r.queue[0], Relocking(true)) && Apply(r, Signal).queue == r.queue[1..])
            && (forall t :: In(r, t, InSem) ==> In(Apply(r, Broadcast), t, Relocking(true)))
            && (forall t :: In(r, t, InSem) ==> r.queue != [])
  {
    assert Waiting(c) == {};
    assert Inv(c);
    hide Apply, Enabled;
    RunKeeps(c, ss);
    var r := Run(c, ss);
    if r.queue != [] {
      SignalUnblocks(r);
    }
    BroadcastUnblocksAll(r);
  }

  // ----- nothing is left over

  /** How often a run discounts a waiter when none is counted any more: somebody else's unit
      had been spent on it. */
  function IdleDiscounts(c: Cond, ss: seq<Step>): nat
    requires Possible(c, ss)
    decreases |ss|
  {
    if ss == [] then 0
    else (if ss[0].Discount? && c.waiters == 0 then 1 else 0) + IdleDiscounts(Apply(c, ss[0]), ss[1..])
  }

  function Units(c: Cond): nat { c.waiters + c.count }

  lemma PostUpper(c: Cond)
    requires Queued(c)
    ensures Post(c).count - |Waiting(Post(c))| <= c.count + 1 - |Waiting(c)| && Post(c).waiters == c.waiters
    ensures Queued(Post(c))
  {
    PostQueued(c);
    if c.queue != [] {
      assert In(c, c.queue[0], InSem);
      Count(c, Post(c), c.queue[0], Relocking(true));
    } else {
      assert Waiting(Post(c)) == Waiting(c);
    }
  }

  lemma {:induction false} PostsUpper(c: Cond, n: nat)
    requires Queued(c)
    ensures Posts(c, n).count - |Waiting(Posts(c, n))| <= c.count + n - |Waiting(c)| && Posts(c, n).waiters == c.waiters
    decreases n
  {
    hide Queued, Waiting;
    if !(n == 0 || (c.queue == [] && c.count == SEM_MAX)) {
      PostUpper(c);
      PostsUpper(Post(c), n - 1);
    }
  }

  /** No step but such a discount leaves more units and tokens than threads that wait. */
  lemma UpperStep(c: Cond, s: Step)
    requires Queued(c) && Enabled(c, s)
    ensures Units(Apply(c, s)) - |Waiting(Apply(c, s))|
            <= Units(c) - |Waiting(c)| + if s.Discount? && c.waiters == 0 then 1 else 0
  {
    var r := Apply(c, s);
    if s.Lock? || s.Unlock? {
      assert Waiting(r) == Waiting(c);
    } else if s.Signal? {
      if c.waiters != 0 {
        var spent := c.(waiters := c.waiters - 1);
        SameThreads(c, spent);
        PostUpper(spent);
      }
    } else if s.Broadcast? {
      SameThreads(c, c.(waiters := 0));
      PostsUpper(c.(waiters := 0), c.waiters);
    } else {
      hide Queued, Waiting;
      Count(c, r, s.t, r.phase[s.t]);
    }
  }

  lemma SameThreads(c: Cond, r: Cond)
    requires r == c.(waiters := r.waiters)
    ensures Waiting(r) == Waiting(c) && (Queued(c) ==> Queued(r))
  {
    assert forall t, p :: In(r, t, p) <==> In(c, t, p);
  }

  lemma {:induction false} UpperRun(c: Cond, ss: seq<Step>)
    requires Inv(c) && Possible(c, ss)
    ensures Inv(Run(c, ss))
    ensures Units(Run(c, ss)) - |Waiting(Run(c, ss))| <= Units(c) - |Waiting(c)| + IdleDiscounts(c, ss)
    decreases |ss|
  {
    if ss != [] {
      StepKeeps(c, ss[0]);
      UpperStep(c, ss[0]);
      hide Apply, Enabled, Inv, Waiting, Units;
      UpperRun(Apply(c, ss[0]), ss[1..]);
    }
  }

  /** In every reachable state the units and tokens are those of the threads that wait, and at
      most one more for every discount that found none left to take. */
  lemma UnitsMatchWaiters(c: Cond, ss: seq<Step>)
    requires Fresh(c) && Possible(c, ss)
    ensures |Waiting(Run(c, ss))| <= Units(Run(c, ss)) <= |Waiting(Run(c, ss))| + IdleDiscounts(c, ss)
  {
    assert Waiting(c) == {};
    UpperRun(c, ss);
  }

  predicate Quiet(ss: seq<Step>) { forall i :: 0 <= i < |ss| ==> !ss[i].Signal? && !ss[i].Broadcast? }

  /** The threads and units of a condition variable that nobody has signalled. */
  ghost predicate Unsignalled(c: Cond) {
    Inv(c) && c.count == 0 && c.waiters == |Waiting(c)| && forall t :: !In(c, t, Relocking(true))
  }

  lemma QuietStep(c: Cond, s: Step)
    requires Unsignalled(c) && Enabled(c, s) && !s.Signal? && !s.Broadcast?
    ensures Unsignalled(Apply(c, s)) && !(s.Discount? && c.waiters == 0)
  {
    var r := Apply(c, s);
    StepKeeps(c, s);
    hide Inv;
    if s.Lock? || s.Unlock? {
      assert Waiting(r) == Waiting(c);
    } else {
      assert s.Discount? ==> s.t in Waiting(c);
      Count(c, r, s.t, r.phase[s.t]);
      hide Waiting;
    }
    forall t ensures !In(r, t, Relocking(true)) {
      assert !In(c, t, Relocking(true));
    }
  }

  lemma {:induction false} QuietRun(c: Cond, ss: seq<Step>)
    requires Unsignalled(c) && Possible(c, ss) && Quiet(ss)
    ensures Unsignalled(Run(c, ss)) && IdleDiscounts(c, ss) == 0
    decreases |ss|
  {
    if ss != [] {
      QuietStep(c, ss[0]);
      hide Apply, Enabled, Unsignalled;
      QuietRun(Apply(c, ss[0]), ss[1..]);
    }
  }

  /** While nobody signals, no wait ends as signalled, and waits that time out leave nothing:
      once nobody waits there is neither a unit nor a token for a later signal or wait to find. */
  lemma TimeOutsLeaveNothing(c: Cond, ss: seq<Step>)
    requires Fresh(c) && Possible(c, ss) && Quiet(ss)
    ensures var r := Run(c, ss);
            && r.count == 0 && r.waiters == |Waiting(r)| && (forall t :: !In(r, t, Relocking(true)))
            && (Waiting(r) == {} ==> r.waiters == 0)
  {
    assert Waiting(c) == {};
    QuietRun(c, ss);
  }

  // ----- who can still block

  /** Threads that count on a token they have not taken yet. */
  ghost function OnTheWay(c: Cond): set<Thread> {
    set t | t in c.phase && IsOnTheWay(c.phase[t])
  }

  /** A held mutex is in the hands of a thread outside or just entered, and whoever has
      just entered holds it. */
  ghost predicate Owned(c: Cond) {
    && (c.locked ==> In(c, c.owner, Outside) || In(c, c.owner, Entered))
    && forall t :: In(c, t, Entered) ==> Owns(c, t)
  }

  function Enters(ss: seq<Step>): nat {
    if ss == [] then 0 else (if ss[0].Enter? then 1 else 0) + Enters(ss[1..])
  }

  lemma OwnedKeeps(c: Cond, s: Step)
    requires Queued(c) && Owned(c) && Enabled(c, s)
    ensures Owned(Apply(c, s))
  {
    if s.Signal? || s.Broadcast? {
      PostsOwned(c, s);
    } else {
      ThreadStepOwned(c, s);
    }
  }

  lemma ThreadStepOwned(c: Cond, s: Step)
    requires Owned(c) && Enabled(c, s) && !s.Signal? && !s.Broadcast?
    ensures Owned(Apply(c, s))
  {
    hide InsertAt, Without;
    var r := Apply(c, s);
    assert In(c, s.t, c.phase[s.t]);
    forall t | In(r, t, Entered) ensures Owns(r, t) {
      assert t != s.t ==> In(c, t, Entered);
    }
  }

  lemma PostsOwned(c: Cond, s: Step)
    requires Queued(c) && Owned(c) && (s.Signal? || s.Broadcast?)
    ensures Owned(Apply(c, s))
  {
    var r := Apply(c, s);
    forall t ensures In(r, t, Entered) <==> In(c, t, Entered) {
      PostedPhase(c, s, t);
    }
    PostedPhase(c, s, c.owner);
  }

  /** Signal and broadcast touch nobody but the threads on the wait list. */
  lemma PostedPhase(c: Cond, s: Step, t: Thread)
    requires Queued(c) && (s.Signal? || s.Broadcast?)
    ensures var r := Apply(c, s);
            && r.locked == c.locked && r.owner == c.owner && r.phase.Keys == c.phase.Keys
            && (t in c.phase && c.phase[t] != InSem ==> r.phase[t] == c.phase[t])
            && (t in c.phase && c.phase[t] == InSem ==> r.phase[t] == InSem || r.phase[t] == Relocking(true))
  {
    var start := if s.Signal? then c.(waiters := if c.waiters > 0 then c.waiters - 1 else 0) else c.(waiters := 0);
    assert Queued(start) by {
      assert forall u, p :: In(start, u, p) <==> In(c, u, p);
    }
    PostsFrame(start, c.waiters);
    PostFrame(start);
    hide Queued, Posts, Post;
    if t in c.phase {
      PostsMove(start, c.waiters, t);
      PostMoves(start, t);
    }
  }

  lemma PostFrame(c: Cond)
    requires Queued(c)
    ensures Post(c).locked == c.locked && Post(c).owner == c.owner && Post(c).phase.Keys == c.phase.Keys
  {
    if c.queue != [] {
      assert In(c, c.queue[0], InSem);
    }
  }

  lemma {:induction false} PostsFrame(c: Cond, n: nat)
    requires Queued(c)
    ensures Posts(c, n).locked == c.locked && Posts(c, n).owner == c.owner && Posts(c, n).phase.Keys == c.phase.Keys
    decreases n
  {
    if !(n == 0 || (c.queue == [] && c.count == SEM_MAX)) {
      PostFrame(c);
      PostQueued(c);
      hide Queued, Post;
      PostsFrame(Post(c), n - 1);
    }
  }

  /** Those on the way but the ones in `but`. */
  ghost function Others(c: Cond, but: set<Thread>): set<Thread> { OnTheWay(c) - but }

  predicate IsOnTheWay(p: Phase) { p == Entered || p == Released }

  lemma SameOthers(c: Cond, r: Cond, but: set<Thread>, t: Thread, p: Phase)
    requires t in c.phase && r.phase == c.phase[t := p]
    ensures Others(r, but) - {t} == Others(c, but) - {t} && r.phase.Keys == c.phase.Keys
    ensures t in Others(c, but) <==> t !in but && IsOnTheWay(c.phase[t])
    ensures t in Others(r, but) <==> t !in but && IsOnTheWay(p)
  {}

  lemma CountOthers(c: Cond, r: Cond, but: set<Thread>, t: Thread, p: Phase)
    requires t in c.phase && r.phase == c.phase[t := p]
    ensures |Others(r, but)| == |Others(c, but)| - (if t !in but && IsOnTheWay(c.phase[t]) then 1 else 0)
                                + (if t !in but && IsOnTheWay(p) then 1 else 0)
    ensures t !in but && IsOnTheWay(c.phase[t]) ==> |Others(c, but)| > 0
    ensures r.phase.Keys == c.phase.Keys
  {
    hide Others;
    SameOthers(c, r, but, t, p);
    Counted(Others(c, but), t);
    Counted(Others(r, but), t);
  }

  lemma Counted(s: set<Thread>, t: Thread)
    ensures |s| == |s - {t}| + if t in s then 1 else 0
  {
    assert t in s ==> s == (s - {t}) + {t};
    assert t !in s ==> s == s - {t};
  }

  lemma OnTheWayWait(c: Cond)
    ensures |OnTheWay(c)| <= |Waiting(c)|
  {
    assert OnTheWay(c) <= Waiting(c);
    SubsetSize(OnTheWay(c), Waiting(c));
  }

  /** Without a wait list posts only add tokens. */
  lemma {:induction false} PostsAdd(c: Cond, n: nat)
    requires c.queue == [] && c.count <= SEM_MAX
    ensures Posts(c, n) == c.(count := if c.count + n <= SEM_MAX then c.count + n else SEM_MAX)
    decreases n
  {
    if !(n == 0 || c.count == SEM_MAX) {
      PostsAdd(Post(c), n - 1);
    }
  }

  /** With a token for everybody else on the way, for `n` more and `b` to spare, a step that
      is not one entry too many leaves the wait list empty and the tokens sufficient. */
  lemma TokensLast(c: Cond, but: set<Thread>, s: Step, n: nat, b: nat)
    requires Inv(c) && Enabled(c, s) && c.queue == [] && c.count >= |Others(c, but)| + n + b && (s.Enter? ==> n > 0)
    requires s.SemWait? ==> s.t !in but
    ensures var r := Apply(c, s);
            r.queue == [] && r.count >= |Others(r, but)| + (if s.Enter? then n - 1 else n) + b
  {
    NobodyOnTheList(c);
    assert c.count <= SEM_MAX;
    hide Inv, Others, Posts;
    if s.Lock? || s.Unlock? {
      SamePhase(c, Apply(c, s), but);
    } else if s.Signal? || s.Broadcast? {
      IdlePosts(c, s);
      SamePhase(c, Apply(c, s), but);
    } else {
      ThreadTokensLast(c, but, s, n, b);
    }
  }

  lemma SamePhase(c: Cond, r: Cond, but: set<Thread>)
    requires r.phase == c.phase
    ensures Others(r, but) == Others(c, but)
  {}

  lemma IdlePosts(c: Cond, s: Step)
    requires c.queue == [] && c.count <= SEM_MAX && (s.Signal? || s.Broadcast?)
    ensures Apply(c, s).queue == [] && Apply(c, s).count >= c.count && Apply(c, s).phase == c.phase
  {
    PostsAdd(c.(waiters := 0), c.waiters);
    hide Posts;
  }

  lemma NobodyOnTheList(c: Cond)
    requires Queued(c) && c.queue == []
    ensures forall t :: !In(c, t, InSem)
  {}

  lemma ThreadTokensLast(c: Cond, but: set<Thread>, s: Step, n: nat, b: nat)
    requires Enabled(c, s) && c.queue == [] && c.count >= |Others(c, but)| + n + b && (s.Enter? ==> n > 0)
    requires s.SemWait? ==> s.t !in but
    requires !s.Lock? && !s.Unlock? && !s.Signal? && !s.Broadcast? && !s.Fail?
    ensures var r := Apply(c, s);
            r.queue == [] && r.count >= |Others(r, but)| + (if s.Enter? then n - 1 else n) + b
  {
    hide Others;
    CountOthers(c, Apply(c, s), but, s.t, Apply(c, s).phase[s.t]);
  }

  lemma {:induction false} EnoughTokens(c: Cond, ss: seq<Step>, n: nat)
    requires Inv(c) && c.queue == [] && c.count >= |OnTheWay(c)| + n && Possible(c, ss) && Enters(ss) <= n
    ensures Run(c, ss).queue == []
    decreases |ss|
  {
    if ss != [] {
      StepKeeps(c, ss[0]);
      NoneLeftOut(c);
      NoneLeftOut(Apply(c, ss[0]));
      TokensLast(c, {}, ss[0], n, 0);
      hide Apply, Enabled, Inv, OnTheWay, Others;
      EnoughTokens(Apply(c, ss[0]), ss[1..], if ss[0].Enter? then n - 1 else n);
    }
  }

  lemma NoneLeftOut(c: Cond)
    ensures Others(c, {}) == OnTheWay(c)
  {}

  /** How far an idle condition variable is from somebody's holding the mutex, if those in
      `but` do nothing. */
  ghost function Distance(c: Cond, but: set<Thread>): nat {
    if c.locked then (if Others(c, but) == {} then 0 else 1)
    else if Others(c, but) != {} then 0
    else if exists t :: t in c.phase && t !in but && (c.phase[t] == Outside || c.phase[t].Relocking?) then 1
    else 2
  }

  /** Those in `but` wait for nothing but the semaphore. */
  ghost predicate Spared(c: Cond, but: set<Thread>) { forall t :: t in but ==> In(c, t, Released) }

  /** What some other thread does next when everybody heads for the semaphore. */
  lemma Onward(c: Cond, but: set<Thread>) returns (s: Step)
    requires Queued(c) && Owned(c) && c.queue == [] && Spared(c, but) && exists t :: t in c.phase && t !in but
    ensures Enabled(c, s) && OnwardKind(s, but)
    ensures s.Enter? || s.Lock? || s.Relock? || s.Discount? <==> Others(c, but) == {}
    ensures s.Discount? ==> Distance(c, but) == 2
  {
    if t :| In(c, t, Released) && t !in but {
      s := SemWait(t, true, 0);
      assert t in Others(c, but);
    } else if t :| In(c, t, Entered) {
      s := Release(t);
      assert t !in but && t in Others(c, but);
    } else {
      forall t ensures t !in Others(c, but) {
        assert !In(c, t, Entered) && (In(c, t, Released) ==> t in but);
      }
      if c.locked {
        assert c.owner in but ==> In(c, c.owner, Released);
        s := Enter(c.owner);
      } else if t :| t in c.phase && t !in but && (c.phase[t] == Outside || c.phase[t].Relocking?) {
        s := if c.phase[t] == Outside then Lock(t) else Relock(t);
      } else {
        var t :| t in c.phase && t !in but;
        assert In(c, t, InSem) ==> t in c.queue;
        assert t !in Others(c, but);
        s := Discount(t);
      }
    }
  }

  predicate OnwardKind(s: Step, but: set<Thread>) {
    && (s.SemWait? || s.Release? || s.Enter? || s.Lock? || s.Relock? || s.Discount?)
    && (s.SemWait? ==> s.mayBlock && s.at == 0) && s.t !in but
  }

  lemma Chain(c: Cond, s: Step, d: Cond, rest: seq<Step>, r: Cond)
    requires Enabled(c, s) && Apply(c, s) == d && Possible(d, rest) && Run(d, rest) == r
    ensures Possible(c, [s] + rest) && Run(c, [s] + rest) == r
  {
    assert ([s] + rest)[1..] == rest;
  }

  /** Such a step brings the tokens nearer to their end: `n` entries at most are still to come. */
  lemma OnwardStep(c: Cond, but: set<Thread>, s: Step, n: nat, b: nat)
    requires Inv(c) && Owned(c) && c.queue == [] && Spared(c, but)
    requires b <= c.count < |Others(c, but)| + n + b && Enabled(c, s) && OnwardKind(s, but)
    requires s.Enter? || s.Lock? || s.Relock? || s.Discount? <==> Others(c, but) == {}
    requires s.Discount? ==> Distance(c, but) == 2
    requires Apply(c, s).queue == []
    ensures var d := Apply(c, s); var m := if s.Enter? then n - 1 else n;
            && (s.Enter? ==> n > 0) && d.count < |Others(d, but)| + m + b && d.phase.Keys == c.phase.Keys && Spared(d, but)
            && (!s.Enter? ==> |Others(d, but)| <= |Others(c, but)|)
            && (!s.Enter? && |Others(d, but)| == |Others(c, but)| ==> Distance(d, but) < Distance(c, but))
  {
    hide Others, Inv, Owned, Distance;
    var d := Apply(c, s);
    assert d.phase == c.phase[s.t := if s.Lock? then Outside else d.phase[s.t]];
    CountOthers(c, d, but, s.t, d.phase[s.t]);
    if Others(c, but) == {} {
      assert |Others(c, but)| == 0;
    }
    if !s.Enter? && |Others(d, but)| == |Others(c, but)| {
      Nearer(c, but, s);
    }
  }

  lemma Nearer(c: Cond, but: set<Thread>, s: Step)
    requires c.queue == [] && Enabled(c, s) && OnwardKind(s, but) && Apply(c, s).queue == [] && !s.Enter?
    requires s.Lock? || s.Relock? || s.Discount? <==> Others(c, but) == {}
    requires s.Discount? ==> Distance(c, but) == 2
    requires |Others(Apply(c, s), but)| == |Others(c, but)|
    ensures Distance(Apply(c, s), but) < Distance(c, but)
  {
    var d := Apply(c, s);
    CountOthers(c, d, but, s.t, d.phase[s.t]);
    SameOthers(c, d, but, s.t, d.phase[s.t]);
    hide Others;
    assert Others(c, but) == {} ==> |Others(c, but)| == 0;
    assert s.t in d.phase;
  }

  /** With fewer tokens than that there is a run, with no more entries, in which somebody blocks. */
  lemma {:induction false} TooFewTokens(c: Cond, n: nat) returns (ss: seq<Step>)
    requires Inv(c) && Owned(c) && c.queue == [] && c.phase.Keys != {} && c.count < |Others(c, {})| + n
    ensures Possible(c, ss) && Enters(ss) <= n && Run(c, ss).queue != []
    decreases n, |Others(c, {})|, Distance(c, {})
  {
    InvQueued(c);
    assert exists t :: t in c.phase && t !in {};
    hide Inv, Owned, Distance, Apply, Enabled, Others;
    var s := Onward(c, {});
    var d := Apply(c, s);
    if d.queue != [] {
      Chain(c, s, d, [], d);
      ss := [s] + [];
      OnlyEntry(c, s);
    } else {
      OnwardStep(c, {}, s, n, 0);
      StepKeeps(c, s);
      OwnedKeeps(c, s);
      var m := if s.Enter? then n - 1 else n;
      var rest := TooFewTokens(d, m);
      Chain(c, s, d, rest, Run(d, rest));
      ss := [s] + rest;
      assert ss[1..] == rest;
    }
  }

  lemma InvQueued(c: Cond)
    requires Inv(c)
    ensures Queued(c)
  {}

  lemma OnlyEntry(c: Cond, s: Step)
    requires Enabled(c, s) && c.queue == [] && Apply(c, s).queue != []
    ensures Enters([s] + []) == 0
  {
    if s.Signal? || s.Broadcast? {
      assert !s.Enter?;
    }
    assert ([s] + [])[1..] == [];
  }

  /** Exactly when nobody can block any more: for any number `n` of threads that may still
      start to wait, no interleaving puts anybody on the wait list iff there is a token for
      everybody on the way and for those `n`. */
  lemma NobodyBlocksIff(c: Cond, n: nat)
    requires Inv(c) && Owned(c) && c.queue == [] && c.phase.Keys != {}
    ensures (forall ss :: Possible(c, ss) && Enters(ss) <= n ==> Run(c, ss).queue == [])
            <==> c.count >= |OnTheWay(c)| + n
  {
    hide Inv, Owned, OnTheWay;
    NoneLeftOut(c);
    if c.count >= |OnTheWay(c)| + n {
      forall ss | Possible(c, ss) && Enters(ss) <= n ensures Run(c, ss).queue == [] {
        EnoughTokens(c, ss, n);
      }
    } else {
      var ss := TooFewTokens(c, n);
      assert Run(c, ss).queue != [];
    }
  }

  function AtMost(a: int, limit: nat): int { if a <= limit then a else limit }

  /** The tokens a broadcast leaves: a unit of `waiters` goes to each thread on the wait
      list, the others are counted. */
  lemma {:induction false} PostsCount(c: Cond, n: nat)
    requires Queued(c) && c.count <= SEM_MAX && |c.queue| <= n
    ensures Posts(c, n).count == AtMost(c.count + n - |c.queue|, SEM_MAX)
    ensures OnTheWay(Posts(c, n)) == OnTheWay(c)
    decreases n
  {
    if c.queue == [] {
      PostsAdd(c, n);
    } else {
      PostQueued(c);
      assert In(c, c.queue[0], InSem);
      PostsCount(Post(c), n - 1);
      assert OnTheWay(Post(c)) == OnTheWay(c);
    }
  }

  ghost function Listed(q: seq<Thread>): set<Thread> {
    set t | t in q
  }

  lemma {:induction false} ListedSize(q: seq<Thread>)
    requires NoDup(q)
    ensures |Listed(q)| == |q|
  {
    if q != [] {
      ListedSize(q[1..]);
      assert Listed(q) == Listed(q[1..]) + {q[0]};
      assert q[0] !in q[1..];
    }
  }

  lemma WaitersOnTheList(c: Cond)
    requires Inv(c)
    ensures |c.queue| <= c.waiters
  {
    if c.queue != [] {
      forall t | t in Listed(c.queue) ensures t in Waiting(c) {
        assert In(c, t, InSem);
      }
      SubsetSize(Listed(c.queue), Waiting(c));
      ListedSize(c.queue);
    }
  }

  // ----- who is freed

  /** Threads that had begun to wait, and had not given up. */
  predicate Early(c: Cond, t: Thread) { In(c, t, Entered) || In(c, t, Released) || In(c, t, InSem) }

  predicate NoEntry(ss: seq<Step>, ts: set<Thread>) { forall i :: 0 <= i < |ss| && ss[i].Enter? ==> ss[i].t !in ts }

  predicate Free(p: Phase) { p == Outside || p.Relocking? }

  lemma FreeStep(c: Cond, s: Step, t: Thread)
    requires Queued(c) && Enabled(c, s) && s != Enter(t) && t in c.phase && Free(c.phase[t])
    ensures t in Apply(c, s).phase && Free(Apply(c, s).phase[t])
  {
    hide Queued;
    if s.Signal? || s.Broadcast? {
      PostedPhase(c, s, t);
    }
  }

  /** A freed thread that does not start to wait again never blocks again. */
  lemma {:induction false} FreeStays(c: Cond, ss: seq<Step>, t: Thread)
    requires Inv(c) && Possible(c, ss) && NoEntry(ss, {t}) && t in c.phase && Free(c.phase[t])
    ensures t !in Run(c, ss).queue
    decreases |ss|
  {
    if ss == [] {
      assert t in c.queue ==> In(c, t, InSem);
    } else {
      StepKeeps(c, ss[0]);
      FreeStep(c, ss[0], t);
      hide Inv, Apply, Enabled;
      FreeStays(Apply(c, ss[0]), ss[1..], t);
    }
  }

  /** Nobody enters when nobody is left to. */
  lemma {:induction false} NobodyEnters(c: Cond, ss: seq<Step>, ts: set<Thread>)
    requires Inv(c) && Possible(c, ss) && NoEntry(ss, ts) && c.phase.Keys <= ts
    ensures Enters(ss) == 0
    decreases |ss|
  {
    if ss != [] {
      StepKeeps(c, ss[0]);
      StepThreads(c, ss[0]);
      assert !ss[0].Enter?;
      hide Inv, Apply, Enabled;
      NobodyEnters(Apply(c, ss[0]), ss[1..], ts);
    }
  }

  lemma {:induction false} RunsJoin(c: Cond, a: seq<Step>, b: seq<Step>, r: Cond)
    requires Possible(c, a) && Possible(Run(c, a), b) && Run(Run(c, a), b) == r
    ensures Possible(c, a + b) && Run(c, a + b) == r && Enters(a + b) == Enters(a) + Enters(b)
    decreases |a|
  {
    if a == [] {
      assert a + b == b;
    } else {
      assert (a + b)[0] == a[0] && (a + b)[1..] == a[1..] + b;
      hide Apply, Enabled;
      RunsJoin(Apply(c, a[0]), a[1..], b, r);
    }
  }

  /** The threads outside `but` take every token, starting to wait again at most `n` times. */
  lemma {:induction false} TokensTaken(c: Cond, but: set<Thread>, n: nat) returns (ss: seq<Step>)
    requires Inv(c) && Owned(c) && c.queue == [] && Spared(c, but) && (exists t :: t in c.phase && t !in but)
    requires c.count <= |Others(c, but)| + n
    ensures Possible(c, ss) && Enters(ss) <= n && NoEntry(ss, but)
    ensures var r := Run(c, ss); Inv(r) && r.count == 0 && Spared(r, but)
    decreases n, |Others(c, but)|, Distance(c, but)
  {
    if c.count == 0 {
      ss := [];
      return;
    }
    InvQueued(c);
    var s := Onward(c, but);
    var d := Apply(c, s);
    assert d.queue == [];
    hide Inv, Owned, Distance, Apply, Enabled, Others, Spared;
    OnwardStep(c, but, s, n, 1);
    StepKeeps(c, s);
    OwnedKeeps(c, s);
    var rest := TokensTaken(d, but, if s.Enter? then n - 1 else n);
    Chain(c, s, d, rest, Run(d, rest));
    ss := [s] + rest;
    assert ss[1..] == rest;
  }

  /** Without tokens everybody at the semaphore gets on its wait list. */
  lemma {:induction false} AllBlock(c: Cond, ts: set<Thread>) returns (ss: seq<Step>)
    requires Inv(c) && c.count == 0 && Spared(c, ts)
    ensures Possible(c, ss) && Enters(ss) == 0 && NoEntry(ss, ts)
    ensures forall t :: t in ts || t in c.queue ==> t in Run(c, ss).queue
    decreases ts
  {
    ss := [];
    if t :| t in ts {
      var s := SemWait(t, true, 0);
      var d := Apply(c, s);
      assert d.queue == [t] + c.queue;
      StepKeeps(c, s);
      assert Spared(d, ts - {t});
      hide Inv, Apply, Enabled, Spared;
      var rest := AllBlock(d, ts - {t});
      AllBlockFirst(s, rest, ts, t);
      Chain(c, s, d, rest, Run(d, rest));
      ss := [s] + rest;
    }
  }

  lemma AllBlockFirst(s: Step, rest: seq<Step>, ts: set<Thread>, t: Thread)
    requires s.SemWait? && Enters(rest) == 0
    ensures Enters([s] + rest) == 0 && NoEntry([s] + rest, ts)
  {
    assert ([s] + rest)[1..] == rest;
    NoEntries([s] + rest);
  }

  lemma {:induction false} NoEntries(ss: seq<Step>)
    requires Enters(ss) == 0
    ensures forall i :: 0 <= i < |ss| ==> !ss[i].Enter?
  {
    if ss != [] {
      NoEntries(ss[1..]);
      forall i | 0 <= i < |ss| ensures !ss[i].Enter? {
        assert i > 0 ==> ss[i] == ss[1..][i - 1];
      }
    }
  }

  /** Threads on the way give up the mutex. */
  lemma AllRelease(c: Cond, ts: set<Thread>) returns (ss: seq<Step>)
    requires Inv(c) && Owned(c) && c.queue == [] && ts <= OnTheWay(c)
    ensures Possible(c, ss) && Enters(ss) == 0
    ensures var d := Run(c, ss);
            && Inv(d) && Owned(d) && d.queue == [] && d.count == c.count && d.phase.Keys == c.phase.Keys
            && Spared(d, ts) && Others(d, ts) == Others(c, ts)
  {
    if t :| t in ts && In(c, t, Entered) {
      var d := Apply(c, Release(t));
      StepKeeps(c, Release(t));
      OwnedKeeps(c, Release(t));
      assert Others(d, ts) == Others(c, ts);
      forall u | u in ts ensures In(d, u, Released) {
        assert u in OnTheWay(c) && (In(c, u, Entered) ==> c.owner == u);
      }
      Chain(c, Release(t), d, [], d);
      ss := [Release(t)] + [];
      assert ss[1..] == [];
    } else {
      ss := [];
      assert forall t :: t in ts ==> In(c, t, Released);
    }
  }

  /** Too few tokens for the others and `n` entries: a run in which all of `ts` block. */
  lemma AllLeftOut(c: Cond, ts: set<Thread>, n: nat) returns (ss: seq<Step>)
    requires Inv(c) && Owned(c) && c.queue == [] && ts <= OnTheWay(c) && (exists t :: t in c.phase && t !in ts)
    requires c.count <= |Others(c, ts)| + n
    ensures Possible(c, ss) && Enters(ss) <= n && NoEntry(ss, ts)
    ensures forall t :: t in ts ==> t in Run(c, ss).queue
  {
    hide Inv, Owned, OnTheWay, Others, Spared, Apply, Enabled, Possible, Run, Enters;
    var ss1 := AllRelease(c, ts);
    var c1 := Run(c, ss1);
    assert exists t :: t in c1.phase && t !in ts by {
      var t :| t in c.phase && t !in ts;
      assert t in c1.phase.Keys;
    }
    var ss2 := TokensTaken(c1, ts, n);
    var c2 := Run(c1, ss2);
    var ss3 := AllBlock(c2, ts);
    RunsJoin(c1, ss2, ss3, Run(c2, ss3));
    RunsJoin(c, ss1, ss2 + ss3, Run(c2, ss3));
    NoEntries(ss1);
    ss := ss1 + (ss2 + ss3);
  }

  // ----- broadcast

  /** What a broadcast leaves. */
  lemma AfterBroadcast(c: Cond)
    requires Inv(c) && Owned(c)
    ensures var r := Apply(c, Broadcast);
            && Inv(r) && Owned(r) && r.queue == [] && r.phase.Keys == c.phase.Keys && OnTheWay(r) == OnTheWay(c)
            && r.count == AtMost(c.count + c.waiters - |c.queue|, SEM_MAX) >= |OnTheWay(c)|
            && forall t :: In(c, t, InSem) ==> In(r, t, Relocking(true))
  {
    var start := c.(waiters := 0);
    assert Queued(start) by {
      assert forall u, p :: In(start, u, p) <==> In(c, u, p);
    }
    WaitersOnTheList(c);
    PostsCount(start, c.waiters);
    assert OnTheWay(start) == OnTheWay(c);
    BroadcastUnblocksAll(c);
    OwnedKeeps(c, Broadcast);
    PostsFrame(start, c.waiters);
    OnTheWayWait(Apply(c, Broadcast));
  }

  /** Every one of those that have begun to wait, unless it begins to wait again, is off the
      wait list for good, whatever at most `n` threads that begin to wait later do. */
  ghost predicate FreesAll(c: Cond, r: Cond, n: nat) {
    forall ss, t :: Possible(r, ss) && Enters(ss) <= n && Early(c, t) && NoEntry(ss, {t}) ==> t !in Run(r, ss).queue
  }

  lemma BroadcastFrees(c: Cond, n: nat, ss: seq<Step>, t: Thread)
    requires Inv(c) && Owned(c) && Possible(Apply(c, Broadcast), ss) && Enters(ss) <= n
    requires Early(c, t) && NoEntry(ss, {t})
    requires || OnTheWay(c) == {} || |c.phase| == 1
             || AtMost(c.count + c.waiters - |c.queue|, SEM_MAX) >= |OnTheWay(c)| + n
    ensures t !in Run(Apply(c, Broadcast), ss).queue
  {
    var r := Apply(c, Broadcast);
    AfterBroadcast(c);
    if In(c, t, InSem) {
      FreeStays(r, ss, t);
    } else {
      assert t in OnTheWay(c);
      if |c.phase| == 1 {
        OnlyOne(c, t);
        NobodyEnters(r, ss, {t});
        EnoughTokens(r, ss, 0);
      } else {
        EnoughTokens(r, ss, n);
      }
    }
  }

  lemma OnlyOne(c: Cond, t: Thread)
    requires t in c.phase
    ensures |c.phase| == 1 <==> c.phase.Keys == {t}
  {
    Counted(c.phase.Keys, t);
    assert |c.phase| == |c.phase.Keys|;
    if |c.phase| == 1 {
      assert |c.phase.Keys - {t}| == 0;
      assert c.phase.Keys <= {t};
    }
  }

  lemma BroadcastMisses(c: Cond, n: nat)
    requires Inv(c) && Owned(c) && OnTheWay(c) != {} && |c.phase| != 1
    requires AtMost(c.count + c.waiters - |c.queue|, SEM_MAX) < |OnTheWay(c)| + n
    ensures !FreesAll(c, Apply(c, Broadcast), n)
  {
    var r := Apply(c, Broadcast);
    AfterBroadcast(c);
    var t :| t in OnTheWay(c);
    assert Early(c, t);
    OnlyOne(c, t);
    assert exists u :: u in r.phase && u !in {t} by {
      assert c.phase.Keys != {t};
      var u :| u in c.phase.Keys && u != t;
      assert u in r.phase.Keys;
    }
    Counted(OnTheWay(c), t);
    hide Inv, Owned, Apply, OnTheWay;
    var ss := AllLeftOut(r, {t}, n);
    assert t in Run(r, ss).queue;
  }

  /** The exact condition, known before the call, for a broadcast to free everybody who has
      begun to wait, whatever at most `n` threads that begin to wait later do: everybody is
      on the wait list, or there is nobody else, or the units and tokens, less those for the
      threads on the wait list, cover everybody on the way and `n` more. */
  lemma BroadcastFreesIff(c: Cond, n: nat)
    requires Inv(c) && Owned(c)
    ensures FreesAll(c, Apply(c, Broadcast), n) <==>
              || OnTheWay(c) == {} || |c.phase| == 1
              || AtMost(c.count + c.waiters - |c.queue|, SEM_MAX) >= |OnTheWay(c)| + n
  {
    hide Inv, Owned, Apply, OnTheWay, AtMost, Early;
    var r := Apply(c, Broadcast);
    if OnTheWay(c) == {} || |c.phase| == 1 || AtMost(c.count + c.waiters - |c.queue|, SEM_MAX) >= |OnTheWay(c)| + n {
      forall ss, t | Possible(r, ss) && Enters(ss) <= n && Early(c, t) && NoEntry(ss, {t}) ensures t !in Run(r, ss).queue {
        BroadcastFrees(c, n, ss, t);
      }
    } else {
      BroadcastMisses(c, n);
    }
  }

  // ----- signal

  /** Somebody who has begun to wait is off the wait list for good, whatever at most `n`
      threads that begin to wait later do. */
  ghost predicate FreesOne(c: Cond, r: Cond, n: nat) {
    forall ss :: Possible(r, ss) && Enters(ss) <= n && NoEntry(ss, Earlies(c)) ==>
      exists t :: Early(c, t) && t !in Run(r, ss).queue
  }

  ghost function Earlies(c: Cond): set<Thread> { set t | t in c.phase && Early(c, t) }

  /** With a token to spare somebody of `ts` gets one, or none of them is on the list yet. */
  lemma {:induction false} SomebodyServed(c: Cond, ts: set<Thread>, n: nat, ss: seq<Step>) returns (t: Thread)
    requires Inv(c) && c.queue == [] && ts != {} && ts <= OnTheWay(c) && c.count > |Others(c, ts)| + n
    requires Possible(c, ss) && Enters(ss) <= n && NoEntry(ss, ts)
    ensures t in ts && t !in Run(c, ss).queue
    decreases |ss|
  {
    if ss == [] {
      t :| t in ts;
      return;
    }
    var s := ss[0];
    var d := Apply(c, s);
    StepKeeps(c, s);
    if s.SemWait? && s.t in ts {
      t := s.t;
      FreeStays(d, ss[1..], t);
    } else {
      TokensLast(c, ts, s, n, 1);
      StillOnTheWay(c, s, ts);
      hide Inv, Apply, Enabled, Others, OnTheWay;
      t := SomebodyServed(d, ts, if s.Enter? then n - 1 else n, ss[1..]);
    }
  }

  lemma StillOnTheWay(c: Cond, s: Step, ts: set<Thread>)
    requires Queued(c) && Enabled(c, s) && ts <= OnTheWay(c) && !(s.SemWait? && s.t in ts)
    ensures ts <= OnTheWay(Apply(c, s))
  {
    forall t | t in ts ensures t in OnTheWay(Apply(c, s)) {
      assert t in OnTheWay(c);
      if s.Signal? || s.Broadcast? {
        PostedPhase(c, s, t);
      }
    }
  }

  /** What a signal leaves when nobody is on the wait list. */
  lemma AfterIdleSignal(c: Cond)
    requires Inv(c) && Owned(c) && c.queue == []
    ensures var r := Apply(c, Signal);
            && Inv(r) && Owned(r) && r.queue == [] && r.phase == c.phase && OnTheWay(r) == OnTheWay(c) == Earlies(c)
            && r.count == AtMost(c.count + (if c.waiters > 0 then 1 else 0), SEM_MAX)
            && (OnTheWay(c) != {} ==> r.count > 0)
  {
    StepKeeps(c, Signal);
    OwnedKeeps(c, Signal);
    NobodyOnTheList(c);
    assert OnTheWay(c) == Earlies(c);
    assert OnTheWay(Apply(c, Signal)) == OnTheWay(c);
    OnTheWayWait(c);
  }

  lemma SignalFrees(c: Cond, n: nat, ss: seq<Step>) returns (t: Thread)
    requires Inv(c) && Owned(c) && Possible(Apply(c, Signal), ss) && Enters(ss) <= n && NoEntry(ss, Earlies(c))
    requires Earlies(c) != {}
    requires c.queue != [] || c.phase.Keys == OnTheWay(c) || AtMost(c.count + (if c.waiters > 0 then 1 else 0), SEM_MAX) > n
    ensures Early(c, t) && t !in Run(Apply(c, Signal), ss).queue
  {
    var r := Apply(c, Signal);
    StepKeeps(c, Signal);
    if c.queue != [] {
      t := c.queue[0];
      assert In(c, t, InSem);
      SignalUnblocks(c);
      FreeStays(r, ss, t);
    } else {
      AfterIdleSignal(c);
      var ts := Earlies(c);
      assert Others(r, ts) == {};
      if c.phase.Keys == OnTheWay(c) {
        NobodyEnters(r, ss, ts);
        t := SomebodyServed(r, ts, 0, ss);
      } else {
        t := SomebodyServed(r, ts, n, ss);
      }
    }
  }

  lemma SignalMisses(c: Cond, n: nat)
    requires Inv(c) && Owned(c) && c.queue == [] && c.phase.Keys != OnTheWay(c)
    requires AtMost(c.count + (if c.waiters > 0 then 1 else 0), SEM_MAX) <= n
    ensures !FreesOne(c, Apply(c, Signal), n)
  {
    var r := Apply(c, Signal);
    AfterIdleSignal(c);
    var ts := Earlies(c);
    assert Others(r, ts) == {};
    assert OnTheWay(c) <= c.phase.Keys;
    assert exists u :: u in r.phase && u !in ts by {
      var u :| u in c.phase.Keys && u !in OnTheWay(c);
    }
    assert forall t :: Early(c, t) ==> t in ts;
    hide Inv, Owned, Apply, OnTheWay, Early, Others;
    var ss := AllLeftOut(r, ts, n);
    assert forall t :: Early(c, t) ==> t in Run(r, ss).queue;
  }

  /** The exact condition, known before the call, for a signal to free somebody who has begun
      to wait: there is such a thread, and one is on the wait list, or nobody else could begin
      to wait, or there are more tokens than threads that begin to wait later. */
  lemma SignalFreesIff(c: Cond, n: nat)
    requires Inv(c) && Owned(c)
    ensures FreesOne(c, Apply(c, Signal), n) <==>
              && Earlies(c) != {}
              && (|| c.queue != [] || c.phase.Keys == OnTheWay(c)
                  || AtMost(c.count + (if c.waiters > 0 then 1 else 0), SEM_MAX) > n)
  {
    hide Inv, Owned, Apply, OnTheWay, AtMost;
    var r := Apply(c, Signal);
    if Earlies(c) == {} {
      NobodyEarly(c, r, n);
    } else if c.queue != [] || c.phase.Keys == OnTheWay(c) || AtMost(c.count + (if c.waiters > 0 then 1 else 0), SEM_MAX) > n {
      forall ss | Possible(r, ss) && Enters(ss) <= n && NoEntry(ss, Earlies(c))
        ensures exists t :: Early(c, t) && t !in Run(r, ss).queue
      {
        var t := SignalFrees(c, n, ss);
      }
    } else {
      SignalMisses(c, n);
    }
  }

  lemma NobodyEarly(c: Cond, r: Cond, n: nat)
    requires Earlies(c) == {}
    ensures !FreesOne(c, r, n)
  {
    assert Possible(r, []) && Enters([]) == 0 && NoEntry([], Earlies(c));
    assert forall t :: Early(c, t) ==> t in Earlies(c);
  }

  // ----- in every reachable state

  lemma {:induction false} RunOwned(c: Cond, ss: seq<Step>)
    requires Inv(c) && Owned(c) && Possible(c, ss)
    ensures Owned(Run(c, ss)) && Run(c, ss).phase.Keys == c.phase.Keys
    decreases |ss|
  {
    if ss != [] {
      StepKeeps(c, ss[0]);
      InvQueued(c);
      OwnedKeeps(c, ss[0]);
      StepThreads(c, ss[0]);
      hide Apply, Enabled, Inv, Owned;
      RunOwned(Apply(c, ss[0]), ss[1..]);
    }
  }

  lemma StepThreads(c: Cond, s: Step)
    requires Queued(c) && Enabled(c, s)
    ensures Apply(c, s).phase.Keys == c.phase.Keys
  {
    if s.Signal? || s.Broadcast? {
      PostedPhase(c, s, 0);
    }
  }

  lemma FreshStart(c: Cond)
    requires Fresh(c)
    ensures Inv(c) && Owned(c)
  {
    assert Waiting(c) == {};
  }

  /** So it is in every reachable state; and while nobody else begins to wait a broadcast
      frees everybody, and a signal somebody if anybody has begun to wait. */
  lemma WakeUpsInReach(c: Cond, ss: seq<Step>, n: nat)
    requires Fresh(c) && Possible(c, ss)
    ensures var r := Run(c, ss);
            && (FreesAll(r, Apply(r, Broadcast), n) <==>
                  || OnTheWay(r) == {} || |r.phase| == 1
                  || AtMost(r.count + r.waiters - |r.queue|, SEM_MAX) >= |OnTheWay(r)| + n)
            && (FreesOne(r, Apply(r, Signal), n) <==>
                  && Earlies(r) != {}
                  && (|| r.queue != [] || r.phase.Keys == OnTheWay(r)
                      || AtMost(r.count + (if r.waiters > 0 then 1 else 0), SEM_MAX) > n))
            && FreesAll(r, Apply(r, Broadcast), 0) && (Earlies(r) != {} ==> FreesOne(r, Apply(r, Signal), 0))
  {
    hide Apply, Enabled, Inv, Owned, Fresh, OnTheWay, AtMost, FreesAll, FreesOne, Earlies;
    FreshStart(c);
    RunKeeps(c, ss);
    RunOwned(c, ss);
    var r := Run(c, ss);
    BroadcastFreesIff(r, n);
    SignalFreesIff(r, n);
    BroadcastFreesIff(r, 0);
    SignalFreesIff(r, 0);
    AfterBroadcast(r);
    if r.queue == [] {
      AfterIdleSignal(r);
    }
  }

  const TWO_THREADS: Cond := Cond(0, 0, [], false, 0, map[0 := Outside, 1 := Outside])

  const THEFT: seq<Step> :=
    [Lock(0), Enter(0), Release(0), Broadcast, Lock(1), Enter(1), Release(1), SemWait(1, true, 0), SemWait(0, true, 0)]

  function State(waiters: nat, count: nat, queue: seq<Thread>, locked: bool, owner: Thread, p: Phase, q: Phase): Cond {
    Cond(waiters, count, queue, locked, owner, map[0 := p, 1 := q])
  }

  /** A smallest run in which a broadcast does not reach everyone: thread 1 starts to wait
      after it, takes the token meant for thread 0, and thread 0 blocks. */
  lemma LaterWaiterTakesToken()
    ensures Fresh(TWO_THREADS) && Possible(TWO_THREADS, THEFT)
    ensures In(Run(TWO_THREADS, THEFT), 0, InSem) && In(Run(TWO_THREADS, THEFT), 1, Relocking(true))
  {
    hide Possible, Run, Apply, Enabled, Fresh;
    TwoFresh();
    var c4 := State(0, 1, [], false, 0, Released, Outside);
    var c9 := State(1, 0, [0], false, 1, InSem, Relocking(true));
    TheftEnd(c4, c9);
    TheftStart(THEFT[4..], c4, c9);
    assert THEFT == [Lock(0)] + ([Enter(0)] + ([Release(0)] + ([Broadcast] + THEFT[4..])));
  }

  lemma TwoFresh()
    ensures Fresh(TWO_THREADS)
  {
    assert TWO_THREADS.phase.Keys == {0, 1};
  }

  lemma TheftEnd(c4: Cond, c9: Cond)
    requires c4 == State(0, 1, [], false, 0, Released, Outside)
    requires c9 == State(1, 0, [0], false, 1, InSem, Relocking(true))
    ensures Possible(c4, THEFT[4..]) && Run(c4, THEFT[4..]) == c9
  {
    assert Possible(c9, []) && Run(c9, []) == c9;
    hide Possible, Run;
    var c5 := State(0, 1, [], true, 1, Released, Outside);
    var c6 := State(1, 1, [], true, 1, Released, Entered);
    var c7 := State(1, 1, [], false, 1, Released, Released);
    var c8 := State(1, 0, [], false, 1, Released, Relocking(true));
    var s := THEFT;
    assert s[4..] == [s[4]] + ([s[5]] + ([s[6]] + ([s[7]] + ([s[8]] + []))));
    Chain(c8, s[8], c9, [], c9);
    Chain(c7, s[7], c8, [s[8]] + [], c9);
    Chain(c6, s[6], c7, [s[7]] + ([s[8]] + []), c9);
    Chain(c5, s[5], c6, [s[6]] + ([s[7]] + ([s[8]] + [])), c9);
    Chain(c4, s[4], c5, [s[5]] + ([s[6]] + ([s[7]] + ([s[8]] + []))), c9);
  }

  lemma TheftStart(rest: seq<Step>, c4: Cond, c9: Cond)
    requires c4 == State(0, 1, [], false, 0, Released, Outside)
    requires Possible(c4, rest) && Run(c4, rest) == c9
    ensures var s := [Lock(0)] + ([Enter(0)] + ([Release(0)] + ([Broadcast] + rest)));
            Possible(TWO_THREADS, s) && Run(TWO_THREADS, s) == c9
  {
    var c1 := State(0, 0, [], true, 0, Outside, Outside);
    var c2 := State(1, 0, [], true, 0, Entered, Outside);
    var c3 := State(1, 0, [], false, 0, Released, Outside);
    TheftBroadcast(c3, c4);
    hide Posts, Possible, Run;
    Chain(c3, Broadcast, c4, rest, c9);
    Chain(c2, Release(0), c3, [Broadcast] + rest, c9);
    Chain(c1, Enter(0), c2, [Release(0)] + ([Broadcast] + rest), c9);
    Chain(TWO_THREADS, Lock(0), c1, [Enter(0)] + ([Release(0)] + ([Broadcast] + rest)), c9);
  }

  lemma TheftBroadcast(c3: Cond, c4: Cond)
    requires c3 == State(1, 0, [], false, 0, Released, Outside)
    requires c4 == State(0, 1, [], false, 0, Released, Outside)
    ensures Enabled(c3, Broadcast) && Apply(c3, Broadcast) == c4
  {
    assert Posts(c3.(waiters := 0), 1) == Posts(c4, 0);
  }

  const ONE_THREAD: Cond := Cond(0, 0, [], false, 0, map[0 := Outside])

  /** A signal that comes between a time-out and its discount is spent on nobody: a token is left
      although no thread waits, and the next wait will find it. */
  lemma LateSignalLeavesToken() returns (ss: seq<Step>)
    ensures Fresh(ONE_THREAD) && Possible(ONE_THREAD, ss) && IdleDiscounts(ONE_THREAD, ss) == 1
    ensures Waiting(Run(ONE_THREAD, ss)) == {} && Run(ONE_THREAD, ss).count == 1
  {
    var c4 := Cond(1, 0, [], false, 0, map[0 := Failed]);
    var c6 := Cond(0, 1, [], false, 0, map[0 := Relocking(false)]);
    assert ONE_THREAD.phase.Keys == {0};
    LateDiscount(c4, c6);
    var rest := [Signal] + ([Discount(0)] + []);
    hide Possible, Run, IdleDiscounts, Apply, Enabled;
    LateTimeOut(c4, rest, c6);
    ss := [Lock(0)] + ([Enter(0)] + ([Release(0)] + ([SemWait(0, false, 0)] + rest)));
  }

  lemma DiscountChain(c: Cond, s: Step, d: Cond, rest: seq<Step>, r: Cond, n: nat)
    requires Enabled(c, s) && Apply(c, s) == d && Possible(d, rest) && Run(d, rest) == r && IdleDiscounts(d, rest) == n
    ensures Possible(c, [s] + rest) && Run(c, [s] + rest) == r
    ensures IdleDiscounts(c, [s] + rest) == n + if s.Discount? && c.waiters == 0 then 1 else 0
  {
    assert ([s] + rest)[1..] == rest;
  }

  lemma LateDiscount(c4: Cond, c6: Cond)
    requires c4 == Cond(1, 0, [], false, 0, map[0 := Failed]) && c6 == Cond(0, 1, [], false, 0, map[0 := Relocking(false)])
    ensures var rest := [Signal] + ([Discount(0)] + []);
            Possible(c4, rest) && Run(c4, rest) == c6 && IdleDiscounts(c4, rest) == 1
  {
    var c5 := Cond(0, 1, [], false, 0, map[0 := Failed]);
    assert Possible(c6, []) && Run(c6, []) == c6 && IdleDiscounts(c6, []) == 0;
    hide Possible, Run, IdleDiscounts;
    DiscountChain(c5, Discount(0), c6, [], c6, 0);
    DiscountChain(c4, Signal, c5, [Discount(0)] + [], c6, 1);
  }

  lemma LateTimeOut(c4: Cond, rest: seq<Step>, r: Cond)
    requires c4 == Cond(1, 0, [], false, 0, map[0 := Failed])
    requires Possible(c4, rest) && Run(c4, rest) == r && IdleDiscounts(c4, rest) == 1
    ensures var ss := [Lock(0)] + ([Enter(0)] + ([Release(0)] + ([SemWait(0, false, 0)] + rest)));
            Possible(ONE_THREAD, ss) && Run(ONE_THREAD, ss) == r && IdleDiscounts(ONE_THREAD, ss) == 1
  {
    hide Possible, Run, IdleDiscounts;
    var c1 := Cond(0, 0, [], true, 0, map[0 := Outside]);
    var c2 := Cond(1, 0, [], true, 0, map[0 := Entered]);
    var c3 := Cond(1, 0, [], false, 0, map[0 := Released]);
    DiscountChain(c3, SemWait(0, false, 0), c4, rest, r, 1);
    DiscountChain(c2, Release(0), c3, [SemWait(0, false, 0)] + rest, r, 1);
    DiscountChain(c1, Enter(0), c2, [Release(0)] + ([SemWait(0, false, 0)] + rest), r, 1);
    DiscountChain(ONE_THREAD, Lock(0), c1, [Enter(0)] + ([Release(0)] + ([SemWait(0, false, 0)] + rest)), r, 1);
  }

  /** The condition variable with its semaphore, changed in place, and what the threads
      around it are doing. */
  class Condition {
    var waiters: nat
    var count: nat
    var queue: seq<Thread>
    var locked: bool
    var owner: Thread
    var phase: map<Thread, Phase>

    ghost function Abs(): Cond
      reads this
    {
      Cond(waiters, count, queue, locked, owner, phase)
    }

    constructor (threads: set<Thread>)
      ensures Abs() == Cond(0, 0, [], false, 0, map t | t in threads :: Outside)
      ensures |threads| <= MAX_THREADS ==> Inv(Abs())
    {
      waiters, count, queue, locked, owner := 0, 0, [], false, 0;
      phase := map t | t in threads :: Outside;
      new;
      assert phase.Keys == threads;
      assert Waiting(Abs()) == {};
    }

    /** `aixos_sem_post`. */
    method SemPost() returns (ok: bool)
      modifies this`queue, this`count, this`phase
      ensures Abs() == Post(old(Abs())) && ok == !(old(queue) == [] && old(count) == SEM_MAX)
    {
      ok := true;
      if queue != [] {
        phase := phase[queue[0] := Relocking(true)];
        queue := queue[1..];
      } else if count == SEM_MAX {
        ok := false;
      } else {
        count := count + 1;
      }
    }

    method SignalOne()
      requires Inv(Abs())
      modifies this`waiters, this`queue, this`count, this`phase
      ensures Inv(Abs()) && Abs() == Apply(old(Abs()), Signal)
      ensures old(queue) != [] ==>
                queue == old(queue)[1..] && phase == old(phase)[old(queue)[0] := Relocking(true)]
      ensures old(queue) == [] ==> queue == [] && phase == old(phase)
    {
      StepKeeps(Abs(), Signal);
      if queue != [] {
        UnitForWaiter(Abs());
      }
      if waiters != 0 {
        waiters := waiters - 1;
        var ok := SemPost();
      }
    }

    /** One post for every waiter counted, up to the first that fails. */
    method BroadcastAll()
      requires Inv(Abs())
      modifies this`waiters, this`queue, this`count, this`phase
      ensures Inv(Abs()) && Abs() == Apply(old(Abs()), Broadcast)
      ensures queue == [] && waiters == 0 && count >= |Waiting(Abs())|
      ensures forall t :: In(old(Abs()), t, InSem) ==> In(Abs(), t, Relocking(true))
    {
      StepKeeps(Abs(), Broadcast);
      BroadcastUnblocksAll(Abs());
      hide Inv;
      var n: nat := waiters;
      waiters := 0;
      ghost var start := Abs();
      while n != 0
        invariant n <= old(waiters) && Posts(start, old(waiters)) == Posts(Abs(), n)
      {
        n := n - 1;
        var ok := SemPost();
        if !ok {
          break;
        }
      }
    }

    /** Any step of any thread, one critical section each. */
    method Perform(s: Step)
      requires Inv(Abs()) && Enabled(Abs(), s)
      modifies this
      ensures Inv(Abs()) && Abs() == Apply(old(Abs()), s)
    {
      StepKeeps(Abs(), s);
      hide Inv;
      match s
      case Lock(t) => locked, owner := true, t;
      case Unlock(t) => locked := false;
      case Enter(t) => waiters, phase := waiters + 1, phase[t := Entered];
      case Release(t) => locked, phase := false, phase[t := Released];
      case SemWait(t, mayBlock, at) =>
        if count > 0 {
          count, phase := count - 1, phase[t := Relocking(true)];
        } else if !mayBlock {
          phase := phase[t := Failed];
        } else {
          queue, phase := InsertAt(queue, at, t), phase[t := InSem];
        }
      case Fail(t) => queue, phase := Without(queue, t), phase[t := Failed];
      case Discount(t) =>
        phase := phase[t := Relocking(false)];
        if waiters != 0 {
          waiters := waiters - 1;
        }
      case Relock(t) => locked, owner, phase := true, t, phase[t := Outside];
      case Signal => SignalOne();
      case Broadcast => BroadcastAll();
    }
  }
}
