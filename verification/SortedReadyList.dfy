/** The simple backend as functions: one list sorted by priority. It is the FIFO queues
    of the other backend laid end to end, whatever is added, removed or rotated. */
module SortedReadyList {
  import opened Lists
  import opened ReadyQueue

  function PriorityOf(prio: map<TaskId, int>, t: TaskId): int {
    if t in prio then prio[t] else 0
  }

  /** Where `sched_simple_insert` links `t`: before the first task of lower priority. */
  function LowerPosition(prio: map<TaskId, int>, list: seq<TaskId>, t: TaskId): (i: nat)
    ensures i <= |list|
  {
    if list == [] || PriorityOf(prio, t) > PriorityOf(prio, list[0]) then 0
    else 1 + LowerPosition(prio, list[1..], t)
  }

  function AddSorted(prio: map<TaskId, int>, list: seq<TaskId>, t: TaskId): seq<TaskId> {
    if InRange(PriorityOf(prio, t)) then InsertAt(list, LowerPosition(prio, list, t), t) else list
  }

  function RequeueSorted(prio: map<TaskId, int>, list: seq<TaskId>, t: TaskId): seq<TaskId> {
    if t in list then AddSorted(prio, Without(list, t), t) else list
  }

  function IndexOf(list: seq<TaskId>, t: TaskId): (i: nat)
    ensures i <= |list|
    ensures i < |list| ==> list[i] == t
    ensures forall j :: 0 <= j < i ==> list[j] != t
    ensures t in list ==> i < |list|
  {
    if list == [] || list[0] == t then 0 else 1 + IndexOf(list[1..], t)
  }

  /** `t` moves behind its equals only when its successor is one of them. */
  function RotateSorted(prio: map<TaskId, int>, list: seq<TaskId>, t: TaskId): seq<TaskId> {
    var i := IndexOf(list, t);
    if i + 1 < |list| && PriorityOf(prio, list[i + 1]) == PriorityOf(prio, t)
    then InsertAt(Without(list, t), LowerPosition(prio, Without(list, t), t), t)
    else list
  }

  // ----- queues end to end

  /** Queues `n - 1` down to 0, end to end. */
  function Below(q: Queues, n: nat): seq<TaskId>
    requires n <= MAX_PRIORITY
  {
    if n == 0 then [] else q[n - 1] + Below(q, n - 1)
  }

  /** The highest queue down to queue `n`, end to end. */
  function From(q: Queues, n: nat): seq<TaskId>
    requires n <= MAX_PRIORITY
    decreases MAX_PRIORITY - n
  {
    if n == MAX_PRIORITY then [] else From(q, n + 1) + q[n]
  }

  /** Each queue holds tasks of its own priority, once. */
  ghost predicate Filed(prio: map<TaskId, int>, q: Queues) {
    && (forall p :: 0 <= p < MAX_PRIORITY ==> NoDup(q[p]))
    && (forall p, t :: 0 <= p < MAX_PRIORITY && t in q[p] ==> t in prio && prio[t] == p)
  }

  lemma {:induction false} SplitBelow(q: Queues, n: nat, top: nat)
    requires n <= top == MAX_PRIORITY
    ensures From(q, n) + Below(q, n) == Below(q, top)
    decreases top - n
  {
    if n < top {
      SplitBelow(q, n + 1, top);
      assert From(q, n) == From(q, n + 1) + q[n] && Below(q, n + 1) == q[n] + Below(q, n);
      hide From, Below;
      assert (From(q, n + 1) + q[n]) + Below(q, n) == From(q, n + 1) + (q[n] + Below(q, n));
    }
  }

  lemma SplitAt(q: Queues, n: nat)
    requires n <= MAX_PRIORITY
    ensures From(q, n) + Below(q, n) == Below(q, MAX_PRIORITY)
  {
    hide From, Below;
    SplitBelow(q, n, MAX_PRIORITY);
  }

  lemma {:induction false} BelowMembers(prio: map<TaskId, int>, q: Queues, n: nat)
    requires Filed(prio, q) && n <= MAX_PRIORITY
    ensures forall t :: t in Below(q, n) <==> exists p :: 0 <= p < n && t in q[p]
    ensures forall t :: t in Below(q, n) ==> 0 <= PriorityOf(prio, t) < n
  {
    if n > 0 {
      BelowMembers(prio, q, n - 1);
    }
  }

  lemma {:induction false} FromMembers(prio: map<TaskId, int>, q: Queues, n: nat)
    requires Filed(prio, q) && n <= MAX_PRIORITY
    ensures forall t :: t in From(q, n) ==> n <= PriorityOf(prio, t)
    decreases MAX_PRIORITY - n
  {
    if n < MAX_PRIORITY {
      FromMembers(prio, q, n + 1);
    }
  }

  lemma {:induction false} BelowSame(q: Queues, r: Queues, n: nat)
    requires n <= MAX_PRIORITY && forall i :: 0 <= i < n ==> q[i] == r[i]
    ensures Below(q, n) == Below(r, n)
  {
    if n > 0 {
      BelowSame(q, r, n - 1);
    }
  }

  lemma {:induction false} FromSame(q: Queues, r: Queues, n: nat)
    requires n <= MAX_PRIORITY && forall i :: n <= i < MAX_PRIORITY ==> q[i] == r[i]
    ensures From(q, n) == From(r, n)
    decreases MAX_PRIORITY - n
  {
    if n < MAX_PRIORITY {
      FromSame(q, r, n + 1);
    }
  }

  /** Replacing one queue replaces that stretch of the list and nothing else. */
  lemma Replace(q: Queues, p: nat, s: seq<TaskId>)
    requires p < MAX_PRIORITY
    ensures Below(q, MAX_PRIORITY) == From(q, p + 1) + q[p] + Below(q, p)
    ensures Below(q[p := s], MAX_PRIORITY) == From(q, p + 1) + s + Below(q, p)
  {
    var r: Queues := q[p := s];
    SplitAt(q, p);
    SplitAt(r, p);
    BelowSame(q, r, p);
    FromSame(q, r, p + 1);
  }

  lemma {:induction false} PositionAfter(prio: map<TaskId, int>, high: seq<TaskId>, low: seq<TaskId>, t: TaskId)
    requires forall u :: u in high ==> PriorityOf(prio, u) >= PriorityOf(prio, t)
    requires forall u :: u in low ==> PriorityOf(prio, u) < PriorityOf(prio, t)
    ensures LowerPosition(prio, high + low, t) == |high|
  {
    if high == [] {
      assert high + low == low;
      assert low != [] ==> low[0] in low;
    } else {
      assert high[0] in high && (high + low)[0] == high[0];
      assert (high + low)[1..] == high[1..] + low;
      PositionAfter(prio, high[1..], low, t);
    }
  }

  lemma AddPosition(prio: map<TaskId, int>, q: Queues, t: TaskId)
    requires Filed(prio, q) && InRange(PriorityOf(prio, t))
    ensures LowerPosition(prio, Below(q, MAX_PRIORITY), t) == |From(q, PriorityOf(prio, t))|
  {
    var p := PriorityOf(prio, t);
    hide Filed, LowerPosition;
    SplitAt(q, p);
    FromMembers(prio, q, p);
    BelowMembers(prio, q, p);
    PositionAfter(prio, From(q, p), Below(q, p), t);
  }

  /** A task is linked right behind its equals. */
  lemma AddRefines(prio: map<TaskId, int>, q: Queues, t: TaskId)
    requires Filed(prio, q)
    ensures AddSorted(prio, Below(q, MAX_PRIORITY), t) == Below(Add(q, PriorityOf(prio, t), t), MAX_PRIORITY)
  {
    var p := PriorityOf(prio, t);
    hide Filed, Below, LowerPosition, InsertAt;
    if InRange(p) {
      AddPosition(prio, q, t);
      Replace(q, p, q[p] + [t]);
      assert From(q, p) == From(q, p + 1) + q[p];
      InsertBehind(From(q, p + 1), q[p], Below(q, p), t);
    }
  }

  lemma InsertBehind(a: seq<TaskId>, b: seq<TaskId>, c: seq<TaskId>, t: TaskId)
    ensures InsertAt(a + b + c, |a + b|, t) == a + (b + [t]) + c
  {
    assert (a + b + c)[..|a + b|] == a + b && (a + b + c)[|a + b|..] == c;
  }

  lemma {:induction false} WithoutLeft(a: seq<TaskId>, b: seq<TaskId>, t: TaskId)
    requires t !in a
    ensures Without(a + b, t) == a + Without(b, t)
  {
    if a == [] {
      assert a + b == b;
    } else {
      assert (a + b)[1..] == a[1..] + b;
      WithoutLeft(a[1..], b, t);
    }
  }

  lemma {:induction false} WithoutRight(a: seq<TaskId>, b: seq<TaskId>, t: TaskId)
    requires t in a
    ensures Without(a + b, t) == Without(a, t) + b
  {
    assert (a + b)[1..] == a[1..] + b;
    if a[0] != t {
      WithoutRight(a[1..], b, t);
    }
  }

  lemma RemoveRefines(prio: map<TaskId, int>, q: Queues, t: TaskId)
    requires Filed(prio, q)
    ensures Without(Below(q, MAX_PRIORITY), t) == Below(Remove(q, PriorityOf(prio, t), t), MAX_PRIORITY)
    ensures t in Below(q, MAX_PRIORITY) <==> InRange(PriorityOf(prio, t)) && t in q[PriorityOf(prio, t)]
  {
    hide Below, From, NoDup;
    var p := PriorityOf(prio, t);
    BelowMembers(prio, q, MAX_PRIORITY);
    if InRange(p) && t in q[p] {
      Replace(q, p, Without(q[p], t));
      FromMembers(prio, q, p + 1);
      assert t !in From(q, p + 1);
      assert From(q, p + 1) + q[p] + Below(q, p) == From(q, p + 1) + (q[p] + Below(q, p));
      WithoutLeft(From(q, p + 1), q[p] + Below(q, p), t);
      WithoutRight(q[p], Below(q, p), t);
    } else {
      WithoutNothing(Below(q, MAX_PRIORITY), t);
    }
  }

  lemma FiledRemoved(prio: map<TaskId, int>, q: Queues, t: TaskId)
    requires Filed(prio, q)
    ensures Filed(prio, Remove(q, PriorityOf(prio, t), t))
    ensures forall p :: 0 <= p < MAX_PRIORITY ==> t !in Remove(q, PriorityOf(prio, t), t)[p]
  {
    var p := PriorityOf(prio, t);
    if InRange(p) {
      WithoutIsDeletion(q[p], t);
    }
  }

  lemma FiledAdded(prio: map<TaskId, int>, q: Queues, t: TaskId)
    requires Filed(prio, q) && t in prio && forall p :: 0 <= p < MAX_PRIORITY ==> t !in q[p]
    ensures Filed(prio, Add(q, prio[t], t))
  {}

  /** The selected task is the head of the list. */
  lemma {:induction false} HighestIsHead(q: Queues, n: nat)
    requires n <= MAX_PRIORITY
    ensures HighestBelow(q, n) == if Below(q, n) == [] then None else Some(Below(q, n)[0])
  {
    if n > 0 && q[n - 1] == [] {
      HighestIsHead(q, n - 1);
      assert Below(q, n) == Below(q, n - 1);
    }
  }

  lemma IndexIn(a: seq<TaskId>, b: seq<TaskId>, c: seq<TaskId>, t: TaskId)
    requires t !in a && t in b
    ensures IndexOf(a + b + c, t) == |a| + IndexOf(b, t)
  {
    var s := a + b + c;
    var i := |a| + IndexOf(b, t);
    assert s[i] == t;
    forall j | 0 <= j < i ensures s[j] != t {
      assert j < |a| ==> s[j] == a[j] && a[j] in a;
      assert j >= |a| ==> s[j] == b[j - |a|];
    }
  }

  lemma WhereInList(prio: map<TaskId, int>, q: Queues, t: TaskId)
    requires Filed(prio, q) && InRange(PriorityOf(prio, t)) && t in q[PriorityOf(prio, t)]
    ensures var p := PriorityOf(prio, t);
            && IndexOf(Below(q, MAX_PRIORITY), t) == |From(q, p + 1)| + IndexOf(q[p], t)
            && Below(q, MAX_PRIORITY) == From(q, p + 1) + q[p] + Below(q, p)
  {
    var p := PriorityOf(prio, t);
    hide Filed, Below, From, NoDup;
    Replace(q, p, q[p]);
    FromMembers(prio, q, p + 1);
    assert t !in From(q, p + 1);
    IndexIn(From(q, p + 1), q[p], Below(q, p), t);
  }

  lemma RotateLast(prio: map<TaskId, int>, q: Queues, t: TaskId)
    requires Filed(prio, q) && InRange(PriorityOf(prio, t)) && t in q[PriorityOf(prio, t)]
    requires IndexOf(q[PriorityOf(prio, t)], t) + 1 == |q[PriorityOf(prio, t)]|
    ensures RotateSorted(prio, Below(q, MAX_PRIORITY), t) == Below(q, MAX_PRIORITY)
  {
    var p := PriorityOf(prio, t);
    var list := Below(q, MAX_PRIORITY);
    hide Filed, LowerPosition;
    WhereInList(prio, q, t);
    BelowMembers(prio, q, p);
    var i := IndexOf(list, t);
    if i + 1 < |list| {
      assert list[i + 1] == Below(q, p)[0] && Below(q, p)[0] in Below(q, p);
    }
  }

  lemma RotateInner(prio: map<TaskId, int>, q: Queues, t: TaskId)
    requires Filed(prio, q) && InRange(PriorityOf(prio, t)) && t in q[PriorityOf(prio, t)]
    requires IndexOf(q[PriorityOf(prio, t)], t) + 1 < |q[PriorityOf(prio, t)]|
    ensures var list := Below(q, MAX_PRIORITY);
            RotateSorted(prio, list, t) == InsertAt(Without(list, t), LowerPosition(prio, Without(list, t), t), t)
  {
    hide Below, From, LowerPosition, InsertAt, Without, NoDup;
    var p := PriorityOf(prio, t);
    var list := Below(q, MAX_PRIORITY);
    var k := IndexOf(q[p], t);
    FiledAt(prio, q, p, k + 1);
    WhereInList(prio, q, t);
    hide Filed;
    assert list[IndexOf(list, t) + 1] == q[p][k + 1];
  }

  lemma FiledAt(prio: map<TaskId, int>, q: Queues, p: nat, i: nat)
    requires Filed(prio, q) && p < MAX_PRIORITY && i < |q[p]|
    ensures PriorityOf(prio, q[p][i]) == p
  {}

  /** Rotation in the list is rotation in the queue: when the task is last among its
      equals both leave things as they are. */
  lemma RotateRefines(prio: map<TaskId, int>, q: Queues, t: TaskId)
    requires Filed(prio, q)
    ensures RotateSorted(prio, Below(q, MAX_PRIORITY), t) == Below(Rotate(q, PriorityOf(prio, t), t), MAX_PRIORITY)
  {
    var p := PriorityOf(prio, t);
    if t !in Below(q, MAX_PRIORITY) {
      NotRotated(prio, q, t);
      return;
    }
    hide Filed, Below, RotateSorted, LowerPosition;
    RemoveRefines(prio, q, t);
    if IndexOf(q[p], t) + 1 < |q[p]| {
      RotateInner(prio, q, t);
      FiledRemoved(prio, q, t);
      AddRefines(prio, Remove(q, p, t), t);
      assert Add(Remove(q, p, t), p, t) == Rotate(q, p, t);
    } else {
      RotateLast(prio, q, t);
      LastStays(prio, q, t, IndexOf(q[p], t));
    }
  }

  /** A task that is not queued stays where it is. */
  lemma NotRotated(prio: map<TaskId, int>, q: Queues, t: TaskId)
    requires Filed(prio, q) && t !in Below(q, MAX_PRIORITY)
    ensures RotateSorted(prio, Below(q, MAX_PRIORITY), t) == Below(q, MAX_PRIORITY)
    ensures Rotate(q, PriorityOf(prio, t), t) == q
  {
    BelowMembers(prio, q, MAX_PRIORITY);
    hide Below, Filed;
  }

  lemma LastStays(prio: map<TaskId, int>, q: Queues, t: TaskId, k: nat)
    requires Filed(prio, q) && InRange(PriorityOf(prio, t)) && t in q[PriorityOf(prio, t)]
    requires k == IndexOf(q[PriorityOf(prio, t)], t) && k + 1 == |q[PriorityOf(prio, t)]|
    ensures Rotate(q, PriorityOf(prio, t), t) == q
  {
    var s := q[PriorityOf(prio, t)];
    WithoutAt(s, k);
    assert Without(s, t) + [t] == s;
    assert q[PriorityOf(prio, t) := s] == q;
  }

  // ----- any sequence of operations

  datatype SchedOp =
    | AddOp(t: TaskId, p: int)     // a task that is in no queue becomes ready at priority p
    | RemoveOp(t: TaskId)
    | RequeueOp(t: TaskId, p: int) // the task's priority becomes p
    | RotateOp(t: TaskId)

  datatype Scheduler = Scheduler(prio: map<TaskId, int>, queues: Queues, list: seq<TaskId>)

  predicate Queued(q: Queues, t: TaskId) {
    exists p :: 0 <= p < MAX_PRIORITY && t in q[p]
  }

  /** Only a task that is not queued is added; only known tasks are requeued. */
  predicate Legal(s: Scheduler, op: SchedOp) {
    match op
    case AddOp(t, p) => !Queued(s.queues, t)
    case RequeueOp(t, p) => t in s.prio
    case RemoveOp(t) => true
    case RotateOp(t) => true
  }

  /** Both backends side by side, sharing the priorities in the control blocks. */
  function Do(s: Scheduler, op: SchedOp): Scheduler {
    match op
    case AddOp(t, p) =>
      var prio := s.prio[t := p];
      Scheduler(prio, Add(s.queues, p, t), AddSorted(prio, s.list, t))
    case RemoveOp(t) =>
      Scheduler(s.prio, Remove(s.queues, PriorityOf(s.prio, t), t), Without(s.list, t))
    case RequeueOp(t, p) =>
      var prio := s.prio[t := p];
      Scheduler(prio, Requeue(s.queues, PriorityOf(s.prio, t), p, t), RequeueSorted(prio, s.list, t))
    case RotateOp(t) =>
      Scheduler(s.prio, Rotate(s.queues, PriorityOf(s.prio, t), t), RotateSorted(s.prio, s.list, t))
  }

  ghost predicate Agree(s: Scheduler) {
    Filed(s.prio, s.queues) && s.list == Below(s.queues, MAX_PRIORITY)
  }

  lemma FiledWith(prio: map<TaskId, int>, q: Queues, t: TaskId, p: int)
    requires Filed(prio, q) && forall i :: 0 <= i < MAX_PRIORITY ==> t !in q[i]
    ensures Filed(prio[t := p], q)
  {}

  lemma RequeueRefines(s: Scheduler, t: TaskId, p: int)
    requires Agree(s) && t in s.prio
    ensures Agree(Do(s, RequeueOp(t, p)))
  {
    var prio := s.prio[t := p];
    var was := s.prio[t];
    RemoveRefines(s.prio, s.queues, t);
    FiledRemoved(s.prio, s.queues, t);
    var removed := Remove(s.queues, was, t);
    FiledWith(s.prio, removed, t, p);
    if t in s.list {
      AddRefines(prio, removed, t);
      FiledAdded(prio, removed, t);
    } else {
      assert removed == s.queues;
    }
  }

  lemma RotateKeepsFiled(prio: map<TaskId, int>, q: Queues, t: TaskId)
    requires Filed(prio, q)
    ensures Filed(prio, Rotate(q, PriorityOf(prio, t), t))
  {
    var p := PriorityOf(prio, t);
    if InRange(p) && t in q[p] {
      WithoutIsDeletion(q[p], t);
    }
  }

  lemma DoAgrees(s: Scheduler, op: SchedOp)
    requires Agree(s) && Legal(s, op)
    ensures Agree(Do(s, op))
  {
    match op
    case AddOp(t, p) =>
      FiledWith(s.prio, s.queues, t, p);
      AddRefines(s.prio[t := p], s.queues, t);
      FiledAdded(s.prio[t := p], s.queues, t);
    case RemoveOp(t) =>
      RemoveRefines(s.prio, s.queues, t);
      FiledRemoved(s.prio, s.queues, t);
    case RequeueOp(t, p) => RequeueRefines(s, t, p);
    case RotateOp(t) =>
      BelowMembers(s.prio, s.queues, MAX_PRIORITY);
      RotateRefines(s.prio, s.queues, t);
      RotateKeepsFiled(s.prio, s.queues, t);
  }

  function DoAll(s: Scheduler, ops: seq<SchedOp>): Scheduler
    decreases |ops|
  {
    if ops == [] then s else DoAll(Do(s, ops[0]), ops[1..])
  }

  predicate AllLegal(s: Scheduler, ops: seq<SchedOp>)
    decreases |ops|
  {
    ops == [] || (Legal(s, ops[0]) && AllLegal(Do(s, ops[0]), ops[1..]))
  }

  /** After every sequence of operations the two backends select the same task. */
  lemma {:induction false} BackendsAgree(s: Scheduler, ops: seq<SchedOp>)
    requires Agree(s) && AllLegal(s, ops)
    ensures var r := DoAll(s, ops);
            Agree(r) && Highest(r.queues) == if r.list == [] then None else Some(r.list[0])
    decreases |ops|
  {
    if ops == [] {
      HighestIsHead(s.queues, MAX_PRIORITY);
    } else {
      hide Do, Agree, Legal;
      DoAgrees(s, ops[0]);
      BackendsAgree(Do(s, ops[0]), ops[1..]);
    }
  }
}
