/** The timeout list: 32-bit wake ticks compared by signed difference stay in the
    order in which they fall due, whatever the tick counter wraps through. */
module Timeouts {
  import opened Lists
  import opened ReadyQueue
  import opened KernelState

  /** Ticks from now until the recorded wake tick comes round. */
  function Remaining(k: K, t: TaskId): nat {
    (WakeTick(k.tasks, t) - k.now) % TICK_MODULUS
  }

  ghost predicate Timers(k: K, least: nat) {
    && NoDup(k.timeouts)
    && (forall t :: t in k.timeouts ==> least <= Remaining(k, t) <= TIMEOUT_MAX_TICKS)
    && SoonestFirst(k, k.timeouts)
  }

  ghost predicate SoonestFirst(k: K, q: seq<TaskId>) {
    forall i, j :: 0 <= i < j < |q| ==> Remaining(k, q[i]) <= Remaining(k, q[j])
  }

  /** Within half the counter's range the signed difference of two wake ticks is the
      difference of the times remaining. */
  lemma SignedIsRemaining(now: int, a: int, b: int)
    requires (a - now) % TICK_MODULUS <= TIMEOUT_MAX_TICKS
    requires (b - now) % TICK_MODULUS <= TIMEOUT_MAX_TICKS
    ensures SignedDifference(a, b) == (a - now) % TICK_MODULUS - (b - now) % TICK_MODULUS
  {
    var ra, rb := (a - now) % TICK_MODULUS, (b - now) % TICK_MODULUS;
    var qa, qb := (a - now) / TICK_MODULUS, (b - now) / TICK_MODULUS;
    assert a - b == TICK_MODULUS * (qa - qb) + (ra - rb);
    assert (a - b) % TICK_MODULUS == if ra >= rb then ra - rb else ra - rb + TICK_MODULUS;
  }

  lemma ReachedIffNothingRemains(now: int, deadline: int)
    requires (deadline - now) % TICK_MODULUS <= TIMEOUT_MAX_TICKS
    ensures TickReached(now, deadline) <==> (deadline - now) % TICK_MODULUS == 0
  {
    SignedIsRemaining(now, now, deadline);
  }

  /** `aixos_ms_to_ticks` at 1000 Hz: the request itself up to the longest timeout, never
      zero for a non-zero request, and "forever" only for the largest number. */
  lemma MsToTicksExact(ms: nat)
    requires ms <= UINT32_MAX
    ensures MsToTicks(ms) == UINT32_MAX <==> ms == UINT32_MAX
    ensures ms != UINT32_MAX ==> MsToTicks(ms) == if ms <= TIMEOUT_MAX_TICKS then ms else TIMEOUT_MAX_TICKS
  {}

  /** `aixos_timeout_remaining_ms`: what is left, at tick `now`, of a wait of `ms` begun at `start`. */
  function RemainingMs(now: int, start: int, ms: nat): nat {
    if ms == UINT32_MAX then UINT32_MAX else
      var total := MsToTicks(ms);
      var elapsed := (now - start) % TICK_MODULUS;
      if elapsed >= total then 0
      else
        var milliseconds := ((total - elapsed) * 1000 + SYSTICK_HZ - 1) / SYSTICK_HZ;
        if milliseconds > UINT32_MAX then UINT32_MAX else milliseconds
  }

  /** A retried wait has the deadline of the first one: the wake tick is the same, across the
      wrap of the counter, until the time is up, and then nothing is left. */
  lemma RetryKeepsDeadline(now: int, start: int, ms: nat)
    requires ms < UINT32_MAX
    ensures var left := RemainingMs(now, start, ms); var elapsed := (now - start) % TICK_MODULUS;
            && (left == 0 <==> elapsed >= MsToTicks(ms))
            && (left > 0 ==> MsToTicks(left) == MsToTicks(ms) - elapsed
                             && (now + MsToTicks(left)) % TICK_MODULUS == (start + MsToTicks(ms)) % TICK_MODULUS)
  {
    MsToTicksExact(ms);
    var total, elapsed := MsToTicks(ms), (now - start) % TICK_MODULUS;
    if elapsed < total {
      assert RemainingMs(now, start, ms) == total - elapsed;
      MsToTicksExact(total - elapsed);
      hide MsToTicks, RemainingMs;
      var q, x := (now - start) / TICK_MODULUS, start + total;
      assert now + (total - elapsed) == x + TICK_MODULUS * q;
      RemainderIs(now + (total - elapsed), q + x / TICK_MODULUS, x % TICK_MODULUS);
    }
  }

  lemma RemainderIs(x: int, q: int, r: int)
    requires x == TICK_MODULUS * q + r && 0 <= r < TICK_MODULUS
    ensures x % TICK_MODULUS == r
  {
    var d := x / TICK_MODULUS - q;
    assert TICK_MODULUS * d == r - x % TICK_MODULUS;
    assert d == 0;
  }

  lemma ArmedRemaining(k: K, t: TaskId, ticks: nat)
    requires t in k.tasks && t !in k.timeouts && ticks <= TIMEOUT_MAX_TICKS
    ensures Remaining(ArmTimeout(k, t, ticks), t) == ticks
    ensures forall u :: u in k.timeouts ==> Remaining(ArmTimeout(k, t, ticks), u) == Remaining(k, u)
  {
    var q := (k.now + ticks) / TICK_MODULUS;
    RemainderIs((k.now + ticks) % TICK_MODULUS - k.now, 0 - q, ticks);
    hide TimeoutPosition, InsertAt;
  }

  lemma DifferenceOfRemaining(k: K, t: TaskId, u: TaskId)
    requires Remaining(k, t) <= TIMEOUT_MAX_TICKS && Remaining(k, u) <= TIMEOUT_MAX_TICKS
    ensures SignedDifference(WakeTick(k.tasks, t), WakeTick(k.tasks, u)) == Remaining(k, t) - Remaining(k, u)
  {
    SignedIsRemaining(k.now, WakeTick(k.tasks, t), WakeTick(k.tasks, u));
  }

  lemma InsertInOrder(k: K, q: seq<TaskId>, i: nat, t: TaskId)
    requires SoonestFirst(k, q) && i <= |q|
    requires forall j :: 0 <= j < i ==> Remaining(k, q[j]) <= Remaining(k, t)
    requires forall j :: i <= j < |q| ==> Remaining(k, t) <= Remaining(k, q[j])
    ensures SoonestFirst(k, InsertAt(q, i, t))
  {
    hide Remaining;
    var r := InsertAt(q, i, t);
    forall a, b | 0 <= a < b < |r| ensures Remaining(k, r[a]) <= Remaining(k, r[b]) {
      assert r[a] == if a < i then q[a] else if a == i then t else q[a - 1];
      assert r[b] == if b < i then q[b] else if b == i then t else q[b - 1];
    }
  }

  /** `timeout_insert` keeps a list sorted by the time remaining sorted. */
  lemma InsertKeepsSoonestFirst(k: K, q: seq<TaskId>, t: TaskId)
    requires SoonestFirst(k, q) && Remaining(k, t) <= TIMEOUT_MAX_TICKS
    requires forall u :: u in q ==> Remaining(k, u) <= TIMEOUT_MAX_TICKS
    ensures SoonestFirst(k, InsertAt(q, TimeoutPosition(k.tasks, q, t), t))
  {
    hide Remaining, SignedDifference, InsertAt, WakeTick;
    var i := TimeoutPosition(k.tasks, q, t);
    forall j | 0 <= j < i ensures Remaining(k, q[j]) <= Remaining(k, t) {
      assert q[j] in q;
      DifferenceOfRemaining(k, t, q[j]);
    }
    forall j | i <= j < |q| ensures Remaining(k, t) <= Remaining(k, q[j]) {
      assert q[i] in q;
      DifferenceOfRemaining(k, t, q[i]);
      assert Remaining(k, q[i]) <= Remaining(k, q[j]);
    }
    InsertInOrder(k, q, i, t);
  }

  /** Arming puts the task in the list with exactly `ticks` to go. */
  lemma ArmKeepsTimers(k: K, t: TaskId, ticks: nat)
    requires Timers(k, 1) && t in k.tasks && t !in k.timeouts
    requires 1 <= ticks <= TIMEOUT_MAX_TICKS
    ensures var r := ArmTimeout(k, t, ticks);
            && Timers(r, 1) && Remaining(r, t) == ticks
            && (forall u :: u in r.timeouts <==> u in k.timeouts || u == t)
            && (forall u :: u in k.timeouts ==> Remaining(r, u) == Remaining(k, u))
  {
    hide Remaining, SoonestFirst, TimeoutPosition;
    var r := ArmTimeout(k, t, ticks);
    InsertAtIsAddition(k.timeouts, TimeoutPosition(r.tasks, k.timeouts, t), t);
    ArmedRemaining(k, t, ticks);
    SoonestFirstCarries(k, r, k.timeouts);
    InsertKeepsSoonestFirst(r, k.timeouts, t);
  }

  lemma WithoutSoonestFirst(k: K, q: seq<TaskId>, t: TaskId)
    requires NoDup(q) && SoonestFirst(k, q)
    ensures SoonestFirst(k, Without(q, t))
  {
    hide Remaining, Without;
    if t in q {
      var i :| 0 <= i < |q| && q[i] == t;
      WithoutAt(q, i);
      var r := q[..i] + q[i + 1..];
      forall a, b | 0 <= a < b < |r| ensures Remaining(k, r[a]) <= Remaining(k, r[b]) {
        RemovedAt(q, i, a);
        RemovedAt(q, i, b);
      }
    } else {
      WithoutNothing(q, t);
    }
  }

  lemma SoonestFirstCarries(k: K, r: K, q: seq<TaskId>)
    requires SoonestFirst(k, q) && forall t :: t in q ==> Remaining(r, t) == Remaining(k, t)
    ensures SoonestFirst(r, q)
  {
    hide Remaining;
    forall i, j | 0 <= i < j < |q| ensures Remaining(r, q[i]) <= Remaining(r, q[j]) {
      assert q[i] in q && q[j] in q;
    }
  }

  lemma WithoutKeepsTimers(k: K, r: K, t: TaskId, least: nat)
    requires Timers(k, least) && r.timeouts == Without(k.timeouts, t) && r.now == k.now
    requires forall u :: u in k.timeouts ==> WakeTick(r.tasks, u) == WakeTick(k.tasks, u)
    ensures Timers(r, least)
    ensures forall u :: u in r.timeouts <==> u in k.timeouts && u != t
    ensures forall u :: u in r.timeouts ==> Remaining(r, u) == Remaining(k, u)
  {
    assert forall u :: u in k.timeouts ==> Remaining(r, u) == Remaining(k, u);
    hide Remaining;
    WithoutIsDeletion(k.timeouts, t);
    WithoutSoonestFirst(k, k.timeouts, t);
    SoonestFirstCarries(k, r, r.timeouts);
  }

  /** One more tick brings every waiting task one tick nearer. */
  lemma TickBringsNearer(k: K, t: TaskId)
    requires Remaining(k, t) >= 1
    ensures Remaining(k.(now := k.now + 1), t) == Remaining(k, t) - 1
  {
    var d := WakeTick(k.tasks, t) - k.now;
    assert d == TICK_MODULUS * (d / TICK_MODULUS) + Remaining(k, t);
    assert (d - 1) % TICK_MODULUS == Remaining(k, t) - 1;
  }
}
