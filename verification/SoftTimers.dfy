/** Software timers: 32-bit deadlines in a sorted list, a tick that may have jumped, and
    periodic deadlines caught up by whole intervals. Ghost deadlines and a ghost clock that
    never wrap say what the 32-bit numbers mean. */
module SoftTimers {
  import opened Lists
  import opened KernelState
  import opened Timeouts

  type TimerId = nat

  const HALF: nat := TICK_MODULUS / 2

  datatype Timer = Timer(periodic: bool, interval: nat, deadline: nat, active: bool, pending: bool)

  /** Within half the counter's range the signed 32-bit difference is the true difference. */
  lemma SignedExact(x: int, y: int)
    requires 0 - HALF <= x - y < HALF
    ensures SignedDifference(x % TICK_MODULUS, y % TICK_MODULUS) == x - y
  {
    var a, b := x / TICK_MODULUS, y / TICK_MODULUS;
    var d := x % TICK_MODULUS - y % TICK_MODULUS;
    assert x == TICK_MODULUS * a + x % TICK_MODULUS && y == TICK_MODULUS * b + y % TICK_MODULUS;
    assert d == x - y + TICK_MODULUS * (b - a);
    assert 0 - TICK_MODULUS < d < TICK_MODULUS;
    assert d == x - y || d == x - y + TICK_MODULUS || d == x - y - TICK_MODULUS;
    assert d % TICK_MODULUS == if d >= 0 then d else d + TICK_MODULUS;
  }

  /** Beyond half the range the comparison is wrong, so the bound on a jump is not arbitrary. */
  lemma SignedExactIff(x: int, y: int)
    ensures SignedDifference(x % TICK_MODULUS, y % TICK_MODULUS) == x - y <==> 0 - HALF <= x - y < HALF
  {
    if 0 - HALF <= x - y < HALF {
      SignedExact(x, y);
    }
  }

  lemma ModSum(x: int, n: int)
    ensures (x % TICK_MODULUS + n) % TICK_MODULUS == (x + n) % TICK_MODULUS
  {
    var q := x / TICK_MODULUS;
    var r := x % TICK_MODULUS + n;
    assert x + n == TICK_MODULUS * q + r;
    ModOfMultiple(q, r);
  }

  lemma ModOfMultiple(q: int, r: int)
    ensures (TICK_MODULUS * q + r) % TICK_MODULUS == r % TICK_MODULUS
  {
    var m := TICK_MODULUS * q + r;
    assert m - TICK_MODULUS * q == r;
    assert r == TICK_MODULUS * (r / TICK_MODULUS) + r % TICK_MODULUS;
    assert m == TICK_MODULUS * (q + r / TICK_MODULUS) + r % TICK_MODULUS;
  }

  // ----- catching up

  /** The deadline of a periodic timer that is found due. */
  function CaughtUp(due: int, interval: int, now: int): int
    requires interval > 0
  {
    due + ((now - due) / interval + 1) * interval
  }

  /** Whole intervals later, in the future, and not more than one interval away: the first
      such deadline. */
  lemma CaughtUpIs(due: int, interval: int, now: int)
    requires due <= now && interval > 0
    ensures now < CaughtUp(due, interval, now) <= now + interval
    ensures (CaughtUp(due, interval, now) - due) % interval == 0
    ensures forall n: int :: now < due + n * interval <= now + interval ==> due + n * interval == CaughtUp(due, interval, now)
  {
    var late := now - due;
    var q := late / interval;
    assert late == q * interval + late % interval;
    assert (q + 1) * interval == q * interval + interval;
    assert ((q + 1) * interval) % interval == 0 by { MultipleMod(q + 1, interval); }
    forall n: int | now < due + n * interval <= now + interval ensures n == q + 1 {
      Ordered(n, q, interval);
      Ordered(q + 2, n, interval);
      assert (q + 2) * interval == q * interval + 2 * interval;
    }
  }

  lemma MultipleMod(a: int, m: int)
    requires m > 0
    ensures (a * m) % m == 0
  {
    var r := (a * m) % m;
    var q := (a * m) / m;
    assert a * m == q * m + r;
    assert (a - q) * m == r;
    Ordered(1, a - q, m);
    Ordered(a - q, -1, m);
  }

  lemma Ordered(a: int, b: int, m: int)
    requires m > 0
    ensures a <= b ==> a * m <= b * m
  {}

  // ----- order of the active list

  /** The deadline is within half a round after `low`, and the 32-bit field shows it. */
  predicate Near(pool: map<TimerId, Timer>, due: map<TimerId, int>, low: int, t: TimerId) {
    && t in pool && t in due && pool[t].active
    && low < due[t] <= low + HALF && pool[t].deadline == due[t] % TICK_MODULUS
  }

  ghost predicate AllNear(pool: map<TimerId, Timer>, due: map<TimerId, int>, low: int, q: seq<TimerId>) {
    forall i :: 0 <= i < |q| ==> Near(pool, due, low, q[i])
  }

  ghost predicate InOrder(due: map<TimerId, int>, q: seq<TimerId>) {
    && (forall i :: 0 <= i < |q| ==> q[i] in due)
    && forall i, j :: 0 <= i <= j < |q| ==> due[q[i]] <= due[q[j]]
  }

  lemma NearCompared(pool: map<TimerId, Timer>, due: map<TimerId, int>, low: int, t: TimerId, u: TimerId)
    requires Near(pool, due, low, t) && Near(pool, due, low, u)
    ensures SignedDifference(pool[t].deadline, pool[u].deadline) == due[t] - due[u]
  {
    SignedExact(due[t], due[u]);
  }

  lemma InsertedInOrder(due: map<TimerId, int>, q: seq<TimerId>, i: nat, t: TimerId)
    requires InOrder(due, q) && t in due && i <= |q|
    requires forall k :: 0 <= k < i ==> due[q[k]] <= due[t]
    requires i < |q| ==> due[t] < due[q[i]]
    ensures InOrder(due, InsertAt(q, i, t))
  {
    var r := InsertAt(q, i, t);
    forall a, b | 0 <= a <= b < |r| ensures due[r[a]] <= due[r[b]] {
      assert r[a] == if a < i then q[a] else if a == i then t else q[a - 1];
      assert r[b] == if b < i then q[b] else if b == i then t else q[b - 1];
    }
  }

  /** `timers` that have come due, among the first `n` of the list. */
  ghost predicate DuePrefix(due: map<TimerId, int>, q: seq<TimerId>, now: int, n: nat)
    requires forall i :: 0 <= i < |q| ==> q[i] in due
  {
    && n <= |q| && (forall i :: 0 <= i < n ==> due[q[i]] <= now)
    && forall i :: n <= i < |q| ==> due[q[i]] > now
  }

  /** How many timers of the list have come due: as it is in order, they are its first ones. */
  ghost function DueCount(due: map<TimerId, int>, q: seq<TimerId>, now: int): nat
    requires forall i :: 0 <= i < |q| ==> q[i] in due
  {
    if q == [] || due[q[0]] > now then 0 else 1 + DueCount(due, q[1..], now)
  }

  lemma {:induction false} DueCountIs(due: map<TimerId, int>, q: seq<TimerId>, now: int)
    requires InOrder(due, q)
    ensures DuePrefix(due, q, now, DueCount(due, q, now))
  {
    if q != [] && due[q[0]] <= now {
      DueCountIs(due, q[1..], now);
      assert forall i :: 1 <= i < |q| ==> q[i] == q[1..][i - 1];
    }
  }

  lemma FreshNext(pool: map<TimerId, Timer>, q: seq<TimerId>, i: nat)
    requires i < |q| && q[i] in pool
    ensures Fresh(pool, q[..i + 1]) == Fresh(pool, q[..i]) + if pool[q[i]].pending then [] else [q[i]]
  {
    assert q[..i + 1][..i] == q[..i];
  }

  /** The timers of `q` that are not yet waiting for their callback, in order. */
  function Fresh(pool: map<TimerId, Timer>, q: seq<TimerId>): seq<TimerId> {
    if q == [] then []
    else Fresh(pool, q[..|q| - 1])
         + if q[|q| - 1] in pool && pool[q[|q| - 1]].pending then [] else [q[|q| - 1]]
  }

  /** What a tick that reaches `now` makes of one timer's true deadline. */
  function DueAfter(timer: Timer, due: int, now: int): int
    requires timer.interval > 0
  {
    if due <= now && timer.periodic then CaughtUp(due, timer.interval, now) else due
  }

  /** What the tick that expires a timer writes into it; `late` is the 32-bit difference. */
  function Expired(timer: Timer, now: nat): Timer
    requires timer.interval > 0
  {
    var late := (now - timer.deadline) % TICK_MODULUS;
    var periods := late / timer.interval + 1;
    timer.(pending := true, active := timer.periodic,
           deadline := if timer.periodic then (timer.deadline + periods * timer.interval) % TICK_MODULUS else timer.deadline)
  }

  /** The 32-bit catch-up computes the true one. */
  lemma ExpiredExact(timer: Timer, due: int, to: int)
    requires timer.interval > 0 && timer.deadline == due % TICK_MODULUS && 0 <= to - due < HALF
    ensures timer.periodic ==>
              Expired(timer, to % TICK_MODULUS).deadline == CaughtUp(due, timer.interval, to) % TICK_MODULUS
  {
    SignedExact(to, due);
    assert (to % TICK_MODULUS - timer.deadline) % TICK_MODULUS == to - due;
    var n := ((to - due) / timer.interval + 1) * timer.interval;
    CaughtUpIs(due, timer.interval, to);
    assert n >= 0;
    ModSum(due, n);
  }

  /** What the tick changes in a timer besides its deadline. */
  predicate Treated(before: Timer, after: Timer, expired: bool) {
    && after.periodic == before.periodic && after.interval == before.interval
    && after.pending == (before.pending || expired)
    && after.active == (before.active && (before.periodic || !expired))
    && (!expired ==> after == before)
  }

  /** The service's fields and the true deadlines, at one moment. */
  datatype Snapshot = Snapshot(pool: map<TimerId, Timer>, due: map<TimerId, int>, active: seq<TimerId>, pending: seq<TimerId>)

  ghost predicate Known(s: Snapshot) {
    forall k :: 0 <= k < |s.active| ==>
      s.active[k] in s.pool && s.active[k] in s.due && s.pool[s.active[k]].active && s.pool[s.active[k]].interval > 0
  }

  /** One pass of the tick's loop. */
  ghost predicate Expires(s: Snapshot, r: Snapshot, now: nat, to: int, at: nat)
    requires Known(s) && s.active != []
  {
    var t := s.active[0];
    var rest := s.active[1..];
    && r.pool == s.pool[t := Expired(s.pool[t], now)]
    && r.due == (if s.pool[t].periodic then s.due[t := CaughtUp(s.due[t], s.pool[t].interval, to)] else s.due)
    && r.pending == s.pending + (if s.pool[t].pending then [] else [t])
    && (!s.pool[t].periodic ==> r.active == rest)
    && (s.pool[t].periodic ==>
          at <= |rest| && r.active == InsertAt(rest, at, t) && (at < |rest| ==> to < s.due[rest[at]])
          && to < r.due[t])
  }

  /** What the tick has established when the first `i` of the `n` due timers are dealt with. */
  ghost predicate Midway(s: Snapshot, r: Snapshot, i: nat, n: nat, to: int) {
    && Known(s) && Known(r) && NoDup(s.active) && i <= n <= |s.active| && n - i <= |r.active|
    && (forall k :: n - i <= k < |r.active| ==> to < r.due[r.active[k]])
    && (forall k :: 0 <= k < n - i ==> r.active[k] == s.active[i + k])
    && (forall t :: t in r.active <==> t in s.active && (s.pool[t].periodic || t !in s.active[..i]))
    && TimersTreated(s, r, i)
    && DuesTreated(s, r, i, to)
    && r.pending == s.pending + Fresh(s.pool, s.active[..i])
  }

  ghost predicate TimersTreated(s: Snapshot, r: Snapshot, i: nat)
    requires i <= |s.active|
  {
    && r.pool.Keys == s.pool.Keys
    && forall t :: t in s.pool ==> Treated(s.pool[t], r.pool[t], t in s.active[..i])
  }

  ghost predicate DuesTreated(s: Snapshot, r: Snapshot, i: nat, to: int)
    requires Known(s) && Known(r) && i <= |s.active|
  {
    forall t :: t in r.active && t in s.active ==>
      r.due[t] == if t in s.active[..i] then DueAfter(s.pool[t], s.due[t], to) else s.due[t]
  }

  lemma MidwayStart(s: Snapshot, n: nat, to: int)
    requires Known(s) && NoDup(s.active) && DuePrefix(s.due, s.active, to, n)
    ensures Midway(s, s, 0, n, to)
  {}

  lemma PrefixGrows(q: seq<TimerId>, i: nat)
    requires i < |q|
    ensures forall t :: t in q[..i + 1] <==> t in q[..i] || t == q[i]
  {
    assert q[..i + 1] == q[..i] + [q[i]];
  }

  lemma NotBefore(q: seq<TimerId>, i: nat)
    requires i < |q| && NoDup(q)
    ensures q[i] !in q[..i]
  {}

  lemma StepTimers(s: Snapshot, r: Snapshot, q: Snapshot, i: nat, n: nat, to: int, now: nat, at: nat)
    requires Midway(s, r, i, n, to) && i < n && Expires(r, q, now, to, at)
    ensures TimersTreated(s, q, i + 1)
  {
    hide InsertAt, CaughtUp;
    var t := s.active[i];
    assert t == r.active[0];
    PrefixGrows(s.active, i);
    NotBefore(s.active, i);
    assert Treated(s.pool[t], r.pool[t], false);
  }

  lemma StepKnown(r: Snapshot, q: Snapshot, to: int, now: nat, at: nat)
    requires Known(r) && r.active != [] && NoDup(r.active) && Expires(r, q, now, to, at)
    ensures Known(q) && NoDup(q.active)
    ensures forall t :: t in q.active <==> t in r.active && (t != r.active[0] || r.pool[t].periodic)
  {
    hide CaughtUp, InsertAt;
    var t, rest := r.active[0], r.active[1..];
    assert r.active == [t] + rest;
    assert NoDup(rest) && t !in rest;
    if r.pool[t].periodic {
      InsertAtIsAddition(rest, at, t);
    }
    forall k | 0 <= k < |q.active|
      ensures q.active[k] in q.pool && q.active[k] in q.due
      ensures q.pool[q.active[k]].active && q.pool[q.active[k]].interval > 0
    {
      var u := q.active[k];
      assert u in q.active;
      assert u in r.active;
    }
  }

  lemma StepDues(s: Snapshot, r: Snapshot, q: Snapshot, i: nat, n: nat, to: int, now: nat, at: nat)
    requires Midway(s, r, i, n, to) && i < n && Expires(r, q, now, to, at) && Known(q)
    requires forall t :: t in q.active <==> t in r.active && (t != r.active[0] || r.pool[t].periodic)
    requires s.due[s.active[i]] <= to
    ensures DuesTreated(s, q, i + 1, to)
  {
    hide InsertAt, CaughtUp;
    var t := s.active[i];
    assert t == r.active[0];
    PrefixGrows(s.active, i);
    NotBefore(s.active, i);
    assert Treated(s.pool[t], r.pool[t], false);
    assert r.due[t] == s.due[t];
  }

  /** The re-inserted timer goes behind every timer that is still due. */
  lemma StepOrder(s: Snapshot, r: Snapshot, q: Snapshot, i: nat, n: nat, to: int, now: nat, at: nat)
    requires Midway(s, r, i, n, to) && i < n && Expires(r, q, now, to, at) && Known(q)
    requires DuePrefix(s.due, s.active, to, n) && DuesTreated(s, r, i, to)
    ensures n - (i + 1) <= |q.active|
    ensures forall k :: n - (i + 1) <= k < |q.active| ==> to < q.due[q.active[k]]
    ensures forall k :: 0 <= k < n - (i + 1) ==> q.active[k] == s.active[i + 1 + k]
  {
    var t, rest := r.active[0], r.active[1..];
    forall k | 0 <= k < n - i - 1 ensures rest[k] == s.active[i + 1 + k] && r.due[rest[k]] <= to {
      StillDue(s, r, i, n, to, k + 1);
    }
    forall k | n - i - 1 <= k < |rest| ensures to < r.due[rest[k]] && rest[k] != t {
      assert rest[k] == r.active[k + 1];
    }
    hide CaughtUp, Midway, Known, DuePrefix;
    if r.pool[t].periodic {
      assert at >= n - i - 1;
      forall k | n - (i + 1) <= k < |q.active| ensures to < q.due[q.active[k]] {
        assert q.active[k] == if k < at then rest[k] else if k == at then t else rest[k - 1];
      }
    }
  }

  lemma StillDue(s: Snapshot, r: Snapshot, i: nat, n: nat, to: int, k: nat)
    requires Midway(s, r, i, n, to) && DuePrefix(s.due, s.active, to, n) && k < n - i
    ensures k < |r.active| && i + k < |s.active| && r.active[k] == s.active[i + k] && r.due[r.active[k]] <= to
    ensures r.active[k] in s.active && r.active[k] !in s.active[..i] && r.due[r.active[k]] == s.due[r.active[k]]
    ensures Treated(s.pool[r.active[k]], r.pool[r.active[k]], false)
  {
    var t := s.active[i + k];
    assert r.active[k] == t && t in r.active;
    assert t !in s.active[..i];
  }

  lemma MidwayNext(s: Snapshot, r: Snapshot, q: Snapshot, i: nat, n: nat, to: int, now: nat, at: nat)
    requires Midway(s, r, i, n, to) && i < n && NoDup(r.active)
    requires Known(r) && r.active != [] && Expires(r, q, now, to, at) && DuePrefix(s.due, s.active, to, n)
    ensures Midway(s, q, i + 1, n, to)
  {
    StillDue(s, r, i, n, to, 0);
    StepKnown(r, q, to, now, at);
    StepTimers(s, r, q, i, n, to, now, at);
    StepDues(s, r, q, i, n, to, now, at);
    StepOrder(s, r, q, i, n, to, now, at);
    FreshNext(s.pool, s.active, i);
    PrefixGrows(s.active, i);
    hide CaughtUp, DueAfter, DuePrefix, Treated, InsertAt, Expired, Fresh, TimersTreated, DuesTreated;
    StepPending(s, r, q, i, n, to, now, at);
  }

  lemma StepPending(s: Snapshot, r: Snapshot, q: Snapshot, i: nat, n: nat, to: int, now: nat, at: nat)
    requires Midway(s, r, i, n, to) && i < n && Expires(r, q, now, to, at) && DuePrefix(s.due, s.active, to, n)
    ensures q.pending == s.pending + Fresh(s.pool, s.active[..i + 1])
  {
    StillDue(s, r, i, n, to, 0);
    FreshNext(s.pool, s.active, i);
    hide CaughtUp, DueAfter, DuePrefix, InsertAt, Expired, Fresh, TimersTreated, DuesTreated, Known;
  }

  /** Lists and flags agree, no list holds a timer twice, the active list is in order of
      the true deadlines, and all of these are later than `low`. */
  ghost predicate Sound(s: Snapshot, low: int) {
    && NoDup(s.active) && NoDup(s.pending)
    && AllNear(s.pool, s.due, low, s.active) && InOrder(s.due, s.active)
    && (forall t :: t in s.pending ==> t in s.pool && s.pool[t].pending)
    && (forall t :: t in s.pool ==> FlagsAgree(s, t))
  }

  predicate FlagsAgree(s: Snapshot, t: TimerId)
    requires t in s.pool
  {
    && (s.pool[t].active ==> t in s.active && 0 < s.pool[t].interval <= TIMEOUT_MAX_TICKS)
    && (s.pool[t].pending ==> t in s.pending)
  }

  lemma SoundFirst(s: Snapshot, low: int)
    requires Sound(s, low)
    ensures Known(s)
    ensures s.active != [] ==> Near(s.pool, s.due, low, s.active[0])
  {
    forall k | 0 <= k < |s.active|
      ensures s.active[k] in s.pool && s.active[k] in s.due
      ensures s.pool[s.active[k]].active && s.pool[s.active[k]].interval > 0
    {
      assert Near(s.pool, s.due, low, s.active[k]);
      assert FlagsAgree(s, s.active[k]);
    }
  }

  ghost predicate WithinHalf(s: Snapshot, jump: int) {
    forall t :: t in s.active ==> t in s.pool && s.pool[t].interval + jump <= HALF
  }

  /** The first timer of the list is due exactly while due timers are left. */
  lemma FirstDueIff(s: Snapshot, r: Snapshot, i: nat, n: nat, to: int, low: int, now: nat)
    requires Midway(s, r, i, n, to) && DuePrefix(s.due, s.active, to, n) && r.active != [] && Known(r)
    requires Near(r.pool, r.due, low, r.active[0]) && low <= to && now == to % TICK_MODULUS
    requires WithinHalf(r, to - low)
    ensures TickReached(now, r.pool[r.active[0]].deadline) <==> i < n
    ensures low < r.due[r.active[0]] && (i < n ==> r.due[r.active[0]] <= to)
  {
    var t := r.active[0];
    assert t in r.active;
    SignedExact(to, r.due[t]);
    if i < n {
      StillDue(s, r, i, n, to, 0);
    }
  }

  /** After a pass of the loop flags and lists still agree. */
  lemma ExpiresSound(s: Snapshot, r: Snapshot, low: int, now: nat, to: int, at: nat, jump: int)
    requires Sound(s, low) && Known(s) && s.active != [] && Expires(s, r, now, to, at) && WithinHalf(s, jump)
    requires AllNear(r.pool, r.due, low, r.active) && InOrder(r.due, r.active)
    ensures Sound(r, low) && WithinHalf(r, jump)
  {
    hide CaughtUp, InsertAt, AllNear, InOrder;
    StepKnown(s, r, to, now, at);
    var t := s.active[0];
    assert FlagsAgree(s, t);
    if !s.pool[t].pending {
      AppendKeeps(s.pending, t);
    }
    forall u | u in r.pool ensures FlagsAgree(r, u) {
      assert FlagsAgree(s, u);
    }
  }

  lemma AppendKeeps(q: seq<TimerId>, t: TimerId)
    requires NoDup(q) && t !in q
    ensures NoDup(q + [t]) && forall u :: u in q + [t] <==> u in q || u == t
  {}

  lemma MidwayMeans(s: Snapshot, r: Snapshot, i: nat, n: nat, to: int)
    requires Midway(s, r, i, n, to)
    ensures i <= n <= |s.active| && n - i <= |r.active| && Known(r)
  {}

  lemma MidwayEnds(s: Snapshot, r: Snapshot, n: nat, to: int)
    requires Midway(s, r, n, n, to)
    ensures TimersTreated(s, r, n) && DuesTreated(s, r, n, to)
    ensures r.pending == s.pending + Fresh(s.pool, s.active[..n])
    ensures forall t :: t in r.active <==> t in s.active && (s.pool[t].periodic || t !in s.active[..n])
    ensures forall k :: 0 <= k < |r.active| ==> to < r.due[r.active[k]]
  {}

  /** The list without its first timer, which is due, and that timer as the tick leaves it. */
  lemma FirstOff(s: Snapshot, low: int, to: int, now: nat)
    requires Sound(s, low) && Known(s) && WithinHalf(s, to - low) && s.active != []
    requires low <= s.due[s.active[0]] <= to && now == to % TICK_MODULUS
    ensures var t, rest := s.active[0], s.active[1..];
            var pool := s.pool[t := Expired(s.pool[t], now)];
            var due := if s.pool[t].periodic then s.due[t := CaughtUp(s.due[t], s.pool[t].interval, to)] else s.due;
            && NoDup(rest) && t !in rest
            && AllNear(pool, due, low, rest) && InOrder(due, rest)
            && Expired(s.pool[t], now).periodic == s.pool[t].periodic
            && (s.pool[t].periodic ==> Near(pool, due, low, t) && to < due[t])
  {
    var t := s.active[0];
    assert FlagsAgree(s, t);
    RestOf(s.pool, s.due, low, s.active);
    hide CaughtUp, Expired;
    ExpiredIs(s.pool[t], s.due[t], now, to, low);
    var pool := s.pool[t := Expired(s.pool[t], now)];
    var rest := s.active[1..];
    forall k | 0 <= k < |rest| ensures Near(s.pool, s.due, low, rest[k]) && rest[k] != t {
      assert rest[k] in rest;
    }
  }

  /** What a whole tick does, `n` being the number of timers that had come due by `to`: they
      are the first ones of the list; exactly those not yet pending are queued for their
      callback, in order; the one-shot timers among them stop; the periodic ones go on from
      their first deadline after `to`; nobody else changes. */
  ghost predicate Ticked(s: Snapshot, r: Snapshot, n: nat, to: int) {
    && Known(s) && Known(r) && DuePrefix(s.due, s.active, to, n)
    && r.pending == s.pending + Fresh(s.pool, s.active[..n])
    && TimersTreated(s, r, n)
    && (forall t :: t in r.active <==> t in s.active && (s.pool[t].periodic || t !in s.active[..n]))
    && forall t :: t in r.active && t in s.active ==> to < r.due[t] == DueAfter(s.pool[t], s.due[t], to)
  }

  lemma TickedIs(s: Snapshot, r: Snapshot, n: nat, to: int)
    requires Midway(s, r, n, n, to) && DuePrefix(s.due, s.active, to, n)
    ensures Ticked(s, r, n, to)
  {
    MidwayEnds(s, r, n, to);
    MidwayMeans(s, r, n, n, to);
    hide CaughtUp, Treated;
    assert DuesTreated(s, r, n, to);
    forall t | t in r.active && t in s.active ensures to < r.due[t] == DueAfter(s.pool[t], s.due[t], to) {
      var k :| 0 <= k < |s.active| && s.active[k] == t;
      if k < n {
        assert s.active[..n][k] == t;
      } else {
        assert t !in s.active[..n];
      }
    }
  }

  lemma TickedSound(s: Snapshot, r: Snapshot, n: nat, low: int, to: int)
    requires Sound(s, low) && Sound(r, low) && Ticked(s, r, n, to) && low <= to && WithinHalf(s, to - low)
    requires forall t :: t in s.active ==> DueSoon(s, t, low)
    ensures Sound(r, to)
    ensures forall t :: t in r.active ==> DueSoon(r, t, to)
  {
    hide CaughtUp, InOrder, DuePrefix, FlagsAgree;
    forall t | t in r.active ensures DueSoon(r, t, to) && Near(r.pool, r.due, to, t) {
      TickedOne(s, r, n, low, to, t);
    }
  }

  lemma TickedOne(s: Snapshot, r: Snapshot, n: nat, low: int, to: int, t: TimerId)
    requires Sound(s, low) && Sound(r, low) && Ticked(s, r, n, to) && low <= to && WithinHalf(s, to - low)
    requires t in r.active && t in s.active && DueSoon(s, t, low)
    ensures DueSoon(r, t, to) && Near(r.pool, r.due, to, t)
  {
    var k :| 0 <= k < |r.active| && r.active[k] == t;
    assert Near(r.pool, r.due, low, r.active[k]);
    assert Treated(s.pool[t], r.pool[t], t in s.active[..n]);
    if s.due[t] <= to && s.pool[t].periodic {
      CaughtUpIs(s.due[t], s.pool[t].interval, to);
    }
  }

  /** Taking a timer off a list, whether or not it is on it. */
  lemma UnlinkedInOrder(pool: map<TimerId, Timer>, due: map<TimerId, int>, low: int, q: seq<TimerId>, t: TimerId)
    requires NoDup(q) && AllNear(pool, due, low, q) && InOrder(due, q)
    ensures AllNear(pool, due, low, Without(q, t)) && InOrder(due, Without(q, t)) && NoDup(Without(q, t))
    ensures forall u :: u in Without(q, t) <==> u in q && u != t
  {
    hide Near, Without;
    WithoutIsDeletion(q, t);
    if t in q {
      var i :| 0 <= i < |q| && q[i] == t;
      WithoutAt(q, i);
      var r := q[..i] + q[i + 1..];
      forall k | 0 <= k < |r| ensures Near(pool, due, low, r[k]) && r[k] in due {
        RemovedAt(q, i, k);
      }
      forall a, b | 0 <= a <= b < |r| ensures due[r[a]] <= due[r[b]] {
        RemovedAt(q, i, a);
        RemovedAt(q, i, b);
      }
    } else {
      WithoutNothing(q, t);
    }
  }

  /** A timer with other fields and a deadline of its own; the rest of the list is untouched. */
  lemma OthersNear(pool: map<TimerId, Timer>, due: map<TimerId, int>, low: int, q: seq<TimerId>, t: TimerId, timer: Timer, d: int)
    requires AllNear(pool, due, low, q) && InOrder(due, q) && t !in q
    ensures AllNear(pool[t := timer], due[t := d], low, q) && InOrder(due[t := d], q)
    ensures AllNear(pool - {t}, due, low, q) && AllNear(pool[t := timer], due, low, q)
  {
    forall k | 0 <= k < |q| ensures q[k] != t && Near(pool, due, low, q[k]) {
      assert q[k] in q;
    }
  }

  lemma OffTheList(s: Snapshot, low: int, t: TimerId)
    requires Sound(s, low) && t in s.pool && !s.pool[t].active
    ensures t !in s.active && Without(s.active, t) == s.active
  {
    SoundFirst(s, low);
    WithoutNothing(s.active, t);
  }

  lemma NotPending(s: Snapshot, low: int, t: TimerId)
    requires Sound(s, low) && t in s.pool && !s.pool[t].pending
    ensures Without(s.pending, t) == s.pending
  {
    WithoutNothing(s.pending, t);
  }

  lemma SoundLists(s: Snapshot, low: int)
    requires Sound(s, low)
    ensures NoDup(s.active) && AllNear(s.pool, s.due, low, s.active) && InOrder(s.due, s.active)
  {}

  lemma PendingCleared(s: Snapshot, low: int, t: TimerId)
    requires Sound(s, low) && t in s.pool
    ensures AllNear(s.pool[t := s.pool[t].(pending := false)], s.due, low, s.active)
  {
    forall k | 0 <= k < |s.active| ensures Near(s.pool, s.due, low, s.active[k]) {}
  }

  lemma StartedSound(s: Snapshot, r: Snapshot, low: int, t: TimerId, interval: nat, at: nat)
    requires Sound(s, low) && t in s.pool && t in r.pool && 0 < interval <= TIMEOUT_MAX_TICKS
    requires r.pool == s.pool[t := s.pool[t].(interval := interval, active := true, deadline := r.pool[t].deadline)]
    requires r.due == s.due[t := low + interval] && r.pending == s.pending
    requires at <= |Without(s.active, t)| && r.active == InsertAt(Without(s.active, t), at, t)
    requires AllNear(r.pool, r.due, low, r.active) && InOrder(r.due, r.active)
    requires forall u :: u in s.active ==> DueSoon(s, u, low)
    ensures Sound(r, low)
    ensures forall u :: u in r.active <==> u in s.active || u == t
    ensures forall u :: u in r.active ==> DueSoon(r, u, low)
  {
    hide AllNear, InOrder, InsertAt, Without;
    WithoutIsDeletion(s.active, t);
    InsertAtIsAddition(Without(s.active, t), at, t);
    forall u | u in r.pool ensures FlagsAgree(r, u) {
      assert FlagsAgree(s, u);
    }
  }

  lemma StoppedSound(s: Snapshot, r: Snapshot, low: int, t: TimerId)
    requires Sound(s, low) && t in s.pool && r.due == s.due
    requires r.pool == s.pool[t := s.pool[t].(active := false, pending := false)]
    requires r.active == Without(s.active, t) && r.pending == Without(s.pending, t)
    requires forall u :: u in s.active ==> DueSoon(s, u, low)
    ensures Sound(r, low) && t !in r.active && t !in r.pending
    ensures forall u :: u in r.active ==> DueSoon(r, u, low)
  {
    hide AllNear, InOrder, Without;
    UnlinkedInOrder(s.pool, s.due, low, s.active, t);
    WithoutIsDeletion(s.pending, t);
    OthersNear(s.pool, s.due, low, r.active, t, r.pool[t], 0);
    forall u | u in r.pool ensures FlagsAgree(r, u) {
      assert FlagsAgree(s, u);
    }
  }

  /** Timer `t` was set to fall due `interval` from `clock`; nothing else changed. */
  ghost predicate Rearmed(s: Snapshot, r: Snapshot, t: TimerId, interval: nat, clock: int) {
    && t in s.pool && r.due == s.due[t := clock + interval] && r.pending == s.pending
    && r.pool == s.pool[t := s.pool[t].(interval := interval, active := true, deadline := (clock + interval) % TICK_MODULUS)]
    && forall u :: u in r.active <==> u in s.active || u == t
  }

  class TimerService {
    var pool: map<TimerId, Timer>
    var activeTimers: seq<TimerId>
    var pendingTimers: seq<TimerId>
    /** The tick counter the service reads. */
    var tick: nat

    ghost var clock: int
    ghost var due: map<TimerId, int>

    ghost predicate Valid()
      reads this
    {
      && tick == clock % TICK_MODULUS && Sound(Now(), clock)
      && forall t :: t in activeTimers ==> DueSoon(Now(), t, clock)
    }

    ghost function Now(): Snapshot
      reads this
    {
      Snapshot(pool, due, activeTimers, pendingTimers)
    }

    /** `aixos_timer_init`. */
    constructor ()
      ensures Valid() && pool == map[] && clock == 0
    {
      pool, activeTimers, pendingTimers, tick := map[], [], [], 0;
      clock, due := 0, map[];
    }

    /** `active_insert`: in front of the first timer whose deadline is strictly later. */
    method ActiveInsert(t: TimerId, ghost low: int) returns (at: nat)
      requires NoDup(activeTimers) && t !in activeTimers && Near(pool, due, low, t)
      requires AllNear(pool, due, low, activeTimers) && InOrder(due, activeTimers)
      modifies this`activeTimers
      ensures AllNear(pool, due, low, activeTimers) && InOrder(due, activeTimers)
      ensures at <= |old(activeTimers)| && activeTimers == InsertAt(old(activeTimers), at, t)
      ensures forall k :: 0 <= k < at ==> old(activeTimers)[k] in due && due[old(activeTimers)[k]] <= due[t]
      ensures at < |old(activeTimers)| ==> old(activeTimers)[at] in due && due[t] < due[old(activeTimers)[at]]
    {
      at := 0;
      ghost var q := activeTimers;
      hide SignedDifference, InsertAt;
      while at < |activeTimers|
        invariant at <= |q| && activeTimers == q
        invariant forall k :: 0 <= k < at ==> due[q[k]] <= due[t]
      {
        NearCompared(pool, due, low, t, q[at]);
        if SignedDifference(pool[t].deadline, pool[activeTimers[at]].deadline) < 0 {
          break;
        }
        at := at + 1;
      }
      activeTimers := InsertAt(activeTimers, at, t);
      InsertAtIsAddition(q, at, t);
      InsertedInOrder(due, q, at, t);
      forall k | 0 <= k < |activeTimers| ensures Near(pool, due, low, activeTimers[k]) {
        assert activeTimers[k] in activeTimers;
      }
    }

    /** `aixos_timer_create`, once a slot is found. */
    method Create(t: TimerId, periodic: bool)
      requires Valid() && t !in pool
      modifies this`pool
      ensures Valid() && pool == old(pool)[t := Timer(periodic, 0, 0, false, false)]
    {
      ghost var s := Now();
      assert t !in activeTimers by {
        SoundFirst(s, clock);
      }
      OthersNear(pool, due, clock, activeTimers, t, Timer(periodic, 0, 0, false, false), 0);
      hide AllNear, InOrder;
      pool := pool[t := Timer(periodic, 0, 0, false, false)];
      forall u | u in pool ensures FlagsAgree(Now(), u) {
        assert u != t ==> FlagsAgree(s, u);
      }
    }

    /** `aixos_timer_start`: the timer falls due exactly the interval from now, whether or
        not it was running; a callback already queued stays queued. */
    method Start(t: TimerId, ms: nat, inIsr: bool) returns (code: Code)
      requires Valid() && ms <= UINT32_MAX
      modifies this`pool, this`activeTimers, this`due
      ensures Valid()
      ensures code == if inIsr then Context
                      else if ms == 0 || ms == UINT32_MAX || t !in old(pool) then Invalid else Code.Ok
      ensures code != Code.Ok ==> Now() == old(Now())
      ensures code == Code.Ok ==> Rearmed(old(Now()), Now(), t, MsToTicks(ms), clock)
    {
      hide Sound, Rearmed, DueSoon;
      MsToTicksExact(ms);
      hide MsToTicks;
      if inIsr {
        return Context;
      }
      var interval := MsToTicks(ms);
      if ms == 0 || interval == UINT32_MAX || t !in pool {
        return Invalid;
      }
      Arm(t, interval);
      return Code.Ok;
    }

    method Arm(t: TimerId, interval: nat)
      requires Valid() && t in pool && 0 < interval <= TIMEOUT_MAX_TICKS
      modifies this`pool, this`activeTimers, this`due
      ensures Valid() && Rearmed(old(Now()), Now(), t, interval, clock)
    {
      ghost var s := Now();
      hide AllNear, InOrder, InsertAt, Without, Sound, DueSoon, FlagsAgree, SignedDifference;
      SoundLists(s, clock);
      UnlinkedInOrder(pool, due, clock, activeTimers, t);
      if pool[t].active {
        activeTimers := Without(activeTimers, t);
      } else {
        OffTheList(s, clock, t);
      }
      pool := pool[t := pool[t].(interval := interval, deadline := (tick + interval) % TICK_MODULUS, active := true)];
      due := due[t := clock + interval];
      ModSum(clock, interval);
      OthersNear(s.pool, s.due, clock, activeTimers, t, pool[t], due[t]);
      var at := ActiveInsert(t, clock);
      StartedSound(s, Now(), clock, t, interval, at);
    }

    /** `aixos_timer_stop`: off both lists. */
    method Stop(t: TimerId, inIsr: bool) returns (code: Code)
      requires Valid()
      modifies this`pool, this`activeTimers, this`pendingTimers
      ensures Valid() && code == if inIsr then Context else if t !in old(pool) then Invalid else Code.Ok
      ensures code != Code.Ok ==> Now() == old(Now())
      ensures code == Code.Ok ==>
                && pool == old(pool)[t := old(pool)[t].(active := false, pending := false)]
                && activeTimers == Without(old(activeTimers), t) && pendingTimers == Without(old(pendingTimers), t)
                && t !in activeTimers && t !in pendingTimers
    {
      if inIsr {
        return Context;
      }
      if t !in pool {
        return Invalid;
      }
      ghost var s := Now();
      hide Sound, Without, DueSoon;
      if pool[t].active {
        activeTimers := Without(activeTimers, t);
      } else {
        OffTheList(s, clock, t);
      }
      if pool[t].pending {
        pendingTimers := Without(pendingTimers, t);
      } else {
        NotPending(s, clock, t);
      }
      pool := pool[t := pool[t].(active := false, pending := false)];
      StoppedSound(s, Now(), clock, t);
      return Code.Ok;
    }

    /** One round of `aixos_timer_dispatch`, up to the call of the callback: the callback
        that was queued first, and its timer may be queued again from then on. */
    method NextCallback() returns (some: bool, t: TimerId)
      requires Valid()
      modifies this`pool, this`pendingTimers
      ensures Valid() && some == (old(pendingTimers) != [])
      ensures some ==> t == old(pendingTimers[0]) && pendingTimers == old(pendingTimers)[1..] && t in old(pool)
                       && pool == old(pool)[t := old(pool)[t].(pending := false)]
      ensures !some ==> Now() == old(Now())
    {
      some, t := pendingTimers != [], 0;
      if some {
        ghost var s := Now();
        t := pendingTimers[0];
        assert pendingTimers == [t] + pendingTimers[1..];
        PendingCleared(s, clock, t);
        hide AllNear, InOrder;
        pendingTimers := pendingTimers[1..];
        pool := pool[t := pool[t].(pending := false)];
        forall u | u in pool ensures FlagsAgree(Now(), u) {
          assert FlagsAgree(s, u);
        }
      }
    }

    /** Takes the first timer, found due, off the list, starts it again if it is periodic,
        and queues its callback unless that is queued already. */
    method ExpireFirst(now: nat, ghost low: int, ghost to: int) returns (ghost at: nat)
      requires Sound(Now(), low) && WithinHalf(Now(), to - low)
      requires activeTimers != [] && activeTimers[0] in due && low <= due[activeTimers[0]] <= to && now == to % TICK_MODULUS
      modifies this`pool, this`activeTimers, this`pendingTimers, this`due
      ensures Sound(Now(), low) && WithinHalf(Now(), to - low)
      ensures Known(old(Now())) && Expires(old(Now()), Now(), now, to, at)
    {
      at := 0;
      ghost var s := Now();
      SoundFirst(s, low);
      var t := activeTimers[0];
      var timer := pool[t];
      hide SignedDifference, CaughtUp, InsertAt, Expired, Sound, WithinHalf, Near, AllNear, InOrder;
      FirstOff(s, low, to, now);
      activeTimers := activeTimers[1..];
      pool := pool[t := Expired(timer, now)];
      if timer.periodic {
        due := due[t := CaughtUp(due[t], timer.interval, to)];
        at := ActiveInsert(t, low);
      }
      if !timer.pending {
        pendingTimers := pendingTimers + [t];
      }
      ExpiresSound(s, Now(), low, now, to, at, to - low);
    }

    /** The loop of the tick. */
    method ExpireDue(now: nat, ghost low: int, ghost to: int, ghost n: nat)
      requires Sound(Now(), low) && low <= to && WithinHalf(Now(), to - low) && now == to % TICK_MODULUS
      requires Known(Now()) && DuePrefix(due, activeTimers, to, n)
      modifies this`pool, this`activeTimers, this`pendingTimers, this`due
      ensures Sound(Now(), low) && Midway(old(Now()), Now(), n, n, to)
    {
      hide Midway, TickReached, Near, DuePrefix, Expires, Sound, WithinHalf, Known, InOrder;
      ghost var s := Now();
      SoundLists(s, low);
      MidwayStart(s, n, to);
      ghost var i := 0;
      while activeTimers != []
        invariant Sound(Now(), low) && WithinHalf(Now(), to - low) && Midway(s, Now(), i, n, to)
        decreases n - i
      {
        SoundFirst(Now(), low);
        SoundLists(Now(), low);
        MidwayMeans(s, Now(), i, n, to);
        FirstDueIff(s, Now(), i, n, to, low, now);
        if !TickReached(now, pool[activeTimers[0]].deadline) {
          break;
        }
        ghost var r := Now();
        ghost var at := ExpireFirst(now, low, to);
        MidwayNext(s, r, Now(), i, n, to, now, at);
        i := i + 1;
      }
      assert i == n by { MidwayMeans(s, Now(), i, n, to); }
    }

    /** `aixos_timer_tick`, after a jump of `jump` ticks: the loop ends, and it treats
        exactly the timers that have come due. */
    method Tick(now: nat, ghost jump: nat) returns (ghost n: nat)
      requires Valid() && now == (clock + jump) % TICK_MODULUS && WithinHalf(Now(), jump)
      modifies this
      ensures Valid() && clock == old(clock) + jump && Ticked(old(Now()), Now(), n, clock)
    {
      hide Midway, DuePrefix, Sound, WithinHalf, Known, Ticked, DueSoon, DueCount, InOrder;
      ghost var s, to := Now(), clock + jump;
      SoundFirst(s, clock);
      SoundLists(s, clock);
      n := DueCount(due, activeTimers, to);
      DueCountIs(due, activeTimers, to);
      ExpireDue(now, clock, to, n);
      TickedIs(s, Now(), n, to);
      TickedSound(s, Now(), n, clock, to);
      clock := to;
      tick := now;
    }
  }

  predicate DueSoon(s: Snapshot, t: TimerId, clock: int) {
    t in s.due && t in s.pool && s.due[t] <= clock + s.pool[t].interval
  }

  lemma RestOf(pool: map<TimerId, Timer>, due: map<TimerId, int>, low: int, q: seq<TimerId>)
    requires q != [] && NoDup(q) && AllNear(pool, due, low, q) && InOrder(due, q)
    ensures Near(pool, due, low, q[0]) && q[0] !in q[1..] && NoDup(q[1..])
    ensures AllNear(pool, due, low, q[1..]) && InOrder(due, q[1..])
    ensures forall t :: t in q[1..] <==> t in q && t != q[0]
  {
    assert q == [q[0]] + q[1..];
  }

  lemma ExpiredIs(timer: Timer, due: int, now: nat, to: int, low: int)
    requires timer.interval > 0 && timer.deadline == due % TICK_MODULUS && now == to % TICK_MODULUS
    requires low < due <= to && to - low + timer.interval <= HALF
    ensures var r := Expired(timer, now);
            && r.pending && r.active == timer.periodic && r.periodic == timer.periodic && r.interval == timer.interval
            && (timer.periodic ==>
                  r.deadline == CaughtUp(due, timer.interval, to) % TICK_MODULUS
                  && to < CaughtUp(due, timer.interval, to) <= to + timer.interval)
  {
    ExpiredExact(timer, due, to);
    CaughtUpIs(due, timer.interval, to);
  }
}
