/** The read-write lock: a writer, a table of readers with their counts, and threads that
    sleep on one of two conditions between critical sections of the lock's mutex. */
module RwLocks {

  type Thread = nat

  const READERS: nat := 16
  const INVALID: int := -1
  const UINT32_MAX: nat := 0xFFFF_FFFF

  /** Where a thread is: a waiting reader remembers whether it was in the table on entry. */
  datatype Phase = Reading(known: bool) | Writing

  datatype Code = Ok | Busy | Again | Perm | WaitFailed | Asleep

  datatype Notify = Nobody | AWriter | AllReaders

  /** `granted` records, for the statements only, every read lock granted and not yet given back. */
  datatype State = State(writer: int, waitingWriters: nat, readers: nat, threads: seq<int>, counts: seq<nat>,
                         asleep: map<Thread, Phase>, granted: multiset<int>)

  /** `rwlock_reader_slot` without allocation: the thread's place in the table, or -1. */
  function Slot(threads: seq<int>, t: int): (i: int)
    ensures -1 <= i < |threads| && (i >= 0 ==> threads[i] == t)
    ensures forall k :: 0 <= k < |threads| && (i < 0 || k < i) ==> threads[k] != t
    decreases |threads|
  {
    if threads == [] then -1
    else if threads[0] == t then 0
    else var i := Slot(threads[1..], t);
         if i < 0 then (assert forall k :: 1 <= k < |threads| ==> threads[k] == threads[1..][k - 1]; -1) else i + 1
  }

  /** With allocation: the thread's place, else the first free one. */
  function SlotFor(threads: seq<int>, t: Thread): int {
    if Slot(threads, t) >= 0 then Slot(threads, t) else Slot(threads, INVALID)
  }

  predicate ReaderMustWait(r: State, known: bool) {
    r.writer != INVALID || (r.waitingWriters != 0 && !known)
  }

  predicate WriterMustWait(r: State) { r.writer != INVALID || r.readers != 0 }

  /** The end of `rwlock_rdlock_common`, once the reader need not wait. */
  function GrantRead(r: State, t: Thread): (State, Code)
    requires |r.threads| == |r.counts|
  {
    if r.readers == UINT32_MAX then (r, Again)
    else
      var i := SlotFor(r.threads, t);
      if i < 0 || r.counts[i] == UINT32_MAX then (r, Again)
      else (r.(threads := r.threads[i := t], counts := r.counts[i := r.counts[i] + 1], readers := r.readers + 1,
               granted := r.granted + multiset{t}), Ok)
  }

  function ReadAttempt(r: State, t: Thread, known: bool): (State, Code)
    requires |r.threads| == |r.counts|
  {
    if ReaderMustWait(r, known) then (r.(asleep := r.asleep[t := Reading(known)]), Asleep) else GrantRead(r, t)
  }

  function WriteAttempt(r: State, t: Thread): (State, Code) {
    if WriterMustWait(r) then (r.(asleep := r.asleep[t := Writing]), Asleep)
    else (r.(waitingWriters := Less(r.waitingWriters), writer := t), Ok)
  }

  /** One critical section of the lock's mutex. A sleeper may wake at any time; `waitOk` is
      false when its wait timed out or failed. */
  datatype Step =
    | ReadLock(t: Thread, tryOnly: bool)
    | WriteLock(t: Thread, tryOnly: bool)
    | Wake(t: Thread, waitOk: bool)
    | Unlock(t: Thread)

  predicate Enabled(r: State, s: Step) {
    if s.Wake? then s.t in r.asleep else s.t !in r.asleep
  }

  function Less(n: nat): nat { if n > 0 then n - 1 else UINT32_MAX }

  function Apply(r: State, s: Step): (State, Code)
    requires Enabled(r, s) && |r.threads| == |r.counts|
  {
    match s
    case ReadLock(t, tryOnly) =>
      var known := Slot(r.threads, t) >= 0;
      if tryOnly && ReaderMustWait(r, known) then (r, Busy) else ReadAttempt(r, t, known)
    case WriteLock(t, tryOnly) =>
      if r.writer == t || Slot(r.threads, t) >= 0 then (r, Busy)
      else if tryOnly && WriterMustWait(r) then (r, Busy)
      else WriteAttempt(r.(waitingWriters := r.waitingWriters + 1), t)
    case Wake(t, waitOk) =>
      var phase := r.asleep[t];
      var woken := r.(asleep := r.asleep - {t});
      if !waitOk then
        (if phase.Writing? then woken.(waitingWriters := Less(woken.waitingWriters)) else woken, WaitFailed)
      else if phase.Writing? then WriteAttempt(woken, t)
      else ReadAttempt(woken, t, phase.known)
    case Unlock(t) =>
      var i := Slot(r.threads, t);
      if r.writer == t then (r.(writer := INVALID), Ok)
      else if i >= 0 && r.counts[i] != 0 then
        var n := r.counts[i] - 1;
        (r.(counts := r.counts[i := n], threads := if n == 0 then r.threads[i := INVALID] else r.threads,
            readers := Less(r.readers), granted := r.granted - multiset{t}), Ok)
      else (r, Perm)
  }

  /** Whom an unlock wakes. */
  function Notified(r: State): Notify {
    if r.writer == INVALID && r.readers == 0 && r.waitingWriters != 0 then AWriter
    else if r.writer == INVALID && r.waitingWriters == 0 then AllReaders
    else Nobody
  }

  // ----- invariant

  function Sum(s: seq<nat>): nat {
    if s == [] then 0 else s[0] + Sum(s[1..])
  }

  lemma {:induction false} SumUpdate(s: seq<nat>, i: nat, v: nat)
    requires i < |s|
    ensures Sum(s[i := v]) == Sum(s) - s[i] + v
  {
    if i == 0 {
      assert s[i := v][1..] == s[1..];
    } else {
      assert s[i := v][1..] == s[1..][i - 1 := v];
      SumUpdate(s[1..], i - 1, v);
    }
  }

  lemma {:induction false} SumBounds(s: seq<nat>, i: nat)
    requires i < |s|
    ensures s[i] <= Sum(s)
  {
    if i > 0 {
      SumBounds(s[1..], i - 1);
    }
  }

  ghost function Writers(r: State): set<Thread> {
    set t | t in r.asleep && r.asleep[t].Writing?
  }

  /** A table entry names a thread exactly while its count is positive, and the count is
      the number of read locks that thread has been granted. */
  predicate EntryOk(r: State, i: nat)
    requires i < |r.threads| && |r.counts| == |r.threads|
  {
    if r.threads[i] == INVALID then r.counts[i] == 0
    else r.threads[i] >= 0 && r.counts[i] > 0 && r.granted[r.threads[i]] == r.counts[i]
  }

  ghost predicate Table(r: State) {
    && |r.threads| == READERS && |r.counts| == READERS
    && (forall i :: 0 <= i < READERS ==> EntryOk(r, i))
    && (forall i, j :: 0 <= i < j < READERS && r.threads[i] != INVALID ==> r.threads[i] != r.threads[j])
    && (forall t :: t in r.granted ==> t >= 0 && Slot(r.threads, t) >= 0)
    && r.readers == Sum(r.counts) && r.readers <= UINT32_MAX
  }

  ghost predicate Inv(r: State) {
    && Table(r)
    && (r.writer == INVALID || (r.writer >= 0 && r.readers == 0))
    && r.waitingWriters == |Writers(r)|
  }

  /** Holding the lock: as the writer, or with a granted read lock. */
  predicate Holds(r: State, t: Thread) { r.writer == t || t in r.granted }

  // ----- the table

  lemma SlotFirst(threads: seq<int>, i: nat)
    requires i < |threads| && forall k :: 0 <= k < i ==> threads[k] != threads[i]
    ensures Slot(threads, threads[i]) == i
  {}

  lemma InTable(r: State, t: Thread)
    requires Table(r)
    ensures Slot(r.threads, t) >= 0 <==> t in r.granted
    ensures Slot(r.threads, t) >= 0 ==> r.granted[t] == r.counts[Slot(r.threads, t)] > 0
  {
    if Slot(r.threads, t) >= 0 {
      assert EntryOk(r, Slot(r.threads, t));
    }
  }

  /** Setting one entry, in a way that fits the grants, keeps the table. */
  lemma EntryKeeps(r: State, c: State, i: nat, t: Thread, n: nat)
    requires Table(r) && i < READERS && (r.threads[i] == t || (r.threads[i] == INVALID && Slot(r.threads, t) < 0))
    requires c.threads == r.threads[i := if n == 0 then INVALID else t] && c.counts == r.counts[i := n]
    requires c.granted == r.granted[t := n]
    requires c.readers == r.readers - r.counts[i] + n && c.readers <= UINT32_MAX
    ensures Table(c)
  {
    SumUpdate(r.counts, i, n);
    hide Sum, Slot;
    assert EntryOk(r, i);
    forall k | 0 <= k < READERS && k != i ensures r.threads[k] != t {
      NotElsewhere(r, i, t, k);
    }
    forall k | 0 <= k < READERS ensures EntryOk(c, k) {
      assert EntryOk(r, k);
    }
    forall u | u in c.granted ensures u >= 0 && Slot(c.threads, u) >= 0 {
      StillListed(r, c, i, t, n, u);
    }
  }

  lemma StillListed(r: State, c: State, i: nat, t: Thread, n: nat, u: int)
    requires Table(r) && i < READERS && (r.threads[i] == t || r.threads[i] == INVALID)
    requires c.threads == r.threads[i := if n == 0 then INVALID else t] && c.granted == r.granted[t := n]
    requires u in c.granted
    ensures u >= 0 && Slot(c.threads, u) >= 0
  {
    hide Sum;
    if u == t {
      assert c.threads[i] == t;
    } else {
      assert u in r.granted;
      var k := Slot(r.threads, u);
      assert c.threads[k] == u;
    }
  }

  lemma NotElsewhere(r: State, i: nat, t: Thread, k: nat)
    requires Table(r) && i < READERS && (r.threads[i] == t || (r.threads[i] == INVALID && Slot(r.threads, t) < 0))
    requires k < READERS && k != i
    ensures r.threads[k] != t
  {}

  lemma GrantReadKeeps(r: State, t: Thread)
    requires Inv(r) && r.writer == INVALID
    ensures Inv(GrantRead(r, t).0)
    ensures GrantRead(r, t).1 == Ok ==> GrantRead(r, t).0.granted == r.granted + multiset{t}
  {
    var (c, code) := GrantRead(r, t);
    if code == Ok {
      var i := SlotFor(r.threads, t);
      InTable(r, t);
      assert EntryOk(r, i);
      assert c.granted == r.granted[t := r.granted[t] + 1];
      hide Slot, Sum;
      EntryKeeps(r, c, i, t, r.counts[i] + 1);
      assert Writers(c) == Writers(r);
    }
  }

  lemma UnlockKeeps(r: State, t: Thread)
    requires Inv(r) && t !in r.asleep
    ensures Inv(Apply(r, Unlock(t)).0)
  {
    var (c, code) := Apply(r, Unlock(t));
    var i := Slot(r.threads, t);
    assert Writers(c) == Writers(r);
    if r.writer == t || code != Ok {
      SameTable(r, c);
    } else {
      InTable(r, t);
      SumBounds(r.counts, i);
      assert c.granted == r.granted[t := r.granted[t] - 1];
      hide Slot, Sum;
      EntryKeeps(r, c, i, t, r.counts[i] - 1);
    }
  }

  lemma SleepWriters(r: State, c: State, t: Thread, phase: Phase)
    requires t !in r.asleep && c.asleep == r.asleep[t := phase]
    ensures |Writers(c)| == |Writers(r)| + if phase.Writing? then 1 else 0
  {
    assert Writers(c) == Writers(r) + if phase.Writing? then {t} else {};
  }

  lemma WakeWriters(r: State, c: State, t: Thread)
    requires t in r.asleep && c.asleep == r.asleep - {t}
    ensures |Writers(c)| == |Writers(r)| - if r.asleep[t].Writing? then 1 else 0
  {
    assert Writers(r) == Writers(c) + if r.asleep[t].Writing? then {t} else {};
  }

  lemma SameWriters(r: State, c: State)
    requires r.asleep == c.asleep
    ensures Writers(c) == Writers(r)
  {}

  lemma SameTable(r: State, c: State)
    requires Table(r) && r.(writer := c.writer, waitingWriters := c.waitingWriters, asleep := c.asleep) == c
    ensures Table(c)
  {
    forall i | 0 <= i < READERS ensures EntryOk(c, i) {
      assert EntryOk(r, i);
    }
  }

  lemma ReadAttemptKeeps(r: State, t: Thread, known: bool)
    requires Inv(r) && t !in r.asleep
    ensures Inv(ReadAttempt(r, t, known).0)
  {
    if ReaderMustWait(r, known) {
      SameTable(r, ReadAttempt(r, t, known).0);
      SleepWriters(r, ReadAttempt(r, t, known).0, t, Reading(known));
    } else {
      GrantReadKeeps(r, t);
    }
  }

  /** A writer among the waiting ones gets the lock, or is counted on. */
  lemma WriteAttemptKeeps(r: State, t: Thread)
    requires Inv(r.(waitingWriters := Less(r.waitingWriters))) && r.waitingWriters > 0 && t !in r.asleep
    ensures Inv(WriteAttempt(r, t).0)
  {
    var c := WriteAttempt(r, t).0;
    SameTable(r.(waitingWriters := Less(r.waitingWriters)), c);
    if WriterMustWait(r) {
      SleepWriters(r, c, t, Writing);
    } else {
      SameWriters(r, c);
    }
    SameWriters(r, r.(waitingWriters := Less(r.waitingWriters)));
  }

  lemma WakeKeeps(r: State, t: Thread, waitOk: bool)
    requires Inv(r) && t in r.asleep
    ensures Inv(Apply(r, Wake(t, waitOk)).0)
  {
    hide Slot, Sum;
    var woken := r.(asleep := r.asleep - {t});
    WakeWriters(r, woken, t);
    SameTable(r, woken);
    if r.asleep[t].Writing? {
      assert t in Writers(r);
      var less := woken.(waitingWriters := Less(woken.waitingWriters));
      SameWriters(woken, less);
      SameTable(r, less);
      assert Inv(less);
      if waitOk {
        WriteAttemptKeeps(woken, t);
      }
    } else if waitOk {
      ReadAttemptKeeps(woken, t, r.asleep[t].known);
    }
  }

  lemma StepKeeps(r: State, s: Step)
    requires Inv(r) && Enabled(r, s)
    ensures Inv(Apply(r, s).0)
  {
    match s
    case ReadLock(t, tryOnly) => ReadAttemptKeeps(r, t, Slot(r.threads, t) >= 0);
    case WriteLock(t, tryOnly) =>
      SameWriters(r, r.(waitingWriters := r.waitingWriters + 1));
      WriteAttemptKeeps(r.(waitingWriters := r.waitingWriters + 1), t);
    case Wake(t, waitOk) => WakeKeeps(r, t, waitOk);
    case Unlock(t) => UnlockKeeps(r, t);
  }

  // ----- runs

  function Start(): State {
    State(INVALID, 0, 0, seq(READERS, _ => INVALID), seq(READERS, _ => 0), map[], multiset{})
  }

  ghost predicate Runs(r: State, ss: seq<Step>, end: State)
    requires |r.threads| == |r.counts|
    decreases |ss|
  {
    if ss == [] then end == r
    else
      && Enabled(r, ss[0])
      && var next := Apply(r, ss[0]).0;
         |next.threads| == |next.counts| && Runs(next, ss[1..], end)
  }

  lemma {:induction false} RunsKeep(r: State, ss: seq<Step>, end: State)
    requires Inv(r) && Runs(r, ss, end)
    ensures Inv(end)
    decreases |ss|
  {
    hide Apply, Enabled;
    if ss != [] {
      StepKeeps(r, ss[0]);
      RunsKeep(Apply(r, ss[0]).0, ss[1..], end);
    }
  }

  lemma {:induction false} NoReaders(s: seq<nat>)
    requires forall k :: 0 <= k < |s| ==> s[k] == 0
    ensures Sum(s) == 0
  {
    if s != [] {
      NoReaders(s[1..]);
    }
  }

  lemma StartOk()
    ensures Inv(Start())
  {
    hide Sum, Slot;
    var r := Start();
    NoReaders(r.counts);
    forall i | 0 <= i < READERS ensures EntryOk(r, i) && r.threads[i] == INVALID {}
    assert Writers(r) == {};
  }

  /** Safety over every run, time-outs and spurious wake-ups included: a writer excludes all
      readers, `readers` is the sum of the counts, no thread is in the table twice, and
      giving back succeeds exactly for a thread that holds the lock. */
  lemma LockIsSafe(ss: seq<Step>, r: State, t: Thread)
    requires Runs(Start(), ss, r)
    ensures r.writer != INVALID ==> r.readers == 0 && r.granted == multiset{}
    ensures |r.threads| == |r.counts| == READERS && r.readers == Sum(r.counts)
    ensures forall i, j :: 0 <= i < j < READERS && r.threads[i] != INVALID ==> r.threads[i] != r.threads[j]
    ensures forall i :: 0 <= i < READERS && r.threads[i] != INVALID ==> r.counts[i] == r.granted[r.threads[i]] > 0
    ensures r.waitingWriters == |Writers(r)|
    ensures t !in r.asleep ==> (Apply(r, Unlock(t)).1 == Ok <==> Holds(r, t))
  {
    hide Apply, Enabled, Sum, Slot;
    StartOk();
    RunsKeep(Start(), ss, r);
    forall i | 0 <= i < READERS && r.threads[i] != INVALID
      ensures r.counts[i] == r.granted[r.threads[i]] > 0
    {
      assert EntryOk(r, i);
    }
    if r.writer != INVALID {
      WriterAlone(r);
    }
    if t !in r.asleep {
      UnlockIffHolder(r, t);
    }
  }

  lemma WriterAlone(r: State)
    requires Inv(r) && r.writer != INVALID
    ensures r.granted == multiset{}
  {
    forall t: int ensures t !in r.granted {
      if t in r.granted {
        InTable(r, t);
        SumBounds(r.counts, Slot(r.threads, t));
      }
    }
    assert forall t: int :: r.granted[t] == 0;
  }

  lemma UnlockIffHolder(r: State, t: Thread)
    requires Inv(r) && t !in r.asleep
    ensures Apply(r, Unlock(t)).1 == Ok <==> Holds(r, t)
  {
    InTable(r, t);
  }

  // ----- when a lock is granted

  predicate Unheld(r: State) { r.writer == INVALID && r.granted == multiset{} }

  /** A thread is asleep that wants to write. */
  ghost predicate WriterWaits(r: State) { exists t :: t in r.asleep && r.asleep[t].Writing? }

  /** There is a place in the table for `t`. */
  ghost predicate Room(r: State, t: Thread) {
    t in r.granted || exists i :: 0 <= i < |r.threads| && r.threads[i] == INVALID
  }

  /** A reader gets in: nobody writes, and nobody waits to write unless it reads already. */
  ghost predicate Open(r: State, t: Thread) {
    r.writer == INVALID && (t in r.granted || !WriterWaits(r))
  }

  /** The lock counts so many readers at most, and has to have a place for the thread. */
  ghost predicate Fits(r: State, t: Thread) { |r.granted| < UINT32_MAX && Room(r, t) }

  lemma WaitingAreWriters(r: State)
    requires Inv(r)
    ensures r.waitingWriters != 0 <==> WriterWaits(r)
  {
    if WriterWaits(r) {
      var t :| t in r.asleep && r.asleep[t].Writing?;
      assert t in Writers(r);
    } else {
      assert Writers(r) == {};
    }
  }

  /** The readers counted are the read locks granted. */
  lemma {:induction false} GrantedSize(threads: seq<int>, counts: seq<nat>, granted: multiset<int>)
    requires |threads| == |counts|
    requires forall i :: 0 <= i < |threads| ==> if threads[i] == INVALID then counts[i] == 0 else granted[threads[i]] == counts[i]
    requires forall i, j :: 0 <= i < j < |threads| && threads[i] != INVALID ==> threads[i] != threads[j]
    requires INVALID !in granted && forall t :: t in granted ==> t in threads
    ensures |granted| == Sum(counts)
    decreases |threads|
  {
    if threads == [] {
      assert forall t: int :: granted[t] == 0;
      assert granted == multiset{};
    } else {
      var t, n := threads[0], counts[0];
      var rest := granted[t := 0];
      assert granted == rest[t := n];
      forall u | u in rest ensures u in threads[1..] {
        var i :| 0 <= i < |threads| && threads[i] == u;
        assert threads[1..][i - 1] == u;
      }
      forall i | 0 <= i < |threads| - 1
        ensures if threads[1..][i] == INVALID then counts[1..][i] == 0 else rest[threads[1..][i]] == counts[1..][i]
      {
        assert threads[1..][i] == threads[i + 1];
      }
      GrantedSize(threads[1..], counts[1..], rest);
    }
  }

  lemma ReadersAreGrants(r: State)
    requires Inv(r)
    ensures r.readers == |r.granted|
  {
    assert |r.threads| == |r.counts|;
    forall i | 0 <= i < |r.threads|
      ensures if r.threads[i] == INVALID then r.counts[i] == 0 else r.granted[r.threads[i]] == r.counts[i]
    {
      assert EntryOk(r, i);
    }
    hide Sum;
    GrantedSize(r.threads, r.counts, r.granted);
  }

  lemma PlaceFor(r: State, t: Thread)
    requires Inv(r)
    ensures SlotFor(r.threads, t) >= 0 <==> Room(r, t)
    ensures Room(r, t) && r.readers < UINT32_MAX ==> r.counts[SlotFor(r.threads, t)] < UINT32_MAX
  {
    InTable(r, t);
    if SlotFor(r.threads, t) >= 0 {
      SumBounds(r.counts, SlotFor(r.threads, t));
    }
  }

  /** What is asked of a reader that need not wait. */
  lemma GrantIff(r: State, t: Thread)
    requires Inv(r)
    ensures var (c, code) := GrantRead(r, t);
            && code == (if Fits(r, t) then Ok else Again)
            && c.granted == (if Fits(r, t) then r.granted + multiset{t} else r.granted)
            && c.writer == r.writer && c.asleep == r.asleep
  {
    PlaceFor(r, t);
    ReadersAreGrants(r);
    hide Sum, Slot, Table;
  }

  /** Sleepers hold no read lock, and remember that; a writer that sleeps does not hold the lock. */
  ghost predicate SleepersHoldNothing(r: State) {
    forall t :: t in r.asleep ==> t !in r.granted && (if r.asleep[t].Reading? then !r.asleep[t].known else r.writer != t)
  }

  /** Every answer of a read lock, and all it changes: it is granted exactly when nobody writes,
      nobody waits to write or the caller reads already, and the table has room. */
  lemma ReadLockIff(r: State, t: Thread, tryOnly: bool)
    requires Inv(r) && t !in r.asleep
    ensures var (c, code) := Apply(r, ReadLock(t, tryOnly));
            && (code == Ok <==> Open(r, t) && Fits(r, t))
            && (code == Again <==> Open(r, t) && !Fits(r, t))
            && (code == Busy <==> !Open(r, t) && tryOnly)
            && (code == Asleep <==> !Open(r, t) && !tryOnly)
            && c.granted == (if code == Ok then r.granted + multiset{t} else r.granted) && c.writer == r.writer
            && c.asleep == (if code == Asleep then r.asleep[t := Reading(t in r.granted)] else r.asleep)
  {
    InTable(r, t);
    WaitingAreWriters(r);
    GrantIff(r, t);
    hide Inv, GrantRead, Slot, Fits, WriterWaits;
  }

  /** Every answer of a write lock: it is granted exactly when nobody holds the lock. */
  lemma WriteLockIff(r: State, t: Thread, tryOnly: bool)
    requires Inv(r) && t !in r.asleep
    ensures var (c, code) := Apply(r, WriteLock(t, tryOnly));
            && (code == Ok <==> Unheld(r))
            && (code == Busy <==> Holds(r, t) || (tryOnly && !Unheld(r)))
            && (code == Asleep <==> !Holds(r, t) && !tryOnly && !Unheld(r))
            && c.granted == r.granted && c.writer == (if code == Ok then t else r.writer)
            && c.asleep == (if code == Asleep then r.asleep[t := Writing] else r.asleep)
  {
    InTable(r, t);
    ReadersAreGrants(r);
    hide Inv, Slot;
    assert |r.granted| == 0 <==> r.granted == multiset{};
  }

  /** Every answer of a wait that ends: a reader is granted the lock on the same terms as one
      that comes, a writer when nobody holds it; otherwise it goes back to sleep. */
  lemma WakeIff(r: State, t: Thread, waitOk: bool)
    requires Inv(r) && t in r.asleep && SleepersHoldNothing(r)
    ensures var (c, code) := Apply(r, Wake(t, waitOk)); var reader := r.asleep[t].Reading?;
            && (code == WaitFailed <==> !waitOk)
            && (code == Ok <==> waitOk && if reader then Open(r, t) && Fits(r, t) else Unheld(r))
            && (code == Again <==> waitOk && reader && Open(r, t) && !Fits(r, t))
            && (code == Asleep <==> waitOk && if reader then !Open(r, t) else !Unheld(r))
            && c.granted == (if code == Ok && reader then r.granted + multiset{t} else r.granted)
            && c.writer == (if code == Ok && !reader then t else r.writer)
            && c.asleep == (if code == Asleep then r.asleep else r.asleep - {t})
  {
    ReadersAreGrants(r);
    WaitingAreWriters(r);
    GrantIff(r, t);
    var woken := r.(asleep := r.asleep - {t});
    if r.asleep[t].Reading? {
      Awake(r, t);
      ReaderAwake(r, t);
      GrantIff(woken, t);
    }
    hide Inv, GrantRead, Slot;
    assert |r.granted| == 0 <==> r.granted == multiset{};
    assert r.asleep[t := r.asleep[t]] == r.asleep && (r.asleep - {t})[t := r.asleep[t]] == r.asleep;
    hide Room;
  }

  lemma Awake(r: State, t: Thread)
    requires t in r.asleep && r.asleep[t].Reading?
    ensures WriterWaits(r.(asleep := r.asleep - {t})) <==> WriterWaits(r)
  {
    var woken := r.(asleep := r.asleep - {t});
    if WriterWaits(r) {
      var u :| u in r.asleep && r.asleep[u].Writing?;
      assert u in woken.asleep;
    }
  }

  lemma SleepersKeep(r: State, s: Step)
    requires Inv(r) && Enabled(r, s) && SleepersHoldNothing(r)
    ensures |r.threads| == |r.counts| && SleepersHoldNothing(Apply(r, s).0)
  {
    SameLengths(r);
    hide Inv, Apply, SleepersHoldNothing;
    match s
    case ReadLock(t, tryOnly) => ReadKeepsSleepers(r, t, tryOnly);
    case WriteLock(t, tryOnly) => WriteKeepsSleepers(r, t, tryOnly);
    case Wake(t, waitOk) => WakeKeepsSleepers(r, t, waitOk);
    case Unlock(t) => UnlockKeepsSleepers(r, t);
  }

  lemma ReadKeepsSleepers(r: State, t: Thread, tryOnly: bool)
    requires Inv(r) && t !in r.asleep && SleepersHoldNothing(r)
    ensures |r.threads| == |r.counts| && SleepersHoldNothing(Apply(r, ReadLock(t, tryOnly)).0)
  {
    SameLengths(r);
    hide Apply, Inv, Open, Fits;
    ReadLockIff(r, t, tryOnly);
    if t in r.granted {
      NotBoth(r, t);
    }
    OneMoreSleeper(r, Apply(r, ReadLock(t, tryOnly)).0, t, Reading(false));
  }

  lemma WriteKeepsSleepers(r: State, t: Thread, tryOnly: bool)
    requires Inv(r) && t !in r.asleep && SleepersHoldNothing(r)
    ensures |r.threads| == |r.counts| && SleepersHoldNothing(Apply(r, WriteLock(t, tryOnly)).0)
  {
    SameLengths(r);
    hide Apply, Inv, Unheld;
    WriteLockIff(r, t, tryOnly);
    OneMoreSleeper(r, Apply(r, WriteLock(t, tryOnly)).0, t, Writing);
  }

  lemma WakeKeepsSleepers(r: State, t: Thread, waitOk: bool)
    requires Inv(r) && t in r.asleep && SleepersHoldNothing(r)
    ensures |r.threads| == |r.counts| && SleepersHoldNothing(Apply(r, Wake(t, waitOk)).0)
  {
    SameLengths(r);
    hide Apply, Inv, Open, Fits, Unheld;
    WakeIff(r, t, waitOk);
    OneMoreSleeper(r, Apply(r, Wake(t, waitOk)).0, t, r.asleep[t]);
  }

  lemma UnlockKeepsSleepers(r: State, t: Thread)
    requires Inv(r) && t !in r.asleep && SleepersHoldNothing(r)
    ensures |r.threads| == |r.counts| && SleepersHoldNothing(Apply(r, Unlock(t)).0)
  {
    SameLengths(r);
    hide Apply, Inv;
    UnlockShrinks(r, t);
    OneMoreSleeper(r, Apply(r, Unlock(t)).0, t, Writing);
  }

  /** Nobody but `t` falls asleep or comes to hold anything. */
  lemma OneMoreSleeper(r: State, c: State, t: Thread, phase: Phase)
    requires SleepersHoldNothing(r)
    requires forall u :: u in c.asleep && u != t ==> u in r.asleep && c.asleep[u] == r.asleep[u]
    requires forall u :: u in c.granted && u != t ==> u in r.granted
    requires c.writer == r.writer || c.writer == t || c.writer == INVALID
    requires t in c.asleep ==> c.asleep[t] == phase && t !in c.granted && if phase.Reading? then !phase.known else c.writer != t
    ensures SleepersHoldNothing(c)
  {}

  lemma UnlockShrinks(r: State, t: Thread)
    requires Inv(r) && t !in r.asleep
    ensures var c := Apply(r, Unlock(t)).0;
            c.granted <= r.granted && c.asleep == r.asleep && (c.writer == r.writer || c.writer == INVALID)
  {
    InTable(r, t);
  }

  /** A thread that reads already need not wait to read again. */
  lemma NotBoth(r: State, t: Thread)
    requires Inv(r) && t in r.granted
    ensures Open(r, t)
  {
    if r.writer != INVALID {
      WriterAlone(r);
    }
  }

  /** Whom an unlock signals: writers exactly when one is asleep and nobody holds the lock any
      more, readers exactly when nobody writes or waits to write. So every sleeper that could
      now go on is among those signalled, and nobody is signalled who could not. */
  lemma UnlockSignals(r: State, t: Thread)
    requires Inv(r) && t !in r.asleep && SleepersHoldNothing(r) && Holds(r, t)
    ensures var c := Apply(r, Unlock(t)).0;
            && (Notified(c) == AWriter <==> Unheld(c) && WriterWaits(c))
            && (Notified(c) == AllReaders <==> c.writer == INVALID && !WriterWaits(c))
            && (forall u :: u in c.asleep && c.asleep[u].Writing? && Unheld(c) ==> Notified(c) == AWriter)
            && (forall u :: u in c.asleep && c.asleep[u].Reading? && Open(c, u) ==> Notified(c) == AllReaders)
            && c.writer == (if r.writer == t then INVALID else r.writer) && c.asleep == r.asleep
            && c.granted == (if r.writer == t then r.granted else r.granted - multiset{t})
  {
    var c := Apply(r, Unlock(t)).0;
    UnlockIffHolder(r, t);
    StepKeeps(r, Unlock(t));
    SleepersKeep(r, Unlock(t));
    WhoIsSignalled(c);
    UnlockChanges(r, t);
    hide Apply, Inv, Notified;
  }

  lemma WhoIsSignalled(c: State)
    requires Inv(c)
    ensures Notified(c) == AWriter <==> Unheld(c) && WriterWaits(c)
    ensures Notified(c) == AllReaders <==> c.writer == INVALID && !WriterWaits(c)
  {
    WaitingAreWriters(c);
    ReadersAreGrants(c);
    hide Inv;
    assert |c.granted| == 0 <==> c.granted == multiset{};
  }

  lemma UnlockChanges(r: State, t: Thread)
    requires Inv(r) && t !in r.asleep && Holds(r, t)
    ensures var c := Apply(r, Unlock(t)).0;
            && c.writer == (if r.writer == t then INVALID else r.writer) && c.asleep == r.asleep
            && c.granted == (if r.writer == t then r.granted else r.granted - multiset{t})
  {
    InTable(r, t);
  }

  lemma {:induction false} RunsKeepSleepers(r: State, ss: seq<Step>, end: State)
    requires Inv(r) && SleepersHoldNothing(r) && Runs(r, ss, end)
    ensures Inv(end) && SleepersHoldNothing(end)
    decreases |ss|
  {
    hide Apply, Enabled, SleepersHoldNothing;
    if ss != [] {
      StepKeeps(r, ss[0]);
      SleepersKeep(r, ss[0]);
      RunsKeepSleepers(Apply(r, ss[0]).0, ss[1..], end);
    }
  }

  /** In every reachable state sleepers hold no read lock, so all the answers above are those. */
  lemma ReachableSleepers(ss: seq<Step>, r: State)
    requires Runs(Start(), ss, r)
    ensures Inv(r) && SleepersHoldNothing(r)
  {
    StartOk();
    RunsKeepSleepers(Start(), ss, r);
  }

  /** A writer that gives up wakes nobody: a reader it was holding back sleeps on although
      it could have the lock. Here thread 0 reads, 1 waits to write, 2 to read, and 1 times out. */
  lemma HeldBackReaderSleepsOn() returns (ss: seq<Step>, r: State)
    ensures ss == [ReadLock(0, false), WriteLock(1, false), ReadLock(2, false), Wake(1, false)]
    ensures Runs(Start(), ss, r) && 2 in r.asleep && Open(r, 2) && Fits(r, 2)
  {
    StartFields(Start());
    hide Start, Runs, Inv;
    ss, r := HeldBackFrom(Start());
  }

  lemma HeldBackFrom(start: State) returns (ss: seq<Step>, r: State)
    requires Inv(start) && start.writer == INVALID && start.readers == 0 && start.waitingWriters == 0
    requires start.asleep == map[] && start.granted == multiset{}
    requires forall i :: 0 <= i < READERS ==> start.threads[i] == INVALID && start.counts[i] == 0
    ensures |start.threads| == |start.counts|
    ensures ss == [ReadLock(0, false), WriteLock(1, false), ReadLock(2, false), Wake(1, false)]
    ensures Runs(start, ss, r) && 2 in r.asleep && Open(r, 2) && Fits(r, 2)
  {
    hide Runs, Slot, Sum, Apply;
    SameLengths(start);
    var a := start.(threads := start.threads[0 := 0], counts := start.counts[0 := 1], readers := 1, granted := multiset{0});
    FirstReads(start, a);
    r := a.(asleep := map[2 := Reading(false)]);
    var rest := OthersWait(a, r);
    hide Inv;
    RunsFirst(start, ReadLock(0, false), rest, r);
    ss := [ReadLock(0, false)] + rest;
    assert r.threads[1] == INVALID && |r.granted| == 1;
  }

  lemma RunsFirst(r: State, s: Step, ss: seq<Step>, end: State)
    requires |r.threads| == |r.counts| && Enabled(r, s)
    requires var c := Apply(r, s).0; |c.threads| == |c.counts| && Runs(c, ss, end)
    ensures Runs(r, [s] + ss, end)
  {
    assert ([s] + ss)[1..] == ss;
    hide Apply, Enabled;
  }

  lemma OthersWait(a: State, r: State) returns (ss: seq<Step>)
    requires |a.threads| == |a.counts| && Slot(a.threads, 1) < 0 && Slot(a.threads, 2) < 0
    requires a.writer == INVALID && a.readers == 1 && a.waitingWriters == 0 && a.asleep == map[]
    requires r == a.(asleep := map[2 := Reading(false)])
    ensures ss == [WriteLock(1, false), ReadLock(2, false), Wake(1, false)] && Runs(a, ss, r)
  {
    hide Slot;
    var b := a.(waitingWriters := 1, asleep := map[1 := Writing]);
    var c := b.(asleep := b.asleep[2 := Reading(false)]);
    assert Apply(a, WriteLock(1, false)).0 == b;
    assert Apply(b, ReadLock(2, false)).0 == c;
    assert Apply(c, Wake(1, false)).0 == r;
    assert Runs(r, [], r);
    hide Apply;
    RunsFirst(c, Wake(1, false), [], r);
    RunsFirst(b, ReadLock(2, false), [Wake(1, false)] + [], r);
    RunsFirst(a, WriteLock(1, false), [ReadLock(2, false)] + ([Wake(1, false)] + []), r);
    ss := [WriteLock(1, false)] + ([ReadLock(2, false)] + ([Wake(1, false)] + []));
  }

  lemma FirstReads(r: State, a: State)
    requires Inv(r) && r.writer == INVALID && r.readers == 0 && r.waitingWriters == 0 && r.asleep == map[] && r.granted == multiset{}
    requires forall i :: 0 <= i < READERS ==> r.threads[i] == INVALID && r.counts[i] == 0
    requires a == r.(threads := r.threads[0 := 0], counts := r.counts[0 := 1], readers := 1, granted := multiset{0})
    ensures Apply(r, ReadLock(0, false)).0 == a
    ensures Slot(a.threads, 1) < 0 && Slot(a.threads, 2) < 0
  {
    SlotFirst(r.threads, 0);
    assert Slot(r.threads, 0) == -1;
    assert multiset{} + multiset{0} == multiset{0};
    hide Slot, Inv;
  }

  lemma StartFields(r: State)
    requires r == Start()
    ensures Inv(r) && r.writer == INVALID && r.readers == 0 && r.waitingWriters == 0 && r.asleep == map[] && r.granted == multiset{}
    ensures forall i :: 0 <= i < READERS ==> r.threads[i] == INVALID && r.counts[i] == 0
  {
    StartOk();
    hide Sum, Slot, Inv;
  }

  /** The lock's fields, its reader table in arrays, changed in place under its mutex. */
  class RwLock {
    var writer: int
    var waitingWriters: nat
    var readers: nat
    const readerThreads: array<int>
    const readerCounts: array<nat>
    var asleep: map<Thread, Phase>

    ghost var granted: multiset<int>

    ghost function Abs(): State
      reads this, readerThreads, readerCounts
    {
      State(writer, waitingWriters, readers, readerThreads[..], readerCounts[..], asleep, granted)
    }

    ghost predicate Valid()
      reads this, readerThreads, readerCounts
    {
      Inv(Abs())
    }

    /** `pthread_rwlock_init`. */
    constructor ()
      ensures Valid() && Abs() == Start() && fresh(readerThreads) && fresh(readerCounts)
    {
      writer, waitingWriters, readers, asleep := INVALID, 0, 0, map[];
      readerThreads := new int[READERS](_ => INVALID);
      readerCounts := new nat[READERS](_ => 0);
      granted := multiset{};
      new;
      StartOk();
      assert readerThreads[..] == seq(READERS, _ => INVALID);
      assert readerCounts[..] == seq(READERS, _ => 0);
    }

    /** `rwlock_reader_slot`: the thread's place; on request, the first free one instead. */
    method ReaderSlot(thread: Thread, allocate: bool) returns (slot: int)
      requires Valid()
      ensures slot == if allocate then SlotFor(readerThreads[..], thread) else Slot(readerThreads[..], thread)
    {
      var freeSlot := -1;
      var index := 0;
      while index < READERS
        invariant index <= READERS
        invariant forall k :: 0 <= k < index ==> readerThreads[k] != thread
        invariant freeSlot == -1 ==> forall k :: 0 <= k < index ==> readerThreads[k] != INVALID
        invariant freeSlot != -1 ==> 0 <= freeSlot < index && readerThreads[freeSlot] == INVALID
        invariant freeSlot != -1 ==> forall k :: 0 <= k < freeSlot ==> readerThreads[k] != INVALID
      {
        if readerThreads[index] == thread {
          SlotFirst(readerThreads[..], index);
          return index;
        }
        if freeSlot < 0 && readerThreads[index] == INVALID {
          freeSlot := index;
        }
        index := index + 1;
      }
      assert Slot(readerThreads[..], thread) == -1;
      if freeSlot >= 0 {
        SlotFirst(readerThreads[..], freeSlot);
      }
      slot := if allocate then freeSlot else -1;
    }

    /** The end of a read lock, once the reader need not wait. */
    method Grant(t: Thread) returns (code: Code)
      requires Valid() && writer == INVALID
      modifies this`readers, this`granted, readerThreads, readerCounts
      ensures Valid() && (Abs(), code) == GrantRead(old(Abs()), t)
    {
      hide Inv, Sum, Slot;
      ghost var r := Abs();
      SameLengths(r);
      GrantReadKeeps(r, t);
      if readers == UINT32_MAX {
        return Again;
      }
      var i := ReaderSlot(t, true);
      if i < 0 || readerCounts[i] == UINT32_MAX {
        return Again;
      }
      readerThreads[i] := t;
      readerCounts[i] := readerCounts[i] + 1;
      readers := readers + 1;
      granted := granted + multiset{t};
      assert Abs() == GrantRead(r, t).0;
      return Ok;
    }

    /** A read lock from taking the mutex to returning or falling asleep. */
    method ReadLock(t: Thread, tryOnly: bool) returns (code: Code)
      requires Valid() && t !in asleep
      modifies this, readerThreads, readerCounts
      ensures Valid() && (Abs(), code) == Apply(old(Abs()), Step.ReadLock(t, tryOnly))
      ensures code == Ok <==> Open(old(Abs()), t) && Fits(old(Abs()), t)
    {
      StepKeeps(Abs(), Step.ReadLock(t, tryOnly));
      ReadLockIff(Abs(), t, tryOnly);
      hide Open, Fits;
      var slot := ReaderSlot(t, false);
      if tryOnly && (writer != INVALID || (waitingWriters != 0 && slot < 0)) {
        return Busy;
      }
      code := TryRead(t, slot >= 0);
    }

    /** The loop of a reader, up to its next sleep. */
    method TryRead(t: Thread, known: bool) returns (code: Code)
      requires Valid() && t !in asleep
      modifies this, readerThreads, readerCounts
      ensures Valid() && (Abs(), code) == ReadAttempt(old(Abs()), t, known)
    {
      ReadAttemptKeeps(Abs(), t, known);
      if writer != INVALID || (waitingWriters != 0 && !known) {
        asleep := asleep[t := Reading(known)];
        return Asleep;
      }
      code := Grant(t);
    }

    method WriteLock(t: Thread, tryOnly: bool) returns (code: Code)
      requires Valid() && t !in asleep
      modifies this, readerThreads, readerCounts
      ensures Valid() && (Abs(), code) == Apply(old(Abs()), Step.WriteLock(t, tryOnly))
      ensures code == Ok <==> Unheld(old(Abs()))
    {
      StepKeeps(Abs(), Step.WriteLock(t, tryOnly));
      WriteLockIff(Abs(), t, tryOnly);
      var slot := ReaderSlot(t, false);
      if writer == t || slot >= 0 {
        return Busy;
      }
      if tryOnly && (writer != INVALID || readers != 0) {
        return Busy;
      }
      waitingWriters := waitingWriters + 1;
      code := TryWrite(t);
    }

    /** The loop of a writer, up to its next sleep. */
    method TryWrite(t: Thread) returns (code: Code)
      modifies this
      ensures (Abs(), code) == WriteAttempt(old(Abs()), t)
    {
      if writer != INVALID || readers != 0 {
        asleep := asleep[t := Writing];
        return Asleep;
      }
      waitingWriters := Less(waitingWriters);
      writer := t;
      return Ok;
    }

    /** A sleeper's condition wait returns, well or badly, with the mutex taken again. */
    method Wake(t: Thread, waitOk: bool) returns (code: Code)
      requires Valid() && t in asleep
      modifies this, readerThreads, readerCounts
      ensures Valid() && (Abs(), code) == Apply(old(Abs()), Step.Wake(t, waitOk))
      ensures SleepersHoldNothing(old(Abs())) ==>
                && SleepersHoldNothing(Abs())
                && (code == Ok <==> waitOk && if old(asleep)[t].Reading? then Open(old(Abs()), t) && Fits(old(Abs()), t)
                                             else Unheld(old(Abs())))
    {
      StepKeeps(Abs(), Step.Wake(t, waitOk));
      if SleepersHoldNothing(Abs()) {
        WakeIff(Abs(), t, waitOk);
        SleepersKeep(Abs(), Step.Wake(t, waitOk));
      }
      hide Open, Fits, SleepersHoldNothing;
      ReaderAwake(Abs(), t);
      var phase := asleep[t];
      asleep := asleep - {t};
      if !waitOk {
        if phase.Writing? {
          waitingWriters := Less(waitingWriters);
        }
        return WaitFailed;
      }
      if phase.Writing? {
        code := TryWrite(t);
      } else {
        code := TryRead(t, phase.known);
      }
    }

    /** `pthread_rwlock_unlock`, and whom it signals. */
    method Unlock(t: Thread) returns (code: Code, notify: Notify)
      requires Valid() && t !in asleep
      modifies this, readerThreads, readerCounts
      ensures Valid() && (Abs(), code) == Apply(old(Abs()), Step.Unlock(t))
      ensures code == Ok <==> Holds(old(Abs()), t)
      ensures notify == if code == Ok then Notified(Abs()) else Nobody
      ensures notify == AWriter <==> code == Ok && Unheld(Abs()) && WriterWaits(Abs())
      ensures notify == AllReaders <==> code == Ok && writer == INVALID && !WriterWaits(Abs())
    {
      hide Inv, Sum, Slot, Apply;
      StepKeeps(Abs(), Step.Unlock(t));
      UnlockIffHolder(Abs(), t);
      code := GiveBack(t);
      notify := Nobody;
      if code == Ok {
        WhoIsSignalled(Abs());
        if writer == INVALID && readers == 0 && waitingWriters != 0 {
          notify := AWriter;
        } else if writer == INVALID && waitingWriters == 0 {
          notify := AllReaders;
        }
      }
    }

    /** The part of an unlock that changes the lock. */
    method GiveBack(t: Thread) returns (code: Code)
      requires Valid() && t !in asleep
      modifies this`writer, this`readers, this`granted, readerThreads, readerCounts
      ensures (Abs(), code) == Apply(old(Abs()), Step.Unlock(t))
    {
      ghost var r := Abs();
      SameLengths(r);
      hide Inv, Sum, Slot;
      var slot := ReaderSlot(t, false);
      if writer == t {
        writer := INVALID;
      } else if slot >= 0 && readerCounts[slot] != 0 {
        readerCounts[slot] := readerCounts[slot] - 1;
        if readerCounts[slot] == 0 {
          readerThreads[slot] := INVALID;
        }
        readers := Less(readers);
        granted := granted - multiset{t};
      } else {
        return Perm;
      }
      code := Ok;
    }
  }

  lemma SameLengths(r: State)
    requires Inv(r)
    ensures |r.threads| == |r.counts| == READERS
  {}

  /** Waking a reader changes nothing but who is asleep. */
  lemma ReaderAwake(r: State, t: Thread)
    requires Inv(r) && t in r.asleep
    ensures r.asleep[t].Reading? ==> Inv(r.(asleep := r.asleep - {t}))
  {
    var woken := r.(asleep := r.asleep - {t});
    WakeWriters(r, woken, t);
    SameTable(r, woken);
  }
}
