/** The barrier: a count, a wrapping generation number, and threads that sleep until the
    generation they arrived in is over. Rounds and exits are recorded for the statements only. */
module Barriers {
  type Thread = nat

  const GENERATIONS: nat := 0x1_0000_0000

  datatype Outcome = Serial | Released | BroadcastError | WaitError

  /** A sleeping thread: the generation it read, and the round that was. */
  datatype Ticket = Ticket(generation: nat, round: nat)

  datatype Exit = Exit(thread: Thread, round: nat, outcome: Outcome)

  datatype State = State(threshold: nat, count: nat, generation: nat, waiting: map<Thread, Ticket>,
                         rounds: seq<seq<Thread>>, exits: seq<Exit>)

  /** One critical section of the barrier's mutex. A sleeper may wake at any time, with or
      without cause, or because its wait failed. */
  datatype Step = Arrive(t: Thread, broadcastOk: bool) | Wake(t: Thread, waitOk: bool)

  predicate Enabled(b: State, s: Step) {
    match s
    case Arrive(t, _) => t !in b.waiting
    case Wake(t, _) => t in b.waiting
  }

  function Completed(b: State): int { |b.rounds| - 1 }

  /** The critical sections of `aixos_pthread_barrier_wait`. */
  function Apply(b: State, s: Step): State
    requires Enabled(b, s) && b.rounds != []
  {
    var now := |b.rounds| - 1;
    match s
    case Arrive(t, broadcastOk) =>
      var joined := b.rounds[now := b.rounds[now] + [t]];
      if b.count + 1 == b.threshold then
        b.(count := 0, generation := (b.generation + 1) % GENERATIONS, rounds := joined + [[]],
           exits := b.exits + [Exit(t, now, if broadcastOk then Serial else BroadcastError)])
      else
        b.(count := b.count + 1, rounds := joined, waiting := b.waiting[t := Ticket(b.generation, now)])
    case Wake(t, waitOk) =>
      var ticket := b.waiting[t];
      if !waitOk then
        b.(waiting := b.waiting - {t}, exits := b.exits + [Exit(t, ticket.round, WaitError)])
      else if ticket.generation == b.generation then b
      else b.(waiting := b.waiting - {t}, exits := b.exits + [Exit(t, ticket.round, Released)])
  }

  // ----- invariant

  function ExitsOf(exits: seq<Exit>, r: nat): nat {
    if exits == [] then 0
    else ExitsOf(exits[..|exits| - 1], r) + if exits[|exits| - 1].round == r then 1 else 0
  }

  predicate Closes(e: Exit) { e.outcome == Serial || e.outcome == BroadcastError }

  /** Exits that closed round `r`, with the serial result unless the broadcast failed. */
  function ClosersOf(exits: seq<Exit>, r: nat): nat {
    if exits == [] then 0
    else ClosersOf(exits[..|exits| - 1], r)
         + if exits[|exits| - 1].round == r && Closes(exits[|exits| - 1]) then 1 else 0
  }

  ghost function SleepersOf(b: State, r: nat): set<Thread> {
    set t | t in b.waiting && b.waiting[t].round == r
  }

  /** Every arrival of round `r` sleeps or has left. */
  ghost predicate Accounted(b: State, r: nat)
    requires r < |b.rounds|
  {
    && |b.rounds[r]| == ExitsOf(b.exits, r) + |SleepersOf(b, r)|
    && ClosersOf(b.exits, r) == (if r < |b.rounds| - 1 then 1 else 0)
    && (r < |b.rounds| - 1 ==> |b.rounds[r]| == b.threshold)
  }

  predicate TicketOk(b: State, t: Thread)
    requires t in b.waiting
  {
    b.waiting[t].round < |b.rounds| && b.waiting[t].generation == b.waiting[t].round % GENERATIONS
  }

  ghost predicate Inv(b: State) {
    && b.threshold > 0 && b.count < b.threshold && b.rounds != []
    && b.generation == (|b.rounds| - 1) % GENERATIONS
    && |b.rounds[|b.rounds| - 1]| == b.count
    && (forall t :: t in b.waiting ==> TicketOk(b, t))
    && (forall r :: 0 <= r < |b.rounds| ==> Accounted(b, r))
    && (forall k :: 0 <= k < |b.exits| ==> ExitOk(b, b.exits[k]))
  }

  /** Nobody comes out of a round that is not complete, except by a failed wait. */
  predicate ExitOk(b: State, e: Exit) {
    e.round < |b.rounds| && (e.outcome != WaitError ==> e.round < |b.rounds| - 1)
  }

  lemma OneMoreExit(exits: seq<Exit>, e: Exit, r: nat)
    ensures ExitsOf(exits + [e], r) == ExitsOf(exits, r) + if e.round == r then 1 else 0
    ensures ClosersOf(exits + [e], r) == ClosersOf(exits, r) + if e.round == r && Closes(e) then 1 else 0
  {
    assert (exits + [e])[..|exits|] == exits;
  }

  lemma {:induction false} NoneBeyond(exits: seq<Exit>, r: nat)
    requires forall k :: 0 <= k < |exits| ==> exits[k].round != r
    ensures ExitsOf(exits, r) == 0 && ClosersOf(exits, r) == 0
  {
    if exits != [] {
      NoneBeyond(exits[..|exits| - 1], r);
    }
  }

  lemma SleeperIn(b: State, c: State, t: Thread, ticket: Ticket, r: nat)
    requires t !in b.waiting && c.waiting == b.waiting[t := ticket]
    ensures |SleepersOf(c, r)| == |SleepersOf(b, r)| + if ticket.round == r then 1 else 0
  {
    assert SleepersOf(c, r) == SleepersOf(b, r) + if ticket.round == r then {t} else {};
  }

  lemma SleeperOut(b: State, c: State, t: Thread, r: nat)
    requires t in b.waiting && c.waiting == b.waiting - {t}
    ensures |SleepersOf(c, r)| == |SleepersOf(b, r)| - if b.waiting[t].round == r then 1 else 0
  {
    assert SleepersOf(b, r) == SleepersOf(c, r) + if b.waiting[t].round == r then {t} else {};
  }

  lemma NextGeneration(n: nat)
    ensures (n % GENERATIONS + 1) % GENERATIONS == (n + 1) % GENERATIONS
  {}

  lemma ArriveKeeps(b: State, t: Thread, broadcastOk: bool)
    requires Inv(b) && t !in b.waiting
    ensures Inv(Apply(b, Arrive(t, broadcastOk)))
  {
    var c := Apply(b, Arrive(t, broadcastOk));
    var now := |b.rounds| - 1;
    NextGeneration(now);
    hide ExitsOf, ClosersOf, SleepersOf;
    forall u | u in c.waiting ensures TicketOk(c, u) {
      assert u != t ==> TicketOk(b, u);
    }
    forall k | 0 <= k < |c.exits| ensures ExitOk(c, c.exits[k]) {
      assert k < |b.exits| ==> ExitOk(b, b.exits[k]);
    }
    forall r | 0 <= r < |c.rounds| ensures Accounted(c, r) {
      ArriveAccounted(b, t, broadcastOk, r);
    }
  }

  lemma ArriveAccounted(b: State, t: Thread, broadcastOk: bool, r: nat)
    requires Inv(b) && t !in b.waiting && r < |Apply(b, Arrive(t, broadcastOk)).rounds|
    ensures Accounted(Apply(b, Arrive(t, broadcastOk)), r)
  {
    hide ExitsOf, ClosersOf, SleepersOf;
    var c := Apply(b, Arrive(t, broadcastOk));
    if r < |b.rounds| {
      assert Accounted(b, r);
    } else {
      NobodyYet(b, r);
    }
    if b.count + 1 == b.threshold {
      OneMoreExit(b.exits, c.exits[|b.exits|], r);
      SameSleepers(b, c, r);
    } else {
      SleeperIn(b, c, t, c.waiting[t], r);
    }
  }

  lemma SameSleepers(b: State, c: State, r: nat)
    requires c.waiting == b.waiting
    ensures SleepersOf(c, r) == SleepersOf(b, r)
  {}

  lemma NobodyYet(b: State, r: nat)
    requires Inv(b) && r >= |b.rounds|
    ensures SleepersOf(b, r) == {} && ExitsOf(b.exits, r) == 0 && ClosersOf(b.exits, r) == 0
  {
    forall t | t in b.waiting ensures b.waiting[t].round != r {
      assert TicketOk(b, t);
    }
    forall k | 0 <= k < |b.exits| ensures b.exits[k].round != r {
      assert ExitOk(b, b.exits[k]);
    }
    NoneBeyond(b.exits, r);
  }

  lemma WakeKeeps(b: State, t: Thread, waitOk: bool)
    requires Inv(b) && t in b.waiting
    ensures Inv(Apply(b, Wake(t, waitOk)))
  {
    var c := Apply(b, Wake(t, waitOk));
    hide ExitsOf, ClosersOf, SleepersOf;
    assert TicketOk(b, t);
    forall u | u in c.waiting ensures TicketOk(c, u) {
      assert TicketOk(b, u);
    }
    forall k | 0 <= k < |c.exits| ensures ExitOk(c, c.exits[k]) {
      assert k < |b.exits| ==> ExitOk(b, b.exits[k]);
    }
    forall r | 0 <= r < |c.rounds| ensures Accounted(c, r) {
      assert Accounted(b, r);
      if c != b {
        OneMoreExit(b.exits, c.exits[|b.exits|], r);
        SleeperOut(b, c, t, r);
      }
    }
  }

  lemma StepKeeps(b: State, s: Step)
    requires Inv(b) && Enabled(b, s)
    ensures Inv(Apply(b, s))
  {
    hide Inv, Apply;
    match s
    case Arrive(t, broadcastOk) => ArriveKeeps(b, t, broadcastOk);
    case Wake(t, waitOk) => WakeKeeps(b, t, waitOk);
  }

  // ----- runs

  function Start(threshold: nat): State { State(threshold, 0, 0, map[], [[]], []) }

  ghost predicate Runs(b: State, ss: seq<Step>, r: State)
    requires b.rounds != []
    decreases |ss|
  {
    if ss == [] then r == b
    else Enabled(b, ss[0]) && Apply(b, ss[0]).rounds != [] && Runs(Apply(b, ss[0]), ss[1..], r)
  }

  function ArrivalsIn(ss: seq<Step>): nat {
    if ss == [] then 0 else (if ss[0].Arrive? then 1 else 0) + ArrivalsIn(ss[1..])
  }

  function Arrived(b: State): int { b.threshold * Completed(b) + b.count }

  lemma OneArrival(b: State, s: Step)
    requires Inv(b) && Enabled(b, s)
    ensures Arrived(Apply(b, s)) == Arrived(b) + (if s.Arrive? then 1 else 0) && Apply(b, s).threshold == b.threshold
  {
    var n := |b.rounds|;
    assert b.threshold * n == b.threshold * (n - 1) + b.threshold;
  }

  /** Over every run: the arrivals are the threshold times the completed generations plus
      the count, whatever wakes up and whatever waits fail. */
  lemma {:induction false} RunsKeep(b: State, ss: seq<Step>, r: State)
    requires Inv(b) && Runs(b, ss, r)
    ensures Inv(r) && r.threshold == b.threshold && Arrived(r) == Arrived(b) + ArrivalsIn(ss)
    decreases |ss|
  {
    if ss != [] {
      StepKeeps(b, ss[0]);
      OneArrival(b, ss[0]);
      hide Inv, Apply, Enabled, Arrived;
      RunsKeep(Apply(b, ss[0]), ss[1..], r);
    }
  }

  lemma StartOk(threshold: nat)
    requires threshold > 0
    ensures Inv(Start(threshold)) && Arrived(Start(threshold)) == 0
  {
    assert SleepersOf(Start(threshold), 0) == {};
    assert threshold * 0 == 0;
  }

  /** What the barrier promises, in every reachable state: nobody is released from a round
      before `threshold` arrivals of it, a round has exactly one closing thread once it is
      complete and none before, and arrivals of a round sleep or have left. */
  lemma BarrierHolds(threshold: nat, ss: seq<Step>, b: State)
    requires threshold > 0 && Runs(Start(threshold), ss, b)
    ensures ArrivalsIn(ss) == threshold * Completed(b) + b.count && 0 <= b.count < threshold
    ensures forall k :: 0 <= k < |b.exits| && b.exits[k].outcome != WaitError ==>
              0 <= b.exits[k].round < Completed(b) && |b.rounds[b.exits[k].round]| == threshold
    ensures forall r :: 0 <= r < |b.rounds| ==>
              && ClosersOf(b.exits, r) == (if r < Completed(b) then 1 else 0)
              && |b.rounds[r]| == ExitsOf(b.exits, r) + |SleepersOf(b, r)|
  {
    hide Apply, Enabled, ExitsOf, ClosersOf, SleepersOf;
    StartOk(threshold);
    RunsKeep(Start(threshold), ss, b);
    forall k | 0 <= k < |b.exits| && b.exits[k].outcome != WaitError
      ensures 0 <= b.exits[k].round < Completed(b) && |b.rounds[b.exits[k].round]| == threshold
    {
      assert ExitOk(b, b.exits[k]);
      assert Accounted(b, b.exits[k].round);
    }
    forall r | 0 <= r < |b.rounds|
      ensures ClosersOf(b.exits, r) == (if r < Completed(b) then 1 else 0)
      ensures |b.rounds[r]| == ExitsOf(b.exits, r) + |SleepersOf(b, r)|
    {
      assert Accounted(b, r);
    }
  }

  /** A sleeper that wakes leaves exactly if its round is over, but for the one chance that
      a multiple of all generations has passed meanwhile. */
  lemma LeavesIff(b: State, t: Thread)
    requires Inv(b) && t in b.waiting
    ensures t !in Apply(b, Wake(t, true)).waiting <==>
            (Completed(b) - b.waiting[t].round) % GENERATIONS != 0
  {
    assert TicketOk(b, t);
    SameRemainder(Completed(b), b.waiting[t].round);
  }

  /** What a thread gets: the one that completes a round leaves as the serial one, or with the
      error of its broadcast, and sleepers stay; any other falls asleep. A wait that fails leaves
      with that error; one that does not leaves as released if the generation has changed. */
  lemma StepAnswers(b: State, t: Thread, ok: bool)
    requires Inv(b)
    ensures t !in b.waiting ==>
              var r := Apply(b, Arrive(t, ok)); var closes := b.count + 1 == b.threshold;
              && r.waiting == (if closes then b.waiting else b.waiting[t := Ticket(b.generation, Completed(b))])
              && r.exits == b.exits + (if closes then [Exit(t, Completed(b), if ok then Serial else BroadcastError)] else [])
              && Completed(r) == Completed(b) + if closes then 1 else 0
    ensures t in b.waiting ==>
              var r := Apply(b, Wake(t, ok)); var leaves := !ok || b.waiting[t].generation != b.generation;
              && r.waiting == (if leaves then b.waiting - {t} else b.waiting)
              && r.exits == b.exits + (if leaves then [Exit(t, b.waiting[t].round, if ok then Released else WaitError)] else [])
              && r.count == b.count && r.rounds == b.rounds
  {}

  lemma SameRemainder(a: int, b: int)
    requires a >= b >= 0
    ensures a % GENERATIONS == b % GENERATIONS <==> (a - b) % GENERATIONS == 0
  {
    var qa, qb := a / GENERATIONS, b / GENERATIONS;
    assert a - b == GENERATIONS * (qa - qb) + (a % GENERATIONS - b % GENERATIONS);
  }

  // ----- a sleeper that stays

  lemma {:induction false} RunsJoin(b: State, x: seq<Step>, m: State, y: seq<Step>, r: State)
    requires b.rounds != [] && Runs(b, x, m) && m.rounds != [] && Runs(m, y, r)
    ensures Runs(b, x + y, r)
    decreases |x|
  {
    if x == [] {
      assert x + y == y;
    } else {
      assert (x + y)[0] == x[0] && (x + y)[1..] == x[1..] + y;
      hide Enabled, Apply;
      RunsJoin(Apply(b, x[0]), x[1..], m, y, r);
    }
  }

  lemma RunsFirst(b: State, s: Step, ss: seq<Step>, r: State)
    requires b.rounds != [] && Enabled(b, s) && Apply(b, s).rounds != [] && Runs(Apply(b, s), ss, r)
    ensures Runs(b, [s] + ss, r)
  {
    assert ([s] + ss)[1..] == ss;
  }

  /** Thread 0 sleeps since round 0, and nobody else but some of the first `n` threads. */
  ghost predicate SleepsOn(b: State, n: nat) {
    0 in b.waiting && b.waiting[0].round == 0 && forall t :: t in b.waiting ==> t <= n
  }

  /** Threads arrive until the round is complete. */
  lemma {:induction false} RestArrive(b: State) returns (ss: seq<Step>, r: State)
    requires Inv(b) && SleepsOn(b, b.count)
    requires forall t :: t in b.waiting && t > 0 ==> b.waiting[t].round == Completed(b)
    ensures Runs(b, ss, r) && Inv(r) && r.threshold == b.threshold && Completed(r) == Completed(b) + 1 && r.count == 0
    ensures SleepsOn(r, r.threshold) && forall t :: t in r.waiting && t > 0 ==> r.waiting[t].round == Completed(b)
    decreases b.threshold - b.count
  {
    var s := Arrive(b.count + 1, true);
    var c := Apply(b, s);
    StepKeeps(b, s);
    hide Inv;
    var rest;
    if c.count == 0 {
      rest, r := [], c;
    } else {
      rest, r := RestArrive(c);
    }
    RunsFirst(b, s, rest, r);
    ss := [s] + rest;
  }

  /** The others wake and leave. */
  lemma {:induction false} OthersLeave(b: State, n: nat) returns (ss: seq<Step>, r: State)
    requires Inv(b) && b.count == 0 && SleepsOn(b, n)
    requires forall t :: t in b.waiting && t > 0 ==> b.waiting[t].round == Completed(b) - 1
    ensures Runs(b, ss, r) && Inv(r) && r.threshold == b.threshold && r.rounds == b.rounds && r.count == 0
    ensures SleepsOn(r, 0)
    decreases n
  {
    ss, r := [], b;
    if n > 0 {
      if n in b.waiting {
        var s := Wake(n, true);
        LeavesIff(b, n);
        StepKeeps(b, s);
        var c := Apply(b, s);
        hide Inv;
        var rest;
        rest, r := OthersLeave(c, n - 1);
        RunsFirst(b, s, rest, r);
        ss := [s] + rest;
      } else {
        ss, r := OthersLeave(b, n - 1);
      }
    }
  }

  /** For every number of rounds there is a run that completes as many while a thread that
      arrived in the first one has not been given the processor since. */
  lemma {:induction false} SleeperOutlasts(threshold: nat, n: nat) returns (ss: seq<Step>, r: State)
    requires threshold > 1
    ensures Runs(Start(threshold), ss, r) && Inv(r) && r.threshold == threshold && Completed(r) == n
    ensures 0 in r.waiting && r.waiting[0].round == 0
    ensures if n == 0 then r.count == 1 && r.waiting.Keys == {0} else r.count == 0 && SleepsOn(r, 0)
    decreases n
  {
    StartOk(threshold);
    if n == 0 {
      var s := Arrive(0, true);
      StepKeeps(Start(threshold), s);
      r := Apply(Start(threshold), s);
      RunsFirst(Start(threshold), s, [], r);
      ss := [s] + [];
    } else {
      var ss1, b := SleeperOutlasts(threshold, n - 1);
      hide Inv, Runs, Start;
      var ss2, c := RestArrive(b);
      var ss3;
      ss3, r := OthersLeave(c, threshold);
      InvRounds(b);
      InvRounds(c);
      RunsJoin(b, ss2, c, ss3, r);
      RunsJoin(Start(threshold), ss1, b, ss2 + ss3, r);
      ss := ss1 + (ss2 + ss3);
    }
  }

  lemma InvRounds(b: State)
    requires Inv(b)
    ensures b.rounds != []
  {}

  /** So the wrap of the generation is in reach of every barrier for two or more threads: a
      sleeper whose round has long been complete wakes and goes back to sleep. */
  lemma SleeperMissesItsRound(threshold: nat) returns (ss: seq<Step>, r: State)
    requires threshold > 1
    ensures Runs(Start(threshold), ss, r) && 0 in r.waiting && r.rounds != []
    ensures Completed(r) == GENERATIONS && r.waiting[0].round == 0 && Apply(r, Wake(0, true)) == r
  {
    hide Start, Runs;
    ss, r := SleeperOutlasts(threshold, GENERATIONS);
    LeavesIff(r, 0);
  }

  /** The barrier's fields, changed in place under its mutex, and what each sleeping thread
      read from them. */
  class Barrier {
    const threshold: nat
    var count: nat
    var generation: nat
    var sleepers: map<Thread, nat>

    ghost var history: State

    ghost predicate Valid()
      reads this
    {
      && Inv(history) && history.threshold == threshold && history.count == count
      && history.generation == generation && sleepers.Keys == history.waiting.Keys
      && forall t :: t in sleepers ==> sleepers[t] == history.waiting[t].generation
    }

    /** `pthread_barrier_init`. */
    constructor (threshold: nat)
      requires threshold > 0
      ensures Valid() && history == Start(threshold)
    {
      this.threshold, count, generation, sleepers := threshold, 0, 0, map[];
      history := Start(threshold);
      new;
      StartOk(threshold);
    }

    /** From entry to the return of the last arrival, or to falling asleep. */
    method Arrive(t: Thread, broadcastOk: bool) returns (outcome: Outcome, asleep: bool)
      requires Valid() && t !in sleepers
      modifies this
      ensures Valid() && history == Apply(old(history), Step.Arrive(t, broadcastOk))
      ensures asleep <==> t in sleepers
      ensures !asleep ==> history.exits == old(history).exits + [Exit(t, Completed(old(history)), outcome)]
    {
      StepKeeps(history, Step.Arrive(t, broadcastOk));
      hide Inv;
      asleep, outcome := true, Serial;
      count := count + 1;
      if count == threshold {
        count := 0;
        generation := (generation + 1) % GENERATIONS;
        asleep, outcome := false, if broadcastOk then Serial else BroadcastError;
      } else {
        sleepers := sleepers[t := generation];
      }
      history := Apply(history, Step.Arrive(t, broadcastOk));
    }

    /** From waking up to the return, or to falling asleep again. */
    method Wake(t: Thread, waitOk: bool) returns (outcome: Outcome, asleep: bool)
      requires Valid() && t in sleepers
      modifies this
      ensures Valid() && history == Apply(old(history), Step.Wake(t, waitOk))
      ensures asleep <==> t in sleepers
      ensures !asleep ==> history.exits == old(history).exits + [Exit(t, old(history).waiting[t].round, outcome)]
    {
      StepKeeps(history, Step.Wake(t, waitOk));
      hide Inv;
      asleep, outcome := false, WaitError;
      if waitOk && sleepers[t] == generation {
        asleep := true;
      } else {
        outcome := if waitOk then Released else WaitError;
        sleepers := sleepers - {t};
      }
      history := Apply(history, Step.Wake(t, waitOk));
    }
  }
}
