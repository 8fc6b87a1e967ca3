/** Deferred rescheduling: interrupts nest at any atomic access, requests made under them or
    under the scheduler lock are left in a flag, and the last way out serves the flag. */
module Isr {
  type TaskId = nat

  /** Where a handler or a task is, between two atomic accesses. */
  datatype Pc =
    | Entering                // a handler before it has counted itself
    | Body                    // a handler's own work; for a task, no kernel call
    | AskLock                 // a request that saw no nesting
    | Store                   // a request about to set the flag
    | SwitchNow               // a request about to switch
    | ExitLoad                // an exit about to read the nesting level
    | Leaving(level: nat)      // an exit about to compare and exchange it
    | LoadLock                // the last exit, about to read the lock count
    | Exchange                // ... and to take the flag
    | ExitSwitch              // ... and, having taken it, to switch
    | UnlockSwitch            // an unlock that has taken the flag

  /** `stack` holds the interrupted and running handlers, innermost last; `owed` records,
      for the statements only, a deferred request since the last context switch. */
  datatype State = State(nesting: nat, locks: nat, pending: bool, stack: seq<Pc>,
                         tasks: map<TaskId, Pc>, cur: TaskId, switching: bool, owed: bool)

  datatype Step =
    | Interrupt
    | Handler(request: bool)   // the innermost handler's next access; in its body, which call
    | TaskRequest
    | TaskLock
    | TaskUnlock
    | TaskNext                 // the running task's next access inside a call
    | Dispatch(to: TaskId)     // the requested switch takes place

  function Last(s: State): Pc
    requires s.stack != []
  {
    s.stack[|s.stack| - 1]
  }

  function Front(s: State): seq<Pc>
    requires s.stack != []
  {
    s.stack[..|s.stack| - 1]
  }

  /** Tasks run when no handler does and no switch is outstanding. */
  predicate TaskRuns(s: State) { s.stack == [] && !s.switching && s.cur in s.tasks }

  predicate Enabled(s: State, step: Step) {
    match step
    case Interrupt => true
    case Handler(_) => s.stack != []
    case TaskRequest => TaskRuns(s) && s.tasks[s.cur] == Body
    case TaskLock => TaskRuns(s) && s.tasks[s.cur] == Body
    case TaskUnlock => TaskRuns(s) && s.tasks[s.cur] == Body
    case TaskNext => TaskRuns(s) && s.tasks[s.cur] != Body
    case Dispatch(to) => s.stack == [] && s.switching && to in s.tasks
  }

  /** `aixos_arch_context_switch`, which serves every request made before. */
  function Switch(s: State): State { s.(switching := true, owed := false) }

  function Goto(s: State, pc: Pc): State
    requires s.stack != []
  {
    s.(stack := Front(s) + [pc])
  }

  function Return(s: State): State
    requires s.stack != []
  {
    s.(stack := Front(s))
  }

  /** One access of the innermost handler. */
  function HandlerStep(s: State, request: bool): State
    requires s.stack != []
  {
    match Last(s)
    case Entering => Goto(s, Body).(nesting := s.nesting + 1)
    case Body =>
      if !request then Goto(s, ExitLoad)
      else if s.nesting != 0 then Goto(s, Store) else Goto(s, AskLock)
    case AskLock => if s.locks != 0 then Goto(s, Store) else Goto(s, SwitchNow)
    case Store => Goto(s, Body).(pending := true, owed := true)
    case SwitchNow => Switch(Goto(s, Body))
    case ExitLoad => if s.nesting == 0 then Return(s) else Goto(s, Leaving(s.nesting))
    case Leaving(level) =>
      if s.nesting != level || level == 0 then Goto(s, ExitLoad)
      else if level == 1 then Goto(s, LoadLock).(nesting := 0)
      else Return(s).(nesting := level - 1)
    case LoadLock => if s.locks == 0 then Goto(s, Exchange) else Return(s)
    case Exchange => if s.pending then Goto(s, ExitSwitch).(pending := false) else Return(s)
    case ExitSwitch => Switch(Return(s))
    case UnlockSwitch => Switch(Goto(s, Body))
  }

  function At(s: State, pc: Pc): State { s.(tasks := s.tasks[s.cur := pc]) }

  /** One access of the running task; the unlock is a single critical section. */
  function TaskStep(s: State): State
    requires TaskRuns(s)
  {
    match s.tasks[s.cur]
    case AskLock => if s.locks != 0 then At(s, Store) else At(s, SwitchNow)
    case Store => At(s, Body).(pending := true, owed := true)
    case SwitchNow => Switch(At(s, Body))
    case UnlockSwitch => Switch(At(s, Body))
    case _ => s
  }

  function Unlocked(s: State): State {
    if s.locks == 0 then s
    else if s.locks == 1 && s.pending then At(s, UnlockSwitch).(locks := 0, pending := false)
    else s.(locks := s.locks - 1)
  }

  function Apply(s: State, step: Step): State
    requires Enabled(s, step)
  {
    match step
    case Interrupt => s.(stack := s.stack + [Entering])
    case Handler(request) => HandlerStep(s, request)
    case TaskRequest => if s.nesting != 0 then At(s, Store) else At(s, AskLock)
    case TaskLock => if s.nesting != 0 then s else s.(locks := s.locks + 1)
    case TaskUnlock => if s.nesting != 0 then s else Unlocked(s)
    case TaskNext => TaskStep(s)
    case Dispatch(to) => s.(cur := to, switching := false)
  }

  // ----- invariant

  /** Handlers that have counted themselves and not yet out again. */
  predicate Counts(pc: Pc) { pc == Body || pc == Store || pc == ExitLoad || pc.Leaving? }

  function Counted(stack: seq<Pc>): nat {
    if stack == [] then 0
    else Counted(stack[..|stack| - 1]) + if Counts(stack[|stack| - 1]) then 1 else 0
  }

  /** What is so at a handler, given the handlers below it: the level it read is still right
      whenever it runs, and only the outermost one gets to look at the flag. */
  predicate HandlerOk(below: seq<Pc>, pc: Pc, locks: nat) {
    match pc
    case Leaving(level) => level == Counted(below) + 1
    case LoadLock => Counted(below) == 0
    case Exchange => Counted(below) == 0 && locks == 0
    case ExitSwitch => Counted(below) == 0 && locks == 0
    case AskLock => false
    case SwitchNow => false
    case UnlockSwitch => false
    case _ => true
  }

  predicate StackOk(stack: seq<Pc>, locks: nat) {
    stack == [] ||
    (StackOk(stack[..|stack| - 1], locks) && HandlerOk(stack[..|stack| - 1], stack[|stack| - 1], locks))
  }

  predicate TaskPc(pc: Pc) { pc == Body || pc == AskLock || pc == Store || pc == SwitchNow || pc == UnlockSwitch }

  predicate TaskOk(s: State, t: TaskId)
    requires t in s.tasks
  {
    && TaskPc(s.tasks[t])
    && (s.tasks[t] == Store ==> t == s.cur && s.locks > 0 && !s.switching)
    && (t == s.cur && (s.tasks[t] == SwitchNow || s.tasks[t] == UnlockSwitch) ==> s.locks == 0)
  }

  /** The last way out is on its way to the flag. */
  predicate OnTheWay(stack: seq<Pc>) { LoadLock in stack || Exchange in stack }

  ghost predicate TasksOk(s: State) {
    s.cur in s.tasks && (forall t :: t in s.tasks ==> TaskOk(s, t)) && (s.switching ==> s.locks == 0)
  }

  predicate NestingOk(s: State) { s.nesting == Counted(s.stack) && StackOk(s.stack, s.locks) }

  predicate FlagOk(s: State) { s.pending ==> s.nesting > 0 || s.locks > 0 || OnTheWay(s.stack) }

  predicate OwedOk(s: State)
    requires s.cur in s.tasks
  {
    s.owed ==> s.pending || ExitSwitch in s.stack || (s.tasks[s.cur] == UnlockSwitch && !s.switching)
  }

  ghost predicate Inv(s: State) {
    TasksOk(s) && NestingOk(s) && FlagOk(s) && OwedOk(s)
  }

  lemma Top(below: seq<Pc>, pc: Pc, locks: nat)
    ensures Counted(below + [pc]) == Counted(below) + if Counts(pc) then 1 else 0
    ensures StackOk(below + [pc], locks) <==> StackOk(below, locks) && HandlerOk(below, pc, locks)
  {
    assert (below + [pc])[..|below|] == below;
  }

  lemma OnTop(s: State)
    requires s.stack != []
    ensures s.stack == Front(s) + [Last(s)]
    ensures forall pc :: pc in s.stack <==> pc in Front(s) || pc == Last(s)
  {}

  lemma InTop(below: seq<Pc>, pc: Pc)
    ensures forall x :: x in below + [pc] <==> x in below || x == pc
  {}

  lemma HandlerNesting(s: State, request: bool)
    requires NestingOk(s) && s.stack != []
    ensures NestingOk(HandlerStep(s, request))
  {
    hide Counted, StackOk;
    var r := HandlerStep(s, request);
    OnTop(s);
    Top(Front(s), Last(s), s.locks);
    forall pc
      ensures Counted(Front(s) + [pc]) == Counted(Front(s)) + if Counts(pc) then 1 else 0
      ensures StackOk(Front(s) + [pc], s.locks) <==> StackOk(Front(s), s.locks) && HandlerOk(Front(s), pc, s.locks)
    {
      Top(Front(s), pc, s.locks);
    }
    hide Front;
  }

  /** The facts about the innermost handler that the flag depends on. */
  lemma HandlerFacts(s: State)
    requires NestingOk(s) && s.stack != []
    ensures Counts(Last(s)) ==> s.nesting > 0
    ensures Last(s).Leaving? ==> Last(s).level == s.nesting
    ensures Last(s) == Exchange || Last(s) == ExitSwitch ==> s.locks == 0 && s.nesting == 0
    ensures Last(s) != AskLock && Last(s) != SwitchNow && Last(s) != UnlockSwitch
  {
    hide Counted, StackOk;
    OnTop(s);
    Top(Front(s), Last(s), s.locks);
  }

  lemma HandlerFlags(s: State, request: bool)
    requires s.cur in s.tasks && NestingOk(s) && FlagOk(s) && OwedOk(s) && s.stack != []
    ensures FlagOk(HandlerStep(s, request))
    ensures HandlerStep(s, request).cur in HandlerStep(s, request).tasks && OwedOk(HandlerStep(s, request))
  {
    hide NestingOk;
    OnTop(s);
    HandlerFacts(s);
    forall pc, x ensures x in Front(s) + [pc] <==> x in Front(s) || x == pc {}
    hide Front;
  }

  lemma HandlerTasks(s: State, request: bool)
    requires TasksOk(s) && NestingOk(s) && s.stack != []
    ensures TasksOk(HandlerStep(s, request)) && s.cur in s.tasks
  {
    hide NestingOk;
    HandlerFacts(s);
    var r := HandlerStep(s, request);
    forall t | t in r.tasks ensures TaskOk(r, t) {
      assert TaskOk(s, t);
    }
  }

  lemma HandlerKeeps(s: State, request: bool)
    requires Inv(s) && s.stack != []
    ensures Inv(HandlerStep(s, request))
  {
    hide TasksOk, NestingOk, FlagOk, OwedOk, HandlerStep;
    HandlerTasks(s, request);
    HandlerNesting(s, request);
    HandlerFlags(s, request);
  }

  lemma TaskKeeps(s: State)
    requires Inv(s) && TaskRuns(s)
    ensures Inv(TaskStep(s))
  {
    var r := TaskStep(s);
    assert TaskOk(s, s.cur);
    forall t | t in r.tasks ensures TaskOk(r, t) {
      assert TaskOk(s, t);
    }
  }

  lemma LockKeeps(s: State, step: Step)
    requires Inv(s) && Enabled(s, step) && (step.TaskRequest? || step.TaskLock? || step.TaskUnlock?)
    ensures Inv(Apply(s, step))
  {
    var r := Apply(s, step);
    assert TaskOk(s, s.cur);
    forall t | t in r.tasks ensures TaskOk(r, t) {
      assert TaskOk(s, t);
    }
  }

  lemma InterruptKeeps(s: State)
    requires Inv(s)
    ensures Inv(Apply(s, Interrupt))
  {
    var r := Apply(s, Interrupt);
    Top(s.stack, Entering, s.locks);
    InTop(s.stack, Entering);
    hide Counted, StackOk;
    forall t | t in r.tasks ensures TaskOk(r, t) {
      assert TaskOk(s, t);
    }
  }

  /** When the switch takes place nothing is owed and the flag is clear. */
  lemma DispatchKeeps(s: State, to: TaskId)
    requires Inv(s) && Enabled(s, Dispatch(to))
    ensures Inv(Apply(s, Dispatch(to))) && !s.owed && !s.pending && s.locks == 0
  {
    var r := Apply(s, Dispatch(to));
    forall t | t in r.tasks ensures TaskOk(r, t) {
      assert TaskOk(s, t);
    }
  }

  lemma StepKeeps(s: State, step: Step)
    requires Inv(s) && Enabled(s, step)
    ensures Inv(Apply(s, step))
  {
    hide Inv;
    match step
    case Interrupt => InterruptKeeps(s);
    case Handler(request) => HandlerKeeps(s, request);
    case TaskRequest => LockKeeps(s, step);
    case TaskLock => LockKeeps(s, step);
    case TaskUnlock => LockKeeps(s, step);
    case TaskNext => TaskKeeps(s);
    case Dispatch(to) => DispatchKeeps(s, to);
  }

  // ----- runs

  ghost predicate Start(s: State) {
    && s.nesting == s.locks == 0 && !s.pending && s.stack == [] && !s.switching && !s.owed
    && s.cur in s.tasks && forall t :: t in s.tasks ==> s.tasks[t] == Body
  }

  ghost predicate Runs(s: State, steps: seq<Step>, r: State)
    decreases |steps|
  {
    if steps == [] then r == s else Enabled(s, steps[0]) && Runs(Apply(s, steps[0]), steps[1..], r)
  }

  lemma {:induction false} RunsKeep(s: State, steps: seq<Step>, r: State)
    requires Inv(s) && Runs(s, steps, r)
    ensures Inv(r)
    decreases |steps|
  {
    hide Inv, Apply, Enabled;
    if steps != [] {
      StepKeeps(s, steps[0]);
      RunsKeep(Apply(s, steps[0]), steps[1..], r);
    }
  }

  /** No handler is open, the scheduler is not locked, and the running task is not inside an unlock. */
  predicate Quiet(s: State) {
    s.stack == [] && s.locks == 0 && s.cur in s.tasks && s.tasks[s.cur] != UnlockSwitch
  }

  /** In every reachable state: the flag is set only while a handler or a lock is open or the
      last exit is on its way to it; a deferred request still owed its switch has the flag, or
      a switch about to happen, to show for it; and once all is quiet nothing is owed. */
  lemma NoRequestLost(s: State, steps: seq<Step>, r: State)
    requires Start(s) && Runs(s, steps, r)
    ensures r.pending ==> r.nesting > 0 || r.locks > 0 || OnTheWay(r.stack)
    ensures r.owed ==> r.pending || ExitSwitch in r.stack || (r.cur in r.tasks && r.tasks[r.cur] == UnlockSwitch)
    ensures Quiet(r) ==> !r.owed && !r.pending
  {
    RunsKeep(s, steps, r);
  }

  /** The step that sets or clears what: a deferred request sets the flag, and only a context
      switch settles it; no switch happens under a handler that is not the outermost, nor
      under the scheduler lock. */
  lemma OnlySwitchesSettle(s: State, step: Step)
    requires Inv(s) && Enabled(s, step)
    ensures s.owed && !Apply(s, step).owed ==> Apply(s, step).switching
    ensures Apply(s, step).switching && !s.switching ==> s.nesting == 0 && s.locks == 0
  {
    hide Counted, StackOk;
    EmptyStack();
    if s.stack != [] {
      HandlerFacts(s);
    }
    if TaskRuns(s) {
      assert TaskOk(s, s.cur);
    }
  }

  lemma EmptyStack()
    ensures Counted([]) == 0
  {}

  /** The compare and exchange of an exit succeeds at the first attempt. */
  lemma ExitNeverRetries(s: State)
    requires Inv(s) && s.stack != [] && Last(s).Leaving?
    ensures Last(s).level == s.nesting > 0
  {
    OnTop(s);
    Top(Front(s), Last(s), s.locks);
  }

  // ----- the request is served

  /** A switch is outstanding: asked for and not yet made, or requested and not yet taken up. */
  predicate Due(s: State) {
    || s.owed || s.pending || s.switching || ExitSwitch in s.stack
    || (s.cur in s.tasks && s.tasks[s.cur] == UnlockSwitch)
  }

  lemma HandlerDue(s: State, request: bool)
    requires Inv(s) && Due(s) && s.stack != []
    ensures Due(HandlerStep(s, request))
  {
    OnTop(s);
    forall pc ensures forall x :: x in Front(s) + [pc] <==> x in Front(s) || x == pc {
      InTop(Front(s), pc);
    }
    hide Front, Inv;
  }

  lemma TaskDue(s: State, step: Step)
    requires Inv(s) && Enabled(s, step) && Due(s) && !step.Dispatch? && !step.Handler? && !step.Interrupt?
    ensures Due(Apply(s, step))
  {
    hide NestingOk, FlagOk, OwedOk;
  }

  /** A request made by a handler sets the flag; nothing else about the handlers changes. */
  lemma HandlerRequestIsDue(s: State, request: bool)
    requires Inv(s) && s.stack != [] && Last(s) == Body
    ensures var a := HandlerStep(s, true);
            a.stack != [] && var b := HandlerStep(a, request); b == s.(pending := true, owed := true) && Due(b)
  {
    HandlerFacts(s);
    hide Inv, Counted, StackOk;
    var a := HandlerStep(s, true);
    assert Last(a) == Store && Front(a) == Front(s);
    OnTop(s);
  }

  /** A request made by a task asks for the switch at once or, under the scheduler lock, sets the flag. */
  lemma TaskRequestIsDue(s: State)
    requires Inv(s) && Enabled(s, TaskRequest)
    ensures var a := Apply(s, TaskRequest);
            Enabled(a, TaskNext) && var b := Apply(a, TaskNext);
            Enabled(b, TaskNext) && var c := Apply(b, TaskNext);
            Due(c) && c == if s.locks > 0 then s.(pending := true, owed := true) else s.(switching := true, owed := false)
  {
    EmptyStack();
    var a := Apply(s, TaskRequest);
    var b := Apply(a, TaskNext);
    var c := Apply(b, TaskNext);
    hide TasksOk, StackOk;
    assert a.tasks == s.tasks[s.cur := AskLock];
    assert c.tasks == s.tasks[s.cur := Body] == s.tasks;
  }

  /** The scheduler lock nests: an unlock takes back what a lock did, unless it is the last one
      and finds the flag set. */
  lemma LockNests(s: State)
    requires Inv(s) && Enabled(s, TaskLock)
    ensures var a := Apply(s, TaskLock);
            a == s.(locks := s.locks + 1) && Enabled(a, TaskUnlock) && (s.locks > 0 || !s.pending ==> Apply(a, TaskUnlock) == s)
    ensures s.locks == 0 ==> Apply(s, TaskUnlock) == s
  {
    EmptyStack();
  }

  /** Whatever comes next, short of the switch itself, a switch that is due stays due. */
  lemma DueStays(s: State, step: Step)
    requires Inv(s) && Enabled(s, step) && Due(s) && !step.Dispatch?
    ensures Due(Apply(s, step))
  {
    match step
    case Handler(request) =>
      hide Inv, Due, HandlerStep;
      HandlerDue(s, request);
    case Interrupt =>
      InTop(s.stack, Entering);
      hide Inv;
    case _ =>
      hide Inv, Due, TaskRuns;
      TaskDue(s, step);
  }

  /** From any state in which a switch is due, the last unlock with the flag set and the last
      exit among them, and however many further interrupts, requests and calls come in between:
      once no handler is open and nothing is locked, the switch has been asked for. */
  lemma {:induction false} DueIsServed(s: State, steps: seq<Step>, r: State)
    requires Inv(s) && Due(s) && Runs(s, steps, r) && (forall i :: 0 <= i < |steps| ==> !steps[i].Dispatch?)
    ensures Quiet(r) ==> r.switching && !r.owed && !r.pending
    decreases |steps|
  {
    if steps == [] {
      EmptyStack();
    } else {
      hide Inv, Due, Apply, Enabled, Quiet;
      StepKeeps(s, steps[0]);
      DueStays(s, steps[0]);
      DueIsServed(Apply(s, steps[0]), steps[1..], r);
    }
  }

  /** The `n` next accesses of the innermost handler, none of them a new request. */
  function Proceed(s: State, n: nat): State
    decreases n
  {
    if n == 0 || s.stack == [] then s else Proceed(HandlerStep(s, false), n - 1)
  }

  /** How many accesses a handler makes at most until it has returned. */
  function AccessesLeft(pc: Pc): nat {
    match pc
    case Store => 8
    case Entering => 8
    case Body => 6
    case ExitLoad => 5
    case Leaving(_) => 4
    case LoadLock => 3
    case Exchange => 2
    case ExitSwitch => 1
    case _ => 0
  }

  function AllAccesses(stack: seq<Pc>): nat {
    if stack == [] then 0 else AllAccesses(stack[..|stack| - 1]) + AccessesLeft(stack[|stack| - 1])
  }

  lemma AccessesTop(below: seq<Pc>, pc: Pc)
    ensures AllAccesses(below + [pc]) == AllAccesses(below) + AccessesLeft(pc)
  {
    assert (below + [pc])[..|below|] == below;
  }

  /** Every access brings the handlers nearer to their end: no exit has to try again. */
  lemma AccessesFall(s: State)
    requires Inv(s) && s.stack != []
    ensures AllAccesses(HandlerStep(s, false).stack) < AllAccesses(s.stack)
  {
    HandlerFacts(s);
    OnTop(s);
    AccessesTop(Front(s), Last(s));
    forall pc ensures AllAccesses(Front(s) + [pc]) == AllAccesses(Front(s)) + AccessesLeft(pc) {
      AccessesTop(Front(s), pc);
    }
    hide Inv, AllAccesses, Front, Last, AccessesLeft;
    LastAccess(s);
  }

  /** The innermost handler either returns or goes on to where fewer accesses are left. */
  lemma LastAccess(s: State)
    requires s.stack != [] && (Last(s).Leaving? ==> Last(s).level == s.nesting > 0)
    requires Last(s) != AskLock && Last(s) != SwitchNow && Last(s) != UnlockSwitch
    ensures var r := HandlerStep(s, false).stack;
            || (r == Front(s) && AccessesLeft(Last(s)) > 0)
            || exists pc :: r == Front(s) + [pc] && AccessesLeft(pc) < AccessesLeft(Last(s))
  {
    var r := HandlerStep(s, false).stack;
    hide Front;
    if r != Front(s) {
      var pc :| r == Front(s) + [pc];
      assert (Front(s) + [pc])[|Front(s)|] == pc;
      assert AccessesLeft(pc) < AccessesLeft(Last(s));
    }
  }

  lemma {:induction false} Drains(s: State, n: nat)
    requires Inv(s) && Due(s) && n >= AllAccesses(s.stack)
    ensures Inv(Proceed(s, n)) && Due(Proceed(s, n)) && Proceed(s, n).stack == []
    decreases n
  {
    if s.stack != [] {
      AccessesFall(s);
      StepKeeps(s, Handler(false));
      DueStays(s, Handler(false));
      hide Inv, Due, AllAccesses;
      Drains(HandlerStep(s, false), n - 1);
    }
  }

  /** Left to themselves the handlers return within that many accesses, and then the switch has
      been asked for, or the running task is in an unlock whose next access asks for it. */
  lemma LeftAloneDueIsServed(s: State)
    requires Inv(s) && Due(s)
    ensures var r := Proceed(s, AllAccesses(s.stack));
            && r.stack == [] && (r.pending ==> r.locks > 0)
            && (r.locks == 0 ==> Asked(r) || (TaskRuns(r) && r.tasks[r.cur] == UnlockSwitch && Asked(Apply(r, TaskNext))))
  {
    Drains(s, AllAccesses(s.stack));
    EmptyStack();
    hide Proceed, AllAccesses;
  }

  predicate Asked(s: State) { s.switching && !s.owed && !s.pending }

  /** The last unlock takes the flag and, as its next access, asks for the switch. */
  lemma LastUnlockServes(s: State)
    requires Inv(s) && Enabled(s, TaskUnlock) && s.locks == 1 && s.pending
    ensures var r := Apply(s, TaskUnlock);
            Due(r) && r.locks == 0 && Enabled(r, TaskNext) && Asked(Apply(r, TaskNext))
  {
    EmptyStack();
  }

  /** The counters and the flag, changed in place one atomic access at a time. */
  class Interrupts {
    var nesting: nat
    var locks: nat
    var pending: bool
    var stack: seq<Pc>
    var tasks: map<TaskId, Pc>
    var cur: TaskId
    var switching: bool

    ghost var owed: bool

    ghost function Abs(): State
      reads this
    {
      State(nesting, locks, pending, stack, tasks, cur, switching, owed)
    }

    constructor (ids: set<TaskId>, first: TaskId)
      requires first in ids
      ensures Start(Abs()) && tasks.Keys == ids && cur == first
    {
      nesting, locks, pending, stack, switching, owed := 0, 0, false, [], false, false;
      tasks, cur := map t | t in ids :: Body, first;
    }

    /** `aixos_arch_context_switch`. */
    method ContextSwitch()
      modifies this`switching, this`owed
      ensures Abs() == Switch(old(Abs()))
    {
      switching, owed := true, false;
    }

    /** The innermost handler goes on to `pc`. */
    method Continue(pc: Pc)
      requires stack != []
      modifies this`stack
      ensures Abs() == Goto(old(Abs()), pc)
    {
      stack := stack[..|stack| - 1] + [pc];
    }

    method Leave()
      requires stack != []
      modifies this`stack
      ensures Abs() == Return(old(Abs()))
    {
      stack := stack[..|stack| - 1];
    }

    /** The compare and exchange of `aixos_isr_exit`. */
    method CountOut(level: nat)
      requires stack != [] && stack[|stack| - 1] == Leaving(level)
      modifies this`nesting, this`stack
      ensures Abs() == HandlerStep(old(Abs()), false)
    {
      if nesting != level || level == 0 {
        Continue(ExitLoad);
      } else {
        nesting := level - 1;
        if nesting == 0 {
          Continue(LoadLock);
        } else {
          Leave();
        }
      }
    }

    /** `aixos_isr_enter`, `aixos_reschedule_request` and `aixos_isr_exit`, as a handler runs
        through them. */
    method HandlerAccess(request: bool)
      requires stack != []
      modifies this
      ensures Abs() == HandlerStep(old(Abs()), request)
    {
      match stack[|stack| - 1]
      case Entering =>
        nesting := nesting + 1;
        Continue(Body);
      case Body => Continue(if !request then ExitLoad else if nesting != 0 then Store else AskLock);
      case AskLock => Continue(if locks != 0 then Store else SwitchNow);
      case Store =>
        pending, owed := true, true;
        Continue(Body);
      case SwitchNow =>
        Continue(Body);
        ContextSwitch();
      case ExitLoad =>
        if nesting == 0 {
          Leave();
        } else {
          Continue(Leaving(nesting));
        }
      case Leaving(level) => CountOut(level);
      case LoadLock =>
        if locks == 0 {
          Continue(Exchange);
        } else {
          Leave();
        }
      case Exchange =>
        if pending {
          pending := false;
          Continue(ExitSwitch);
        } else {
          Leave();
        }
      case ExitSwitch =>
        Leave();
        ContextSwitch();
      case UnlockSwitch =>
        Continue(Body);
        ContextSwitch();
    }

    /** `aixos_reschedule_request` and the end of `aixos_sched_unlock`, as a task runs through them. */
    method TaskAccess()
      requires TaskRuns(Abs())
      modifies this
      ensures Abs() == TaskStep(old(Abs()))
    {
      match tasks[cur]
      case AskLock => tasks := tasks[cur := if locks != 0 then Store else SwitchNow];
      case Store =>
        pending, owed := true, true;
        tasks := tasks[cur := Body];
      case SwitchNow =>
        tasks := tasks[cur := Body];
        ContextSwitch();
      case UnlockSwitch =>
        tasks := tasks[cur := Body];
        ContextSwitch();
      case _ =>
    }

    /** The critical section of `aixos_sched_unlock`. */
    method SchedUnlock()
      requires TaskRuns(Abs())
      modifies this`locks, this`pending, this`tasks
      ensures Abs() == if old(nesting) != 0 then old(Abs()) else Unlocked(old(Abs()))
    {
      if nesting != 0 || locks == 0 {
        return;
      }
      locks := locks - 1;
      if locks == 0 && pending {
        pending := false;
        tasks := tasks[cur := UnlockSwitch];
      }
    }

    /** Any access that can come next. */
    method Perform(step: Step)
      requires Inv(Abs()) && Enabled(Abs(), step)
      modifies this
      ensures Inv(Abs()) && Abs() == Apply(old(Abs()), step)
      ensures old(owed) && !owed ==> switching
      ensures switching && !old(switching) ==> old(nesting) == 0 && old(locks) == 0
      ensures Due(old(Abs())) && !step.Dispatch? ==> Due(Abs())
    {
      StepKeeps(Abs(), step);
      OnlySwitchesSettle(Abs(), step);
      if Due(Abs()) && !step.Dispatch? {
        DueStays(Abs(), step);
      }
      hide Inv, HandlerStep, TaskStep, Unlocked, Due;
      match step
      case Interrupt => stack := stack + [Entering];
      case Handler(request) => HandlerAccess(request);
      case TaskRequest => tasks := tasks[cur := if nesting != 0 then Store else AskLock];
      case TaskLock =>
        if nesting == 0 {
          locks := locks + 1;
        }
      case TaskUnlock => SchedUnlock();
      case TaskNext => TaskAccess();
      case Dispatch(to) => cur, switching := to, false;
    }
  }
}
