/** Object slots and the handles that name them: an index and a 24-bit generation that is
    never 0 while the slot is in use. */
module Handles {
  const GENERATIONS: nat := 0x100_0000
  const INDEXES: nat := 256
  const SLOTS_MAX: nat := 32
  /** The 32-bit pattern of -1. */
  const INVALID: nat := 0xFFFF_FFFF
  const NULL: nat := 0

  datatype Slot = Slot(used: bool, generation: nat, kind: nat, obj: nat)

  // ----- handles

  function Make(index: nat, generation: nat): nat {
    generation % GENERATIONS * INDEXES + index % INDEXES
  }

  function Index(h: nat): nat { h % INDEXES }

  function Generation(h: nat): nat { h / INDEXES % GENERATIONS }

  /** Index and generation can be read back, a generation other than 0 gives a handle other
      than 0, and one handle in 2^32 looks like the invalid one. */
  lemma MakeExact(index: nat, generation: nat)
    requires index < INDEXES && generation < GENERATIONS
    ensures Index(Make(index, generation)) == index && Generation(Make(index, generation)) == generation
    ensures Make(index, generation) <= 0xFFFF_FFFF
    ensures Make(index, generation) == 0 <==> index == 0 && generation == 0
    ensures Make(index, generation) == INVALID <==> index == INDEXES - 1 && generation == GENERATIONS - 1
  {}

  // ----- generations

  function NextGeneration(g: nat): nat {
    var n := (g + 1) % GENERATIONS;
    if n == 0 then 1 else n
  }

  /** The generation of a slot that has been allocated `n` times. */
  function GenerationAfter(n: nat): nat {
    if n == 0 then 0 else (n - 1) % (GENERATIONS - 1) + 1
  }

  lemma GenerationStep(n: nat)
    ensures NextGeneration(GenerationAfter(n)) == GenerationAfter(n + 1)
  {
    if n > 0 {
      var m := GENERATIONS - 1;
      var q, r := (n - 1) / m, (n - 1) % m;
      assert n - 1 == m * q + r;
      if r + 1 == m {
        assert n == m * (q + 1);
        assert n % m == 0;
      } else {
        assert n == m * q + (r + 1);
        assert n % m == r + 1;
      }
    }
  }

  /** A generation comes round again after 2^24 - 1 allocations, not sooner. */
  lemma GenerationRepeats(a: nat, b: nat)
    requires 0 < a <= b
    ensures GenerationAfter(b) == GenerationAfter(a) <==> (b - a) % (GENERATIONS - 1) == 0
  {
    var m := GENERATIONS - 1;
    var qa, qb := (a - 1) / m, (b - 1) / m;
    assert a - 1 == m * qa + (a - 1) % m && b - 1 == m * qb + (b - 1) % m;
    assert b - a == m * (qb - qa) + ((b - 1) % m - (a - 1) % m);
  }

  // ----- slots

  /** `allocs` counts, for the statements only, how often each slot has been allocated. */
  datatype Table = Table(slots: seq<Slot>, allocs: seq<nat>)

  /** The lowest free slot, or the number of slots. */
  function FirstFree(slots: seq<Slot>): (i: nat)
    ensures i <= |slots| && (i < |slots| ==> !slots[i].used)
    ensures forall k :: 0 <= k < i ==> slots[k].used
  {
    if slots == [] || !slots[0].used then 0 else 1 + FirstFree(slots[1..])
  }

  function Allocated(s: Slot, kind: nat, obj: nat): Slot {
    Slot(true, NextGeneration(s.generation), kind, obj)
  }

  datatype Op = Alloc(obj: nat) | Free(index: int)

  /** `aixos_slot_alloc` and `aixos_slot_free`. */
  function Apply(t: Table, kind: nat, op: Op): Table
    requires |t.allocs| == |t.slots|
  {
    match op
    case Alloc(obj) =>
      var i := FirstFree(t.slots);
      if i == |t.slots| then t
      else Table(t.slots[i := Allocated(t.slots[i], kind, obj)], t.allocs[i := t.allocs[i] + 1])
    case Free(index) =>
      if 0 <= index < |t.slots| && t.slots[index].used
      then t.(slots := t.slots[index := t.slots[index].(used := false, obj := NULL)])
      else t
  }

  /** An allocation fails exactly when every slot is in use; otherwise the lowest free one holds
      the object, in its next generation, and no other slot changes. */
  lemma AllocAnswers(t: Table, kind: nat, obj: nat)
    requires |t.allocs| == |t.slots|
    ensures var r := Apply(t, kind, Alloc(obj)); var i := FirstFree(t.slots);
            && (r == t <== forall k :: 0 <= k < |t.slots| ==> t.slots[k].used)
            && ((exists k :: 0 <= k < |t.slots| && !t.slots[k].used) ==>
                  && i < |t.slots| == |r.slots| && !t.slots[i].used && (forall k :: 0 <= k < i ==> t.slots[k].used)
                  && r.slots[i] == Slot(true, NextGeneration(t.slots[i].generation), kind, obj)
                  && forall k :: 0 <= k < |t.slots| && k != i ==> r.slots[k] == t.slots[k])
  {
    var i := FirstFree(t.slots);
    assert i < |t.slots| ==> !t.slots[i].used;
  }

  /** Freeing a slot in use makes it free, and no other slot changes. */
  lemma FreeAnswers(t: Table, kind: nat, index: int)
    requires |t.allocs| == |t.slots|
    ensures var r := Apply(t, kind, Free(index));
            && |r.slots| == |t.slots| && r.allocs == t.allocs
            && (forall k :: 0 <= k < |t.slots| ==> (r.slots[k].used <==> t.slots[k].used && k != index))
            && (forall k :: 0 <= k < |t.slots| && !(k == index && t.slots[k].used) ==> r.slots[k] == t.slots[k])
  {}

  predicate SlotOk(t: Table, kind: nat, i: nat)
    requires i < |t.slots| && i < |t.allocs|
  {
    && t.slots[i].generation == GenerationAfter(t.allocs[i])
    && (t.slots[i].used ==> t.allocs[i] > 0 && t.slots[i].kind == kind)
  }

  ghost predicate Inv(t: Table, kind: nat) {
    |t.allocs| == |t.slots| <= INDEXES && forall i :: 0 <= i < |t.slots| ==> SlotOk(t, kind, i)
  }

  lemma StepKeeps(t: Table, kind: nat, op: Op)
    requires Inv(t, kind)
    ensures Inv(Apply(t, kind, op), kind) && |Apply(t, kind, op).slots| == |t.slots|
  {
    var r := Apply(t, kind, op);
    hide GenerationAfter, NextGeneration;
    forall i | 0 <= i < |r.slots| ensures SlotOk(r, kind, i) {
      assert SlotOk(t, kind, i);
      GenerationStep(t.allocs[i]);
    }
  }

  /** `aixos_slot_handle`. */
  function HandleOf(slots: seq<Slot>, index: int): nat {
    if 0 <= index < |slots| && slots[index].used then Make(index, slots[index].generation) else INVALID
  }

  /** `aixos_obj_from_handle`, in the pool that holds objects of that kind. */
  function Resolve(slots: seq<Slot>, h: nat, kind: nat): nat {
    var i := Index(h);
    if i < |slots| && slots[i].used && slots[i].generation == Generation(h) && slots[i].kind == kind
    then slots[i].obj else NULL
  }

  lemma GenerationRange(n: nat)
    ensures GenerationAfter(n) < GENERATIONS && (n > 0 ==> GenerationAfter(n) > 0)
  {}

  /** A slot in use has a handle that is not 0 and leads back to its object; it is mistaken
      for the invalid handle exactly at the last index and the last generation. */
  lemma LiveHandle(t: Table, kind: nat, i: nat)
    requires Inv(t, kind) && i < |t.slots| && t.slots[i].used
    ensures HandleOf(t.slots, i) != 0 && Resolve(t.slots, HandleOf(t.slots, i), kind) == t.slots[i].obj
    ensures HandleOf(t.slots, i) == INVALID <==> i == INDEXES - 1 && t.slots[i].generation == GENERATIONS - 1
  {
    assert SlotOk(t, kind, i);
    GenerationRange(t.allocs[i]);
    MakeExact(i, t.slots[i].generation);
  }

  // ----- runs

  ghost predicate Runs(t: Table, kind: nat, ops: seq<Op>, r: Table)
    requires |t.allocs| == |t.slots|
    decreases |ops|
  {
    if ops == [] then r == t
    else var next := Apply(t, kind, ops[0]); |next.allocs| == |next.slots| && Runs(next, kind, ops[1..], r)
  }

  /** Allocation counts only grow; while a slot's count stands still the slot holds what it
      held, or is free. */
  ghost predicate Since(t: Table, r: Table, i: nat)
    requires i < |t.slots| && i < |t.allocs| && i < |r.slots| && i < |r.allocs|
  {
    && t.allocs[i] <= r.allocs[i]
    && (t.allocs[i] == r.allocs[i] ==>
          r.slots[i].generation == t.slots[i].generation && (r.slots[i].used ==> r.slots[i] == t.slots[i]))
  }

  lemma SinceStep(t: Table, s: Table, kind: nat, op: Op, i: nat)
    requires Inv(t, kind) && Inv(s, kind) && |s.slots| == |t.slots| && i < |t.slots| && Since(t, s, i)
    ensures |Apply(s, kind, op).slots| == |t.slots| == |Apply(s, kind, op).allocs| && Since(t, Apply(s, kind, op), i)
  {
    hide NextGeneration, GenerationAfter;
  }

  lemma {:induction false} RunsSince(t: Table, s: Table, kind: nat, ops: seq<Op>, r: Table, i: nat)
    requires Inv(t, kind) && Inv(s, kind) && |s.slots| == |t.slots| && i < |t.slots| && Since(t, s, i)
    requires Runs(s, kind, ops, r)
    ensures Inv(r, kind) && |r.slots| == |t.slots| && Since(t, r, i)
    decreases |ops|
  {
    hide Apply, Since;
    if ops != [] {
      StepKeeps(s, kind, ops[0]);
      SinceStep(t, s, kind, ops[0], i);
      RunsSince(t, Apply(s, kind, ops[0]), kind, ops[1..], r, i);
    }
  }

  /** What a handle is worth later. While its slot has not been allocated again it leads to
      its own object or, once that is freed, to nothing; after that it leads to nothing until
      the slot has been allocated again a multiple of 2^24 - 1 times. */
  lemma HandleLater(t: Table, kind: nat, i: nat, ops: seq<Op>, r: Table)
    requires Inv(t, kind) && i < |t.slots| && t.slots[i].used && Runs(t, kind, ops, r)
    ensures Inv(r, kind) && |r.slots| == |t.slots| && t.allocs[i] <= r.allocs[i]
    ensures var h := HandleOf(t.slots, i); var again := r.allocs[i] - t.allocs[i];
            && (again == 0 ==> Resolve(r.slots, h, kind) == if r.slots[i].used then t.slots[i].obj else NULL)
            && (again % (GENERATIONS - 1) != 0 ==> Resolve(r.slots, h, kind) == NULL)
            && (again % (GENERATIONS - 1) == 0 ==> Resolve(r.slots, h, kind) == if r.slots[i].used then r.slots[i].obj else NULL)
  {
    RunsSince(t, t, kind, ops, r, i);
    assert SlotOk(t, kind, i) && SlotOk(r, kind, i);
    hide Apply, Runs;
    GenerationRange(t.allocs[i]);
    GenerationRepeats(t.allocs[i], r.allocs[i]);
    hide GenerationAfter, Make, Index, Generation;
    MakeExact(i, t.slots[i].generation);
  }

  // ----- every slot and every generation is reached

  /** A table of `n` slots that have never been used. */
  function Empty(n: nat): Table { Table(seq(n, _ => Slot(false, 0, 0, NULL)), seq(n, _ => 0)) }

  lemma RunsFirst(t: Table, kind: nat, op: Op, ops: seq<Op>, r: Table)
    requires |t.allocs| == |t.slots| && |Apply(t, kind, op).allocs| == |Apply(t, kind, op).slots|
    requires Runs(Apply(t, kind, op), kind, ops, r)
    ensures Runs(t, kind, [op] + ops, r)
  {
    assert ([op] + ops)[1..] == ops;
  }

  lemma {:induction false} RunsJoin(t: Table, kind: nat, a: seq<Op>, m: Table, b: seq<Op>, r: Table)
    requires |t.allocs| == |t.slots| && |m.allocs| == |m.slots| && Runs(t, kind, a, m) && Runs(m, kind, b, r)
    ensures Runs(t, kind, a + b, r)
    decreases |a|
  {
    if a == [] {
      assert a + b == b;
    } else {
      assert (a + b)[0] == a[0] && (a + b)[1..] == a[1..] + b;
      hide Apply;
      RunsJoin(Apply(t, kind, a[0]), kind, a[1..], m, b, r);
    }
  }

  lemma {:induction false} FirstFreeIs(slots: seq<Slot>, i: nat)
    requires i < |slots| && !slots[i].used && forall k :: 0 <= k < i ==> slots[k].used
    ensures FirstFree(slots) == i
  {
    if i > 0 {
      assert slots[1..][i - 1] == slots[i];
      FirstFreeIs(slots[1..], i - 1);
    }
  }

  /** The slots below `i` are in use and the others have never been. */
  ghost predicate FilledTo(t: Table, i: nat) {
    && i <= |t.slots| == |t.allocs|
    && (forall k :: 0 <= k < i ==> t.slots[k].used)
    && forall k :: i <= k < |t.slots| ==> !t.slots[k].used && t.allocs[k] == 0
  }

  /** Allocating `j - i` times more fills the slots up to `j`. */
  lemma {:induction false} FillUp(t: Table, kind: nat, i: nat, j: nat) returns (ops: seq<Op>, r: Table)
    requires Inv(t, kind) && FilledTo(t, i) && i <= j <= |t.slots|
    ensures Inv(r, kind) && Runs(t, kind, ops, r) && FilledTo(r, j) && |r.slots| == |t.slots|
    decreases j - i
  {
    ops, r := [], t;
    if i < j {
      var s := Apply(t, kind, Alloc(NULL));
      StepKeeps(t, kind, Alloc(NULL));
      FirstFreeIs(t.slots, i);
      assert FilledTo(s, i + 1);
      hide Inv;
      var rest;
      rest, r := FillUp(s, kind, i + 1, j);
      RunsFirst(t, kind, Alloc(NULL), rest, r);
      ops := [Alloc(NULL)] + rest;
    }
  }

  /** Slots up to `i` are in use, and slot `i` has been allocated `n` times. */
  ghost predicate Reached(t: Table, kind: nat, i: nat, n: nat) {
    Inv(t, kind) && i < |t.slots| && t.allocs[i] == n && forall k :: 0 <= k <= i ==> t.slots[k].used
  }

  /** Freeing a slot above slots in use and allocating again takes the same slot. */
  lemma OnceMore(t: Table, kind: nat, i: nat, n: nat)
    requires Reached(t, kind, i, n)
    ensures var m := Apply(t, kind, Free(i));
            |m.allocs| == |m.slots| && Reached(Apply(m, kind, Alloc(NULL)), kind, i, n + 1)
            && |Apply(m, kind, Alloc(NULL)).slots| == |t.slots|
  {
    var m := Apply(t, kind, Free(i));
    StepKeeps(t, kind, Free(i));
    StepKeeps(m, kind, Alloc(NULL));
    FirstFreeIs(m.slots, i);
  }

  /** From an empty table, for every slot and every count from 1 on, a run after which the slot
      is in use and has been allocated that often. */
  lemma {:induction false} SlotReached(size: nat, kind: nat, i: nat, n: nat) returns (ops: seq<Op>, r: Table)
    requires i < size <= INDEXES && n > 0
    ensures Runs(Empty(size), kind, ops, r) && Reached(r, kind, i, n) && |r.slots| == size
    decreases n
  {
    var start := Empty(size);
    if n == 1 {
      assert Inv(start, kind) && FilledTo(start, 0);
      ops, r := FillUp(start, kind, 0, i);
      var last := Apply(r, kind, Alloc(NULL));
      StepKeeps(r, kind, Alloc(NULL));
      FirstFreeIs(r.slots, i);
      RunsFirst(r, kind, Alloc(NULL), [], last);
      RunsJoin(start, kind, ops, r, [Alloc(NULL)] + [], last);
      ops, r := ops + ([Alloc(NULL)] + []), last;
    } else {
      ops, r := SlotReached(size, kind, i, n - 1);
      hide Empty, Runs, Apply;
      OnceMore(r, kind, i, n - 1);
      var freed := Apply(r, kind, Free(i));
      var last := Apply(freed, kind, Alloc(NULL));
      TwoOps(r, kind, Free(i), freed, Alloc(NULL), last);
      RunsJoin(start, kind, ops, r, [Free(i), Alloc(NULL)], last);
      ops, r := ops + [Free(i), Alloc(NULL)], last;
    }
  }

  lemma TwoOps(t: Table, kind: nat, a: Op, m: Table, b: Op, r: Table)
    requires |t.allocs| == |t.slots| && m == Apply(t, kind, a) && |m.allocs| == |m.slots| && r == Apply(m, kind, b)
    requires |r.allocs| == |r.slots|
    ensures Runs(t, kind, [a, b], r)
  {
    hide Apply;
    assert Runs(r, kind, [], r);
    RunsFirst(m, kind, b, [], r);
    RunsFirst(t, kind, a, [b], r);
    assert [a] + [b] == [a, b] && [b] + [] == [b];
  }

  /** So a table of all 256 indexes comes to give out a live handle that is the invalid one. */
  lemma InvalidHandleReached(kind: nat) returns (ops: seq<Op>, r: Table)
    ensures Runs(Empty(INDEXES), kind, ops, r) && Inv(r, kind) && |r.slots| == INDEXES
    ensures r.slots[INDEXES - 1].used && HandleOf(r.slots, INDEXES - 1) == INVALID
  {
    hide Runs, Empty, Make;
    ops, r := SlotReached(INDEXES, kind, INDEXES - 1, GENERATIONS - 1);
    assert SlotOk(r, kind, INDEXES - 1);
    LiveHandle(r, kind, INDEXES - 1);
  }

  // ----- counting

  function UsedCount(slots: seq<Slot>): nat {
    if slots == [] then 0 else (if slots[0].used then 1 else 0) + UsedCount(slots[1..])
  }
}
