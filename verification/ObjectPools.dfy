/** The object pools: slots in an array, a bitmap of the free ones, and for tasks a table of
    pages that are allocated when they are first needed. */
module ObjectPools {
  import opened Bitmaps
  import opened Handles

  const PAGE: nat := 16
  const PAGES: nat := 16

  /** A bit of the bitmap is set exactly for a slot that is there and not in use. */
  ghost predicate Agrees(free: bv32, slots: seq<Slot>) {
    |slots| <= SLOTS_MAX && forall i :: 0 <= i < SLOTS_MAX ==> (Bit(free, i) <==> i < |slots| && !slots[i].used)
  }

  lemma {:induction false} NoneFree(slots: seq<Slot>)
    requires forall k :: 0 <= k < |slots| ==> slots[k].used
    ensures FirstFree(slots) == |slots|
  {
    if slots != [] {
      NoneFree(slots[1..]);
    }
  }

  /** A bitmap of 0 means that every slot is in use. */
  lemma NoBitNoSlot(free: bv32, slots: seq<Slot>)
    requires Agrees(free, slots)
    ensures free == 0 <==> FirstFree(slots) == |slots|
  {
    NoBits(free);
    hide Bit;
    if free == 0 {
      forall k | 0 <= k < |slots| ensures slots[k].used {
        assert !Bit(free, k);
      }
      NoneFree(slots);
    } else {
      var i :| 0 <= i < SLOTS_MAX && Bit(free, i);
      assert !slots[i].used;
    }
  }

  lemma ClearedAgrees(free: bv32, slots: seq<Slot>, i: nat, s: Slot)
    requires Agrees(free, slots) && i < |slots| && s.used
    ensures Agrees(ClearIn(free, i), slots[i := s])
  {
    hide Bit, ClearIn;
    forall k | 0 <= k < SLOTS_MAX ensures Bit(ClearIn(free, i), k) <==> k < |slots| && !slots[i := s][k].used {
      ClearBit(free, i, k);
    }
  }

  lemma SetAgrees(free: bv32, slots: seq<Slot>, i: nat, s: Slot)
    requires Agrees(free, slots) && i < |slots| && !s.used
    ensures Agrees(SetIn(free, i), slots[i := s])
  {
    hide Bit, SetIn;
    forall k | 0 <= k < SLOTS_MAX ensures Bit(SetIn(free, i), k) <==> k < |slots| && !slots[i := s][k].used {
      SetBit(free, i, k);
    }
  }

  // ----- bit counts

  function Half(w: bv32): bv32 { w >> 1 }

  function UsedOf(free: bv32, n: nat): bv32
    requires n <= SLOTS_MAX
  {
    !free & LowMask(n)
  }

  function Ones(w: bv32, n: nat): nat
    requires n <= SLOTS_MAX
  {
    if n == 0 then 0 else (if Bit(w, 0) then 1 else 0) + Ones(Half(w), n - 1)
  }

  lemma {:induction false} ZeroOnes(n: nat)
    requires n <= SLOTS_MAX
    ensures Ones(0, n) == 0
  {
    hide Bit;
    if n > 0 {
      ZeroWord(0);
      assert Half(0) == 0;
      ZeroOnes(n - 1);
    }
  }

  /** The set bits of a word that shows which slots are in use are as many as those slots. */
  lemma {:induction false} OnesAreUsed(w: bv32, slots: seq<Slot>, n: nat)
    requires |slots| <= n <= SLOTS_MAX
    requires forall i :: 0 <= i < n ==> (Bit(w, i) <==> i < |slots| && slots[i].used)
    ensures Ones(w, n) == UsedCount(slots)
    decreases n
  {
    hide Bit;
    if n > 0 {
      var rest := if slots == [] then [] else slots[1..];
      forall i | 0 <= i < n - 1 ensures Bit(Half(w), i) <==> i < |rest| && rest[i].used {
        ShiftBit(w, i);
        assert Bit(w, i + 1) <==> i + 1 < |slots| && slots[i + 1].used;
      }
      hide Half;
      OnesAreUsed(Half(w), rest, n - 1);
    }
  }

  /** `w` is `start` shifted right `i` times. */
  ghost predicate Shifted(start: bv32, w: bv32, i: nat) {
    i <= SLOTS_MAX && forall k :: i <= k < SLOTS_MAX ==> (Bit(w, k - i) <==> Bit(start, k))
  }

  lemma ShiftedNext(start: bv32, w: bv32, i: nat)
    requires Shifted(start, w, i) && i < SLOTS_MAX
    ensures Shifted(start, w >> 1, i + 1)
    ensures w & 1 == 1 <==> Bit(start, i)
  {
    hide Bit;
    ShiftBit(w, 0);
    forall k | i + 1 <= k < SLOTS_MAX ensures Bit(w >> 1, k - (i + 1)) <==> Bit(start, k) {
      ShiftBit(w, k - (i + 1));
    }
    assert Bit(w, i - i) <==> Bit(start, i);
  }

  lemma SetBitBelow(w: bv32)
    requires w != 0
    ensures exists i :: 0 <= i < SLOTS_MAX && Bit(w, i)
  {
    NoBits(w);
  }

  /** The loop of the allocator: the lowest set bit of a word that has one. */
  method LowestBit(word: bv32) returns (i: nat)
    requires word != 0
    ensures i < SLOTS_MAX && Bit(word, i) && forall k :: 0 <= k < i ==> !Bit(word, k)
  {
    hide Bit;
    var available := word;
    i := 0;
    SetBitBelow(word);
    ghost var top :| 0 <= top < SLOTS_MAX && Bit(word, top);
    while available & 1 == 0
      invariant i <= top && Shifted(word, available, i)
      invariant forall k :: 0 <= k < i ==> !Bit(word, k)
      decreases SLOTS_MAX - i
    {
      ShiftedNext(word, available, i);
      LowBits(available);
      available := available >> 1;
      i := i + 1;
    }
    ShiftedNext(word, available, i);
    LowBits(available);
  }

  lemma LowBits(w: bv32)
    ensures w & 1 == 0 || w & 1 == 1
  {}

  class Pool {
    const slots: array<Slot>
    const kind: nat
    var freeBitmap: bv32

    ghost var allocs: seq<nat>

    ghost function Abs(): Table
      reads this, slots
    {
      Table(slots[..], allocs)
    }

    ghost predicate Valid()
      reads this, slots
    {
      slots.Length <= SLOTS_MAX && Inv(Abs(), kind) && Agrees(freeBitmap, slots[..])
    }

    /** `aixos_object_init`, for one pool. */
    constructor (maxCount: nat, kind: nat)
      requires 0 < maxCount <= SLOTS_MAX
      ensures Valid() && fresh(slots) && slots.Length == maxCount && this.kind == kind
      ensures forall i :: 0 <= i < maxCount ==> slots[i] == Slot(false, 0, 0, NULL) && allocs[i] == 0
    {
      slots := new Slot[maxCount](_ => Slot(false, 0, 0, NULL));
      this.kind, freeBitmap, allocs := kind, LowMask(maxCount), seq(maxCount, _ => 0);
      new;
      hide Bit, LowMask;
      forall i | 0 <= i < SLOTS_MAX ensures Bit(LowMask(maxCount), i) <==> i < maxCount {
        LowMaskBits(maxCount, i);
      }
    }

    /** `aixos_slot_alloc`: the lowest free slot, in its next generation. */
    method Allocate(obj: nat) returns (index: int)
      requires Valid()
      modifies this`freeBitmap, this`allocs, slots
      ensures Valid() && Abs() == Apply(old(Abs()), kind, Alloc(obj))
      ensures index == if FirstFree(old(slots[..])) == slots.Length then -1 else FirstFree(old(slots[..]))
    {
      hide Bit, ClearIn, Agrees, Inv;
      StepKeeps(Abs(), kind, Alloc(obj));
      NoBitNoSlot(freeBitmap, slots[..]);
      if freeBitmap == 0 {
        return -1;
      }
      var i := LowestBit(freeBitmap);
      LowestIsFirst(freeBitmap, slots[..], i);
      ClearedAgrees(freeBitmap, slots[..], i, Allocated(slots[i], kind, obj));
      LengthsAgree(Abs(), kind);
      freeBitmap := ClearIn(freeBitmap, i);
      slots[i] := Allocated(slots[i], kind, obj);
      allocs := allocs[i := allocs[i] + 1];
      index := i;
    }

    /** `aixos_slot_free`: nothing for a slot that is not in use. */
    method Release(index: int)
      requires Valid()
      modifies this`freeBitmap, slots
      ensures Valid() && Abs() == Apply(old(Abs()), kind, Free(index))
    {
      hide Bit, SetIn, Agrees, Inv;
      StepKeeps(Abs(), kind, Free(index));
      LengthsAgree(Abs(), kind);
      if 0 <= index < slots.Length && slots[index].used {
        SetAgrees(freeBitmap, slots[..], index, slots[index].(used := false, obj := NULL));
        slots[index] := slots[index].(used := false, obj := NULL);
        freeBitmap := SetIn(freeBitmap, index);
      }
    }

    /** `aixos_pool_get_usage`: the bits clear in the bitmap are the slots in use. */
    method Usage() returns (count: nat)
      requires Valid()
      ensures count == UsedCount(slots[..])
    {
      var used := UsedOf(freeBitmap, slots.Length);
      UsedWord(freeBitmap, slots[..]);
      OnesAreUsed(used, slots[..], SLOTS_MAX);
      hide Bit, LowMask, UsedOf;
      count := 0;
      ghost var n: nat := SLOTS_MAX;
      while used != 0
        invariant n <= SLOTS_MAX && count + Ones(used, n) == UsedCount(slots[..])
        invariant n == 0 ==> used == 0
        invariant forall k :: n <= k < SLOTS_MAX ==> !Bit(used, k)
        decreases n
      {
        ShiftBit(used, 0);
        LowBits(used);
        HighBits(used, n);
        count := count + if used & 1 == 1 then 1 else 0;
        used := Half(used);
        n := n - 1;
      }
      ZeroOnes(n);
    }
  }

  lemma LengthsAgree(t: Table, kind: nat)
    requires Inv(t, kind)
    ensures |t.allocs| == |t.slots|
  {}

  lemma LowestIsFirst(free: bv32, slots: seq<Slot>, i: nat)
    requires Agrees(free, slots) && i < SLOTS_MAX && Bit(free, i) && forall k :: 0 <= k < i ==> !Bit(free, k)
    ensures i < |slots| && FirstFree(slots) == i
  {
    hide Bit;
    forall k | 0 <= k < i ensures slots[k].used {
      assert !Bit(free, k);
    }
    FirstFreeIs(slots, i);
  }

  lemma UsedOfBits(free: bv32, n: nat, i: nat)
    requires n <= SLOTS_MAX && i < SLOTS_MAX
    ensures Bit(UsedOf(free, n), i) <==> !Bit(free, i) && i < n
  {
    hide Bit, LowMask;
    UsedBits(free, LowMask(n), i);
    LowMaskBits(n, i);
  }

  lemma UsedWord(free: bv32, slots: seq<Slot>)
    requires Agrees(free, slots)
    ensures forall i :: 0 <= i < SLOTS_MAX ==> (Bit(UsedOf(free, |slots|), i) <==> i < |slots| && slots[i].used)
  {
    hide Bit, UsedOf;
    forall i | 0 <= i < SLOTS_MAX ensures Bit(UsedOf(free, |slots|), i) <==> i < |slots| && slots[i].used {
      UsedOfBits(free, |slots|, i);
    }
  }

  /** Shifting a word without bits from `n` on leaves one without bits from `n - 1` on. */
  lemma HighBits(w: bv32, n: nat)
    requires 0 < n <= SLOTS_MAX && forall k :: n <= k < SLOTS_MAX ==> !Bit(w, k)
    ensures forall k :: n - 1 <= k < SLOTS_MAX ==> !Bit(Half(w), k)
    ensures n == 1 ==> Half(w) == 0
  {
    hide Bit;
    forall k | n - 1 <= k < SLOTS_MAX ensures !Bit(Half(w), k) {
      ShiftBit(w, k);
    }
    NoBits(Half(w));
  }

  // ----- the task table

  datatype MaybePage = Absent | Present(slots: seq<Slot>, free: bv32)

  function EmptySlots(): (s: seq<Slot>)
    ensures |s| == PAGE
  {
    seq(PAGE, _ => Slot(false, 0, 0, NULL))
  }

  function PageSlots(p: MaybePage): (s: seq<Slot>) {
    if p.Absent? then EmptySlots() else p.slots
  }

  ghost predicate PageOk(p: MaybePage) {
    |PageSlots(p)| == PAGE && (p.Present? ==> Agrees(p.free, p.slots))
  }

  /** The slots of all pages in a row; a page that is not there yet counts as free. */
  function Flat(ps: seq<MaybePage>): seq<Slot> {
    if ps == [] then [] else Flat(ps[..|ps| - 1]) + PageSlots(ps[|ps| - 1])
  }

  ghost predicate PagesOk(ps: seq<MaybePage>) { forall k :: 0 <= k < |ps| ==> PageOk(ps[k]) }

  lemma {:induction false} FlatLength(ps: seq<MaybePage>)
    requires PagesOk(ps)
    ensures |Flat(ps)| == PAGE * |ps|
  {
    hide PageOk;
    if ps != [] {
      FlatLength(ps[..|ps| - 1]);
      PageLength(ps[|ps| - 1]);
    }
  }

  lemma PageLength(p: MaybePage)
    requires PageOk(p)
    ensures |PageSlots(p)| == PAGE
  {}

  lemma {:induction false} FlatAt(ps: seq<MaybePage>, k: nat, j: nat)
    requires PagesOk(ps) && k < |ps| && j < PAGE
    ensures |Flat(ps)| == PAGE * |ps| && |PageSlots(ps[k])| == PAGE && PAGE * k + j < |Flat(ps)|
    ensures Flat(ps)[PAGE * k + j] == PageSlots(ps[k])[j]
  {
    hide PageOk;
    FlatLength(ps);
    PageLength(ps[k]);
    var front := ps[..|ps| - 1];
    FlatLength(front);
    if k < |ps| - 1 {
      FlatAt(front, k, j);
    }
  }

  /** Changing one slot of one page changes that slot of the row and no other. */
  lemma FlatUpdate(ps: seq<MaybePage>, k: nat, p: MaybePage, j: nat, s: Slot)
    requires PagesOk(ps) && k < |ps| && j < PAGE && PageOk(p) && |PageSlots(ps[k])| == PAGE
    requires PageSlots(p) == PageSlots(ps[k])[j := s]
    ensures PagesOk(ps[k := p]) && PAGE * k + j < |Flat(ps)|
    ensures Flat(ps[k := p]) == Flat(ps)[PAGE * k + j := s]
  {
    hide PageOk, Flat;
    var qs := ps[k := p];
    FlatLength(ps);
    FlatLength(qs);
    forall i | 0 <= i < PAGE * |ps| ensures Flat(qs)[i] == Flat(ps)[PAGE * k + j := s][i] {
      FlatAt(ps, i / PAGE, i % PAGE);
      FlatAt(qs, i / PAGE, i % PAGE);
    }
  }

  /** A page that appears, all free, changes nothing in the row. */
  lemma FlatSame(ps: seq<MaybePage>, k: nat, p: MaybePage)
    requires PagesOk(ps) && k < |ps| && PageOk(p) && PageSlots(p) == PageSlots(ps[k])
    ensures PagesOk(ps[k := p]) && Flat(ps[k := p]) == Flat(ps)
  {
    hide PageOk, Flat;
    var qs := ps[k := p];
    FlatLength(ps);
    FlatLength(qs);
    forall i | 0 <= i < PAGE * |ps| ensures Flat(qs)[i] == Flat(ps)[i] {
      FlatAt(ps, i / PAGE, i % PAGE);
      FlatAt(qs, i / PAGE, i % PAGE);
    }
  }

  ghost predicate FullPage(p: MaybePage) {
    p.Present? && FirstFree(p.slots) == |p.slots|
  }

  /** The lowest free slot of the row is that of the first page that is not full. */
  lemma FlatFirstFree(ps: seq<MaybePage>, k: nat)
    requires PagesOk(ps) && k < |ps| && forall l :: 0 <= l < k ==> FullPage(ps[l])
    requires FirstFree(PageSlots(ps[k])) < |PageSlots(ps[k])|
    ensures |Flat(ps)| == PAGE * |ps|
    ensures FirstFree(Flat(ps)) == PAGE * k + FirstFree(PageSlots(ps[k])) < PAGE * |ps|
  {
    hide PageOk, Flat, FullPage;
    var j := FirstFree(PageSlots(ps[k]));
    PageLength(ps[k]);
    FlatAt(ps, k, j);
    forall i | 0 <= i < PAGE * k + j ensures Flat(ps)[i].used {
      UsedBelow(ps, k, j, i);
    }
    FirstFreeIs(Flat(ps), PAGE * k + j);
  }

  lemma UsedBelow(ps: seq<MaybePage>, k: nat, j: nat, i: nat)
    requires PagesOk(ps) && k < |ps| && (forall l :: 0 <= l < k ==> FullPage(ps[l])) && j < PAGE
    requires j <= |PageSlots(ps[k])| && (forall m :: 0 <= m < j ==> PageSlots(ps[k])[m].used) && i < PAGE * k + j
    ensures i < |Flat(ps)| && Flat(ps)[i].used
  {
    hide PageOk, Flat;
    FlatAt(ps, i / PAGE, i % PAGE);
    if i / PAGE < k {
      assert FullPage(ps[i / PAGE]);
    }
  }

  lemma FlatFull(ps: seq<MaybePage>)
    requires PagesOk(ps) && forall l :: 0 <= l < |ps| ==> FullPage(ps[l])
    ensures FirstFree(Flat(ps)) == |Flat(ps)| == PAGE * |ps|
  {
    hide PageOk, Flat;
    FlatLength(ps);
    forall i | 0 <= i < PAGE * |ps| ensures Flat(ps)[i].used {
      FlatAt(ps, i / PAGE, i % PAGE);
    }
    NoneFree(Flat(ps));
  }

  function FreshPage(): MaybePage { Present(EmptySlots(), LowMask(PAGE)) }

  lemma FreshPageOk()
    ensures PageOk(FreshPage()) && PageSlots(FreshPage()) == EmptySlots() == PageSlots(Absent)
    ensures FirstFree(EmptySlots()) == 0
  {
    hide Bit, LowMask;
    forall i | 0 <= i < SLOTS_MAX ensures Bit(LowMask(PAGE), i) <==> i < PAGE {
      LowMaskBits(PAGE, i);
    }
  }

  /** Task slots: the same table, in pages. */
  class TaskTable {
    const pages: array<MaybePage>
    const kind: nat

    ghost var allocs: seq<nat>

    ghost function Abs(): Table
      reads this, pages
    {
      Table(Flat(pages[..]), allocs)
    }

    ghost predicate Valid()
      reads this, pages
    {
      pages.Length == PAGES && PagesOk(pages[..]) && Inv(Abs(), kind)
    }

    constructor (kind: nat)
      ensures Valid() && fresh(pages) && this.kind == kind
      ensures forall k :: 0 <= k < PAGES ==> pages[k] == Absent
    {
      pages := new MaybePage[PAGES](_ => Absent);
      this.kind, allocs := kind, seq(PAGE * PAGES, _ => 0);
      new;
      hide Flat;
      FlatLength(pages[..]);
      forall i | 0 <= i < PAGE * PAGES ensures Flat(pages[..])[i] == Slot(false, 0, 0, NULL) {
        FlatAt(pages[..], i / PAGE, i % PAGE);
      }
      forall i | 0 <= i < PAGE * PAGES ensures SlotOk(Abs(), kind, i) {}
    }

    /** Takes the lowest free slot of a page that has one. */
    method Occupy(pageIndex: nat, obj: nat) returns (index: int)
      requires Valid() && pageIndex < PAGES && pages[pageIndex].Present? && !FullPage(pages[pageIndex])
      requires forall l :: 0 <= l < pageIndex ==> FullPage(pages[l])
      modifies this`allocs, pages
      ensures Valid() && Abs() == Apply(old(Abs()), kind, Alloc(obj))
      ensures index == FirstFree(Flat(old(pages[..]))) < PAGE * PAGES
    {
      hide Flat, PageOk, Bit, Inv, ClearIn, Agrees;
      var page := pages[pageIndex];
      ghost var ps := pages[..];
      PageFull(page);
      PageAgrees(page);
      var i := LowestBit(page.free);
      LowestIsFirst(page.free, page.slots, i);
      FlatFirstFree(ps, pageIndex);
      StepKeeps(Abs(), kind, Alloc(obj));
      LengthsAgree(Abs(), kind);
      var slot := Allocated(page.slots[i], kind, obj);
      ClearedAgrees(page.free, page.slots, i, slot);
      var changed := Present(page.slots[i := slot], ClearIn(page.free, i));
      PageIs(changed);
      FlatUpdate(ps, pageIndex, changed, i, slot);
      FlatAt(ps, pageIndex, i);
      pages[pageIndex] := changed;
      index := PAGE * pageIndex + i;
      allocs := allocs[index := allocs[index] + 1];
      assert pages[..] == ps[pageIndex := changed];
    }

    /** `aixos_slot_free` of a task slot. */
    method Release(index: int)
      requires Valid()
      modifies pages
      ensures Valid() && Abs() == Apply(old(Abs()), kind, Free(index))
    {
      hide Flat, PageOk, Bit, Inv, SetIn, Agrees;
      ghost var ps := pages[..];
      StepKeeps(Abs(), kind, Free(index));
      LengthsAgree(Abs(), kind);
      FlatLength(ps);
      if index < 0 || index >= PAGE * PAGES {
        return;
      }
      var k, j := index / PAGE, index % PAGE;
      FlatAt(ps, k, j);
      if pages[k].Absent? || !pages[k].slots[j].used {
        return;
      }
      var page := pages[k];
      PageAgrees(page);
      var slot := page.slots[j].(used := false, obj := NULL);
      SetAgrees(page.free, page.slots, j, slot);
      var changed := Present(page.slots[j := slot], SetIn(page.free, j));
      PageIs(changed);
      FlatUpdate(ps, k, changed, j, slot);
      pages[k] := changed;
      assert pages[..] == ps[k := changed];
    }

    /** `aixos_obj_from_handle` for a task handle. */
    method Lookup(h: nat) returns (obj: nat)
      requires Valid()
      ensures obj == Resolve(Flat(pages[..]), h, kind)
    {
      hide Flat, PageOk, Inv, Generation;
      var index := Index(h);
      FlatAt(pages[..], index / PAGE, index % PAGE);
      var page := pages[index / PAGE];
      if page.Absent? {
        return NULL;
      }
      var slot := page.slots[index % PAGE];
      obj := if slot.used && slot.generation == Generation(h) && slot.kind == kind then slot.obj else NULL;
    }

    /** `task_slot_alloc`: the lowest free slot of all; the first page with room is created
        if it is not there, and without memory for it the allocation fails. */
    method Allocate(obj: nat, memoryOk: bool) returns (index: int)
      requires Valid()
      modifies this`allocs, pages
      ensures Valid() && Abs() == if index == -1 then old(Abs()) else Apply(old(Abs()), kind, Alloc(obj))
      ensures index != -1 ==> index == FirstFree(Flat(old(pages[..])))
      ensures index == -1 <==> FirstFree(Flat(old(pages[..]))) == PAGE * PAGES
                               || (!memoryOk && NoRoom(old(pages[..])))
    {
      var pageIndex := 0;
      hide Flat, PageOk, Bit, LowMask, Inv;
      while pageIndex < PAGES
        invariant pageIndex <= PAGES && pages[..] == old(pages[..])
        invariant forall l :: 0 <= l < pageIndex ==> FullPage(pages[l])
        invariant Valid() && allocs == old(allocs)
      {
        var page := pages[pageIndex];
        if page.Absent? {
          FreshPageOk();
          FlatFirstFree(pages[..], pageIndex);
          if !memoryOk {
            assert NoRoom(pages[..]);
            return -1;
          }
          FlatSame(pages[..], pageIndex, FreshPage());
          pages[pageIndex] := FreshPage();
          index := Occupy(pageIndex, obj);
          return;
        }
        PageFull(page);
        if page.free != 0 {
          FlatFirstFree(pages[..], pageIndex);
          index := Occupy(pageIndex, obj);
          return;
        }
        pageIndex := pageIndex + 1;
      }
      FlatFull(pages[..]);
      index := -1;
    }
  }

  /** The first page that is not full is not there. */
  ghost predicate NoRoom(ps: seq<MaybePage>) {
    exists k :: 0 <= k < |ps| && ps[k].Absent? && forall l :: 0 <= l < k ==> FullPage(ps[l])
  }

  lemma PageAgrees(p: MaybePage)
    requires PageOk(p) && p.Present?
    ensures Agrees(p.free, p.slots) && |p.slots| == PAGE
  {}

  lemma PageIs(p: MaybePage)
    requires p.Present? && Agrees(p.free, p.slots) && |p.slots| == PAGE
    ensures PageOk(p)
  {}

  lemma PageFull(p: MaybePage)
    requires PageOk(p) && p.Present?
    ensures p.free == 0 <==> FullPage(p)
    ensures p.free != 0 ==> FirstFree(p.slots) < |p.slots| == PAGE
  {
    NoBitNoSlot(p.free, p.slots);
  }
}
