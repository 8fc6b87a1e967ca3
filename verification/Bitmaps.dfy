/** Bits of a 32-bit word, for the free bitmaps of the object pools. */
module Bitmaps {
  predicate BitAt(w: bv32, i: bv5) { (w >> (i as bv32)) & 1 == 1 }

  function MaskAt(i: bv5): bv32 { 1 << (i as bv32) }

  lemma SetAt(w: bv32, i: bv5, j: bv5)
    ensures BitAt(w | MaskAt(i), j) <==> i == j || BitAt(w, j)
  {}

  lemma ClearAt(w: bv32, i: bv5, j: bv5)
    ensures BitAt(w & !MaskAt(i), j) <==> i != j && BitAt(w, j)
  {}

  lemma ShiftAt(w: bv32, i: bv5)
    requires i < 31
    ensures BitAt(w >> 1, i) <==> BitAt(w, i + 1)
  {}

  lemma ShiftTop(w: bv32)
    ensures !BitAt(w >> 1, 31)
    ensures BitAt(w, 0) <==> w & 1 == 1
  {}

  function Pos(i: nat): bv5
    requires i < 32
  {
    i as bv5
  }

  lemma PosInjective(i: nat, j: nat)
    requires i < 32 && j < 32
    ensures Pos(i) == Pos(j) <==> i == j
  {
    PosBack(i);
    PosBack(j);
  }

  lemma PosBack(i: nat)
    requires i < 32
    ensures Pos(i) as nat == i
  {}

  lemma PosNext(i: nat)
    requires i < 31
    ensures Pos(i + 1) == Pos(i) + 1 && Pos(i) < 31
  {}

  lemma PosEnds()
    ensures Pos(0) == 0 && Pos(31) == 31
  {}

  predicate Bit(w: bv32, i: nat)
    requires i < 32
  {
    BitAt(w, Pos(i))
  }

  function SetIn(w: bv32, i: nat): bv32
    requires i < 32
  {
    w | MaskAt(Pos(i))
  }

  function ClearIn(w: bv32, i: nat): bv32
    requires i < 32
  {
    w & !MaskAt(Pos(i))
  }

  lemma SetBit(w: bv32, i: nat, j: nat)
    requires i < 32 && j < 32
    ensures Bit(SetIn(w, i), j) <==> i == j || Bit(w, j)
  {
    hide BitAt, MaskAt, Pos;
    PosInjective(i, j);
    SetAt(w, Pos(i), Pos(j));
  }

  lemma ClearBit(w: bv32, i: nat, j: nat)
    requires i < 32 && j < 32
    ensures Bit(ClearIn(w, i), j) <==> i != j && Bit(w, j)
  {
    hide BitAt, MaskAt, Pos;
    PosInjective(i, j);
    ClearAt(w, Pos(i), Pos(j));
  }

  /** Shifting right by one moves every bit one place down. */
  lemma ShiftBit(w: bv32, i: nat)
    requires i < 32
    ensures Bit(w >> 1, i) <==> i < 31 && Bit(w, i + 1)
    ensures Bit(w, 0) <==> w & 1 == 1
  {
    hide BitAt, Pos;
    PosEnds();
    ShiftTop(w);
    if i < 31 {
      PosNext(i);
      ShiftAt(w, Pos(i));
    }
  }

  lemma AllClear(w: bv32)
    requires forall b: bv5 :: !BitAt(w, b)
    ensures w == 0
  {
    assert !BitAt(w, 0) && !BitAt(w, 1) && !BitAt(w, 2) && !BitAt(w, 3) && !BitAt(w, 4) && !BitAt(w, 5) && !BitAt(w, 6) && !BitAt(w, 7);
    assert !BitAt(w, 8) && !BitAt(w, 9) && !BitAt(w, 10) && !BitAt(w, 11) && !BitAt(w, 12) && !BitAt(w, 13) && !BitAt(w, 14) && !BitAt(w, 15);
    assert !BitAt(w, 16) && !BitAt(w, 17) && !BitAt(w, 18) && !BitAt(w, 19) && !BitAt(w, 20) && !BitAt(w, 21) && !BitAt(w, 22) && !BitAt(w, 23);
    assert !BitAt(w, 24) && !BitAt(w, 25) && !BitAt(w, 26) && !BitAt(w, 27) && !BitAt(w, 28) && !BitAt(w, 29) && !BitAt(w, 30) && !BitAt(w, 31);
  }

  lemma PosOnto(b: bv5)
    ensures (b as nat) < 32 && Pos(b as nat) == b
  {}

  /** A word is zero iff it has no bit. */
  lemma NoBits(w: bv32)
    ensures w == 0 <==> forall i :: 0 <= i < 32 ==> !Bit(w, i)
  {
    hide BitAt, Pos;
    if forall i :: 0 <= i < 32 ==> !Bit(w, i) {
      forall b: bv5 ensures !BitAt(w, b) {
        PosOnto(b);
        assert !Bit(w, b as nat);
      }
      AllClear(w);
    }
    if w == 0 {
      forall i | 0 <= i < 32 ensures !Bit(w, i) {
        ZeroBit(Pos(i));
      }
    }
  }

  lemma ZeroBit(b: bv5)
    ensures !BitAt(0, b)
  {}

  /** `(1 << n) - 1`, or all ones for 32. */
  function LowMask(n: nat): bv32
    requires n <= 32
  {
    if n == 0 then 0 else SetIn(LowMask(n - 1), n - 1)
  }

  lemma {:induction false} LowMaskBits(n: nat, i: nat)
    requires n <= 32 && i < 32
    ensures Bit(LowMask(n), i) <==> i < n
    decreases n
  {
    hide Bit, SetIn;
    if n > 0 {
      SetBit(LowMask(n - 1), n - 1, i);
      LowMaskBits(n - 1, i);
    } else {
      ZeroWord(i);
    }
  }

  lemma ZeroWord(i: nat)
    requires i < 32
    ensures !Bit(0, i)
  {
    hide BitAt;
    ZeroBit(Pos(i));
  }

  /** `~free & mask` has exactly the bits below `n` that `free` has not. */
  lemma UsedBits(free: bv32, mask: bv32, i: nat)
    requires i < 32
    ensures Bit(!free & mask, i) <==> !Bit(free, i) && Bit(mask, i)
  {
    hide Pos;
    UsedAt(free, mask, Pos(i));
  }

  lemma UsedAt(free: bv32, mask: bv32, i: bv5)
    ensures BitAt(!free & mask, i) <==> !BitAt(free, i) && BitAt(mask, i)
  {}
}
