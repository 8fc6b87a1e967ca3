/** Bits of a 64-bit word: setting, clearing and finding the highest. */
module BitWords {
  predicate BitAt(w: bv64, i: bv6) { (w >> (i as bv64)) & 1 == 1 }

  function MaskAt(i: bv6): bv64 { 1 << (i as bv64) }

  lemma SetAt(w: bv64, i: bv6, j: bv6)
    ensures BitAt(w | MaskAt(i), j) <==> i == j || BitAt(w, j)
  {}

  lemma ClearAt(w: bv64, i: bv6, j: bv6)
    ensures BitAt(w & !MaskAt(i), j) <==> i != j && BitAt(w, j)
  {}

  function Pos(i: nat): bv6
    requires i < 64
  {
    i as bv6
  }

  lemma PosBack(i: nat)
    requires i < 64
    ensures Pos(i) as nat == i
  {}

  lemma PosInjective(i: nat, j: nat)
    requires i < 64 && j < 64
    ensures Pos(i) == Pos(j) <==> i == j
  {
    hide Pos;
    PosBack(i);
    PosBack(j);
  }

  predicate Bit(w: bv64, i: nat)
    requires i < 64
  {
    BitAt(w, Pos(i))
  }

  function Mask(i: nat): bv64
    requires i < 64
  {
    MaskAt(Pos(i))
  }

  function SetIn(w: bv64, i: nat): bv64
    requires i < 64
  {
    w | Mask(i)
  }

  function ClearIn(w: bv64, i: nat): bv64
    requires i < 64
  {
    w & !Mask(i)
  }

  /** Or-ing a mask in sets one bit ... */
  lemma SetBit(w: bv64, i: nat, j: nat)
    requires i < 64 && j < 64
    ensures Bit(SetIn(w, i), j) <==> i == j || Bit(w, j)
  {
    hide BitAt, MaskAt, Pos;
    PosInjective(i, j);
    SetAt(w, Pos(i), Pos(j));
  }

  /** ... and and-ing its complement clears one. */
  lemma ClearBit(w: bv64, i: nat, j: nat)
    requires i < 64 && j < 64
    ensures Bit(ClearIn(w, i), j) <==> i != j && Bit(w, j)
  {
    hide BitAt, MaskAt, Pos;
    PosInjective(i, j);
    ClearAt(w, Pos(i), Pos(j));
  }

  /** Position of the highest set bit below `i`; 64 when there is none. */
  function HighestBit(w: bv64, i: nat): (r: nat)
    requires i <= 64
    ensures r <= 64 && (r < 64 ==> r < i && Bit(w, r))
    ensures forall j :: 0 <= j < i && (r < j || r == 64) ==> !Bit(w, j)
  {
    if i == 0 then 64 else if Bit(w, i - 1) then i - 1 else HighestBit(w, i - 1)
  }

  lemma ZeroWord(i: nat)
    requires i < 64
    ensures !Bit(0, i)
  {
    assert forall b: bv6 :: !BitAt(0, b);
  }

  lemma AllClear(w: bv64)
    requires forall b: bv6 :: !BitAt(w, b)
    ensures w == 0
  {
    assert !BitAt(w, 0) && !BitAt(w, 1) && !BitAt(w, 2) && !BitAt(w, 3) && !BitAt(w, 4) && !BitAt(w, 5) && !BitAt(w, 6) && !BitAt(w, 7);
    assert !BitAt(w, 8) && !BitAt(w, 9) && !BitAt(w, 10) && !BitAt(w, 11) && !BitAt(w, 12) && !BitAt(w, 13) && !BitAt(w, 14) && !BitAt(w, 15);
    assert !BitAt(w, 16) && !BitAt(w, 17) && !BitAt(w, 18) && !BitAt(w, 19) && !BitAt(w, 20) && !BitAt(w, 21) && !BitAt(w, 22) && !BitAt(w, 23);
    assert !BitAt(w, 24) && !BitAt(w, 25) && !BitAt(w, 26) && !BitAt(w, 27) && !BitAt(w, 28) && !BitAt(w, 29) && !BitAt(w, 30) && !BitAt(w, 31);
    assert !BitAt(w, 32) && !BitAt(w, 33) && !BitAt(w, 34) && !BitAt(w, 35) && !BitAt(w, 36) && !BitAt(w, 37) && !BitAt(w, 38) && !BitAt(w, 39);
    assert !BitAt(w, 40) && !BitAt(w, 41) && !BitAt(w, 42) && !BitAt(w, 43) && !BitAt(w, 44) && !BitAt(w, 45) && !BitAt(w, 46) && !BitAt(w, 47);
    assert !BitAt(w, 48) && !BitAt(w, 49) && !BitAt(w, 50) && !BitAt(w, 51) && !BitAt(w, 52) && !BitAt(w, 53) && !BitAt(w, 54) && !BitAt(w, 55);
    assert !BitAt(w, 56) && !BitAt(w, 57) && !BitAt(w, 58) && !BitAt(w, 59) && !BitAt(w, 60) && !BitAt(w, 61) && !BitAt(w, 62) && !BitAt(w, 63);
  }

  lemma PosOnto(b: bv6)
    ensures (b as nat) < 64 && Pos(b as nat) == b
  {}

  /** A word is zero iff none of its bits is set. */
  lemma NonZeroHasBit(w: bv64)
    ensures w != 0 <==> HighestBit(w, 64) < 64
  {
    hide BitAt, Pos;
    if HighestBit(w, 64) == 64 {
      forall b: bv6 ensures !BitAt(w, b) {
        PosOnto(b);
        assert !Bit(w, b as nat);
      }
      AllClear(w);
    } else if w == 0 {
      ZeroWord(HighestBit(w, 64));
    }
  }

  /** `__builtin_clzll` on a non-zero word. */
  function LeadingZeros(w: bv64): nat
    requires w != 0
  {
    NonZeroHasBit(w);
    63 - HighestBit(w, 64)
  }
}
