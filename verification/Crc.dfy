/** CRC-32 as section 8 of RFC 1952 defines it, one shift and conditional exclusive or a
    bit: a linear bijection of the register, which is why no short burst escapes it. */
module Crc {
  const POLYNOMIAL: bv32 := 0xEDB8_8320
  const ONES: bv32 := 0xFFFF_FFFF

  /** One bit of the inner loop. */
  function Shift(s: bv32): bv32 {
    (s >> 1) ^ (POLYNOMIAL & (0 - (s & 1)))
  }

  function Unshift(s: bv32): bv32 {
    if s & 0x8000_0000 != 0 then ((s ^ POLYNOMIAL) << 1) | 1 else s << 1
  }

  lemma ShiftLinear(a: bv32, b: bv32)
    ensures Shift(a ^ b) == Shift(a) ^ Shift(b)
  {
    assert (a ^ b) & 1 == (a & 1) ^ (b & 1);
    assert (a ^ b) >> 1 == (a >> 1) ^ (b >> 1);
    assert a & 1 == 0 || a & 1 == 1;
    assert b & 1 == 0 || b & 1 == 1;
  }

  lemma LowBit(s: bv32)
    ensures s & 1 == 0 || s & 1 == 1
    ensures s & 1 == 0 ==> Shift(s) == s >> 1
    ensures s & 1 == 1 ==> Shift(s) == (s >> 1) ^ POLYNOMIAL
  {}

  lemma Halves(s: bv32)
    ensures (s >> 1) & 0x8000_0000 == 0
    ensures ((s >> 1) ^ POLYNOMIAL) & 0x8000_0000 != 0
    ensures s & 1 == 0 ==> (s >> 1) << 1 == s
    ensures s & 1 == 1 ==> ((s >> 1) << 1) | 1 == s
  {}

  lemma Doubles(s: bv32)
    ensures (s << 1) & 1 == 0
    ensures s & 0x8000_0000 == 0 ==> (s << 1) >> 1 == s
    ensures ((s << 1) | 1) & 1 == 1
    ensures s & 0x8000_0000 == 0 ==> ((s << 1) | 1) >> 1 == s
  {}

  lemma XorTwice(a: bv32, b: bv32)
    ensures (a ^ b) ^ b == a
  {}

  lemma TopCleared(s: bv32)
    requires s & 0x8000_0000 != 0
    ensures (s ^ POLYNOMIAL) & 0x8000_0000 == 0
  {}

  /** The step loses nothing: the top bit tells whether the polynomial was added. */
  lemma ShiftBijective(s: bv32)
    ensures Unshift(Shift(s)) == s && Shift(Unshift(s)) == s
  {
    hide Shift;
    LowBit(s);
    Halves(s);
    XorTwice(s >> 1, POLYNOMIAL);
    if s & 0x8000_0000 != 0 {
      TopCleared(s);
      Doubles(s ^ POLYNOMIAL);
      XorTwice(s, POLYNOMIAL);
    } else {
      Doubles(s);
    }
    LowBit(Unshift(s));
  }

  function Shifts(s: bv32, n: nat): bv32
    decreases n
  {
    if n == 0 then s else Shifts(Shift(s), n - 1)
  }

  function Xor(a: bv32, b: bv32): bv32 { a ^ b }

  lemma XorShift(a: bv32, b: bv32)
    ensures Shift(Xor(a, b)) == Xor(Shift(a), Shift(b))
  {
    hide Shift;
    ShiftLinear(a, b);
  }

  lemma {:induction false} ShiftsLinear(a: bv32, b: bv32, n: nat)
    ensures Shifts(Xor(a, b), n) == Xor(Shifts(a, n), Shifts(b, n))
    decreases n
  {
    hide Shift, Xor;
    if n > 0 {
      XorShift(a, b);
      ShiftsLinear(Shift(a), Shift(b), n - 1);
    }
  }

  lemma {:induction false} ShiftsCompose(s: bv32, m: nat, n: nat)
    ensures Shifts(s, m + n) == Shifts(Shifts(s, m), n)
    decreases m
  {
    if m > 0 {
      ShiftsCompose(Shift(s), m - 1, n);
    }
  }

  /** A non-zero register stays non-zero. */
  lemma {:induction false} ShiftsNonZero(s: bv32, n: nat)
    ensures Shifts(s, n) == 0 <==> s == 0
    decreases n
  {
    if n > 0 {
      assert Shift(s) == 0 <==> s == 0 by {
        ShiftBijective(s);
        ShiftBijective(0);
      }
      ShiftsNonZero(Shift(s), n - 1);
    }
  }

  /** One byte. */
  function Eat(s: bv32, b: bv8): bv32 {
    Shifts(s ^ (b as bv32), 8)
  }

  function Register(s: bv32, bytes: seq<bv8>): bv32
    decreases |bytes|
  {
    if bytes == [] then s else Register(Eat(s, bytes[0]), bytes[1..])
  }

  function Crc32(bytes: seq<bv8>): bv32 {
    !Register(ONES, bytes)
  }

  lemma StepDown(w: bv32)
    requires w < 0x8000_0000
    ensures Shift(w << 1) == w
  {
    LowBit(w << 1);
    Doubles(w);
  }

  function Double(w: bv32): bv32 { w << 1 }

  predicate Low(w: bv32) { w < 0x8000_0000 }

  lemma Ups(w: bv32)
    requires w < 0x100_0000
    ensures var w1 := Double(w); var w2 := Double(w1); var w3 := Double(w2); var w4 := Double(w3);
            var w5 := Double(w4); var w6 := Double(w5); var w7 := Double(w6);
            && Low(w) && Low(w1) && Low(w2) && Low(w3) && Low(w4) && Low(w5) && Low(w6) && Low(w7)
            && Double(w7) == w << 8
  {}

  lemma DoubleDown(w: bv32, n: nat)
    requires Low(w) && n > 0
    ensures Shifts(Double(w), n) == Shifts(w, n - 1)
  {
    StepDown(w);
    hide Shift;
  }

  /** Eight steps bring the next byte down untouched. */
  lemma EightSteps(w: bv32)
    requires w < 0x100_0000
    ensures Shifts(w << 8, 8) == w
  {
    hide Shifts, Double, Low;
    Ups(w);
    var w1 := Double(w);
    var w2 := Double(w1);
    var w3 := Double(w2);
    var w4 := Double(w3);
    var w5 := Double(w4);
    var w6 := Double(w5);
    var w7 := Double(w6);
    assert Double(w7) == w << 8;
    DoubleDown(w7, 8);
    DoubleDown(w6, 7);
    DoubleDown(w5, 6);
    DoubleDown(w4, 5);
    DoubleDown(w3, 4);
    DoubleDown(w2, 3);
    DoubleDown(w1, 2);
    DoubleDown(w, 1);
    ShiftsNone(w);
  }

  lemma ShiftsNone(w: bv32)
    ensures Shifts(w, 0) == w
  {}

  // ----- bursts

  lemma XorAssociates(a: bv32, b: bv32, c: bv32)
    ensures (a ^ b) ^ c == a ^ (b ^ c)
  {}

  lemma XorCommutes(a: bv32, b: bv32)
    ensures a ^ b == b ^ a
  {}

  lemma XorSelf(a: bv32)
    ensures Xor(a, a) == 0
  {}

  lemma XorNothing(a: bv32)
    ensures Xor(a, 0) == a && Xor(0, a) == a
  {}

  lemma XorBack(a: bv32, b: bv32)
    ensures Xor(Xor(a, b), b) == a
  {
    XorTwice(a, b);
  }

  lemma XorZero(a: bv32, b: bv32)
    ensures Xor(a, b) == 0 <==> a == b
    ensures Xor(a, 0) == a
  {
    hide Xor;
    XorSelf(b);
    XorNothing(a);
    XorNothing(b);
    XorBack(a, b);
  }

  lemma XorAssoc(a: bv32, b: bv32, c: bv32)
    ensures Xor(Xor(a, b), c) == Xor(a, Xor(b, c))
  {
    XorAssociates(a, b, c);
  }

  lemma XorSwap(a: bv32, b: bv32)
    ensures Xor(a, b) == Xor(b, a)
  {
    XorCommutes(a, b);
  }

  lemma XorLaws(a: bv32, b: bv32, c: bv32, d: bv32)
    ensures Xor(Xor(a, b), Xor(c, d)) == Xor(Xor(a, c), Xor(b, d))
    ensures Xor(Xor(a, b), c) == Xor(a, Xor(b, c))
    ensures Xor(a, b) == 0 <==> a == b
    ensures Xor(a, 0) == a
  {
    XorZero(a, b);
    hide Xor;
    XorAssoc(a, b, c);
    XorAssoc(a, b, Xor(c, d));
    XorAssoc(b, c, d);
    XorSwap(b, c);
    XorAssoc(c, b, d);
    XorAssoc(a, c, Xor(b, d));
  }

  /** Different registers stay different over the same bytes. */
  lemma {:induction false} SameTail(s: bv32, t: bv32, bytes: seq<bv8>)
    requires s != t
    ensures Register(s, bytes) != Register(t, bytes)
    decreases |bytes|
  {
    hide Shifts, Xor;
    if bytes != [] {
      var b := bytes[0] as bv32;
      EatIs(s, bytes[0]);
      EatIs(t, bytes[0]);
      ShiftsLinear(Xor(s, b), Xor(t, b), 8);
      XorLaws(s, b, t, b);
      XorLaws(b, b, b, b);
      XorLaws(s, t, s, t);
      XorLaws(Xor(s, t), 0, 0, 0);
      ShiftsNonZero(Xor(s, t), 8);
      XorLaws(Shifts(Xor(s, b), 8), Shifts(Xor(t, b), 8), 0, 0);
      hide Eat;
      SameTail(Eat(s, bytes[0]), Eat(t, bytes[0]), bytes[1..]);
    }
  }

  lemma EatIs(s: bv32, b: bv8)
    ensures Eat(s, b) == Shifts(Xor(s, b as bv32), 8)
  {
    hide Shifts;
  }

  lemma {:induction false} RegisterConcat(s: bv32, a: seq<bv8>, b: seq<bv8>)
    ensures Register(s, a + b) == Register(Register(s, a), b)
    decreases |a|
  {
    hide Eat;
    if a == [] {
      assert a + b == b;
    } else {
      assert (a + b)[1..] == a[1..] + b;
      RegisterConcat(Eat(s, a[0]), a[1..], b);
    }
  }

  /** Up to four differences as one little-endian word. */
  function Word(a: seq<bv8>, b: seq<bv8>): bv32
    requires |a| == |b|
    decreases |a|
  {
    if a == [] then 0 else Join(Difference(a[0], b[0]), Word(a[1..], b[1..]))
  }

  function Difference(a: bv8, b: bv8): bv8 { a ^ b }

  function Join(low: bv8, rest: bv32): bv32 { (low as bv32) ^ (rest << 8) }

  predicate Narrow(w: bv32, n: nat) {
    match n
    case 0 => w == 0
    case 1 => w < 0x100
    case 2 => w < 0x1_0000
    case 3 => w < 0x100_0000
    case _ => true
  }

  lemma JoinNarrow(low: bv8, rest: bv32, n: nat)
    requires n < 4 && Narrow(rest, n)
    ensures Narrow(Join(low, rest), n + 1)
    ensures Join(low, rest) == 0 ==> low == 0 && rest == 0
    ensures rest < 0x100_0000
  {
    if n == 0 {
      JoinBounds(low, rest);
    } else if n == 1 {
      JoinBounds(low, rest);
    } else {
      JoinBounds(low, rest);
    }
  }

  lemma JoinBounds(low: bv8, rest: bv32)
    requires rest < 0x100_0000
    ensures rest == 0 ==> Join(low, rest) < 0x100
    ensures rest < 0x100 ==> Join(low, rest) < 0x1_0000
    ensures rest < 0x1_0000 ==> Join(low, rest) < 0x100_0000
    ensures Join(low, rest) == 0 ==> low == 0 && rest == 0
  {}

  lemma {:induction false} WordNarrow(a: seq<bv8>, b: seq<bv8>)
    requires |a| == |b| <= 4
    ensures Narrow(Word(a, b), |a|)
    ensures Word(a, b) == 0 ==> a == b
    decreases |a|
  {
    if a != [] {
      hide Join;
      WordNarrow(a[1..], b[1..]);
      hide Narrow;
      JoinNarrow(Difference(a[0], b[0]), Word(a[1..], b[1..]), |a| - 1);
      SameByte(a[0], b[0]);
      assert a == [a[0]] + a[1..] && b == [b[0]] + b[1..];
    }
  }

  lemma SameByte(a: bv8, b: bv8)
    ensures Difference(a, b) == 0 <==> a == b
  {}

  lemma WideByte(a: bv8, b: bv8, w: bv32)
    ensures Join(Difference(a, b), w) == Xor(Xor(a as bv32, b as bv32), w << 8)
  {}

  /** Two registers over two short byte strings: their difference is the difference of the
      registers and the word of the bytes, shifted. */
  lemma {:induction false} Differences(s: bv32, t: bv32, a: seq<bv8>, b: seq<bv8>)
    requires |a| == |b| <= 4
    ensures Xor(Register(s, a), Register(t, b)) == Shifts(Xor(Xor(s, t), Word(a, b)), 8 * |a|)
    decreases |a|
  {
    hide Shifts, Xor, Join, Eat, Word, Register, Narrow, Wide, Difference;
    if a == [] {
      NothingEaten(s, t, a, b);
    } else {
      var w, m := Word(a[1..], b[1..]), 8 * (|a| - 1);
      WordNarrow(a[1..], b[1..]);
      RegisterIs(s, a);
      RegisterIs(t, b);
      WordIs(a, b);
      Differences(Eat(s, a[0]), Eat(t, b[0]), a[1..], b[1..]);
      EatBoth(s, t, a[0], b[0]);
      DifferenceStep(Xor(s, t), a[0], b[0], w, |a| - 1, m);
      assert 8 + m == 8 * |a|;
    }
  }

  lemma NothingEaten(s: bv32, t: bv32, a: seq<bv8>, b: seq<bv8>)
    requires |a| == |b| == 0
    ensures Xor(Register(s, a), Register(t, b)) == Shifts(Xor(Xor(s, t), Word(a, b)), 0)
  {
    hide Xor;
    XorLaws(Xor(s, t), 0, 0, 0);
  }

  lemma RegisterIs(s: bv32, a: seq<bv8>)
    requires a != []
    ensures Register(s, a) == Register(Eat(s, a[0]), a[1..])
  {
    hide Eat;
  }

  lemma WordIs(a: seq<bv8>, b: seq<bv8>)
    requires |a| == |b| > 0
    ensures Word(a, b) == Join(Difference(a[0], b[0]), Word(a[1..], b[1..]))
  {
    hide Join;
  }

  lemma DifferenceStep(x: bv32, a: bv8, b: bv8, w: bv32, n: nat, m: nat)
    requires n <= 3 && Narrow(w, n)
    ensures Shifts(Xor(Shifts(Xor(x, Wide(a, b)), 8), w), m) == Shifts(Xor(x, Join(Difference(a, b), w)), 8 + m)
  {
    hide Shifts, Xor, Join;
    var d := Xor(a as bv32, b as bv32);
    NarrowEnough(w, n);
    EightSteps(w);
    ShiftsLinear(Xor(x, d), w << 8, 8);
    XorLaws(x, d, w << 8, 0);
    WideByte(a, b, w);
    ShiftsCompose(Xor(x, Join(Difference(a, b), w)), 8, m);
  }

  lemma NarrowEnough(w: bv32, n: nat)
    requires Narrow(w, n) && n <= 3
    ensures w < 0x100_0000
  {}

  /** The two bytes' difference, as a word. */
  function Wide(a: bv8, b: bv8): bv32 { Xor(a as bv32, b as bv32) }

  lemma EatBoth(s: bv32, t: bv32, a: bv8, b: bv8)
    ensures Xor(Eat(s, a), Eat(t, b)) == Shifts(Xor(Xor(s, t), Wide(a, b)), 8)
  {
    hide Shifts, Xor;
    EatIs(s, a);
    EatIs(t, b);
    ShiftsLinear(Xor(s, a as bv32), Xor(t, b as bv32), 8);
    XorLaws(s, a as bv32, t, b as bv32);
  }

  /** No change confined to four consecutive bytes goes unnoticed, whatever the length. */
  lemma BurstDetected(a: seq<bv8>, b: seq<bv8>, i: nat, j: nat)
    requires |a| == |b| && i <= j <= |a| && j - i <= 4
    requires a[..i] == b[..i] && a[j..] == b[j..] && a != b
    ensures Crc32(a) != Crc32(b)
  {
    hide Shifts, Xor, Word, Register, Eat;
    var s := Register(ONES, a[..i]);
    var u, v := a[i..j], b[i..j];
    assert a == a[..i] + (u + a[j..]) && b == b[..i] + (v + b[j..]);
    RegisterConcat(ONES, a[..i], u + a[j..]);
    RegisterConcat(ONES, b[..i], v + b[j..]);
    RegisterConcat(s, u, a[j..]);
    RegisterConcat(s, v, b[j..]);
    assert u != v;
    Differences(s, s, u, v);
    XorLaws(s, s, 0, 0);
    WordNarrow(u, v);
    XorNothing(Word(u, v));
    ShiftsNonZero(Word(u, v), 8 * |u|);
    XorLaws(Register(s, u), Register(s, v), 0, 0);
    SameTail(Register(s, u), Register(s, v), a[j..]);
    Complement(Register(ONES, a), Register(ONES, b));
  }

  lemma Complement(a: bv32, b: bv32)
    ensures !a == !b ==> a == b
  {
    Twice(a);
    Twice(b);
  }

  lemma Twice(a: bv32)
    ensures !(!a) == a
  {}

  /** The two loops of `crash_crc32`. */
  method Compute(bytes: seq<bv8>) returns (crc: bv32)
    ensures crc == Crc32(bytes)
  {
    crc := ONES;
    var i := 0;
    hide Shift;
    while i < |bytes|
      invariant i <= |bytes| && Register(ONES, bytes) == Register(crc, bytes[i..])
    {
      ghost var before := crc;
      crc := crc ^ (bytes[i] as bv32);
      var j := 0;
      while j < 8
        invariant j <= 8 && Shifts(crc, 8 - j) == Eat(before, bytes[i])
      {
        crc := Shift(crc);
        j := j + 1;
      }
      i := i + 1;
    }
    crc := !crc;
  }
}
