/** What the checksum register is: the remainder of the message, taken as a polynomial over the
    integers modulo 2, by the generator of section 8 of RFC 1952. */
module CrcRemainder {
  import opened Bitmaps
  import opened Crc

  /** A polynomial, given by its exponents. */
  type Poly = set<nat>

  /** x^32 + x^26 + x^23 + x^22 + x^16 + x^12 + x^11 + x^10 + x^8 + x^7 + x^5 + x^4 + x^2 + x + 1. */
  const GENERATOR: Poly := {32, 26, 23, 22, 16, 12, 11, 10, 8, 7, 5, 4, 2, 1, 0}

  function Sum(a: Poly, b: Poly): Poly { (a - b) + (b - a) }

  /** `a` times x^n. */
  function Raised(a: Poly, n: nat): Poly { set e | e in a :: e + n }

  function When(c: bool, a: Poly): Poly { if c then a else {} }

  lemma InRaised(a: Poly, n: nat)
    ensures forall e :: e in Raised(a, n) <==> e >= n && e - n in a
  {
    forall e | e >= n && e - n in a ensures e in Raised(a, n) {
      assert (e - n) + n == e;
    }
  }

  lemma SumSwaps(a: Poly, b: Poly, c: Poly)
    ensures Sum(Sum(a, b), c) == Sum(Sum(a, c), b) == Sum(a, Sum(b, c))
  {}

  lemma RaisedSum(a: Poly, b: Poly, n: nat)
    ensures Raised(Sum(a, b), n) == Sum(Raised(a, n), Raised(b, n))
  {
    InRaised(a, n);
    InRaised(b, n);
    InRaised(Sum(a, b), n);
  }

  lemma RaisedTwice(a: Poly, m: nat, n: nat)
    ensures Raised(Raised(a, m), n) == Raised(a, m + n)
  {
    InRaised(a, m);
    InRaised(Raised(a, m), n);
    InRaised(a, m + n);
  }

  /** Bits as coefficients, the first the highest. */
  function OfBits(bits: seq<bool>): Poly {
    if bits == [] then {}
    else Sum(Raised(OfBits(bits[..|bits| - 1]), 1), When(bits[|bits| - 1], {0}))
  }

  /** The product of such a polynomial with the generator. */
  function Multiple(q: seq<bool>): Poly {
    if q == [] then {}
    else Sum(Raised(Multiple(q[..|q| - 1]), 1), When(q[|q| - 1], GENERATOR))
  }

  /** A register holds the coefficients of x^31 down to 1 in its bits 0 to 31. */
  function OfRegister(s: bv32): Poly { set e: nat | e < 32 && Has(s, e) }

  predicate Has(s: bv32, e: nat) { e < 32 && Bit(s, 31 - e) }

  // ----- one bit

  function Fed(s: bv32, bit: bool): bv32 { Shift(Xor(s, if bit then 1 else 0)) }

  lemma XorAt(a: bv32, b: bv32, i: bv5)
    ensures BitAt(a ^ b, i) <==> BitAt(a, i) != BitAt(b, i)
  {}

  lemma XorBit(a: bv32, b: bv32, i: nat)
    requires i < 32
    ensures Bit(a ^ b, i) <==> Bit(a, i) != Bit(b, i)
  {
    XorAt(a, b, Pos(i));
  }

  lemma PolynomialAt(i: bv5)
    ensures BitAt(POLYNOMIAL, i) <==>
              i == 31 || i == 30 || i == 29 || i == 27 || i == 26 || i == 24 || i == 23 || i == 21 || i == 20 || i == 19
              || i == 15 || i == 9 || i == 8 || i == 5
  {}

  lemma Places()
    ensures Pos(31) == 31 && Pos(30) == 30 && Pos(29) == 29 && Pos(27) == 27 && Pos(26) == 26 && Pos(24) == 24 && Pos(23) == 23
    ensures Pos(21) == 21 && Pos(20) == 20 && Pos(19) == 19 && Pos(15) == 15 && Pos(9) == 9 && Pos(8) == 8 && Pos(5) == 5
  {}

  /** The constant of the loop is the generator without its leading term. */
  lemma PolynomialIsGenerator(e: nat)
    requires e < 32
    ensures Bit(POLYNOMIAL, 31 - e) <==> e in GENERATOR
  {
    var i := 31 - e;
    PolynomialAt(Pos(i));
    Places();
    forall j: nat | j < 32 ensures Pos(i) == Pos(j) <==> i == j {
      PosInjective(i, j);
    }
    hide Pos, BitAt;
  }

  lemma OneAt(i: bv5)
    ensures BitAt(1, i) <==> i == 0
  {}

  lemma OneHas(e: nat)
    ensures Has(1, e) <==> e == 31
  {
    if e < 32 {
      OneAt(Pos(31 - e));
      PosInjective(31 - e, 0);
      PosEnds();
      hide BitAt, Pos;
    }
  }

  lemma XorHas(a: bv32, b: bv32, e: nat)
    ensures Has(a ^ b, e) <==> Has(a, e) != Has(b, e)
  {
    hide Bit;
    if e < 32 {
      XorBit(a, b, 31 - e);
    }
  }

  lemma FlipFirst(s: bv32, bit: bool)
    ensures OfRegister(Xor(s, if bit then 1 else 0)) == Sum(OfRegister(s), When(bit, {31}))
  {
    hide Has;
    if bit {
      forall e: nat ensures Has(Xor(s, 1), e) <==> Has(s, e) != (e == 31) {
        XorHas(s, 1, e);
        OneHas(e);
      }
      hide Xor;
    } else {
      XorNothing(s);
      hide Xor;
    }
  }

  /** A step of the loop moves every coefficient up and takes away the generator if the last fell off. */
  lemma ShiftHas(s: bv32, e: nat)
    requires e < 32
    ensures Has(Shift(s), e) <==> (e > 0 && Has(s, e - 1)) != (Has(s, 31) && e in GENERATOR)
  {
    hide Shift, Bit, Xor;
    ShiftBit(s, 31 - e);
    ShiftBit(s, 0);
    LowBit(s);
    PolynomialIsGenerator(e);
    XorBit(s >> 1, POLYNOMIAL, 31 - e);
  }

  lemma ShiftTimesX(s: bv32)
    ensures OfRegister(Shift(s)) == Sum(Raised(OfRegister(s), 1), When(Has(s, 31), GENERATOR))
  {
    InRaised(OfRegister(s), 1);
    forall e: nat | e < 32 ensures Has(Shift(s), e) <==> (e > 0 && Has(s, e - 1)) != (Has(s, 31) && e in GENERATOR) {
      ShiftHas(s, e);
    }
    hide Has, Shift, Raised;
    forall e: nat ensures e in OfRegister(Shift(s)) <==> e in Sum(Raised(OfRegister(s), 1), When(Has(s, 31), GENERATOR)) {
      assert e in Raised(OfRegister(s), 1) <==> 0 < e <= 32 && Has(s, e - 1);
      assert e in GENERATOR ==> e <= 32;
      assert 32 in GENERATOR;
    }
  }

  /** A bit of the message joins at x^32. */
  lemma FedIs(s: bv32, bit: bool)
    ensures OfRegister(Fed(s, bit))
            == Sum(Sum(Raised(OfRegister(s), 1), When(bit, {32})), When(Has(Xor(s, if bit then 1 else 0), 31), GENERATOR))
  {
    var t := Xor(s, if bit then 1 else 0);
    FlipFirst(s, bit);
    hide Has, Shift, Xor;
    ShiftTimesX(t);
    RaisedSum(OfRegister(s), When(bit, {31}), 1);
    InRaised(When(bit, {31}), 1);
    assert Raised(When(bit, {31}), 1) == When(bit, {32});
  }

  // ----- all bits

  function FedAll(s: bv32, bits: seq<bool>): bv32 {
    if bits == [] then s else Fed(FedAll(s, bits[..|bits| - 1]), bits[|bits| - 1])
  }

  /** The message times x^32, and what the register held, which the message has pushed up. */
  function Dividend(s: bv32, bits: seq<bool>): Poly {
    Sum(Raised(OfBits(bits), 32), Raised(OfRegister(s), |bits|))
  }

  lemma DividendStep(s: bv32, front: seq<bool>, bit: bool)
    ensures Dividend(s, front + [bit]) == Sum(Raised(Dividend(s, front), 1), When(bit, {32}))
  {
    var bits := front + [bit];
    assert bits[..|front|] == front;
    var m, t, one := OfBits(front), OfRegister(s), When(bit, {0});
    assert OfBits(bits) == Sum(Raised(m, 1), one);
    InRaised(one, 32);
    assert Raised(one, 32) == When(bit, {32});
    hide OfRegister, OfBits, Sum, Raised;
    RaisedSum(Raised(m, 1), one, 32);
    RaisedTwice(m, 1, 32);
    RaisedTwice(m, 32, 1);
    RaisedTwice(t, |front|, 1);
    RaisedSum(Raised(m, 32), Raised(t, |front|), 1);
    SumSwaps(Raised(m, 33), When(bit, {32}), Raised(t, |bits|));
  }

  /** Bit by bit the register stays congruent to the dividend modulo the generator. */
  lemma {:induction false} StaysCongruent(s: bv32, bits: seq<bool>) returns (q: seq<bool>)
    ensures OfRegister(FedAll(s, bits)) == Sum(Dividend(s, bits), Multiple(q))
    decreases |bits|
  {
    if bits == [] {
      q := [];
      InRaised({}, 32);
      InRaised(OfRegister(s), 0);
      assert Raised(OfBits([]), 32) == {} && Raised(OfRegister(s), 0) == OfRegister(s);
    } else {
      var front, bit := bits[..|bits| - 1], bits[|bits| - 1];
      assert bits == front + [bit];
      var q1 := StaysCongruent(s, front);
      var t := FedAll(s, front);
      hide OfRegister, Dividend, Raised, Sum, Has;
      FedIs(t, bit);
      DividendStep(s, front, bit);
      RaisedSum(Dividend(s, front), Multiple(q1), 1);
      var c := Has(Xor(t, if bit then 1 else 0), 31);
      q := q1 + [c];
      assert q[..|q1|] == q1;
      Regroup(Raised(Dividend(s, front), 1), Raised(Multiple(q1), 1), When(bit, {32}), When(c, GENERATOR));
    }
  }

  lemma Regroup(a: Poly, b: Poly, c: Poly, d: Poly)
    ensures Sum(Sum(Sum(a, b), c), d) == Sum(Sum(a, c), Sum(b, d))
  {}

  // ----- bytes

  function LowBits(w: bv32, n: nat): (bits: seq<bool>)
    ensures |bits| == n
  {
    if n == 0 then [] else [w & 1 == 1] + LowBits(w >> 1, n - 1)
  }

  /** The bits of the message, each byte from its lowest bit on. */
  function Bits(bytes: seq<bv8>): (bits: seq<bool>)
    ensures |bits| == 8 * |bytes|
  {
    if bytes == [] then [] else LowBits(bytes[0] as bv32, 8) + Bits(bytes[1..])
  }

  lemma {:induction false} FedJoin(s: bv32, a: seq<bool>, b: seq<bool>)
    ensures FedAll(s, a + b) == FedAll(FedAll(s, a), b)
    decreases |b|
  {
    hide Fed;
    if b == [] {
      assert a + b == a;
    } else {
      assert (a + b)[..|a + b| - 1] == a + b[..|b| - 1];
      FedJoin(s, a, b[..|b| - 1]);
    }
  }

  lemma FedOne(s: bv32, bit: bool)
    ensures FedAll(s, [bit]) == Fed(s, bit)
  {
    hide Fed;
    assert FedAll(s, []) == s;
  }

  predicate Vanishes(w: bv32, n: nat)
    decreases n
  {
    if n == 0 then w == 0 else Vanishes(w >> 1, n - 1)
  }

  lemma OneStep(s: bv32, w: bv32)
    ensures Shift(Xor(s, w)) == Xor(Fed(s, w & 1 == 1), w >> 1)
  {
    var low, rest := w & 1, w & 0xFFFF_FFFE;
    Parts(w);
    LowBit(rest);
    LowBit(w);
    hide Shift, Xor;
    XorAssoc(s, low, rest);
    XorShift(Xor(s, low), rest);
  }

  lemma Parts(w: bv32)
    ensures Xor(w & 1, w & 0xFFFF_FFFE) == w && (w & 0xFFFF_FFFE) & 1 == 0 && (w & 0xFFFF_FFFE) >> 1 == w >> 1
  {}

  lemma {:induction false} LowBitsFed(s: bv32, w: bv32, n: nat)
    requires Vanishes(w, n)
    ensures Shifts(Xor(s, w), n) == FedAll(s, LowBits(w, n))
    decreases n
  {
    hide Shift, Xor, Fed;
    if n == 0 {
      XorNothing(s);
    } else {
      var bit := w & 1 == 1;
      OneStep(s, w);
      LowBitsFed(Fed(s, bit), w >> 1, n - 1);
      FedOne(s, bit);
      FedJoin(s, [bit], LowBits(w >> 1, n - 1));
    }
  }

  lemma ByteVanishes(b: bv8)
    ensures Vanishes(b as bv32, 8)
  {
    var w := b as bv32;
    EightHalves(b);
    assert Vanishes(w >> 1 >> 1 >> 1 >> 1 >> 1 >> 1 >> 1 >> 1, 0);
  }

  lemma EightHalves(b: bv8)
    ensures (b as bv32) >> 1 >> 1 >> 1 >> 1 >> 1 >> 1 >> 1 >> 1 == 0
  {}

  lemma {:induction false} RegisterIsFed(s: bv32, bytes: seq<bv8>)
    ensures Register(s, bytes) == FedAll(s, Bits(bytes))
    decreases |bytes|
  {
    hide Shifts, LowBits, Xor;
    if bytes != [] {
      var w := bytes[0] as bv32;
      ByteVanishes(bytes[0]);
      LowBitsFed(s, w, 8);
      EatIs(s, bytes[0]);
      hide Eat;
      RegisterIsFed(Eat(s, bytes[0]), bytes[1..]);
      FedJoin(s, LowBits(w, 8), Bits(bytes[1..]));
    }
  }

  // ----- the remainder

  /** `r` is what is left of `p` when multiples of the generator are taken away. */
  ghost predicate Remainder(p: Poly, r: Poly) {
    (forall e :: e in r ==> e < 32) && exists q :: r == Sum(p, Multiple(q))
  }

  lemma {:induction false} MultipleSum(a: seq<bool>, b: seq<bool>) returns (q: seq<bool>)
    ensures Multiple(q) == Sum(Multiple(a), Multiple(b))
    decreases |a|
  {
    if a == [] {
      q := b;
    } else if b == [] {
      q := a;
    } else {
      var x, y := a[..|a| - 1], b[..|b| - 1];
      var c, d := a[|a| - 1], b[|b| - 1];
      var front := MultipleSum(x, y);
      q := front + [c != d];
      assert q[..|front|] == front;
      RaisedSum(Multiple(x), Multiple(y), 1);
      assert When(c != d, GENERATOR) == Sum(When(c, GENERATOR), When(d, GENERATOR));
      hide Raised, Sum;
      TwoSums(Raised(Multiple(x), 1), Raised(Multiple(y), 1), When(c, GENERATOR), When(d, GENERATOR));
    }
  }

  lemma TwoSums(a: Poly, b: Poly, c: Poly, d: Poly)
    ensures Sum(Sum(a, b), Sum(c, d)) == Sum(Sum(a, c), Sum(b, d))
  {}

  /** A multiple of the generator is none or too long to be a remainder. */
  lemma {:induction false} MultipleIsLong(q: seq<bool>)
    ensures Multiple(q) == {} || exists e :: e in Multiple(q) && e >= 32
    decreases |q|
  {
    if q != [] {
      var front := q[..|q| - 1];
      MultipleIsLong(front);
      InRaised(Multiple(front), 1);
      hide Raised;
      if e :| e in Multiple(front) && e >= 32 {
        assert (e + 1) in Raised(Multiple(front), 1) && (e + 1) !in GENERATOR;
        assert (e + 1) in Multiple(q);
      } else if q[|q| - 1] {
        assert 32 in GENERATOR && 32 !in Raised({}, 1) by {
          InRaised({}, 1);
        }
        assert 32 in Multiple(q);
      } else {
        InRaised({}, 1);
      }
    }
  }

  lemma RemainderIsUnique(p: Poly, r: Poly, s: Poly)
    requires Remainder(p, r) && Remainder(p, s)
    ensures r == s
  {
    var a :| r == Sum(p, Multiple(a));
    var b :| s == Sum(p, Multiple(b));
    var q := MultipleSum(a, b);
    MultipleIsLong(q);
    hide Multiple;
    assert Sum(r, s) == Multiple(q);
    assert forall e :: e in Sum(r, s) ==> e < 32;
  }

  /** The complement of the checksum is the remainder by the generator of the message, followed
      by 32 zeros and with its first 32 bits inverted, and of no other polynomial below x^32. */
  lemma ChecksumIsRemainder(bytes: seq<bv8>, r: Poly)
    ensures Remainder(Dividend(ONES, Bits(bytes)), r) <==> r == OfRegister(!Crc32(bytes))
  {
    var p := Dividend(ONES, Bits(bytes));
    Twice(Register(ONES, bytes));
    RegisterIsFed(ONES, bytes);
    var q := StaysCongruent(ONES, Bits(bytes));
    var t := OfRegister(!Crc32(bytes));
    assert forall e :: e in t ==> e < 32;
    hide OfRegister, Dividend, Multiple, Sum, Crc32;
    assert Remainder(p, t);
    if Remainder(p, r) {
      RemainderIsUnique(p, r, t);
    }
  }
}
