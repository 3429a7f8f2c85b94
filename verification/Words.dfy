/** ARMword: the 32-bit word of the emulator (arch_arm/common/armdefs.h), and what C's unsigned
    arithmetic on it means.

    A word is a bit-vector. `Nat` is its unsigned value and `Of` the word of a number modulo 2^32;
    both are defined bit by bit, so that statements about sums and products are about integers. */
module Words {

  type Bits = bv32

  /** A word held in the machine. (Wrapped, so that the verifier looks at its bits only where a
      definition does.) */
  datatype Word = Word(bits: Bits)

  const LIMB: nat := 0x1_0000_0000

  function Half(w: Bits): Bits { w >> 1 }

  function Double(w: Bits): Bits { w << 1 }

  predicate Odd(w: Bits) { w & 1 == 1 }

  /** The unsigned value of the low n bits. (The second measure keeps the verifier from unfolding
      all 32 levels at once; the first one is what decreases.) */
  function Low(w: Bits, n: nat): nat
    decreases n, w == 0
  {
    if n == 0 then 0 else 2 * Low(Half(w), n - 1) + (if Odd(w) then 1 else 0)
  }

  function Nat(w: Bits): nat { Low(w, 32) }

  /** Bit n of a word: the BIT macro of armdefs.h. */
  predicate Bit(w: Bits, n: nat)
    decreases n, w == 0
  {
    if n == 0 then Odd(w) else Bit(Half(w), n - 1)
  }

  /** BIT for a bit number known where it is used, as the emulator's decoding does. */
  predicate BitAt(w: Bits, k: Bits)
    requires k < 32
  {
    (w >> k) & 1 == 1
  }

  /** The word of the low k bits of n. */
  function OfBits(n: nat, k: nat): Bits
    decreases k, n == 0
  {
    if k == 0 then 0 else Join(OfBits(n / 2, k - 1), n % 2 == 1)
  }

  function Join(w: Bits, low: bool): Bits { if low then Double(w) | 1 else Double(w) }

  /** n modulo 2^32. */
  function Of(n: nat): Bits { OfBits(n, 32) }

  /** The unsigned value of a word. */
  function Num(w: Word): nat { Nat(w.bits) }

  /** The word of a number modulo 2^32. */
  function ToWord(n: nat): Word { Word(Of(n)) }

  // C's unsigned `+`, `-` and `*`: the exact result modulo 2^32.

  function Plus(a: Word, b: Word): Word { ToWord(Num(a) + Num(b)) }

  function Minus(a: Word, b: Word): Word
  {
    NumLimit(b);
    ToWord(LIMB + Num(a) - Num(b))
  }

  function Product(a: nat, b: nat): nat { a * b }

  function Times(a: Word, b: Word): Word { ToWord(Product(Num(a), Num(b))) }

  function Pow2(n: nat): (p: nat)
    ensures p > 0
  {
    if n == 0 then 1 else 2 * Pow2(n - 1)
  }

  // ---------------------------------------------------------------------------------------------
  // Masks of low ones

  predicate IsOnes(m: Bits, n: nat)
    decreases n, m == 0
  {
    if n == 0 then m == 0 else Odd(m) && IsOnes(Half(m), n - 1)
  }

  predicate AgreeOn(x: Bits, y: Bits, m: Bits) { (x ^ y) & m == 0 }

  predicate Within(a: Bits, m: Bits) { a & !m == 0 }

  lemma AllOnes()
    ensures IsOnes(0xFFFF, 16) && IsOnes(0x7FFF_FFFF, 31) && IsOnes(0xFFFF_FFFF, 32)
  {
    assert IsOnes(0x0, 0); assert IsOnes(0x1, 1); assert IsOnes(0x3, 2);
    assert IsOnes(0x7, 3); assert IsOnes(0xf, 4); assert IsOnes(0x1f, 5);
    assert IsOnes(0x3f, 6); assert IsOnes(0x7f, 7); assert IsOnes(0xff, 8);
    assert IsOnes(0x1ff, 9); assert IsOnes(0x3ff, 10); assert IsOnes(0x7ff, 11);
    assert IsOnes(0xfff, 12); assert IsOnes(0x1fff, 13); assert IsOnes(0x3fff, 14);
    assert IsOnes(0x7fff, 15); assert IsOnes(0xffff, 16); assert IsOnes(0x1ffff, 17);
    assert IsOnes(0x3ffff, 18); assert IsOnes(0x7ffff, 19); assert IsOnes(0xfffff, 20);
    assert IsOnes(0x1fffff, 21); assert IsOnes(0x3fffff, 22); assert IsOnes(0x7fffff, 23);
    assert IsOnes(0xffffff, 24); assert IsOnes(0x1ffffff, 25); assert IsOnes(0x3ffffff, 26);
    assert IsOnes(0x7ffffff, 27); assert IsOnes(0xfffffff, 28); assert IsOnes(0x1fffffff, 29);
    assert IsOnes(0x3fffffff, 30); assert IsOnes(0x7fffffff, 31); assert IsOnes(0xffffffff, 32);
  }

  lemma Pow2Limb()
    ensures Pow2(32) == LIMB && Pow2(31) == 0x8000_0000 && Pow2(16) == 0x1_0000
  {
    assert Pow2(8) == 0x100;
    assert Pow2(16) == 0x1_0000;
    assert Pow2(24) == 0x100_0000;
  }

  lemma {:induction false} LowBound(w: Bits, n: nat)
    ensures Low(w, n) < Pow2(n)
    decreases n
  {
    if n > 0 { LowBound(Half(w), n - 1); }
  }

  lemma NatLimit(w: Bits)
    ensures Nat(w) < LIMB
  {
    LowBound(w, 32);
    Pow2Limb();
  }

  lemma NumLimit(w: Word)
    ensures Num(w) < LIMB
  {
    NatLimit(w.bits);
  }

  lemma AgreeStep(x: Bits, y: Bits, m: Bits)
    requires AgreeOn(x, y, m)
    ensures AgreeOn(Half(x), Half(y), Half(m))
    ensures Odd(m) ==> (Odd(x) <==> Odd(y))
  {}

  // ---------------------------------------------------------------------------------------------
  // Nat and Of are inverse

  lemma JoinParts(w: Bits, low: bool)
    ensures AgreeOn(Half(Join(w, low)), w, 0x7FFF_FFFF)
    ensures Odd(Join(w, low)) <==> low
  {}

  /** The low n bits decide the value of the low n bits. */
  lemma {:induction false} LowAgree(x: Bits, y: Bits, m: Bits, k: nat, n: nat)
    requires n <= k && IsOnes(m, k) && AgreeOn(x, y, m)
    ensures Low(x, n) == Low(y, n)
    decreases n
  {
    if n > 0 {
      AgreeStep(x, y, m);
      LowAgree(Half(x), Half(y), Half(m), k - 1, n - 1);
    }
  }

  lemma {:induction false} LowOf(n: nat, k: nat)
    requires k <= 32
    ensures Low(OfBits(n, k), k) == n % Pow2(k)
    decreases k
  {
    if k > 0 {
      var w := OfBits(n / 2, k - 1);
      LowOf(n / 2, k - 1);
      JoinParts(w, n % 2 == 1);
      AllOnes();
      LowAgree(Half(OfBits(n, k)), w, 0x7FFF_FFFF, 31, k - 1);
      ModHalves(n, Pow2(k - 1));
    }
  }

  lemma ModHalves(n: nat, p: nat)
    requires p > 0
    ensures n % (2 * p) == 2 * ((n / 2) % p) + n % 2
  {
    var q, r := n / 2 / p, (n / 2) % p;
    assert n / 2 == q * p + r;
    var s := 2 * r + n % 2;
    assert n == q * (2 * p) + s;
    DivModUnique(n, 2 * p, q, s);
  }

  lemma DivModUnique(n: nat, d: nat, q: nat, r: nat)
    requires n == q * d + r && r < d
    ensures n % d == r && n / d == q
  {
    var e := n / d - q;
    assert e * d == r - n % d;
    Small(e, d);
  }

  lemma Small(e: int, d: int)
    requires d > 0 && -d < e * d < d
    ensures e == 0
  {}

  lemma NatOf(n: nat)
    ensures Nat(Of(n)) == n % LIMB
  {
    LowOf(n, 32);
    Pow2Limb();
  }

  lemma HalfWithin(a: Bits, m: Bits)
    requires Within(a, m)
    ensures Within(Half(a), Half(m))
  {}

  lemma WithinZero(a: Bits)
    requires Within(a, 0)
    ensures a == 0
  {}

  lemma Rejoin(a: Bits, b: Bits)
    requires Half(a) == Half(b) && (Odd(a) <==> Odd(b))
    ensures a == b
  {}

  lemma {:induction false} LowInjective(a: Bits, b: Bits, n: nat, m: Bits)
    requires IsOnes(m, n) && Within(a, m) && Within(b, m)
    requires Low(a, n) == Low(b, n)
    ensures a == b
    decreases n
  {
    if n == 0 {
      WithinZero(a);
      WithinZero(b);
    } else {
      HalfWithin(a, m);
      HalfWithin(b, m);
      LowInjective(Half(a), Half(b), n - 1, Half(m));
      Rejoin(a, b);
    }
  }

  lemma AllWithin(a: Bits)
    ensures Within(a, 0xFFFF_FFFF)
  {}

  lemma NatInjective(a: Bits, b: Bits)
    requires Nat(a) == Nat(b)
    ensures a == b
  {
    AllOnes();
    AllWithin(a);
    AllWithin(b);
    LowInjective(a, b, 32, 0xFFFF_FFFF);
  }

  lemma OfNat(w: Bits)
    ensures Of(Nat(w)) == w
  {
    hide Of, Nat;
    NatOf(Nat(w));
    NatLimit(w);
    NatInjective(Of(Nat(w)), w);
  }

  // ---------------------------------------------------------------------------------------------
  // Order and sign

  predicate AtMost(a: Bits, m: Bits) { a <= m }

  lemma HalfAtMost(a: Bits, m: Bits)
    requires AtMost(a, m)
    ensures AtMost(Half(a), Half(m))
  {}

  lemma OddAbove(a: Bits, b: Bits)
    requires Half(a) == Half(b) && Odd(a) && !Odd(b)
    ensures !AtMost(a, b)
  {}

  lemma {:induction false} LowMonotone(a: Bits, b: Bits, n: nat, m: Bits)
    requires IsOnes(m, n) && Within(a, m) && Within(b, m)
    requires AtMost(a, b)
    ensures Low(a, n) <= Low(b, n)
    decreases n
  {
    if n > 0 {
      HalfWithin(a, m);
      HalfWithin(b, m);
      HalfAtMost(a, b);
      LowMonotone(Half(a), Half(b), n - 1, Half(m));
      if Odd(a) && !Odd(b) && Low(Half(a), n - 1) == Low(Half(b), n - 1) {
        LowInjective(Half(a), Half(b), n - 1, Half(m));
        OddAbove(a, b);
      }
    }
  }

  lemma Total(a: Bits, b: Bits)
    ensures AtMost(a, b) || AtMost(b, a)
  {}

  lemma NatAtMost(a: Bits, b: Bits)
    ensures AtMost(a, b) <==> Nat(a) <= Nat(b)
  {
    AllOnes();
    AllWithin(a);
    AllWithin(b);
    Total(a, b);
    if Nat(a) == Nat(b) {
      NatInjective(a, b);
    } else if AtMost(a, b) {
      LowMonotone(a, b, 32, 0xFFFF_FFFF);
    } else {
      LowMonotone(b, a, 32, 0xFFFF_FFFF);
    }
  }

  /** Unsigned comparison of words is comparison of their values. */
  lemma NatOrder(a: Bits, b: Bits)
    ensures a <= b <==> Nat(a) <= Nat(b)
    ensures a < b <==> Nat(a) < Nat(b)
    ensures a == b <==> Nat(a) == Nat(b)
  {
    NatAtMost(a, b);
    NatAtMost(b, a);
    if Nat(a) == Nat(b) { NatInjective(a, b); }
  }

  // ---------------------------------------------------------------------------------------------
  // Splitting a word

  function HalfTimes(w: Bits, n: nat): Bits
    decreases n
  {
    if n == 0 then w else HalfTimes(Half(w), n - 1)
  }

  lemma DoubleProduct(p: int, x: int)
    ensures (2 * p) * x == 2 * (p * x)
  {}

  lemma {:induction false} LowSplit(w: Bits, n: nat, k: nat)
    ensures Low(w, n + k) == Low(w, n) + Pow2(n) * Low(HalfTimes(w, n), k)
    decreases n
  {
    if n > 0 {
      LowSplit(Half(w), n - 1, k);
      DoubleProduct(Pow2(n - 1), Low(HalfTimes(w, n), k));
    }
  }

  lemma {:induction false} HalfTimesTwice(w: Bits, i: nat, j: nat)
    ensures HalfTimes(HalfTimes(w, i), j) == HalfTimes(w, i + j)
    decreases i
  {
    if i > 0 { HalfTimesTwice(Half(w), i - 1, j); }
  }

  function Shr4(w: Bits): Bits { w >> 4 }

  lemma HalfFour(w: Bits)
    ensures HalfTimes(w, 4) == Shr4(w)
  {}

  function Shr16(w: Bits): Bits { w >> 16 }
  function Shl16(w: Bits): Bits { w << 16 }
  function Low16(w: Bits): Bits { w & 0xFFFF }

  lemma HalfSixteen(w: Bits)
    ensures HalfTimes(w, 16) == Shr16(w)
  {
    HalfFour(w);
    HalfFour(Shr4(w));
    HalfFour(Shr4(Shr4(w)));
    HalfFour(Shr4(Shr4(Shr4(w))));
    HalfTimesTwice(w, 4, 4);
    HalfTimesTwice(w, 8, 4);
    HalfTimesTwice(w, 12, 4);
    ShrFours(w);
  }

  lemma ShrFours(w: Bits)
    ensures Shr4(Shr4(Shr4(Shr4(w)))) == Shr16(w)
  {}

  lemma {:induction false} LowZero(n: nat)
    ensures Low(0, n) == 0
    decreases n
  {
    if n > 0 {
      assert Half(0) == 0;
      LowZero(n - 1);
    }
  }

  /** The value of w in base 2^16. */
  lemma NatSplit(w: Bits)
    ensures Nat(w) == Low(w, 16) + 0x1_0000 * Low(Shr16(w), 16)
    ensures Low(w, 16) < 0x1_0000
  {
    LowSplit(w, 16, 16);
    HalfSixteen(w);
    Pow2Limb();
    LowBound(w, 16);
  }

  lemma ShrShl(w: Bits)
    ensures Shr16(Shl16(w)) == Low16(w)
    ensures Shr16(Low16(w)) == 0
    ensures Low16(Shr16(w)) == Shr16(w)
    ensures Shr16(Shr16(w)) == 0
    ensures AgreeOn(Shl16(w), 0, 0xFFFF)
    ensures AgreeOn(Low16(w), w, 0xFFFF)
  {}

  /** The two halves of a word and the word shifted left by 16, as numbers. */
  lemma NatSixteen(w: Bits)
    ensures Nat(w) == Nat(Low16(w)) + 0x1_0000 * Nat(Shr16(w))
    ensures Nat(Low16(w)) < 0x1_0000 && Nat(Shr16(w)) < 0x1_0000
    ensures Nat(Shl16(w)) == 0x1_0000 * Nat(Low16(w))
  {
    ShrShl(w);
    LowZero(16);
    NatSplit(w);
    NatSplit(Low16(w));
    NatSplit(Shr16(w));
    NatSplit(Shl16(w));
    assert IsOnes(0xFFFF, 16) by { AllOnes(); }
    LowAgree(Shl16(w), 0, 0xFFFF, 16, 16);
    LowAgree(Low16(w), w, 0xFFFF, 16, 16);
  }

  // ---------------------------------------------------------------------------------------------
  // Sign and complement

  /** The NEG macro of armemu.h. */
  predicate Neg(w: Bits) { w >> 31 == 1 }

  /** The word with only bit k set. */
  function OneAt(k: nat): Bits { if k == 0 then 1 else Double(OneAt(k - 1)) }

  lemma DoubleParts(w: Bits)
    ensures AgreeOn(Half(Double(w)), w, 0x7FFF_FFFF)
    ensures !Odd(Double(w))
  {}

  lemma LowDouble(w: Bits, n: nat)
    requires n < 32
    ensures Low(Double(w), n + 1) == 2 * Low(w, n)
  {
    DoubleParts(w);
    AllOnes();
    LowAgree(Half(Double(w)), w, 0x7FFF_FFFF, 31, n);
  }

  lemma {:induction false} LowOneAt(k: nat, n: nat)
    requires k < n <= 32
    ensures Low(OneAt(k), n) == Pow2(k)
    decreases k
  {
    if k == 0 {
      LowZero(n - 1);
      assert Half(1) == 0;
    } else {
      LowOneAt(k - 1, n - 1);
      LowDouble(OneAt(k - 1), n - 1);
    }
  }

  lemma OneAtTop()
    ensures OneAt(30) == 0x4000_0000 && OneAt(31) == 0x8000_0000
  {
    assert OneAt(8) == 0x100;
    assert OneAt(16) == 0x1_0000;
    assert OneAt(24) == 0x100_0000;
  }

  lemma NatTop()
    ensures Nat(0x8000_0000) == 0x8000_0000 && Nat(0x4000_0000) == 0x4000_0000
  {
    LowOneAt(31, 32);
    LowOneAt(30, 32);
    Pow2Limb();
    assert Pow2(31) == 2 * Pow2(30);
    OneAtTop();
  }

  lemma NatSign(w: Bits)
    ensures Neg(w) <==> Nat(w) >= 0x8000_0000
  {
    NegAtMost(w);
    NatAtMost(0x8000_0000, w);
    NatTop();
  }

  lemma NegAtMost(w: Bits)
    ensures Neg(w) <==> AtMost(0x8000_0000, w)
  {}

  function Not(w: Bits): Bits { !w }

  lemma NotStep(w: Bits)
    ensures AgreeOn(Half(Not(w)), Not(Half(w)), 0x7FFF_FFFF)
    ensures Odd(Not(w)) <==> !Odd(w)
  {}

  lemma {:induction false} LowNot(w: Bits, x: Bits, n: nat, m: Bits)
    requires IsOnes(m, n) && AgreeOn(x, Not(w), m)
    ensures Low(w, n) + Low(x, n) == Pow2(n) - 1
    decreases n
  {
    if n > 0 {
      AgreeStep(x, Not(w), m);
      NotStep(w);
      HalfTop(m);
      AgreeNot(Half(x), Half(Not(w)), Not(Half(w)), Half(m));
      LowNot(Half(w), Half(x), n - 1, Half(m));
    }
  }
  lemma AgreeNot(x: Bits, y: Bits, z: Bits, m: Bits)
    requires AgreeOn(x, y, m) && AgreeOn(y, z, 0x7FFF_FFFF)
    requires Within(m, 0x7FFF_FFFF)
    ensures AgreeOn(x, z, m)
  {}
  lemma HalfTop(m: Bits)
    ensures Within(Half(m), 0x7FFF_FFFF)
  {}
  lemma SameAgree(w: Bits, m: Bits)
    ensures AgreeOn(w, w, m)
  {}
  /** The complement. */
  lemma NatNot(w: Bits)
    ensures Nat(Not(w)) == LIMB - 1 - Nat(w)
  {
    AllOnes();
    SameAgree(Not(w), 0xFFFF_FFFF);
    LowNot(w, Not(w), 32, 0xFFFF_FFFF);
    Pow2Limb();
  }
}
