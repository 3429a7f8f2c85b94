/** ARMul_ReLoadInstr in Thumb state (arch_arm/common/armvirt.c): the 32 bits it returns hold the halfword at the
    address and the one after it, where ARMul_ThumbDecode looks for them, in either endianness. */
module ThumbFetch {
  import opened Words
  import opened State
  import opened Alu
  import opened Exceptions
  import opened Block
  import T = Thumb
  import opened Pipeline
  import Ram

  /** The halfword of memory at an address. */
  function HalfAt(m: Memory, big: bool, a: Word): Bits
  {
    Ram.HalfOf(CodeWord(m, a, true), Ram.HalfLane(Num(a), big))
  }

  predicate UpperHalf(a: Word) { a.bits & 2 != 0 }

  lemma SecondBit(w: Bits)
    ensures w & 2 != 0 ==> Odd(Half(w))
    ensures Odd(Half(w)) ==> w & 2 != 0
  {}

  lemma UpperNumber(a: Word)
    ensures UpperHalf(a) <==> (Num(a) / 2) % 2 == 1
  {
    SecondBit(a.bits);
    var q := LowTwo(a);
    Digits(Num(a), q, Odd(Half(a.bits)), Odd(a.bits));
    hide Num, Odd, Half;
  }

  lemma Digits(n: nat, q: nat, b1: bool, b0: bool)
    requires n == 4 * q + 2 * Bin(b1) + Bin(b0)
    ensures (n / 2) % 2 == 1 <==> b1
    ensures n / 4 == q && n % 2 == Bin(b0)
  {
    assert n / 2 == 2 * q + Bin(b1);
  }

  /** The address two bytes on is in the other half: of the same word, or of the next one. */
  lemma TwoOn(a: Word)
    requires Num(a) % 2 == 0
    ensures UpperHalf(Plus(a, Word(2))) <==> !UpperHalf(a)
    ensures WordNo(Plus(a, Word(2))) == if UpperHalf(a) then WordNo(Plus(a, Word(4))) else WordNo(a)
  {
    hide Num, Plus, UpperHalf;
    SmallWords();
    NumLimit(a);
    NumPlus(a, Word(2));
    NumPlus(a, Word(4));
    UpperNumber(a);
    UpperNumber(Plus(a, Word(2)));
    Quarters(Num(a));
  }

  function Wraps(x: nat): nat
    requires x < 2 * LIMB
  {
    if x < LIMB then x else x - LIMB
  }

  lemma LowerQuarters(n: nat, q: nat)
    requires n == 4 * q && n < LIMB
    ensures Wraps(n + 2) == n + 2 && (n + 2) / 2 == 2 * q + 1 && (n + 2) / 4 == q && n / 2 == 2 * q && n / 4 == q
  {
    DivModUnique(n + 2, 2, 2 * q + 1, 0);
    DivModUnique(n + 2, 4, q, 2);
    DivModUnique(n, 2, 2 * q, 0);
    DivModUnique(n, 4, q, 0);
  }

  lemma UpperQuarters(n: nat, q: nat)
    requires n == 4 * q + 2 && n < LIMB
    ensures n / 2 == 2 * q + 1
    ensures (Wraps(n + 2) / 2) % 2 == 0 && Wraps(n + 4) / 4 == Wraps(n + 2) / 4
  {
    DivModUnique(n, 2, 2 * q + 1, 0);
    if n + 2 < LIMB {
      DivModUnique(n + 2, 2, 2 * q + 2, 0);
      DivModUnique(2 * q + 2, 2, q + 1, 0);
      DivModUnique(n + 2, 4, q + 1, 0);
      DivModUnique(n + 4, 4, q + 1, 2);
    }
  }

  lemma OddEven(q: nat)
    ensures (2 * q + 1) % 2 == 1 && (2 * q) % 2 == 0
  {}

  lemma Quarters(n: nat)
    requires n % 2 == 0 && n < LIMB
    ensures (Wraps(n + 2) / 2) % 2 == 1 <==> (n / 2) % 2 != 1
    ensures Wraps(n + 2) / 4 == if (n / 2) % 2 == 1 then Wraps(n + 4) / 4 else n / 4
  {
    hide Wraps;
    var q := n / 4;
    ModHalves(n, 2);
    OddEven(q);
    EvenParts(n, q);
    if n == 4 * q { LowerQuarters(n, q); } else { UpperQuarters(n, q); }
  }

  lemma EvenParts(n: nat, q: nat)
    requires n % 4 == 2 * ((n / 2) % 2) && q == n / 4
    ensures n == 4 * q || n == 4 * q + 2
  {}

  /** The four ways to read a halfword pair out of words. */
  lemma PairBits(lo: Bits)
    ensures T.Halves(lo, false) == (Ram.HalfOf(lo, 0), Ram.HalfOf(lo, 2))
    ensures T.Halves(lo, true) == (Ram.HalfOf(lo, 2), Ram.HalfOf(lo, 0))
  {}

  lemma SplitPairLittle(lo: Bits, hi: Bits)
    ensures T.Halves(((hi & 0xFFFF) << 16) | (lo >> 16), false) == (Ram.HalfOf(lo, 2), Ram.HalfOf(hi, 0))
  {}

  lemma SplitPairBig(lo: Bits, hi: Bits)
    ensures T.Halves((lo << 16) | (hi >> 16), true) == (Ram.HalfOf(lo, 0), Ram.HalfOf(hi, 2))
  {}

  lemma HalfLaneIs(a: Word, big: bool)
    ensures Ram.HalfLane(Num(a), big) == if UpperHalf(a) == big then 0 else 2
  {
    UpperNumber(a);
    hide Num, UpperHalf;
  }

  /** A Thumb fetch at an even address finds its halfword and the next. */
  lemma FetchesPair(m: Memory, big: bool, a: Word)
    requires Num(a) % 2 == 0
    ensures T.Halves(Instr(m, big, a, true), big) == (HalfAt(m, big, a), HalfAt(m, big, Plus(a, Word(2))))
  {
    hide *;
    var lo, hi := CodeWord(m, a, true), CodeWord(m, Plus(a, Word(4)), true);
    TwoOn(a);
    HalfLaneIs(a, big);
    HalfLaneIs(Plus(a, Word(2)), big);
    InstrIs(m, big, a);
    SameCode(m, a);
    HalfAtIs(m, big, a);
    HalfAtIs(m, big, Plus(a, Word(2)));
    if UpperHalf(a) { SplitPairs(lo, hi, big); } else { PairBits(lo); }
  }

  lemma SplitPairs(lo: Bits, hi: Bits, big: bool)
    ensures T.Halves(SplitPair(lo, hi, big), big)
         == (Ram.HalfOf(lo, if big then 0 else 2), Ram.HalfOf(hi, if big then 2 else 0))
  {
    SplitPairLittle(lo, hi);
    SplitPairBig(lo, hi);
    hide T.Halves, Ram.HalfOf;
  }

  lemma HalfAtIs(m: Memory, big: bool, a: Word)
    ensures HalfAt(m, big, a) == Ram.HalfOf(CodeWord(m, a, true), Ram.HalfLane(Num(a), big))
  {}

  function SplitPair(lo: Bits, hi: Bits, big: bool): Bits
  {
    if big then (lo << 16) | (hi >> 16) else ((hi & 0xFFFF) << 16) | (lo >> 16)
  }

  lemma InstrIs(m: Memory, big: bool, a: Word)
    ensures Instr(m, big, a, true)
         == if UpperHalf(a) then SplitPair(CodeWord(m, a, true), CodeWord(m, Plus(a, Word(4)), true), big) else CodeWord(m, a, true)
  {
    hide CodeWord, Plus;
  }

  lemma SameCode(m: Memory, a: Word)
    requires Num(a) % 2 == 0
    ensures CodeWord(m, Plus(a, Word(2)), true) == if UpperHalf(a) then CodeWord(m, Plus(a, Word(4)), true) else CodeWord(m, a, true)
  {
    TwoOn(a);
    hide WordNo, Plus, UpperHalf, AbortWord, Num;
  }
}
