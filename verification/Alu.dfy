/** The flag computations of the data-processing instructions (arch_arm/common/armemu32.c and
    arch_arm/common/armsupp.c), and what they mean as integers. */
module Alu {
  import opened Words

  datatype Nzcv = Nzcv(n: bool, z: bool, c: bool, v: bool)

  predicate Negative(w: Word) { Neg(w.bits) }

  function Either(a: Word, b: Word): Bits { a.bits | b.bits }

  function One(b: bool): Word { Word(if b then 1 else 0) }

  // ---------------------------------------------------------------------------------------------
  // armsupp.c

  /** ARMul_NegZero. */
  function NegZero(f: Nzcv, r: Word): Nzcv
  {
    if Negative(r) then f.(n := true, z := false)
    else if r.bits == 0 then f.(n := false, z := true)
    else f.(n := false, z := false)
  }

  /** AddOverflow. */
  predicate AddOverflow(a: Word, b: Word, r: Word)
  {
    (Negative(a) && Negative(b) && !Negative(r)) || (!Negative(a) && !Negative(b) && Negative(r))
  }

  /** SubOverflow. */
  predicate SubOverflow(a: Word, b: Word, r: Word)
  {
    (Negative(a) && !Negative(b) && !Negative(r)) || (!Negative(a) && Negative(b) && Negative(r))
  }

  /** ARMul_AddCarry. */
  predicate AddCarry(a: Word, b: Word, r: Word)
  {
    (Negative(a) && Negative(b)) || (Negative(a) && !Negative(r)) || (Negative(b) && !Negative(r))
  }

  /** ARMul_SubCarry. */
  predicate SubCarry(a: Word, b: Word, r: Word)
  {
    (Negative(a) && !Negative(b)) || (Negative(a) && !Negative(r)) || (!Negative(b) && !Negative(r))
  }

  // ---------------------------------------------------------------------------------------------
  // armemu32.c: the flag sections of ADDS, ADCS, CMN and of SUBS, SBCS, RSBS, RSCS, CMP, each with
  // its short cut

  /** ADDS, ADCS, CMN: C, V and N can be set only if one operand has a bit above bit 29. */
  function AddFlags(a: Word, b: Word, r: Word): Nzcv
  {
    if Either(a, b) >> 30 != 0 then
      Nzcv(Negative(r), r.bits == 0, AddCarry(a, b, r), AddOverflow(a, b, r))
    else
      Nzcv(false, r.bits == 0, false, false)
  }

  /** SUBS and its relatives: C and V are cleared when a < b and neither is negative. */
  function SubFlags(f: Nzcv, a: Word, b: Word, r: Word): Nzcv
  {
    if a.bits >= b.bits || Either(b, a) >> 31 != 0 then
      f.(c := SubCarry(a, b, r), v := SubOverflow(a, b, r))
    else
      f.(c := false, v := false)
  }

  /** ADC: lhs + rhs + CFLAG. */
  function Adc(a: Word, b: Word, c: bool): Word { Plus(Plus(a, b), One(c)) }

  /** SBC: lhs - rhs - !CFLAG. */
  function Sbc(a: Word, b: Word, c: bool): Word { Minus(Minus(a, b), One(!c)) }

  /** ADDS: the result and the flags. */
  function Adds(a: Word, b: Word): (Word, Nzcv)
  {
    var r := Plus(a, b);
    (r, NegZero(AddFlags(a, b, r), r))
  }

  function Adcs(a: Word, b: Word, f: Nzcv): (Word, Nzcv)
  {
    var r := Adc(a, b, f.c);
    (r, NegZero(AddFlags(a, b, r), r))
  }

  function Subs(a: Word, b: Word, f: Nzcv): (Word, Nzcv)
  {
    var r := Minus(a, b);
    (r, NegZero(SubFlags(f, a, b, r), r))
  }

  function Sbcs(a: Word, b: Word, f: Nzcv): (Word, Nzcv)
  {
    var r := Sbc(a, b, f.c);
    (r, NegZero(SubFlags(f, a, b, r), r))
  }

  /** CMP: the flags of SUBS, with ARMul_NegZero first. */
  function Cmp(a: Word, b: Word, f: Nzcv): Nzcv
  {
    var r := Minus(a, b);
    SubFlags(NegZero(f, r), a, b, r)
  }

  // ---------------------------------------------------------------------------------------------
  // Condition codes

  const EQ: Bits := 0
  const NE: Bits := 1
  const CS: Bits := 2
  const CC: Bits := 3
  const MI: Bits := 4
  const PL: Bits := 5
  const VS: Bits := 6
  const VC: Bits := 7
  const HI: Bits := 8
  const LS: Bits := 9
  const GE: Bits := 10
  const LT: Bits := 11
  const GT: Bits := 12
  const LE: Bits := 13
  const AL: Bits := 14

  /** The condition check of the main loop, for a core before v5 (condition NV never holds). */
  predicate Holds(cond: Bits, f: Nzcv)
  {
    if cond == AL then true
    else if cond == EQ then f.z
    else if cond == NE then !f.z
    else if cond == VS then f.v
    else if cond == VC then !f.v
    else if cond == MI then f.n
    else if cond == PL then !f.n
    else if cond == CS then f.c
    else if cond == CC then !f.c
    else if cond == HI then f.c && !f.z
    else if cond == LS then !f.c || f.z
    else if cond == GE then (!f.n && !f.v) || (f.n && f.v)
    else if cond == LT then (f.n && !f.v) || (!f.n && f.v)
    else if cond == GT then (!f.n && !f.v && !f.z) || (f.n && f.v && !f.z)
    else if cond == LE then ((f.n && !f.v) || (!f.n && f.v)) || f.z
    else false
  }

  // ---------------------------------------------------------------------------------------------
  // What the flags mean

  const HALF: int := 0x8000_0000

  /** The two's-complement value of a word. */
  function Signed(w: Word): int { if Num(w) >= HALF then Num(w) - LIMB else Num(w) }

  /** By how much a signed result is off when V is set: it came out negative although the exact result
      is positive, or the other way round. */
  function Wrap(overflow: bool, negative: bool): int
  {
    if !overflow then 0 else if negative then LIMB else 0 - LIMB
  }

  function Bin(b: bool): nat { if b then 1 else 0 }

  lemma Facts(w: Word)
    ensures Num(w) < LIMB
    ensures Negative(w) <==> Num(w) >= HALF
    ensures w.bits == 0 <==> Num(w) == 0
  {
    NumLimit(w);
    NatSign(w.bits);
    NatOrder(w.bits, 0);
    LowZero(32);
  }

  lemma NumOne(b: bool)
    ensures Num(One(b)) == Bin(b)
  {
    LowZero(32);
    LowOneAt(0, 32);
  }

  lemma NumPlus(a: Word, b: Word)
    ensures Num(Plus(a, b)) == if Num(a) + Num(b) < LIMB then Num(a) + Num(b) else Num(a) + Num(b) - LIMB
  {
    hide Nat, Of;
    NatOf(Num(a) + Num(b));
    NumLimit(a);
    NumLimit(b);
  }

  lemma NumMinus(a: Word, b: Word)
    ensures Num(Minus(a, b)) == if Num(a) >= Num(b) then Num(a) - Num(b) else Num(a) - Num(b) + LIMB
  {
    hide Nat, Of;
    NumLimit(a);
    NumLimit(b);
    NatOf(LIMB + Num(a) - Num(b));
  }

  lemma NumAdc(a: Word, b: Word, c: bool)
    ensures var s := Num(a) + Num(b) + Bin(c); Num(Adc(a, b, c)) == if s < LIMB then s else s - LIMB
  {
    hide Num, Plus, One;
    NumOne(c);
    NumPlus(a, b);
    NumPlus(Plus(a, b), One(c));
    NumLimit(a);
    NumLimit(b);
  }

  lemma NumSbc(a: Word, b: Word, c: bool)
    ensures var s := Num(a) - Num(b) - Bin(!c); Num(Sbc(a, b, c)) == if s >= 0 then s else s + LIMB
  {
    hide Num, Minus, One;
    NumOne(!c);
    NumMinus(a, b);
    NumMinus(Minus(a, b), One(!c));
    NumLimit(a);
    NumLimit(b);
  }

  lemma EitherSmall(a: Word, b: Word)
    ensures Either(a, b) >> 30 == 0 ==> Num(a) < 0x4000_0000 && Num(b) < 0x4000_0000
  {
    NatTop();
    NatAtMost(0x4000_0000, a.bits);
    NatAtMost(0x4000_0000, b.bits);
    NotAbove(a.bits, b.bits);
  }

  lemma NotAbove(x: Bits, y: Bits)
    ensures (x | y) >> 30 == 0 ==> !AtMost(0x4000_0000, x) && !AtMost(0x4000_0000, y)
  {}

  lemma EitherPositive(a: Word, b: Word)
    ensures Either(b, a) >> 31 == 0 ==> !Negative(a) && !Negative(b)
  {}

  /** The flags of an addition with carry in are exact: the short cut loses no carry, overflow or sign. */
  lemma AddFlagsExact(a: Word, b: Word, c: bool)
    ensures var r := Adc(a, b, c);
            var f := AddFlags(a, b, r);
            && f.n == (Signed(r) < 0) && f.z == (Num(r) == 0)
            && Num(a) + Num(b) + Bin(c) == Num(r) + (if f.c then LIMB else 0)
            && Signed(a) + Signed(b) + Bin(c) == Signed(r) + Wrap(f.v, f.n)
  {
    hide Num, Adc, Either, Negative;
    var r := Adc(a, b, c);
    NumAdc(a, b, c);
    Facts(a);
    Facts(b);
    Facts(r);
    EitherSmall(a, b);
  }

  lemma SubFlagsExact(f: Nzcv, a: Word, b: Word, c: bool)
    ensures var r := Sbc(a, b, c);
            var g := SubFlags(f, a, b, r);
            && Num(a) - Num(b) - Bin(!c) == Num(r) - (if g.c then 0 else LIMB)
            && Signed(a) - Signed(b) - Bin(!c)
            == Signed(r) + Wrap(g.v, Signed(r) < 0)
  {
    hide Num, Sbc, Either, Negative;
    var r := Sbc(a, b, c);
    NumSbc(a, b, c);
    Facts(a);
    Facts(b);
    Facts(r);
    NatOrder(b.bits, a.bits);
    assert a.bits >= b.bits <==> Num(a) >= Num(b) by { hide *; NumNat(a); NumNat(b); }
    EitherPositive(a, b);
  }

  lemma NumNat(w: Word)
    ensures Num(w) == Nat(w.bits)
  {}
}
