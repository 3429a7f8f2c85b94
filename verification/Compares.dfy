/** A comparison and a conditional instruction after it: the instruction is executed exactly when the order its condition
    names holds between the two operands. */
module Compares {
  import opened Words
  import opened State
  import opened Alu
  import opened DataPath
  import opened Manual
  import M = MultiWord
  import opened Execute
  import opened MainSwitch
  import opened Emulator
  import opened DataWords
  import opened Conditions

  /** Bits 28 to 31 after CMP a,b: equality, the unsigned order, the sign of the difference modulo 2^32, its overflow, and the
      signed order. */
  predicate Ordered(k: Bits, a: Word, b: Word)
  {
    if k == 0 then Num(a) == Num(b)
    else if k == 1 then Num(a) != Num(b)
    else if k == 2 then Num(a) >= Num(b)
    else if k == 3 then Num(a) < Num(b)
    else if k == 4 then (Num(a) - Num(b)) % LIMB >= HALF
    else if k == 5 then (Num(a) - Num(b)) % LIMB < HALF
    else if k == 6 then !Fits(Signed(a) - Signed(b))
    else if k == 7 then Fits(Signed(a) - Signed(b))
    else if k == 8 then Num(a) > Num(b)
    else if k == 9 then Num(a) <= Num(b)
    else if k == 10 then Signed(a) >= Signed(b)
    else if k == 11 then Signed(a) < Signed(b)
    else if k == 12 then Signed(a) > Signed(b)
    else if k == 13 then Signed(a) <= Signed(b)
    else k == 14
  }

  predicate PassesAt(k: Bits, f: Nzcv) { Passes(k, f.n, f.z, f.c, f.v) }

  lemma CmpIsSubtracted(a: Word, b: Word, f: Nzcv)
    ensures Cmp(a, b, f) == Subtracted(a, b, true).f
  {
    hide Num, Sbc, Minus, SubFlags, NegZero, Subtracted;
    MinusIsSbc(a, b);
    SbcIsSubtracted(f, a, b, true);
  }

  lemma OrderConditions(a: Word, b: Word)
    ensures var f := Subtracted(a, b, true).f;
            && (f.z <==> Num(a) == Num(b)) && (f.c <==> Num(a) >= Num(b)) && (f.n == f.v <==> Signed(a) >= Signed(b))
            && (!f.z && f.n == f.v <==> Signed(a) > Signed(b)) && (f.c && !f.z <==> Num(a) > Num(b))
  {
    hide Num, Signed, Subtracted, Cmp, Holds;
    var f := Nzcv(false, false, false, false);
    CmpIsSubtracted(a, b, f);
    M.CmpOrder(a, b, f);
    M.HoldsMeans(Cmp(a, b, f));
    if Num(a) == Num(b) { WordsEqual(a, b); }
  }

  lemma WordsEqual(a: Word, b: Word)
    requires Num(a) == Num(b)
    ensures a == b
  {
    NatInjective(a.bits, b.bits);
    hide Nat;
  }

  lemma SignConditions(a: Word, b: Word)
    ensures var f := Subtracted(a, b, true).f;
            && (f.n <==> (Num(a) - Num(b)) % LIMB >= HALF) && (f.v <==> !Fits(Signed(a) - Signed(b)))
  {
    hide Nat, Of, Low, OfBits;
    var d := Num(a) - Num(b);
    NumLimit(a);
    NumLimit(b);
    NatOf(if d >= 0 then d else d + LIMB);
    assert Bin(!true) == 0;
    Reduced(d);
  }

  lemma Reduced(d: int)
    requires 0 - LIMB < d < LIMB
    ensures d % LIMB == if d >= 0 then d else d + LIMB
    ensures d < 0 ==> (d + LIMB) % LIMB == d + LIMB
  {}

  lemma OrderedPasses(k: Bits, a: Word, b: Word)
    requires k < 16
    ensures PassesAt(k, Subtracted(a, b, true).f) <==> Ordered(k, a, b)
  {
    OrderConditions(a, b);
    SignConditions(a, b);
    hide Num, Signed, Subtracted, Fits;
  }

  // ---------------------------------------------------------------------------------------------
  // Two instructions

  /** The second operand of a comparison. */
  function Second(c: Core, w: Bits): Word { Word(ShifterOperand(c, w).value) }

  predicate IsCompare(w: Bits) { IsPlainData(w) && OpField(w) == 10 && Rd(w) != 15 && w >> 28 == 14 }

  lemma ComparedIs(c: Core, w: Bits)
    requires OpField(w) == 10 && BitAt(w, 20)
    ensures DataMeaning(c, w) == WithFlags(Reading(c, w), Subtracted(First(c, w), Second(c, w), true).f)
  {
    MeaningParts(c, w);
    CmpRow(First(c, w), Second(c, w), ShifterOperand(c, w).carry, c.c, c.v);
    hide ShifterOperand, Reading, BitAt, Computed, First, WithFlags, Subtracted, OpField, DataMeaning;
  }

  lemma CmpRow(a: Word, b: Word, shifter: bool, c: bool, v: bool)
    ensures Computed(10, a, b, shifter, c, v) == Subtracted(a, b, true) && Comparing(10)
  {
    hide Subtracted, Added, Logical;
  }

  lemma CompareSets(w: Bits)
    requires IsCompare(w)
    ensures BitAt(w, 20) && IsPlainData(w) && OpField(w) == 10 && Rd(w) != 15
  {
    TestSets(w);
    OpTable(w);
    hide IsPlainData, Rd, OpOf, IsTest, BitAt;
  }

  lemma AlwaysPasses(w: Bits, n: bool, z: bool, c: bool, v: bool)
    requires w >> 28 == 14
    ensures Passes(w >> 28, n, z, c, v) && Holds(w >> 28, Nzcv(n, z, c, v))
  {}

  lemma CompareParts(w: Bits)
    requires IsCompare(w)
    ensures w >> 28 == 14
  {
    hide IsPlainData, OpField, Rd;
  }

  lemma WithFlagsFlags(c: Core, f: Nzcv)
    ensures FlagsOf(WithFlags(c, f)) == f
  {}

  lemma CompareModelled(w: Bits)
    requires IsPlainData(w)
    ensures Modelled(w)
  {
    hide IsData, IsMultiply, IsHalf, IsTransfer, IsLongMultiply, IsMsr, IsBlock, IsSwap, IsMrs, IsBx, IsArmBranch, IsSwi, IsIdle;
  }

  /** The flags after a comparison. */
  lemma CompareFlags(c: Core, pins: Pins, w: Bits, pc: Word)
    requires !c.t && IsCompare(w)
    ensures FlagsOf(Emulated(c, pins, w, pc)) == Subtracted(First(c, w), Second(c, w), true).f
  {
    hide *;
    CompareSets(w);
    CompareParts(w);
    AlwaysPasses(w, c.n, c.z, c.c, c.v);
    FlagsFields(c);
    CompareModelled(w);
    EmulatedArm(c, pins, w, pc);
    DataWord(c, pins, w, pc);
    ComparedIs(c, w);
    WithFlagsFlags(Reading(c, w), Subtracted(First(c, w), Second(c, w), true).f);
  }

  /** CMP, and then, in any state with the flags it left, an instruction with a condition. */
  lemma ConditionalAfterCompare(c: Core, pins: Pins, w: Bits, pc: Word, e: Core, x: Bits, next: Word)
    requires !c.t && IsCompare(w) && !e.t && FlagsOf(e) == FlagsOf(Emulated(c, pins, w, pc))
    ensures Emulated(e, pins, x, next)
         == if Ordered(x >> 28, First(c, w), Second(c, w)) then Emulated(e, pins, Unconditional(x), next) else e
  {
    hide *;
    CompareFlags(c, pins, w, pc);
    TopSmall(x);
    OrderedPasses(x >> 28, First(c, w), Second(c, w));
    FlagsFields(e);
    PassesParts(x >> 28, e);
    ConditionDecides(e, pins, x, next);
  }

  lemma PassesParts(k: Bits, e: Core)
    ensures PassesAt(k, FlagsOf(e)) == Passes(k, e.n, e.z, e.c, e.v)
  {
    hide Passes;
  }
}
