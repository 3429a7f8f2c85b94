/** Thumb translation preserves meaning: running the ARM instruction that ARMul_ThumbDecode produces has the
    effect of the Thumb instruction. */
module ThumbProof {
  import opened Words
  import opened State
  import opened Shifter
  import opened Alu
  import opened DataPath
  import opened Manual
  import opened Execute
  import T = Thumb
  import opened ThumbMeaning

  /** Equal but for the fetch state: the kind of the next fetch and the abort signal of the last access. */
  predicate Same(c: Core, d: Core) { d == c.(nextInstr := d.nextInstr, abortSig := d.abortSig) }

  lemma SmallField(t: Bits, k: Bits)
    requires k < 32
    ensures Low3(t, k) < 8
  {
    LowSeven(Field(t, k, 7));
  }

  lemma LowSeven(x: Bits)
    requires x < 8
    ensures RegNumber(x) < 8
  {
    assert Low(x, 4) == 2 * Low(Half(x), 3) + Bin(Odd(x));
    assert Low(Half(x), 3) == 2 * Low(Half(Half(x)), 2) + Bin(Odd(Half(x)));
    assert Low(Half(Half(x)), 2) == 2 * Low(Half(Half(Half(x))), 1) + Bin(Odd(Half(Half(x))));
    assert !Odd(Half(Half(Half(x))));
  }

  // ---------------------------------------------------------------------------------------------
  // Format 1

  predicate IsFormat1(t: Bits) { t < 0x1_0000 && (t & 0xF800) >> 11 <= 2 }

  lemma Fields1(t: Bits)
    requires IsFormat1(t)
    ensures var w := T.Format1(t);
            && IsData(w) && !IsMultiply(w) && !IsHalf(w) && !IsTransfer(w)
            && OpOf(w) == MOV && BitAt(w, 20) && !BitAt(w, 25) && !BitAt(w, 4)
  {}

  lemma Operands1(t: Bits)
    requires IsFormat1(t)
    ensures var w := T.Format1(t);
            && Nibble(w, 12) == Field(t, 0, 7) && Nibble(w, 0) == Field(t, 3, 7) && Shamt(w) == Field(t, 6, 31)
            && KindOf(w) == KindField(t)
    ensures Unshifted(T.Format1(t)) ==> KindField(t) == LSL && Field(t, 6, 31) == 0
    ensures KindField(t) == LSL && Field(t, 6, 31) == 0 ==> Unshifted(T.Format1(t))
  {}

  lemma ConstantParts(c: Core, w: Bits)
    requires !BitAt(w, 25) && !BitAt(w, 4)
    ensures Unshifted(w) ==> Operand(c, w, true) == (c, c.reg[Rm(w)])
    ensures !Unshifted(w) ==> var s := ByConstant(c, w); Operand(c, w, true) == (WithCarry(c, s.carry), Word(s.value))
  {
    hide BitAt, Rm, ByConstant, WithCarry, Unshifted;
  }

  lemma SameCarry(c: Core)
    ensures WithCarry(c, c.c) == c
  {}

  lemma ByConstantIs(c: Core, w: Bits)
    requires !Unshifted(w) && !BitAt(w, 4)
    ensures Shamt(w) < 32 && ByConstant(c, w) == ImmShiftSteps(KindOf(w), c.reg[Rm(w)].bits, Shamt(w), c.c)
  {
    MacroFilter(w);
    hide BitAt, Rm, Shamt, KindOf, ImmShift, Unshifted, ImmShiftSteps;
    ImmShiftIsManual(KindOf(w), c.reg[Rm(w)].bits, Shamt(w), c.c);
  }

  lemma NoShift(x: Bits, carry: bool)
    ensures ImmShiftSteps(LSL, x, 0, carry) == Shifted(x, carry)
  {}

  /** A constant shift, LSL #0 included, is the shifter of the manual. */
  lemma ConstantOperand(c: Core, w: Bits)
    requires !BitAt(w, 25) && !BitAt(w, 4) && (Unshifted(w) <==> KindOf(w) == LSL && Shamt(w) == 0)
    ensures var s := ImmShiftSteps(KindOf(w), c.reg[Rm(w)].bits, Shamt(w), c.c);
            Operand(c, w, true) == (WithCarry(c, s.carry), Word(s.value))
  {
    ConstantParts(c, w);
    SameCarry(c);
    NoShift(c.reg[Rm(w)].bits, c.c);
    if !Unshifted(w) { ByConstantIs(c, w); }
    hide BitAt, Rm, Shamt, KindOf, ImmShiftSteps, Unshifted, ImmShiftSteps, Operand, WithCarry, ByConstant;
  }

  /** MOVS with a constant shift. */
  lemma MovsShifted(c: Core, w: Bits)
    requires !BitAt(w, 25) && !BitAt(w, 4) && (Unshifted(w) <==> KindOf(w) == LSL && Shamt(w) == 0)
    requires OpOf(w) == MOV && BitAt(w, 20) && Rd(w) != 15
    ensures var s := ImmShiftSteps(KindOf(w), c.reg[Rm(w)].bits, Shamt(w), c.c);
            DataProcessed(c, w) == PutLogical(c, Rd(w), Word(s.value), s.carry)
  {
    var s := ImmShiftSteps(KindOf(w), c.reg[Rm(w)].bits, Shamt(w), c.c);
    ConstantOperand(c, w);
    MovPuts(c, w, Word(s.value), s.carry);
    hide *;
  }

  lemma MovPuts(c: Core, w: Bits, rhs: Word, carry: bool)
    requires OpOf(w) == MOV && BitAt(w, 20) && Rd(w) != 15 && Operand(c, w, true) == (WithCarry(c, carry), rhs)
    ensures DataProcessed(c, w) == PutLogical(c, Rd(w), rhs, carry)
  {
    LogicalPuts(c, w, rhs, carry);
    hide BitAt, Rd, OpOf, DataProcessed, Operand, Lhs, PutFlags, LogicalFlags, WithCarry;
  }

  lemma Registers1(t: Bits)
    requires IsFormat1(t)
    ensures Rd(T.Format1(t)) == Low3(t, 0) && Rm(T.Format1(t)) == Low3(t, 3) && Rd(T.Format1(t)) != 15
  {
    hide RegNumber, Nibble, Field, T.Format1;
    Operands1(t);
    SmallField(t, 0);
  }

  /** LSL, LSR and ASR by a constant. */
  lemma Translates1(c: Core, pins: Pins, t: Bits)
    requires IsFormat1(t)
    ensures Supported(T.Format1(t)) && Executed(c, pins, T.Format1(t)) == Meaning(c, pins, Parse1(t))
  {
    var w := T.Format1(t);
    Fields1(t);
    Operands1(t);
    Registers1(t);
    hide BitAt, KindOf, Shamt, Rm, Rd, OpOf, T.Format1, ImmShiftSteps, Unshifted, IsData, IsMultiply, IsHalf, IsTransfer,
      DataProcessed, PutLogical, Nibble, Field, Low3, KindField, IsFormat1;
    MovsShifted(c, w);
  }

  // ---------------------------------------------------------------------------------------------
  // Formats 2 and 3

  lemma SmallImmediate(x: Bits)
    requires x < 256
    ensures Immediate(x) == x
  {}

  lemma ImmediateOperand(c: Core, w: Bits, carry: bool)
    requires BitAt(w, 25) && Imm12(w) < 256
    ensures Operand(c, w, carry) == (c, Word(Imm12(w))) && WithCarry(c, c.c) == c
  {
    SmallImmediate(Imm12(w));
    hide BitAt, Imm12, Immediate;
  }

  lemma RegisterOperand(c: Core, w: Bits, carry: bool)
    requires !BitAt(w, 25) && Unshifted(w)
    ensures Operand(c, w, carry) == (c, c.reg[Rm(w)]) && WithCarry(c, c.c) == c
  {
    hide BitAt, Rm, Unshifted;
  }

  lemma LowLhs(c: Core, w: Bits)
    requires Rn(w) != 15
    ensures Lhs(c, w) == c.reg[Rn(w)]
  {
    hide Rn;
  }

  predicate IsFormat2(t: Bits) { t < 0x1_0000 && (t & 0xF800) >> 11 == 3 }

  lemma Fields2(t: Bits)
    requires IsFormat2(t)
    ensures var w := T.Format2(t);
            && IsData(w) && !IsMultiply(w) && !IsHalf(w) && !IsTransfer(w)
            && BitAt(w, 20) && BitAt(w, 25) == BitAt(t, 10) && OpOf(w) == (if BitAt(t, 9) then SUB else ADD)
  {}

  lemma Operands2(t: Bits)
    requires IsFormat2(t)
    ensures var w := T.Format2(t);
            && Nibble(w, 12) == Field(t, 0, 7) && Nibble(w, 16) == Field(t, 3, 7) && Nibble(w, 0) == Field(t, 6, 7)
            && Unshifted(w) && Imm12(w) == Field(t, 6, 7) && Imm12(w) < 256
  {}

  lemma Registers2(t: Bits)
    requires IsFormat2(t)
    ensures var w := T.Format2(t);
            && Rd(w) == Low3(t, 0) && Rn(w) == Low3(t, 3) && Rm(w) == Low3(t, 6) && Rd(w) != 15 && Rn(w) != 15
  {
    hide RegNumber, Nibble, Field, T.Format2, Unshifted, Imm12;
    Operands2(t);
    SmallField(t, 0);
    SmallField(t, 3);
  }

  lemma DataExecuted(c: Core, pins: Pins, w: Bits)
    requires IsData(w) && !IsMultiply(w) && !IsHalf(w) && !IsTransfer(w)
    ensures Supported(w) && Executed(c, pins, w) == DataProcessed(c, w)
  {
    hide IsData, IsMultiply, IsHalf, IsTransfer, DataProcessed;
  }

  lemma AddSubResult(sub: bool, a: Word, b: Word, c: bool)
    ensures var op := if sub then SUB else ADD; !IsLogical(op) && !IsTest(op) && ArithmeticResult(op, a, b, c) == AddOrSub(sub, a, b)
  {
    hide Added, Subtracted;
  }

  lemma PutResultIs(c: Core, r: RegNo, x: Result)
    ensures PutResult(c, r, x) == PutFlags(c, r, x.r, x.f)
  {
    hide PutFlags;
  }

  lemma AddSubPuts(c: Core, w: Bits, sub: bool, rhs: Word)
    requires BitAt(w, 20) && OpOf(w) == (if sub then SUB else ADD) && Rd(w) != 15 && Operand(c, w, false) == (c, rhs)
    ensures DataProcessed(c, w) == PutResult(c, Rd(w), AddOrSub(sub, Lhs(c, w), rhs))
  {
    hide *;
    AddSubResult(sub, Lhs(c, w), rhs, c.c);
    ArithmeticPuts(c, w, rhs);
    PutResultIs(c, Rd(w), AddOrSub(sub, Lhs(c, w), rhs));
  }

  lemma Meaning2(c: Core, pins: Pins, t: Bits)
    ensures var b := if BitAt(t, 10) then Word(Field(t, 6, 7)) else c.reg[Low3(t, 6)];
            Meaning(c, pins, Parse2(t)) == PutResult(c, Low3(t, 0), AddOrSub(BitAt(t, 9), c.reg[Low3(t, 3)], b))
  {
    hide BitAt, Field, Low3, PutResult, AddOrSub;
  }

  /** ADD and SUB of a register or a small constant. */
  lemma Translates2(c: Core, pins: Pins, t: Bits)
    requires IsFormat2(t)
    ensures Supported(T.Format2(t)) && Executed(c, pins, T.Format2(t)) == Meaning(c, pins, Parse2(t))
  {
    hide *;
    var w := T.Format2(t);
    Fields2(t);
    Operands2(t);
    Registers2(t);
    DataExecuted(c, pins, w);
    if BitAt(t, 10) { ImmediateOperand(c, w, false); } else { RegisterOperand(c, w, false); }
    LowLhs(c, w);
    AddSubPuts(c, w, BitAt(t, 9), if BitAt(t, 10) then Word(Imm12(w)) else c.reg[Rm(w)]);
    Meaning2(c, pins, t);
  }

  predicate IsFormat3(t: Bits) { t < 0x1_0000 && 4 <= (t & 0xF800) >> 11 <= 7 }

  lemma Fields3(t: Bits)
    requires IsFormat3(t)
    ensures var w := T.Format3(t);
            && IsData(w) && !IsMultiply(w) && !IsHalf(w) && !IsTransfer(w) && BitAt(w, 20) && BitAt(w, 25)
            && OpOf(w) == (if BitAt(t, 12) then (if BitAt(t, 11) then SUB else ADD) else if BitAt(t, 11) then CMP else MOV)
  {}

  lemma Operands3(t: Bits)
    requires IsFormat3(t)
    ensures var w := T.Format3(t);
            && Nibble(w, 12) == Field(t, 8, 7) && Imm12(w) == Field(t, 0, 0xFF) && Imm12(w) < 256
            && Nibble(w, 16) == Field(t, 8, 7)
  {}

  lemma Registers3(t: Bits)
    requires IsFormat3(t)
    ensures var w := T.Format3(t); Rd(w) == Low3(t, 8) && Rn(w) == Low3(t, 8) && Rd(w) != 15
  {
    hide RegNumber, Nibble, Field, T.Format3, Imm12;
    Operands3(t);
    SmallField(t, 8);
  }

  lemma CmpPuts(c: Core, w: Bits, rhs: Word)
    requires BitAt(w, 20) && OpOf(w) == CMP && Rd(w) != 15 && Operand(c, w, false) == (c, rhs)
    ensures DataProcessed(c, w) == WithFlags(c, Subtracted(Lhs(c, w), rhs, true).f)
  {
    ArithmeticPuts(c, w, rhs);
    hide BitAt, Rd, OpOf, Operand, DataProcessed, Lhs, PutFlags, Added, Subtracted, WithFlags;
  }

  function Meant3(c: Core, add: bool, second: bool, r: RegNo, w: Word): Core
  {
    if add then PutResult(c, r, AddOrSub(second, c.reg[r], w))
    else if second then WithFlags(c, Subtracted(c.reg[r], w, true).f)
    else PutLogical(c, r, w, c.c)
  }

  lemma Meant3Is(c: Core, add: bool, second: bool, r: RegNo, w: Word)
    ensures add ==> Meant3(c, add, second, r, w) == PutResult(c, r, AddOrSub(second, c.reg[r], w))
    ensures !add && second ==> Meant3(c, add, second, r, w) == WithFlags(c, Subtracted(c.reg[r], w, true).f)
    ensures !add && !second ==> Meant3(c, add, second, r, w) == PutLogical(c, r, w, c.c)
  {
    hide PutResult, AddOrSub, PutLogical, WithFlags, Subtracted;
  }

  lemma Meaning3(c: Core, pins: Pins, t: Bits)
    ensures Meaning(c, pins, Parse3(t)) == Meant3(c, BitAt(t, 12), BitAt(t, 11), Low3(t, 8), Word(Field(t, 0, 0xFF)))
  {
    hide BitAt, Field, Low3, PutResult, AddOrSub, PutLogical, WithFlags;
  }

  /** MOV, CMP, ADD and SUB of an 8-bit constant. */
  lemma Translates3(c: Core, pins: Pins, t: Bits)
    requires IsFormat3(t)
    ensures Supported(T.Format3(t)) && Executed(c, pins, T.Format3(t)) == Meaning(c, pins, Parse3(t))
  {
    hide *;
    Meaning3(c, pins, t);
    Meant3Is(c, BitAt(t, 12), BitAt(t, 11), Low3(t, 8), Word(Field(t, 0, 0xFF)));
    var w := T.Format3(t);
    Fields3(t);
    Operands3(t);
    Registers3(t);
    DataExecuted(c, pins, w);
    ImmediateOperand(c, w, true);
    ImmediateOperand(c, w, false);
    LowLhs(c, w);
    if BitAt(t, 12) {
      AddSubPuts(c, w, BitAt(t, 11), Word(Imm12(w)));
    } else if BitAt(t, 11) {
      CmpPuts(c, w, Word(Imm12(w)));
    } else {
      MovPuts(c, w, Word(Imm12(w)), c.c);
    }
  }
}
