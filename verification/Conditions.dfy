/** Conditional execution (ARM DDI 0100, section A3.2). Bits 28 to 31 of an ARM instruction decide whether it is executed,
    and nothing else: its effect is that of the same word with the condition AL, or none. */
module Conditions {
  import opened Words
  import opened State
  import opened Support
  import opened Shifter
  import opened Alu
  import opened DataPath
  import opened Exceptions
  import opened Block
  import opened Multiply
  import opened Single
  import opened Execute
  import opened Transfer
  import opened MainSwitch
  import opened Emulator

  // ---------------------------------------------------------------------------------------------
  // The condition field

  /** Table A3-1: the sixteen values of bits 28 to 31, in terms of the flags. */
  predicate Passes(k: Bits, n: bool, z: bool, c: bool, v: bool)
  {
    if k == 0 then z
    else if k == 1 then !z
    else if k == 2 then c
    else if k == 3 then !c
    else if k == 4 then n
    else if k == 5 then !n
    else if k == 6 then v
    else if k == 7 then !v
    else if k == 8 then c && !z
    else if k == 9 then !c || z
    else if k == 10 then n == v
    else if k == 11 then n != v
    else if k == 12 then !z && n == v
    else if k == 13 then z || n != v
    else k == 14
  }

  /** The instruction with the condition AL. */
  function Unconditional(w: Bits): Bits { (w & 0x0FFF_FFFF) | 0xE000_0000 }

  // ---------------------------------------------------------------------------------------------
  // The rest of the word does not depend on it

  predicate SameRegisters(w: Bits, x: Bits) { Rn(w) == Rn(x) && Rd(w) == Rd(x) && Rs(w) == Rs(x) && Rm(w) == Rm(x) }

  predicate SameOperands(w: Bits, x: Bits)
  {
    && OpOf(w) == OpOf(x) && KindOf(w) == KindOf(x) && Shamt(w) == Shamt(x) && Imm12(w) == Imm12(x)
    && Unshifted(w) == Unshifted(x) && Nibble(w, 0) == Nibble(x, 0) && Nibble(w, 8) == Nibble(x, 8)
    && BranchOffset(w) == BranchOffset(x) && FieldMask(w, true) == FieldMask(x, true) && FieldMask(w, false) == FieldMask(x, false)
  }

  predicate SameBits(w: Bits, x: Bits)
  {
    && BitAt(w, 4) == BitAt(x, 4) && BitAt(w, 5) == BitAt(x, 5) && BitAt(w, 6) == BitAt(x, 6) && BitAt(w, 15) == BitAt(x, 15)
    && BitAt(w, 20) == BitAt(x, 20) && BitAt(w, 21) == BitAt(x, 21) && BitAt(w, 22) == BitAt(x, 22)
    && BitAt(w, 23) == BitAt(x, 23) && BitAt(w, 24) == BitAt(x, 24) && BitAt(w, 25) == BitAt(x, 25)
  }

  predicate SameKinds(w: Bits, x: Bits)
  {
    && IsMultiply(w) == IsMultiply(x) && IsHalf(w) == IsHalf(x) && IsTransfer(w) == IsTransfer(x) && IsData(w) == IsData(x)
    && IsLongMultiply(w) == IsLongMultiply(x) && IsSwap(w) == IsSwap(x) && IsMrs(w) == IsMrs(x) && IsBx(w) == IsBx(x)
    && IsMsr(w) == IsMsr(x) && IsArmBranch(w) == IsArmBranch(x) && IsSwi(w) == IsSwi(x) && IsBlock(w) == IsBlock(x)
    && IsIdle(w) == IsIdle(x) && RegList(w) == RegList(x)
  }

  predicate SameFields(w: Bits, x: Bits) { SameRegisters(w, x) && SameOperands(w, x) && SameBits(w, x) && SameKinds(w, x) }

  lemma RegistersSame(w: Bits)
    ensures SameRegisters(w, Unconditional(w))
  {
    NibblesSame(w);
    hide RegNumber, Nibble, Unconditional;
  }

  lemma NibblesSame(w: Bits)
    ensures var x := Unconditional(w);
            Nibble(w, 16) == Nibble(x, 16) && Nibble(w, 12) == Nibble(x, 12) && Nibble(w, 8) == Nibble(x, 8)
    ensures Nibble(w, 0) == Nibble(Unconditional(w), 0) && Nibble(w, 21) == Nibble(Unconditional(w), 21)
  {}

  lemma BitsSame(w: Bits)
    ensures SameBits(w, Unconditional(w))
  {}

  lemma ShiftFieldsSame(w: Bits)
    ensures var x := Unconditional(w); KindOf(w) == KindOf(x) && Shamt(w) == Shamt(x) && Imm12(w) == Imm12(x)
    ensures Unshifted(w) == Unshifted(Unconditional(w))
  {}

  lemma MasksSame(w: Bits)
    ensures FieldMask(w, true) == FieldMask(Unconditional(w), true) && FieldMask(w, false) == FieldMask(Unconditional(w), false)
  {}

  lemma OffsetsSame(w: Bits)
    ensures BranchOffset(w) == BranchOffset(Unconditional(w))
  {}

  lemma OperandsSame(w: Bits)
    ensures SameOperands(w, Unconditional(w))
  {
    var x := Unconditional(w);
    NibblesSame(w);
    OpSame(w, x);
    ShiftFieldsSame(w);
    MasksSame(w);
    OffsetsSame(w);
    hide Nibble, OpOf, KindOf, Shamt, Imm12, Unshifted, BranchOffset, FieldMask, Unconditional;
  }

  lemma OpSame(w: Bits, x: Bits)
    requires Nibble(w, 21) == Nibble(x, 21)
    ensures OpOf(w) == OpOf(x)
  {
    hide Nibble;
  }

  lemma CoreKindsSame(w: Bits)
    ensures var x := Unconditional(w); IsMultiply(w) == IsMultiply(x) && IsHalf(w) == IsHalf(x) && IsTransfer(w) == IsTransfer(x)
  {}

  lemma OtherKindsSame(w: Bits)
    ensures var x := Unconditional(w);
            IsLongMultiply(w) == IsLongMultiply(x) && IsSwap(w) == IsSwap(x) && IsMrs(w) == IsMrs(x) && IsBx(w) == IsBx(x)
    ensures var x := Unconditional(w); IsArmBranch(w) == IsArmBranch(x) && IsSwi(w) == IsSwi(x) && IsMsr(w) == IsMsr(x)
  {}

  lemma ClassSame(w: Bits)
    ensures var x := Unconditional(w);
            w & 0x0E00_0000 == x & 0x0E00_0000 && w & 0x0D90_0000 == x & 0x0D90_0000 && w & 0x0C00_0000 == x & 0x0C00_0000
    ensures BitAt(w, 7) == BitAt(Unconditional(w), 7)
  {}

  lemma {:induction false} ListSame(w: Bits, x: Bits, k: nat)
    requires k <= 16 && forall i: nat :: i < 16 ==> Bit(w, i) == Bit(x, i)
    ensures ListFrom(w, k) == ListFrom(x, k)
    decreases 16 - k
  {
    hide Bit, ListFrom;
    ListStep(w, k);
    ListStep(x, k);
    if k < 16 { ListSame(w, x, k + 1); }
  }

  lemma {:induction false} BitAgree(w: Bits, x: Bits, m: Bits, n: nat, i: nat)
    requires IsOnes(m, n) && AgreeOn(w, x, m) && i < n
    ensures Bit(w, i) == Bit(x, i)
    decreases i
  {
    AgreeStep(w, x, m);
    if i > 0 { BitAgree(Half(w), Half(x), Half(m), n - 1, i - 1); }
  }

  lemma LowAgreeing(w: Bits)
    ensures AgreeOn(w, Unconditional(w), 0xFFFF)
  {}

  lemma ListsSame(w: Bits)
    ensures RegList(w) == RegList(Unconditional(w))
  {
    AllOnes();
    LowAgreeing(w);
    hide Unconditional, AgreeOn, IsOnes, Bit, ListFrom;
    forall i: nat | i < 16 ensures Bit(w, i) == Bit(Unconditional(w), i) { BitAgree(w, Unconditional(w), 0xFFFF, 16, i); }
    ListSame(w, Unconditional(w), 0);
  }

  lemma KindsSame(w: Bits)
    ensures SameKinds(w, Unconditional(w))
  {
    CoreKindsSame(w);
    OtherKindsSame(w);
    ClassSame(w);
    BitsSame(w);
    OperandsSame(w);
    ListsSame(w);
    hide Unconditional, IsMultiply, IsHalf, IsTransfer, IsLongMultiply, IsSwap, IsMrs, IsBx, IsArmBranch, IsSwi, IsMsr, BitAt, OpOf,
      RegList, Imm12, Shamt, KindOf, Unshifted, BranchOffset, FieldMask, Nibble, IsTest;
  }

  lemma FieldsSame(w: Bits)
    ensures SameFields(w, Unconditional(w))
  {
    hide *;
    RegistersSame(w);
    OperandsSame(w);
    BitsSame(w);
    KindsSame(w);
    SameFieldsIs(w, Unconditional(w));
  }

  lemma SameFieldsIs(w: Bits, x: Bits)
    ensures SameFields(w, x) <==> SameRegisters(w, x) && SameOperands(w, x) && SameBits(w, x) && SameKinds(w, x)
  {
    hide SameRegisters, SameOperands, SameBits, SameKinds;
  }

  // ---------------------------------------------------------------------------------------------
  // Instructions with the same fields do the same

  lemma SameLhs(c: Core, w: Bits, x: Bits)
    requires SameRegisters(w, x)
    ensures Lhs(c, w) == Lhs(c, x)
  {
    hide Rn, Rd, Rs, Rm, Masked;
  }

  lemma SameRegOperand(c: Core, w: Bits, x: Bits)
    requires SameRegisters(w, x) && SameOperands(w, x) && SameBits(w, x)
    ensures RegOperand(c, w) == RegOperand(c, x) && RegOperandS(c, w) == RegOperandS(c, x)
  {
    hide Rn, Rd, Rs, Rm, OpOf, KindOf, Shamt, Imm12, Unshifted, Nibble, BranchOffset, FieldMask, BitAt, RegShift, RegShiftValue, ImmShift,
      ImmShiftValue, Cycled, WithCarry;
    if !Unshifted(w) && !BitAt(w, 4) {
      MacroFilter(w);
      MacroFilter(x);
    }
  }

  lemma SameOperand(c: Core, w: Bits, x: Bits, carry: bool)
    requires SameRegisters(w, x) && SameOperands(w, x) && SameBits(w, x)
    ensures Operand(c, w, carry) == Operand(c, x, carry)
  {
    SameRegOperand(c, w, x);
    hide Rn, Rd, Rs, Rm, OpOf, KindOf, Shamt, Imm12, Unshifted, Nibble, BranchOffset, FieldMask, BitAt, RegOperand, RegOperandS, Immediate;
  }

  lemma SameDest(c: Core, w: Bits, x: Bits, r: Word)
    requires SameRegisters(w, x)
    ensures DestWritten(c, w, r) == DestWritten(c, x, r) && SDestWritten(c, w, r) == SDestWritten(c, x, r)
  {
    hide Rn, Rd, Rs, Rm, R15Written, SR15Written, WithFlags, NegZero;
  }

  lemma SameLogical(c: Core, w: Bits, x: Bits, op: Op, s: bool)
    requires SameRegisters(w, x) && SameOperands(w, x) && SameBits(w, x) && IsLogical(op)
    ensures LogicalDone(c, w, op, s) == LogicalDone(c, x, op, s)
  {
    hide SameRegisters, SameOperands, SameBits, Lhs, Operand, DestWritten, SDestWritten, Logic, IsTest, IsLogical, WithFlags, NegZero;
    SameOperand(c, w, x, s);
    var (d, rhs) := Operand(c, w, s);
    SameLhs(d, w, x);
    SameDest(d, w, x, Word(Logic(op, Lhs(d, w).bits, rhs.bits)));
  }

  lemma SameArithmetic(c: Core, w: Bits, x: Bits, op: Op, s: bool)
    requires SameRegisters(w, x) && SameOperands(w, x) && SameBits(w, x) && !IsLogical(op)
    ensures ArithmeticDone(c, w, op, s) == ArithmeticDone(c, x, op, s)
  {
    hide SameRegisters, SameOperands, SameBits, Lhs, Operand, DestWritten, SDestWritten, Arithmetic, ArithmeticFlags, IsTest, IsLogical,
      WithFlags;
    SameOperand(c, w, x, false);
    var (d, rhs) := Operand(c, w, false);
    SameLhs(c, w, x);
    SameLhs(d, w, x);
    var lhs := Lhs(if s then c else d, w);
    var r := Arithmetic(op, lhs, rhs, d.c);
    SameDest(d, w, x, r);
    SameDest(WithFlags(d, ArithmeticFlags(op, FlagsOf(d), lhs, rhs, r)), w, x, r);
  }

  lemma SameData(c: Core, w: Bits, x: Bits)
    requires SameFields(w, x) && (IsTest(OpOf(w)) ==> BitAt(w, 20))
    ensures DataProcessed(c, w) == DataProcessed(c, x)
  {
    var op, s := OpOf(w), BitAt(w, 20);
    if IsLogical(op) { SameLogical(c, w, x, op, s); } else { SameArithmetic(c, w, x, op, s); }
    hide Rn, Rd, Rs, Rm, OpOf, KindOf, Shamt, Imm12, Unshifted, Nibble, BranchOffset, FieldMask, BitAt, SameKinds, LogicalDone,
      ArithmeticDone, PsrRestored, IsTest, IsLogical;
  }

  lemma SameFixed(c: Core, w: Bits, x: Bits, rhs: Word)
    requires FieldMask(w, true) == FieldMask(x, true) && FieldMask(w, false) == FieldMask(x, false)
    ensures FixedCpsr(c, w, rhs) == FixedCpsr(c, x, rhs) && FixedSpsr(c, w, rhs) == FixedSpsr(c, x, rhs)
  {
    hide FieldMask, SetCpsr, SetPsr, GetCpsr, IsUser;
  }

  lemma SameMasks(w: Bits, x: Bits)
    requires SameOperands(w, x)
    ensures FieldMask(w, true) == FieldMask(x, true) && FieldMask(w, false) == FieldMask(x, false)
  {
    hide OpOf, KindOf, Shamt, Imm12, Unshifted, Nibble, BranchOffset, FieldMask;
  }

  lemma MsrParts(c: Core, w: Bits)
    ensures var (d, rhs) := Operand(c, w, false);
            MsrDone(c, w) == if BitAt(w, 22) then FixedSpsr(d, w, rhs)
                             else FixedCpsr(d, w, if BitAt(w, 25) then rhs else Masked(rhs, 0xFFFF_FFDF))
  {
    hide Operand, FixedSpsr, FixedCpsr, BitAt, Masked;
  }

  lemma SameBitsAre(w: Bits, x: Bits)
    requires SameBits(w, x)
    ensures BitAt(w, 22) == BitAt(x, 22) && BitAt(w, 25) == BitAt(x, 25)
  {
    hide BitAt;
  }

  lemma SamePsr(c: Core, w: Bits, x: Bits)
    requires SameFields(w, x)
    ensures MsrDone(c, w) == MsrDone(c, x)
  {
    hide *;
    SameFieldsIs(w, x);
    SameOperand(c, w, x, false);
    SameMasks(w, x);
    SameBitsAre(w, x);
    MsrParts(c, w);
    MsrParts(c, x);
    var (d, rhs) := Operand(c, w, false);
    SameFixed(d, w, x, if BitAt(w, 22) || BitAt(w, 25) then rhs else Masked(rhs, 0xFFFF_FFDF));
  }

  // Single transfers

  lemma SameDelivery(c: Core, pins: Pins, w: Bits, x: Bits, r: Word, width: Width)
    requires SameRegisters(w, x)
    ensures Delivered(c, pins, w, r, width) == Delivered(c, pins, x, r, width)
  {
    SameDest(c, w, x, r);
    hide Rn, Rd, Rs, Rm, Entered, R15Branched, DestWritten;
  }

  lemma SameLoad(c: Core, pins: Pins, w: Bits, x: Bits, a: Word, width: Width, signed: bool)
    requires SameRegisters(w, x)
    ensures LoadDone(c, pins, w, a, width, signed) == LoadDone(c, pins, x, a, width, signed)
  {
    hide SameRegisters, Delivered, ReadDone, Loadable, WordAt;
    SameDelivery(ReadDone(c, a), pins, w, x, Loadable(WordAt(c, a).bits, a, width, signed, pins.bigend), width);
  }

  lemma SameStore(c: Core, pins: Pins, w: Bits, x: Bits, a: Word, width: Width)
    requires SameRegisters(w, x)
    ensures StoreDone(c, pins, w, a, width) == StoreDone(c, pins, x, a, width)
  {
    hide Rn, Rd, Rs, Rm, WriteDone, BusUsed, Storable, WordAt, Entered;
  }

  lemma SameAccess(c: Core, pins: Pins, w: Bits, x: Bits, a: Word, width: Width, signed: bool)
    requires SameFields(w, x)
    ensures Accessed(c, pins, w, a, width, signed) == Accessed(c, pins, x, a, width, signed)
  {
    SameLoad(c, pins, w, x, a, width, signed);
    SameStore(c, pins, w, x, a, width);
    hide SameRegisters, SameOperands, SameKinds, LoadDone, StoreDone, BitAt;
  }

  lemma BaseParts(c: Core, d: Core, pins: Pins, w: Bits, a: Word, wb: Word)
    ensures BaseDone(c, d, pins, w, a, wb) == if WritesBase(w) && Succeeds(c, pins, w, a, BitAt(w, 20)) then BasePut(d, w, wb) else d
  {
    hide WritesBase, Succeeds, BitAt, BasePut;
  }

  lemma SameSuccess(c: Core, pins: Pins, w: Bits, x: Bits, a: Word, load: bool)
    requires Rn(w) == Rn(x) && Rd(w) == Rd(x)
    ensures Succeeds(c, pins, w, a, load) == Succeeds(c, pins, x, a, load)
  {
    hide Rn, Rd, ReadDone;
  }

  lemma SameWrites(w: Bits, x: Bits)
    requires BitAt(w, 21) == BitAt(x, 21) && BitAt(w, 24) == BitAt(x, 24)
    ensures WritesBase(w) == WritesBase(x) && IndexedFirst(w) == IndexedFirst(x)
  {
    hide BitAt;
  }

  lemma SameBase(c: Core, d: Core, pins: Pins, w: Bits, x: Bits, a: Word, wb: Word)
    requires SameFields(w, x)
    ensures BaseDone(c, d, pins, w, a, wb) == BaseDone(c, d, pins, x, a, wb) && IndexedFirst(w) == IndexedFirst(x)
  {
    hide *;
    SameFieldsIs(w, x);
    SameFieldsBits(w, x);
    SameBasePut(d, w, x, wb);
    SameSuccess(c, pins, w, x, a, BitAt(w, 20));
    SameWrites(w, x);
    BaseParts(c, d, pins, w, a, wb);
    BaseParts(c, d, pins, x, a, wb);
  }

  lemma SameBasePut(d: Core, w: Bits, x: Bits, wb: Word)
    requires SameRegisters(w, x)
    ensures BasePut(d, w, wb) == BasePut(d, x, wb)
  {
    hide Rn, Rd, Rs, Rm;
  }

  lemma SameWordOffset(c: Core, w: Bits, x: Bits)
    requires SameRegisters(w, x) && SameOperands(w, x) && SameBits(w, x)
    ensures WordOffset(c, w) == WordOffset(c, x)
  {
    hide Rn, Rd, Rs, Rm, OpOf, KindOf, Shamt, Imm12, Unshifted, Nibble, BranchOffset, FieldMask, BitAt, ImmShiftValue;
  }

  lemma SameHalfOffset(c: Core, w: Bits, x: Bits)
    requires SameRegisters(w, x) && SameOperands(w, x) && SameBits(w, x)
    ensures HalfOffset(c, w) == HalfOffset(c, x)
  {
    hide Rn, Rd, Rs, Rm, OpOf, KindOf, Shamt, Imm12, Unshifted, Nibble, BranchOffset, FieldMask, BitAt;
  }

  lemma SameForms(w: Bits, x: Bits, base: Word, o: Word)
    requires SameBits(w, x)
    ensures Address(base, o, w) == Address(base, o, x)
    ensures WordWidth(w) == WordWidth(x) && HalfWidth(w) == HalfWidth(x) && HalfSigned(w) == HalfSigned(x)
  {
    hide BitAt, Plus, Minus;
  }

  lemma SameOffsets(c: Core, w: Bits, x: Bits, base: Word, o: Word)
    requires SameFields(w, x)
    ensures WordOffset(c, w) == WordOffset(c, x) && HalfOffset(c, w) == HalfOffset(c, x) && Address(base, o, w) == Address(base, o, x)
    ensures WordWidth(w) == WordWidth(x) && HalfWidth(w) == HalfWidth(x) && HalfSigned(w) == HalfSigned(x)
  {
    hide *;
    SameFieldsIs(w, x);
    SameWordOffset(c, w, x);
    SameHalfOffset(c, w, x);
    SameForms(w, x, base, o);
  }

  lemma SameWord(c: Core, pins: Pins, w: Bits, x: Bits)
    requires SameFields(w, x)
    ensures WordTransferred(c, pins, w) == WordTransferred(c, pins, x)
  {
    hide *;
    SameFieldsIs(w, x);
    SameLhs(c, w, x);
    var lhs, o := Lhs(c, w), WordOffset(c, w);
    SameOffsets(c, w, x, lhs, o);
    var indexed := Address(lhs, o, w);
    var a := if IndexedFirst(w) then indexed else lhs;
    SameAccess(c, pins, w, x, a, WordWidth(w), false);
    var d := Accessed(c, pins, w, a, WordWidth(w), false);
    SameOffsets(d, w, x, lhs, WordOffset(d, w));
    SameBase(c, d, pins, w, x, a, indexed);
    SameBase(c, d, pins, w, x, a, Address(lhs, WordOffset(d, w), w));
    SameFieldsBits(w, x);
    WordParts(c, pins, w);
    WordParts(c, pins, x);
  }

  lemma SameFieldsBits(w: Bits, x: Bits)
    requires SameFields(w, x)
    ensures BitAt(w, 20) == BitAt(x, 20) && BitAt(w, 21) == BitAt(x, 21) && BitAt(w, 22) == BitAt(x, 22) && BitAt(w, 24) == BitAt(x, 24)
    ensures BitAt(w, 15) == BitAt(x, 15)
    ensures Rn(w) == Rn(x) && Rd(w) == Rd(x) && Rm(w) == Rm(x) && Rs(w) == Rs(x) && RegList(w) == RegList(x)
  {
    hide Rn, Rd, Rs, Rm, BitAt, SameOperands, IsMultiply, IsHalf, IsTransfer, IsData, IsLongMultiply, IsSwap, IsMrs, IsBx, IsArmBranch,
      IsSwi, IsMsr, IsBlock, IsIdle, RegList;
  }

  lemma WordParts(c: Core, pins: Pins, w: Bits)
    ensures var lhs := Lhs(c, w);
            var indexed := Address(lhs, WordOffset(c, w), w);
            var a := if IndexedFirst(w) then indexed else lhs;
            var d := Accessed(c, pins, w, a, WordWidth(w), false);
            var late := Address(lhs, WordOffset(d, w), w);
            WordTransferred(c, pins, w) == BaseDone(c, d, pins, w, a, if IndexedFirst(w) || BitAt(w, 20) then indexed else late)
  {
    hide Lhs, Address, WordOffset, Accessed, BaseDone, BitAt, IndexedFirst, WordWidth;
  }

  lemma HalfParts(c: Core, pins: Pins, w: Bits)
    ensures var lhs := Lhs(c, w);
            var indexed := Address(lhs, HalfOffset(c, w), w);
            var a := if IndexedFirst(w) then indexed else lhs;
            var d := Accessed(c, pins, w, a, HalfWidth(w), HalfSigned(w));
            var late := Address(lhs, HalfOffset(d, w), w);
            HalfTransferred(c, pins, w) == BaseDone(c, d, pins, w, a, if IndexedFirst(w) || BitAt(w, 20) then indexed else late)
  {
    hide Lhs, Address, HalfOffset, Accessed, BaseDone, BitAt, IndexedFirst, HalfWidth, HalfSigned;
  }

  lemma SameHalf(c: Core, pins: Pins, w: Bits, x: Bits)
    requires SameFields(w, x)
    ensures HalfTransferred(c, pins, w) == HalfTransferred(c, pins, x)
  {
    hide *;
    SameFieldsIs(w, x);
    SameLhs(c, w, x);
    var lhs, o := Lhs(c, w), HalfOffset(c, w);
    SameOffsets(c, w, x, lhs, o);
    var indexed := Address(lhs, o, w);
    var a := if IndexedFirst(w) then indexed else lhs;
    SameAccess(c, pins, w, x, a, HalfWidth(w), HalfSigned(w));
    var d := Accessed(c, pins, w, a, HalfWidth(w), HalfSigned(w));
    SameOffsets(d, w, x, lhs, HalfOffset(d, w));
    SameBase(c, d, pins, w, x, a, indexed);
    SameBase(c, d, pins, w, x, a, Address(lhs, HalfOffset(d, w), w));
    SameFieldsBits(w, x);
    HalfParts(c, pins, w);
    HalfParts(c, pins, x);
  }

  // Block transfers

  lemma SameBaseReg(c: Core, w: Bits, x: Bits, wb: Word)
    requires SameFields(w, x)
    ensures BaseWritten(c, w, wb) == BaseWritten(c, x, wb)
  {
    SameFieldsBits(w, x);
    hide SameFields, Rn, BitAt;
  }

  lemma SameLoaded(c: Core, pins: Pins, w: Bits, x: Bits, start: Word, wb: Word)
    requires SameFields(w, x)
    ensures Loaded(c, pins, w, start, wb) == Loaded(c, pins, x, start, wb)
  {
    SameFieldsBits(w, x);
    var d := LoadAll(c, RegList(w), start);
    SameBaseReg(d, w, x, wb);
    SameBaseReg(R15Branched(d, d.reg[15]), w, x, wb);
    hide SameFields, BaseWritten, BitAt, RegList, LoadAll, R15Branched, Entered;
  }

  lemma SameStoreFinished(c: Core, pins: Pins, w: Bits, x: Bits, wb: Word)
    requires SameFields(w, x)
    ensures StoreFinished(c, pins, w, wb) == StoreFinished(c, pins, x, wb)
  {
    SameBaseReg(c, w, x, wb);
    hide SameFields, BaseWritten, Entered;
  }

  lemma SameStored(c: Core, pins: Pins, w: Bits, x: Bits, start: Word, wb: Word)
    requires SameFields(w, x)
    ensures Stored(c, pins, w, start, wb) == Stored(c, pins, x, start, wb) && SStored(c, pins, w, start, wb) == SStored(c, pins, x, start, wb)
  {
    SameFieldsBits(w, x);
    SameStoreFinished(StoreAll(if c.t then c else BusUsed(c), RegList(w), start), pins, w, x, wb);
    var d := StoreAll(UserRegisters(BusUsed(c)), RegList(w), start);
    SameStoreFinished(if d.aborted then d else OwnRegisters(d), pins, w, x, wb);
    hide SameFields, StoreFinished, RegList, StoreAll, BusUsed, UserRegisters, OwnRegisters;
  }

  lemma SameSBase(c: Core, pins: Pins, w: Bits, x: Bits, wb: Word)
    requires BaseWritten(c, w, wb) == BaseWritten(c, x, wb)
    ensures SBaseDone(c, pins, w, wb) == SBaseDone(c, pins, x, wb)
  {
    hide BaseWritten, Entered;
  }

  /** The end of LoadSMult, after the base. */
  function SEnd(d: Core, pc: bool): Core
  {
    if !pc then OwnRegisters(d)
    else if d.aborted then d
    else
      var e := if IsUser(d.mode) then d else PsrRestored(d);
      R15Written(e, e.reg[15])
  }

  lemma SEndIs(c: Core, pins: Pins, w: Bits, wb: Word)
    ensures SLoadFinished(c, pins, w, wb) == SEnd(SBaseDone(c, pins, w, wb), BitAt(w, 15))
  {
    hide SBaseDone, OwnRegisters, PsrRestored, R15Written, IsUser, BitAt;
  }

  lemma SameSFinished(c: Core, pins: Pins, w: Bits, x: Bits, wb: Word)
    requires SameFields(w, x)
    ensures SLoadFinished(c, pins, w, wb) == SLoadFinished(c, pins, x, wb)
  {
    hide *;
    SameFieldsBits(w, x);
    SameBaseReg(c, w, x, wb);
    SameSBase(c, pins, w, x, wb);
    SEndIs(c, pins, w, wb);
    SEndIs(c, pins, x, wb);
  }

  lemma SameSLoaded(c: Core, pins: Pins, w: Bits, x: Bits, start: Word, wb: Word)
    requires SameFields(w, x)
    ensures SLoaded(c, pins, w, start, wb) == SLoaded(c, pins, x, start, wb)
  {
    SameFieldsBits(w, x);
    SameSFinished(SLoadAll(if BitAt(w, 15) then c else UserRegisters(c), RegList(w), start), pins, w, x, wb);
    hide SameFields, BitAt, RegList, SLoadAll, UserRegisters, SLoadFinished;
  }

  lemma SameBlockAddress(w: Bits, x: Bits, base: Word)
    requires SameFields(w, x)
    ensures Start(base, w) == Start(base, x) && NewBase(base, w) == NewBase(base, x)
  {
    SameFieldsBits(w, x);
    hide Rn, Rd, Rs, Rm, BitAt, SameOperands, SameKinds, RegList, Plus, Minus;
  }

  lemma SameBlock(c: Core, pins: Pins, w: Bits, x: Bits)
    requires SameFields(w, x)
    ensures Transferred(c, pins, w) == Transferred(c, pins, x)
  {
    SameFieldsBits(w, x);
    var base := c.reg[Rn(w)];
    var start, wb := Start(base, w), NewBase(base, w);
    SameBlockAddress(w, x, base);
    SameLoaded(c, pins, w, x, start, wb);
    SameSLoaded(c, pins, w, x, start, wb);
    SameStored(c, pins, w, x, start, wb);
    hide SameFields, Rn, BitAt, Loaded, SLoaded, Stored, SStored, Start, NewBase;
  }

  // Multiplications

  lemma SameMultiply(c: Core, w: Bits, x: Bits, accumulate: bool, s: bool)
    requires SameRegisters(w, x)
    ensures Multiplied(c, w, accumulate, s) == Multiplied(c, x, accumulate, s)
  {
    hide Rn, Rd, Rs, Rm, Times, Plus, WithFlags, NegZero;
  }

  lemma SamePair(c: Core, w: Bits, x: Bits, p: nat)
    requires SameRegisters(w, x)
    ensures PairWritten(c, w, p) == PairWritten(c, x, p) && PairOf(c, w) == PairOf(c, x) && Legal(w) == Legal(x)
  {
    hide Rn, Rd, Rs, Rm, LowWord, HighWord, Long;
  }

  lemma SameProduct(c: Core, w: Bits, x: Bits, signed: bool, s: bool)
    requires SameRegisters(w, x)
    ensures LongMultiplied(c, w, signed, s) == LongMultiplied(c, x, signed, s)
  {
    SamePair(c, w, x, Wide(c.reg[Rs(w)], c.reg[Rm(w)], signed));
    hide Rn, Rd, Rs, Rm, PairWritten, PairOf, Legal, Wide, LongFlags, WithFlags;
  }

  lemma SameAccumulation(c: Core, w: Bits, x: Bits, signed: bool, s: bool)
    requires SameRegisters(w, x)
    ensures LongAccumulated(c, w, signed, s) == LongAccumulated(c, x, signed, s)
  {
    hide SameRegisters, LongMultiplied, PairWritten, PairOf, LongFlags, WithFlags;
    var d := LongMultiplied(c, w, signed, false);
    SameProduct(c, w, x, signed, false);
    SamePair(c, w, x, 0);
    SamePair(d, w, x, (PairOf(c, w) + PairOf(d, w)) % LONG);
  }

  lemma LongParts(c: Core, w: Bits)
    ensures LongDone(c, w)
         == if BitAt(w, 21) then LongAccumulated(c, w, BitAt(w, 22), BitAt(w, 20)) else LongMultiplied(c, w, BitAt(w, 22), BitAt(w, 20))
  {
    hide BitAt, LongAccumulated, LongMultiplied;
  }

  lemma SameLong(c: Core, w: Bits, x: Bits)
    requires SameFields(w, x)
    ensures LongDone(c, w) == LongDone(c, x)
  {
    hide *;
    SameFieldsBits(w, x);
    SameRegistersOf(w, x);
    SameProduct(c, w, x, BitAt(w, 22), BitAt(w, 20));
    SameAccumulation(c, w, x, BitAt(w, 22), BitAt(w, 20));
    LongParts(c, w);
    LongParts(c, x);
  }

  // All of them

  lemma SameExecuted(c: Core, pins: Pins, w: Bits, x: Bits)
    requires SameFields(w, x) && Supported(w)
    ensures Supported(x) && Executed(c, pins, w) == Executed(c, pins, x)
  {
    hide *;
    SameFieldsBits(w, x);
    SameFieldsKinds(w, x);
    SameRegistersOf(w, x);
    SameModelled(w, x);
    Executes(c, pins, w);
    Executes(c, pins, x);
    SameMultiply(c, w, x, BitAt(w, 21), BitAt(w, 20));
    SameHalf(c, pins, w, x);
    SameWord(c, pins, w, x);
    if !IsMultiply(w) && !IsHalf(w) && !IsTransfer(w) { SameData(c, w, x); }
  }

  lemma SameRegistersOf(w: Bits, x: Bits)
    requires SameFields(w, x)
    ensures SameRegisters(w, x)
  {
    hide SameRegisters, SameOperands, SameBits, SameKinds;
  }

  lemma SameFieldsKinds(w: Bits, x: Bits)
    requires SameFields(w, x)
    ensures IsMultiply(w) == IsMultiply(x) && IsHalf(w) == IsHalf(x) && IsTransfer(w) == IsTransfer(x) && IsData(w) == IsData(x)
    ensures IsLongMultiply(w) == IsLongMultiply(x) && IsSwap(w) == IsSwap(x) && IsMrs(w) == IsMrs(x) && IsBx(w) == IsBx(x)
    ensures IsMsr(w) == IsMsr(x) && IsArmBranch(w) == IsArmBranch(x) && IsSwi(w) == IsSwi(x) && IsBlock(w) == IsBlock(x)
    ensures IsIdle(w) == IsIdle(x)
  {
    hide SameRegisters, SameOperands, SameBits, IsMultiply, IsHalf, IsTransfer, IsData, IsLongMultiply, IsSwap, IsMrs, IsBx, IsArmBranch,
      IsSwi, IsMsr, IsBlock, IsIdle, RegList;
  }

  lemma SameSwap(c: Core, pins: Pins, w: Bits, x: Bits)
    requires SameFields(w, x)
    ensures Swapped(c, pins, w) == Swapped(c, pins, x)
  {
    SameFieldsBits(w, x);
    SameRegistersOf(w, x);
    SameLhs(c, w, x);
    hide SameFields, SameRegisters, Rd, Rm, BitAt, Lhs, Storable, WriteDone, ReadDone, RegisterPut, SwapValue, Entered, WordAt;
  }

  lemma SameRead(c: Core, w: Bits, x: Bits)
    requires BitAt(w, 22) == BitAt(x, 22)
    ensures PsrRead(c, w) == PsrRead(c, x)
  {
    hide BitAt, Pack, GetSpsr;
  }

  lemma OtherKinds(c: Core, pins: Pins, w: Bits, pc: Word)
    ensures IsSwap(w) ==> OtherDone(c, pins, w, pc) == Swapped(c, pins, w)
    ensures !IsSwap(w) && IsMrs(w) ==> OtherDone(c, pins, w, pc) == RegisterPut(c, Rd(w), PsrRead(c, w))
    ensures !IsSwap(w) && !IsMrs(w) && IsBx(w) ==> OtherDone(c, pins, w, pc) == R15Branched(c, c.reg[Rm(w)])
    ensures !IsSwap(w) && !IsMrs(w) && !IsBx(w) && IsArmBranch(w) ==> OtherDone(c, pins, w, pc) == ArmBranched(c, w, pc)
    ensures !IsSwap(w) && !IsMrs(w) && !IsBx(w) && !IsArmBranch(w) && IsSwi(w) ==> OtherDone(c, pins, w, pc) == Entered(c, pins, Swi)
    ensures !IsSwap(w) && !IsMrs(w) && !IsBx(w) && !IsArmBranch(w) && !IsSwi(w) ==> OtherDone(c, pins, w, pc) == c
  {
    hide IsSwap, IsMrs, IsBx, IsArmBranch, IsSwi, Swapped, RegisterPut, R15Branched, ArmBranched, Entered, Rd, Rm, PsrRead;
  }

  lemma SameOther(c: Core, pins: Pins, w: Bits, x: Bits, pc: Word)
    requires SameFields(w, x)
    ensures OtherDone(c, pins, w, pc) == OtherDone(c, pins, x, pc)
  {
    hide *;
    SameFieldsBits(w, x);
    SameFieldsKinds(w, x);
    SameSwap(c, pins, w, x);
    SameTarget(c, w, x, pc);
    SameRead(c, w, x);
    OtherKinds(c, pins, w, pc);
    OtherKinds(c, pins, x, pc);
  }

  lemma SameTarget(c: Core, w: Bits, x: Bits, pc: Word)
    requires SameFields(w, x)
    ensures ArmBranched(c, w, pc) == ArmBranched(c, x, pc)
  {
    SameFieldsBits(w, x);
    hide Rn, Rd, Rs, Rm, OpOf, KindOf, Shamt, Imm12, Unshifted, Nibble, BranchOffset, FieldMask, BitAt, SameKinds, RegisterPut, Plus;
  }

  lemma DispatchKinds(c: Core, pins: Pins, w: Bits, pc: Word)
    ensures Supported(w) ==> Dispatched(c, pins, w, pc) == Executed(c, pins, w)
    ensures !Supported(w) && IsLongMultiply(w) ==> Dispatched(c, pins, w, pc) == LongDone(c, w)
    ensures !Supported(w) && !IsLongMultiply(w) && IsMsr(w) ==> Dispatched(c, pins, w, pc) == MsrDone(c, w)
    ensures !Supported(w) && !IsLongMultiply(w) && !IsMsr(w) && IsBlock(w) ==> Dispatched(c, pins, w, pc) == Transferred(c, pins, w)
    ensures !Supported(w) && !IsLongMultiply(w) && !IsMsr(w) && !IsBlock(w) ==> Dispatched(c, pins, w, pc) == OtherDone(c, pins, w, pc)
  {
    hide Supported, IsLongMultiply, IsMsr, IsBlock, Executed, LongDone, MsrDone, Transferred, OtherDone;
  }

  lemma SameModelled(w: Bits, x: Bits)
    requires SameFields(w, x)
    ensures Modelled(w) == Modelled(x) && Supported(w) == Supported(x)
  {
    SameFieldsKinds(w, x);
    hide SameFields, IsMultiply, IsHalf, IsTransfer, IsData, IsLongMultiply, IsSwap, IsMrs, IsBx, IsArmBranch, IsSwi, IsMsr, IsBlock, IsIdle;
  }

  lemma SameDispatch(c: Core, pins: Pins, w: Bits, x: Bits, pc: Word)
    requires SameFields(w, x)
    ensures Modelled(w) == Modelled(x) && Dispatched(c, pins, w, pc) == Dispatched(c, pins, x, pc)
  {
    hide *;
    SameModelled(w, x);
    SameFieldsKinds(w, x);
    SameOther(c, pins, w, x, pc);
    SameBlock(c, pins, w, x);
    SamePsr(c, w, x);
    SameLong(c, w, x);
    if Supported(w) { SameExecuted(c, pins, w, x); }
    DispatchKinds(c, pins, w, pc);
    DispatchKinds(c, pins, x, pc);
  }

  // ---------------------------------------------------------------------------------------------
  // Executed or not

  lemma TopBits(w: Bits)
    ensures Unconditional(w) >> 28 == AL
  {}

  lemma HoldsAsWritten(k: Bits, f: Nzcv)
    requires k < 16
    ensures Holds(k, f) == Passes(k, f.n, f.z, f.c, f.v)
  {}

  lemma TopSmall(w: Bits)
    ensures w >> 28 < 16
  {}

  lemma AlwaysHolds(f: Nzcv)
    ensures Holds(AL, f)
  {}

  lemma EmulatedArm(c: Core, pins: Pins, w: Bits, pc: Word)
    requires !c.t
    ensures Emulated(c, pins, w, pc)
         == if !Holds(w >> 28, FlagsOf(c)) then c else if Modelled(w) then Dispatched(c, pins, w, pc) else Entered(c, pins, Undefined)
  {
    hide Holds, Modelled, Dispatched, Entered;
  }

  /** An ARM instruction whose condition fails changes nothing; one whose condition holds does what it does with AL. */
  lemma ConditionDecides(c: Core, pins: Pins, w: Bits, pc: Word)
    requires !c.t
    ensures Emulated(c, pins, w, pc)
         == if Passes(w >> 28, c.n, c.z, c.c, c.v) then Emulated(c, pins, Unconditional(w), pc) else c
  {
    hide *;
    TopSmall(w);
    TopBits(w);
    HoldsAsWritten(w >> 28, FlagsOf(c));
    FlagsFields(c);
    AlwaysHolds(FlagsOf(c));
    FieldsSame(w);
    SameDispatch(c, pins, w, Unconditional(w), pc);
    EmulatedArm(c, pins, w, pc);
    EmulatedArm(c, pins, Unconditional(w), pc);
  }

  lemma FlagsFields(c: Core)
    ensures FlagsOf(c) == Nzcv(c.n, c.z, c.c, c.v)
  {}
}
