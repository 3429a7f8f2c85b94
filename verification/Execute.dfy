/** Data processing, MUL and MLA, and single loads and stores: the larger part of the main switch of ARMul_Emulate32
    (arch_arm/common/armemu32.c), and what the data-processing instructions do in the manual's terms. */
module Execute {
  import opened Words
  import opened State
  import opened Support
  import opened Alu
  import opened DataPath
  import opened Multiply
  import opened Single
  import opened Manual

  // ---------------------------------------------------------------------------------------------
  // Decoding

  /** BITS (4, 7) is 9 in cases 0x00 to 0x03. */
  predicate IsMultiply(w: Bits) { w & 0x0FC0_00F0 == 0x0000_0090 }

  /** The halfword and signed transfers among cases 0x00 to 0x1f: bits 4 and 7 set and bits 5 and 6 not both
      clear; a register offset has bits 8 to 11 clear. Without bit 20 only STRH is one. */
  predicate IsHalf(w: Bits)
  {
    w & 0x0E00_0090 == 0x0000_0090 && ((BitAt(w, 20) && w & 0x60 != 0) || w & 0x60 == 0x20)
    && (BitAt(w, 22) || w & 0x0F00 == 0)
  }

  /** Cases 0x40 to 0x7f, without the undefined instructions among them. */
  predicate IsTransfer(w: Bits) { w & 0x0C00_0000 == 0x0400_0000 && !(BitAt(w, 25) && BitAt(w, 4)) }

  /** Cases 0x00 to 0x3f otherwise, without the PSR transfers and the like. */
  predicate IsData(w: Bits)
  {
    w & 0x0C00_0000 == 0 && (BitAt(w, 25) || !(BitAt(w, 4) && BitAt(w, 7))) && (IsTest(OpOf(w)) ==> BitAt(w, 20))
  }

  predicate Supported(w: Bits) { IsMultiply(w) || IsHalf(w) || IsTransfer(w) || IsData(w) }

  /** Executing an instruction whose condition holds. */
  function Executed(c: Core, pins: Pins, w: Bits): Core
    requires Supported(w)
  {
    if IsMultiply(w) then Multiplied(c, w, BitAt(w, 21), BitAt(w, 20))
    else if IsHalf(w) then HalfTransferred(c, pins, w)
    else if IsTransfer(w) then WordTransferred(c, pins, w)
    else DataProcessed(c, w)
  }

  method Execute(state: ArmState, w: Bits)
    requires state.Valid() && !Is26Bit(state.Mode) && Supported(w)
    modifies state, state.Reg, state.RegBank, state.Spsr
    ensures state.Value() == Executed(old(state.Value()), state.pins, w)
  {
    hide Multiplied, HalfTransferred, WordTransferred, DataProcessed, IsMultiply, IsHalf, IsTransfer, BitAt, Is26Bit;
    if IsMultiply(w) {
      ExecuteMultiply(state, w, BitAt(w, 21), BitAt(w, 20));
    } else if IsHalf(w) {
      Overlap(w);
      ExecuteHalfTransfer(state, w);
    } else if IsTransfer(w) {
      Overlap(w);
      ExecuteWordTransfer(state, w);
    } else {
      ExecuteDataProcessing(state, w);
    }
  }

  /** The kinds of instructions exclude each other. */
  lemma Overlap(w: Bits)
    ensures IsHalf(w) ==> !IsData(w) && !IsTransfer(w) && !IsMultiply(w)
    ensures IsTransfer(w) ==> !IsData(w) && !IsMultiply(w)
  {}

  // ---------------------------------------------------------------------------------------------
  // Data processing with S, in the manual's terms

  /** The result and flags of an arithmetic instruction. */
  function ArithmeticResult(op: Op, a: Word, b: Word, c: bool): Result
    requires !IsLogical(op)
  {
    match op
    case ADD => Added(a, b, false)
    case CMN => Added(a, b, false)
    case ADC => Added(a, b, c)
    case SUB => Subtracted(a, b, true)
    case CMP => Subtracted(a, b, true)
    case RSB => Subtracted(b, a, true)
    case SBC => Subtracted(a, b, c)
    case RSC => Subtracted(b, a, c)
  }

  /** Result and flags of all eight arithmetic instructions are the manual's. */
  lemma ArithmeticMeans(op: Op, f: Nzcv, a: Word, b: Word)
    requires !IsLogical(op)
    ensures var r := Arithmetic(op, a, b, f.c);
            var g := ArithmeticFlags(op, f, a, b, r);
            Result(r, if IsTest(op) then g else NegZero(g, r)) == ArithmeticResult(op, a, b, f.c)
  {
    hide Num, Plus, Minus, Adc, Sbc, Added, Subtracted, NegZero, SubFlags, AddFlags;
    PlusIsAdc(a, b);
    MinusIsSbc(a, b);
    MinusIsSbc(b, a);
    match op
    case ADD => AddMeans(f, a, b, false);
    case CMN => AddMeans(f, a, b, false);
    case ADC => AddMeans(f, a, b, f.c);
    case SUB => SbcIsSubtracted(f, a, b, true);
    case CMP => SbcIsSubtracted(f, a, b, true);
    case RSB => SbcIsSubtracted(f, b, a, true);
    case SBC => SbcIsSubtracted(f, a, b, f.c);
    case RSC => SbcIsSubtracted(f, b, a, f.c);
  }

  lemma AddMeans(f: Nzcv, a: Word, b: Word, c: bool)
    ensures var r := Adc(a, b, c);
            var g := AddFlags(a, b, r);
            Result(r, g) == Added(a, b, c) && NegZero(g, r) == g
  {
    hide Num, Adc, NegZero, AddFlags, Signed, ToWord;
    AdcIsAdded(a, b, c);
    NegZeroMeans(AddFlags(a, b, Adc(a, b, c)), Adc(a, b, c));
  }

  lemma SDestPuts(c: Core, w: Bits, r: Word, f: Nzcv)
    requires Rd(w) != 15
    ensures SDestWritten(WithFlags(c, f), w, r) == PutFlags(c, Rd(w), r, NegZero(f, r))
  {
    hide Rd, NegZero, SR15Written;
    assert FlagsOf(WithFlags(c, f)) == f;
  }

  /** What DataProcessed does, up to the write of the destination. */
  lemma ArithmeticSteps(c: Core, w: Bits, rhs: Word)
    requires BitAt(w, 20) && !IsLogical(OpOf(w)) && Rd(w) != 15 && Operand(c, w, false) == (c, rhs)
    ensures var r := Arithmetic(OpOf(w), Lhs(c, w), rhs, c.c);
            var e := WithFlags(c, ArithmeticFlags(OpOf(w), FlagsOf(c), Lhs(c, w), rhs, r));
            DataProcessed(c, w) == if IsTest(OpOf(w)) then e else SDestWritten(e, w, r)
  {
    hide BitAt, OpOf, Rd, Operand, Lhs, Arithmetic, ArithmeticFlags, IsTest, IsLogical, SDestWritten, WithFlags;
  }

  /** The S form of an arithmetic instruction writes its result and the manual's flags. */
  lemma ArithmeticPuts(c: Core, w: Bits, rhs: Word)
    requires BitAt(w, 20) && !IsLogical(OpOf(w)) && Rd(w) != 15 && Operand(c, w, false) == (c, rhs)
    ensures var x := ArithmeticResult(OpOf(w), Lhs(c, w), rhs, c.c);
            DataProcessed(c, w) == if IsTest(OpOf(w)) then WithFlags(c, x.f) else PutFlags(c, Rd(w), x.r, x.f)
  {
    ArithmeticSteps(c, w, rhs);
    var op, f, lhs := OpOf(w), FlagsOf(c), Lhs(c, w);
    assert f.c == c.c;
    hide *;
    ArithmeticMeans(op, f, lhs, rhs);
    var r := Arithmetic(op, lhs, rhs, c.c);
    SDestPuts(c, w, r, ArithmeticFlags(op, f, lhs, rhs, r));
  }

  lemma LogicalSteps(c: Core, w: Bits, rhs: Word, d: Core)
    requires BitAt(w, 20) && IsLogical(OpOf(w)) && Rd(w) != 15 && Operand(c, w, true) == (d, rhs)
    ensures var r := Word(Logic(OpOf(w), Lhs(d, w).bits, rhs.bits));
            DataProcessed(c, w) == if IsTest(OpOf(w)) then WithFlags(d, NegZero(FlagsOf(d), r)) else SDestWritten(d, w, r)
  {
    hide BitAt, OpOf, Rd, Operand, Lhs, Logic, NegZero, IsTest, IsLogical, SDestWritten, WithFlags;
  }

  lemma CarryFlags(c: Core, carry: bool, f: Nzcv)
    ensures WithFlags(WithCarry(c, carry), f) == WithFlags(c, f)
    ensures WithCarry(c, carry) == WithFlags(c, FlagsOf(c).(c := carry))
    ensures FlagsOf(WithCarry(c, carry)) == FlagsOf(c).(c := carry)
  {}

  lemma CarryLhs(c: Core, carry: bool, w: Bits)
    ensures Lhs(WithCarry(c, carry), w) == Lhs(c, w)
  {
    hide Rn, Masked;
  }

  lemma LogicalFlagsAre(c: Core, carry: bool, r: Word)
    ensures NegZero(FlagsOf(c).(c := carry), r) == LogicalFlags(c, r, carry)
  {
    NegZeroMeans(FlagsOf(c).(c := carry), r);
    hide NegZero, Num, Signed;
  }

  /** The S form of a logical instruction. */
  lemma LogicalPuts(c: Core, w: Bits, rhs: Word, carry: bool)
    requires BitAt(w, 20) && IsLogical(OpOf(w)) && Rd(w) != 15 && Operand(c, w, true) == (WithCarry(c, carry), rhs)
    ensures var r := Word(Logic(OpOf(w), Lhs(c, w).bits, rhs.bits));
            var f := LogicalFlags(c, r, carry);
            DataProcessed(c, w) == if IsTest(OpOf(w)) then WithFlags(c, f) else PutFlags(c, Rd(w), r, f)
  {
    hide *;
    var d, r := WithCarry(c, carry), Word(Logic(OpOf(w), Lhs(c, w).bits, rhs.bits));
    LogicalSteps(c, w, rhs, d);
    CarryLhs(c, carry, w);
    CarryFlags(c, carry, NegZero(FlagsOf(d), r));
    LogicalFlagsAre(c, carry, r);
    SDestPuts(c, w, r, FlagsOf(c).(c := carry));
  }

  /** Without S. */
  lemma PlainPuts(c: Core, w: Bits, rhs: Word)
    requires !BitAt(w, 20) && !IsLogical(OpOf(w)) && !IsTest(OpOf(w)) && Rd(w) != 15 && Operand(c, w, false) == (c, rhs)
    ensures DataProcessed(c, w) == Put(c, Rd(w), Arithmetic(OpOf(w), Lhs(c, w), rhs, c.c))
  {
    hide BitAt, OpOf, Rd, Operand, Lhs, Arithmetic, IsTest, IsLogical;
  }
}
