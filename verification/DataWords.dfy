/** The data-processing instructions from their instruction words (ARM DDI 0100, sections A3.4 and A5.1): the operation
    by bits 21 to 24, the shifter operand with its carry, the result, and the flags. */
module DataWords {
  import opened Words
  import opened State
  import opened Shifter
  import opened Alu
  import opened DataPath
  import opened Tables
  import opened Execute
  import opened Manual
  import opened MainSwitch
  import opened Emulator
  import opened ThumbProof
  import Fields
  import M = MemoryBytes

  // ---------------------------------------------------------------------------------------------
  // The shifter operand

  /** Whether the shift amount is in a register. */
  predicate ByRegisterForm(w: Bits) { !BitAt(w, 25) && BitAt(w, 4) }

  /** The state in which the operands are read: with the amount in a register, r15 is one instruction further. */
  function Reading(c: Core, w: Bits): Core { if ByRegisterForm(w) then Cycled(c) else c }

  /** Twice bits 8 to 11. */
  function Rotation(w: Bits): Bits { ((w >> 8) & 0xF) << 1 }

  function LowBits(w: Bits): Bits { w & 0xFF }

  /** An immediate byte rotated right by twice bits 8 to 11, a register shifted by a constant, or by the low byte of another;
      one place at a time. */
  function ShifterOperand(c: Core, w: Bits): Shifted
  {
    if BitAt(w, 25) then ShiftSteps(ROR, LowBits(w), Rotation(w), c.c)
    else if BitAt(w, 4) then
      var d := Cycled(c);
      ShiftSteps(KindOf(w), d.reg[Rm(w)].bits, LowByte(d.reg[Rs(w)]), c.c)
    else
      AmountSmall(w);
      ImmShiftSteps(KindOf(w), c.reg[Rm(w)].bits, Shamt(w), c.c)
  }

  lemma AmountSmall(w: Bits)
    ensures Shamt(w) < 32
  {}

  lemma RorCarry(x: Bits, n: Bits, c: bool)
    requires n > 0
    ensures ShiftSteps(ROR, x, n, c).carry == Neg(ShiftSteps(ROR, x, n, c).value)
  {
    var y := ShiftSteps(ROR, x, n - 1, c).value;
    RorTop(y);
    assert ShiftSteps(ROR, x, n, c) == ShiftOnce(ROR, y);
    hide ShiftSteps, Ror1, Neg, Odd;
  }

  lemma RorTop(y: Bits)
    ensures Neg(Ror1(y)) == Odd(y)
  {}

  lemma ImmediateFields(w: Bits)
    ensures Imm12(w) < 4096 && Imm12(w) & 0xFF == LowBits(w) && (Imm12(w) >> 7) & 0x1E == Rotation(w)
    ensures Imm12(w) > 255 ==> Rotation(w) > 0
    ensures Imm12(w) <= 255 ==> Rotation(w) == 0
  {}

  lemma NoSteps(kind: Kind, x: Bits, c: bool)
    ensures ShiftSteps(kind, x, 0, c) == Shifted(x, c)
  {}

  lemma ImmediateShifts(w: Bits, c: bool)
    ensures var s := ShiftSteps(ROR, LowBits(w), Rotation(w), c);
            Immediate(Imm12(w)) == s.value && s.carry == if Imm12(w) > 255 then Neg(Immediate(Imm12(w))) else c
  {
    hide ShiftSteps, Immediate, Imm12, Neg, Rotation, LowBits;
    ImmediateFields(w);
    ImmediateIsManual(Imm12(w), c);
    if Imm12(w) > 255 { RorCarry(LowBits(w), Rotation(w), c); } else { NoSteps(ROR, LowBits(w), c); }
  }

  lemma ImmediateParts(c: Core, w: Bits)
    requires BitAt(w, 25)
    ensures Operand(c, w, true) == (WithCarry(c, if Imm12(w) > 255 then Neg(Immediate(Imm12(w))) else c.c), Word(Immediate(Imm12(w))))
    ensures Operand(c, w, false) == (c, Word(Immediate(Imm12(w))))
  {
    SameCarry(c);
    hide BitAt, Imm12, Immediate, Neg;
  }

  lemma RegisterParts(c: Core, w: Bits)
    requires !BitAt(w, 25) && BitAt(w, 4) && !Unshifted(w)
    ensures Operand(c, w, true) == (WithCarry(Cycled(c), ByRegister(Cycled(c), w).carry), Word(ByRegister(Cycled(c), w).value))
    ensures Operand(c, w, false) == (Cycled(c), ValueByRegister(Cycled(c), w))
  {
    hide BitAt, Unshifted, ByRegister, ValueByRegister, Cycled, WithCarry;
  }

  lemma PlainParts(c: Core, w: Bits)
    requires !BitAt(w, 25) && !BitAt(w, 4)
    ensures Operand(c, w, false) == (c, if Unshifted(w) then c.reg[Rm(w)] else ValueByConstant(c, w))
  {
    hide BitAt, Unshifted, ValueByConstant, Rm;
  }

  lemma FourShifted(w: Bits)
    ensures BitAt(w, 4) ==> !Unshifted(w)
    ensures !BitAt(w, 4) ==> (Unshifted(w) <==> KindOf(w) == LSL && Shamt(w) == 0)
  {}

  lemma RegisterSteps(d: Core, w: Bits)
    ensures var s := ShiftSteps(KindOf(w), d.reg[Rm(w)].bits, LowByte(d.reg[Rs(w)]), d.c);
            ByRegister(d, w) == s && ValueByRegister(d, w) == Word(s.value)
  {
    RegShiftIsManual(KindOf(w), d.reg[Rm(w)].bits, LowByte(d.reg[Rs(w)]), d.c);
    RegShiftValueIsManual(KindOf(w), d.reg[Rm(w)].bits, LowByte(d.reg[Rs(w)]), d.c);
    hide KindOf, Rm, Rs, LowByte, RegShift, RegShiftValue, ShiftSteps;
  }

  lemma ConstantValue(c: Core, w: Bits)
    requires !BitAt(w, 4)
    ensures Shamt(w) < 32
    ensures (if Unshifted(w) then c.reg[Rm(w)] else ValueByConstant(c, w))
         == Word(ImmShiftSteps(KindOf(w), c.reg[Rm(w)].bits, Shamt(w), c.c).value)
  {
    AmountSmall(w);
    FourShifted(w);
    NoShift(c.reg[Rm(w)].bits, c.c);
    ImmShiftValueIsManual(KindOf(w), c.reg[Rm(w)].bits, Shamt(w), c.c);
    hide KindOf, Rm, Shamt, Unshifted, ImmShiftValue, ImmShiftSteps, BitAt;
  }

  lemma CycledCarry(c: Core)
    ensures Cycled(c).c == c.c
  {
    hide Plus, Isize, Advanced;
  }

  lemma OperandCases(c: Core, w: Bits)
    ensures BitAt(w, 25) ==> ShifterOperand(c, w) == ShiftSteps(ROR, LowBits(w), Rotation(w), c.c) && Reading(c, w) == c
    ensures !BitAt(w, 25) && BitAt(w, 4) ==> Reading(c, w) == Cycled(c)
    ensures !BitAt(w, 25) && BitAt(w, 4)
        ==> ShifterOperand(c, w) == ShiftSteps(KindOf(w), Cycled(c).reg[Rm(w)].bits, LowByte(Cycled(c).reg[Rs(w)]), c.c)
    ensures Shamt(w) < 32
    ensures !BitAt(w, 25) && !BitAt(w, 4) ==> Reading(c, w) == c
    ensures !BitAt(w, 25) && !BitAt(w, 4) ==> ShifterOperand(c, w) == ImmShiftSteps(KindOf(w), c.reg[Rm(w)].bits, Shamt(w), c.c)
  {
    AmountSmall(w);
    hide BitAt, ShiftSteps, ImmShiftSteps, KindOf, Rm, Rs, LowByte, Cycled, Shamt;
  }

  /** What the operand macros compute is the shifter operand, and they set C to its carry where it is asked for. */
  lemma OperandIs(c: Core, w: Bits)
    ensures var s := ShifterOperand(c, w);
            && Operand(c, w, true) == (WithCarry(Reading(c, w), s.carry), Word(s.value))
            && Operand(c, w, false) == (Reading(c, w), Word(s.value))
  {
    hide *;
    OperandCases(c, w);
    FourShifted(w);
    if BitAt(w, 25) {
      ImmediateParts(c, w);
      ImmediateShifts(w, c.c);
    } else if BitAt(w, 4) {
      RegisterParts(c, w);
      CycledCarry(c);
      RegisterSteps(Cycled(c), w);
    } else {
      PlainParts(c, w);
      ConstantValue(c, w);
      ConstantOperand(c, w);
    }
  }

  // ---------------------------------------------------------------------------------------------
  // The operation

  /** The first operand; r15 reads word-aligned. */
  function First(c: Core, w: Bits): Word { if Rn(w) == 15 then Word(c.reg[15].bits & 0xFFFF_FFFC) else c.reg[Rn(w)] }

  /** AND and TST, EOR and TEQ, ORR, MOV, BIC, MVN. */
  function Bitwise(k: Bits, a: Bits, b: Bits): Bits
  {
    if k == 0 || k == 8 then a & b
    else if k == 1 || k == 9 then a ^ b
    else if k == 12 then a | b
    else if k == 13 then b
    else if k == 14 then a & !b
    else !b
  }

  /** Table A3-2: the result and flags by bits 21 to 24, from the operands, the shifter carry, and C and V. */
  function Computed(k: Bits, a: Word, b: Word, shifter: bool, c: bool, v: bool): Result
  {
    if k == 2 || k == 10 then Subtracted(a, b, true)      // SUB, CMP
    else if k == 3 then Subtracted(b, a, true)            // RSB
    else if k == 4 || k == 11 then Added(a, b, false)     // ADD, CMN
    else if k == 5 then Added(a, b, c)                    // ADC
    else if k == 6 then Subtracted(a, b, c)               // SBC
    else if k == 7 then Subtracted(b, a, c)               // RSC
    else Logical(Word(Bitwise(k, a.bits, b.bits)), shifter, v)
  }

  function Logical(r: Word, carry: bool, v: bool): Result { Result(r, Nzcv(Signed(r) < 0, Num(r) == 0, carry, v)) }

  /** Operations that have flags only. */
  predicate Comparing(k: Bits) { 8 <= k <= 11 }

  function OpField(w: Bits): Bits { (w >> 21) & 0xF }

  /** The state after a data-processing instruction whose destination is not r15. With S the operands of an arithmetic
      operation are read in different states: the first one before r15 has been advanced. */
  function DataMeaning(c: Core, w: Bits): Core
  {
    var s, d, k, setsFlags := ShifterOperand(c, w), Reading(c, w), OpField(w), BitAt(w, 20);
    var early := setsFlags && (2 <= k <= 7 || k == 10 || k == 11);
    var x := Computed(k, First(if early then c else d, w), Word(s.value), s.carry, c.c, c.v);
    if Comparing(k) then WithFlags(d, x.f)
    else if setsFlags then PutFlags(d, Rd(w), x.r, x.f)
    else Put(d, Rd(w), x.r)
  }

  lemma FirstIs(c: Core, w: Bits)
    ensures Lhs(c, w) == First(c, w)
  {
    hide Rn;
  }

  lemma OpTable(w: Bits)
    ensures OpField(w) < 16
    ensures IsTest(OpOf(w)) <==> Comparing(OpField(w))
    ensures IsLogical(OpOf(w)) <==> OpField(w) in {0, 1, 8, 9, 12, 13, 14, 15}
  {}

  predicate Coded(op: Op, k: Bits)
  {
    match op
    case AND => k == 0
    case EOR => k == 1
    case SUB => k == 2
    case RSB => k == 3
    case ADD => k == 4
    case ADC => k == 5
    case SBC => k == 6
    case RSC => k == 7
    case TST => k == 8
    case TEQ => k == 9
    case CMP => k == 10
    case CMN => k == 11
    case ORR => k == 12
    case MOV => k == 13
    case BIC => k == 14
    case MVN => k == 15
  }

  lemma OpCoded(w: Bits)
    ensures Coded(OpOf(w), OpField(w))
  {}

  lemma LogicAt(op: Op, k: Bits, a: Word, b: Word, shifter: bool, c: bool, v: bool)
    requires Coded(op, k) && IsLogical(op)
    ensures Computed(k, a, b, shifter, c, v) == Logical(Word(Logic(op, a.bits, b.bits)), shifter, v)
  {
    hide *;
    BitwiseAt(op, k, a.bits, b.bits);
    LogicalCode(op, k);
    ComputedBitwise(k, a, b, shifter, c, v);
  }

  predicate IsBitwise(k: Bits) { k != 2 && k != 3 && k != 4 && k != 5 && k != 6 && k != 7 && k != 10 && k != 11 }

  lemma LogicalCode(op: Op, k: Bits)
    requires Coded(op, k) && IsLogical(op)
    ensures IsBitwise(k)
  {}

  lemma ComputedBitwise(k: Bits, a: Word, b: Word, shifter: bool, c: bool, v: bool)
    requires IsBitwise(k)
    ensures Computed(k, a, b, shifter, c, v) == Logical(Word(Bitwise(k, a.bits, b.bits)), shifter, v)
  {
    hide Logical, Added, Subtracted, Bitwise;
  }

  lemma BitwiseAt(op: Op, k: Bits, a: Bits, b: Bits)
    requires Coded(op, k) && IsLogical(op)
    ensures Bitwise(k, a, b) == Logic(op, a, b)
  {
    match op
    case AND =>
    case TST =>
    case EOR =>
    case TEQ =>
    case ORR =>
    case MOV =>
    case BIC =>
    case MVN =>
  }

  lemma ArithmeticAt(op: Op, k: Bits, a: Word, b: Word, shifter: bool, c: bool, v: bool)
    requires Coded(op, k) && !IsLogical(op)
    ensures Computed(k, a, b, shifter, c, v) == ArithmeticResult(op, a, b, c)
  {
    hide Logical, Added, Subtracted;
  }

  lemma LogicTable(w: Bits, a: Word, b: Word, shifter: bool, c: bool, v: bool)
    requires IsLogical(OpOf(w))
    ensures Computed(OpField(w), a, b, shifter, c, v) == Logical(Word(Logic(OpOf(w), a.bits, b.bits)), shifter, v)
  {
    hide *;
    OpCoded(w);
    LogicAt(OpOf(w), OpField(w), a, b, shifter, c, v);
  }

  lemma ArithmeticTable(w: Bits, a: Word, b: Word, shifter: bool, c: bool, v: bool)
    requires !IsLogical(OpOf(w))
    ensures Computed(OpField(w), a, b, shifter, c, v) == ArithmeticResult(OpOf(w), a, b, c)
  {
    hide *;
    OpCoded(w);
    ArithmeticAt(OpOf(w), OpField(w), a, b, shifter, c, v);
  }

  lemma LogicalIs(c: Core, r: Word, carry: bool)
    ensures Logical(r, carry, c.v) == Result(r, LogicalFlags(c, r, carry))
  {
    hide Num, Signed;
  }

  /** A logical instruction in state d, its operands read. */
  lemma LogicalFrom(c: Core, w: Bits, d: Core, rhs: Word, carry: bool)
    requires IsLogical(OpOf(w)) && Rd(w) != 15 && (IsTest(OpOf(w)) ==> BitAt(w, 20))
    requires Operand(c, w, true) == (WithCarry(d, carry), rhs) && Operand(c, w, false) == (d, rhs)
    ensures var r := Word(Logic(OpOf(w), Lhs(d, w).bits, rhs.bits));
            DataProcessed(c, w) == if IsTest(OpOf(w)) then WithFlags(d, LogicalFlags(d, r, carry))
                                   else if BitAt(w, 20) then PutFlags(d, Rd(w), r, LogicalFlags(d, r, carry))
                                   else Put(d, Rd(w), r)
  {
    hide *;
    var op := OpOf(w);
    var e := WithCarry(d, carry);
    CarryLhs(d, carry, w);
    var r := Word(Logic(op, Lhs(d, w).bits, rhs.bits));
    if BitAt(w, 20) {
      LogicalSteps(c, w, rhs, e);
      CarryFlags(d, carry, NegZero(FlagsOf(e), r));
      LogicalFlagsAre(d, carry, r);
      SDestPuts(d, w, r, FlagsOf(d).(c := carry));
    } else {
      PlainLogical(c, w, d, rhs);
    }
  }

  lemma PlainLogical(c: Core, w: Bits, d: Core, rhs: Word)
    requires IsLogical(OpOf(w)) && !IsTest(OpOf(w)) && !BitAt(w, 20) && Rd(w) != 15 && Operand(c, w, false) == (d, rhs)
    ensures DataProcessed(c, w) == Put(d, Rd(w), Word(Logic(OpOf(w), Lhs(d, w).bits, rhs.bits)))
  {
    hide BitAt, OpOf, Rd, Operand, Lhs, Logic, IsTest, IsLogical;
  }

  /** The steps of an arithmetic instruction whose operand leaves state d. */
  lemma ArithmeticBody(c: Core, w: Bits, d: Core, rhs: Word)
    requires !IsLogical(OpOf(w)) && Rd(w) != 15 && (IsTest(OpOf(w)) ==> BitAt(w, 20)) && Operand(c, w, false) == (d, rhs)
    ensures var lhs := Lhs(if BitAt(w, 20) then c else d, w);
            var r := Arithmetic(OpOf(w), lhs, rhs, d.c);
            var e := WithFlags(d, ArithmeticFlags(OpOf(w), FlagsOf(d), lhs, rhs, r));
            DataProcessed(c, w) == if !BitAt(w, 20) then DestWritten(d, w, r) else if IsTest(OpOf(w)) then e else SDestWritten(e, w, r)
  {
    hide BitAt, OpOf, Rd, Operand, Lhs, Arithmetic, ArithmeticFlags, IsTest, IsLogical, SDestWritten, DestWritten, WithFlags;
  }

  lemma PlainDest(c: Core, w: Bits, r: Word)
    requires Rd(w) != 15
    ensures DestWritten(c, w, r) == Put(c, Rd(w), r)
  {
    hide Rd;
  }

  lemma ArithmeticFrom(c: Core, w: Bits, d: Core, rhs: Word)
    requires !IsLogical(OpOf(w)) && Rd(w) != 15 && (IsTest(OpOf(w)) ==> BitAt(w, 20)) && Operand(c, w, false) == (d, rhs)
    ensures var x := ArithmeticResult(OpOf(w), Lhs(if BitAt(w, 20) then c else d, w), rhs, d.c);
            DataProcessed(c, w) == if IsTest(OpOf(w)) then WithFlags(d, x.f)
                                   else if BitAt(w, 20) then PutFlags(d, Rd(w), x.r, x.f)
                                   else Put(d, Rd(w), x.r)
  {
    hide *;
    var op, f, lhs := OpOf(w), FlagsOf(d), Lhs(if BitAt(w, 20) then c else d, w);
    FlagCarry(d);
    ArithmeticBody(c, w, d, rhs);
    ArithmeticMeans(op, f, lhs, rhs);
    var r := Arithmetic(op, lhs, rhs, d.c);
    SDestPuts(d, w, r, ArithmeticFlags(op, f, lhs, rhs, r));
    PlainDest(d, w, r);
  }

  lemma FlagCarry(c: Core)
    ensures FlagsOf(c).c == c.c
  {}

  lemma ReadingFlags(c: Core, w: Bits)
    ensures Reading(c, w).c == c.c && Reading(c, w).v == c.v
  {
    hide Plus, Isize, Advanced, BitAt;
  }

  lemma MeaningParts(c: Core, w: Bits)
    ensures var s, d, k := ShifterOperand(c, w), Reading(c, w), OpField(w);
            var early := BitAt(w, 20) && (2 <= k <= 7 || k == 10 || k == 11);
            var x := Computed(k, First(if early then c else d, w), Word(s.value), s.carry, c.c, c.v);
            DataMeaning(c, w) == if Comparing(k) then WithFlags(d, x.f)
                                 else if BitAt(w, 20) then PutFlags(d, Rd(w), x.r, x.f)
                                 else Put(d, Rd(w), x.r)
  {
    hide ShifterOperand, Reading, OpField, BitAt, Computed, First, Comparing, WithFlags, PutFlags, Put, Rd;
  }

  lemma EarlyOps(k: Bits)
    ensures (k < 16 && k !in {0, 1, 8, 9, 12, 13, 14, 15}) <==> (2 <= k <= 7 || k == 10 || k == 11)
  {}

  lemma DataIs(c: Core, w: Bits)
    requires Rd(w) != 15 && (IsTest(OpOf(w)) ==> BitAt(w, 20))
    ensures DataProcessed(c, w) == DataMeaning(c, w)
  {
    hide *;
    var s, d, k := ShifterOperand(c, w), Reading(c, w), OpField(w);
    OperandIs(c, w);
    OpTable(w);
    EarlyOps(k);
    MeaningParts(c, w);
    ReadingFlags(c, w);
    FirstIs(d, w);
    FirstIs(c, w);
    if IsLogical(OpOf(w)) {
      var r := Word(Logic(OpOf(w), Lhs(d, w).bits, s.value));
      LogicalFrom(c, w, d, Word(s.value), s.carry);
      LogicTable(w, Lhs(d, w), Word(s.value), s.carry, c.c, c.v);
      LogicalIs(d, r, s.carry);
    } else {
      var lhs := Lhs(if BitAt(w, 20) then c else d, w);
      ArithmeticFrom(c, w, d, Word(s.value));
      ArithmeticTable(w, lhs, Word(s.value), s.carry, c.c, c.v);
    }
  }

  lemma TestSets(w: Bits)
    requires IsPlainData(w)
    ensures (IsTest(OpOf(w)) ==> BitAt(w, 20)) && IsData(w) && !IsMultiply(w) && !IsHalf(w) && !IsTransfer(w)
  {
    hide OpOf, IsTest, BitAt, IsMultiply, IsHalf, IsTransfer;
  }

  lemma PlainDispatched(c: Core, pins: Pins, w: Bits, pc: Word)
    requires IsPlainData(w)
    ensures (IsTest(OpOf(w)) ==> BitAt(w, 20)) && Dispatched(c, pins, w, pc) == DataProcessed(c, w)
  {
    TestSets(w);
    DataExecuted(c, pins, w);
    hide IsPlainData, IsData, IsMultiply, IsHalf, IsTransfer, Executed, DataProcessed, Supported, IsLongMultiply, IsMsr, IsBlock, LongDone,
      MsrDone, Transfer.Transferred, OtherDone, IsTest, OpOf, BitAt;
  }

  /** A data-processing word does to the whole machine what the tables of the manual say. */
  lemma DataWord(c: Core, pins: Pins, w: Bits, pc: Word)
    requires IsPlainData(w) && Rd(w) != 15
    ensures Dispatched(c, pins, w, pc) == DataMeaning(c, w)
  {
    hide *;
    PlainDispatched(c, pins, w, pc);
    DataIs(c, w);
  }

  /** The amount of a shift by a register is its number modulo 256. */
  lemma AmountNumber(w: Word)
    ensures Nat(LowByte(w)) == Num(w) % 0x100
  {
    AmountIs(w);
    M.LowByteNumber(w.bits);
    NumNat(w);
    hide Nat, Num, Fields.And, LowByte;
  }

  lemma AmountIs(w: Word)
    ensures LowByte(w) == Fields.And(w.bits, 0xFF)
  {}
}
