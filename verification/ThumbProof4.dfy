/** Thumb translation preserves meaning: format 4, the operations on two low registers. */
module ThumbProof4 {
  import opened Words
  import opened State
  import opened Shifter
  import opened Alu
  import opened DataPath
  import opened Multiply
  import opened Manual
  import opened Execute
  import T = Thumb
  import opened ThumbMeaning
  import opened ThumbProof

  predicate IsFormat4(t: Bits) { t < 0x1_0000 && (t & 0xFC00) == 0x4000 }

  // ---------------------------------------------------------------------------------------------
  // The ways of placing the registers

  lemma SixToNine(t: Bits)
    ensures T.Index4(t) == Field(t, 6, 15)
  {}

  /** A base of format 4: condition AL, S set, and no operands yet. */
  predicate IsBase(base: Bits) { base & 0xF010_0000 == 0xE010_0000 && base & 0x000F_FFFF == 0 && base & 0x0E00_0000 == 0 }

  lemma NormFields(base: Bits, t: Bits)
    requires IsBase(base)
    ensures var w := T.Placed(base, t, T.Norm);
            && Nibble(w, 21) == Nibble(base, 21) && BitAt(w, 20) && !BitAt(w, 25) && !BitAt(w, 4) && Unshifted(w)
            && w & 0x0C00_0000 == 0 && w & 0x0000_0090 == 0
  {}

  lemma NormOperands(base: Bits, t: Bits)
    requires IsBase(base)
    ensures var w := T.Placed(base, t, T.Norm);
            Nibble(w, 12) == Field(t, 0, 7) && Nibble(w, 16) == Field(t, 0, 7) && Nibble(w, 0) == Field(t, 3, 7)
  {}

  lemma NormRegisters(base: Bits, t: Bits)
    requires IsBase(base)
    ensures var w := T.Placed(base, t, T.Norm);
            Rd(w) == Low3(t, 0) && Rn(w) == Low3(t, 0) && Rm(w) == Low3(t, 3) && Rd(w) != 15
  {
    hide RegNumber, Nibble, Field, T.Placed, IsBase;
    NormOperands(base, t);
    SmallField(t, 0);
  }

  lemma PlainBits(w: Bits)
    requires w & 0x0C00_0000 == 0 && w & 0x0000_0090 == 0 && BitAt(w, 20) && !BitAt(w, 4)
    ensures IsData(w) && !IsMultiply(w) && !IsHalf(w) && !IsTransfer(w)
  {
    hide OpOf;
  }

  lemma SameOp(w: Bits, base: Bits)
    requires Nibble(w, 21) == Nibble(base, 21)
    ensures OpOf(w) == OpOf(base)
  {
    hide Nibble;
  }

  /** The arithmetic and logical operations between two registers. */
  function Worked(c: Core, op: Op, rd: RegNo, rs: RegNo): Core
  {
    var a, b := c.reg[rd], c.reg[rs];
    if IsLogical(op) then
      var r := Word(Logic(op, a.bits, b.bits));
      if IsTest(op) then WithFlags(c, LogicalFlags(c, r, c.c)) else PutLogical(c, rd, r, c.c)
    else
      var x := ArithmeticResult(op, a, b, c.c);
      if IsTest(op) then WithFlags(c, x.f) else PutResult(c, rd, x)
  }

  lemma NormExecuted(c: Core, pins: Pins, base: Bits, t: Bits)
    requires IsBase(base)
    ensures var w := T.Placed(base, t, T.Norm);
            Supported(w) && Executed(c, pins, w) == Worked(c, OpOf(base), Low3(t, 0), Low3(t, 3))
  {
    hide *;
    var w := T.Placed(base, t, T.Norm);
    NormFields(base, t);
    NormRegisters(base, t);
    PlainBits(w);
    SameOp(w, base);
    DataExecuted(c, pins, w);
    RegisterOperand(c, w, true);
    RegisterOperand(c, w, false);
    LowLhs(c, w);
    NormWorked(c, w, Low3(t, 3));
  }

  lemma NormWorked(c: Core, w: Bits, rs: RegNo)
    requires BitAt(w, 20) && Rd(w) != 15 && Lhs(c, w) == c.reg[Rd(w)]
    requires Operand(c, w, true) == (WithCarry(c, c.c), c.reg[rs]) && Operand(c, w, false) == (c, c.reg[rs])
    ensures DataProcessed(c, w) == Worked(c, OpOf(w), Rd(w), rs)
  {
    if IsLogical(OpOf(w)) { LogicalPuts(c, w, c.reg[rs], c.c); } else { ArithmeticPuts(c, w, c.reg[rs]); }
    hide BitAt, Rd, OpOf, Operand, DataProcessed, Lhs, PutFlags, IsTest, IsLogical, Logic, ArithmeticResult, WithFlags,
      WithCarry, LogicalFlags;
  }

  // ---------------------------------------------------------------------------------------------
  // The table

  /** The operations whose operands are placed in the normal way. */
  predicate IsNorm(op: Tiny) { !op.TShift? && !op.TNeg? && !op.TMul? }

  function NormOp(op: Tiny): Op
  {
    match op
    case TAnd => AND
    case TEor => EOR
    case TAdc => ADC
    case TSbc => SBC
    case TTst => TST
    case TCmp => CMP
    case TCmn => CMN
    case TOrr => ORR
    case TBic => BIC
    case _ => MVN
  }

  const NEG_BASE: Bits := 0xE270_0000
  const MUL_BASE: Bits := 0xE010_0090

  function ShiftBase(kind: Kind): Bits
  {
    match kind
    case LSL => 0xE1B0_0010
    case LSR => 0xE1B0_0030
    case ASR => 0xE1B0_0050
    case ROR => 0xE1B0_0070
  }

  /** Each entry of the table is the ARM instruction of its Thumb operation. */
  lemma Table(k: Bits)
    requires k < 16
    ensures var (base, placing) := T.Subset4(k);
            var op := TinyAt(k);
            && (placing == T.Norm <==> IsNorm(op)) && (placing == T.Shifts <==> op.TShift?)
            && (placing == T.Negs <==> op.TNeg?) && (placing == T.Mul <==> op.TMul?)
            && (op.TShift? ==> base == ShiftBase(op.kind)) && (op.TNeg? ==> base == NEG_BASE) && (op.TMul? ==> base == MUL_BASE)
  {}

  lemma TableOps(k: Bits)
    requires k < 16 && IsNorm(TinyAt(k))
    ensures var base := T.Subset4(k).0; IsBase(base) && OpOf(base) == NormOp(TinyAt(k))
  {}

  lemma IndexSmall(t: Bits)
    ensures T.Index4(t) < 16 && T.Index4(t) == Field(t, 6, 15)
  {
    SixToNine(t);
  }

  // ---------------------------------------------------------------------------------------------
  // The normal operations

  lemma WorkedMeans(c: Core, op: Tiny, rd: RegNo, rs: RegNo)
    requires IsNorm(op)
    ensures Worked(c, NormOp(op), rd, rs) == AluMeaning(c, op, rd, rs)
  {
    hide PutLogical, PutResult, WithFlags, LogicalFlags, Added, Subtracted;
    match op
    case TAnd =>
    case TEor =>
    case TAdc =>
    case TSbc =>
    case TTst =>
    case TCmp =>
    case TCmn =>
    case TOrr =>
    case TBic =>
    case TMvn =>
  }

  lemma TranslatesNorm(c: Core, pins: Pins, t: Bits)
    requires IsNorm(TinyOf(t))
    ensures Supported(T.Format4(t)) && Executed(c, pins, T.Format4(t)) == AluMeaning(c, TinyOf(t), Low3(t, 0), Low3(t, 3))
  {
    hide *;
    IndexSmall(t);
    TinyIs(t);
    Format4Is(t);
    var k := T.Index4(t);
    Table(k);
    TableOps(k);
    NormExecuted(c, pins, T.Subset4(k).0, t);
    WorkedMeans(c, TinyOf(t), Low3(t, 0), Low3(t, 3));
  }

  lemma TinyIs(t: Bits)
    ensures TinyOf(t) == TinyAt(Field(t, 6, 15))
  {}

  lemma Format4Is(t: Bits)
    ensures T.Format4(t) == T.Placed(T.Subset4(T.Index4(t)).0, t, T.Subset4(T.Index4(t)).1)
  {
    hide T.Placed, T.Subset4, T.Index4;
  }

  // ---------------------------------------------------------------------------------------------
  // Shifts by a register

  lemma ShiftFields(kind: Kind, t: Bits)
    ensures var w := T.Placed(ShiftBase(kind), t, T.Shifts);
            && OpOf(w) == MOV && BitAt(w, 20) && !BitAt(w, 25) && BitAt(w, 4) && !BitAt(w, 7) && KindOf(w) == kind
            && w & 0x0C00_0000 == 0
  {}

  lemma ShiftOperands(kind: Kind, t: Bits)
    ensures var w := T.Placed(ShiftBase(kind), t, T.Shifts);
            Nibble(w, 12) == Field(t, 0, 7) && Nibble(w, 0) == Field(t, 0, 7) && Nibble(w, 8) == Field(t, 3, 7)
  {}

  lemma ShiftRegisters(kind: Kind, t: Bits)
    ensures var w := T.Placed(ShiftBase(kind), t, T.Shifts);
            && Rd(w) == Low3(t, 0) && Rm(w) == Low3(t, 0) && Rs(w) == Low3(t, 3)
            && Low3(t, 0) < 8 && Low3(t, 3) < 8
  {
    hide RegNumber, Nibble, Field, T.Placed, ShiftBase;
    ShiftOperands(kind, t);
    SmallField(t, 0);
    SmallField(t, 3);
  }

  lemma RegisterShiftBits(w: Bits)
    requires w & 0x0C00_0000 == 0 && BitAt(w, 20) && BitAt(w, 4) && !BitAt(w, 7)
    ensures IsData(w) && !IsMultiply(w) && !IsHalf(w) && !IsTransfer(w) && !Unshifted(w)
  {
    hide OpOf;
  }

  lemma CycledRegister(c: Core, r: RegNo)
    requires r != 15
    ensures Cycled(c).reg[r] == c.reg[r] && Cycled(c).c == c.c
  {
    hide Plus, Isize, Advanced;
  }

  lemma ShiftOperand(c: Core, w: Bits)
    requires !BitAt(w, 25) && BitAt(w, 4) && !Unshifted(w) && Rm(w) != 15 && Rs(w) != 15
    ensures var s := ShiftSteps(KindOf(w), c.reg[Rm(w)].bits, LowByte(c.reg[Rs(w)]), c.c);
            Operand(c, w, true) == (WithCarry(Cycled(c), s.carry), Word(s.value))
  {
    CycledRegister(c, Rm(w));
    CycledRegister(c, Rs(w));
    RegShiftIsManual(KindOf(w), c.reg[Rm(w)].bits, LowByte(c.reg[Rs(w)]), c.c);
    hide BitAt, Unshifted, Rm, Rs, KindOf, RegShift, ShiftSteps, Cycled, WithCarry, LowByte;
  }

  /** MOVS with its operand in state d. */
  lemma MovFrom(c: Core, w: Bits, rhs: Word, d: Core, carry: bool)
    requires OpOf(w) == MOV && BitAt(w, 20) && Rd(w) != 15 && Operand(c, w, true) == (WithCarry(d, carry), rhs)
    ensures DataProcessed(c, w) == PutLogical(d, Rd(w), rhs, carry)
  {
    hide *;
    var e := WithCarry(d, carry);
    MovIsLogical();
    LogicalSteps(c, w, rhs, e);
    MovLogic(Lhs(e, w).bits, rhs);
    CarryFlags(d, carry, NegZero(FlagsOf(e), rhs));
    LogicalFlagsAre(d, carry, rhs);
    SDestPuts(d, w, rhs, FlagsOf(d).(c := carry));
    PutLogicalIs(d, Rd(w), rhs, carry);
  }

  lemma MovIsLogical()
    ensures IsLogical(MOV) && !IsTest(MOV)
  {}

  lemma MovLogic(a: Bits, rhs: Word)
    ensures IsLogical(MOV) && Word(Logic(MOV, a, rhs.bits)) == rhs
  {}

  lemma PutLogicalIs(c: Core, r: RegNo, w: Word, carry: bool)
    ensures PutLogical(c, r, w, carry) == PutFlags(c, r, w, LogicalFlags(c, w, carry))
  {}

  lemma CycledPut(c: Core, r: RegNo, w: Word, carry: bool)
    requires r != 15
    ensures PutLogical(Cycled(c), r, w, carry) == Cycled(PutLogical(c, r, w, carry))
  {
    hide Plus, Isize, Advanced, Num, Signed;
  }

  /** A shift by a register has the effect of the Thumb instruction; r15 has been advanced, which the next
      fetch takes into account. */
  lemma ShiftExecuted(c: Core, pins: Pins, kind: Kind, t: Bits)
    ensures var w := T.Placed(ShiftBase(kind), t, T.Shifts);
            Supported(w) && Executed(c, pins, w) == Cycled(AluMeaning(c, TShift(kind), Low3(t, 0), Low3(t, 3)))
  {
    hide *;
    var w := T.Placed(ShiftBase(kind), t, T.Shifts);
    ShiftFields(kind, t);
    ShiftRegisters(kind, t);
    RegisterShiftBits(w);
    DataExecuted(c, pins, w);
    ShiftOperand(c, w);
    var s := ShiftSteps(kind, c.reg[Rm(w)].bits, LowByte(c.reg[Rs(w)]), c.c);
    MovFrom(c, w, Word(s.value), Cycled(c), s.carry);
    CycledPut(c, Rd(w), Word(s.value), s.carry);
    ShiftMeans(c, kind, Low3(t, 0), Low3(t, 3));
  }

  lemma ShiftMeans(c: Core, kind: Kind, rd: RegNo, rs: RegNo)
    ensures var s := ShiftSteps(kind, c.reg[rd].bits, LowByte(c.reg[rs]), c.c);
            AluMeaning(c, TShift(kind), rd, rs) == PutLogical(c, rd, Word(s.value), s.carry)
  {
    hide ShiftSteps, LowByte, PutLogical;
  }

  // ---------------------------------------------------------------------------------------------
  // NEG

  lemma NegFields(t: Bits)
    ensures var w := T.Placed(NEG_BASE, t, T.Negs);
            && OpOf(w) == RSB && BitAt(w, 20) && BitAt(w, 25) && Imm12(w) == 0
            && IsData(w) && !IsMultiply(w) && !IsHalf(w) && !IsTransfer(w)
            && Nibble(w, 12) == Field(t, 0, 7) && Nibble(w, 16) == Field(t, 3, 7)
  {}

  lemma NegRegisters(t: Bits)
    ensures var w := T.Placed(NEG_BASE, t, T.Negs);
            Rd(w) == Low3(t, 0) && Rn(w) == Low3(t, 3) && Rd(w) != 15 && Rn(w) != 15
  {
    NegFields(t);
    SmallField(t, 0);
    SmallField(t, 3);
    hide RegNumber, Nibble, Field, T.Placed, NEG_BASE, OpOf, BitAt, Imm12, IsData, IsMultiply, IsHalf, IsTransfer;
  }

  lemma RsbPuts(c: Core, w: Bits, rhs: Word)
    requires BitAt(w, 20) && OpOf(w) == RSB && Rd(w) != 15 && Operand(c, w, false) == (c, rhs)
    ensures DataProcessed(c, w) == PutResult(c, Rd(w), Subtracted(rhs, Lhs(c, w), true))
  {
    ArithmeticPuts(c, w, rhs);
    hide BitAt, Rd, OpOf, Operand, DataProcessed, Lhs, PutFlags, Added, Subtracted;
  }

  lemma NegExecuted(c: Core, pins: Pins, t: Bits)
    ensures var w := T.Placed(NEG_BASE, t, T.Negs);
            Supported(w) && Executed(c, pins, w) == AluMeaning(c, TNeg, Low3(t, 0), Low3(t, 3))
  {
    hide *;
    var w := T.Placed(NEG_BASE, t, T.Negs);
    NegFields(t);
    NegRegisters(t);
    DataExecuted(c, pins, w);
    ImmediateOperand(c, w, false);
    LowLhs(c, w);
    RsbPuts(c, w, Word(Imm12(w)));
    NegMeans(c, Low3(t, 0), Low3(t, 3));
  }

  lemma NegMeans(c: Core, rd: RegNo, rs: RegNo)
    ensures AluMeaning(c, TNeg, rd, rs) == PutResult(c, rd, Subtracted(Word(0), c.reg[rs], true))
  {
    hide PutResult, Subtracted;
  }

  // ---------------------------------------------------------------------------------------------
  // MUL

  lemma MulFields(t: Bits)
    ensures var w := T.Placed(MUL_BASE, t, T.Mul);
            && IsMultiply(w) && BitAt(w, 20) && !BitAt(w, 21)
            && Nibble(w, 16) == Field(t, 0, 7) && Nibble(w, 8) == Field(t, 0, 7) && Nibble(w, 0) == Field(t, 3, 7)
  {}

  lemma MulRegisters(t: Bits)
    ensures var w := T.Placed(MUL_BASE, t, T.Mul);
            Rn(w) == Low3(t, 0) && Rs(w) == Low3(t, 0) && Rm(w) == Low3(t, 3) && Low3(t, 0) < 8
  {
    MulFields(t);
    SmallField(t, 0);
    hide RegNumber, Nibble, Field, T.Placed, MUL_BASE, BitAt, IsMultiply;
  }

  lemma MultiplyExecuted(c: Core, pins: Pins, w: Bits)
    requires IsMultiply(w)
    ensures Supported(w) && Executed(c, pins, w) == Multiplied(c, w, BitAt(w, 21), BitAt(w, 20))
  {
    hide IsMultiply, Multiplied, BitAt, IsHalf, IsData, IsTransfer;
  }

  /** MULS: with Rd equal to Rm the result is 0. */
  lemma MulsPuts(c: Core, w: Bits)
    requires Rn(w) != 15
    ensures var r := if Rm(w) == Rn(w) then Word(0) else Times(c.reg[Rm(w)], c.reg[Rs(w)]);
            Multiplied(c, w, false, true) == PutLogical(c, Rn(w), r, c.c)
  {
    var r := if Rm(w) == Rn(w) then Word(0) else Times(c.reg[Rm(w)], c.reg[Rs(w)]);
    NegZeroMeans(FlagsOf(c), r);
    hide Rm, Rn, Rs, Rd, Times, NegZero, Num, Signed, Plus;
  }

  lemma MulMeans(c: Core, rd: RegNo, rs: RegNo)
    ensures AluMeaning(c, TMul, rd, rs) == PutLogical(c, rd, Times(c.reg[rs], c.reg[rd]), c.c)
  {
    Commutes(Num(c.reg[rd]), Num(c.reg[rs]));
    hide PutLogical, Product, Num, ToWord;
  }

  lemma Commutes(x: nat, y: nat)
    ensures Product(x, y) == Product(y, x)
  {}

  lemma MulExecuted(c: Core, pins: Pins, t: Bits)
    ensures var w := T.Placed(MUL_BASE, t, T.Mul);
            var r := if Low3(t, 3) == Low3(t, 0) then Word(0) else Times(c.reg[Low3(t, 3)], c.reg[Low3(t, 0)]);
            Supported(w) && Executed(c, pins, w) == PutLogical(c, Low3(t, 0), r, c.c)
  {
    hide *;
    var w := T.Placed(MUL_BASE, t, T.Mul);
    MulFields(t);
    MulRegisters(t);
    MultiplyExecuted(c, pins, w);
    MulsPuts(c, w);
  }

  // ---------------------------------------------------------------------------------------------
  // Format 4

  lemma IsMeaning4(c: Core, pins: Pins, t: Bits)
    ensures Meaning(c, pins, Parse4(t)) == AluMeaning(c, TinyOf(t), Low3(t, 0), Low3(t, 3))
  {
    hide AluMeaning, TinyOf, Low3;
  }

  lemma Entry(t: Bits)
    ensures T.Format4(t) == (match TinyOf(t)
                             case TShift(kind) => T.Placed(ShiftBase(kind), t, T.Shifts)
                             case TNeg => T.Placed(NEG_BASE, t, T.Negs)
                             case TMul => T.Placed(MUL_BASE, t, T.Mul)
                             case _ => T.Format4(t))
  {
    hide T.Placed, T.Subset4, T.Index4, TinyAt, ShiftBase, NEG_BASE, MUL_BASE;
    IndexSmall(t);
    Format4Is(t);
    Table(T.Index4(t));
  }

  /** The effect of a translated instruction of format 4: for a shift, r15 has been advanced as well. */
  function Effect4(c: Core, t: Bits): Core
  {
    var d := AluMeaning(c, TinyOf(t), Low3(t, 0), Low3(t, 3));
    if TinyOf(t).TShift? then Cycled(d) else d
  }

  /** The two-register operations; for MUL the registers have to differ. */
  lemma Translates4(c: Core, pins: Pins, t: Bits)
    requires TinyOf(t).TMul? ==> Low3(t, 0) != Low3(t, 3)
    ensures Supported(T.Format4(t)) && Executed(c, pins, T.Format4(t)) == Effect4(c, t)
  {
    hide IsMultiply, IsHalf, IsTransfer, IsData, Supported, Executed, AluMeaning, TinyOf, Low3, Cycled, T.Format4, T.Placed,
      ShiftBase, NEG_BASE, MUL_BASE, IsNorm;
    var op, rd, rs := TinyOf(t), Low3(t, 0), Low3(t, 3);
    Entry(t);
    match op
    case TShift(kind) => ShiftExecuted(c, pins, kind, t);
    case TNeg => NegExecuted(c, pins, t);
    case TMul =>
      MulExecuted(c, pins, t);
      MulMeans(c, rd, rs);
    case _ =>
      NormIs(op);
      TranslatesNorm(c, pins, t);
  }

  lemma NormIs(op: Tiny)
    ensures IsNorm(op) <==> !op.TShift? && !op.TNeg? && !op.TMul?
  {}

  /** From every state, the translated instruction does what the Thumb instruction does. */
  ghost predicate Preserved4(pins: Pins, t: Bits)
  {
    Supported(T.Format4(t)) && forall c: Core :: Executed(c, pins, T.Format4(t)) == Effect4(c, t)
  }

  /** MUL is translated correctly exactly when its registers differ. */
  lemma MulExactly(pins: Pins, t: Bits, c: Core)
    requires TinyOf(t) == TMul
    ensures Preserved4(pins, t) <==> Low3(t, 0) != Low3(t, 3)
  {
    hide IsMultiply, IsHalf, IsTransfer, IsData, Supported, Executed, AluMeaning, TinyOf, Low3, Cycled, T.Format4, Effect4;
    if Low3(t, 0) != Low3(t, 3) {
      Translates4(c, pins, t);
      forall d: Core ensures Executed(d, pins, T.Format4(t)) == Effect4(d, t) { Translates4(d, pins, t); }
    } else {
      MulLost(pins, t, c);
    }
  }

  /** MUL Rd,Rd of 1 gives 0 instead of 1. */
  lemma MulLost(pins: Pins, t: Bits, c: Core)
    requires TinyOf(t) == TMul && Low3(t, 0) == Low3(t, 3)
    ensures Supported(T.Format4(t))
    ensures var d := Put(c, Low3(t, 0), Word(1)); Executed(d, pins, T.Format4(t)) != Effect4(d, t)
  {
    hide *;
    var rd := Low3(t, 0);
    var d := Put(c, rd, Word(1));
    Entry(t);
    MulExecuted(d, pins, t);
    MulMeans(d, rd, rd);
    Effect4Is(d, t);
    PutReads(c, rd, Word(1));
    OneTimesOne();
    PutLogicalReads(d, rd, Word(0), d.c);
    PutLogicalReads(d, rd, Word(1), d.c);
  }

  lemma Effect4Is(c: Core, t: Bits)
    requires TinyOf(t) == TMul
    ensures Effect4(c, t) == AluMeaning(c, TMul, Low3(t, 0), Low3(t, 3))
  {
    hide AluMeaning, TinyOf, Low3;
  }

  lemma PutReads(c: Core, r: RegNo, w: Word)
    ensures Put(c, r, w).reg[r] == w
  {}

  lemma PutLogicalReads(c: Core, r: RegNo, w: Word, carry: bool)
    ensures PutLogical(c, r, w, carry).reg[r] == w
  {}

  lemma OneTimesOne()
    ensures Times(Word(1), Word(1)) == Word(1) && Word(1) != Word(0)
  {
    NumOne(true);
    assert Product(1, 1) == 1;
    OfNat(1);
    hide Of, Nat;
  }
}
