/** Data-processing instructions, PSR transfers and writes to r15 (arch_arm/common/armemu32.c, with the
    macros of armemu.h), for a 32-bit program space on a v4 core. */
module DataPath {
  import opened Words
  import opened State
  import opened Support
  import opened Shifter
  import opened Alu

  // ---------------------------------------------------------------------------------------------
  // Instruction fields

  /** BITS (k, k + 3). */
  function Nibble(instr: Bits, k: Bits): Bits
    requires k <= 28
  {
    (instr >> k) & 0xF
  }

  function RegNumber(x: Bits): RegNo
  {
    LowBound(x, 4);
    assert Pow2(4) == 16;
    Low(x, 4)
  }

  function Rn(instr: Bits): RegNo { RegNumber(Nibble(instr, 16)) }  // LHSReg
  function Rd(instr: Bits): RegNo { RegNumber(Nibble(instr, 12)) }  // DESTReg
  function Rs(instr: Bits): RegNo { RegNumber(Nibble(instr, 8)) }
  function Rm(instr: Bits): RegNo { RegNumber(Nibble(instr, 0)) }   // RHSReg

  datatype Op = AND | EOR | SUB | RSB | ADD | ADC | SBC | RSC | TST | TEQ | CMP | CMN | ORR | MOV | BIC | MVN

  /** BITS (21, 24) of a data-processing instruction. */
  function OpOf(instr: Bits): Op
  {
    var k := Nibble(instr, 21);
    if k == 0 then AND else if k == 1 then EOR else if k == 2 then SUB else if k == 3 then RSB
    else if k == 4 then ADD else if k == 5 then ADC else if k == 6 then SBC else if k == 7 then RSC
    else if k == 8 then TST else if k == 9 then TEQ else if k == 10 then CMP else if k == 11 then CMN
    else if k == 12 then ORR else if k == 13 then MOV else if k == 14 then BIC else MVN
  }

  predicate IsTest(op: Op) { op in {TST, TEQ, CMP, CMN} }

  predicate IsLogical(op: Op) { op in {AND, EOR, TST, TEQ, ORR, MOV, BIC, MVN} }

  // ---------------------------------------------------------------------------------------------
  // Small steps

  function FlagsOf(c: Core): Nzcv { Nzcv(c.n, c.z, c.c, c.v) }

  function WithFlags(c: Core, f: Nzcv): Core { c.(n := f.n, z := f.z, c := f.c, v := f.v) }

  /** INSN_SIZE. */
  function Isize(t: bool): Word { if t then Word(2) else Word(4) }

  /** Bit 1 of NextInstr set: r15 has been advanced. */
  function Advanced(n: nat): nat { if (n / 2) % 2 == 1 then n else n + 2 }

  /** Bit 2 of NextInstr set: the pipeline has to be refilled. */
  function Refilled(n: nat): nat { if (n / 4) % 2 == 1 then n else n + 4 }

  /** INCPC. */
  function IncPc(c: Core): Core
  {
    hide *;
    c.(reg := c.reg[15 := Plus(c.reg[15], Isize(c.t))], nextInstr := Advanced(c.nextInstr))
  }

  /** FLUSHPIPE. */
  function Flush(c: Core): Core { c.(nextInstr := Refilled(c.nextInstr)) }

  /** The LHS macro: r15 is read word-aligned. */
  function Lhs(c: Core, instr: Bits): Word
  {
    var n := Rn(instr);
    if n == 15 then Masked(c.reg[15], 0xFFFF_FFFC) else c.reg[n]
  }

  // ---------------------------------------------------------------------------------------------
  // Shifted operands

  /** ARMul_ImmedTable[i]: the low byte rotated right by twice the top four of twelve bits. */
  function Immediate(i: Bits): Bits
  {
    var amount := (i >> 7) & 0x1E;
    ((i & 0xFF) >> amount) | ((i & 0xFF) << (32 - amount))
  }

  function Imm12(instr: Bits): Bits { instr & 0xFFF }

  /** BITS (7, 11). */
  function Shamt(instr: Bits): Bits { (instr >> 7) & 0x1F }

  /** BITS (4, 11) == 0: the operand is a plain register. */
  predicate Unshifted(instr: Bits) { (instr >> 4) & 0xFF == 0 }

  /** A shift amount in a register. */
  function LowByte(w: Word): (n: Bits)
    ensures n < 256
  {
    w.bits & 0xFF
  }

  /** INCPC and the reset of the abort signal, as the register-shift paths begin. */
  function Cycled(c: Core): Core { IncPc(c).(abortSig := false) }

  function ValueByRegister(c: Core, instr: Bits): Word
  {
    Word(RegShiftValue(KindOf(instr), c.reg[Rm(instr)].bits, LowByte(c.reg[Rs(instr)])))
  }

  function ValueByConstant(c: Core, instr: Bits): Word
  {
    Word(ImmShiftValue(KindOf(instr), c.reg[Rm(instr)].bits, Shamt(instr), c.c))
  }

  function ByRegister(c: Core, instr: Bits): Shifted
  {
    RegShift(KindOf(instr), c.reg[Rm(instr)].bits, LowByte(c.reg[Rs(instr)]), c.c)
  }

  function ByConstant(c: Core, instr: Bits): Shifted
    requires !Unshifted(instr) && !BitAt(instr, 4)
  {
    MacroFilter(instr);
    ImmShift(KindOf(instr), c.reg[Rm(instr)].bits, Shamt(instr), c.c)
  }

  /** What the DPRegRHS macro does: the state after it and the operand. */
  function RegOperand(c: Core, instr: Bits): (Core, Word)
  {
    if Unshifted(instr) then (c, c.reg[Rm(instr)])
    else if BitAt(instr, 4) then (Cycled(c), ValueByRegister(Cycled(c), instr))
    else (c, ValueByConstant(c, instr))
  }

  function WithCarry(c: Core, carry: bool): Core { c.(c := carry) }

  /** What the DPSRegRHS macro does: it also sets C. */
  function RegOperandS(c: Core, instr: Bits): (Core, Word)
  {
    if Unshifted(instr) then (c, c.reg[Rm(instr)])
    else
      var d := if BitAt(instr, 4) then Cycled(c) else c;
      var r := if BitAt(instr, 4) then ByRegister(d, instr) else ByConstant(c, instr);
      (WithCarry(d, r.carry), Word(r.value))
  }

  /** The macro filter: GetDPSRegRHS never sees LSL #0, whose carry C leaves undefined. */
  lemma MacroFilter(instr: Bits)
    requires !Unshifted(instr) && !BitAt(instr, 4)
    ensures !(KindOf(instr) == LSL && Shamt(instr) == 0)
    ensures Shamt(instr) < 32
  {}

  /** The second operand; `carry` says whether the instruction takes C from the shifter. */
  function Operand(c: Core, instr: Bits, carry: bool): (Core, Word)
  {
    if BitAt(instr, 25) then
      var rhs := Immediate(Imm12(instr));
      (if carry && Imm12(instr) > 255 then c.(c := Neg(rhs)) else c, Word(rhs))
    else if carry then RegOperandS(c, instr)
    else RegOperand(c, instr)
  }

  // ---------------------------------------------------------------------------------------------
  // Destinations

  function PcMask(t: bool): Bits { if t then 0xFFFF_FFFE else 0xFFFF_FFFC }

  /** WriteR15. */
  function R15Written(c: Core, src: Word): Core
  {
    Flush(c.(reg := c.reg[15 := Masked(src, PcMask(c.t))]))
  }

  /** WriteSR15: outside the user bank the CPSR is restored first. */
  function SR15Written(c: Core, src: Word): Core
  {
    R15Written(if c.bankNo > 0 then SetCpsr(c, c.spsr[c.bankNo]) else c, src)
  }

  /** WriteR15Branch: bit 0 selects Thumb. */
  function R15Branched(c: Core, src: Word): Core
  {
    var t := Odd(src.bits);
    var d := c.(t := t, reg := c.reg[15 := Masked(src, PcMask(t))]);
    Flush(d.(cpsr := GetCpsr(d)))
  }

  /** WRITEDEST. */
  function DestWritten(c: Core, instr: Bits, r: Word): Core
  {
    if Rd(instr) == 15 then R15Written(c, r) else c.(reg := c.reg[Rd(instr) := r])
  }

  /** WRITESDEST. */
  function SDestWritten(c: Core, instr: Bits, r: Word): Core
  {
    if Rd(instr) == 15 then SR15Written(c, r)
    else WithFlags(c.(reg := c.reg[Rd(instr) := r]), NegZero(FlagsOf(c), r))
  }

  // ---------------------------------------------------------------------------------------------
  // Data processing: cases 0x00 to 0x3f of the main switch

  function Logic(op: Op, a: Bits, b: Bits): Bits
    requires IsLogical(op)
  {
    match op
    case AND => a & b
    case TST => a & b
    case EOR => a ^ b
    case TEQ => a ^ b
    case ORR => a | b
    case MOV => b
    case BIC => a & !b
    case MVN => !b
  }

  function Arithmetic(op: Op, a: Word, b: Word, c: bool): Word
    requires !IsLogical(op)
  {
    match op
    case SUB => Minus(a, b)
    case CMP => Minus(a, b)
    case RSB => Minus(b, a)
    case ADD => Plus(a, b)
    case CMN => Plus(a, b)
    case ADC => Adc(a, b, c)
    case SBC => Sbc(a, b, c)
    case RSC => Sbc(b, a, c)
  }

  /** C and V (and, for additions, N and Z) after the S form of an arithmetic instruction. */
  function ArithmeticFlags(op: Op, f: Nzcv, a: Word, b: Word, r: Word): Nzcv
    requires !IsLogical(op)
  {
    match op
    case ADD => AddFlags(a, b, r)
    case ADC => AddFlags(a, b, r)
    case CMN => AddFlags(a, b, r)
    case SUB => SubFlags(f, a, b, r)
    case SBC => SubFlags(f, a, b, r)
    case CMP => SubFlags(NegZero(f, r), a, b, r)
    case RSB => SubFlags(f, b, a, r)
    case RSC => SubFlags(f, b, a, r)
  }

  function LogicalDone(c: Core, instr: Bits, op: Op, s: bool): Core
    requires IsLogical(op)
  {
    var (d, rhs) := Operand(c, instr, s);
    var r := Word(Logic(op, Lhs(d, instr).bits, rhs.bits));
    if IsTest(op) then WithFlags(d, NegZero(FlagsOf(d), r))
    else if s then SDestWritten(d, instr, r)
    else DestWritten(d, instr, r)
  }

  /** With S the left operand is read before the right one, without S after it. */
  function ArithmeticDone(c: Core, instr: Bits, op: Op, s: bool): Core
    requires !IsLogical(op)
  {
    var (d, rhs) := Operand(c, instr, false);
    var lhs := Lhs(if s then c else d, instr);
    var r := Arithmetic(op, lhs, rhs, d.c);
    if !s then DestWritten(d, instr, r)
    else
      var e := WithFlags(d, ArithmeticFlags(op, FlagsOf(d), lhs, rhs, r));
      if IsTest(op) then e else SDestWritten(e, instr, r)
  }

  /** TSTP, TEQP, CMPP and CMNP: the CPSR is restored from the SPSR. */
  function PsrRestored(c: Core): Core { SetCpsr(c, GetSpsr(c, c.mode)) }

  /** A data-processing instruction; the tests without S are PSR transfers and not among them. */
  function DataProcessed(c: Core, instr: Bits): Core
    requires IsTest(OpOf(instr)) ==> BitAt(instr, 20)
  {
    var op := OpOf(instr);
    var s := BitAt(instr, 20);
    if IsTest(op) && Rd(instr) == 15 then PsrRestored(c)
    else if IsLogical(op) then LogicalDone(c, instr, op, s)
    else ArithmeticDone(c, instr, op, s)
  }

  // ---------------------------------------------------------------------------------------------
  // PSR transfers

  /** MSR to the CPSR: the register form cannot set the T bit. */
  function MsrCpsr(c: Core, instr: Bits): Core
  {
    var (d, rhs) := Operand(c, instr, false);
    FixedCpsr(d, instr, if BitAt(instr, 25) then rhs else Masked(rhs, 0xFFFF_FFDF))
  }

  function MsrSpsr(c: Core, instr: Bits): Core
  {
    var (d, rhs) := Operand(c, instr, false);
    FixedSpsr(d, instr, rhs)
  }

  // ---------------------------------------------------------------------------------------------
  // The same as the emulator does it, on the machine

  method AdvancePc(state: ArmState)
    requires state.Valid()
    modifies state`NextInstr, state.Reg
    ensures state.Value() == IncPc(old(state.Value()))
  {
    hide Plus, Isize, Advanced;
    state.Reg[15] := Plus(state.Reg[15], Isize(state.TFlag));
    state.NextInstr := Advanced(state.NextInstr);
  }

  method InternalCycle(state: ArmState)
    requires state.Valid()
    modifies state`NextInstr, state`AbortSig, state.Reg
    ensures state.Value() == Cycled(old(state.Value()))
  {
    hide IncPc;
    AdvancePc(state);
    state.AbortSig := false;
  }

  /** GetDPRegRHS, with the test of the DPRegRHS macro. */
  method GetDPRegRHS(state: ArmState, instr: Bits) returns (rhs: Word)
    requires state.Valid()
    modifies state`NextInstr, state`AbortSig, state.Reg
    ensures (state.Value(), rhs) == RegOperand(old(state.Value()), instr)
  {
    hide Cycled, BitAt, Unshifted, KindOf, Rm, Rs, RegShiftValue, ImmShiftValue;
    if Unshifted(instr) {
      rhs := state.Reg[Rm(instr)];
    } else if BitAt(instr, 4) {
      InternalCycle(state);
      rhs := Word(RegShiftValue(KindOf(instr), state.Reg[Rm(instr)].bits, LowByte(state.Reg[Rs(instr)])));
    } else {
      rhs := Word(ImmShiftValue(KindOf(instr), state.Reg[Rm(instr)].bits, Shamt(instr), state.CFlag));
    }
  }

  /** GetDPSRegRHS, with the test of the DPSRegRHS macro. */
  method GetDPSRegRHS(state: ArmState, instr: Bits) returns (rhs: Word)
    requires state.Valid()
    modifies state`NextInstr, state`AbortSig, state`CFlag, state.Reg
    ensures (state.Value(), rhs) == RegOperandS(old(state.Value()), instr)
  {
    hide BitAt, Unshifted, Rm, Cycled, KindOf, Rs, RegShift, ImmShift, Shamt, LowByte;
    if Unshifted(instr) {
      rhs := state.Reg[Rm(instr)];
    } else if BitAt(instr, 4) {
      InternalCycle(state);
      rhs := TakeShifted(state, RegShift(KindOf(instr), state.Reg[Rm(instr)].bits, LowByte(state.Reg[Rs(instr)]), state.CFlag));
    } else {
      MacroFilter(instr);
      rhs := TakeShifted(state, ImmShift(KindOf(instr), state.Reg[Rm(instr)].bits, Shamt(instr), state.CFlag));
    }
  }

  method TakeShifted(state: ArmState, r: Shifted) returns (rhs: Word)
    requires state.Valid()
    modifies state`CFlag
    ensures state.Value() == WithCarry(old(state.Value()), r.carry) && rhs == Word(r.value)
  {
    state.CFlag := r.carry;
    rhs := Word(r.value);
  }

  /** The second operand of a data-processing instruction: DPImmRHS, DPSImmRHS, DPRegRHS or DPSRegRHS. */
  method GetOperand(state: ArmState, instr: Bits, carry: bool) returns (rhs: Word)
    requires state.Valid()
    modifies state`NextInstr, state`AbortSig, state`CFlag, state.Reg
    ensures (state.Value(), rhs) == Operand(old(state.Value()), instr, carry)
  {
    hide BitAt, Immediate, RegOperand, RegOperandS, Neg, Imm12;
    if BitAt(instr, 25) {
      var x := Immediate(Imm12(instr));
      if carry && Imm12(instr) > 255 {
        state.CFlag := Neg(x);
      }
      rhs := Word(x);
    } else if carry {
      rhs := GetDPSRegRHS(state, instr);
    } else {
      rhs := GetDPRegRHS(state, instr);
    }
  }

  method WriteR15(state: ArmState, src: Word)
    requires state.Valid()
    modifies state`NextInstr, state.Reg
    ensures state.Value() == R15Written(old(state.Value()), src)
  {
    hide Masked, Refilled, PcMask;
    state.Reg[15] := Masked(src, PcMask(state.TFlag));
    state.NextInstr := Refilled(state.NextInstr);
  }

  method WriteSR15(state: ArmState, src: Word)
    requires state.Valid()
    modifies state, state.Reg, state.RegBank
    ensures state.Value() == SR15Written(old(state.Value()), src)
  {
    hide SetCpsr, R15Written;
    if state.Bank > 0 {
      SetCPSR(state, state.Spsr[state.Bank]);
    }
    WriteR15(state, src);
  }

  method WriteR15Branch(state: ArmState, src: Word)
    requires state.Valid()
    modifies state, state.Reg
    ensures state.Value() == R15Branched(old(state.Value()), src)
  {
    hide Masked, Refilled, PcMask, Odd, GetCpsr;
    var t := Odd(src.bits);
    Branch(state, t, Masked(src, PcMask(t)));
    var cpsr := GetCPSR(state);
    state.Cpsr := cpsr;
    state.NextInstr := Refilled(state.NextInstr);
  }

  method Branch(state: ArmState, t: bool, pc: Word)
    requires state.Valid()
    modifies state`TFlag, state.Reg
    ensures state.Value() == old(state.Value()).(t := t, reg := old(state.Value()).reg[15 := pc])
  {
    state.TFlag := t;
    state.Reg[15] := pc;
  }

  method SetFlags(state: ArmState, f: Nzcv)
    requires state.Valid()
    modifies state`NFlag, state`ZFlag, state`CFlag, state`VFlag
    ensures state.Value() == WithFlags(old(state.Value()), f)
  {
    state.NFlag, state.ZFlag, state.CFlag, state.VFlag := f.n, f.z, f.c, f.v;
  }

  method GetFlags(state: ArmState) returns (f: Nzcv)
    requires state.Valid()
    ensures f == FlagsOf(state.Value())
  {
    f := Nzcv(state.NFlag, state.ZFlag, state.CFlag, state.VFlag);
  }

  method GetLhs(state: ArmState, instr: Bits) returns (w: Word)
    requires state.Valid()
    ensures w == Lhs(state.Value(), instr)
  {
    hide Masked, Rn;
    var n := Rn(instr);
    w := if n == 15 then Masked(state.Reg[15], 0xFFFF_FFFC) else state.Reg[n];
  }

  method WriteDest(state: ArmState, instr: Bits, r: Word)
    requires state.Valid()
    modifies state`NextInstr, state.Reg
    ensures state.Value() == DestWritten(old(state.Value()), instr, r)
  {
    hide R15Written, Rd;
    var d := Rd(instr);
    if d == 15 {
      WriteR15(state, r);
    } else {
      state.Reg[d] := r;
    }
  }

  method WriteSDest(state: ArmState, instr: Bits, r: Word)
    requires state.Valid()
    modifies state, state.Reg, state.RegBank
    ensures state.Value() == SDestWritten(old(state.Value()), instr, r)
  {
    hide SR15Written, Rd, NegZero;
    var d := Rd(instr);
    if d == 15 {
      WriteSR15(state, r);
    } else {
      state.Reg[d] := r;
      var f := GetFlags(state);
      SetFlags(state, NegZero(f, r));
    }
  }

  method ExecuteLogical(state: ArmState, instr: Bits, op: Op, s: bool)
    requires state.Valid() && IsLogical(op)
    modifies state, state.Reg, state.RegBank
    ensures state.Value() == LogicalDone(old(state.Value()), instr, op, s)
  {
    hide Operand, Logic, Lhs, SDestWritten, DestWritten, NegZero, IsTest, WithFlags;
    var rhs := GetOperand(state, instr, s);
    var lhs := GetLhs(state, instr);
    var r := Word(Logic(op, lhs.bits, rhs.bits));
    if IsTest(op) {
      var f := GetFlags(state);
      SetFlags(state, NegZero(f, r));
    } else if s {
      WriteSDest(state, instr, r);
    } else {
      WriteDest(state, instr, r);
    }
  }

  method ExecuteArithmetic(state: ArmState, instr: Bits, op: Op, s: bool)
    requires state.Valid() && !IsLogical(op)
    modifies state, state.Reg, state.RegBank
    ensures state.Value() == ArithmeticDone(old(state.Value()), instr, op, s)
  {
    hide Operand, Arithmetic, Lhs, SDestWritten, DestWritten, ArithmeticFlags, IsTest, WithFlags;
    var before := GetLhs(state, instr);
    var rhs := GetOperand(state, instr, false);
    var after := GetLhs(state, instr);
    var lhs := if s then before else after;
    var r := Arithmetic(op, lhs, rhs, state.CFlag);
    if !s {
      WriteDest(state, instr, r);
    } else {
      var f := GetFlags(state);
      SetFlags(state, ArithmeticFlags(op, f, lhs, rhs, r));
      if !IsTest(op) {
        WriteSDest(state, instr, r);
      }
    }
  }

  method RestorePsr(state: ArmState)
    requires state.Valid()
    modifies state, state.Reg, state.RegBank
    ensures state.Value() == PsrRestored(old(state.Value()))
  {
    hide SetCpsr, GetSpsr;
    var w := GetSPSR(state, state.Mode);
    SetCPSR(state, w);
  }

  /** Cases 0x00 to 0x3f of the main switch that are data-processing instructions. */
  method ExecuteDataProcessing(state: ArmState, instr: Bits)
    requires state.Valid() && (IsTest(OpOf(instr)) ==> BitAt(instr, 20))
    modifies state, state.Reg, state.RegBank
    ensures state.Value() == DataProcessed(old(state.Value()), instr)
  {
    hide OpOf, BitAt, IsTest, Rd, IsLogical, PsrRestored, LogicalDone, ArithmeticDone;
    var op, s := OpOf(instr), BitAt(instr, 20);
    if IsTest(op) && Rd(instr) == 15 {
      RestorePsr(state);
    } else if IsLogical(op) {
      ExecuteLogical(state, instr, op, s);
    } else {
      ExecuteArithmetic(state, instr, op, s);
    }
  }

  /** MSR with the CPSR as destination. */
  method ExecuteMsrCpsr(state: ArmState, instr: Bits)
    requires state.Valid()
    modifies state, state.Reg, state.RegBank
    ensures state.Value() == MsrCpsr(old(state.Value()), instr)
  {
    hide Operand, FixedCpsr, BitAt, Masked;
    var rhs := GetOperand(state, instr, false);
    FixCPSR(state, instr, if BitAt(instr, 25) then rhs else Masked(rhs, 0xFFFF_FFDF));
  }

  /** MSR with the SPSR as destination. */
  method ExecuteMsrSpsr(state: ArmState, instr: Bits)
    requires state.Valid()
    modifies state, state.Reg, state.Spsr
    ensures state.Value() == MsrSpsr(old(state.Value()), instr)
  {
    hide Operand, FixedSpsr;
    var rhs := GetOperand(state, instr, false);
    FixSPSR(state, instr, rhs);
  }
}
