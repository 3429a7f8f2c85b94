/** User mode is confined (ARM DDI 0100, section A2.5): no instruction that writes the PSRs lets a program
    in User mode change its mode, its interrupt masks, or anything that belongs to another mode. */
module UserMode {
  import opened Words
  import opened State
  import opened Support
  import opened Alu
  import opened DataPath
  import opened Exceptions
  import opened Block
  import opened Transfer

  /** Instructions that write a PSR: MSR to the CPSR or an SPSR; data processing, with TSTP, TEQP, CMPP,
      CMNP and writes to r15 that restore the CPSR; and LDM^ with r15 in the list. */
  datatype Step = Msr(instr: Bits) | MsrSaved(instr: Bits) | Data(instr: Bits) | LoadPc(instr: Bits)

  predicate IsStep(s: Step)
  {
    match s
    case Msr(_) => true
    case MsrSaved(_) => true
    case Data(instr) => IsTest(OpOf(instr)) ==> BitAt(instr, 20)
    case LoadPc(instr) => IsLoad(instr) && Caret(instr) && BitAt(instr, 15) && RegList(instr) != []
  }

  function Executed(c: Core, pins: Pins, s: Step): Core
    requires IsStep(s)
  {
    match s
    case Msr(instr) => MsrCpsr(c, instr)
    case MsrSaved(instr) => MsrSpsr(c, instr)
    case Data(instr) => DataProcessed(c, instr)
    case LoadPc(instr) => Transferred(c, pins, instr)
  }

  predicate InUserMode(c: Core) { c.mode == USER32MODE && c.bankNo == USERBANK }

  /** From c to d, only the registers in use, the flags, the CPSR word and the fetch state change: not the
      mode, I, F, T, the banked registers, the SPSRs or the memory. */
  predicate Confined(c: Core, d: Core)
  {
    d == c.(reg := d.reg, n := d.n, z := d.z, c := d.c, v := d.v, s := d.s, cpsr := d.cpsr,
            nextInstr := d.nextInstr, abortSig := d.abortSig)
  }

  lemma ConfinedAgain(c: Core, d: Core, e: Core)
    requires Confined(c, d) && Confined(d, e)
    ensures Confined(c, e)
  {}

  // ---------------------------------------------------------------------------------------------
  // Writing the CPSR

  /** When neither the mode nor I, F and T differ, setting the CPSR sets the flags only. */
  lemma SetCpsrConfined(c: Core, w: Word)
    requires InUserMode(c)
    requires Masked(w, 0x1F) == c.mode && BitAt(w.bits, 7) == c.i && BitAt(w.bits, 6) == c.f && BitAt(w.bits, 5) == c.t
    ensures Confined(c, SetCpsr(c, w))
  {
    hide BitAt, Masked, Ecc, PackedR15;
    var d := c.(cpsr := w);
    assert ModeSwitched(d, c.mode) == d;
    assert !Is26Bit(c.mode);
  }

  lemma UserFields(instr: Bits)
    ensures FieldMask(instr, true) == 0 || FieldMask(instr, true) == 0xFF00_0000
  {}

  /** In User mode an MSR writes the flag byte only. */
  lemma FlagByteOnly(w: Word, rhs: Word, mask: Bits)
    requires mask == 0 || mask == 0xFF00_0000
    ensures var x := SetPsr(w, rhs, mask);
            && Masked(x, 0x1F) == Masked(w, 0x1F) && BitAt(x.bits, 7) == BitAt(w.bits, 7)
            && BitAt(x.bits, 6) == BitAt(w.bits, 6) && BitAt(x.bits, 5) == BitAt(w.bits, 5)
  {}

  lemma OwnStatus(c: Core)
    requires InUserMode(c)
    ensures var w := GetCpsr(c);
            Masked(w, 0x1F) == c.mode && BitAt(w.bits, 7) == c.i && BitAt(w.bits, 6) == c.f && BitAt(w.bits, 5) == c.t
    ensures IsUser(c.mode) && GetSpsr(c, c.mode) == GetCpsr(c)
  {
    PackedStatus(c);
    hide GetCpsr, BitAt;
  }

  lemma FixedCpsrConfined(c: Core, instr: Bits, rhs: Word)
    requires InUserMode(c)
    ensures Confined(c, FixedCpsr(c, instr, rhs))
  {
    OwnStatus(c);
    UserFields(instr);
    FlagByteOnly(GetCpsr(c), rhs, FieldMask(instr, true));
    hide GetCpsr, BitAt, Masked, FieldMask, SetCpsr, SetPsr, Confined, IsUser;
    SetCpsrConfined(c, SetPsr(GetCpsr(c), rhs, FieldMask(instr, true)));
  }

  lemma PsrRestoredConfined(c: Core)
    requires InUserMode(c)
    ensures Confined(c, PsrRestored(c))
  {
    OwnStatus(c);
    hide GetCpsr, BitAt, Masked, SetCpsr, Confined, GetSpsr;
    SetCpsrConfined(c, GetCpsr(c));
  }

  // ---------------------------------------------------------------------------------------------
  // The instructions

  lemma CycledConfined(c: Core)
    ensures Confined(c, Cycled(c))
  {
    hide Plus, Isize, Advanced;
  }

  lemma CarryConfined(c: Core, carry: bool)
    ensures Confined(c, WithCarry(c, carry))
  {}

  lemma RegOperandConfined(c: Core, instr: Bits)
    ensures Confined(c, RegOperand(c, instr).0) && Confined(c, RegOperandS(c, instr).0)
  {
    var carry := RegOperandS(c, instr).0.c;
    CycledConfined(c);
    CarryConfined(c, carry);
    CarryConfined(Cycled(c), carry);
    ConfinedAgain(c, Cycled(c), WithCarry(Cycled(c), carry));
    Itself(c);
    if !Unshifted(instr) { CarryIs(c, instr); }
    hide BitAt, Unshifted, ByRegister, ByConstant, ValueByRegister, ValueByConstant, Cycled, Confined, Rm, WithCarry;
  }

  lemma CarryIs(c: Core, instr: Bits)
    requires !Unshifted(instr)
    ensures var d := if BitAt(instr, 4) then Cycled(c) else c;
            RegOperandS(c, instr).0 == WithCarry(d, RegOperandS(c, instr).0.c)
  {
    hide BitAt, Unshifted, ByRegister, ByConstant, Cycled;
  }

  lemma OperandConfined(c: Core, instr: Bits, carry: bool)
    ensures Confined(c, Operand(c, instr, carry).0)
  {
    hide BitAt, RegOperand, RegOperandS, Immediate, Imm12, Neg;
    if !BitAt(instr, 25) {
      RegOperandConfined(c, instr);
    }
  }

  lemma R15WrittenConfined(c: Core, src: Word)
    ensures Confined(c, R15Written(c, src))
  {
    hide Masked, PcMask, Refilled;
  }

  lemma DestWrittenConfined(c: Core, instr: Bits, r: Word)
    ensures Confined(c, DestWritten(c, instr, r))
  {
    hide R15Written, Rd;
    R15WrittenConfined(c, r);
  }

  lemma SDestWrittenConfined(c: Core, instr: Bits, r: Word)
    requires InUserMode(c)
    ensures Confined(c, SDestWritten(c, instr, r))
  {
    hide R15Written, Rd, NegZero;
    R15WrittenConfined(c, r);
  }

  lemma FlagsConfined(c: Core, f: Nzcv)
    ensures Confined(c, WithFlags(c, f))
  {}

  lemma StillUser(c: Core, d: Core)
    requires InUserMode(c) && Confined(c, d)
    ensures InUserMode(d)
  {}

  lemma LogicalConfined(c: Core, instr: Bits, op: Op, s: bool)
    requires InUserMode(c) && IsLogical(op)
    ensures Confined(c, LogicalDone(c, instr, op, s))
  {
    hide Operand, InUserMode, Confined, SDestWritten, DestWritten, WithFlags, Logic, Lhs, IsTest;
    var (d, rhs) := Operand(c, instr, s);
    OperandConfined(c, instr, s);
    StillUser(c, d);
    var r := Word(Logic(op, Lhs(d, instr).bits, rhs.bits));
    FlagsConfined(d, NegZero(FlagsOf(d), r));
    SDestWrittenConfined(d, instr, r);
    DestWrittenConfined(d, instr, r);
    ConfinedAgain(c, d, LogicalDone(c, instr, op, s));
  }

  lemma ArithmeticConfined(c: Core, instr: Bits, op: Op, s: bool)
    requires InUserMode(c) && !IsLogical(op)
    ensures Confined(c, ArithmeticDone(c, instr, op, s))
  {
    hide Operand, InUserMode, Confined, SDestWritten, DestWritten, WithFlags, Arithmetic, ArithmeticFlags, Lhs, IsTest;
    var (d, rhs) := Operand(c, instr, false);
    OperandConfined(c, instr, false);
    StillUser(c, d);
    var lhs := Lhs(if s then c else d, instr);
    var r := Arithmetic(op, lhs, rhs, d.c);
    if s {
      var f := ArithmeticFlags(op, FlagsOf(d), lhs, rhs, r);
      var e := WithFlags(d, f);
      FlagsConfined(d, f);
      ConfinedAgain(c, d, e);
      StillUser(c, e);
      SDestWrittenConfined(e, instr, r);
      if !IsTest(op) { ConfinedAgain(c, e, SDestWritten(e, instr, r)); }
    } else {
      DestWrittenConfined(d, instr, r);
      ConfinedAgain(c, d, DestWritten(d, instr, r));
    }
  }

  lemma DataConfined(c: Core, instr: Bits)
    requires InUserMode(c) && IsStep(Data(instr))
    ensures Confined(c, DataProcessed(c, instr))
  {
    hide PsrRestored, LogicalDone, ArithmeticDone, Confined, InUserMode, OpOf, BitAt, Rd, IsTest, IsLogical;
    PsrRestoredConfined(c);
    if IsLogical(OpOf(instr)) {
      LogicalConfined(c, instr, OpOf(instr), BitAt(instr, 20));
    } else {
      ArithmeticConfined(c, instr, OpOf(instr), BitAt(instr, 20));
    }
  }

  lemma MsrConfined(c: Core, instr: Bits)
    requires InUserMode(c)
    ensures Confined(c, MsrCpsr(c, instr)) && Confined(c, MsrSpsr(c, instr))
  {
    hide Operand, InUserMode, Confined, FixedCpsr, BitAt, Masked;
    var (d, rhs) := Operand(c, instr, false);
    OperandConfined(c, instr, false);
    StillUser(c, d);
    FixedCpsrConfined(d, instr, if BitAt(instr, 25) then rhs else Masked(rhs, 0xFFFF_FFDF));
    ConfinedAgain(c, d, MsrCpsr(c, instr));
    NoSpsr(d, instr, rhs);
  }

  /** User mode has no SPSR to write. */
  lemma NoSpsr(c: Core, instr: Bits, rhs: Word)
    requires InUserMode(c)
    ensures FixedSpsr(c, instr, rhs) == c
  {}

  lemma LoadOneConfined(c: Core, r: RegNo, a: Word)
    requires !LoadOne(c, r, a).aborted
    ensures Confined(c, LoadOne(c, r, a)) && !c.aborted
  {
    LoadOneIs(c, r, a);
    hide *;
    LoadedConfined(c, r, WordAt(c, a));
  }

  lemma LoadOneIs(c: Core, r: RegNo, a: Word)
    requires !LoadOne(c, r, a).aborted
    ensures LoadOne(c, r, a) == Received(c, r, WordAt(c, a)) && !c.aborted
  {
    hide WordNo, WordAt;
    if WordNo(a) in c.mem {
      assert ReadDone(c, a) == c.(abortSig := false);
    }
  }

  lemma LoadedConfined(c: Core, r: RegNo, w: Word)
    ensures Confined(c, Received(c, r, w))
  {}

  lemma LoadAllConfined(c: Core, regs: seq<RegNo>, a: Word)
    requires !LoadAll(c, regs, a).aborted && !c.aborted
    ensures Confined(c, LoadAll(c, regs, a))
    decreases |regs|
  {
    hide LoadOne, Plus, Confined;
    if regs == [] {
      Itself(c);
    } else {
      var d := LoadOne(c, regs[0], a);
      LoadOneConfined(c, regs[0], a);
      LoadAllConfined(d, regs[1..], Plus(a, Word(4)));
      ConfinedAgain(c, d, LoadAll(d, regs[1..], Plus(a, Word(4))));
    }
  }

  /** The words that an LDM^ step loads are all mapped. */
  predicate NoAbort(c: Core, s: Step)
  {
    !c.aborted && (s.LoadPc? ==> !LoadAll(c, RegList(s.instr), Start(c.reg[Rn(s.instr)], s.instr)).aborted)
  }

  lemma LoadPcConfined(c: Core, pins: Pins, instr: Bits)
    requires InUserMode(c) && IsStep(LoadPc(instr)) && NoAbort(c, LoadPc(instr))
    ensures Confined(c, Transferred(c, pins, instr))
  {
    hide LoadAll, SLoadAll, RegList, Start, NewBase, Rn, BitAt, BaseReg, Masked, PcMask, Refilled, Entered, Loaded;
    var start := Start(c.reg[Rn(instr)], instr);
    SLoadAllIs(c, RegList(instr), start);
    LoadAllConfined(c, RegList(instr), start);
  }

  /** One step of a program in User mode. */
  lemma StepConfined(c: Core, pins: Pins, s: Step)
    requires InUserMode(c) && IsStep(s) && NoAbort(c, s)
    ensures Confined(c, Executed(c, pins, s))
  {
    hide MsrCpsr, MsrSpsr, DataProcessed, Transferred, Confined, InUserMode, NoAbort;
    match s
    case Msr(instr) => MsrConfined(c, instr);
    case MsrSaved(instr) => MsrConfined(c, instr);
    case Data(instr) => DataConfined(c, instr);
    case LoadPc(instr) => LoadPcConfined(c, pins, instr);
  }

  // ---------------------------------------------------------------------------------------------
  // Every run

  ghost predicate NoAborts(c: Core, pins: Pins, steps: seq<Step>)
    decreases |steps|
  {
    steps == [] || (IsStep(steps[0]) && NoAbort(c, steps[0]) && NoAborts(Executed(c, pins, steps[0]), pins, steps[1..]))
  }

  function Run(c: Core, pins: Pins, steps: seq<Step>): Core
    requires forall s <- steps :: IsStep(s)
    decreases |steps|
  {
    if steps == [] then c else Run(Executed(c, pins, steps[0]), pins, steps[1..])
  }

  /** However many PSR-writing instructions a program in User mode executes, without an exception, it
      stays in User mode with the same masks, and touches nothing of another mode. */
  lemma {:induction false} RunConfined(c: Core, pins: Pins, steps: seq<Step>)
    requires InUserMode(c) && (forall s <- steps :: IsStep(s)) && NoAborts(c, pins, steps)
    ensures Confined(c, Run(c, pins, steps)) && InUserMode(Run(c, pins, steps))
    decreases |steps|
  {
    hide Executed, IsStep, NoAbort, Confined, InUserMode;
    if steps == [] {
      Itself(c);
    } else {
      var d := Executed(c, pins, steps[0]);
      StepConfined(c, pins, steps[0]);
      StillUser(c, d);
      RunConfined(d, pins, steps[1..]);
      ConfinedAgain(c, d, Run(d, pins, steps[1..]));
    }
  }

  lemma Itself(c: Core)
    ensures Confined(c, c)
  {}
}
