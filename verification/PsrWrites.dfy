/** Writing the CPSR without a refill: when TSTP, TEQP, CMPP, CMNP and MSR leave the pipeline in step, and a program on
    which the pipeline then executes an instruction that is not there. */
module PsrWrites {
  import opened Words
  import opened Fields
  import opened State
  import opened Support
  import opened Alu
  import B = Banks
  import opened DataPath
  import opened Exceptions
  import opened Block
  import opened MainSwitch
  import opened Pipeline
  import opened Emulator

  lemma ValidIs32(mode: Word)
    requires B.ValidMode(mode)
    ensures !Is26Bit(mode)
  {}

  lemma DataIsNoMsr(w: Bits)
    requires IsPlainData(w) && RestoresPsr(w)
    ensures WritesPsr(w) && !IsMsr(w)
  {
    if IsMsr(w) { MsrIsTest(w); }
    hide IsMsr, OpOf, Rd, IsTest;
  }

  lemma RestoredWord(c: Core, w: Bits)
    requires !IsMsr(w)
    ensures PsrWritten(c, w) == GetSpsr(c, c.mode)
  {
    hide IsMsr, GetSpsr;
  }

  /** TSTP, TEQP, CMPP and CMNP: the pipeline stays in step if and only if the T bit of the SPSR is the present one. */
  lemma TestsExactly(c: Core, pins: Pins, w: Bits, pc: Word)
    requires B.Consistent(c) && c.nextInstr == 0 && !c.aborted && IsPlainData(w) && RestoresPsr(w)
    requires B.ValidMode(Masked(GetSpsr(c, c.mode), 0x1F))
    ensures Proper(c, Dispatched(c, pins, w, pc)) <==> BitAt(GetSpsr(c, c.mode).bits, 5) == c.t
  {
    hide *;
    DataIsNoMsr(w);
    RestoredWord(c, w);
    ConsistentMode(c);
    ValidIs32(c.mode);
    ValidIs32(Masked(GetSpsr(c, c.mode), 0x1F));
    NoRepackingIs(c, w);
    PsrExactly(c, pins, w, pc);
  }

  lemma ConsistentMode(c: Core)
    ensures B.Consistent(c) ==> B.ValidMode(c.mode)
  {
    hide B.ValidMode, ModeToBank;
  }

  lemma NoRepackingIs(c: Core, w: Bits)
    ensures NoRepacking(c, w) <==> !Is26Bit(c.mode) && !Is26Bit(Masked(PsrWritten(c, w), 0x1F))
  {
    hide Is26Bit, PsrWritten, Masked;
  }

  lemma KeepsTBit(d: Word, s: Word, w: Bits, flags: bool)
    requires !BitAt(s.bits, 5)
    ensures !BitAt(d.bits, 5) ==> !BitAt(SetPsr(d, s, FieldMask(w, flags)).bits, 5)
  {}

  lemma CpsrTBit(c: Core)
    ensures BitAt(GetCpsr(c).bits, 5) <==> c.t || BitAt(c.mode.bits, 5)
  {
    PackT(c.n, c.z, c.c, c.v, c.s, c.i, c.f, c.mode.bits, c.t);
    hide Pack, BitAt;
  }

  lemma PackT(n: bool, z: bool, c: bool, v: bool, s: bool, i: bool, f: bool, mode: Bits, t: bool)
    ensures BitAt(Pack(n, z, c, v, s, i, f, mode, t), 5) <==> t || BitAt(mode, 5)
  {}

  lemma NoT(w: Word)
    ensures !BitAt(Masked(w, 0xFFFF_FFDF).bits, 5)
  {}

  lemma OperandFetch(c: Core, w: Bits)
    ensures Operand(c, w, false).0.mode == c.mode && Operand(c, w, false).0.t == c.t
  {
    hide BitAt, Unshifted, Plus, Isize, Advanced, ValueByRegister, ValueByConstant, Immediate, Imm12, Rm;
  }

  lemma MsrWord(c: Core, w: Bits)
    requires IsMsr(w) && !BitAt(w, 25)
    ensures var (d, rhs) := Operand(c, w, false);
            PsrWritten(c, w) == SetPsr(GetCpsr(d), Masked(rhs, 0xFFFF_FFDF), FieldMask(w, IsUser(d.mode)))
  {
    hide IsMsr, Operand, SetPsr, GetCpsr, Masked, FieldMask, BitAt;
  }

  lemma ModeBits(mode: Word)
    requires B.ValidMode(mode)
    ensures !BitAt(mode.bits, 5)
  {}

  /** MSR with a register, in ARM state, always leaves the pipeline in step: it cannot set T. */
  lemma MsrRegisterProper(c: Core, pins: Pins, w: Bits, pc: Word)
    requires B.Consistent(c) && !c.t && c.nextInstr == 0 && !c.aborted && IsMsr(w) && !BitAt(w, 22) && !BitAt(w, 25)
    requires B.ValidMode(Masked(PsrWritten(c, w), 0x1F))
    ensures Proper(c, Dispatched(c, pins, w, pc))
  {
    hide *;
    var (d, rhs) := Operand(c, w, false);
    ConsistentMode(c);
    ModeBits(c.mode);
    OperandFetch(c, w);
    CpsrTBit(d);
    NoT(rhs);
    MsrWord(c, w);
    KeepsTBit(GetCpsr(d), Masked(rhs, 0xFFFF_FFDF), w, IsUser(d.mode));
    ValidIs32(c.mode);
    ValidIs32(Masked(PsrWritten(c, w), 0x1F));
    NoRepackingIs(c, w);
    MsrToCpsr(w);
    PsrExactly(c, pins, w, pc);
  }

  lemma MsrToCpsr(w: Bits)
    ensures IsMsr(w) && !BitAt(w, 22) ==> WritesPsr(w)
  {
    hide IsMsr, BitAt;
  }

  // ---------------------------------------------------------------------------------------------
  // A program

  /** TEQP r0, r0 at address 0. */
  const TEQP: Bits := 0xE130_F000

  /** Supervisor mode after a reset, with an SPSR whose T bit is set. */
  function AfterReset(): Core
  {
    Core(ZEROS, [ZEROS, ZEROS, ZEROS, ZEROS, ZEROS, ZEROS, ZEROS],
         [NOUGHT, NOUGHT, NOUGHT, Word(0x33), NOUGHT, NOUGHT, NOUGHT], Word(0x13),
         false, false, false, false, false, true, true, false, SVCBANK, SVC32MODE, 4,
         map[0 := Word(TEQP), 1 := Word(0), 2 := Word(0)], false, false)
  }

  function Beginning(): Plain { Plain(AfterReset(), Word(0)) }

  lemma FirstNumbers()
    ensures Num(Word(0)) == 0 && Num(Word(2)) == 2 && Num(Word(4)) == 4 && Num(Word(6)) == 6
  {
    SmallWords();
    LowZero(32);
    assert Disjoint(4, 2) && Or(4, 2) == 6;
    NatOr(4, 2);
    hide Low;
  }

  lemma FirstWords()
    ensures WordNo(Word(0)) == 0 && WordNo(Word(2)) == 0 && WordNo(Word(4)) == 1 && WordNo(Word(6)) == 1
  {
    FirstNumbers();
    hide Num;
  }

  lemma SmallSum(a: Word, b: Word, s: Word)
    requires Num(s) == Num(a) + Num(b)
    ensures Plus(a, b) == s
  {
    hide Num, Plus;
    NumPlus(a, b);
    NumLimit(s);
    WordEqual(Plus(a, b), s);
  }

  lemma FirstSums()
    ensures Plus(Word(0), Word(4)) == Word(4) && Plus(Word(0), Word(2)) == Word(2) && Plus(Word(2), Word(4)) == Word(6)
  {
    hide *;
    FirstNumbers();
    SmallSum(Word(0), Word(4), Word(4));
    SmallSum(Word(0), Word(2), Word(2));
    SmallSum(Word(2), Word(4), Word(6));
  }

  lemma ProgramWords(big: bool)
    ensures var m := AfterReset().mem;
            && Instr(m, big, Word(0), false) == TEQP && Instr(m, big, Word(4), false) == 0
            && Instr(m, big, Word(2), true) == if big then 0xF000_0000 else 0xE130
  {
    FirstWords();
    FirstSums();
    hide WordNo, Plus;
  }

  lemma TeqpKind()
    ensures IsPlainData(TEQP) && RestoresPsr(TEQP) && Modelled(TEQP) && TEQP >> 28 == AL
  {
    assert Nibble(TEQP, 12) == 15;
    assert OpOf(TEQP) == TEQ;
    assert RegNumber(15) == 15 by { Fifteen(); }
    hide RegList, RegNumber;
  }

  lemma Fifteen()
    ensures RegNumber(15) == 15
  {
    assert IsOnes(15, 4);
    LowOnes(15, 4, 4);
    assert Pow2(4) == 16;
  }

  lemma StartIs()
    ensures var c := Ready(AfterReset(), Word(0));
            && B.Consistent(c) && c.nextInstr == 0 && !c.aborted && !c.t && c.mem == AfterReset().mem
            && GetSpsr(c, c.mode) == Word(0x33)
  {
    hide Ahead;
  }

  lemma SpsrOfStart()
    ensures B.ValidMode(Masked(Word(0x33), 0x1F)) && BitAt(0x33, 5)
  {}

  /** TEQP puts the machine into Thumb state, and does not ask for a refill. */
  lemma TeqpSetsT(pins: Pins)
    ensures var d := After(Emulation(pins), pins, Beginning(), Go);
            d.t && !Primed(d.nextInstr) && d.mem == AfterReset().mem
  {
    hide *;
    var c := Ready(AfterReset(), Word(0));
    StartIs();
    SpsrOfStart();
    ProgramWords(pins.bigend);
    TeqpKind();
    DataIsNoMsr(TEQP);
    PsrWriters(c, pins, TEQP, Word(0));
    RestoredWord(c, TEQP);
    PsrBaseIs(c, TEQP);
    SetCpsrEffect(c, Word(0x33));
    ThumbSet(SetCpsr(c, Word(0x33)), Word(0x33));
    RestKept(c, SetCpsr(c, Word(0x33)));
    FirstStep(pins);
  }

  lemma PsrBaseIs(c: Core, w: Bits)
    requires !IsMsr(w)
    ensures PsrBase(c, w) == c
  {
    hide IsMsr;
  }

  lemma ThumbSet(c: Core, w: Word)
    requires StatusOf(c) == Unpacked(w)
    ensures c.t == BitAt(w.bits, 5)
  {
    hide BitAt;
  }

  lemma RestKept(c: Core, d: Core)
    requires SameRest(c, d)
    ensures d.mem == c.mem && (c.nextInstr == 0 ==> !Primed(d.nextInstr))
  {}

  lemma FirstStep(pins: Pins)
    requires Instr(AfterReset().mem, pins.bigend, Word(0), false) == TEQP && Modelled(TEQP) && TEQP >> 28 == AL
    ensures After(Emulation(pins), pins, Beginning(), Go) == Dispatched(Ready(AfterReset(), Word(0)), pins, TEQP, Word(0))
  {
    StartIs();
    hide Instr, Dispatched, Ready, Modelled;
  }

  /** The next thing the pipeline executes, at address 2, is the word prefetched from address 4; in Thumb state there is
      another instruction at address 2. */
  lemma PipelineShows(pins: Pins, pc: Word, decoded: Bits, loaded: Bits)
    ensures Run(Emulation(pins), pins, Pipe(AfterReset(), pc, decoded, loaded), [Go, Go]).1
         != PlainRun(Emulation(pins), pins, Beginning(), [Go, Go]).1
  {
    hide *;
    var p, q := Pipe(AfterReset(), pc, decoded, loaded), Beginning();
    StartRelated(pc, decoded, loaded, pins.bigend);
    TeqpSetsT(pins);
    NextAgrees(Emulation(pins), pins, p, q, Go, Go);
    SlotIsBad(After(Emulation(pins), pins, q, Go), pins.bigend);
    TwoSteps(Emulation(pins), pins, p, q);
  }

  lemma StartRelated(pc: Word, decoded: Bits, loaded: Bits, big: bool)
    ensures Related(Pipe(AfterReset(), pc, decoded, loaded), Beginning(), big)
  {}

  lemma SlotIsBad(d: Core, big: bool)
    requires d.t && d.mem == AfterReset().mem
    ensures !SlotGood(Beginning(), d, big)
  {
    FirstSums();
    ProgramWords(big);
    hide Instr, Plus;
  }

  lemma TwoSteps(exec: Exec, pins: Pins, p: Pipe, q: Plain)
    requires Step(exec, pins, Step(exec, pins, p, Go).0, Go).1 != PlainStep(exec, pins, PlainStep(exec, pins, q, Go).0, Go).1
    ensures Run(exec, pins, p, [Go, Go]).1 != PlainRun(exec, pins, q, [Go, Go]).1
  {
    hide Step, PlainStep;
    var rest: seq<Tick> := [Go];
    assert [Go, Go][1..] == rest && rest[1..] == [];
    var (p1, x) := Step(exec, pins, p, Go);
    var (q1, y) := PlainStep(exec, pins, q, Go);
    assert Run(exec, pins, p1, rest).1 == [Step(exec, pins, p1, Go).1];
    assert PlainRun(exec, pins, q1, rest).1 == [PlainStep(exec, pins, q1, Go).1];
    assert Run(exec, pins, p, [Go, Go]).1[1] == Step(exec, pins, p1, Go).1;
    assert PlainRun(exec, pins, q, [Go, Go]).1[1] == PlainStep(exec, pins, q1, Go).1;
  }
}
