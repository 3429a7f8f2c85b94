/** The loop of ARMul_Emulate32 with the instructions modelled here: which of them leave r15, T and NextInstr as the next fetch
    expects, and that the prefetching loop around these behaves like a machine without a pipeline. */
module Emulator {
  import opened Words
  import opened State
  import opened Support
  import opened Alu
  import opened DataPath
  import opened Exceptions
  import opened Block
  import opened Multiply
  import opened Single
  import opened Execute
  import opened Transfer
  import opened Tables
  import opened MainSwitch
  import opened BlockPipeline
  import opened ThumbBranch
  import T = Thumb
  import opened Pipeline

  /** The loop's local variables and the machine. */
  class Loop {
    const state: ArmState
    var pc: Word
    var decoded: Bits
    var loaded: Bits

    constructor (s: ArmState)
      ensures state == s
    {
      state := s;
      pc, decoded, loaded := Word(0), 0, 0;
    }

    ghost function Value(): Pipe
      requires state.Valid()
      reads this, state, state.Reg, state.RegBank, state.Spsr
    {
      Pipe(state.Value(), pc, decoded, loaded)
    }

    /** The switch on NextInstr. */
    method FetchNext() returns (instr: Bits)
      requires state.Valid()
      modifies this, state`NextInstr, state`AbortSig, state`Aborted, state.Reg
      ensures (Value(), instr) == Fetch(old(Value()), state.pins.bigend)
    {
      hide Instr, Isize, Ahead, Plus, Primed, Restarted, Advance;
      var t, big := state.TFlag, state.pins.bigend;
      if Primed(state.NextInstr) {
        pc := state.Reg[15];
        Restart();
        instr := Instr(state.Mem, big, pc, t);
        decoded := Instr(state.Mem, big, Plus(pc, Isize(t)), t);
      } else {
        AdvanceOne();
        pc := Plus(pc, Isize(t));
        instr := decoded;
        decoded := loaded;
      }
      loaded := Instr(state.Mem, big, Ahead(pc, t), t);
    }

    method Restart()
      requires state.Valid()
      modifies state`NextInstr, state`AbortSig, state`Aborted, state.Reg
      ensures state.Value() == Restarted(old(state.Value()))
    {
      hide Ahead;
      state.Reg[15] := Ahead(state.Reg[15], state.TFlag);
      state.AbortSig, state.Aborted := false, false;
      state.NextInstr := SEQ;
    }

    method AdvanceOne()
      requires state.Valid()
      modifies state`NextInstr, state`AbortSig, state.Reg
      ensures state.Value() == Advance(old(state.Value()))
    {
      hide Isize, Plus, PcIncremented;
      if !PcIncremented(state.NextInstr) {
        state.Reg[15] := Plus(state.Reg[15], Isize(state.TFlag));
      }
      state.AbortSig := false;
      state.NextInstr := SEQ;
    }

    /** The test of the condition, and the main switch. */
    method ExecuteArm(bitList: array<nat>, w: Bits)
      requires state.Valid() && !Is26Bit(state.Mode)
      requires bitList.Length == 256 && forall i :: 0 <= i < 256 ==> bitList[i] == 4 * Ones(i)
      modifies state, state.Reg, state.RegBank, state.Spsr
      ensures state.Value() == ArmActed(old(state.Value()), state.pins, w, pc)
    {
      hide Modelled, Dispatched, Entered, Holds, Ones, Is26Bit;
      var f := GetFlags(state);
      if Holds(w >> 28, f) {
        if Modelled(w) {
          Dispatch(state, bitList, w, pc);
        } else {
          Abort(state, Exception.Undefined);
        }
      }
    }

    /** An instruction in ARM or in Thumb state. */
    method Execute(bitList: array<nat>, instr: Bits)
      requires state.Valid() && !Is26Bit(state.Mode)
      requires bitList.Length == 256 && forall i :: 0 <= i < 256 ==> bitList[i] == 4 * Ones(i)
      modifies state, state.Reg, state.RegBank, state.Spsr
      ensures state.Value() == Emulated(old(state.Value()), state.pins, instr, pc)
    {
      hide ArmActed, T.Decode, Entered, Ones, Is26Bit;
      if state.TFlag {
        var valid, ainstr := T.ThumbDecode(state, pc, instr, false);
        if valid == T.TUndefined {
          Abort(state, Exception.Undefined);
        } else if valid == T.TDecoded {
          ExecuteArm(bitList, ainstr);
        }
      } else {
        ExecuteArm(bitList, instr);
      }
    }

    /** One iteration of the loop; `tick` is an interrupt or another exception that comes before the instruction, if any. */
    method Iterate(bitList: array<nat>, tick: Tick)
      requires state.Valid() && !Is26Bit(state.Mode)
      requires bitList.Length == 256 && forall i :: 0 <= i < 256 ==> bitList[i] == 4 * Ones(i)
      modifies this, state, state.Reg, state.RegBank, state.Spsr
      ensures Value() == Step(Emulation(state.pins), state.pins, old(Value()), tick).0
    {
      hide Fetch, Emulated, Entered, Ones, Is26Bit;
      var instr := FetchNext();
      match tick
      case Go => Execute(bitList, instr);
      case Take(e) => Abort(state, e);
    }
  }

  // ---------------------------------------------------------------------------------------------
  // Instructions that keep the pipeline's promise

  /** Before the destination is written: r15 untouched, or advanced with bit 1 of NextInstr set. */
  predicate Midway(c: Core, d: Core)
  {
    && !d.aborted && d.t == c.t
    && ((d.nextInstr == 0 && d.reg[15] == c.reg[15]) || (d.nextInstr == 2 && d.reg[15] == Plus(c.reg[15], Isize(c.t))))
  }

  lemma CycledMidway(c: Core)
    requires c.nextInstr == 0 && !c.aborted
    ensures Midway(c, c) && Midway(c, Cycled(c))
  {
    hide Plus, Isize;
  }

  lemma CarryMidway(c: Core, d: Core, carry: bool)
    requires Midway(c, d)
    ensures Midway(c, WithCarry(d, carry))
  {
    hide Plus, Isize;
  }

  lemma RegOperandMidway(c: Core, w: Bits)
    requires c.nextInstr == 0 && !c.aborted
    ensures Midway(c, RegOperand(c, w).0) && Midway(c, RegOperandS(c, w).0)
  {
    hide BitAt, Unshifted, ByRegister, ByConstant, ValueByRegister, ValueByConstant, Cycled, Midway, Rm, WithCarry;
    CycledMidway(c);
    var s := RegOperandS(c, w);
    if !Unshifted(w) {
      var d := if BitAt(w, 4) then Cycled(c) else c;
      var r := if BitAt(w, 4) then ByRegister(d, w) else ByConstant(c, w);
      CarryMidway(c, d, r.carry);
    }
  }

  lemma OperandMidway(c: Core, w: Bits, carry: bool)
    requires c.nextInstr == 0 && !c.aborted
    ensures Midway(c, Operand(c, w, carry).0)
  {
    hide BitAt, RegOperand, RegOperandS, Immediate, Imm12, Neg, Midway;
    CycledMidway(c);
    CarryMidway(c, c, Neg(Immediate(Imm12(w))));
    CarryIs(c, Neg(Immediate(Imm12(w))));
    RegOperandMidway(c, w);
  }

  lemma CarryIs(c: Core, carry: bool)
    ensures WithCarry(c, carry) == c.(c := carry)
  {}

  lemma FlagsMidway(c: Core, d: Core, f: Nzcv)
    requires Midway(c, d)
    ensures Midway(c, WithFlags(d, f))
  {
    hide Plus, Isize;
  }

  lemma MidwayProper(c: Core, d: Core)
    requires Midway(c, d)
    ensures Proper(c, d)
  {
    hide Plus, Isize;
  }

  lemma R15Proper(c: Core, d: Core, src: Word)
    requires !d.aborted
    ensures Proper(c, R15Written(d, src)) && Proper(c, R15Branched(d, src))
  {
    hide Masked, PcMask, GetCpsr, Plus, Isize, Odd;
  }

  lemma PutMidway(c: Core, d: Core, r: RegNo, w: Word)
    requires Midway(c, d) && r != 15
    ensures Midway(c, d.(reg := d.reg[r := w]))
  {
    hide Plus, Isize;
  }

  lemma DestProper(c: Core, d: Core, w: Bits, r: Word)
    requires Midway(c, d)
    ensures Proper(c, DestWritten(d, w, r))
  {
    hide R15Written, Rd, Midway, Proper;
    MidwayParts(c, d);
    R15Proper(c, d, r);
    if Rd(w) != 15 {
      PutMidway(c, d, Rd(w), r);
      MidwayProper(c, DestWritten(d, w, r));
    }
  }

  lemma MidwayParts(c: Core, d: Core)
    requires Midway(c, d)
    ensures !d.aborted
  {}

  lemma SR15Proper(c: Core, d: Core, src: Word)
    requires !d.aborted
    ensures Proper(c, SR15Written(d, src))
  {
    hide SetCpsr, R15Written, Proper;
    SetCpsrAborted(d, d.spsr[d.bankNo]);
    R15Proper(c, if d.bankNo > 0 then SetCpsr(d, d.spsr[d.bankNo]) else d, src);
  }

  lemma SDestProper(c: Core, d: Core, w: Bits, r: Word)
    requires Midway(c, d)
    ensures Proper(c, SDestWritten(d, w, r))
  {
    hide SR15Written, Rd, Midway, Proper, WithFlags, NegZero;
    MidwayParts(c, d);
    SR15Proper(c, d, r);
    if Rd(w) != 15 {
      PutMidway(c, d, Rd(w), r);
      FlagsMidway(c, d.(reg := d.reg[Rd(w) := r]), NegZero(FlagsOf(d), r));
      MidwayProper(c, SDestWritten(d, w, r));
    }
  }

  lemma DataProper(c: Core, w: Bits)
    requires c.nextInstr == 0 && !c.aborted && !RestoresPsr(w) && (IsTest(OpOf(w)) ==> BitAt(w, 20))
    ensures Proper(c, DataProcessed(c, w))
  {
    hide Operand, SDestWritten, DestWritten, Midway, Proper, WithFlags, NegZero, Arithmetic, ArithmeticFlags, Logic, Lhs, OpOf, Rd,
      BitAt, IsTest, IsLogical, PsrRestored;
    var op, s := OpOf(w), BitAt(w, 20);
    if IsLogical(op) {
      var (d, rhs) := Operand(c, w, s);
      OperandMidway(c, w, s);
      var r := Word(Logic(op, Lhs(d, w).bits, rhs.bits));
      FlagsMidway(c, d, NegZero(FlagsOf(d), r));
      MidwayProper(c, WithFlags(d, NegZero(FlagsOf(d), r)));
      SDestProper(c, d, w, r);
      DestProper(c, d, w, r);
    } else {
      var (d, rhs) := Operand(c, w, false);
      OperandMidway(c, w, false);
      var lhs := Lhs(if s then c else d, w);
      var r := Arithmetic(op, lhs, rhs, d.c);
      var e := WithFlags(d, ArithmeticFlags(op, FlagsOf(d), lhs, rhs, r));
      FlagsMidway(c, d, ArithmeticFlags(op, FlagsOf(d), lhs, rhs, r));
      MidwayProper(c, e);
      SDestProper(c, e, w, r);
      DestProper(c, d, w, r);
    }
  }

  lemma MultiplyProper(c: Core, w: Bits, accumulate: bool, s: bool)
    requires c.nextInstr == 0 && !c.aborted && (Rn(w) != 15 || Rm(w) != 15)
    ensures Proper(c, Multiplied(c, w, accumulate, s))
  {
    hide Rn, Rm, Rs, Rd, Times, Plus, NegZero, Isize;
  }

  lemma EnteredProperly(c: Core, d: Core, pins: Pins, e: Exception)
    ensures Proper(c, Entered(d, pins, e))
  {
    EnteredProper(d, pins, e);
    hide Entered, Plus, Isize, Primed;
  }

  lemma SignalMidway(c: Core)
    requires c.nextInstr == 0 && !c.aborted
    ensures Midway(c, c.(abortSig := false))
  {
    hide Plus, Isize;
  }

  lemma ReadMidway(c: Core, a: Word)
    requires c.nextInstr == 0 && !c.aborted && !ReadDone(c, a).aborted
    ensures Midway(c, ReadDone(c, a))
  {
    hide *;
    ReadIs(c, a);
    SignalMidway(c);
  }

  lemma LoadProper(c: Core, pins: Pins, w: Bits, a: Word, width: Width, signed: bool)
    requires c.nextInstr == 0 && !c.aborted
    ensures Proper(c, LoadDone(c, pins, w, a, width, signed))
  {
    hide ReadDone, Loadable, Entered, R15Branched, DestWritten, Rd, Midway, Proper, WordAt;
    var d := ReadDone(c, a);
    var r := Loadable(WordAt(c, a).bits, a, width, signed, pins.bigend);
    if d.aborted {
      EnteredProperly(c, d, pins, DataAbort);
    } else {
      ReadMidway(c, a);
      R15Proper(c, d, r);
      DestProper(c, d, w, r);
    }
  }

  lemma WriteIs(c: Core, a: Word, x: Word)
    ensures if WordNo(a) in c.mem then WriteDone(c, a, x) == c.(abortSig := false, mem := c.mem[WordNo(a) := x])
            else WriteDone(c, a, x).aborted
  {
    hide WordNo;
  }

  lemma BusProper(c: Core, m: Memory)
    requires c.nextInstr == 0 && !c.aborted
    ensures Proper(c, BusUsed(c).(abortSig := false, mem := m))
  {
    hide Plus, Isize;
  }

  lemma StoredProper(c: Core, a: Word, x: Word)
    requires c.nextInstr == 0 && !c.aborted
    ensures var d := WriteDone(BusUsed(c), a, x); !d.aborted ==> Proper(c, d)
  {
    hide *;
    WriteIs(BusUsed(c), a, x);
    if WordNo(a) in BusUsed(c).mem { BusProper(c, BusUsed(c).mem[WordNo(a) := x]); }
  }

  lemma StoreProper(c: Core, pins: Pins, w: Bits, a: Word, width: Width)
    requires c.nextInstr == 0 && !c.aborted
    ensures Proper(c, StoreDone(c, pins, w, a, width))
  {
    hide WriteDone, Storable, Entered, Rd, Proper, WordAt, BusUsed;
    var b := BusUsed(c);
    var x := Storable(WordAt(b, a).bits, a, b.reg[Rd(w)], width, pins.bigend);
    StoredProper(c, a, x);
    EnteredProperly(c, WriteDone(b, a, x), pins, DataAbort);
  }

  lemma BasePutProper(c: Core, d: Core, w: Bits, x: Word)
    requires Proper(c, d) && Rn(w) != 15
    ensures Proper(c, BasePut(d, w, x))
  {
    hide Plus, Isize, Rn;
  }

  lemma AccessedProper(c: Core, pins: Pins, w: Bits, a: Word, width: Width, signed: bool)
    requires c.nextInstr == 0 && !c.aborted
    ensures Proper(c, Accessed(c, pins, w, a, width, signed))
  {
    hide LoadDone, StoreDone, Proper, BitAt;
    if BitAt(w, 20) { LoadProper(c, pins, w, a, width, signed); } else { StoreProper(c, pins, w, a, width); }
  }

  lemma BaseDoneProper(c: Core, d: Core, pins: Pins, w: Bits, a: Word, x: Word)
    requires Proper(c, d) && (WritesBase(w) ==> Rn(w) != 15)
    ensures Proper(c, BaseDone(c, d, pins, w, a, x))
  {
    hide WritesBase, Succeeds, Proper, Rn, BitAt;
    if WritesBase(w) { BasePutProper(c, d, w, x); }
  }

  lemma WordProper(c: Core, pins: Pins, w: Bits)
    requires c.nextInstr == 0 && !c.aborted && (WritesBase(w) ==> Rn(w) != 15)
    ensures Proper(c, WordTransferred(c, pins, w))
  {
    hide Accessed, BaseDone, Proper, BitAt, Address, Lhs, WordOffset, WritesBase, IndexedFirst, Rn, WordWidth;
    var indexed := Address(Lhs(c, w), WordOffset(c, w), w);
    var a := if IndexedFirst(w) then indexed else Lhs(c, w);
    var d := Accessed(c, pins, w, a, WordWidth(w), false);
    AccessedProper(c, pins, w, a, WordWidth(w), false);
    BaseDoneProper(c, d, pins, w, a, indexed);
    BaseDoneProper(c, d, pins, w, a, Address(Lhs(c, w), WordOffset(d, w), w));
  }

  lemma HalfProper(c: Core, pins: Pins, w: Bits)
    requires c.nextInstr == 0 && !c.aborted && (WritesBase(w) ==> Rn(w) != 15)
    ensures Proper(c, HalfTransferred(c, pins, w))
  {
    hide Accessed, BaseDone, Proper, BitAt, Address, Lhs, HalfOffset, WritesBase, IndexedFirst, Rn, HalfWidth, HalfSigned;
    var indexed := Address(Lhs(c, w), HalfOffset(c, w), w);
    var a := if IndexedFirst(w) then indexed else Lhs(c, w);
    var d := Accessed(c, pins, w, a, HalfWidth(w), HalfSigned(w));
    AccessedProper(c, pins, w, a, HalfWidth(w), HalfSigned(w));
    BaseDoneProper(c, d, pins, w, a, indexed);
    BaseDoneProper(c, d, pins, w, a, Address(Lhs(c, w), HalfOffset(d, w), w));
  }

  lemma PutProper(c: Core, r: RegNo, w: Word)
    requires c.nextInstr == 0 && !c.aborted && r != 15
    ensures Proper(c, RegisterPut(c, r, w)) && !RegisterPut(c, r, w).aborted && Proper(c, c)
  {
    hide Plus, Isize;
  }

  // ---------------------------------------------------------------------------------------------
  // Writing the CPSR

  /** TSTP, TEQP, CMPP and CMNP, and MSR to the CPSR: the CPSR is written, and the pipeline is not refilled. */
  predicate RestoresPsr(w: Bits) { IsTest(OpOf(w)) && Rd(w) == 15 }

  predicate WritesPsr(w: Bits) { (IsPlainData(w) && RestoresPsr(w)) || (IsMsr(w) && !BitAt(w, 22)) }

  predicate IsPlainData(w: Bits) { IsData(w) && !IsMultiply(w) && !IsHalf(w) && !IsTransfer(w) }

  /** The word they write. */
  function PsrWritten(c: Core, w: Bits): Word
  {
    if IsMsr(w) then
      var (d, rhs) := Operand(c, w, false);
      var x := if BitAt(w, 25) then rhs else Masked(rhs, 0xFFFF_FFDF);
      SetPsr(GetCpsr(d), x, FieldMask(w, IsUser(d.mode)))
    else GetSpsr(c, c.mode)
  }

  /** The state they write it in: a shift by a register has advanced r15. */
  function PsrBase(c: Core, w: Bits): Core { if IsMsr(w) then Operand(c, w, false).0 else c }

  lemma PsrWriters(c: Core, pins: Pins, w: Bits, pc: Word)
    requires WritesPsr(w)
    ensures Dispatched(c, pins, w, pc) == SetCpsr(PsrBase(c, w), PsrWritten(c, w))
  {
    hide IsData, IsMultiply, IsHalf, IsTransfer, IsMsr, Operand, SetCpsr, GetSpsr, GetCpsr, FieldMask, Masked, SetPsr, BitAt, OpOf, Rd,
      IsLongMultiply, IsTest, IsLogical;
    WriterKind(w);
  }

  lemma WriterKind(w: Bits)
    requires WritesPsr(w)
    ensures IsPlainData(w) ==> Supported(w) && !IsMsr(w) && (IsTest(OpOf(w)) ==> BitAt(w, 20))
    ensures IsMsr(w) ==> !Supported(w) && !IsLongMultiply(w)
  {
    if IsMsr(w) { MsrIsTest(w); }
    hide OpOf, Rd, IsTest;
  }

  lemma MsrIsTest(w: Bits)
    requires IsMsr(w)
    ensures IsTest(OpOf(w)) && !BitAt(w, 20)
  {}

  lemma SwitchedMidway(c: Core, d: Core, mode: Word)
    requires Midway(c, d)
    ensures Midway(c, ModeSwitched(d, mode))
  {
    SwitchedUntouched(d, d.mode, mode);
    hide Switched, Plus, Isize;
  }

  /** Between 32-bit modes the only thing a write of the CPSR can change in the fetch state is T. */
  lemma AlteredProper(c: Core, d: Core, psr: Word, oldmode: Word)
    requires Midway(c, d) && !Is26Bit(d.mode) && !Is26Bit(oldmode)
    ensures Proper(c, R15Altered(FlagsFrom(d, psr), oldmode)) <==> BitAt(psr.bits, 5) == c.t
  {
    hide Plus, Isize, BitAt, PackedR15, Masked, Is26Bit;
  }

  lemma ModeSwitchedMode(c: Core, mode: Word)
    ensures ModeSwitched(c, mode).mode == mode
  {
    hide Switched;
  }

  lemma SetCpsrParts(c: Core, w: Word)
    ensures SetCpsr(c, w) == R15Altered(FlagsFrom(ModeSwitched(c.(cpsr := w), Masked(w, 0x1F)), w), c.mode)
  {
    hide ModeSwitched, FlagsFrom, R15Altered, Masked;
  }

  lemma PsrProper(c: Core, d: Core, w: Word)
    requires Midway(c, d) && !Is26Bit(d.mode) && !Is26Bit(Masked(w, 0x1F))
    ensures Proper(c, SetCpsr(d, w)) <==> BitAt(w.bits, 5) == c.t
  {
    hide *;
    var b, mode := d.(cpsr := w), Masked(w, 0x1F);
    CpsrMidway(c, d, w);
    SetCpsrParts(d, w);
    SwitchedMidway(c, b, mode);
    ModeSwitchedMode(b, mode);
    AlteredProper(c, ModeSwitched(b, mode), w, d.mode);
  }

  lemma CpsrMidway(c: Core, d: Core, w: Word)
    requires Midway(c, d)
    ensures Midway(c, d.(cpsr := w))
  {
    hide Plus, Isize;
  }

  /** Neither the present mode nor the one to be is a 26-bit mode, which would repack r15. */
  predicate NoRepacking(c: Core, w: Bits) { !Is26Bit(c.mode) && !Is26Bit(Masked(PsrWritten(c, w), 0x1F)) }

  lemma BaseMidway(c: Core, w: Bits)
    requires c.nextInstr == 0 && !c.aborted
    ensures Midway(c, PsrBase(c, w)) && PsrBase(c, w).mode == c.mode
  {
    hide IsMsr, Operand, Midway;
    CycledMidway(c);
    OperandMidway(c, w, false);
    OperandMode(c, w);
  }

  lemma OperandMode(c: Core, w: Bits)
    ensures Operand(c, w, false).0.mode == c.mode
  {
    hide BitAt, Unshifted, Plus, Isize, Advanced, ValueByRegister, ValueByConstant, Immediate, Imm12, Rm;
  }

  /** They keep the pipeline in step if and only if the T bit of the word they write is the T bit there is. */
  lemma PsrExactly(c: Core, pins: Pins, w: Bits, pc: Word)
    requires c.nextInstr == 0 && !c.aborted && WritesPsr(w) && NoRepacking(c, w)
    ensures Proper(c, Dispatched(c, pins, w, pc)) <==> BitAt(PsrWritten(c, w).bits, 5) == c.t
  {
    hide Dispatched, Proper, Midway, WritesPsr, PsrWritten, PsrBase, SetCpsr, Masked, BitAt, Is26Bit;
    PsrWriters(c, pins, w, pc);
    BaseMidway(c, w);
    PsrProper(c, PsrBase(c, w), PsrWritten(c, w));
  }

  // ---------------------------------------------------------------------------------------------
  // Thumb branches

  lemma JumpProper(c: Core, d: Core, target: Word)
    requires !d.aborted
    ensures Proper(c, T.Jump(d, target))
  {
    hide Plus, Isize;
  }

  lemma LinkIs(d: Core, pc: Word, t: Bits)
    ensures T.BranchLink(d, pc, t)
         == T.Jump(RegisterPut(d, 14, T.ThumbLink(Plus(pc, Word(2)))), Plus(R14(d), Word((t & 0x07FF) << 1)))
  {
    hide Plus, T.Jump, T.ThumbLink;
  }

  lemma LinkProper(c: Core, d: Core, pc: Word, t: Bits)
    requires !d.aborted
    ensures Proper(c, T.BranchLink(d, pc, t))
  {
    hide *;
    var link := T.ThumbLink(Plus(pc, Word(2)));
    LinkIs(d, pc, t);
    PutAborted(d, 14, link);
    JumpProper(c, RegisterPut(d, 14, link), Plus(R14(d), Word((t & 0x07FF) << 1)));
  }

  lemma Format19Is(c: Core, pc: Word, t: Bits, next: Bits)
    ensures var d := RegisterPut(c, 14, Plus(R15(c), Word(T.Offset19(t))));
            T.Format19(c, pc, t, next) == if T.IsSecondHalf(next) then T.BranchLink(d, Plus(pc, Word(2)), next) else d
  {
    hide Plus, T.BranchLink, T.Offset19, T.IsSecondHalf;
  }

  lemma Format19Proper(c: Core, pc: Word, t: Bits, next: Bits)
    requires c.nextInstr == 0 && !c.aborted
    ensures Proper(c, T.Format19(c, pc, t, next))
  {
    hide *;
    var link := Plus(R15(c), Word(T.Offset19(t)));
    PutProper(c, 14, link);
    Format19Is(c, pc, t, next);
    LinkProper(c, RegisterPut(c, 14, link), Plus(pc, Word(2)), next);
  }

  lemma Format16Is(c: Core, pc: Word, t: Bits)
    ensures T.Format16(c, pc, t) == c || T.Format16(c, pc, t) == T.Jump(c, Plus(Plus(pc, Word(4)), Word(T.Offset16(t))))
  {
    hide Plus, T.Jump, T.Offset16, Holds;
  }

  lemma Format16Proper(c: Core, pc: Word, t: Bits)
    requires c.nextInstr == 0 && !c.aborted
    ensures Proper(c, T.Format16(c, pc, t))
  {
    hide *;
    PutProper(c, 0, Word(0));
    Format16Is(c, pc, t);
    JumpProper(c, c, Plus(Plus(pc, Word(4)), Word(T.Offset16(t))));
  }

  lemma BranchedIs(c: Core, pins: Pins, pc: Word, pair: Bits, aborted: bool)
    requires T.Decode(c, pins, pc, pair, aborted).Branched?
    ensures var (t, next) := T.Halves(pair, pins.bigend);
            var d := T.Decode(c, pins, pc, pair, aborted).c;
            || d == T.Format16(c, pc, t) || d == T.Jump(c, Plus(Plus(pc, Word(4)), Word(T.Offset18(t))))
            || d == T.Format19(c, pc, t, next) || d == T.BranchLink(c, pc, t)
  {
    hide Plus, T.Jump, T.Offset18, T.Format16, T.Format19, T.BranchLink, BitAt, T.Halves, T.Format1, T.Format2, T.Format3,
      T.Format4, T.Format5, T.Format6, T.Format7, T.Format8, T.Format9, T.Format10, T.Format11, T.Format12, T.Format14, T.Format15,
      T.Format17;
  }

  lemma BranchProper(c: Core, pins: Pins, pc: Word, pair: Bits, aborted: bool)
    requires c.nextInstr == 0 && !c.aborted && T.Decode(c, pins, pc, pair, aborted).Branched?
    ensures Proper(c, T.Decode(c, pins, pc, pair, aborted).c)
  {
    hide *;
    var (t, next) := T.Halves(pair, pins.bigend);
    BranchedIs(c, pins, pc, pair, aborted);
    Format16Proper(c, pc, t);
    JumpProper(c, c, Plus(Plus(pc, Word(4)), Word(T.Offset18(t))));
    Format19Proper(c, pc, t, next);
    LinkProper(c, c, pc, t);
  }

  // ---------------------------------------------------------------------------------------------
  // Every modelled instruction

  /** r15 is not written without a refill. (The architecture does not say what the instructions excluded here do: those that
      would store a product, an exchanged word, a PSR or a written-back base in r15.) */
  predicate KeepsPc(w: Bits)
  {
    && (IsMultiply(w) ==> Rn(w) != 15 || Rm(w) != 15)
    && (IsLongMultiply(w) && BitAt(w, 21) ==> RdHi(w) != 15 && RdLo(w) != 15)
    && (IsHalf(w) || IsTransfer(w) ==> WritesBase(w) ==> Rn(w) != 15)
    && (IsSwap(w) || IsMrs(w) ==> Rd(w) != 15)
  }

  predicate KeepsT(c: Core, w: Bits) { NoRepacking(c, w) && (BitAt(PsrWritten(c, w).bits, 5) <==> c.t) }

  /** What the pipeline asks of an instruction. */
  predicate Orderly(c: Core, w: Bits) { KeepsPc(w) && (WritesPsr(w) ==> KeepsT(c, w)) }

  lemma Executes(c: Core, pins: Pins, w: Bits)
    requires Supported(w)
    ensures IsMultiply(w) ==> Executed(c, pins, w) == Multiplied(c, w, BitAt(w, 21), BitAt(w, 20))
    ensures !IsMultiply(w) && IsHalf(w) ==> Executed(c, pins, w) == HalfTransferred(c, pins, w)
    ensures !IsMultiply(w) && !IsHalf(w) && IsTransfer(w) ==> Executed(c, pins, w) == WordTransferred(c, pins, w)
    ensures !IsMultiply(w) && !IsHalf(w) && !IsTransfer(w)
        ==> IsPlainData(w) && (IsTest(OpOf(w)) ==> BitAt(w, 20)) && Executed(c, pins, w) == DataProcessed(c, w)
  {
    hide Multiplied, HalfTransferred, WordTransferred, DataProcessed, IsMultiply, IsHalf, IsTransfer, BitAt, OpOf, IsTest;
  }

  lemma ExecutedProper(c: Core, pins: Pins, w: Bits)
    requires c.nextInstr == 0 && !c.aborted && Supported(w) && KeepsPc(w) && !WritesPsr(w)
    ensures Proper(c, Executed(c, pins, w))
  {
    hide Multiplied, HalfTransferred, WordTransferred, DataProcessed, IsMultiply, IsHalf, IsTransfer, BitAt, OpOf, IsTest, Executed,
      Supported, IsData, RestoresPsr, Proper, Rn, Rm, WritesBase, IsMsr;
    Executes(c, pins, w);
    if IsMultiply(w) {
      MultiplyProper(c, w, BitAt(w, 21), BitAt(w, 20));
    } else if IsHalf(w) {
      HalfProper(c, pins, w);
    } else if IsTransfer(w) {
      WordProper(c, pins, w);
    } else {
      DataProper(c, w);
    }
  }

  lemma WithFlagsProper(c: Core, d: Core, f: Nzcv)
    requires Proper(c, d)
    ensures Proper(c, WithFlags(d, f))
  {
    hide Plus, Isize;
  }

  lemma PairProper(c: Core, d: Core, w: Bits, p: nat)
    requires Proper(c, d) && RdHi(w) != 15 && RdLo(w) != 15
    ensures Proper(c, PairWritten(d, w, p))
  {
    hide Plus, Isize, RdHi, RdLo, LowWord, HighWord;
  }

  lemma MultipliedProper(c: Core, w: Bits, signed: bool, s: bool)
    requires c.nextInstr == 0 && !c.aborted
    ensures Proper(c, LongMultiplied(c, w, signed, s))
  {
    hide PairWritten, WithFlags, Wide, Proper, RdHi, RdLo, Rs, Rm, LongFlags;
    PutProper(c, 0, Word(0));
    var p := if Legal(w) then Wide(c.reg[Rs(w)], c.reg[Rm(w)], signed) else 0;
    if Legal(w) { PairProper(c, c, w, p); }
    var d := if Legal(w) then PairWritten(c, w, p) else c;
    WithFlagsProper(c, d, LongFlags(FlagsOf(d), p));
  }

  lemma AccumulatedProper(c: Core, w: Bits, signed: bool, s: bool)
    requires c.nextInstr == 0 && !c.aborted && RdHi(w) != 15 && RdLo(w) != 15
    ensures Proper(c, LongAccumulated(c, w, signed, s))
  {
    hide LongMultiplied, PairWritten, PairOf, WithFlags, Proper, RdHi, RdLo, LongFlags;
    var d := LongMultiplied(c, w, signed, false);
    MultipliedProper(c, w, signed, false);
    var p := (PairOf(c, w) + PairOf(d, w)) % LONG;
    PairProper(c, d, w, p);
    WithFlagsProper(c, PairWritten(d, w, p), LongFlags(FlagsOf(PairWritten(d, w, p)), p));
  }

  lemma MsrSpsrProper(c: Core, w: Bits)
    requires c.nextInstr == 0 && !c.aborted
    ensures Proper(c, MsrSpsr(c, w))
  {
    hide Operand, Midway, Proper, FixedSpsr;
    var (d, rhs) := Operand(c, w, false);
    OperandMidway(c, w, false);
    MidwayProper(c, d);
    FixedProper(c, d, w, rhs);
  }

  lemma FixedProper(c: Core, d: Core, w: Bits, rhs: Word)
    requires Proper(c, d)
    ensures Proper(c, FixedSpsr(d, w, rhs))
  {
    hide Plus, Isize, SetPsr, FieldMask;
  }

  lemma ExchangedProper(c: Core, w: Bits, a: Word, width: Width, big: bool)
    requires c.nextInstr == 0 && !c.aborted && Rd(w) != 15 && !Exchanged(c, w, a, width, big).aborted
    ensures Proper(c, Exchanged(c, w, a, width, big))
  {
    hide Plus, Isize, Rd, Rm, Storable, Loadable, WordNo, SwapValue;
    if WordNo(a) in c.mem {} else {}
  }

  lemma SwappedProper(c: Core, pins: Pins, w: Bits)
    requires c.nextInstr == 0 && !c.aborted && Rd(w) != 15
    ensures Proper(c, Swapped(c, pins, w))
  {
    hide Exchanged, Entered, Proper, Rd, Lhs, WordWidth;
    var d := Exchanged(c, w, Lhs(c, w), WordWidth(w), pins.bigend);
    EnteredProperly(c, d, pins, DataAbort);
    if !d.aborted { ExchangedProper(c, w, Lhs(c, w), WordWidth(w), pins.bigend); }
  }

  lemma ArmBranchedProper(c: Core, w: Bits, pc: Word)
    requires !c.aborted
    ensures Proper(c, ArmBranched(c, w, pc))
  {
    hide *;
    var d := RegisterPut(c, 14, Plus(pc, Word(4)));
    PutAborted(c, 14, Plus(pc, Word(4)));
    ArmBranchedParts(c, w, pc);
    JumpProper(c, c, ArmTarget(pc, w));
    JumpProper(c, d, ArmTarget(pc, w));
  }

  lemma PutAborted(c: Core, r: RegNo, w: Word)
    ensures RegisterPut(c, r, w).aborted == c.aborted
  {}

  lemma OtherProper(c: Core, pins: Pins, w: Bits, pc: Word)
    requires c.nextInstr == 0 && !c.aborted && KeepsPc(w)
    ensures Proper(c, OtherDone(c, pins, w, pc))
  {
    hide Swapped, RegisterPut, PsrRead, R15Branched, ArmBranched, Entered, IsSwap, IsMrs, IsBx, IsArmBranch, IsSwi, Rd, Rm, Proper,
      IsMultiply, IsLongMultiply, IsHalf, IsTransfer, RdHi, RdLo, Rn, WritesBase;
    PutProper(c, 0, Word(0));
    if IsSwap(w) {
      SwappedProper(c, pins, w);
    } else if IsMrs(w) {
      PutProper(c, Rd(w), PsrRead(c, w));
    } else {
      R15Proper(c, c, c.reg[Rm(w)]);
      ArmBranchedProper(c, w, pc);
      EnteredProperly(c, c, pins, Exception.Swi);
    }
  }

  /** Every modelled instruction of which this can be asked leaves r15, T and NextInstr in step. */
  lemma DispatchedProper(c: Core, pins: Pins, w: Bits, pc: Word)
    requires c.nextInstr == 0 && !c.aborted && Orderly(c, w)
    ensures Proper(c, Dispatched(c, pins, w, pc))
  {
    hide Executed, LongMultiplied, LongAccumulated, MsrSpsr, MsrCpsr, Transferred, OtherDone, Supported, IsLongMultiply, IsMsr, IsBlock,
      Proper, KeepsPc, NoRepacking, PsrWritten, BitAt, WritesPsr;
    if WritesPsr(w) {
      PsrExactly(c, pins, w, pc);
    } else if Supported(w) {
      ExecutedProper(c, pins, w);
    } else {
      RestProper(c, pins, w, pc);
    }
  }

  lemma RestProper(c: Core, pins: Pins, w: Bits, pc: Word)
    requires c.nextInstr == 0 && !c.aborted && KeepsPc(w) && !WritesPsr(w) && !Supported(w)
    ensures Proper(c, Dispatched(c, pins, w, pc))
  {
    hide LongMultiplied, LongAccumulated, MsrSpsr, MsrCpsr, Transferred, OtherDone, Supported, IsLongMultiply, IsMsr, IsBlock, Proper,
      BitAt, IsMultiply, IsHalf, IsTransfer, RdHi, RdLo, Rn, WritesBase, IsSwap, IsMrs, Rd, IsPlainData, RestoresPsr;
    if IsLongMultiply(w) {
      MultipliedProper(c, w, BitAt(w, 22), BitAt(w, 20));
      if BitAt(w, 21) { AccumulatedProper(c, w, BitAt(w, 22), BitAt(w, 20)); }
    } else if IsMsr(w) {
      MsrSpsrProper(c, w);
    } else {
      TransferredProper(c, pins, w);
      OtherProper(c, pins, w, pc);
    }
  }

  // ---------------------------------------------------------------------------------------------
  // The emulator

  /** An ARM instruction: skipped unless its condition holds; what is not modelled counts as undefined. */
  function ArmActed(c: Core, pins: Pins, w: Bits, pc: Word): Core
  {
    if !Holds(w >> 28, FlagsOf(c)) then c
    else if Modelled(w) then Dispatched(c, pins, w, pc)
    else Entered(c, pins, Undefined)
  }

  /** An instruction in either state. */
  function Emulated(c: Core, pins: Pins, w: Bits, pc: Word): Core
  {
    if c.t then
      match T.Decode(c, pins, pc, w, false)
      case Undefined => Entered(c, pins, Undefined)
      case Branched(d) => d
      case Translated(x) => ArmActed(c, pins, x, pc)
    else ArmActed(c, pins, w, pc)
  }

  function Emulation(pins: Pins): Exec { (c: Core, w: Bits, pc: Word) => Emulated(c, pins, w, pc) }

  /** Orderly, of the ARM instruction that an instruction in either state stands for. */
  predicate EmulatedOrderly(c: Core, pins: Pins, w: Bits, pc: Word)
  {
    if c.t then
      match T.Decode(c, pins, pc, w, false)
      case Undefined => true
      case Branched(d) => true
      case Translated(x) => Orderly(c, x)
    else Orderly(c, w)
  }

  lemma ArmProper(c: Core, pins: Pins, w: Bits, pc: Word)
    requires c.nextInstr == 0 && !c.aborted && Orderly(c, w)
    ensures Proper(c, ArmActed(c, pins, w, pc))
  {
    hide Dispatched, Modelled, Orderly, Entered, Holds, Proper;
    PutProper(c, 0, Word(0));
    EnteredProperly(c, c, pins, Undefined);
    DispatchedProper(c, pins, w, pc);
  }

  lemma EmulatedProper(c: Core, pins: Pins, w: Bits, pc: Word)
    requires c.nextInstr == 0 && !c.aborted && EmulatedOrderly(c, pins, w, pc)
    ensures Proper(c, Emulated(c, pins, w, pc))
  {
    hide ArmActed, Entered, T.Decode, Proper, Orderly;
    if c.t {
      match T.Decode(c, pins, pc, w, false)
      case Undefined => EnteredProperly(c, c, pins, Undefined);
      case Branched(d) => BranchProper(c, pins, pc, w, false);
      case Translated(x) => ArmProper(c, pins, x, pc);
    } else {
      ArmProper(c, pins, w, pc);
    }
  }

  /** On the run without a pipeline, every instruction is orderly, and none stores into a slot that a pipeline would
      already have fetched. */
  predicate OrderlyRun(pins: Pins, q: Plain, ticks: seq<Tick>)
    decreases |ticks|
  {
    || ticks == []
    || ((ticks[0].Go? ==> EmulatedOrderly(During(q), pins, Instr(q.c.mem, pins.bigend, q.next, q.c.t), q.next))
        && NoHit(Emulation(pins), pins, q, ticks[0])
        && OrderlyRun(pins, PlainStep(Emulation(pins), pins, q, ticks[0]).0, ticks[1..]))
  }

  lemma OrderlyInStep(pins: Pins, q: Plain, tick: Tick)
    requires tick.Go? ==> EmulatedOrderly(During(q), pins, Instr(q.c.mem, pins.bigend, q.next, q.c.t), q.next)
    ensures InStep(Emulation(pins), pins, q, tick)
  {
    hide EmulatedOrderly, Ready, Instr, Proper, Emulated;
    ReadyIs(q.c, q.next);
    if tick.Go? { EmulatedProper(During(q), pins, Instr(q.c.mem, pins.bigend, q.next, q.c.t), q.next); }
  }

  lemma {:induction false} OrderlyDisciplined(pins: Pins, q: Plain, ticks: seq<Tick>)
    requires OrderlyRun(pins, q, ticks)
    ensures Disciplined(Emulation(pins), pins, q, ticks)
    decreases |ticks|
  {
    hide EmulatedOrderly, NoHit, InStep, PlainStep, Emulation, Instr, During;
    if ticks != [] {
      OrderlyInStep(pins, q, ticks[0]);
      OrderlyDisciplined(pins, PlainStep(Emulation(pins), pins, q, ticks[0]).0, ticks[1..]);
    }
  }

  /** The emulator cannot be told from a machine that fetches each instruction when it executes it: from an empty
      pipeline, on every orderly run, with exceptions taken anywhere, ARM and Thumb, the same instructions are executed
      at the same addresses, and the machines end in the same state. */
  lemma EmulationUnpipelined(c: Core, pc: Word, decoded: Bits, loaded: Bits, pins: Pins, ticks: seq<Tick>)
    requires Primed(c.nextInstr) && !c.aborted && OrderlyRun(pins, Plain(c, R15(c)), ticks)
    ensures var (p, xs) := Run(Emulation(pins), pins, Pipe(c, pc, decoded, loaded), ticks);
            var (q, ys) := PlainRun(Emulation(pins), pins, Plain(c, R15(c)), ticks);
            xs == ys && p.c == q.c && Related(p, q, pins.bigend)
  {
    hide Emulation, Run, PlainRun, OrderlyRun, Disciplined;
    OrderlyDisciplined(pins, Plain(c, R15(c)), ticks);
    PrimedRelated(c, pc, decoded, loaded, pins.bigend);
    RunsAgree(Emulation(pins), pins, Pipe(c, pc, decoded, loaded), Plain(c, R15(c)), ticks);
  }
}
