/** Exception entry (ARMul_Abort in arch_arm/common/arminit.c, SETABORT in armemu.h) and return, for a
    32-bit program space. The theorem at the end: a handler of any nesting depth that returns in the
    documented way leaves the interrupted program undisturbed. */
module Exceptions {
  import opened Words
  import opened State
  import opened Support
  import opened Banks
  import opened Alu
  import opened DataPath

  datatype Exception = Reset | Undefined | Swi | PrefetchAbort | DataAbort | Irq | Fiq

  function Vector(e: Exception): Word
  {
    match e
    case Reset => Word(0)
    case Undefined => Word(4)
    case Swi => Word(8)
    case PrefetchAbort => Word(12)
    case DataAbort => Word(16)
    case Irq => Word(24)
    case Fiq => Word(28)
  }

  function EntryMode(e: Exception): Word
  {
    match e
    case Reset => SVC32MODE
    case Undefined => UNDEF32MODE
    case Swi => SVC32MODE
    case PrefetchAbort => ABORT32MODE
    case DataAbort => ABORT32MODE
    case Irq => IRQ32MODE
    case Fiq => FIQ32MODE
  }

  /** The interrupt masks SETABORT sets: INTBITS or IBIT. */
  function EntryMask(e: Exception): Bits { if e.Reset? || e.Fiq? then 0xC0 else 0x80 }

  /** temp - d of SETABORT: the link register, from r15 and the Thumb state at the entry. */
  function Link(e: Exception, r15: Word, t: bool): Word
  {
    match e
    case Reset => r15
    case Undefined => Minus(r15, Isize(t))
    case Swi => Minus(r15, Isize(t))
    case DataAbort => if t then Plus(r15, Word(4)) else r15
    case _ => if t then r15 else Minus(r15, Word(4))
  }

  /** The CPSR of the handler: (CPSR & ~(EMODE | TBIT)) | i | m. */
  function EntryCpsr(c: Core, e: Exception): Word
  {
    Word(EntryBits(GetCpsr(c).bits, c.mode.bits, EntryMask(e), EntryMode(e).bits))
  }

  function EntryBits(cpsr: Bits, mode: Bits, mask: Bits, entry: Bits): Bits
  {
    (cpsr & !(mode | 0x20)) | mask | entry
  }

  /** The end of SETABORT and of ARMul_Abort: the link register, the vector, and a new fetch. */
  function Vectored(c: Core, lr: Word, pc: Word): Core { Flush(c.(reg := c.reg[14 := lr][15 := pc])) }

  function VectorBase(pins: Pins): Word { Plus(if pins.highVectors then Word(0xFFFF_0000) else Word(0), pins.remap) }

  /** The first two lines of SETABORT: the SPSR of the exception's mode and the CPSR. */
  function PsrsChanged(c: Core, e: Exception): Core
  {
    hide *;
    SetCpsr(SpsrSet(c, EntryMode(e), GetCpsr(c)), EntryCpsr(c, e))
  }

  /** What ARMul_Abort does, from a 32-bit mode. */
  function Entered(c: Core, pins: Pins, e: Exception): Core
  {
    hide *;
    var b := c.(aborted := false);
    Vectored(PsrsChanged(b, e), Link(e, c.reg[15], c.t), Plus(Vector(e), VectorBase(pins)))
  }

  /** ARMul_Abort. */
  method Abort(state: ArmState, e: Exception)
    requires state.Valid() && !Is26Bit(state.Mode)
    modifies state, state.Reg, state.RegBank, state.Spsr
    ensures state.Value() == Entered(old(state.Value()), state.pins, e)
  {
    hide PsrsChanged, Vectored, Link, Plus, Vector, VectorBase, Entered;
    var t, temp := state.TFlag, state.Reg[15];
    state.Aborted := false;
    ChangePsrs(state, e);
    GoTo(state, Link(e, temp, t), Plus(Vector(e), VectorBase(state.pins)));
    EnteredParts(old(state.Value()), state.pins, e);
  }

  lemma EnteredParts(c: Core, pins: Pins, e: Exception)
    ensures Entered(c, pins, e)
         == Vectored(PsrsChanged(c.(aborted := false), e), Link(e, c.reg[15], c.t), Plus(Vector(e), VectorBase(pins)))
  {
    hide PsrsChanged, Vectored, Link, Plus, Vector, VectorBase;
  }

  method ChangePsrs(state: ArmState, e: Exception)
    requires state.Valid()
    modifies state, state.Reg, state.RegBank, state.Spsr
    ensures state.Value() == PsrsChanged(old(state.Value()), e)
  {
    hide GetCpsr, SpsrSet, SetCpsr, EntryMode, EntryMask, EntryBits;
    var mode := EntryMode(e);
    var cpsr := GetCPSR(state);
    var handler := Word(EntryBits(cpsr.bits, state.Mode.bits, EntryMask(e), mode.bits));
    SetSPSR(state, mode, cpsr);
    SetCPSR(state, handler);
  }

  method GoTo(state: ArmState, lr: Word, pc: Word)
    requires state.Valid()
    modifies state`NextInstr, state.Reg
    ensures state.Value() == Vectored(old(state.Value()), lr, pc)
  {
    hide Refilled;
    state.Reg[14] := lr;
    state.Reg[15] := pc;
    state.NextInstr := Refilled(state.NextInstr);
  }

  // ---------------------------------------------------------------------------------------------
  // The status register round trip

  /** The status a program sees: NZCV, the sticky overflow bit, the interrupt masks, T and the mode. */
  datatype Status = Status(flags: Nzcv, s: bool, i: bool, f: bool, t: bool, mode: Word)

  function StatusOf(c: Core): Status { Status(FlagsOf(c), c.s, c.i, c.f, c.t, c.mode) }

  function Unpacked(w: Word): Status
  {
    Status(Nzcv(BitAt(w.bits, 31), BitAt(w.bits, 30), BitAt(w.bits, 29), BitAt(w.bits, 28)), BitAt(w.bits, 27),
           BitAt(w.bits, 7), BitAt(w.bits, 6), BitAt(w.bits, 5), Masked(w, 0x1F))
  }

  lemma PackFlags(n: bool, z: bool, c: bool, v: bool, s: bool, i: bool, f: bool, mode: Bits, t: bool)
    requires mode < 32
    ensures var w := Pack(n, z, c, v, s, i, f, mode, t);
            BitAt(w, 31) == n && BitAt(w, 30) == z && BitAt(w, 29) == c && BitAt(w, 28) == v
  {}

  lemma PackMasks(n: bool, z: bool, c: bool, v: bool, s: bool, i: bool, f: bool, mode: Bits, t: bool)
    requires mode < 32
    ensures var w := Pack(n, z, c, v, s, i, f, mode, t);
            BitAt(w, 27) == s && BitAt(w, 7) == i && BitAt(w, 6) == f
  {}

  lemma PackMode(n: bool, z: bool, c: bool, v: bool, s: bool, i: bool, f: bool, mode: Bits, t: bool)
    requires mode < 32
    ensures var w := Pack(n, z, c, v, s, i, f, mode, t); BitAt(w, 5) == t && Masked(Word(w), 0x1F) == Word(mode)
  {}

  /** Unpacking the CPSR gives back the status it was packed from. */
  lemma PackedStatus(c: Core)
    requires c.mode.bits < 32
    ensures Unpacked(GetCpsr(c)) == StatusOf(c)
  {
    hide BitAt, Pack, Masked;
    PackFlags(c.n, c.z, c.c, c.v, c.s, c.i, c.f, c.mode.bits, c.t);
    PackMasks(c.n, c.z, c.c, c.v, c.s, c.i, c.f, c.mode.bits, c.t);
    PackMode(c.n, c.z, c.c, c.v, c.s, c.i, c.f, c.mode.bits, c.t);
  }

  lemma EntryHigh(w: Bits, mode: Bits, mask: Bits, entry: Bits)
    requires mode < 32 && entry < 32 && (mask == 0x80 || mask == 0xC0)
    ensures var x := EntryBits(w, mode, mask, entry);
            BitAt(x, 31) == BitAt(w, 31) && BitAt(x, 30) == BitAt(w, 30) && BitAt(x, 29) == BitAt(w, 29)
            && BitAt(x, 28) == BitAt(w, 28) && BitAt(x, 27) == BitAt(w, 27)
  {}

  lemma EntryLow(w: Bits, mode: Bits, mask: Bits, entry: Bits)
    requires Masked(Word(w), 0x1F) == Word(mode) && entry < 32 && (mask == 0x80 || mask == 0xC0)
    ensures var x := EntryBits(w, mode, mask, entry);
            BitAt(x, 7) && BitAt(x, 6) == (BitAt(w, 6) || mask == 0xC0) && !BitAt(x, 5)
            && Masked(Word(x), 0x1F) == Word(entry)
  {}

  lemma ModeBound(mode: Word)
    requires ValidMode(mode)
    ensures mode.bits < 32
  {}

  lemma StatusAlone(c: Core, d: Core, e: Exception)
    requires StatusOf(c) == StatusOf(d)
    ensures GetCpsr(c) == GetCpsr(d) && EntryCpsr(c, e) == EntryCpsr(d, e)
  {
    hide Pack, EntryBits, EntryMask, EntryMode;
  }

  lemma EntryConstants(e: Exception)
    ensures EntryMode(e).bits < 32 && (EntryMask(e) == 0x80 || EntryMask(e) == 0xC0)
    ensures EntryMask(e) == 0xC0 <==> e.Reset? || e.Fiq?
    ensures ValidMode(EntryMode(e))
  {}

  lemma EntryUnpacked(w: Word, mode: Word, mask: Bits, entry: Word)
    requires Masked(w, 0x1F) == mode && mode.bits < 32 && entry.bits < 32 && (mask == 0x80 || mask == 0xC0)
    ensures var x := Unpacked(Word(EntryBits(w.bits, mode.bits, mask, entry.bits)));
            var u := Unpacked(w);
            x == u.(i := true, f := u.f || mask == 0xC0, t := false, mode := entry)
  {
    hide BitAt, Masked, EntryBits;
    EntryHigh(w.bits, mode.bits, mask, entry.bits);
    EntryLow(w.bits, mode.bits, mask, entry.bits);
  }

  /** On entry the flags are kept, T is cleared, I (and for FIQ also F) is set, and the mode is the new one. */
  lemma EntryStatus(c: Core, e: Exception)
    requires c.mode.bits < 32
    ensures Unpacked(EntryCpsr(c, e))
         == StatusOf(c).(i := true, f := c.f || e.Reset? || e.Fiq?, t := false, mode := EntryMode(e))
  {
    PackedStatus(c);
    EntryConstants(e);
    hide GetCpsr, BitAt, Masked, EntryBits, EntryMode, EntryMask, ValidMode;
    EntryUnpacked(GetCpsr(c), c.mode, EntryMask(e), EntryMode(e));
  }

  // ---------------------------------------------------------------------------------------------
  // Setting the CPSR

  /** Everything but the registers and the status. */
  predicate SameRest(c: Core, d: Core)
  {
    c.spsr == d.spsr && c.mem == d.mem && c.nextInstr == d.nextInstr
  }

  lemma ModeSwitchedEffect(c: Core, mode: Word)
    requires Consistent(c) && ValidMode(mode)
    ensures var d := ModeSwitched(c, mode); Consistent(d) && d.mode == mode && SameRest(c, d)
  {
    StepKeepsConsistent(c, SwitchTo(mode));
    StepMode(c, SwitchTo(mode));
    hide *;
    StepIsSwitch(c, mode);
    SwitchRest(c, mode);
  }

  lemma SwitchRest(c: Core, mode: Word)
    ensures SameRest(c, ModeSwitched(c, mode))
  {
    hide Moved, ModeToBank;
    MovedRest(c.(bankNo := ModeToBank(mode)), ModeToBank(c.mode), ModeToBank(mode));
  }

  lemma MovedRest(c: Core, oldbank: BankNo, newbank: BankNo)
    ensures SameRest(c, Moved(c, oldbank, newbank))
  {
    hide Saved, Restored;
  }

  lemma ModeSwitchedRegister(c: Core, mode: Word, o: BankNo, r: RegNo)
    requires Consistent(c) && ValidMode(mode) && IsRegister(o, r)
    ensures Flat(ModeSwitched(c, mode), o, r) == Flat(c, o, r)
  {
    StepRegisters(c, SwitchTo(mode), o, r);
    hide *;
    StepIsSwitch(c, mode);
  }

  lemma StepIsSwitch(c: Core, mode: Word)
    ensures Step(c, SwitchTo(mode)) == ModeSwitched(c, mode)
  {}

  /** r15 is not repacked between two modes of a 32-bit program space. */
  lemma R15Unaltered(c: Core, oldmode: Word)
    requires ValidMode(c.mode) && ValidMode(oldmode)
    ensures R15Altered(c, oldmode) == c
  {
    hide PackedR15;
  }

  lemma SetCpsrEffect(c: Core, w: Word)
    requires Consistent(c) && ValidMode(Masked(w, 0x1F))
    ensures var d := SetCpsr(c, w); Consistent(d) && StatusOf(d) == Unpacked(w) && SameRest(c, d)
  {
    hide ModeSwitched, Masked, BitAt, ModeToBank, R15Altered, ValidMode;
    var b := c.(cpsr := w);
    ModeSwitchedEffect(b, Masked(w, 0x1F));
    R15Unaltered(FlagsFrom(ModeSwitched(b, Masked(w, 0x1F)), w), c.mode);
  }

  lemma SetCpsrRegister(c: Core, w: Word, o: BankNo, r: RegNo)
    requires Consistent(c) && ValidMode(Masked(w, 0x1F)) && IsRegister(o, r)
    ensures Flat(SetCpsr(c, w), o, r) == Flat(c, o, r)
  {
    hide ModeSwitched, Masked, BitAt, ModeToBank, R15Altered, ValidMode, Owner, IsRegister;
    var b := c.(cpsr := w);
    ModeSwitchedEffect(b, Masked(w, 0x1F));
    ModeSwitchedRegister(b, Masked(w, 0x1F), o, r);
    R15Unaltered(FlagsFrom(ModeSwitched(b, Masked(w, 0x1F)), w), c.mode);
  }

  // ---------------------------------------------------------------------------------------------
  // Entry

  lemma SpsrSetEffect(c: Core, e: Exception, w: Word)
    ensures SpsrSet(c, EntryMode(e), w) == c.(spsr := c.spsr[EntryBank(e) := w])
    ensures EntryBank(e) != USERBANK && EntryBank(e) != DUMMYBANK
  {}

  function EntryBank(e: Exception): BankNo { ModeToBank(EntryMode(e)) }

  /** The state before the handler's CPSR is set, and after it. */
  function Based(c: Core, e: Exception): Core { c.(aborted := false, spsr := c.spsr[EntryBank(e) := GetCpsr(c)]) }

  function Turned(c: Core, e: Exception): Core { SetCpsr(Based(c, e), EntryCpsr(c, e)) }

  lemma EnteredIs(c: Core, pins: Pins, e: Exception)
    ensures Entered(c, pins, e)
         == Vectored(Turned(c, e), Link(e, c.reg[15], c.t), Plus(Vector(e), VectorBase(pins)))
  {
    var b := c.(aborted := false);
    SpsrSetEffect(b, e, GetCpsr(c));
    StatusAlone(c, b, e);
    hide SpsrSet, SetCpsr, EntryCpsr, GetCpsr, Vector, EntryMode, Link, Plus, VectorBase;
  }

  lemma BasedKeeps(c: Core, e: Exception, o: BankNo, r: RegNo)
    ensures Consistent(Based(c, e)) <==> Consistent(c)
    ensures Flat(Based(c, e), o, r) == Flat(c, o, r)
  {
    hide GetCpsr, ValidMode, EntryBank;
  }

  lemma TurnedEffect(c: Core, e: Exception)
    requires Consistent(c)
    ensures var d := Turned(c, e);
            && Consistent(d) && d.bankNo == EntryBank(e) && d.spsr == c.spsr[EntryBank(e) := GetCpsr(c)] && d.mem == c.mem
            && StatusOf(d) == StatusOf(c).(i := true, f := c.f || e.Reset? || e.Fiq?, t := false, mode := EntryMode(e))
  {
    ModeBound(c.mode);
    EntryStatus(c, e);
    EntryConstants(e);
    BasedKeeps(c, e, 0, 0);
    hide SetCpsr, EntryCpsr, GetCpsr, ValidMode, EntryMode, EntryMask;
    SetCpsrEffect(Based(c, e), EntryCpsr(c, e));
  }

  lemma TurnedRegister(c: Core, e: Exception, o: BankNo, r: RegNo)
    requires Consistent(c) && IsRegister(o, r)
    ensures Flat(Turned(c, e), o, r) == Flat(c, o, r)
  {
    ModeBound(c.mode);
    EntryStatus(c, e);
    EntryConstants(e);
    BasedKeeps(c, e, o, r);
    hide SetCpsr, EntryCpsr, GetCpsr, ValidMode, EntryMode, EntryMask, Flat, IsRegister, Based;
    SetCpsrRegister(Based(c, e), EntryCpsr(c, e), o, r);
  }

  lemma VectoredEffect(c: Core, lr: Word, pc: Word)
    ensures var d := Vectored(c, lr, pc);
            && (Consistent(d) <==> Consistent(c)) && d.bankNo == c.bankNo && d.spsr == c.spsr && d.mem == c.mem
            && StatusOf(d) == StatusOf(c) && d.reg[15] == pc && d.reg[14] == lr
  {
    hide ModeToBank, ValidMode;
  }

  /** Entry sets r14 and the SPSR of the exception's bank and r15, and no other register. */
  lemma EntryEffect(c: Core, pins: Pins, e: Exception)
    requires Consistent(c)
    ensures var d := Entered(c, pins, e);
            && Consistent(d) && d.bankNo == EntryBank(e) && d.spsr == c.spsr[EntryBank(e) := GetCpsr(c)] && d.mem == c.mem
            && StatusOf(d) == StatusOf(c).(i := true, f := c.f || e.Reset? || e.Fiq?, t := false, mode := EntryMode(e))
            && d.reg[15] == Plus(Vector(e), VectorBase(pins)) && d.reg[14] == Link(e, c.reg[15], c.t)
  {
    EnteredIs(c, pins, e);
    TurnedEffect(c, e);
    hide *;
    VectoredEffect(Turned(c, e), Link(e, c.reg[15], c.t), Plus(Vector(e), VectorBase(pins)));
  }

  lemma VectoredRegister(c: Core, lr: Word, pc: Word, o: BankNo, r: RegNo)
    requires r != 15 && !(o == c.bankNo && r == 14)
    ensures Flat(Vectored(c, lr, pc), o, r) == Flat(c, o, r)
  {}

  lemma EntryRegister(c: Core, pins: Pins, e: Exception, o: BankNo, r: RegNo)
    requires Consistent(c) && IsRegister(o, r) && r != 15 && !(o == EntryBank(e) && r == 14)
    ensures Flat(Entered(c, pins, e), o, r) == Flat(c, o, r)
  {
    EnteredIs(c, pins, e);
    TurnedEffect(c, e);
    TurnedRegister(c, e, o, r);
    hide *;
    VectoredRegister(Turned(c, e), Link(e, c.reg[15], c.t), Plus(Vector(e), VectorBase(pins)), o, r);
  }

  // ---------------------------------------------------------------------------------------------
  // Return

  /** MOVS pc,lr, SUBS pc,lr,#4 and SUBS pc,lr,#8. */
  const MOVS_PC: Bits := 0xE1B0_F00E
  const SUBS_PC_4: Bits := 0xE25E_F004
  const SUBS_PC_8: Bits := 0xE25E_F008

  /** The documented return instruction. */
  function ReturnWord(e: Exception): Bits
  {
    if e.Swi? || e.Undefined? || e.Reset? then MOVS_PC else if e.DataAbort? then SUBS_PC_8 else SUBS_PC_4
  }

  function Target(e: Exception, lr: Word): Word
  {
    if e.Swi? || e.Undefined? || e.Reset? then lr else Minus(lr, if e.DataAbort? then Word(8) else Word(4))
  }

  lemma MovsFields()
    ensures var w := MOVS_PC; OpOf(w) == MOV && BitAt(w, 20) && !BitAt(w, 25) && Rd(w) == 15 && Rm(w) == 14 && Unshifted(w)
  {}

  lemma Subs4Fields()
    ensures var w := SUBS_PC_4; OpOf(w) == SUB && BitAt(w, 20) && BitAt(w, 25) && Rd(w) == 15 && Rn(w) == 14
    ensures Immediate(Imm12(SUBS_PC_4)) == 4
  {}

  lemma Subs8Fields()
    ensures var w := SUBS_PC_8; OpOf(w) == SUB && BitAt(w, 20) && BitAt(w, 25) && Rd(w) == 15 && Rn(w) == 14
    ensures Immediate(Imm12(SUBS_PC_8)) == 8
  {}

  lemma MovsExecuted(c: Core)
    requires c.bankNo > 0
    ensures DataProcessed(c, MOVS_PC) == R15Written(SetCpsr(c, c.spsr[c.bankNo]), c.reg[14])
  {
    MovsFields();
    hide SetCpsr, R15Written, BitAt, OpOf, Rd, Rm, Unshifted, Lhs, MOVS_PC;
  }

  lemma SubsExecuted(c: Core, w: Bits, k: Bits)
    requires c.bankNo > 0
    requires OpOf(w) == SUB && BitAt(w, 20) && BitAt(w, 25) && Rd(w) == 15 && Rn(w) == 14 && Immediate(Imm12(w)) == k
    ensures var r := Minus(c.reg[14], Word(k));
            var d := WithFlags(c, SubFlags(FlagsOf(c), c.reg[14], Word(k), r));
            DataProcessed(c, w) == R15Written(SetCpsr(d, c.spsr[c.bankNo]), r)
  {
    hide SetCpsr, R15Written, BitAt, OpOf, Rd, Rn, Immediate, Imm12, Minus, SubFlags;
  }

  lemma R15WrittenEffect(c: Core, src: Word, o: BankNo, r: RegNo)
    ensures var d := R15Written(c, src);
            && (Consistent(d) <==> Consistent(c)) && StatusOf(d) == StatusOf(c) && d.spsr == c.spsr && d.mem == c.mem
            && d.reg[15] == Masked(src, PcMask(c.t)) && (r != 15 ==> Flat(d, o, r) == Flat(c, o, r))
  {
    hide ModeToBank, ValidMode, Masked, PcMask;
  }

  lemma FlagsKeep(c: Core, f: Nzcv, o: BankNo, r: RegNo)
    ensures var d := WithFlags(c, f);
            && (Consistent(d) <==> Consistent(c)) && d.bankNo == c.bankNo && d.mode == c.mode && d.spsr == c.spsr
            && d.mem == c.mem && Flat(d, o, r) == Flat(c, o, r)
  {
    hide ModeToBank, ValidMode;
  }

  /** The status register, r15 and register (o, r) after a return with the status `w` to `pc`. */
  predicate Returned(c: Core, d: Core, pc: Word, w: Word, o: BankNo, r: RegNo)
  {
    && Consistent(d) && StatusOf(d) == Unpacked(w) && d.spsr == c.spsr && d.mem == c.mem
    && d.reg[15] == Masked(pc, PcMask(d.t))
    && (IsRegister(o, r) && r != 15 ==> Flat(d, o, r) == Flat(c, o, r))
  }

  lemma ReturnedBy(c: Core, f: Nzcv, pc: Word, w: Word, o: BankNo, r: RegNo)
    requires Consistent(c) && ValidMode(Masked(w, 0x1F))
    ensures Returned(c, R15Written(SetCpsr(WithFlags(c, f), w), pc), pc, w, o, r)
  {
    hide SetCpsr, R15Written, WithFlags, Flat, Masked, Consistent, ValidMode, IsRegister, Unpacked, PcMask;
    var d := WithFlags(c, f);
    FlagsKeep(c, f, o, r);
    SetCpsrEffect(d, w);
    if IsRegister(o, r) { SetCpsrRegister(d, w, o, r); }
    R15WrittenEffect(SetCpsr(d, w), pc, o, r);
    StatusT(SetCpsr(d, w), R15Written(SetCpsr(d, w), pc));
  }

  lemma StatusT(c: Core, d: Core)
    requires StatusOf(c) == StatusOf(d)
    ensures c.t == d.t && c.mode == d.mode
  {}

  lemma SameFlags(c: Core)
    ensures WithFlags(c, FlagsOf(c)) == c
  {}

  /** The documented return, from any state of the handler. */
  lemma ReturnEffect(c: Core, e: Exception, o: BankNo, r: RegNo)
    requires Consistent(c) && c.bankNo != USERBANK && ValidMode(Masked(c.spsr[c.bankNo], 0x1F))
    ensures Returned(c, DataProcessed(c, ReturnWord(e)), Target(e, c.reg[14]), c.spsr[c.bankNo], o, r)
  {
    hide DataProcessed, Returned, Masked, Consistent, ValidMode, Minus, R15Written, SetCpsr, WithFlags;
    var w := c.spsr[c.bankNo];
    if ReturnWord(e) == MOVS_PC {
      MovsExecuted(c);
      SameFlags(c);
      ReturnedBy(c, FlagsOf(c), c.reg[14], w, o, r);
    } else {
      var k := if e.DataAbort? then 8 else 4;
      Subs4Fields();
      Subs8Fields();
      SubsExecuted(c, ReturnWord(e), k);
      var x := Minus(c.reg[14], Word(k));
      ReturnedBy(c, SubFlags(FlagsOf(c), c.reg[14], Word(k), x), x, w, o, r);
    }
  }

  // ---------------------------------------------------------------------------------------------
  // The resume address

  /** r15 while the instruction at `pc` is executed. */
  function Ahead(pc: Word, t: bool): Word { Plus(pc, if t then Word(4) else Word(8)) }

  predicate IsAligned(pc: Word, t: bool) { Masked(pc, PcMask(t)) == pc }

  /** Where the interrupted program goes on (ARM DDI 0100, section A2.6): after a SWI or an undefined
      instruction at the next one, otherwise at the instruction that was not executed or failed. */
  function Resume(e: Exception, pc: Word, t: bool): Word
  {
    if e.Swi? || e.Undefined? then Plus(pc, Isize(t)) else pc
  }

  lemma SmallWords()
    ensures Num(Word(2)) == 2 && Num(Word(4)) == 4 && Num(Word(8)) == 8
  {
    assert OneAt(1) == 2 && OneAt(2) == 4 && OneAt(3) == 8;
    LowOneAt(1, 32);
    LowOneAt(2, 32);
    LowOneAt(3, 32);
    assert Pow2(1) == 2 && Pow2(2) == 4 && Pow2(3) == 8;
  }

  lemma WordEqual(a: Word, b: Word)
    requires Num(a) == Num(b)
    ensures a == b
  {
    NatInjective(a.bits, b.bits);
  }

  lemma LinkReturns(e: Exception, pc: Word, t: bool)
    requires !e.Reset?
    ensures Target(e, Link(e, Ahead(pc, t), t)) == Resume(e, pc, t)
  {
    hide Plus, Minus, Num;
    var n := if t then Word(4) else Word(8);
    var r15 := Plus(pc, n);
    var link := Link(e, r15, t);
    SmallWords();
    NumLimit(pc);
    NumPlus(pc, n);
    NumPlus(pc, Isize(t));
    NumMinus(r15, Isize(t));
    NumMinus(r15, Word(4));
    NumPlus(r15, Word(4));
    NumMinus(link, Word(4));
    NumMinus(link, Word(8));
    WordEqual(Target(e, link), Resume(e, pc, t));
  }

  /** An address is word-aligned (or even) exactly when its number is. */
  lemma AlignedNumber(pc: Word, t: bool)
    ensures IsAligned(pc, t) <==> Num(pc) % (if t then 2 else 4) == 0
  {
    EvenBits(pc);
    FourBits(pc);
    var q := LowTwo(pc);
    hide *;
    LastDigits(Num(pc), q, Odd(Half(pc.bits)), Odd(pc.bits));
  }

  lemma LastDigits(n: nat, q: nat, b1: bool, b0: bool)
    requires n == 4 * q + 2 * Bin(b1) + Bin(b0)
    ensures n % 2 == 0 <==> !b0
    ensures n % 4 == 0 <==> !b1 && !b0
  {
    assert n == 2 * (2 * q + Bin(b1)) + Bin(b0);
  }

  lemma EvenBits(w: Word)
    ensures !Odd(w.bits) ==> IsAligned(w, true)
    ensures IsAligned(w, true) ==> !Odd(w.bits)
  {}

  lemma FourBits(w: Word)
    ensures !Odd(w.bits) && !Odd(Half(w.bits)) ==> IsAligned(w, false)
    ensures IsAligned(w, false) ==> !Odd(w.bits) && !Odd(Half(w.bits))
  {}

  lemma LowTwo(w: Word) returns (q: nat)
    ensures Num(w) == 4 * q + 2 * Bin(Odd(Half(w.bits))) + Bin(Odd(w.bits))
  {
    LowSplit(w.bits, 2, 30);
    assert Pow2(2) == 4;
    assert Low(w.bits, 2) == 2 * Bin(Odd(Half(w.bits))) + Bin(Odd(w.bits));
    q := Low(HalfTimes(w.bits, 2), 30);
  }

  lemma ResumeAligned(e: Exception, pc: Word, t: bool)
    requires IsAligned(pc, t)
    ensures IsAligned(Resume(e, pc, t), t)
  {
    hide Num, Plus, IsAligned;
    AlignedNumber(pc, t);
    AlignedNumber(Plus(pc, Isize(t)), t);
    SmallWords();
    NumPlus(pc, Isize(t));
    NumLimit(pc);
    NextAligned(Num(pc), if t then 2 else 4);
  }

  lemma NextAligned(n: nat, d: nat)
    requires (d == 2 || d == 4) && n % d == 0 && n < LIMB
    ensures (if n + d < LIMB then n + d else n + d - LIMB) % d == 0
  {}

  // ---------------------------------------------------------------------------------------------
  // Handlers

  /** What a handler may do: set the flags and interrupt masks, change between ARM and Thumb state, write
      a register, or be interrupted at the instruction at `pc` by an exception with a handler of its own. */
  datatype Action =
    | SetStatus(flags: Nzcv, i: bool, f: bool)
    | SetState(t: bool)
    | SetRegister(r: RegNo, w: Word)
    | Nested(e: Exception, pc: Word, body: seq<Action>)

  function At(c: Core, pc: Word): Core
  {
    hide *;
    c.(reg := c.reg[15 := Ahead(pc, c.t)])
  }

  function Simple(c: Core, a: Action): Core
    requires !a.Nested?
  {
    match a
    case SetStatus(flags, i, f) => WithFlags(c, flags).(i := i, f := f)
    case SetState(t) => c.(t := t)
    case SetRegister(r, w) => c.(reg := c.reg[r := w])
  }

  function Act(c: Core, pins: Pins, body: seq<Action>): Core
    decreases body, 0
  {
    if body == [] then c
    else if body[0].Nested? then
      Act(Handled(At(c, body[0].pc), pins, body[0].e, body[0].body), pins, body[1..])
    else Act(Simple(c, body[0]), pins, body[1..])
  }

  /** The exception, its handler, and the return. */
  function Handled(c: Core, pins: Pins, e: Exception, body: seq<Action>): Core
    decreases body, 1
  {
    ReturnIsNoTest(e);
    hide *;
    DataProcessed(Act(Entered(c, pins, e), pins, body), ReturnWord(e))
  }

  lemma ReturnIsNoTest(e: Exception)
    ensures !IsTest(OpOf(ReturnWord(e)))
  {
    MovsFields();
    Subs4Fields();
    Subs8Fields();
  }

  /** A handler in bank b, with T as given, writes only its own banked registers and not its link
      register, is interrupted only by exceptions of banks that are not `active`, and returns from ARM
      state. */
  predicate WellNested(body: seq<Action>, active: set<BankNo>, b: BankNo, t: bool)
    decreases body
  {
    if body == [] then !t
    else
      match body[0]
      case SetStatus(_, _, _) => WellNested(body[1..], active, b, t)
      case SetState(u) => WellNested(body[1..], active, b, u)
      case SetRegister(r, _) => r < 14 && Owner(b, r) == b && WellNested(body[1..], active, b, t)
      case Nested(e, pc, inner) =>
        && !e.Reset? && EntryBank(e) !in active && IsAligned(pc, t)
        && WellNested(inner, active + {EntryBank(e)}, EntryBank(e), false)
        && WellNested(body[1..], active, b, t)
  }

  /** What a handler in the state c keeps of the programs it interrupts, for register (o, r): the mode,
      the SPSRs of the active banks, and every active bank's registers except those that the handler may
      write. */
  predicate Keeps(c: Core, d: Core, active: set<BankNo>, o: BankNo, r: RegNo)
  {
    && Consistent(d) && d.mode == c.mode && d.bankNo == c.bankNo && d.mem == c.mem
    && (forall b <- active :: d.spsr[b] == c.spsr[b])
    && (Watched(active, c.bankNo, o, r) ==> Flat(d, o, r) == Flat(c, o, r))
  }

  predicate Watched(active: set<BankNo>, b: BankNo, o: BankNo, r: RegNo)
  {
    IsRegister(o, r) && r != 15 && (o in active || o == USERBANK) && (o != b || r == 14)
  }

  lemma SimpleKeeps(c: Core, a: Action, active: set<BankNo>, o: BankNo, r: RegNo)
    requires Consistent(c) && !a.Nested?
    requires a.SetRegister? ==> a.r < 14 && Owner(c.bankNo, a.r) == c.bankNo
    ensures Keeps(c, Simple(c, a), active, o, r)
    ensures Simple(c, a).t == if a.SetState? then a.t else c.t
  {
    hide ModeToBank, ValidMode;
  }

  lemma KeepsAgain(c: Core, d: Core, e: Core, active: set<BankNo>, o: BankNo, r: RegNo)
    requires Keeps(c, d, active, o, r) && Keeps(d, e, active, o, r)
    ensures Keeps(c, e, active, o, r)
  {}

  lemma AtKeeps(c: Core, pc: Word, o: BankNo, r: RegNo)
    ensures var d := At(c, pc);
            && (Consistent(d) <==> Consistent(c)) && StatusOf(d) == StatusOf(c) && d.bankNo == c.bankNo
            && d.spsr == c.spsr && d.mem == c.mem && d.reg[15] == Ahead(pc, c.t)
            && (r != 15 ==> Flat(d, o, r) == Flat(c, o, r))
  {
    hide ModeToBank, ValidMode, Ahead;
  }

  /** Whatever a well-nested handler does, it keeps its link register, its SPSR, and all that belongs to
      the programs below it. */
  lemma {:induction false} HandlerKeeps(c: Core, pins: Pins, body: seq<Action>, active: set<BankNo>, o: BankNo, r: RegNo)
    requires Consistent(c) && c.bankNo != USERBANK && WellNested(body, active, c.bankNo, c.t) && c.bankNo in active
    ensures var d := Act(c, pins, body); Keeps(c, d, active, o, r) && !d.t
    decreases body, 0
  {
    hide Keeps, Consistent, Owner, EntryBank, Handled, Simple, At, Watched, IsAligned;
    if body == [] {
      KeepsItself(c, active, o, r);
    } else {
      var d := if body[0].Nested? then Handled(At(c, body[0].pc), pins, body[0].e, body[0].body) else Simple(c, body[0]);
      if body[0].Nested? {
        NestedKeeps(c, pins, body[0].e, body[0].pc, body[0].body, active, o, r);
      } else {
        SimpleKeeps(c, body[0], active, o, r);
      }
      KeepsBank(c, d, active, o, r);
      HandlerKeeps(d, pins, body[1..], active, o, r);
      KeepsAgain(c, d, Act(d, pins, body[1..]), active, o, r);
    }
  }

  lemma KeepsItself(c: Core, active: set<BankNo>, o: BankNo, r: RegNo)
    requires Consistent(c)
    ensures Keeps(c, c, active, o, r)
  {}

  lemma KeepsBank(c: Core, d: Core, active: set<BankNo>, o: BankNo, r: RegNo)
    requires Keeps(c, d, active, o, r)
    ensures Consistent(d) && d.bankNo == c.bankNo
  {}

  lemma NestedKeeps(c: Core, pins: Pins, e: Exception, pc: Word, body: seq<Action>, active: set<BankNo>, o: BankNo, r: RegNo)
    requires Consistent(c) && c.bankNo in active && !e.Reset? && EntryBank(e) !in active && IsAligned(pc, c.t)
    requires WellNested(body, active + {EntryBank(e)}, EntryBank(e), false)
    ensures var d := Handled(At(c, pc), pins, e, body); Keeps(c, d, active, o, r) && d.t == c.t
    decreases body, 2
  {
    hide Flat, Owner, ValidMode, ModeToBank, EntryBank, IsAligned, Ahead, At, WellNested, Unwound, Keeps, Consistent, Handled, Resume;
    var a := At(c, pc);
    AtKeeps(c, pc, o, r);
    StatusT(c, a);
    Unwinds(a, pins, e, pc, body, active, o, r);
    UnwoundKeeps(c, a, Handled(a, pins, e, body), Resume(e, pc, c.t), active, o, r);
  }

  /** What the interrupted program in the state c finds when the handler has returned. */
  predicate Unwound(c: Core, d: Core, resume: Word, active: set<BankNo>, o: BankNo, r: RegNo)
  {
    && Consistent(d) && StatusOf(d) == StatusOf(c) && d.mem == c.mem && d.reg[15] == resume
    && (forall b <- active :: d.spsr[b] == c.spsr[b])
    && (IsRegister(o, r) && r != 15 && (o in active || o == USERBANK) ==> Flat(d, o, r) == Flat(c, o, r))
  }

  lemma UnwoundKeeps(c: Core, a: Core, d: Core, resume: Word, active: set<BankNo>, o: BankNo, r: RegNo)
    requires Consistent(c) && StatusOf(a) == StatusOf(c) && a.spsr == c.spsr && a.mem == c.mem
    requires r != 15 ==> Flat(a, o, r) == Flat(c, o, r)
    requires Unwound(a, d, resume, active, o, r)
    ensures Keeps(c, d, active, o, r) && d.t == c.t
  {
    hide Flat, IsRegister, ModeToBank, ValidMode;
    StatusT(c, a);
    StatusT(a, d);
  }

  predicate Interrupted(c: Core, x: Core, e: Exception, link: Word, o: BankNo, r: RegNo)
  {
    && Consistent(x) && x.bankNo == EntryBank(e) && x.spsr == c.spsr[EntryBank(e) := GetCpsr(c)] && x.mem == c.mem
    && !x.t && x.reg[14] == link
    && (IsRegister(o, r) && r != 15 && !(o == EntryBank(e) && r == 14) ==> Flat(x, o, r) == Flat(c, o, r))
  }

  lemma EntryInterrupts(c: Core, pins: Pins, e: Exception, o: BankNo, r: RegNo)
    requires Consistent(c)
    ensures Interrupted(c, Entered(c, pins, e), e, Link(e, c.reg[15], c.t), o, r)
  {
    hide Flat, ModeToBank, ValidMode, EntryBank, GetCpsr, Entered, Link, IsRegister, Consistent, EntryMode;
    EntryEffect(c, pins, e);
    if IsRegister(o, r) && r != 15 && !(o == EntryBank(e) && r == 14) { EntryRegister(c, pins, e, o, r); }
  }

  lemma Combine(c: Core, x: Core, y: Core, d: Core, e: Exception, resume: Word, active: set<BankNo>, o: BankNo, r: RegNo)
    requires Interrupted(c, x, e, y.reg[14], o, r) && EntryBank(e) !in active && EntryBank(e) != USERBANK && c.mode.bits < 32
    requires Keeps(x, y, active + {EntryBank(e)}, o, r)
    requires Returned(y, d, Target(e, y.reg[14]), GetCpsr(c), o, r)
    requires Masked(Target(e, y.reg[14]), PcMask(c.t)) == resume
    ensures Unwound(c, d, resume, active, o, r)
  {
    hide Flat, ModeToBank, ValidMode, EntryBank, GetCpsr, Unpacked, Consistent, IsRegister, Target, Masked, PcMask;
    PackedStatus(c);
    StatusT(c, d);
    assert forall b <- active :: b != EntryBank(e) && b in active + {EntryBank(e)};
  }

  lemma KeptLink(x: Core, y: Core, active: set<BankNo>)
    requires Keeps(x, y, active, x.bankNo, 14) && x.bankNo in active && x.bankNo < DUMMYBANK
    ensures y.reg[14] == x.reg[14] && y.spsr[x.bankNo] == x.spsr[x.bankNo] && Consistent(y) && y.bankNo == x.bankNo
  {
    hide ModeToBank, ValidMode;
  }

  /** Exceptions unwind: after a handler of any nesting depth has returned as documented, the interrupted
      program goes on at the right address with the status, registers and SPSRs it had. */
  lemma {:induction false} Unwinds(c: Core, pins: Pins, e: Exception, pc: Word, body: seq<Action>, active: set<BankNo>, o: BankNo, r: RegNo)
    requires Consistent(c) && c.bankNo in active && !e.Reset? && EntryBank(e) !in active
    requires c.reg[15] == Ahead(pc, c.t) && IsAligned(pc, c.t)
    requires WellNested(body, active + {EntryBank(e)}, EntryBank(e), false)
    ensures Unwound(c, Handled(c, pins, e, body), Resume(e, pc, c.t), active, o, r)
    decreases body, 1
  {
    hide *;
    var b := EntryBank(e);
    var x := Entered(c, pins, e);
    var y := Act(x, pins, body);
    EntryInterrupts(c, pins, e, o, r);
    InterruptedParts(c, x, e, Link(e, c.reg[15], c.t), o, r);
    HandlerKeeps(x, pins, body, active + {b}, o, r);
    HandlerKeeps(x, pins, body, active + {b}, b, 14);
    KeptLink(x, y, active + {b});
    StatusMode(c);
    ReturnEffect(y, e, o, r);
    HandledIs(c, pins, e, body);
    LinkReturns(e, pc, c.t);
    ResumeAligned(e, pc, c.t);
    AlignedIs(Resume(e, pc, c.t), c.t);
    Combine(c, x, y, Handled(c, pins, e, body), e, Resume(e, pc, c.t), active, o, r);
  }

  lemma InterruptedParts(c: Core, x: Core, e: Exception, link: Word, o: BankNo, r: RegNo)
    requires Interrupted(c, x, e, link, o, r)
    ensures Consistent(x) && x.bankNo == EntryBank(e) && x.bankNo != USERBANK && x.bankNo < DUMMYBANK && x.spsr[x.bankNo] == GetCpsr(c)
    ensures !x.t && x.reg[14] == link
  {
    hide GetCpsr;
    SpsrSetEffect(c, e, NOUGHT);
  }

  lemma StatusMode(c: Core)
    requires Consistent(c)
    ensures ValidMode(Masked(GetCpsr(c), 0x1F)) && c.mode.bits < 32
  {
    ModeBound(c.mode);
    PackedStatus(c);
    hide GetCpsr, ValidMode, Masked, BitAt;
  }

  lemma HandledIs(c: Core, pins: Pins, e: Exception, body: seq<Action>)
    ensures !IsTest(OpOf(ReturnWord(e)))
    ensures Handled(c, pins, e, body) == DataProcessed(Act(Entered(c, pins, e), pins, body), ReturnWord(e))
  {
    ReturnIsNoTest(e);
    hide DataProcessed, Act, Entered, OpOf;
  }

  lemma AlignedIs(pc: Word, t: bool)
    ensures IsAligned(pc, t) <==> Masked(pc, PcMask(t)) == pc
  {}

  /** The program that was interrupted at `pc` sees its own registers again, all but r15, and goes on at
      the right address in the right mode and state. */
  lemma Undisturbed(c: Core, pins: Pins, e: Exception, pc: Word, body: seq<Action>, r: RegNo)
    requires Consistent(c) && !e.Reset? && EntryBank(e) != c.bankNo
    requires c.reg[15] == Ahead(pc, c.t) && IsAligned(pc, c.t)
    requires WellNested(body, {c.bankNo, EntryBank(e)}, EntryBank(e), false)
    ensures var d := Handled(c, pins, e, body);
            && StatusOf(d) == StatusOf(c) && d.bankNo == c.bankNo
            && d.reg[r] == if r == 15 then Resume(e, pc, c.t) else c.reg[r]
  {
    hide *;
    assert {c.bankNo} + {EntryBank(e)} == {c.bankNo, EntryBank(e)};
    Unwinds(c, pins, e, pc, body, {c.bankNo}, Owner(c.bankNo, r), r);
    VisibleAgain(c, Handled(c, pins, e, body), Resume(e, pc, c.t), r);
  }

  lemma VisibleAgain(c: Core, d: Core, resume: Word, r: RegNo)
    requires Consistent(c) && Unwound(c, d, resume, {c.bankNo}, Owner(c.bankNo, r), r)
    ensures StatusOf(d) == StatusOf(c) && d.bankNo == c.bankNo
    ensures d.reg[r] == if r == 15 then resume else c.reg[r]
  {
    StatusT(c, d);
    ValidModeBank(c.mode);
  }

  // ---------------------------------------------------------------------------------------------
  // The CPSR reads back

  function Implemented(w: Bits): Bits { w & 0xF800_00FF }

  lemma HighBits(w: Bits)
    ensures Ecc(BitAt(w, 31), BitAt(w, 30), BitAt(w, 29), BitAt(w, 28), BitAt(w, 27)) == w & 0xF800_0000
  {}

  lemma LowBits(w: Bits)
    ensures When(BitAt(w, 7), 0x80) | When(BitAt(w, 6), 0x40) | (w & 0x1F) | When(BitAt(w, 5), 0x20) == w & 0xFF
  {}

  lemma PackBits(w: Bits)
    ensures Pack(BitAt(w, 31), BitAt(w, 30), BitAt(w, 29), BitAt(w, 28), BitAt(w, 27), BitAt(w, 7), BitAt(w, 6), w & 0x1F, BitAt(w, 5))
         == Implemented(w)
  {
    HighBits(w);
    LowBits(w);
    hide Ecc, When, BitAt;
  }

  /** Whatever is written to the CPSR is read back, except for the bits that do not exist. */
  lemma CpsrReadsBack(c: Core, w: Word)
    requires Consistent(c) && ValidMode(Masked(w, 0x1F))
    ensures GetCpsr(SetCpsr(c, w)) == Word(Implemented(w.bits))
  {
    SetCpsrEffect(c, w);
    PackBits(w.bits);
    hide Pack, BitAt, SetCpsr, Implemented, Consistent, ValidMode;
  }

  // ---------------------------------------------------------------------------------------------
  // Which exceptions can nest

  /** Exceptions entered in the same mode. */
  predicate Share(e: Exception, f: Exception)
  {
    e == f || (e in {Reset, Swi} && f in {Reset, Swi}) || (e in {PrefetchAbort, DataAbort} && f in {PrefetchAbort, DataAbort})
  }

  lemma SharedBanks(e: Exception, f: Exception)
    ensures Share(e, f) <==> EntryBank(e) == EntryBank(f)
    ensures EntryMode(e) != USER32MODE
  {}

  /** Whatever was interrupted by e, its status is still saved after f has interrupted the handler. */
  ghost predicate StillSaved(pins: Pins, e: Exception, f: Exception)
  {
    forall c: Core :: Consistent(c) ==> Entered(Entered(c, pins, e), pins, f).spsr[EntryBank(e)] == GetCpsr(c)
  }

  lemma SavedTwice(c: Core, pins: Pins, e: Exception, f: Exception)
    requires Consistent(c)
    ensures var x := Entered(c, pins, e);
            var y := Entered(x, pins, f);
            y.spsr[EntryBank(e)] == if EntryBank(e) == EntryBank(f) then GetCpsr(x) else GetCpsr(c)
    ensures Consistent(Entered(c, pins, e)) && StatusOf(Entered(c, pins, e)).mode == EntryMode(e)
  {
    hide Entered, Consistent, GetCpsr, EntryMode, EntryBank, Plus, Vector, VectorBase, Link;
    EntryEffect(c, pins, e);
    EntryEffect(Entered(c, pins, e), pins, f);
  }

  /** A state of User mode. */
  function SomeUser(): Core
  {
    Core(ZEROS, [ZEROS, ZEROS, ZEROS, ZEROS, ZEROS, ZEROS, ZEROS], ZEROS[..7], USER32MODE, false, false, false, false, false, false,
         false, false, USERBANK, USER32MODE, 0, map[], false, false)
  }

  lemma SomeUserIs()
    ensures Consistent(SomeUser()) && SomeUser().mode == USER32MODE
  {}

  lemma CpsrModes(c: Core, d: Core)
    requires Consistent(c) && Consistent(d) && c.mode != d.mode
    ensures GetCpsr(c) != GetCpsr(d)
  {
    ModeBound(c.mode);
    ModeBound(d.mode);
    PackedStatus(c);
    PackedStatus(d);
    hide GetCpsr, ValidMode, ModeToBank, BitAt, Masked;
  }

  lemma StatusHasMode(c: Core)
    ensures StatusOf(c).mode == c.mode
  {}

  /** The status that e saved survives the entry to f if and only if the two are not entered in the same mode: this is why
      a handler for one must save r14 and the SPSR before the other can be taken. */
  lemma NestExactly(pins: Pins, e: Exception, f: Exception)
    ensures StillSaved(pins, e, f) <==> !Share(e, f)
  {
    hide Entered, Consistent, GetCpsr, EntryMode, EntryBank, Share, StatusOf;
    SharedBanks(e, f);
    forall c: Core | Consistent(c)
      ensures Entered(Entered(c, pins, e), pins, f).spsr[EntryBank(e)]
           == if EntryBank(e) == EntryBank(f) then GetCpsr(Entered(c, pins, e)) else GetCpsr(c)
    {
      SavedTwice(c, pins, e, f);
    }
    var c := SomeUser();
    SomeUserIs();
    SavedTwice(c, pins, e, f);
    StatusHasMode(Entered(c, pins, e));
    CpsrModes(c, Entered(c, pins, e));
  }

  // ---------------------------------------------------------------------------------------------
  // MSR

  /** Byte k of a word. */
  function ByteAt(w: Bits, k: Bits): Bits
    requires k < 4
  {
    (w >> (k << 3)) & 0xFF
  }

  /** The four bytes of a PSR come from the operand where the field mask selects them. */
  lemma FieldBytes(d: Word, s: Word, instr: Bits)
    ensures var x := SetPsr(d, s, FieldMask(instr, false)).bits;
            && ByteAt(x, 0) == ByteAt(if BitAt(instr, 16) then s.bits else d.bits, 0)
            && ByteAt(x, 1) == ByteAt(if BitAt(instr, 17) then s.bits else d.bits, 1)
    ensures var x := SetPsr(d, s, FieldMask(instr, false)).bits;
            && ByteAt(x, 2) == ByteAt(if BitAt(instr, 18) then s.bits else d.bits, 2)
            && ByteAt(x, 3) == ByteAt(if BitAt(instr, 19) then s.bits else d.bits, 3)
  {}

  /** MSR outside User mode: the CPSR reads back with the selected bytes replaced. */
  lemma MsrWrites(c: Core, instr: Bits, rhs: Word)
    requires Consistent(c) && !IsUser(c.mode) && ValidMode(Masked(SetPsr(GetCpsr(c), rhs, FieldMask(instr, false)), 0x1F))
    ensures GetCpsr(FixedCpsr(c, instr, rhs)) == Word(Implemented(SetPsr(GetCpsr(c), rhs, FieldMask(instr, false)).bits))
  {
    CpsrReadsBack(c, SetPsr(GetCpsr(c), rhs, FieldMask(instr, false)));
    hide GetCpsr, SetCpsr, SetPsr, FieldMask, Implemented, Consistent, ValidMode, IsUser;
  }
}
