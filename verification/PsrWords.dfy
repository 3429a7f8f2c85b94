/** MSR and MRS from their instruction words (ARM DDI 0100, sections A4.1.33 to A4.1.36): which bytes of which PSR are written, and
    that nothing else is. */
module PsrWords {
  import opened Words
  import opened State
  import opened Support
  import opened Banks
  import opened DataPath
  import opened Exceptions
  import opened Execute
  import opened MainSwitch
  import opened DataWords
  import C = Conditions

  /** Bits 16 to 19 choose the bytes of a PSR that are taken from the operand. */
  function Spliced(was: Bits, x: Bits, w: Bits): Bits
  {
    ((if BitAt(w, 16) then x else was) & 0xFF) | ((if BitAt(w, 17) then x else was) & 0xFF00)
    | ((if BitAt(w, 18) then x else was) & 0xFF_0000) | ((if BitAt(w, 19) then x else was) & 0xFF00_0000)
  }

  lemma SplicedIs(d: Word, s: Word, w: Bits)
    ensures SetPsr(d, s, FieldMask(w, false)).bits == Spliced(d.bits, s.bits, w)
  {}

  /** The operand of MSR: an immediate, or a register with the T bit cleared. */
  function MsrOperand(c: Core, w: Bits): Bits
  {
    if BitAt(w, 25) then ShifterOperand(c, w).value else ShifterOperand(c, w).value & 0xFFFF_FFDF
  }

  lemma MsrDispatched(c: Core, pins: Pins, w: Bits, pc: Word)
    requires IsMsr(w)
    ensures Dispatched(c, pins, w, pc) == MsrDone(c, w)
  {
    hide *;
    MsrKind(w);
    C.DispatchKinds(c, pins, w, pc);
  }

  lemma MsrKind(w: Bits)
    requires IsMsr(w)
    ensures !Supported(w) && !IsLongMultiply(w)
  {
    TestWithoutS(w);
    hide OpOf, IsTest;
  }

  lemma TestWithoutS(w: Bits)
    requires IsMsr(w)
    ensures IsTest(OpOf(w)) && !BitAt(w, 20)
  {}

  lemma SpsrParts(c: Core, w: Bits)
    requires BitAt(w, 22)
    ensures MsrDone(c, w) == FixedSpsr(Reading(c, w), w, Word(ShifterOperand(c, w).value))
  {
    OperandIs(c, w);
    hide BitAt, Operand, FixedSpsr, Reading, ShifterOperand;
  }

  /** Nothing changes but the registers and the fetch state. */
  predicate OnlyFetch(c: Core, e: Core) { e == c.(reg := e.reg, nextInstr := e.nextInstr, abortSig := e.abortSig) }

  lemma CycledFetch(c: Core)
    ensures OnlyFetch(c, Cycled(c)) && OnlyFetch(c, c)
  {
    hide Plus, Isize, Advanced;
  }

  lemma FetchKeeps(c: Core, e: Core)
    requires OnlyFetch(c, e)
    ensures GetCpsr(e) == GetCpsr(c) && (Consistent(e) <==> Consistent(c))
    ensures e.mode == c.mode && e.spsr == c.spsr && e.mem == c.mem && e.bankNo == c.bankNo
  {
    hide Pack, ValidMode, ModeToBank;
  }

  lemma ReadingRest(c: Core, w: Bits)
    ensures OnlyFetch(c, Reading(c, w))
  {
    CycledFetch(c);
    hide Cycled, BitAt, OnlyFetch;
  }

  function WithSpsr(e: Core, b: BankNo, x: Word): Core
  {
    hide *;
    e.(spsr := e.spsr[b := x])
  }

  lemma FixedIs(e: Core, w: Bits, x: Word)
    requires e.bankNo != DUMMYBANK
    ensures FixedSpsr(e, w, x)
         == if e.bankNo == USERBANK then e else WithSpsr(e, e.bankNo, Word(Spliced(e.spsr[e.bankNo].bits, x.bits, w)))
  {
    SplicedIs(e.spsr[e.bankNo], x, w);
    var y := SetPsr(e.spsr[e.bankNo], x, FieldMask(w, false));
    assert FixedSpsr(e, w, x) == if e.bankNo == USERBANK then e else WithSpsr(e, e.bankNo, y) by { hide SetPsr, FieldMask; }
    hide *;
  }

  lemma WithSpsrIs(e: Core, b: BankNo, x: Word)
    ensures var d := WithSpsr(e, b, x); d == e.(spsr := d.spsr) && d.spsr == e.spsr[b := x] && e == e.(spsr := e.spsr)
  {}

  lemma BankInUse(c: Core)
    requires Consistent(c)
    ensures c.bankNo != DUMMYBANK
  {
    ValidModeBank(c.mode);
    hide ModeToBank, ValidMode;
  }

  /** MSR to the SPSR: the chosen bytes of the SPSR of the mode; in a mode without one nothing happens. */
  lemma MsrSpsrWord(c: Core, pins: Pins, w: Bits, pc: Word)
    requires IsMsr(w) && BitAt(w, 22) && Consistent(c)
    ensures var d, b := Dispatched(c, pins, w, pc), c.bankNo;
            && d == Reading(c, w).(spsr := d.spsr)
            && d.spsr == if b == USERBANK then c.spsr else c.spsr[b := Word(Spliced(c.spsr[b].bits, ShifterOperand(c, w).value, w))]
  {
    hide *;
    var e, b, x := Reading(c, w), c.bankNo, Word(ShifterOperand(c, w).value);
    BankInUse(c);
    MsrDispatched(c, pins, w, pc);
    SpsrParts(c, w);
    ReadingRest(c, w);
    FetchKeeps(c, e);
    FixedIs(e, w, x);
    WithSpsrIs(e, b, Word(Spliced(e.spsr[b].bits, x.bits, w)));
  }

  lemma CpsrParts(c: Core, w: Bits)
    requires !BitAt(w, 22)
    ensures MsrDone(c, w) == FixedCpsr(Reading(c, w), w, Word(MsrOperand(c, w)))
  {
    OperandIs(c, w);
    hide BitAt, Operand, FixedCpsr, Reading, ShifterOperand;
  }

  /** MSR to the CPSR outside User mode: it reads back with the chosen bytes replaced, and no architectural register changes but
      r15 if it has been advanced. */
  lemma MsrCpsrWord(c: Core, pins: Pins, w: Bits, pc: Word, o: BankNo, r: RegNo)
    requires IsMsr(w) && !BitAt(w, 22) && Consistent(c) && c.mode.bits != 0x10 && IsRegister(o, r)
    requires ValidMode(Word(Spliced(GetCpsr(c).bits, MsrOperand(c, w), w) & 0x1F))
    ensures var d := Dispatched(c, pins, w, pc);
            && GetCpsr(d) == Word(Implemented(Spliced(GetCpsr(c).bits, MsrOperand(c, w), w))) && d.spsr == c.spsr && d.mem == c.mem
            && Flat(d, o, r) == Flat(Reading(c, w), o, r)
  {
    var e, x := Reading(c, w), Word(MsrOperand(c, w));
    var y := SetPsr(GetCpsr(e), x, FieldMask(w, false));
    hide *;
    Privileged(c);
    ReadingRest(c, w);
    FetchKeeps(c, e);
    SplicedIs(GetCpsr(e), x, w);
    MaskedMode(y);
    MsrDispatched(c, pins, w, pc);
    CpsrParts(c, w);
    MsrWrites(e, w, x);
    FixedCpsrIs(e, w, x);
    SetCpsrEffect(e, y);
    RestKept(e, SetCpsr(e, y));
    SetCpsrRegister(e, y, o, r);
    AsWord(y);
  }

  /** Every mode of a 32-bit program space but User mode. */
  lemma Privileged(c: Core)
    requires Consistent(c) && c.mode.bits != 0x10
    ensures !IsUser(c.mode)
  {
    hide ModeToBank;
  }

  lemma MaskedMode(y: Word)
    ensures Masked(y, 0x1F) == Word(y.bits & 0x1F)
  {}

  lemma AsWord(y: Word)
    ensures Word(y.bits) == y
  {}

  lemma RestKept(c: Core, d: Core)
    requires SameRest(c, d)
    ensures d.spsr == c.spsr && d.mem == c.mem
  {}

  lemma FixedCpsrIs(e: Core, w: Bits, x: Word)
    requires !IsUser(e.mode)
    ensures FixedCpsr(e, w, x) == SetCpsr(e, SetPsr(GetCpsr(e), x, FieldMask(w, false)))
  {
    hide SetCpsr, SetPsr, GetCpsr, FieldMask, IsUser;
  }
}
