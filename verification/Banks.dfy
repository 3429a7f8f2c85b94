/** The bank matrix refines a flat architectural register file (ARM DDI 0100, section A2.4).

    ARMul_SwitchMode keeps the registers of the current mode in Reg and the others, saved lazily, in
    RegBank. `Flat` reads off each architectural register, and the lemmas say that switching modes
    changes none of them, whatever the order of the switches. */
module Banks {
  import opened Words
  import opened State
  import opened Support

  /** The modes of a 32-bit program space. */
  predicate ValidMode(mode: Word)
  {
    mode in {USER32MODE, FIQ32MODE, IRQ32MODE, SVC32MODE, ABORT32MODE, UNDEF32MODE, SYSTEM32MODE}
  }

  /** The bank that owns register r in the modes of bank b: r8 to r12 are private to FIQ, r13 and r14
      to every bank, and the others are shared. */
  function Owner(b: BankNo, r: RegNo): BankNo
  {
    if r < 8 || r == 15 then USERBANK
    else if r < 13 then (if b == FIQBANK then FIQBANK else USERBANK)
    else b
  }

  /** (o, r) names one of the 31 general-purpose registers. */
  predicate IsRegister(o: BankNo, r: RegNo) { o < DUMMYBANK && Owner(o, r) == o }

  /** The value of architectural register (o, r). */
  function Flat(c: Core, o: BankNo, r: RegNo): Word
  {
    if Owner(c.bankNo, r) == o then c.reg[r] else c.bank[o][r]
  }

  /** Bank and Mode agree, and the mode is one of a 32-bit program space. */
  predicate Consistent(c: Core) { ValidMode(c.mode) && c.bankNo == ModeToBank(c.mode) }

  lemma ValidModeBank(mode: Word)
    ensures ValidMode(mode) ==> ModeToBank(mode) != DUMMYBANK
  {}

  lemma MovedKeeps(c: Core, oldbank: BankNo, newbank: BankNo, o: BankNo, r: RegNo)
    requires c.bankNo == newbank && oldbank != newbank && oldbank != DUMMYBANK && newbank != DUMMYBANK
    requires IsRegister(o, r)
    ensures Flat(Moved(c, oldbank, newbank), o, r) == Flat(c.(bankNo := oldbank), o, r)
  {
    var m := Saved(c.bank, c.reg, oldbank, newbank);
    assert Moved(c, oldbank, newbank).reg[r] == Restored(c.reg, m, oldbank, newbank)[r];
  }

  lemma MovedBank(c: Core, oldbank: BankNo, newbank: BankNo)
    ensures Moved(c, oldbank, newbank).bankNo == c.bankNo
  {}

  /** A switch between any two valid banks changes no architectural register. */
  lemma SwitchKeepsRegister(c: Core, oldmode: Word, newmode: Word, o: BankNo, r: RegNo)
    requires c.bankNo == ModeToBank(oldmode) != DUMMYBANK && ModeToBank(newmode) != DUMMYBANK
    requires IsRegister(o, r)
    ensures Flat(Switched(c, oldmode, newmode), o, r) == Flat(c, o, r)
    ensures Switched(c, oldmode, newmode).bankNo == ModeToBank(newmode)
  {
    hide Flat, Moved, ModeToBank, IsRegister;
    var oldbank, newbank := ModeToBank(oldmode), ModeToBank(newmode);
    var d := c.(bankNo := newbank);
    assert d.(bankNo := oldbank) == c;
    if oldbank != newbank {
      MovedBank(d, oldbank, newbank);
      MovedKeeps(d, oldbank, newbank, o, r);
    }
  }

  // ---------------------------------------------------------------------------------------------
  // Every run

  /** One step: the CPSR's mode bits change, or the program writes a register it sees. */
  datatype BankOp = SwitchTo(mode: Word) | Write(r: RegNo, w: Word)

  predicate Admissible(op: BankOp) { op.SwitchTo? ==> ValidMode(op.mode) }

  function Step(c: Core, op: BankOp): Core
  {
    match op
    case SwitchTo(mode) => ModeSwitched(c, mode)
    case Write(r, w) => c.(reg := c.reg[r := w])
  }

  function Run(c: Core, ops: seq<BankOp>): Core
    decreases |ops|
  {
    if ops == [] then c else Run(Step(c, ops[0]), ops[1..])
  }

  /** The value last written to register (o, r) by a run that starts in `mode`, or w when there is none.
      This looks at the modes and the writes only: it is the register file of the architecture. */
  function LastWritten(mode: Word, ops: seq<BankOp>, o: BankNo, r: RegNo, w: Word): Word
    decreases |ops|
  {
    if ops == [] then w
    else match ops[0]
      case SwitchTo(m) => LastWritten(m, ops[1..], o, r, w)
      case Write(k, x) =>
        LastWritten(mode, ops[1..], o, r, if k == r && Owner(ModeToBank(mode), k) == o then x else w)
  }

  lemma StepKeepsConsistent(c: Core, op: BankOp)
    requires Consistent(c) && Admissible(op)
    ensures Consistent(Step(c, op))
  {
    hide Switched, ModeToBank;
    if op.SwitchTo? && c.mode != op.mode {
      ValidModeBank(c.mode);
      ValidModeBank(op.mode);
      SwitchKeepsRegister(c, c.mode, op.mode, USERBANK, 0);
    }
  }

  lemma StepRegisters(c: Core, op: BankOp, o: BankNo, r: RegNo)
    requires Consistent(c) && Admissible(op) && IsRegister(o, r)
    ensures Flat(Step(c, op), o, r)
         == if op.Write? && op.r == r && Owner(c.bankNo, r) == o then op.w else Flat(c, o, r)
  {
    match op
    case Write(k, w) =>
    case SwitchTo(mode) =>
      ValidModeBank(c.mode);
      ValidModeBank(mode);
      if c.mode != mode {
        var d := Switched(c, c.mode, mode);
        SwitchKeepsRegister(c, c.mode, mode, o, r);
        assert Flat(d.(mode := mode), o, r) == Flat(d, o, r) by { hide *; FlatIgnoresMode(d, mode, o, r); }
      }
  }

  lemma FlatIgnoresMode(c: Core, mode: Word, o: BankNo, r: RegNo)
    ensures Flat(c.(mode := mode), o, r) == Flat(c, o, r)
  {}

  /** Through any run, every architectural register holds the value last written to it, and the bank
      in use is the bank of the mode. */
  lemma {:induction false} RunKeepsRegisters(c: Core, ops: seq<BankOp>, o: BankNo, r: RegNo)
    requires Consistent(c) && (forall op <- ops :: Admissible(op)) && IsRegister(o, r)
    ensures Consistent(Run(c, ops))
    ensures Flat(Run(c, ops), o, r) == LastWritten(c.mode, ops, o, r, Flat(c, o, r))
    decreases |ops|
  {
    hide Flat, Step, Consistent, ValidMode;
    if ops != [] {
      assert Admissible(ops[0]);
      assert c.bankNo == ModeToBank(c.mode) by { ConsistentBank(c); }
      StepKeepsConsistent(c, ops[0]);
      StepRegisters(c, ops[0], o, r);
      StepMode(c, ops[0]);
      RunKeepsRegisters(Step(c, ops[0]), ops[1..], o, r);
    }
  }

  lemma ConsistentBank(c: Core)
    requires Consistent(c)
    ensures c.bankNo == ModeToBank(c.mode)
  {}

  lemma StepMode(c: Core, op: BankOp)
    ensures Step(c, op).mode == if op.SwitchTo? then op.mode else c.mode
  {}

  /** The mode a run ends in. */
  function ModeAfter(mode: Word, ops: seq<BankOp>): Word
    decreases |ops|
  {
    if ops == [] then mode else ModeAfter(if ops[0].SwitchTo? then ops[0].mode else mode, ops[1..])
  }

  lemma {:induction false} RunMode(c: Core, ops: seq<BankOp>)
    ensures Run(c, ops).mode == ModeAfter(c.mode, ops)
    decreases |ops|
  {
    hide Step;
    if ops != [] {
      StepMode(c, ops[0]);
      RunMode(Step(c, ops[0]), ops[1..]);
    }
  }

  /** What the program reads after a run, in whatever mode it then is: the value last written to that register in a mode
      that shares it. */
  lemma RunReads(c: Core, ops: seq<BankOp>, r: RegNo)
    requires Consistent(c) && (forall op <- ops :: Admissible(op))
    ensures var o := Owner(ModeToBank(ModeAfter(c.mode, ops)), r);
            Run(c, ops).reg[r] == LastWritten(c.mode, ops, o, r, Flat(c, o, r))
  {
    hide *;
    var d, o := Run(c, ops), Owner(ModeToBank(ModeAfter(c.mode, ops)), r);
    RunKeepsRegisters(c, ops, USERBANK, 0) by { SharedRegister(); }
    RunMode(c, ops);
    ConsistentBank(d);
    OwnRegister(d, r);
    RunKeepsRegisters(c, ops, o, r);
  }

  lemma SharedRegister()
    ensures IsRegister(USERBANK, 0)
  {}

  lemma OwnRegister(c: Core, r: RegNo)
    requires Consistent(c)
    ensures IsRegister(Owner(c.bankNo, r), r) && Flat(c, Owner(c.bankNo, r), r) == c.reg[r]
  {
    ValidModeBank(c.mode);
    hide ValidMode, ModeToBank;
  }
}
