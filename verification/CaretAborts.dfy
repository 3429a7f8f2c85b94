/** LDM^ and STM^ that meet an unmapped word, from any privileged mode. The data abort is taken with the registers of the
    user bank switched in: here is what each form loses, and exactly when it is a proper abort all the same. */
module CaretAborts {
  import opened Words
  import opened State
  import opened Support
  import opened Banks
  import opened DataPath
  import opened Exceptions
  import opened Block
  import opened Transfer
  import opened UserBank
  import S = Stack
  import P = BlockPipeline
  import PL = Pipeline

  // ---------------------------------------------------------------------------------------------
  // A proper abort

  function AbortStatus(c: Core): Status { StatusOf(c).(i := true, t := false, mode := ABORT32MODE) }

  function AbortLink(c: Core): Word { Link(DataAbort, c.reg[15], c.t) }

  /** Register (o, r) may change: it is the link register of the exception, r15, or one that the instruction loads. */
  predicate MayChange(o: BankNo, r: RegNo, loaded: seq<RegNo>, b: BankNo)
  {
    r == 15 || (o == ABORTBANK && r == 14) || (r in loaded && o == Owner(b, r))
  }

  ghost predicate RegistersKept(c: Core, d: Core, loaded: seq<RegNo>, b: BankNo)
  {
    forall o: BankNo, r: RegNo :: IsRegister(o, r) && !MayChange(o, r, loaded, b) ==> Flat(d, o, r) == Flat(c, o, r)
  }

  /** d is what an instruction that aborts in state c should leave: Abort mode with the link register and the SPSR to go
      back by, at the vector, and every register as it was but those of bank b that were being loaded. */
  ghost predicate ProperAbort(c: Core, d: Core, pins: Pins, loaded: seq<RegNo>, b: BankNo)
  {
    && Consistent(d) && StatusOf(d) == AbortStatus(c) && d.spsr == c.spsr[ABORTBANK := GetCpsr(c)]
    && Masked(d.reg[15], PcMask(false)) == Masked(Plus(Vector(DataAbort), VectorBase(pins)), PcMask(false))
    && Flat(d, ABORTBANK, 14) == AbortLink(c) && RegistersKept(c, d, loaded, b)
  }

  // ---------------------------------------------------------------------------------------------
  // The part of the transfer before the abort

  predicate OnlyLoad(c: Core, d: Core) { d == c.(reg := d.reg, abortSig := d.abortSig, aborted := d.aborted) }

  lemma LoadOneRest(c: Core, r: RegNo, a: Word)
    ensures OnlyLoad(c, LoadOne(c, r, a))
  {
    hide *;
    LoadOneCases(c, r, a);
    ReceivedRest(c, r, WordAt(c, a));
    SignalRest(c, false);
    SignalRest(c, true);
  }

  lemma ReceivedRest(c: Core, r: RegNo, w: Word)
    ensures OnlyLoad(c, Received(c, r, w))
  {}

  lemma SignalRest(c: Core, x: bool)
    ensures OnlyLoad(c, c.(abortSig := x, aborted := true))
  {}

  lemma LoadOneCases(c: Core, r: RegNo, a: Word)
    ensures var d := LoadOne(c, r, a);
            || d == Received(c, r, WordAt(c, a)) || d == c.(abortSig := false, aborted := true)
            || d == c.(abortSig := true, aborted := true)
  {
    hide WordAt, WordNo, ReadDone;
    ReadIs(c, a);
    if WordNo(a) in c.mem {
      if !c.aborted { assert LoadOne(c, r, a) == Received(c, r, WordAt(c, a)); }
    } else {
      assert LoadOne(c, r, a) == c.(abortSig := true, aborted := true);
    }
  }

  lemma {:induction false} LoadAllRest(c: Core, regs: seq<RegNo>, a: Word)
    ensures var d := LoadAll(c, regs, a); OnlyLoad(c, d)
    decreases |regs|
  {
    hide LoadOne, Plus;
    if regs != [] {
      LoadOneRest(c, regs[0], a);
      LoadAllRest(LoadOne(c, regs[0], a), regs[1..], Plus(a, Word(4)));
    }
  }

  predicate OnlyStore(c: Core, d: Core) { d == c.(mem := d.mem, abortSig := d.abortSig, aborted := d.aborted) }

  lemma StoreOneRest(c: Core, r: RegNo, a: Word)
    ensures var d := StoreOne(c, r, a); OnlyStore(c, d)
  {
    hide *;
    var d := WriteDone(c, a, c.reg[r]);
    WriteRest(c, a, c.reg[r]);
    AbortedToo(c, d, d.aborted || d.abortSig);
    StoreOneIs(c, r, a);
  }

  lemma StoreOneIs(c: Core, r: RegNo, a: Word)
    ensures var d := WriteDone(c, a, c.reg[r]); StoreOne(c, r, a) == d.(aborted := d.aborted || d.abortSig)
  {
    hide WriteDone;
  }

  lemma AbortedToo(c: Core, d: Core, x: bool)
    requires OnlyStore(c, d)
    ensures OnlyStore(c, d.(aborted := x))
  {}

  lemma WriteRest(c: Core, a: Word, w: Word)
    ensures var d := WriteDone(c, a, w); OnlyStore(c, d)
  {
    hide WordNo;
    if WordNo(a) in c.mem {} else {}
  }

  lemma {:induction false} StoreAllRest(c: Core, regs: seq<RegNo>, a: Word)
    ensures var d := StoreAll(c, regs, a); OnlyStore(c, d)
    decreases |regs|
  {
    hide StoreOne, Plus;
    if regs != [] {
      StoreOneRest(c, regs[0], a);
      StoreAllRest(StoreOne(c, regs[0], a), regs[1..], Plus(a, Word(4)));
    }
  }

  /** The last register of the list is not loaded by a transfer that aborts. */
  lemma {:induction false} LastNotLoaded(c: Core, regs: seq<RegNo>, a: Word)
    requires !c.aborted && Ascending(regs) && regs != [] && LoadAll(c, regs, a).aborted
    ensures var r := regs[|regs| - 1]; LoadAll(c, regs, a).reg[r] == c.reg[r]
    decreases |regs|
  {
    hide LoadOne, Plus;
    S.LoadOneParts(c, regs[0], a);
    var d := LoadOne(c, regs[0], a);
    if d.aborted {
      AbortedLoad(c, regs[0], a);
    } else {
      LastNotLoaded(d, regs[1..], Plus(a, Word(4)));
    }
  }

  lemma AbortedLoad(c: Core, r: RegNo, a: Word)
    requires !c.aborted && LoadOne(c, r, a).aborted
    ensures LoadOne(c, r, a).reg == c.reg
  {
    LoadOneCases(c, r, a);
    hide LoadOne, WordAt;
  }

  // ---------------------------------------------------------------------------------------------
  // Entering Abort mode

  /** What the status and the link of an entry are taken from. */
  predicate SameContext(c: Core, x: Core)
  {
    && x == c.(reg := x.reg, bank := x.bank, bankNo := x.bankNo, mem := x.mem, abortSig := x.abortSig, aborted := x.aborted,
               nextInstr := x.nextInstr)
    && x.reg[15] == c.reg[15]
  }

  lemma ContextGives(c: Core, x: Core)
    requires SameContext(c, x)
    ensures StatusOf(x) == StatusOf(c) && x.spsr == c.spsr && GetCpsr(x) == GetCpsr(c) && AbortLink(x) == AbortLink(c)
    ensures x.mode == c.mode && AbortStatus(x) == AbortStatus(c)
  {
    hide Link, Pack;
  }

  /** A consistent state that aborts. */
  lemma AbortEffect(c: Core, x: Core, pins: Pins)
    requires Consistent(x) && SameContext(c, x)
    ensures var d := Entered(x, pins, DataAbort);
            && Consistent(d) && d.bankNo == ABORTBANK && StatusOf(d) == AbortStatus(c) && d.spsr == c.spsr[ABORTBANK := GetCpsr(c)]
            && d.reg[15] == Plus(Vector(DataAbort), VectorBase(pins)) && Flat(d, ABORTBANK, 14) == AbortLink(c)
  {
    hide *;
    EntryEffect(x, pins, DataAbort);
    ContextGives(c, x);
    AbortNames(x);
    LinkView(Entered(x, pins, DataAbort));
    StatusAgain(x);
  }

  lemma AbortNames(x: Core)
    ensures EntryBank(DataAbort) == ABORTBANK && EntryMode(DataAbort) == ABORT32MODE
    ensures Link(DataAbort, x.reg[15], x.t) == AbortLink(x)
  {
    hide Link;
  }

  lemma StatusAgain(x: Core)
    ensures AbortStatus(x)
         == StatusOf(x).(i := true, f := x.f || DataAbort.Reset? || DataAbort.Fiq?, t := false, mode := EntryMode(DataAbort))
  {}

  lemma LinkView(d: Core)
    ensures d.bankNo == ABORTBANK ==> Flat(d, ABORTBANK, 14) == d.reg[14]
  {}

  // ---------------------------------------------------------------------------------------------
  // STM^

  /** With the user bank in and the mode as it was: if the registers in use counted as the mode's own. */
  lemma UserInOwn(c: Core, o: BankNo, r: RegNo)
    requires Consistent(c) && IsRegister(o, r)
    ensures var u := UserRegisters(c);
            Flat(u.(bankNo := c.bankNo), o, r) == Flat(c, if o == c.bankNo then USERBANK else o, r)
  {
    var u, b := UserRegisters(c), c.bankNo;
    InUserBank(c, o, r);
    UserRegister(r);
    InUserBank(c, USERBANK, r);
    UserBankView(u, o, r);
    UserBankView(u, USERBANK, r);
    if b != USERBANK && Owner(b, r) != USERBANK { UserRowIn(c, r); }
    hide Switched, ModeToBank, ValidMode, UserRegisters;
  }

  /** The user's registers are in use, and in their row of the matrix as well. */
  lemma UserRowIn(c: Core, r: RegNo)
    requires Consistent(c) && c.bankNo != USERBANK && Owner(c.bankNo, r) != USERBANK
    ensures UserRegisters(c).reg[r] == UserRegisters(c).bank[USERBANK][r]
  {
    UserMode26();
    ValidModeBank(c.mode);
    hide ModeToBank, ValidMode;
  }

  /** The bank number plays no part in a change to another mode. */
  lemma SetCpsrBank(c: Core, b: BankNo, w: Word)
    requires Masked(w, 0x1F) != c.mode
    ensures SetCpsr(c.(bankNo := b), w) == SetCpsr(c, w)
  {
    hide *;
    var x := c.(cpsr := w);
    SetCpsrIs(c, w);
    SetCpsrIs(c.(bankNo := b), w);
    ModeSwitchedBank(x, b, Masked(w, 0x1F));
  }

  lemma SetCpsrIs(c: Core, w: Word)
    ensures SetCpsr(c, w) == R15Altered(FlagsFrom(ModeSwitched(c.(cpsr := w), Masked(w, 0x1F)), w), c.mode)
  {
    hide ModeSwitched, FlagsFrom, R15Altered, Masked;
  }

  lemma ModeSwitchedBank(c: Core, b: BankNo, mode: Word)
    requires mode != c.mode
    ensures ModeSwitched(c.(bankNo := b), mode) == ModeSwitched(c, mode)
  {
    SwitchedBank(c, b, mode);
    hide Switched;
  }

  lemma SwitchedBank(c: Core, b: BankNo, mode: Word)
    ensures Switched(c.(bankNo := b), c.mode, mode) == Switched(c, c.mode, mode)
  {
    assert c.(bankNo := b).(bankNo := ModeToBank(mode)) == c.(bankNo := ModeToBank(mode));
    hide Moved, ModeToBank;
  }

  lemma EntryModeBits(x: Core)
    requires ValidMode(x.mode)
    ensures Masked(EntryCpsr(x, DataAbort), 0x1F) == ABORT32MODE
  {
    ModeBound(x.mode);
    EntryStatus(x, DataAbort);
    StatusModeIs(EntryCpsr(x, DataAbort));
    hide EntryCpsr, Masked, ValidMode;
  }

  lemma StatusModeIs(w: Word)
    ensures Unpacked(w).mode == Masked(w, 0x1F)
  {
    hide BitAt, Masked;
  }

  /** From another mode than Abort it does not matter to the entry which bank is said to be in use. */
  lemma EnteredBank(x: Core, b: BankNo, pins: Pins)
    requires ValidMode(x.mode) && x.mode != ABORT32MODE
    ensures Entered(x.(bankNo := b), pins, DataAbort) == Entered(x, pins, DataAbort)
  {
    hide *;
    EnteredIs(x, pins, DataAbort);
    EnteredIs(x.(bankNo := b), pins, DataAbort);
    EntryModeBits(x);
    BasedBank(x, b);
    TurnedIs(x);
    TurnedIs(x.(bankNo := b));
    SetCpsrBank(Based(x, DataAbort), b, EntryCpsr(x, DataAbort));
  }

  lemma TurnedIs(x: Core)
    ensures Turned(x, DataAbort) == SetCpsr(Based(x, DataAbort), EntryCpsr(x, DataAbort)) && Based(x, DataAbort).mode == x.mode
  {
    hide SetCpsr, EntryCpsr, GetCpsr, EntryBank;
  }

  lemma BasedBank(x: Core, b: BankNo)
    ensures var y := x.(bankNo := b);
            EntryCpsr(y, DataAbort) == EntryCpsr(x, DataAbort) && Based(y, DataAbort) == Based(x, DataAbort).(bankNo := b)
  {
    StatusAlone(x, x.(bankNo := b), DataAbort);
    hide EntryCpsr, GetCpsr, EntryBank;
  }

  /** From Abort mode it stays as it was. */
  lemma SetCpsrSame(c: Core, w: Word)
    ensures SetCpsr(c, w).mode == Masked(w, 0x1F)
    ensures Masked(w, 0x1F) == c.mode ==> SetCpsr(c, w).bankNo == c.bankNo
    ensures Masked(w, 0x1F) == ABORT32MODE ==> SetCpsr(c, w).bank[ABORTBANK] == c.bank[ABORTBANK]
  {
    var x := c.(cpsr := w);
    SwitchedMode(x, Masked(w, 0x1F));
    hide ModeSwitched, Masked, BitAt, PackedR15, Is26Bit;
  }

  lemma SwitchedMode(c: Core, mode: Word)
    ensures ModeSwitched(c, mode).mode == mode && (mode == c.mode ==> ModeSwitched(c, mode).bankNo == c.bankNo)
    ensures mode == ABORT32MODE ==> ModeSwitched(c, mode).bank[ABORTBANK] == c.bank[ABORTBANK]
  {
    if mode == ABORT32MODE && mode != c.mode { AbortRowKept(c); }
    hide Switched;
  }

  lemma AbortRowKept(c: Core)
    ensures Switched(c, c.mode, ABORT32MODE).bank[ABORTBANK] == c.bank[ABORTBANK]
  {}

  /** The entry, whatever bank is in use: Abort mode, the link in r14, and the row of the bank as it was. */
  lemma EnteredAnyhow(x: Core, pins: Pins)
    requires ValidMode(x.mode)
    ensures var d := Entered(x, pins, DataAbort);
            && d.mode == ABORT32MODE && d.reg[14] == AbortLink(x) && d.bank[ABORTBANK] == x.bank[ABORTBANK]
            && (x.mode == ABORT32MODE ==> d.bankNo == x.bankNo)
  {
    hide *;
    EnteredIs(x, pins, DataAbort);
    EntryModeBits(x);
    TurnedIs(x);
    BasedRest(x);
    SetCpsrSame(Based(x, DataAbort), EntryCpsr(x, DataAbort));
    AbortNames(x);
    VectoredRest(Turned(x, DataAbort), AbortLink(x), Plus(Vector(DataAbort), VectorBase(pins)));
  }

  lemma BasedRest(x: Core)
    ensures var d := Based(x, DataAbort); d.bank == x.bank && d.bankNo == x.bankNo && d.mode == x.mode
  {
    hide GetCpsr, EntryBank;
  }

  lemma VectoredRest(c: Core, lr: Word, pc: Word)
    ensures var d := Vectored(c, lr, pc); d.mode == c.mode && d.bank == c.bank && d.bankNo == c.bankNo && d.reg[14] == lr
  {
    hide Refilled;
  }

  /** The state in which STM^ aborts. */
  function StoredPart(c: Core, instr: Bits, start: Word): Core { StoreAll(UserRegisters(BusUsed(c)), RegList(instr), start) }

  lemma SStoredAborts(c: Core, pins: Pins, instr: Bits, start: Word, wb: Word)
    requires !Writeback(instr) && StoredPart(c, instr, start).aborted
    ensures SStored(c, pins, instr, start, wb) == Entered(StoredPart(c, instr, start), pins, DataAbort)
  {
    hide StoreAll, UserRegisters, RegList, BusUsed, Entered, BitAt, Rn, OwnRegisters;
  }

  lemma UserRegistersRest(c: Core)
    requires Consistent(c)
    ensures SameContext(c, UserRegisters(c)) && UserRegisters(c).aborted == c.aborted && UserRegisters(c).bankNo == USERBANK
    ensures UserRegisters(c).mem == c.mem
  {
    UserRegister(15);
    InUserBank(c, USERBANK, 15);
    SharedView(c);
    SharedView(UserRegisters(c));
    hide UserRegisters, ModeToBank, ValidMode, Flat;
  }

  lemma SharedView(c: Core)
    ensures Flat(c, USERBANK, 15) == c.reg[15]
  {}

  lemma BusUsedContext(c: Core)
    ensures SameContext(c, BusUsed(c)) && BusUsed(c).aborted == c.aborted && BusUsed(c).mem == c.mem
    ensures BusUsed(c).bankNo == c.bankNo && (Consistent(c) <==> Consistent(BusUsed(c)))
  {
    hide ValidMode, ModeToBank;
  }

  lemma ContextAgain(c: Core, x: Core, y: Core)
    requires SameContext(c, x) && SameContext(x, y)
    ensures SameContext(c, y)
  {}

  lemma StoreContext(x: Core, d: Core)
    requires OnlyStore(x, d)
    ensures SameContext(x, d) && d.reg == x.reg && d.bank == x.bank && d.bankNo == x.bankNo
  {}

  /** It has the registers, and all that the entry looks at, from before. */
  lemma StoredPartIs(c: Core, instr: Bits, start: Word)
    requires Consistent(c) && !c.aborted && !Mapped(c.mem, WordNo(start), |RegList(instr)|)
    ensures var x, u := StoredPart(c, instr, start), UserRegisters(BusUsed(c));
            x.aborted && SameContext(c, x) && x.reg == u.reg && x.bank == u.bank && x.bankNo == USERBANK
  {
    hide *;
    var b := BusUsed(c);
    var u := UserRegisters(b);
    StoredPartBody(c, instr, start);
    BusUsedContext(c);
    UserRegistersRest(b);
    S.StoreAborts(u, RegList(instr), start);
    StoreAllRest(u, RegList(instr), start);
    StoreContext(u, StoreAll(u, RegList(instr), start));
    ContextAgain(c, b, u);
    ContextAgain(c, u, StoredPart(c, instr, start));
  }

  lemma StoredPartBody(c: Core, instr: Bits, start: Word)
    ensures StoredPart(c, instr, start) == StoreAll(UserRegisters(BusUsed(c)), RegList(instr), start)
  {
    hide StoreAll, UserRegisters, BusUsed, RegList;
  }

  /** The bank whose registers STM^ leaves in place of bank o's. */
  function Taken(c: Core, o: BankNo): BankNo { if o == c.bankNo then USERBANK else o }

  lemma FlatSame(c: Core, d: Core, o: BankNo, r: RegNo)
    requires d.reg == c.reg && d.bank == c.bank && d.bankNo == c.bankNo
    ensures Flat(d, o, r) == Flat(c, o, r)
  {}

  lemma WithBank(x: Core, c: Core)
    requires Consistent(c) && SameContext(c, x)
    ensures var y := x.(bankNo := c.bankNo); Consistent(y) && SameContext(c, y) && ValidMode(x.mode)
  {
    hide ValidMode, ModeToBank;
  }

  /** STM^ that aborts, from another mode than Abort: the registers of the user bank are saved as those of the bank that
      was in use, and so its own are lost. */
  lemma StmLoses(c: Core, pins: Pins, instr: Bits, start: Word, wb: Word, o: BankNo, r: RegNo)
    requires Consistent(c) && !c.aborted && c.mode != ABORT32MODE && !Writeback(instr)
    requires !Mapped(c.mem, WordNo(start), |RegList(instr)|) && IsRegister(o, r) && !MayChange(o, r, [], USERBANK)
    ensures Flat(SStored(c, pins, instr, start, wb), o, r) == Flat(c, Taken(c, o), r)
  {
    hide *;
    var x, b := StoredPart(c, instr, start), c.bankNo;
    var y, u := x.(bankNo := b), UserRegisters(BusUsed(c));
    StoredPartIs(c, instr, start);
    SStoredAborts(c, pins, instr, start, wb);
    WithBank(x, c);
    ContextGives(c, x);
    EnteredBank(x, b, pins);
    Changing(o, r);
    EntryRegister(y, pins, DataAbort, o, r);
    FlatSame(u.(bankNo := b), y, o, r);
    BusUsedContext(c);
    UserInOwn(BusUsed(c), o, r);
    TakenIs(c, o);
    BusUsedKeeps(c, Taken(c, o), r);
  }

  lemma Changing(o: BankNo, r: RegNo)
    requires !MayChange(o, r, [], USERBANK)
    ensures r != 15 && !(o == EntryBank(DataAbort) && r == 14)
  {}

  lemma TakenIs(c: Core, o: BankNo)
    ensures Taken(c, o) == if o == c.bankNo then USERBANK else o
  {}

  /** Its status, SPSR and link are right. */
  lemma StmAbortEffect(c: Core, pins: Pins, instr: Bits, start: Word, wb: Word)
    requires Consistent(c) && !c.aborted && c.mode != ABORT32MODE && !Writeback(instr)
    requires !Mapped(c.mem, WordNo(start), |RegList(instr)|)
    ensures var d := SStored(c, pins, instr, start, wb);
            && Consistent(d) && StatusOf(d) == AbortStatus(c) && d.spsr == c.spsr[ABORTBANK := GetCpsr(c)]
            && d.reg[15] == Plus(Vector(DataAbort), VectorBase(pins)) && Flat(d, ABORTBANK, 14) == AbortLink(c)
  {
    hide *;
    var x, b := StoredPart(c, instr, start), c.bankNo;
    StoredPartIs(c, instr, start);
    SStoredAborts(c, pins, instr, start, wb);
    WithBank(x, c);
    ContextGives(c, x);
    EnteredBank(x, b, pins);
    AbortEffect(c, x.(bankNo := b), pins);
  }

  /** From Abort mode the user bank stays in use. */
  lemma StmInAbortMode(c: Core, pins: Pins, instr: Bits, start: Word, wb: Word)
    requires Consistent(c) && !c.aborted && c.mode == ABORT32MODE && !Writeback(instr)
    requires !Mapped(c.mem, WordNo(start), |RegList(instr)|)
    ensures var d := SStored(c, pins, instr, start, wb); d.mode == ABORT32MODE && d.bankNo == USERBANK && !Consistent(d)
  {
    hide *;
    var x := StoredPart(c, instr, start);
    StoredPartIs(c, instr, start);
    SStoredAborts(c, pins, instr, start, wb);
    WithBank(x, c);
    ContextGives(c, x);
    EnteredAnyhow(x, pins);
    WrongBank(Entered(x, pins, DataAbort));
  }

  lemma WrongBank(d: Core)
    requires d.mode == ABORT32MODE && d.bankNo == USERBANK
    ensures !Consistent(d)
  {}

  /** The registers of the bank in use are those of the user bank. */
  ghost predicate OwnAreUsers(c: Core)
  {
    forall r: RegNo :: IsRegister(c.bankNo, r) ==> Flat(c, c.bankNo, r) == Flat(c, USERBANK, r)
  }

  /** STM^ that meets an unmapped word is a proper abort if and only if it is not executed in Abort mode, and the
      registers of the mode hold what those of the user bank do. */
  lemma StmAbortExactly(c: Core, pins: Pins, instr: Bits, start: Word, wb: Word)
    requires Consistent(c) && !c.aborted && !Writeback(instr) && !Mapped(c.mem, WordNo(start), |RegList(instr)|)
    ensures ProperAbort(c, SStored(c, pins, instr, start, wb), pins, [], USERBANK) <==> c.mode != ABORT32MODE && OwnAreUsers(c)
  {
    hide SStored, Writeback, ValidMode, ModeToBank, Mapped, WordNo, RegList, Flat, StatusOf, AbortStatus, AbortLink, GetCpsr, Masked,
      Plus, Vector, VectorBase, OwnAreUsers, RegistersKept;
    var d := SStored(c, pins, instr, start, wb);
    if c.mode == ABORT32MODE {
      StmInAbortMode(c, pins, instr, start, wb);
    } else {
      StmAbortEffect(c, pins, instr, start, wb);
      KeptIfUsers(c, pins, instr, start, wb);
    }
  }

  lemma KeptIfUsers(c: Core, pins: Pins, instr: Bits, start: Word, wb: Word)
    requires Consistent(c) && !c.aborted && c.mode != ABORT32MODE && !Writeback(instr)
    requires !Mapped(c.mem, WordNo(start), |RegList(instr)|)
    ensures RegistersKept(c, SStored(c, pins, instr, start, wb), [], USERBANK) <==> OwnAreUsers(c)
  {
    hide SStored, Writeback, ValidMode, ModeToBank, Mapped, WordNo, RegList, Flat, IsRegister, MayChange, Taken;
    var d := SStored(c, pins, instr, start, wb);
    forall o: BankNo, r: RegNo | IsRegister(o, r) && !MayChange(o, r, [], USERBANK) ensures Flat(d, o, r) == Flat(c, Taken(c, o), r) {
      StmLoses(c, pins, instr, start, wb, o, r);
    }
    forall o: BankNo ensures Taken(c, o) == if o == c.bankNo then USERBANK else o { TakenIs(c, o); }
    forall r: RegNo | IsRegister(c.bankNo, r) ensures !MayChange(c.bankNo, r, [], USERBANK) || c.bankNo == USERBANK { OwnMayChange(c, r); }
  }

  lemma OwnMayChange(c: Core, r: RegNo)
    requires Consistent(c) && c.mode != ABORT32MODE && IsRegister(c.bankNo, r)
    ensures !MayChange(c.bankNo, r, [], USERBANK) || c.bankNo == USERBANK
  {}

  // ---------------------------------------------------------------------------------------------
  // LDM^ without r15

  /** The state in which it aborts. */
  function LoadedPart(c: Core, instr: Bits, start: Word): Core { LoadAll(UserRegisters(c), RegList(instr), start) }

  lemma LoadedPartBody(c: Core, instr: Bits, start: Word)
    ensures LoadedPart(c, instr, start) == LoadAll(UserRegisters(c), RegList(instr), start)
  {
    hide LoadAll, UserRegisters, RegList;
  }

  lemma LoadContext(x: Core, d: Core)
    requires OnlyLoad(x, d) && d.reg[15] == x.reg[15]
    ensures SameContext(x, d) && d.bank == x.bank && d.bankNo == x.bankNo
  {}

  lemma NoPcInList(instr: Bits)
    ensures 15 in RegList(instr) <==> BitAt(instr, 15)
  {
    P.ListHasPc(instr);
    hide RegList, BitAt;
  }

  lemma LoadedPartIs(c: Core, instr: Bits, start: Word)
    requires Consistent(c) && !c.aborted && !Mapped(c.mem, WordNo(start), |RegList(instr)|) && !BitAt(instr, 15)
    ensures var x, u := LoadedPart(c, instr, start), UserRegisters(c);
            x.aborted && SameContext(c, x) && x.bank == u.bank && x.bankNo == USERBANK
  {
    hide *;
    var u := UserRegisters(c);
    LoadedPartBody(c, instr, start);
    UserRegistersRest(c);
    NoPcInList(instr);
    S.LoadAborts(u, RegList(instr), start);
    S.LoadAllKeeps(u, RegList(instr), start, 15);
    LoadAllRest(u, RegList(instr), start);
    LoadContext(u, LoadAll(u, RegList(instr), start));
    ContextAgain(c, u, LoadedPart(c, instr, start));
  }

  lemma SLoadedAborts(c: Core, pins: Pins, instr: Bits, start: Word, wb: Word)
    requires !Writeback(instr) && !BitAt(instr, 15) && !UserRegisters(c).aborted && LoadedPart(c, instr, start).aborted
    ensures SLoaded(c, pins, instr, start, wb) == OwnRegisters(Entered(LoadedPart(c, instr, start), pins, DataAbort))
  {
    SLoadAllIs(UserRegisters(c), RegList(instr), start);
    hide SLoadAll, LoadAll, UserRegisters, RegList, Entered, BitAt, Rn, OwnRegisters;
  }

  /** The second switch of banks, after the entry to Abort mode. */
  lemma SwitchedAgain(d: Core)
    requires d.mode == ABORT32MODE
    ensures var e := OwnRegisters(d);
            && e.mode == ABORT32MODE && e.bankNo == ABORTBANK
            && e.reg[14] == d.bank[ABORTBANK][14] && e.bank[USERBANK][14] == d.reg[14]
  {}

  lemma AbortRow(c: Core)
    requires Consistent(c)
    ensures UserRegisters(c).bank[ABORTBANK][14] == Flat(c, ABORTBANK, 14)
  {
    AbortIsRegister();
    InUserBank(c, ABORTBANK, 14);
    UserBankView(UserRegisters(c), ABORTBANK, 14);
    hide UserRegisters, ModeToBank, ValidMode, Flat, IsRegister;
  }

  lemma AbortIsRegister()
    ensures IsRegister(ABORTBANK, 14)
  {}

  lemma LinkViews(e: Core)
    requires e.mode == ABORT32MODE && e.bankNo == ABORTBANK
    ensures Flat(e, ABORTBANK, 14) == e.reg[14] && Flat(e, USERBANK, 14) == e.bank[USERBANK][14] && Consistent(e)
  {}

  lemma ContextMode(c: Core, x: Core)
    requires Consistent(c) && SameContext(c, x)
    ensures ValidMode(x.mode)
  {
    hide ValidMode, ModeToBank;
  }

  /** LDM^ without r15 that aborts, from any mode: the link goes to r14 of the user bank, and that of Abort mode is as
      before. */
  lemma LdmLoses(c: Core, pins: Pins, instr: Bits, start: Word, wb: Word)
    requires Consistent(c) && !c.aborted && !Writeback(instr) && !BitAt(instr, 15)
    requires !Mapped(c.mem, WordNo(start), |RegList(instr)|)
    ensures var e := SLoaded(c, pins, instr, start, wb);
            Consistent(e) && Flat(e, ABORTBANK, 14) == Flat(c, ABORTBANK, 14) && Flat(e, USERBANK, 14) == AbortLink(c)
  {
    hide *;
    var x := LoadedPart(c, instr, start);
    var d := Entered(x, pins, DataAbort);
    UserRegistersRest(c);
    LoadedPartIs(c, instr, start);
    SLoadedAborts(c, pins, instr, start, wb);
    ContextMode(c, x);
    EnteredAnyhow(x, pins);
    SwitchedAgain(d);
    AbortRow(c);
    ContextGives(c, x);
    LinkViews(OwnRegisters(d));
  }

  /** So it is a proper abort only if r14 of Abort mode happens to hold the link already. */
  lemma LdmAbortOnly(c: Core, pins: Pins, instr: Bits, start: Word, wb: Word, loaded: seq<RegNo>, b: BankNo)
    requires Consistent(c) && !c.aborted && !Writeback(instr) && !BitAt(instr, 15)
    requires !Mapped(c.mem, WordNo(start), |RegList(instr)|)
    ensures ProperAbort(c, SLoaded(c, pins, instr, start, wb), pins, loaded, b) ==> Flat(c, ABORTBANK, 14) == AbortLink(c)
  {
    LdmLoses(c, pins, instr, start, wb);
    hide SLoaded, Writeback, BitAt, Mapped, WordNo, RegList, ValidMode, ModeToBank, Flat, AbortLink, StatusOf, AbortStatus, GetCpsr,
      RegistersKept, Masked, Plus, Vector, VectorBase;
  }

  // ---------------------------------------------------------------------------------------------
  // LDM^ with r15

  lemma AscendingList(instr: Bits)
    ensures Ascending(RegList(instr)) && |RegList(instr)| <= 16
    ensures 15 in RegList(instr) ==> RegList(instr) != [] && RegList(instr)[|RegList(instr)| - 1] == 15
  {
    ListMeaning(instr, 0);
    var regs := RegList(instr);
    if 15 in regs {
      var i :| 0 <= i < |regs| && regs[i] == 15;
      assert regs[i] <= regs[|regs| - 1];
    }
  }

  lemma PcPart(c: Core, instr: Bits, start: Word)
    requires !c.aborted && !Mapped(c.mem, WordNo(start), |RegList(instr)|) && BitAt(instr, 15)
    ensures var x := LoadAll(c, RegList(instr), start); x.aborted && SameContext(c, x) && x.bank == c.bank && x.bankNo == c.bankNo
  {
    hide *;
    NoPcInList(instr);
    AscendingList(instr);
    S.LoadAborts(c, RegList(instr), start);
    LastNotLoaded(c, RegList(instr), start);
    LoadAllRest(c, RegList(instr), start);
    LoadContext(c, LoadAll(c, RegList(instr), start));
  }

  /** The register transfer that ends LDM^ with r15, from the abort on: Aborted is clear again, so that the CPSR is
      restored, from the SPSR that the abort has just saved. */
  function Undone(d: Core): Core
  {
    var e := if IsUser(d.mode) then d else PsrRestored(d);
    R15Written(e, e.reg[15])
  }

  lemma SLoadedPcIs(c: Core, pins: Pins, instr: Bits, start: Word, wb: Word)
    requires BitAt(instr, 15)
    ensures SLoaded(c, pins, instr, start, wb) == SLoadFinished(SLoadAll(c, RegList(instr), start), pins, instr, wb)
  {
    hide SLoadAll, RegList, SLoadFinished, BitAt;
  }

  lemma PlainBase(x: Core, pins: Pins, instr: Bits, wb: Word)
    requires !Writeback(instr) && x.aborted
    ensures SBaseDone(x, pins, instr, wb) == Entered(x, pins, DataAbort)
  {
    hide Entered, BitAt, Rn;
  }

  lemma FinishedPcIs(x: Core, pins: Pins, instr: Bits, wb: Word)
    requires BitAt(instr, 15) && !SBaseDone(x, pins, instr, wb).aborted
    ensures SLoadFinished(x, pins, instr, wb) == Undone(SBaseDone(x, pins, instr, wb))
  {
    hide SBaseDone, R15Written, PsrRestored, IsUser, OwnRegisters, BitAt;
  }

  lemma SLoadedPcAborts(c: Core, pins: Pins, instr: Bits, start: Word, wb: Word)
    requires !Writeback(instr) && BitAt(instr, 15) && !c.aborted && LoadAll(c, RegList(instr), start).aborted
    ensures SLoaded(c, pins, instr, start, wb) == Undone(Entered(LoadAll(c, RegList(instr), start), pins, DataAbort))
  {
    hide *;
    var x := LoadAll(c, RegList(instr), start);
    SLoadAllIs(c, RegList(instr), start);
    SLoadedPcIs(c, pins, instr, start, wb);
    PL.EnteredProper(x, pins, DataAbort);
    PlainBase(x, pins, instr, wb);
    FinishedPcIs(x, pins, instr, wb);
  }

  /** In Abort mode with the right SPSR, the status goes back to what the SPSR says and no register but r15 changes. */
  lemma UndoneEffect(x: Core, d: Core)
    requires Consistent(x) && Consistent(d) && d.mode == ABORT32MODE && d.spsr[ABORTBANK] == GetCpsr(x)
    ensures var e := Undone(d);
            && Consistent(e) && StatusOf(e) == StatusOf(x) && e.spsr == d.spsr
            && e.reg[15] == Masked(Flat(d, USERBANK, 15), PcMask(x.t))
  {
    hide *;
    ModeBoundOf(x);
    PackedStatus(x);
    StatusModeIs(GetCpsr(x));
    StatusParts(x);
    SpsrInAbort(d);
    SetCpsrEffect(d, GetCpsr(x));
    PcIsRegister();
    SetCpsrRegister(d, GetCpsr(x), USERBANK, 15);
    var e := SetCpsr(d, GetCpsr(x));
    SharedView(e);
    RestParts(d, e);
    UndoneIs(d, GetCpsr(x));
    Refetched(e, e.reg[15]);
    StatusT(e, x);
  }

  lemma RestParts(c: Core, d: Core)
    requires SameRest(c, d)
    ensures d.spsr == c.spsr
  {}

  lemma PcIsRegister()
    ensures IsRegister(USERBANK, 15)
  {}

  lemma ModeBoundOf(x: Core)
    requires Consistent(x)
    ensures x.mode.bits < 32 && ValidMode(x.mode)
  {
    hide ModeToBank;
  }

  lemma StatusParts(x: Core)
    ensures StatusOf(x).mode == x.mode
  {}

  lemma SpsrInAbort(d: Core)
    requires d.mode == ABORT32MODE
    ensures GetSpsr(d, d.mode) == d.spsr[ABORTBANK]
  {
    hide GetCpsr;
  }

  lemma UndoneIs(d: Core, w: Word)
    requires d.mode == ABORT32MODE && GetSpsr(d, d.mode) == w
    ensures var e := SetCpsr(d, w); Undone(d) == R15Written(e, e.reg[15])
  {
    hide SetCpsr, GetSpsr, R15Written;
  }

  lemma Refetched(c: Core, src: Word)
    ensures var d := R15Written(c, src);
            && (Consistent(d) <==> Consistent(c)) && StatusOf(d) == StatusOf(c) && d.spsr == c.spsr
            && d.reg[15] == Masked(src, PcMask(c.t))
  {
    hide Masked, PcMask, ModeToBank, ValidMode;
  }

  lemma UndoneRegister(x: Core, d: Core, o: BankNo, r: RegNo)
    requires Consistent(x) && Consistent(d) && d.mode == ABORT32MODE && d.spsr[ABORTBANK] == GetCpsr(x)
    requires IsRegister(o, r) && r != 15
    ensures Flat(Undone(d), o, r) == Flat(d, o, r)
  {
    hide *;
    ModeBoundOf(x);
    PackedStatus(x);
    StatusModeIs(GetCpsr(x));
    StatusParts(x);
    SpsrInAbort(d);
    SetCpsrRegister(d, GetCpsr(x), o, r);
    UndoneIs(d, GetCpsr(x));
    var e := SetCpsr(d, GetCpsr(x));
    RefetchedRegister(e, e.reg[15], o, r);
  }

  lemma RefetchedRegister(c: Core, src: Word, o: BankNo, r: RegNo)
    requires r != 15
    ensures Flat(R15Written(c, src), o, r) == Flat(c, o, r)
  {
    hide Masked, PcMask;
  }

  lemma ConsistentContext(c: Core, x: Core)
    requires Consistent(c) && SameContext(c, x) && x.bankNo == c.bankNo
    ensures Consistent(x)
  {
    hide ValidMode, ModeToBank;
  }

  /** After an abort LDM^ with r15 is back in the mode it was in, at the vector, with the status of before. */
  lemma LdmPcUndone(c: Core, pins: Pins, instr: Bits, start: Word, wb: Word)
    requires Consistent(c) && !c.aborted && !Writeback(instr) && BitAt(instr, 15)
    requires !Mapped(c.mem, WordNo(start), |RegList(instr)|)
    ensures var e := SLoaded(c, pins, instr, start, wb);
            && Consistent(e) && StatusOf(e) == StatusOf(c) && e.spsr == c.spsr[ABORTBANK := GetCpsr(c)]
            && e.reg[15] == Masked(Plus(Vector(DataAbort), VectorBase(pins)), PcMask(c.t))
            && Flat(e, ABORTBANK, 14) == AbortLink(c)
  {
    hide *;
    var x := LoadAll(c, RegList(instr), start);
    var d := Entered(x, pins, DataAbort);
    PcPart(c, instr, start);
    SLoadedPcAborts(c, pins, instr, start, wb);
    ConsistentContext(c, x);
    AbortEffect(c, x, pins);
    ContextGives(c, x);
    AbortModeOf(c, d);
    SharedView(d);
    UndoneEffect(x, d);
    StatusT(x, c);
    AbortIsRegister();
    UndoneRegister(x, d, ABORTBANK, 14);
  }

  lemma AbortModeOf(c: Core, d: Core)
    requires StatusOf(d) == AbortStatus(c)
    ensures d.mode == ABORT32MODE
  {}

  lemma LdmPcRegister(c: Core, pins: Pins, instr: Bits, start: Word, wb: Word, o: BankNo, r: RegNo)
    requires Consistent(c) && !c.aborted && !Writeback(instr) && BitAt(instr, 15)
    requires !Mapped(c.mem, WordNo(start), |RegList(instr)|)
    requires IsRegister(o, r) && !MayChange(o, r, RegList(instr), c.bankNo)
    ensures Flat(SLoaded(c, pins, instr, start, wb), o, r) == Flat(c, o, r)
  {
    hide *;
    var x := LoadAll(c, RegList(instr), start);
    var d := Entered(x, pins, DataAbort);
    PcPart(c, instr, start);
    SLoadedPcAborts(c, pins, instr, start, wb);
    ConsistentContext(c, x);
    AbortEffect(c, x, pins);
    ContextGives(c, x);
    AbortModeOf(c, d);
    OtherChanges(o, r, RegList(instr), c.bankNo);
    UndoneRegister(x, d, o, r);
    EntryRegister(x, pins, DataAbort, o, r);
    if r !in RegList(instr) { S.LoadAllKeeps(c, RegList(instr), start, r); }
    LoadedView(c, x, o, r);
  }

  lemma OtherChanges(o: BankNo, r: RegNo, loaded: seq<RegNo>, b: BankNo)
    requires !MayChange(o, r, loaded, b)
    ensures r != 15 && !(o == EntryBank(DataAbort) && r == 14) && (r in loaded ==> o != Owner(b, r))
  {}

  lemma LoadedView(c: Core, x: Core, o: BankNo, r: RegNo)
    requires x.bank == c.bank && x.bankNo == c.bankNo && (o == Owner(c.bankNo, r) ==> x.reg[r] == c.reg[r])
    ensures Flat(x, o, r) == Flat(c, o, r)
  {}

  /** LDM^ with r15 that meets an unmapped word is a proper abort if and only if it is executed in Abort mode, in ARM state,
      with interrupts disabled: if what the entry changes was so before. */
  lemma LdmPcAbortExactly(c: Core, pins: Pins, instr: Bits, start: Word, wb: Word)
    requires Consistent(c) && !c.aborted && !Writeback(instr) && BitAt(instr, 15)
    requires !Mapped(c.mem, WordNo(start), |RegList(instr)|)
    ensures ProperAbort(c, SLoaded(c, pins, instr, start, wb), pins, RegList(instr), c.bankNo)
       <==> c.mode == ABORT32MODE && c.i && !c.t
  {
    var e := SLoaded(c, pins, instr, start, wb);
    LdmPcUndone(c, pins, instr, start, wb);
    SameStatusWhen(c);
    MaskedTwice(Plus(Vector(DataAbort), VectorBase(pins)));
    hide SLoaded, Writeback, BitAt, Mapped, WordNo, RegList, ValidMode, ModeToBank, Flat, AbortLink, StatusOf, AbortStatus, GetCpsr,
      Masked, Plus, Vector, VectorBase, IsRegister, MayChange, PcMask;
    forall o: BankNo, r: RegNo | IsRegister(o, r) && !MayChange(o, r, RegList(instr), c.bankNo) ensures Flat(e, o, r) == Flat(c, o, r) {
      LdmPcRegister(c, pins, instr, start, wb, o, r);
    }
  }

  lemma SameStatusWhen(c: Core)
    ensures StatusOf(c) == AbortStatus(c) <==> c.mode == ABORT32MODE && c.i && !c.t
  {}

  lemma MaskedTwice(w: Word)
    ensures Masked(Masked(w, PcMask(false)), PcMask(false)) == Masked(w, PcMask(false))
  {}

  // ---------------------------------------------------------------------------------------------
  // The base register of an aborted LDM^ with r15

  lemma AbortSignalled(c: Core, regs: seq<RegNo>, a: Word)
    requires !c.aborted && LoadAll(c, regs, a).aborted
    ensures LoadAll(c, regs, a).abortSig
    decreases |regs|
  {
    hide LoadOne, Plus;
    if regs != [] {
      var d := LoadOne(c, regs[0], a);
      if d.aborted { OneSignalled(c, regs[0], a); } else { AbortSignalled(d, regs[1..], Plus(a, Word(4))); }
    }
  }

  lemma OneSignalled(c: Core, r: RegNo, a: Word)
    requires !c.aborted
    ensures LoadOne(c, r, a).aborted ==> LoadOne(c, r, a).abortSig
  {
    hide WordAt, WordNo, ReadDone;
    ReadIs(c, a);
    if WordNo(a) in c.mem {
      assert LoadOne(c, r, a) == Received(c, r, WordAt(c, a));
    } else {
      assert LoadOne(c, r, a) == c.(abortSig := true, aborted := true);
    }
  }

  /** The state in which the abort is entered: with late aborts the base has been written. */
  function Latest(x: Core, pins: Pins, instr: Bits, wb: Word): Core { if pins.lateabt then BaseWritten(x, instr, wb) else x }

  lemma LatestBase(x: Core, pins: Pins, instr: Bits, wb: Word)
    requires x.aborted && x.abortSig
    ensures SBaseDone(x, pins, instr, wb) == Entered(Latest(x, pins, instr, wb), pins, DataAbort)
  {
    hide BaseWritten, Entered;
  }

  lemma BaseContext(c: Core, x: Core, instr: Bits, wb: Word)
    requires SameContext(c, x)
    ensures var y := x.(reg := BaseReg(x.reg, instr, wb)); SameContext(c, y) && y.bank == x.bank && y.bankNo == x.bankNo
  {
    BaseLeavesPc(x.reg, instr, wb);
    hide BaseReg;
  }

  lemma BaseLeavesPc(row: Row, instr: Bits, wb: Word)
    ensures BaseReg(row, instr, wb)[15] == row[15]
    ensures BaseReg(row, instr, wb)[Rn(instr)] == if Writeback(instr) then wb else row[Rn(instr)]
  {
    hide BitAt, Rn;
  }

  lemma LatestContext(c: Core, x: Core, pins: Pins, instr: Bits, wb: Word)
    requires SameContext(c, x)
    ensures var y := Latest(x, pins, instr, wb);
            && SameContext(c, y) && y.bank == x.bank && y.bankNo == x.bankNo
            && y.reg[Rn(instr)] == if pins.lateabt && Writeback(instr) then wb else x.reg[Rn(instr)]
  {
    BaseContext(c, x, instr, wb);
    BaseLeavesPc(x.reg, instr, wb);
    hide BaseReg, Rn, Writeback, SameContext;
  }

  lemma SLoadedPcLate(c: Core, pins: Pins, instr: Bits, start: Word, wb: Word)
    requires BitAt(instr, 15) && !c.aborted && LoadAll(c, RegList(instr), start).aborted
    ensures var x := LoadAll(c, RegList(instr), start);
            SLoaded(c, pins, instr, start, wb) == Undone(Entered(Latest(x, pins, instr, wb), pins, DataAbort))
  {
    hide *;
    var x := LoadAll(c, RegList(instr), start);
    AbortSignalled(c, RegList(instr), start);
    SLoadAllIs(c, RegList(instr), start);
    SLoadedPcIs(c, pins, instr, start, wb);
    LatestBase(x, pins, instr, wb);
    PL.EnteredProper(Latest(x, pins, instr, wb), pins, DataAbort);
    FinishedPcIs(x, pins, instr, wb);
  }

  lemma OwnRegisterView(c: Core, r: RegNo)
    requires Consistent(c)
    ensures IsRegister(Owner(c.bankNo, r), r) && Flat(c, Owner(c.bankNo, r), r) == c.reg[r]
  {
    ValidModeBank(c.mode);
    hide ModeToBank, ValidMode;
  }

  /** A base that is not in the list has the new value after the abort exactly where aborts are late, and the old one otherwise. */
  lemma LdmPcBase(c: Core, pins: Pins, instr: Bits, start: Word, wb: Word)
    requires Consistent(c) && !c.aborted && BitAt(instr, 15) && !Mapped(c.mem, WordNo(start), |RegList(instr)|)
    requires Rn(instr) !in RegList(instr) && Rn(instr) != 15 && !(c.bankNo == ABORTBANK && Rn(instr) == 14)
    ensures Flat(SLoaded(c, pins, instr, start, wb), Owner(c.bankNo, Rn(instr)), Rn(instr))
         == if pins.lateabt && Writeback(instr) then wb else c.reg[Rn(instr)]
  {
    hide *;
    var r := Rn(instr);
    var o := Owner(c.bankNo, r);
    var x := LoadAll(c, RegList(instr), start);
    var y := Latest(x, pins, instr, wb);
    var d := Entered(y, pins, DataAbort);
    PcPart(c, instr, start);
    SLoadedPcLate(c, pins, instr, start, wb);
    LatestContext(c, x, pins, instr, wb);
    ConsistentContext(c, y);
    AbortEffect(c, y, pins);
    ContextGives(c, y);
    AbortModeOf(c, d);
    OwnRegisterView(y, r);
    NotTheLink(c, r);
    UndoneRegister(y, d, o, r);
    EntryRegister(y, pins, DataAbort, o, r);
    S.LoadAllKeeps(c, RegList(instr), start, r);
  }

  lemma NotTheLink(c: Core, r: RegNo)
    requires !(c.bankNo == ABORTBANK && r == 14)
    ensures !(Owner(c.bankNo, r) == EntryBank(DataAbort) && r == 14)
  {}
}
