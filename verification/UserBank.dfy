/** LDM^ and STM^ without r15 (ARM DDI 0100, sections A4.1.21 and A4.1.98): from a privileged mode they
    move the registers of the user bank, and leave every other bank as it was. */
module UserBank {
  import opened Words
  import opened State
  import opened Support
  import opened Banks
  import opened DataPath
  import opened Exceptions
  import opened Block
  import opened Transfer

  /** Nothing changes but the registers, the bank matrix and the bank in use. */
  predicate OnlyBanks(c: Core, d: Core) { d == c.(reg := d.reg, bank := d.bank, bankNo := d.bankNo) }

  lemma SwitchedRest(c: Core, oldmode: Word, newmode: Word)
    ensures OnlyBanks(c, Switched(c, oldmode, newmode))
  {
    hide Saved, Restored, ModeToBank;
  }

  lemma UserMode26()
    ensures ModeToBank(USER26MODE) == USERBANK
  {}

  lemma InUserBank(c: Core, o: BankNo, r: RegNo)
    requires Consistent(c) && IsRegister(o, r)
    ensures var d := UserRegisters(c); OnlyBanks(c, d) && d.bankNo == USERBANK && Flat(d, o, r) == Flat(c, o, r)
  {
    ValidModeBank(c.mode);
    UserMode26();
    SwitchedRest(c, c.mode, USER26MODE);
    if c.bankNo != USERBANK { SwitchKeepsRegister(c, c.mode, USER26MODE, o, r); }
    hide Switched, Flat, ModeToBank, ValidMode;
  }

  lemma InOwnBank(c: Core, o: BankNo, r: RegNo)
    requires c.bankNo == USERBANK && ValidMode(c.mode) && !IsUser(c.mode) && IsRegister(o, r)
    ensures var d := OwnRegisters(c); OnlyBanks(c, d) && d.bankNo == ModeToBank(c.mode) && Flat(d, o, r) == Flat(c, o, r)
  {
    ValidModeBank(c.mode);
    UserMode26();
    SwitchedRest(c, USER26MODE, c.mode);
    SwitchKeepsRegister(c, USER26MODE, c.mode, o, r);
    hide Switched, Flat, ModeToBank, ValidMode;
  }

  /** While the user bank is in use, a register of another bank is not visible. */
  lemma UserBankView(c: Core, o: BankNo, r: RegNo)
    requires c.bankNo == USERBANK && IsRegister(o, r)
    ensures Flat(c, o, r) == if o == USERBANK then c.reg[r] else c.bank[o][r]
  {}

  lemma UserRegister(r: RegNo)
    ensures IsRegister(USERBANK, r)
  {}

  /** After LDM^, the k-th register of the list, of the user bank, holds the k-th word; architectural
      register (o, r) is unchanged if it is none of them; and nothing else changes. */
  ghost predicate UserLoaded(c: Core, d: Core, instr: Bits, first: nat, k: nat, o: BankNo, r: RegNo)
    requires k < |RegList(instr)|
  {
    && Consistent(d) && d == c.(reg := d.reg, bank := d.bank, abortSig := false)
    && Nth(first, k) in c.mem && Flat(d, USERBANK, RegList(instr)[k]) == c.mem[Nth(first, k)]
    && (IsRegister(o, r) && !(o == USERBANK && r in RegList(instr)) ==> Flat(d, o, r) == Flat(c, o, r))
  }

  lemma LoadsUserBank(c: Core, instr: Bits, start: Word, k: nat, o: BankNo, r: RegNo)
    requires Consistent(c) && !IsUser(c.mode) && !c.aborted && k < |RegList(instr)| && IsRegister(o, r)
    requires Mapped(c.mem, WordNo(start), |RegList(instr)|)
    ensures var d := OwnRegisters(LoadAll(UserRegisters(c), RegList(instr), start));
            UserLoaded(c, d, instr, WordNo(start), k, o, r)
  {
    ListMeaning(instr, 0);
    hide RegList, WordNo, Flat, ModeToBank, ValidMode, UserRegisters, OwnRegisters, IsUser, IsRegister, LoadAll, Nth, ListFrom;
    var regs := RegList(instr);
    assert regs == ListFrom(instr, 0) by { ListIs(instr); }
    var x := UserRegisters(c);
    var y := LoadAll(x, regs, start);
    UserRegister(regs[k]);
    InUserBank(c, o, r);
    LoadAllEffect(x, regs, start, k, r);
    UserBankView(x, o, r);
    UserBankView(y, o, r);
    UserBankView(y, USERBANK, regs[k]);
    InOwnBank(y, o, r);
    InOwnBank(y, USERBANK, regs[k]);
  }

  lemma ListIs(instr: Bits)
    ensures RegList(instr) == ListFrom(instr, 0)
  {}

  /** LDM^ from any privileged mode. */
  lemma LdmUserBank(c: Core, pins: Pins, instr: Bits, k: nat, o: BankNo, r: RegNo)
    requires IsLoad(instr) && Caret(instr) && !Writeback(instr) && !BitAt(instr, 15) && k < |RegList(instr)| <= 16
    requires Consistent(c) && !IsUser(c.mode) && !c.aborted && IsRegister(o, r)
    requires Mapped(c.mem, FirstOf(c, instr), |RegList(instr)|)
    ensures UserLoaded(c, Transferred(c, pins, instr), instr, FirstOf(c, instr), k, o, r)
  {
    var start := Start(c.reg[Rn(instr)], instr);
    StartWord(c.reg[Rn(instr)], instr);
    LoadsUserBank(c, instr, start, k, o, r);
    SLoadedIs(c, pins, instr, start, NewBase(c.reg[Rn(instr)], instr));
    hide RegList, SLoaded, Start, NewBase, Rn, BitAt, UserLoaded, Stored, SStored, Loaded, WordNo;
  }

  lemma SLoadedIs(c: Core, pins: Pins, instr: Bits, start: Word, wb: Word)
    requires !Writeback(instr) && !BitAt(instr, 15) && !c.aborted && Consistent(c) && RegList(instr) != []
    requires Mapped(c.mem, WordNo(start), |RegList(instr)|)
    ensures SLoaded(c, pins, instr, start, wb) == OwnRegisters(LoadAll(UserRegisters(c), RegList(instr), start))
  {
    ListMeaning(instr, 0);
    UserRegister(0);
    InUserBank(c, USERBANK, 0);
    LoadAllEffect(UserRegisters(c), RegList(instr), start, 0, 0);
    SLoadAllIs(UserRegisters(c), RegList(instr), start);
    hide BitAt, Rn, WordNo, ListFrom, UserRegisters, OwnRegisters, Entered, ModeToBank, ValidMode, LoadAll, SLoadAll;
  }

  /** After STM^, the k-th word holds the k-th register of the list, of the user bank; word n is unchanged
      if it is not in the block; every architectural register (o, r) and everything else are unchanged. */
  ghost predicate UserStored(c: Core, d: Core, instr: Bits, first: nat, k: nat, n: nat, o: BankNo, r: RegNo)
    requires k < |RegList(instr)|
  {
    && Consistent(d) && d == c.(reg := d.reg, bank := d.bank, mem := d.mem, abortSig := false, nextInstr := d.nextInstr)
    && Nth(first, k) in d.mem && d.mem[Nth(first, k)] == Flat(c, USERBANK, RegList(instr)[k])
    && (n in c.mem && Outside(n, first, |RegList(instr)|) ==> n in d.mem && d.mem[n] == c.mem[n])
    && (IsRegister(o, r) ==> Flat(d, o, r) == Flat(c, o, r))
  }

  lemma StoresUserBank(c: Core, instr: Bits, start: Word, k: nat, n: nat, o: BankNo, r: RegNo)
    requires Consistent(c) && !IsUser(c.mode) && !c.aborted && k < |RegList(instr)| <= 16 && IsRegister(o, r)
    requires Mapped(c.mem, WordNo(start), |RegList(instr)|)
    ensures var d := OwnRegisters(StoreAll(UserRegisters(c), RegList(instr), start));
            UserStored(c, d, instr, WordNo(start), k, n, o, r)
  {
    hide RegList, WordNo, Flat, ModeToBank, ValidMode, UserRegisters, OwnRegisters, IsUser, IsRegister, StoreAll, Nth;
    var regs := RegList(instr);
    var x := UserRegisters(c);
    var y := StoreAll(x, regs, start);
    UserRegister(regs[k]);
    InUserBank(c, o, r);
    InUserBank(c, USERBANK, regs[k]);
    UserBankView(x, USERBANK, regs[k]);
    StoreAllFrame(x, regs, start);
    StoreAllKth(x, regs, start, k);
    if n in c.mem && Outside(n, WordNo(start), |regs|) { StoreAllOther(x, regs, start, n); }
    UserViews(x, y, o, r);
    InOwnBank(y, o, r);
    BackInPlace(c, x, y, OwnRegisters(y));
  }

  lemma UserViews(c: Core, d: Core, o: BankNo, r: RegNo)
    requires c.bankNo == USERBANK && OnlyMem(c, d) && IsRegister(o, r)
    ensures Flat(c, o, r) == Flat(d, o, r)
  {}

  lemma BackInPlace(c: Core, x: Core, y: Core, d: Core)
    requires Consistent(c) && OnlyBanks(c, x) && OnlyMem(x, y) && OnlyBanks(y, d) && d.bankNo == ModeToBank(c.mode)
    ensures d == c.(reg := d.reg, bank := d.bank, mem := y.mem, abortSig := y.abortSig)
    ensures Consistent(d)
  {
    hide ModeToBank, ValidMode;
  }

  /** STM^ from any privileged mode. */
  lemma StmUserBank(c: Core, pins: Pins, instr: Bits, k: nat, n: nat, o: BankNo, r: RegNo)
    requires !IsLoad(instr) && Caret(instr) && !Writeback(instr) && k < |RegList(instr)| <= 16
    requires Consistent(c) && !IsUser(c.mode) && !c.aborted && IsRegister(o, r)
    requires Mapped(c.mem, FirstOf(c, instr), |RegList(instr)|)
    ensures UserStored(c, Transferred(c, pins, instr), instr, FirstOf(c, instr), k, n, o, r)
  {
    var start := Start(c.reg[Rn(instr)], instr);
    StartWord(c.reg[Rn(instr)], instr);
    BusUsedKeeps(c, USERBANK, RegList(instr)[k]);
    BusUsedKeeps(c, o, r);
    StoresUserBank(BusUsed(c), instr, start, k, n, o, r);
    SStoredIs(c, pins, instr, start, NewBase(c.reg[Rn(instr)], instr));
    hide RegList, SLoaded, Start, NewBase, Rn, BitAt, Stored, SStored, Loaded, WordNo, Flat, BusUsed, ModeToBank, ValidMode;
    UserStoredAlso(c, Transferred(c, pins, instr), instr, FirstOf(c, instr), k, n, o, r);
  }

  lemma BusUsedKeeps(c: Core, o: BankNo, r: RegNo)
    ensures var d := BusUsed(c); d == c.(nextInstr := d.nextInstr) && Flat(d, o, r) == Flat(c, o, r) && (Consistent(d) <==> Consistent(c))
  {
    hide ModeToBank, ValidMode;
  }

  lemma UserStoredAlso(c: Core, d: Core, instr: Bits, first: nat, k: nat, n: nat, o: BankNo, r: RegNo)
    requires k < |RegList(instr)| && UserStored(BusUsed(c), d, instr, first, k, n, o, r)
    requires Flat(BusUsed(c), o, r) == Flat(c, o, r)
    requires Flat(BusUsed(c), USERBANK, RegList(instr)[k]) == Flat(c, USERBANK, RegList(instr)[k])
    ensures UserStored(c, d, instr, first, k, n, o, r)
  {
    hide RegList, Flat, Nth, ModeToBank, ValidMode;
  }

  lemma SStoredIs(c: Core, pins: Pins, instr: Bits, start: Word, wb: Word)
    requires !Writeback(instr) && !c.aborted && Consistent(c) && RegList(instr) != []
    requires Mapped(c.mem, WordNo(start), |RegList(instr)|)
    ensures SStored(c, pins, instr, start, wb) == OwnRegisters(StoreAll(UserRegisters(BusUsed(c)), RegList(instr), start))
  {
    BusUsedKeeps(c, USERBANK, 0);
    UserRegister(0);
    InUserBank(BusUsed(c), USERBANK, 0);
    StoreAllFrame(UserRegisters(BusUsed(c)), RegList(instr), start);
    var y := StoreAll(UserRegisters(BusUsed(c)), RegList(instr), start);
    OwnAborted(y);
    StoreFinishedPlain(OwnRegisters(y), pins, instr, wb);
    hide *;
    SStoredParts(c, pins, instr, start, wb);
  }

  lemma OwnAborted(c: Core)
    ensures OwnRegisters(c).aborted == c.aborted
  {
    SwitchedRest(c, USER26MODE, c.mode);
    hide Switched, IsUser;
  }

  lemma StoreFinishedPlain(c: Core, pins: Pins, instr: Bits, wb: Word)
    requires !c.aborted && !Writeback(instr)
    ensures StoreFinished(c, pins, instr, wb) == c
  {
    hide BitAt, Rn;
  }

  lemma SStoredParts(c: Core, pins: Pins, instr: Bits, start: Word, wb: Word)
    requires !StoreAll(UserRegisters(BusUsed(c)), RegList(instr), start).aborted
    ensures var y := StoreAll(UserRegisters(BusUsed(c)), RegList(instr), start);
            SStored(c, pins, instr, start, wb) == StoreFinished(OwnRegisters(y), pins, instr, wb)
  {
    hide StoreAll, UserRegisters, BusUsed, RegList, StoreFinished, OwnRegisters;
  }
}
