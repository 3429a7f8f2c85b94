/** LDM^ and STM^ on all states of a privileged mode: they do what they should, mapped or not, exactly where the block is
    mapped, or the mode uses the registers of the user bank anyway. And the return from an exception by LDM^ with r15. */
module CaretExactly {
  import opened Words
  import opened State
  import opened Support
  import opened Banks
  import opened DataPath
  import opened Exceptions
  import opened Block
  import opened Transfer
  import opened UserBank
  import opened CaretAborts

  // ---------------------------------------------------------------------------------------------
  // What they should do

  ghost predicate BlockMapped(m: Memory, instr: Bits, start: Word) { Mapped(m, WordNo(start), |RegList(instr)|) }

  ghost predicate StoresAll(c: Core, d: Core, instr: Bits, start: Word)
  {
    forall k: nat, n: nat, o: BankNo, r: RegNo {:trigger UserStored(c, d, instr, WordNo(start), k, n, o, r)} ::
      k < |RegList(instr)| && IsRegister(o, r) ==> UserStored(c, d, instr, WordNo(start), k, n, o, r)
  }

  ghost predicate LoadsAll(c: Core, d: Core, instr: Bits, start: Word)
  {
    forall k: nat, o: BankNo, r: RegNo {:trigger UserLoaded(c, d, instr, WordNo(start), k, o, r)} ::
      k < |RegList(instr)| && IsRegister(o, r) ==> UserLoaded(c, d, instr, WordNo(start), k, o, r)
  }

  /** STM^ stores the registers of the user bank and keeps all registers; or it is a proper data abort. */
  ghost predicate StmRight(c: Core, d: Core, pins: Pins, instr: Bits, start: Word)
  {
    if BlockMapped(c.mem, instr, start) then StoresAll(c, d, instr, start) else ProperAbort(c, d, pins, [], USERBANK)
  }

  ghost predicate LdmRight(c: Core, d: Core, pins: Pins, instr: Bits, start: Word)
  {
    if BlockMapped(c.mem, instr, start) then LoadsAll(c, d, instr, start)
    else ProperAbort(c, d, pins, RegList(instr), USERBANK)
  }

  /** The states in which a mode finds a memory. */
  predicate From(c: Core, mode: Word, m: Memory) { Consistent(c) && c.mode == mode && c.mem == m && !c.aborted }

  ghost predicate StmAlways(pins: Pins, instr: Bits, start: Word, wb: Word, mode: Word, m: Memory)
  {
    forall c: Core :: From(c, mode, m) ==> StmRight(c, SStored(c, pins, instr, start, wb), pins, instr, start)
  }

  ghost predicate LdmAlways(pins: Pins, instr: Bits, start: Word, wb: Word, mode: Word, m: Memory)
  {
    forall c: Core :: From(c, mode, m) ==> LdmRight(c, SLoaded(c, pins, instr, start, wb), pins, instr, start)
  }

  // ---------------------------------------------------------------------------------------------
  // When they do it

  lemma FromParts(c: Core, mode: Word, m: Memory)
    requires From(c, mode, m)
    ensures Consistent(c) && c.mode == mode && c.mem == m && !c.aborted && c.bankNo == ModeToBank(mode)
  {
    hide ValidMode, ModeToBank;
  }

  lemma ListLimit(instr: Bits)
    ensures |RegList(instr)| <= 16
  {
    ListMeaning(instr, 0);
  }

  lemma StmMapped(c: Core, pins: Pins, instr: Bits, start: Word, wb: Word)
    requires Consistent(c) && !IsUser(c.mode) && !c.aborted && !Writeback(instr) && RegList(instr) != []
    requires BlockMapped(c.mem, instr, start)
    ensures StmRight(c, SStored(c, pins, instr, start, wb), pins, instr, start)
  {
    hide RegList, WordNo, SStored, Writeback, ValidMode, ModeToBank, IsUser, UserStored, IsRegister, Mapped;
    var d := SStored(c, pins, instr, start, wb);
    ListLimit(instr);
    forall k: nat, n: nat, o: BankNo, r: RegNo | k < |RegList(instr)| && IsRegister(o, r)
      ensures UserStored(c, d, instr, WordNo(start), k, n, o, r)
    {
      StmKth(c, pins, instr, start, wb, k, n, o, r);
    }
  }

  lemma StmKth(c: Core, pins: Pins, instr: Bits, start: Word, wb: Word, k: nat, n: nat, o: BankNo, r: RegNo)
    requires Consistent(c) && !IsUser(c.mode) && !c.aborted && !Writeback(instr) && k < |RegList(instr)| <= 16 && IsRegister(o, r)
    requires Mapped(c.mem, WordNo(start), |RegList(instr)|)
    ensures UserStored(c, SStored(c, pins, instr, start, wb), instr, WordNo(start), k, n, o, r)
  {
    hide *;
    BusUsedKeeps(c, USERBANK, RegList(instr)[k]);
    BusUsedKeeps(c, o, r);
    BusUsedContext(c);
    SameMode(c, BusUsed(c));
    StoresUserBank(BusUsed(c), instr, start, k, n, o, r);
    SStoredIs(c, pins, instr, start, wb);
    UserStoredAlso(c, SStored(c, pins, instr, start, wb), instr, WordNo(start), k, n, o, r);
  }

  lemma SameMode(c: Core, x: Core)
    requires SameContext(c, x)
    ensures x.mode == c.mode
  {}

  lemma LdmMapped(c: Core, pins: Pins, instr: Bits, start: Word, wb: Word)
    requires Consistent(c) && !IsUser(c.mode) && !c.aborted && !Writeback(instr) && !BitAt(instr, 15) && RegList(instr) != []
    requires BlockMapped(c.mem, instr, start)
    ensures LdmRight(c, SLoaded(c, pins, instr, start, wb), pins, instr, start)
  {
    SLoadedIs(c, pins, instr, start, wb);
    hide RegList, WordNo, SLoaded, Writeback, ValidMode, ModeToBank, IsUser, UserLoaded, IsRegister, Mapped, BitAt, OwnRegisters, LoadAll,
      UserRegisters;
    var d := SLoaded(c, pins, instr, start, wb);
    forall k: nat, o: BankNo, r: RegNo | k < |RegList(instr)| && IsRegister(o, r)
      ensures UserLoaded(c, d, instr, WordNo(start), k, o, r)
    {
      LoadsUserBank(c, instr, start, k, o, r);
    }
  }

  /** A state of a mode in which r13 and r14 differ from bank to bank. */
  function Differing(mode: Word, m: Memory): Core
  {
    var row := ZEROS[13 := Word(1)][14 := Word(1)];
    Core(ZEROS[14 := Word(1)], [row, row, row, row, row, row, row], ZEROS[..7], mode, false, false, false, false, false, false, false,
         false, ModeToBank(mode), mode, 0, m, false, false)
  }

  lemma DifferingParts(mode: Word, m: Memory)
    requires ValidMode(mode)
    ensures var c := Differing(mode, m);
            && From(c, mode, m) && Flat(c, ABORTBANK, 14) == Word(1) && AbortLink(c) == Word(0)
            && (c.bankNo != USERBANK ==> IsRegister(c.bankNo, 13) && Flat(c, c.bankNo, 13) == Word(0) && Flat(c, USERBANK, 13) == Word(1))
  {
    ValidModeBank(mode);
    hide ModeToBank, ValidMode;
  }

  lemma DifferingOwn(c: Core)
    requires IsRegister(c.bankNo, 13) && Flat(c, c.bankNo, 13) == Word(0) && Flat(c, USERBANK, 13) == Word(1)
    ensures !OwnAreUsers(c)
  {
    hide Flat, IsRegister;
  }

  lemma InUserBankOwn(c: Core)
    requires c.bankNo == USERBANK
    ensures OwnAreUsers(c)
  {
    hide Flat, IsRegister;
  }

  lemma UserBankMode(mode: Word)
    requires ModeToBank(mode) == USERBANK
    ensures mode != ABORT32MODE
  {}

  /** STM^ without write-back, in a privileged mode. */
  lemma StmExactly(pins: Pins, instr: Bits, start: Word, wb: Word, mode: Word, m: Memory)
    requires ValidMode(mode) && !IsUser(mode) && !Writeback(instr) && RegList(instr) != []
    ensures StmAlways(pins, instr, start, wb, mode, m) <==> BlockMapped(m, instr, start) || ModeToBank(mode) == USERBANK
  {
    hide RegList, WordNo, SStored, Writeback, ValidMode, ModeToBank, IsUser, Mapped, Consistent, From, StmRight, BlockMapped;
    if BlockMapped(m, instr, start) || ModeToBank(mode) == USERBANK {
      forall c: Core | From(c, mode, m) ensures StmRight(c, SStored(c, pins, instr, start, wb), pins, instr, start) {
        StmHolds(c, pins, instr, start, wb, mode, m);
      }
    } else {
      StmFails(pins, instr, start, wb, mode, m);
    }
  }

  lemma StmHolds(c: Core, pins: Pins, instr: Bits, start: Word, wb: Word, mode: Word, m: Memory)
    requires !IsUser(mode) && !Writeback(instr) && RegList(instr) != [] && From(c, mode, m)
    requires BlockMapped(m, instr, start) || ModeToBank(mode) == USERBANK
    ensures StmRight(c, SStored(c, pins, instr, start, wb), pins, instr, start)
  {
    hide *;
    FromParts(c, mode, m);
    RightIs(c, SStored(c, pins, instr, start, wb), pins, instr, start);
    if BlockMapped(m, instr, start) {
      StmMapped(c, pins, instr, start, wb);
    } else {
      UserBankMode(mode);
      InUserBankOwn(c);
      StmAbortExactly(c, pins, instr, start, wb);
    }
  }

  lemma RightIs(c: Core, d: Core, pins: Pins, instr: Bits, start: Word)
    ensures BlockMapped(c.mem, instr, start) <==> Mapped(c.mem, WordNo(start), |RegList(instr)|)
    ensures !BlockMapped(c.mem, instr, start) ==> StmRight(c, d, pins, instr, start) == ProperAbort(c, d, pins, [], USERBANK)
    ensures !BlockMapped(c.mem, instr, start)
        ==> LdmRight(c, d, pins, instr, start) == ProperAbort(c, d, pins, RegList(instr), USERBANK)
  {
    hide ProperAbort, Mapped, RegList, WordNo, StoresAll, LoadsAll;
  }

  lemma StmFails(pins: Pins, instr: Bits, start: Word, wb: Word, mode: Word, m: Memory)
    requires ValidMode(mode) && !Writeback(instr) && !BlockMapped(m, instr, start) && ModeToBank(mode) != USERBANK
    ensures var c := Differing(mode, m); From(c, mode, m) && !StmRight(c, SStored(c, pins, instr, start, wb), pins, instr, start)
  {
    hide *;
    var c := Differing(mode, m);
    DifferingParts(mode, m);
    FromParts(c, mode, m);
    RightIs(c, SStored(c, pins, instr, start, wb), pins, instr, start);
    DifferingOwn(c);
    StmAbortExactly(c, pins, instr, start, wb);
  }

  /** LDM^ without r15 and write-back, in a privileged mode. */
  lemma LdmExactly(pins: Pins, instr: Bits, start: Word, wb: Word, mode: Word, m: Memory)
    requires ValidMode(mode) && !IsUser(mode) && !Writeback(instr) && !BitAt(instr, 15) && RegList(instr) != []
    ensures LdmAlways(pins, instr, start, wb, mode, m) <==> BlockMapped(m, instr, start)
  {
    hide RegList, WordNo, SLoaded, Writeback, ValidMode, ModeToBank, IsUser, Mapped, Consistent, From, LdmRight, BlockMapped, BitAt;
    if BlockMapped(m, instr, start) {
      forall c: Core | From(c, mode, m) ensures LdmRight(c, SLoaded(c, pins, instr, start, wb), pins, instr, start) {
        FromParts(c, mode, m);
        LdmMapped(c, pins, instr, start, wb);
      }
    } else {
      LdmFails(pins, instr, start, wb, mode, m);
    }
  }

  lemma LdmFails(pins: Pins, instr: Bits, start: Word, wb: Word, mode: Word, m: Memory)
    requires ValidMode(mode) && !Writeback(instr) && !BitAt(instr, 15) && !BlockMapped(m, instr, start)
    ensures var c := Differing(mode, m); From(c, mode, m) && !LdmRight(c, SLoaded(c, pins, instr, start, wb), pins, instr, start)
  {
    hide *;
    var c := Differing(mode, m);
    DifferingParts(mode, m);
    FromParts(c, mode, m);
    OneIsNotZero();
    RightIs(c, SLoaded(c, pins, instr, start, wb), pins, instr, start);
    LdmAbortOnly(c, pins, instr, start, wb, RegList(instr), USERBANK);
  }

  lemma OneIsNotZero()
    ensures Word(1) != Word(0)
  {}

  // ---------------------------------------------------------------------------------------------
  // Return by LDM^ with r15

  /** The k-th register, of the bank in use before, has the k-th word; the status comes from the SPSR, and r15 is the last
      word of the block, aligned for the restored state. */
  ghost predicate ReturnedByLoad(c: Core, d: Core, instr: Bits, first: nat, k: nat)
    requires k < |RegList(instr)|
  {
    var r := RegList(instr)[k];
    && Consistent(d) && StatusOf(d) == Unpacked(GetSpsr(c, c.mode)) && d.spsr == c.spsr && d.mem == c.mem && Nth(first, k) in c.mem
    && if r == 15 then d.reg[15] == Masked(c.mem[Nth(first, k)], PcMask(d.t)) else Flat(d, Owner(c.bankNo, r), r) == c.mem[Nth(first, k)]
  }

  lemma SpsrAlone(c: Core, x: Core)
    requires OnlyRegs(c, x)
    ensures GetSpsr(x, x.mode) == GetSpsr(c, c.mode) && (Consistent(x) <==> Consistent(c)) && x.mode == c.mode
    ensures x.spsr == c.spsr && x.mem == c.mem && x.bankNo == c.bankNo && x.aborted == c.aborted
  {
    hide ModeToBank, ValidMode, Pack;
  }

  lemma FinishedReturn(x: Core, pins: Pins, instr: Bits, wb: Word)
    requires BitAt(instr, 15) && !Writeback(instr) && !x.aborted && !IsUser(x.mode)
    ensures var e := SetCpsr(x, GetSpsr(x, x.mode)); SLoadFinished(x, pins, instr, wb) == R15Written(e, e.reg[15])
  {
    hide SetCpsr, GetSpsr, R15Written, OwnRegisters, BitAt, Rn, IsUser, Entered;
  }

  lemma RestKept(c: Core, d: Core)
    requires SameRest(c, d)
    ensures d.spsr == c.spsr && d.mem == c.mem
  {}

  lemma OwnView(c: Core, r: RegNo)
    ensures Flat(c, Owner(c.bankNo, r), r) == c.reg[r]
  {}

  lemma OwnIsRegister(c: Core, r: RegNo)
    requires Consistent(c)
    ensures IsRegister(Owner(c.bankNo, r), r) && Owner(c.bankNo, 15) == USERBANK
  {
    ValidModeBank(c.mode);
    hide ModeToBank, ValidMode;
  }

  lemma RefetchedMem(c: Core, src: Word)
    ensures R15Written(c, src).mem == c.mem && R15Written(c, src).t == c.t
  {
    hide Masked, PcMask;
  }

  /** After a mapped LDM^ with r15 from a privileged mode. */
  lemma LdmReturns(c: Core, pins: Pins, instr: Bits, start: Word, wb: Word, k: nat)
    requires Consistent(c) && !IsUser(c.mode) && !c.aborted && !Writeback(instr) && BitAt(instr, 15) && k < |RegList(instr)|
    requires Mapped(c.mem, WordNo(start), |RegList(instr)|) && ValidMode(Masked(GetSpsr(c, c.mode), 0x1F))
    ensures ReturnedByLoad(c, SLoaded(c, pins, instr, start, wb), instr, WordNo(start), k)
  {
    var regs := RegList(instr);
    var x := LoadAll(c, regs, start);
    AscendingList(instr);
    hide *;
    var r := regs[k];
    LoadAllEffect(c, regs, start, k, r);
    SLoadAllIs(c, regs, start);
    SLoadedPcIs(c, pins, instr, start, wb);
    SpsrAlone(c, x);
    FinishedReturn(x, pins, instr, wb);
    var w := GetSpsr(x, x.mode);
    SetCpsrEffect(x, w);
    var e := SetCpsr(x, w);
    RestKept(x, e);
    Refetched(e, e.reg[15]);
    RefetchedMem(e, e.reg[15]);
    OwnIsRegister(x, r);
    OwnView(x, r);
    SetCpsrRegister(x, w, Owner(x.bankNo, r), r);
    if r == 15 {
      SharedView(e);
    } else {
      RefetchedRegister(e, e.reg[15], Owner(x.bankNo, r), r);
    }
    MappedKth(c.mem, WordNo(start), |regs|, k);
    ReturnedIs(c, SLoaded(c, pins, instr, start, wb), instr, WordNo(start), k);
  }

  lemma MappedKth(m: Memory, w: nat, n: nat, k: nat)
    requires Mapped(m, w, n) && k < n
    ensures Nth(w, k) in m
  {
    hide Nth;
  }

  lemma ReturnedIs(c: Core, d: Core, instr: Bits, first: nat, k: nat)
    requires k < |RegList(instr)| && Nth(first, k) in c.mem
    requires Consistent(d) && StatusOf(d) == Unpacked(GetSpsr(c, c.mode)) && d.spsr == c.spsr && d.mem == c.mem
    requires var r := RegList(instr)[k];
             if r == 15 then d.reg[15] == Masked(c.mem[Nth(first, k)], PcMask(d.t))
             else Flat(d, Owner(c.bankNo, r), r) == c.mem[Nth(first, k)]
    ensures ReturnedByLoad(c, d, instr, first, k)
  {
    hide Consistent, StatusOf, Unpacked, GetSpsr, Masked, Flat, Owner, Nth, PcMask, RegList;
  }
}
