/** Block transfers: LoadMult, LoadSMult, StoreMult and StoreSMult of arch_arm/common/armemu32.c, the
    addressing modes of cases 0x80 to 0x9f, and the table of register counts (arch_arm/common/arminit.c). */
module Block {
  import opened Words
  import opened State
  import opened Support
  import opened DataPath
  import opened Exceptions

  // ---------------------------------------------------------------------------------------------
  // Register lists

  /** The registers from k up that an LDM or STM instruction names, in order. (The second measure keeps
      the verifier from unfolding all 16 levels at once.) */
  function ListFrom(instr: Bits, k: nat): seq<RegNo>
    requires k <= 16
    decreases 16 - k, instr == 0
  {
    if k == 16 then [] else if Bit(instr, k) then [k] + ListFrom(instr, k + 1) else ListFrom(instr, k + 1)
  }

  function RegList(instr: Bits): seq<RegNo> { ListFrom(instr, 0) }

  lemma ListStep(instr: Bits, k: nat)
    requires k <= 16
    ensures ListFrom(instr, k)
         == if k == 16 then [] else if Bit(instr, k) then [k] + ListFrom(instr, k + 1) else ListFrom(instr, k + 1)
  {
    hide Bit;
  }

  /** A register before an ascending list of higher ones. */
  lemma Prepended(k: nat, rest: seq<RegNo>)
    requires k < 16 && forall j :: 0 <= j < |rest| ==> k < rest[j]
    requires forall i, j :: 0 <= i < j < |rest| ==> rest[i] < rest[j]
    ensures var s: seq<RegNo> := [k] + rest;
            && (forall i, j :: 0 <= i < j < |s| ==> s[i] < s[j]) && (forall r: RegNo :: r in s <==> r == k || r in rest)
  {
    var s: seq<RegNo> := [k] + rest;
    assert forall j :: 1 <= j < |s| ==> s[j] == rest[j - 1];
  }

  /** The list is ascending and holds exactly the registers whose bit is set. */
  lemma {:induction false} ListMeaning(instr: Bits, k: nat)
    requires k <= 16
    ensures |ListFrom(instr, k)| <= 16 - k
    ensures forall i, j :: 0 <= i < j < |ListFrom(instr, k)| ==> ListFrom(instr, k)[i] < ListFrom(instr, k)[j]
    ensures forall r: RegNo :: r in ListFrom(instr, k) <==> k <= r && Bit(instr, r)
    decreases 16 - k
  {
    hide Bit, ListFrom;
    ListStep(instr, k);
    if k < 16 {
      ListMeaning(instr, k + 1);
      var rest := ListFrom(instr, k + 1);
      assert forall j :: 0 <= j < |rest| ==> rest[j] in rest;
      Prepended(k, rest);
    }
  }

  /** ARMul_NthReg: the loop returns the register at position `number` of the list. */
  method NthReg(instr: Bits, number: nat) returns (r: nat)
    requires number < |RegList(instr)|
    ensures r < 16 && r == RegList(instr)[number]
  {
    var bit, upto := 0, 0;
    while upto <= number
      invariant bit <= 16
      invariant upto <= number ==> RegList(instr)[upto..] == ListFrom(instr, bit)
      invariant upto <= number + 1
      invariant upto == number + 1 ==> bit > 0 && bit - 1 == RegList(instr)[number]
      decreases 16 - bit
    {
      if Bit(instr, bit) {
        upto := upto + 1;
      }
      bit := bit + 1;
    }
    r := bit - 1;
  }

  // ---------------------------------------------------------------------------------------------
  // Word accesses

  /** The word an address is in; the low two bits do not count. */
  function WordNo(a: Word): nat { Num(a) / 4 }

  /** ARMul_ABORTWORD. */
  function AbortWord(t: bool): Word { Word(if t then 0xEFFF_DFFF else 0xEFFF_FFFF) }

  function WordAt(c: Core, a: Word): Word
  {
    if WordNo(a) in c.mem then c.mem[WordNo(a)] else AbortWord(c.t)
  }

  /** The state after ARMul_ReadWord: a fault sets the abort signal and Aborted. */
  function ReadDone(c: Core, a: Word): Core
  {
    if WordNo(a) in c.mem then c.(abortSig := false) else c.(abortSig := true, aborted := true)
  }

  /** The state after ARMul_WriteWord. */
  function WriteDone(c: Core, a: Word, w: Word): Core
  {
    if WordNo(a) in c.mem then c.(abortSig := false, mem := c.mem[WordNo(a) := w])
    else c.(abortSig := true, aborted := true)
  }

  method ReadWord(state: ArmState, a: Word) returns (w: Word)
    requires state.Valid()
    modifies state`AbortSig, state`Aborted
    ensures state.Value() == ReadDone(old(state.Value()), a) && w == WordAt(old(state.Value()), a)
  {
    hide WordNo, AbortWord;
    if WordNo(a) in state.Mem {
      state.AbortSig := false;
      w := state.Mem[WordNo(a)];
    } else {
      state.AbortSig := true;
      state.Aborted := true;
      w := AbortWord(state.TFlag);
    }
  }

  method WriteWord(state: ArmState, a: Word, w: Word)
    requires state.Valid()
    modifies state`AbortSig, state`Aborted, state`Mem
    ensures state.Value() == WriteDone(old(state.Value()), a, w)
  {
    hide WordNo;
    if WordNo(a) in state.Mem {
      state.Mem := state.Mem[WordNo(a) := w];
      state.AbortSig := false;
    } else {
      state.AbortSig := true;
      state.Aborted := true;
    }
  }

  // ---------------------------------------------------------------------------------------------
  // Loading and storing the registers of a list

  /** One register loaded; an access that aborts leaves it alone. */
  function LoadOne(c: Core, r: RegNo, a: Word): Core
  {
    var d := ReadDone(c, a);
    if d.abortSig || d.aborted then d.(aborted := true) else d.(reg := d.reg[r := WordAt(c, a)])
  }

  function StoreOne(c: Core, r: RegNo, a: Word): Core
  {
    var d := WriteDone(c, a, c.reg[r]);
    d.(aborted := d.aborted || d.abortSig)
  }

  /** The transfers from address a up, to the first abort. */
  function LoadAll(c: Core, regs: seq<RegNo>, a: Word): Core
    decreases |regs|
  {
    if regs == [] then c
    else
      var d := LoadOne(c, regs[0], a);
      if d.aborted then d else LoadAll(d, regs[1..], Plus(a, Word(4)))
  }

  /** The first transfer of LoadSMult looks at the abort signal only, not at an abort that is pending. */
  function SLoadOne(c: Core, r: RegNo, a: Word): Core
  {
    var d := ReadDone(c, a);
    if d.abortSig then d.(aborted := true) else d.(reg := d.reg[r := WordAt(c, a)])
  }

  function SLoadAll(c: Core, regs: seq<RegNo>, a: Word): Core
  {
    if regs == [] then c
    else
      var d := SLoadOne(c, regs[0], a);
      if d.aborted then d else LoadAll(d, regs[1..], Plus(a, Word(4)))
  }

  /** With no abort pending the two kinds of loading are the same. */
  lemma SLoadAllIs(c: Core, regs: seq<RegNo>, a: Word)
    requires !c.aborted
    ensures SLoadAll(c, regs, a) == LoadAll(c, regs, a)
  {
    hide SLoadOne, LoadOne, Plus;
    if regs != [] { SLoadOneIs(c, regs[0], a); }
  }

  lemma SLoadOneIs(c: Core, r: RegNo, a: Word)
    requires !c.aborted
    ensures SLoadOne(c, r, a) == LoadOne(c, r, a)
  {
    hide WordAt, WordNo, ReadDone;
    ReadIs(c, a);
    if WordNo(a) in c.mem {
      assert LoadOne(c, r, a) == Received(c, r, WordAt(c, a));
    } else {
      assert LoadOne(c, r, a) == c.(abortSig := true, aborted := true);
    }
  }

  function Received(c: Core, r: RegNo, w: Word): Core
  {
    hide *;
    c.(abortSig := false, reg := c.reg[r := w])
  }

  lemma ReadIs(c: Core, a: Word)
    ensures ReadDone(c, a) == if WordNo(a) in c.mem then c.(abortSig := false) else c.(abortSig := true, aborted := true)
  {
    hide WordNo;
  }

  function StoreAll(c: Core, regs: seq<RegNo>, a: Word): Core
    decreases |regs|
  {
    if regs == [] then c
    else
      var d := StoreOne(c, regs[0], a);
      if d.aborted then d else StoreAll(d, regs[1..], Plus(a, Word(4)))
  }

  /** Bit 21 and a base other than r15: the base is written back. */
  function BaseWritten(c: Core, instr: Bits, wb: Word): Core { c.(reg := BaseReg(c.reg, instr, wb)) }

  function BaseReg(reg: Row, instr: Bits, wb: Word): Row
  {
    if BitAt(instr, 21) && Rn(instr) != 15 then reg[Rn(instr) := wb] else reg
  }

  /** BUSUSEDINCPCN on a v4 core. */
  function BusUsed(c: Core): Core { c.(nextInstr := if c.nextInstr % 2 == 1 then c.nextInstr else c.nextInstr + 1) }

  /** What LoadMult does after the loop. */
  function LoadFinished(c: Core, pins: Pins, instr: Bits, wb: Word): Core
  {
    if c.aborted then Entered(c, pins, DataAbort)
    else BaseWritten(if BitAt(instr, 15) then R15Branched(c, c.reg[15]) else c, instr, wb)
  }

  /** What LoadMult does. */
  function Loaded(c: Core, pins: Pins, instr: Bits, start: Word, wb: Word): Core
  {
    LoadFinished(LoadAll(c, RegList(instr), start), pins, instr, wb)
  }

  /** What StoreMult and StoreSMult do after the loop: with early aborts the base keeps its value. */
  function StoreFinished(c: Core, pins: Pins, instr: Bits, wb: Word): Core
  {
    var d := if c.abortSig && c.aborted && !pins.lateabt then c else BaseWritten(c, instr, wb);
    if d.aborted then Entered(d, pins, DataAbort) else d
  }

  /** What StoreMult does. */
  function Stored(c: Core, pins: Pins, instr: Bits, start: Word, wb: Word): Core
  {
    StoreFinished(StoreAll(if c.t then c else BusUsed(c), RegList(instr), start), pins, instr, wb)
  }

  /** LDM^ and STM^ work on the registers of the user bank. */
  function UserRegisters(c: Core): Core { if c.bankNo != USERBANK then Switched(c, c.mode, USER26MODE) else c }

  function OwnRegisters(c: Core): Core { if !IsUser(c.mode) then Switched(c, USER26MODE, c.mode) else c }

  function SBaseDone(c: Core, pins: Pins, instr: Bits, wb: Word): Core
  {
    if !c.aborted then BaseWritten(c, instr, wb)
    else Entered(if c.abortSig && !pins.lateabt then c else BaseWritten(c, instr, wb), pins, DataAbort)
  }

  /** LoadSMult after the loop. (As in the source, without r15 in the list the abort exception is taken while the user bank is
      still switched in; and as it clears Aborted, the branch for r15 in the list does not notice it.) */
  function SLoadFinished(c: Core, pins: Pins, instr: Bits, wb: Word): Core
  {
    var d := SBaseDone(c, pins, instr, wb);
    if !BitAt(instr, 15) then OwnRegisters(d)
    else if d.aborted then d
    else
      var e := if IsUser(d.mode) then d else PsrRestored(d);
      R15Written(e, e.reg[15])
  }

  /** What LoadSMult does. */
  function SLoaded(c: Core, pins: Pins, instr: Bits, start: Word, wb: Word): Core
  {
    SLoadFinished(SLoadAll(if BitAt(instr, 15) then c else UserRegisters(c), RegList(instr), start), pins, instr, wb)
  }

  /** What StoreSMult does; an abort skips the switch back. */
  function SStored(c: Core, pins: Pins, instr: Bits, start: Word, wb: Word): Core
  {
    var d := StoreAll(UserRegisters(BusUsed(c)), RegList(instr), start);
    StoreFinished(if d.aborted then d else OwnRegisters(d), pins, instr, wb)
  }

  // ---------------------------------------------------------------------------------------------
  // The same as the emulator does it, on the machine

  method LoadRegister(state: ArmState, r: RegNo, a: Word)
    requires state.Valid()
    modifies state`AbortSig, state`Aborted, state.Reg
    ensures state.Value() == LoadOne(old(state.Value()), r, a)
  {
    hide WordAt, ReadDone;
    var dest := ReadWord(state, a);
    if !state.AbortSig && !state.Aborted {
      state.Reg[r] := dest;
    } else {
      state.Aborted := true;
    }
  }

  method StoreRegister(state: ArmState, r: RegNo, a: Word)
    requires state.Valid()
    modifies state`AbortSig, state`Aborted, state`Mem
    ensures state.Value() == StoreOne(old(state.Value()), r, a)
  {
    hide WriteDone;
    WriteWord(state, a, state.Reg[r]);
    if state.AbortSig {
      state.Aborted := true;
    }
  }

  /** The search for the first register of the list. */
  method FirstRegister(instr: Bits) returns (first: nat)
    requires RegList(instr) != []
    ensures first < 16 && Bit(instr, first) && RegList(instr) == ListFrom(instr, first)
  {
    var temp := 0;
    while !Bit(instr, temp)
      invariant temp <= 15 && RegList(instr) == ListFrom(instr, temp)
      decreases 16 - temp
    {
      temp := temp + 1;
    }
    first := temp;
  }

  method LoadSRegister(state: ArmState, r: RegNo, a: Word)
    requires state.Valid()
    modifies state`AbortSig, state`Aborted, state.Reg
    ensures state.Value() == SLoadOne(old(state.Value()), r, a)
  {
    hide WordAt, ReadDone;
    var dest := ReadWord(state, a);
    if !state.AbortSig {
      state.Reg[r] := dest;
    } else {
      state.Aborted := true;
    }
  }

  /** The loop over the registers after the first one. */
  method LoadRest(state: ArmState, instr: Bits, first: nat, start: Word)
    requires state.Valid() && first < 16
    modifies state`AbortSig, state`Aborted, state.Reg
    ensures var c := old(state.Value());
            state.Value() == if c.aborted then c else LoadAll(c, ListFrom(instr, first + 1), Plus(start, Word(4)))
  {
    hide LoadOne, Plus;
    ghost var before := state.Value();
    var address := start;
    var temp := first + 1;
    while temp < 16 && !state.Aborted
      invariant temp <= 16
      invariant before.aborted ==> state.Value() == before
      invariant before.aborted || LoadAll(before, ListFrom(instr, first + 1), Plus(start, Word(4)))
             == if state.Aborted then state.Value() else LoadAll(state.Value(), ListFrom(instr, temp), Plus(address, Word(4)))
      decreases 16 - temp
    {
      if Bit(instr, temp) {
        address := Plus(address, Word(4));
        LoadRegister(state, temp, address);
      }
      temp := temp + 1;
    }
  }

  /** All the loads of LoadMult. */
  method LoadRegisters(state: ArmState, instr: Bits, start: Word)
    requires state.Valid() && RegList(instr) != []
    modifies state`AbortSig, state`Aborted, state.Reg
    ensures state.Value() == LoadAll(old(state.Value()), RegList(instr), start)
  {
    hide LoadOne, Plus;
    var first := FirstRegister(instr);
    LoadRegister(state, first, start);
    LoadRest(state, instr, first, start);
  }

  /** All the loads of LoadSMult. */
  method LoadSRegisters(state: ArmState, instr: Bits, start: Word)
    requires state.Valid() && RegList(instr) != []
    modifies state`AbortSig, state`Aborted, state.Reg
    ensures state.Value() == SLoadAll(old(state.Value()), RegList(instr), start)
  {
    hide SLoadOne, LoadAll, Plus;
    var first := FirstRegister(instr);
    LoadSRegister(state, first, start);
    LoadRest(state, instr, first, start);
  }

  /** The loops of StoreMult and StoreSMult. */
  method StoreRegisters(state: ArmState, instr: Bits, start: Word)
    requires state.Valid() && RegList(instr) != []
    modifies state`AbortSig, state`Aborted, state`Mem
    ensures state.Value() == StoreAll(old(state.Value()), RegList(instr), start)
  {
    hide StoreOne, Plus;
    ghost var before := state.Value();
    var first := FirstRegister(instr);
    var address := start;
    StoreRegister(state, first, address);
    var temp := first + 1;
    while temp < 16 && !state.Aborted
      invariant temp <= 16
      invariant StoreAll(before, RegList(instr), start)
             == if state.Aborted then state.Value() else StoreAll(state.Value(), ListFrom(instr, temp), Plus(address, Word(4)))
      decreases 16 - temp
    {
      if Bit(instr, temp) {
        address := Plus(address, Word(4));
        StoreRegister(state, temp, address);
      }
      temp := temp + 1;
    }
  }

  method WriteBase(state: ArmState, instr: Bits, wb: Word)
    requires state.Valid()
    modifies state.Reg
    ensures state.Value() == BaseWritten(old(state.Value()), instr, wb)
  {
    hide Rn, BitAt;
    if BitAt(instr, 21) && Rn(instr) != 15 {
      state.Reg[Rn(instr)] := wb;
    }
  }

  method UseBus(state: ArmState)
    requires state.Valid()
    modifies state`NextInstr
    ensures state.Value() == BusUsed(old(state.Value()))
  {
    if state.NextInstr % 2 == 0 {
      state.NextInstr := state.NextInstr + 1;
    }
  }

  method FinishLoad(state: ArmState, instr: Bits, wb: Word)
    requires state.Valid() && !Is26Bit(state.Mode)
    modifies state, state.Reg, state.RegBank, state.Spsr
    ensures state.Value() == LoadFinished(old(state.Value()), state.pins, instr, wb)
  {
    hide Entered, BaseWritten, R15Branched, BitAt;
    if state.Aborted {
      Abort(state, DataAbort);
    } else {
      if BitAt(instr, 15) {
        WriteR15Branch(state, state.Reg[15]);
      }
      WriteBase(state, instr, wb);
    }
  }

  method LoadMult(state: ArmState, instr: Bits, address: Word, wbBase: Word)
    requires state.Valid() && RegList(instr) != [] && !Is26Bit(state.Mode)
    modifies state, state.Reg, state.RegBank, state.Spsr
    ensures state.Value() == Loaded(old(state.Value()), state.pins, instr, address, wbBase)
  {
    hide LoadAll, LoadFinished, RegList, Is26Bit;
    LoadRegisters(state, instr, address);
    FinishLoad(state, instr, wbBase);
  }

  method FinishStore(state: ArmState, instr: Bits, wb: Word)
    requires state.Valid() && !Is26Bit(state.Mode)
    modifies state, state.Reg, state.RegBank, state.Spsr
    ensures state.Value() == StoreFinished(old(state.Value()), state.pins, instr, wb)
  {
    hide Entered, BaseWritten, Is26Bit;
    if !(state.AbortSig && state.Aborted && !state.pins.lateabt) {
      WriteBase(state, instr, wb);
    }
    if state.Aborted {
      Abort(state, DataAbort);
    }
  }

  method StoreMult(state: ArmState, instr: Bits, address: Word, wbBase: Word)
    requires state.Valid() && RegList(instr) != [] && !Is26Bit(state.Mode)
    modifies state, state.Reg, state.RegBank, state.Spsr
    ensures state.Value() == Stored(old(state.Value()), state.pins, instr, address, wbBase)
  {
    hide StoreAll, StoreFinished, RegList, Is26Bit, BusUsed;
    if !state.TFlag {
      UseBus(state);
    }
    StoreRegisters(state, instr, address);
    FinishStore(state, instr, wbBase);
  }

  /** The registers of the user bank come in for the transfer, */
  method UseUserRegisters(state: ArmState)
    requires state.Valid()
    modifies state`Bank, state.Reg, state.RegBank
    ensures state.Value() == UserRegisters(old(state.Value()))
  {
    hide Switched;
    if state.Bank != USERBANK {
      var _ := SwitchMode(state, state.Mode, USER26MODE);
    }
  }

  /** and go out after it. */
  method UseOwnRegisters(state: ArmState)
    requires state.Valid()
    modifies state`Bank, state.Reg, state.RegBank
    ensures state.Value() == OwnRegisters(old(state.Value()))
  {
    hide Switched, IsUser;
    if !IsUser(state.Mode) {
      var _ := SwitchMode(state, USER26MODE, state.Mode);
    }
  }

  method SBase(state: ArmState, instr: Bits, wb: Word)
    requires state.Valid() && !Is26Bit(state.Mode)
    modifies state, state.Reg, state.RegBank, state.Spsr
    ensures state.Value() == SBaseDone(old(state.Value()), state.pins, instr, wb)
  {
    hide Entered, BaseWritten, Is26Bit;
    if state.Aborted {
      if !(state.AbortSig && !state.pins.lateabt) {
        WriteBase(state, instr, wb);
      }
      Abort(state, DataAbort);
    } else {
      WriteBase(state, instr, wb);
    }
  }

  method FinishSLoad(state: ArmState, instr: Bits, wb: Word)
    requires state.Valid() && !Is26Bit(state.Mode)
    modifies state, state.Reg, state.RegBank, state.Spsr
    ensures state.Value() == SLoadFinished(old(state.Value()), state.pins, instr, wb)
  {
    hide SBaseDone, OwnRegisters, R15Written, PsrRestored, IsUser, BitAt, Is26Bit;
    SBase(state, instr, wb);
    if !BitAt(instr, 15) {
      UseOwnRegisters(state);
    } else if !state.Aborted {
      if !IsUser(state.Mode) {
        RestorePsr(state);
      }
      WriteR15(state, state.Reg[15]);
    }
  }

  method LoadSMult(state: ArmState, instr: Bits, address: Word, wbBase: Word)
    requires state.Valid() && RegList(instr) != [] && !Is26Bit(state.Mode)
    modifies state, state.Reg, state.RegBank, state.Spsr
    ensures state.Value() == SLoaded(old(state.Value()), state.pins, instr, address, wbBase)
  {
    hide SLoadAll, SLoadFinished, UserRegisters, RegList, Is26Bit, BitAt;
    if !BitAt(instr, 15) {
      UseUserRegisters(state);
    }
    LoadSRegisters(state, instr, address);
    FinishSLoad(state, instr, wbBase);
  }

  method StoreSMult(state: ArmState, instr: Bits, address: Word, wbBase: Word)
    requires state.Valid() && RegList(instr) != [] && !Is26Bit(state.Mode)
    modifies state, state.Reg, state.RegBank, state.Spsr
    ensures state.Value() == SStored(old(state.Value()), state.pins, instr, address, wbBase)
  {
    hide StoreAll, StoreFinished, UserRegisters, OwnRegisters, RegList, Is26Bit, BusUsed;
    UseBus(state);
    UseUserRegisters(state);
    StoreRegisters(state, instr, address);
    if !state.Aborted {
      UseOwnRegisters(state);
    }
    FinishStore(state, instr, wbBase);
  }
}
