/** arch_arm/common/armsupp.c: register banks and program status registers. */
module Support {
  import opened Words
  import opened State

  /** ModeToBank: the bank a mode's registers live in. */
  function ModeToBank(mode: Word): BankNo
  {
    var m := mode.bits;
    if m == 0 || m == 16 || m == 31 then USERBANK
    else if m == 1 || m == 17 then FIQBANK
    else if m == 2 || m == 18 then IRQBANK
    else if m == 3 || m == 19 then SVCBANK
    else if m == 23 then ABORTBANK
    else if m == 27 then UNDEFBANK
    else DUMMYBANK
  }

  predicate CanAccessSpsr(b: BankNo) { b != USERBANK && b != DUMMYBANK }

  // ---------------------------------------------------------------------------------------------
  // ARMul_SwitchMode

  function Splice(row: Row, from: Row, lo: RegNo, hi: RegNo): (r: Row)
    requires lo <= hi
    ensures forall k: RegNo :: r[k] == if lo <= k < hi then from[k] else row[k]
  {
    row[..lo] + from[lo..hi] + row[hi..]
  }

  lemma SpliceNone(row: Row, from: Row, lo: RegNo)
    ensures Splice(row, from, lo, lo) == row
  {}

  lemma SpliceStep(row: Row, from: Row, lo: RegNo, k: RegNo)
    requires lo <= k < 15
    ensures Splice(row, from, lo, k)[k := from[k]] == Splice(row, from, lo, k + 1)
  {}

  /** RegBank after the registers of `oldbank` have been saved. */
  function Saved(m: Matrix, reg: Row, oldbank: BankNo, newbank: BankNo): Matrix
  {
    if oldbank == FIQBANK then
      m[FIQBANK := Splice(m[FIQBANK], reg, 8, 15)]
    else if oldbank == DUMMYBANK then
      m[DUMMYBANK := Splice(m[DUMMYBANK], ZEROS, 8, 15)]
    else
      var m1 := if newbank == FIQBANK then m[USERBANK := Splice(m[USERBANK], reg, 8, 13)] else m;
      m1[oldbank := Splice(m1[oldbank], reg, 13, 15)]
  }

  /** The current registers after those of `newbank` have been restored from m. */
  function Restored(reg: Row, m: Matrix, oldbank: BankNo, newbank: BankNo): Row
  {
    if newbank == FIQBANK then
      Splice(reg, m[FIQBANK], 8, 15)
    else if newbank == DUMMYBANK then
      Splice(reg, ZEROS, 8, 15)
    else
      var r := if oldbank == FIQBANK then Splice(reg, m[USERBANK], 8, 13) else reg;
      Splice(r, m[newbank], 13, 15)
  }

  function Moved(c: Core, oldbank: BankNo, newbank: BankNo): Core
  {
    var m := Saved(c.bank, c.reg, oldbank, newbank);
    c.(bank := m, reg := Restored(c.reg, m, oldbank, newbank))
  }

  /** What ARMul_SwitchMode does to the state. */
  function Switched(c: Core, oldmode: Word, newmode: Word): Core
  {
    var oldbank, newbank := ModeToBank(oldmode), ModeToBank(newmode);
    if oldbank == newbank then c.(bankNo := newbank) else Moved(c.(bankNo := newbank), oldbank, newbank)
  }

  /** ARMul_SwitchMode. */
  method SwitchMode(state: ArmState, oldmode: Word, newmode: Word) returns (mode: Word)
    requires state.Valid()
    modifies state`Bank, state.Reg, state.RegBank
    ensures mode == newmode
    ensures state.Value() == Switched(old(state.Value()), oldmode, newmode)
  {
    var oldbank := ModeToBank(oldmode);
    var newbank := ModeToBank(newmode);
    state.Bank := newbank;
    if oldbank != newbank {
      MoveBanks(state, oldbank, newbank);
    }
    mode := newmode;
  }

  method MoveBanks(state: ArmState, oldbank: BankNo, newbank: BankNo)
    requires state.Valid()
    modifies state.Reg, state.RegBank
    ensures state.Value() == Moved(old(state.Value()), oldbank, newbank)
  {
    hide Splice, Saved, Restored;
    SaveOld(state, oldbank, newbank);
    RestoreNew(state, oldbank, newbank);
  }

  /** The first switch statement: RegBank receives the registers of the bank that is left. */
  method SaveOld(state: ArmState, oldbank: BankNo, newbank: BankNo)
    requires state.Valid()
    modifies state.RegBank
    ensures state.RegBank[..] == Saved(old(state.RegBank[..]), state.Reg[..], oldbank, newbank)
  {
    if oldbank == FIQBANK {
      SaveRange(state, FIQBANK, state.Reg[..], 8, 15);
    } else if oldbank == DUMMYBANK {
      SaveRange(state, DUMMYBANK, ZEROS, 8, 15);
    } else {
      if newbank == FIQBANK {
        SaveRange(state, USERBANK, state.Reg[..], 8, 13);
      }
      SaveRange(state, oldbank, state.Reg[..], 13, 15);
    }
  }

  /** The second one: Reg receives those of the bank that is entered. */
  method RestoreNew(state: ArmState, oldbank: BankNo, newbank: BankNo)
    requires state.Valid()
    modifies state.Reg
    ensures state.Reg[..] == Restored(old(state.Reg[..]), state.RegBank[..], oldbank, newbank)
  {
    if newbank == FIQBANK {
      RestoreRange(state, state.RegBank[FIQBANK], 8, 15);
    } else if newbank == DUMMYBANK {
      RestoreRange(state, ZEROS, 8, 15);
    } else {
      if oldbank == FIQBANK {
        RestoreRange(state, state.RegBank[USERBANK], 8, 13);
      }
      RestoreRange(state, state.RegBank[newbank], 13, 15);
    }
  }

  // The loops of ARMul_SwitchMode: RegBank[b][i] = Reg[i], Reg[i] = RegBank[b][i], and their zeroing forms.

  method SaveRange(state: ArmState, b: BankNo, from: seq<Word>, lo: RegNo, hi: RegNo)
    requires state.Valid() && |from| == 16 && lo <= hi
    modifies state.RegBank
    ensures state.RegBank[..] == old(state.RegBank[..])[b := Splice(old(state.RegBank[b]), from, lo, hi)]
  {
    ghost var row := state.RegBank[b];
    SpliceNone(row, from, lo);
    for k := lo to hi
      invariant state.RegBank[..] == old(state.RegBank[..])[b := Splice(row, from, lo, k)]
    {
      state.RegBank[b] := state.RegBank[b][k := from[k]];
      SpliceStep(row, from, lo, k);
    }
  }

  method RestoreRange(state: ArmState, from: seq<Word>, lo: RegNo, hi: RegNo)
    requires state.Valid() && |from| == 16 && lo <= hi
    modifies state.Reg
    ensures state.Reg[..] == Splice(old(state.Reg[..]), from, lo, hi)
  {
    ghost var row := state.Reg[..];
    SpliceNone(row, from, lo);
    for k := lo to hi
      invariant state.Reg[..] == Splice(row, from, lo, k)
    {
      state.Reg[k] := from[k];
      SpliceStep(row, from, lo, k);
    }
  }

  // ---------------------------------------------------------------------------------------------
  // Program status registers

  function When(b: bool, w: Bits): Bits { if b then w else 0 }

  /** The ECC macro. */
  function Ecc(n: bool, z: bool, c: bool, v: bool, s: bool): Bits
  {
    When(n, 0x8000_0000) | When(z, 0x4000_0000) | When(c, 0x2000_0000) | When(v, 0x1000_0000)
    | When(s, 0x0800_0000)
  }

  /** The CPSR macro: the flags, interrupt masks, Thumb bit and mode packed into a word. */
  function Pack(n: bool, z: bool, c: bool, v: bool, s: bool, i: bool, f: bool, mode: Bits, t: bool): Bits
  {
    Ecc(n, z, c, v, s) | When(i, 0x80) | When(f, 0x40) | mode | When(t, 0x20)
  }

  function GetCpsr(c: Core): Word { Word(Pack(c.n, c.z, c.c, c.v, c.s, c.i, c.f, c.mode.bits, c.t)) }

  function Masked(w: Word, m: Bits): Word { Word(w.bits & m) }

  function FlagsFrom(c: Core, psr: Word): Core
  {
    c.(i := BitAt(psr.bits, 7), f := BitAt(psr.bits, 6), n := BitAt(psr.bits, 31), z := BitAt(psr.bits, 30),
       c := BitAt(psr.bits, 29), v := BitAt(psr.bits, 28), s := BitAt(psr.bits, 27), t := BitAt(psr.bits, 5))
  }

  predicate Is26Bit(mode: Word) { mode.bits <= 3 }

  /** r15 of a 26-bit mode: ECC | ER15INT | EMODE | R15PC. */
  function PackedR15(c: Core): Word
  {
    Packed(Ecc(c.n, c.z, c.c, c.v, c.s), c.i, c.f, c.mode, c.reg[15])
  }

  function Packed(ecc: Bits, i: bool, f: bool, mode: Word, r15: Word): Word
  {
    Word(ecc | When(i, 0x0800_0000) | When(f, 0x0400_0000) | mode.bits | (r15.bits & 0x03FF_FFFF))
  }

  /** r15 when one of the two modes is a 26-bit mode; unchanged between 32-bit modes. */
  function R15Altered(c: Core, oldmode: Word): Core
  {
    if Is26Bit(c.mode) then c.(reg := c.reg[15 := PackedR15(c)])
    else if Is26Bit(oldmode) then c.(reg := c.reg[15 := Masked(c.reg[15], 0x03FF_FFFF)])
    else c
  }

  function ModeSwitched(c: Core, mode: Word): Core
  {
    if c.mode == mode then c else Switched(c, c.mode, mode).(mode := mode)
  }

  /** What ARMul_CPSRAltered does, with prog32Sig high. */
  function CpsrAltered(c: Core): Core
  {
    R15Altered(FlagsFrom(ModeSwitched(c, Masked(c.cpsr, 0x1F)), c.cpsr), c.mode)
  }

  function SetCpsr(c: Core, value: Word): Core { CpsrAltered(c.(cpsr := value)) }

  /** The field mask of an MSR instruction: bits 16 to 19 select the control, extension, status and
      flag bytes. */
  function FieldMask(instr: Bits, onlyFlags: bool): Bits
  {
    When(!onlyFlags && BitAt(instr, 16), 0x0000_00FF) | When(!onlyFlags && BitAt(instr, 17), 0x0000_FF00)
    | When(!onlyFlags && BitAt(instr, 18), 0x00FF_0000) | When(BitAt(instr, 19), 0xFF00_0000)
  }

  /** The SETPSR_x macros: the bytes of `d` in the mask come from s. */
  function SetPsr(d: Word, s: Word, mask: Bits): Word { Word((d.bits & !mask) | (s.bits & mask)) }

  predicate IsUser(mode: Word) { mode == USER26MODE || mode == USER32MODE }

  /** What ARMul_FixCPSR does. */
  function FixedCpsr(c: Core, instr: Bits, rhs: Word): Core
  {
    SetCpsr(c, SetPsr(GetCpsr(c), rhs, FieldMask(instr, IsUser(c.mode))))
  }

  /** ARMul_GetSPSR. */
  function GetSpsr(c: Core, mode: Word): Word
  {
    var b := ModeToBank(Masked(mode, 0x1F));
    if CanAccessSpsr(b) then c.spsr[b] else GetCpsr(c)
  }

  /** What ARMul_SetSPSR does. */
  function SpsrSet(c: Core, mode: Word, value: Word): Core
  {
    var b := ModeToBank(Masked(mode, 0x1F));
    if CanAccessSpsr(b) then c.(spsr := c.spsr[b := value]) else c
  }

  /** What ARMul_FixSPSR does. */
  function FixedSpsr(c: Core, instr: Bits, rhs: Word): Core
  {
    if CanAccessSpsr(c.bankNo) then
      c.(spsr := c.spsr[c.bankNo := SetPsr(c.spsr[c.bankNo], rhs, FieldMask(instr, false))])
    else c
  }

  method GetCPSR(state: ArmState) returns (w: Word)
    requires state.Valid()
    ensures w == GetCpsr(state.Value())
  {
    w := Word(Pack(state.NFlag, state.ZFlag, state.CFlag, state.VFlag, state.SFlag, state.IFlag, state.FFlag,
                   state.Mode.bits, state.TFlag));
  }

  method SetCPSR(state: ArmState, value: Word)
    requires state.Valid()
    modifies state, state.Reg, state.RegBank
    ensures state.Value() == SetCpsr(old(state.Value()), value)
  {
    hide CpsrAltered;
    state.Cpsr := value;
    CPSRAltered(state);
  }

  method FixCPSR(state: ArmState, instr: Bits, rhs: Word)
    requires state.Valid()
    modifies state, state.Reg, state.RegBank
    ensures state.Value() == FixedCpsr(old(state.Value()), instr, rhs)
  {
    hide SetCpsr, SetPsr, FieldMask, GetCpsr;
    var cpsr := GetCPSR(state);
    var mask := FieldMask(instr, IsUser(state.Mode));
    SetCPSR(state, SetPsr(cpsr, rhs, mask));
  }

  method GetSPSR(state: ArmState, mode: Word) returns (w: Word)
    requires state.Valid()
    ensures w == GetSpsr(state.Value(), mode)
  {
    hide ModeToBank, GetCpsr;
    var bank := ModeToBank(Masked(mode, 0x1F));
    if CanAccessSpsr(bank) {
      w := state.Spsr[bank];
    } else {
      w := GetCPSR(state);
    }
  }

  method SetSPSR(state: ArmState, mode: Word, value: Word)
    requires state.Valid()
    modifies state.Spsr
    ensures state.Value() == SpsrSet(old(state.Value()), mode, value)
  {
    hide ModeToBank;
    var bank := ModeToBank(Masked(mode, 0x1F));
    if CanAccessSpsr(bank) {
      state.Spsr[bank] := value;
    }
  }

  method FixSPSR(state: ArmState, instr: Bits, rhs: Word)
    requires state.Valid()
    modifies state.Spsr
    ensures state.Value() == FixedSpsr(old(state.Value()), instr, rhs)
  {
    hide SetPsr, FieldMask;
    if CanAccessSpsr(state.Bank) {
      state.Spsr[state.Bank] := SetPsr(state.Spsr[state.Bank], rhs, FieldMask(instr, false));
    }
  }

  method CPSRAltered(state: ArmState)
    requires state.Valid()
    modifies state, state.Reg, state.RegBank
    ensures state.Value() == CpsrAltered(old(state.Value()))
  {
    hide ModeSwitched, R15Altered, Masked, BitAt;
    var oldmode := state.Mode;
    var psr := state.Cpsr.bits;
    SwitchIfOther(state, Masked(state.Cpsr, 0x1F));
    AssignFlags(state, BitAt(psr, 31), BitAt(psr, 30), BitAt(psr, 29), BitAt(psr, 28), BitAt(psr, 27),
                BitAt(psr, 7), BitAt(psr, 6), BitAt(psr, 5));
    FixR15(state, oldmode);
  }

  method SwitchIfOther(state: ArmState, mode: Word)
    requires state.Valid()
    modifies state, state.Reg, state.RegBank
    ensures state.Value() == ModeSwitched(old(state.Value()), mode)
  {
    hide Switched;
    if state.Mode != mode {
      var m := SwitchMode(state, state.Mode, mode);
      state.Mode := m;
    }
  }

  /** ASSIGNN, ..., ASSIGNINT, ASSIGNT. */
  method AssignFlags(state: ArmState, n: bool, z: bool, c: bool, v: bool, s: bool, i: bool, f: bool, t: bool)
    requires state.Valid()
    modifies state
    ensures state.Value() == old(state.Value()).(n := n, z := z, c := c, v := v, s := s, i := i, f := f, t := t)
  {
    state.IFlag, state.FFlag := i, f;
    state.NFlag, state.ZFlag, state.CFlag, state.VFlag := n, z, c, v;
    state.SFlag := s;
    state.TFlag := t;
  }

  method FixR15(state: ArmState, oldmode: Word)
    requires state.Valid()
    modifies state.Reg
    ensures state.Value() == R15Altered(old(state.Value()), oldmode)
  {
    hide Ecc, Masked, Packed;
    if Is26Bit(state.Mode) {
      var ecc := Ecc(state.NFlag, state.ZFlag, state.CFlag, state.VFlag, state.SFlag);
      state.Reg[15] := Packed(ecc, state.IFlag, state.FFlag, state.Mode, state.Reg[15]);
    } else if Is26Bit(oldmode) {
      state.Reg[15] := Masked(state.Reg[15], 0x03FF_FFFF);
    }
  }
}
