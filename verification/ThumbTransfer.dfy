/** Thumb translation preserves meaning: formats 6 to 13, loads and stores, and address arithmetic. */
module ThumbTransfer {
  import opened Words
  import opened State
  import opened Support
  import opened DataPath
  import opened Exceptions
  import opened Block
  import opened Single
  import opened Manual
  import opened Execute
  import T = Thumb
  import opened ThumbMeaning
  import opened ThumbProof

  // ---------------------------------------------------------------------------------------------
  // The fetch state does not matter to exception entry

  lemma MovedSame(c: Core, d: Core, oldbank: BankNo, newbank: BankNo)
    requires Same(c, d)
    ensures Same(Moved(c, oldbank, newbank), Moved(d, oldbank, newbank))
  {
    hide Saved, Restored;
  }

  lemma BankSame(c: Core, d: Core, b: BankNo, mode: Word)
    requires Same(c, d)
    ensures Same(c.(bankNo := b), d.(bankNo := b)) && Same(c.(mode := mode), d.(mode := mode)) && c.mode == d.mode
  {}

  lemma SwitchedOnly(c: Core, d: Core, oldmode: Word, mode: Word)
    requires Same(c, d)
    ensures Same(Switched(c, oldmode, mode), Switched(d, oldmode, mode))
  {
    hide Moved, ModeToBank, Same;
    var oldbank, newbank := ModeToBank(oldmode), ModeToBank(mode);
    BankSame(c, d, newbank, mode);
    MovedSame(c.(bankNo := newbank), d.(bankNo := newbank), oldbank, newbank);
  }

  lemma SwitchedSame(c: Core, d: Core, mode: Word)
    requires Same(c, d)
    ensures Same(ModeSwitched(c, mode), ModeSwitched(d, mode))
  {
    hide Switched, Same;
    BankSame(c, d, 0, mode);
    SwitchedOnly(c, d, c.mode, mode);
    BankSame(Switched(c, c.mode, mode), Switched(d, c.mode, mode), 0, mode);
  }

  lemma FlagsSame(c: Core, d: Core, psr: Word)
    requires Same(c, d)
    ensures Same(FlagsFrom(c, psr), FlagsFrom(d, psr))
  {
    hide BitAt;
  }

  lemma RegSame(c: Core, d: Core, r: Row)
    requires Same(c, d)
    ensures Same(c.(reg := r), d.(reg := r)) && c.reg == d.reg && c.mode == d.mode
  {}

  lemma PackedSame(c: Core, d: Core)
    requires Same(c, d)
    ensures PackedR15(c) == PackedR15(d)
  {
    hide Packed, Ecc;
  }

  lemma R15Same(c: Core, d: Core, oldmode: Word)
    requires Same(c, d)
    ensures Same(R15Altered(c, oldmode), R15Altered(d, oldmode))
  {
    hide PackedR15, Masked, Is26Bit, Same;
    PackedSame(c, d);
    RegSame(c, d, c.reg[15 := PackedR15(c)]);
    RegSame(c, d, c.reg[15 := Masked(c.reg[15], 0x03FF_FFFF)]);
  }

  lemma AlteredSame(c: Core, d: Core, psr: Word, oldmode: Word)
    requires Same(c, d)
    ensures Same(R15Altered(FlagsFrom(c, psr), oldmode), R15Altered(FlagsFrom(d, psr), oldmode))
  {
    hide *;
    FlagsSame(c, d, psr);
    R15Same(FlagsFrom(c, psr), FlagsFrom(d, psr), oldmode);
  }

  lemma SetCpsrSame(c: Core, d: Core, w: Word)
    requires Same(c, d)
    ensures Same(SetCpsr(c, w), SetCpsr(d, w))
  {
    hide ModeSwitched, R15Altered, FlagsFrom, Masked;
    var x, y := c.(cpsr := w), d.(cpsr := w);
    SwitchedSame(x, y, Masked(w, 0x1F));
    AlteredSame(ModeSwitched(x, Masked(w, 0x1F)), ModeSwitched(y, Masked(w, 0x1F)), w, c.mode);
  }

  lemma SpsrSame(c: Core, d: Core, e: Exception, w: Word)
    requires Same(c, d)
    ensures Same(SpsrSet(c, EntryMode(e), w), SpsrSet(d, EntryMode(e), w))
  {
    hide ModeToBank, Masked, EntryMode;
  }

  lemma VectoredSame(c: Core, d: Core, lr: Word, pc: Word)
    requires Same(c, d)
    ensures Same(Vectored(c, lr, pc), Vectored(d, lr, pc))
  {
    hide Refilled;
  }

  lemma StatusSame(c: Core, d: Core, e: Exception)
    requires Same(c, d)
    ensures GetCpsr(c) == GetCpsr(d) && EntryCpsr(c, e) == EntryCpsr(d, e) && c.reg[15] == d.reg[15] && c.t == d.t
    ensures Same(c.(aborted := false), d.(aborted := false))
  {
    StatusAlone(c, d, e);
    hide GetCpsr, EntryCpsr;
  }

  lemma PsrsSame(c: Core, d: Core, e: Exception)
    requires Same(c, d)
    ensures Same(PsrsChanged(c, e), PsrsChanged(d, e))
  {
    hide Same, GetCpsr, EntryCpsr, SetCpsr, SpsrSet, EntryMode;
    StatusSame(c, d, e);
    SpsrSame(c, d, e, GetCpsr(c));
    SetCpsrSame(SpsrSet(c, EntryMode(e), GetCpsr(c)), SpsrSet(d, EntryMode(e), GetCpsr(c)), EntryCpsr(c, e));
  }

  lemma EnteredSame(c: Core, d: Core, pins: Pins, e: Exception)
    requires Same(c, d)
    ensures Same(Entered(c, pins, e), Entered(d, pins, e))
  {
    hide *;
    StatusSame(c, d, e);
    PsrsSame(c.(aborted := false), d.(aborted := false), e);
    EnteredParts(c, pins, e);
    EnteredParts(d, pins, e);
    VectoredSame(PsrsChanged(c.(aborted := false), e), PsrsChanged(d.(aborted := false), e), Link(e, c.reg[15], c.t),
                 Plus(Vector(e), VectorBase(pins)));
  }

  // ---------------------------------------------------------------------------------------------
  // Loads and stores

  lemma LoadMapped(c: Core, pins: Pins, w: Bits, a: Word, width: Width, signed: bool)
    requires !c.aborted && Rd(w) != 15 && WordNo(a) in c.mem
    ensures LoadDone(c, pins, w, a, width, signed)
         == Put(c, Rd(w), Loadable(c.mem[WordNo(a)].bits, a, width, signed, pins.bigend)).(abortSig := false)
  {
    hide Rd, Loadable, WordNo;
  }

  lemma LoadFaults(c: Core, pins: Pins, w: Bits, a: Word, width: Width, signed: bool)
    requires WordNo(a) !in c.mem
    ensures LoadDone(c, pins, w, a, width, signed) == Entered(c.(abortSig := true, aborted := true), pins, DataAbort)
  {
    hide Rd, Loadable, WordNo, Entered;
  }

  lemma StoreMapped(c: Core, pins: Pins, w: Bits, a: Word, width: Width)
    requires !c.aborted && WordNo(a) in c.mem
    ensures StoreDone(c, pins, w, a, width)
         == BusUsed(c).(abortSig := false,
                        mem := c.mem[WordNo(a) := Storable(c.mem[WordNo(a)].bits, a, c.reg[Rd(w)], width, pins.bigend)])
  {
    hide Rd, Storable, WordNo, Entered;
  }

  lemma StoreFaults(c: Core, pins: Pins, w: Bits, a: Word, width: Width)
    requires WordNo(a) !in c.mem
    ensures StoreDone(c, pins, w, a, width) == Entered(BusUsed(c).(abortSig := true, aborted := true), pins, DataAbort)
  {
    hide Rd, Storable, WordNo, Entered;
  }

  lemma LoadMeans(c: Core, pins: Pins, width: Width, signed: bool, rd: RegNo, a: Word)
    requires WordNo(a) in c.mem
    ensures TransferMeaning(c, pins, true, width, signed, rd, a)
         == Put(c, rd, Loadable(c.mem[WordNo(a)].bits, a, width, signed, pins.bigend))
  {
    hide Loadable, Storable, WordNo, Put;
  }

  lemma StoreMeans(c: Core, pins: Pins, width: Width, signed: bool, rd: RegNo, a: Word)
    requires WordNo(a) in c.mem
    ensures TransferMeaning(c, pins, false, width, signed, rd, a)
         == c.(mem := c.mem[WordNo(a) := Storable(c.mem[WordNo(a)].bits, a, c.reg[rd], width, pins.bigend)])
  {
    hide Loadable, Storable, WordNo, Put;
  }

  lemma MeaningFaults(c: Core, pins: Pins, load: bool, width: Width, signed: bool, rd: RegNo, a: Word)
    requires WordNo(a) !in c.mem
    ensures TransferMeaning(c, pins, load, width, signed, rd, a) == Entered(c.(aborted := true), pins, DataAbort)
  {
    hide Loadable, Storable, WordNo, Entered;
  }

  lemma SignalCleared(c: Core)
    ensures Same(c, c.(abortSig := false))
  {}

  lemma StoredSame(c: Core, m: Memory)
    ensures Same(c.(mem := m), BusUsed(c).(abortSig := false, mem := m))
  {}

  lemma SignalSet(c: Core)
    ensures Same(c.(aborted := true), c.(abortSig := true, aborted := true))
  {}

  lemma StoreAborted(c: Core)
    ensures Same(c.(aborted := true), BusUsed(c).(abortSig := true, aborted := true))
  {}

  lemma SignalSame(c: Core, m: Memory)
    ensures Same(c, c.(abortSig := false)) && Same(c.(mem := m), BusUsed(c).(abortSig := false, mem := m))
    ensures Same(c.(aborted := true), c.(abortSig := true, aborted := true))
    ensures Same(c.(aborted := true), BusUsed(c).(abortSig := true, aborted := true))
  {
    hide *;
    SignalCleared(c);
    StoredSame(c, m);
    SignalSet(c);
    StoreAborted(c);
  }

  function Performed(c: Core, pins: Pins, w: Bits, load: bool, width: Width, signed: bool, a: Word): Core
  {
    if load then LoadDone(c, pins, w, a, width, signed) else StoreDone(c, pins, w, a, width)
  }

  lemma PerformedIs(c: Core, pins: Pins, w: Bits, load: bool, width: Width, signed: bool, a: Word)
    ensures load ==> Performed(c, pins, w, load, width, signed, a) == LoadDone(c, pins, w, a, width, signed)
    ensures !load ==> Performed(c, pins, w, load, width, signed, a) == StoreDone(c, pins, w, a, width)
  {
    hide LoadDone, StoreDone;
  }

  /** A load or store is the same in ARM and Thumb terms. */
  lemma TransferSame(c: Core, pins: Pins, w: Bits, load: bool, width: Width, signed: bool, a: Word)
    requires !c.aborted && Rd(w) != 15
    ensures Same(TransferMeaning(c, pins, load, width, signed, Rd(w), a), Performed(c, pins, w, load, width, signed, a))
  {
    hide *;
    PerformedIs(c, pins, w, load, width, signed, a);
    if WordNo(a) in c.mem {
      if load {
        LoadMeans(c, pins, width, signed, Rd(w), a);
        LoadMapped(c, pins, w, a, width, signed);
        SignalSame(Put(c, Rd(w), Loadable(c.mem[WordNo(a)].bits, a, width, signed, pins.bigend)), c.mem);
      } else {
        StoreMeans(c, pins, width, signed, Rd(w), a);
        StoreMapped(c, pins, w, a, width);
        SignalSame(c, c.mem[WordNo(a) := Storable(c.mem[WordNo(a)].bits, a, c.reg[Rd(w)], width, pins.bigend)]);
      }
    } else {
      MeaningFaults(c, pins, load, width, signed, Rd(w), a);
      SignalSame(c, c.mem);
      if load {
        LoadFaults(c, pins, w, a, width, signed);
        EnteredSame(c.(aborted := true), c.(abortSig := true, aborted := true), pins, DataAbort);
      } else {
        StoreFaults(c, pins, w, a, width);
        EnteredSame(c.(aborted := true), BusUsed(c).(abortSig := true, aborted := true), pins, DataAbort);
      }
    }
  }

  // ---------------------------------------------------------------------------------------------
  // Words and bytes: formats 6, 7, 9 and 11

  /** A pre-indexed load or store of a word or byte, upwards. */
  lemma WordExecuted(c: Core, pins: Pins, w: Bits)
    requires IsTransfer(w) && !IsMultiply(w) && !IsHalf(w) && PreIndexed(w) && BitAt(w, 23)
    ensures Supported(w)
    ensures Executed(c, pins, w)
         == Performed(c, pins, w, BitAt(w, 20), if BitAt(w, 22) then Width8 else Width32, false, Plus(Lhs(c, w), WordOffset(c, w)))
  {
    PreIndexedPlain(c, pins, w);
    hide IsTransfer, IsMultiply, IsHalf, IsData, PreIndexed, BitAt, LoadDone, StoreDone, Plus, Lhs, WordOffset, WordTransferred,
      HalfTransferred;
  }

  lemma LhsReads(c: Core, w: Bits)
    ensures Lhs(c, w) == Read(c, Rn(w))
  {
    hide Rn, Masked;
  }

  lemma ImmediateOffset(c: Core, w: Bits)
    requires !BitAt(w, 25)
    ensures WordOffset(c, w) == Word(Imm12(w))
  {
    hide BitAt, Imm12;
  }

  lemma RegisterOffset(c: Core, w: Bits)
    requires BitAt(w, 25) && Unshifted(w)
    ensures WordOffset(c, w) == c.reg[Rm(w)]
  {
    hide BitAt, Unshifted, Rm;
  }

  lemma TransferMeans(c: Core, pins: Pins, load: bool, width: Width, signed: bool, rd: RegNo, base: RegNo, o: Offset)
    ensures Meaning(c, pins, Transfer(load, width, signed, rd, base, o))
         == TransferMeaning(c, pins, load, width, signed, rd, Plus(Read(c, base), ReadOffset(c, o)))
  {
    hide TransferMeaning, Plus, Read, ReadOffset;
  }

  lemma OffsetReads(c: Core, r: RegNo, w: Word)
    ensures ReadOffset(c, Reg(r)) == c.reg[r] && ReadOffset(c, Imm(w)) == w
  {}

  /** Preserved: from every state (for a load or store, in which no abort is pending) the ARM instruction has the effect of
      the Thumb instruction, up to the fetch state. */
  predicate Preserved(c: Core, pins: Pins, w: Bits, i: Insn)
    requires i.ShiftImm? ==> i.n < 32
  {
    Supported(w) && ((c.aborted && i.Transfer?) || Same(Meaning(c, pins, i), Executed(c, pins, w)))
  }

  lemma WordTransfer(c: Core, pins: Pins, w: Bits, o: Offset)
    requires IsTransfer(w) && !IsMultiply(w) && !IsHalf(w) && PreIndexed(w) && BitAt(w, 23) && Rd(w) != 15
    requires if BitAt(w, 25) then Unshifted(w) && o == Reg(Rm(w)) else o == Imm(Word(Imm12(w)))
    ensures Preserved(c, pins, w, Transfer(BitAt(w, 20), if BitAt(w, 22) then Width8 else Width32, false, Rd(w), Rn(w), o))
  {
    hide *;
    var load, width := BitAt(w, 20), if BitAt(w, 22) then Width8 else Width32;
    WordExecuted(c, pins, w);
    LhsReads(c, w);
    if BitAt(w, 25) { RegisterOffset(c, w); } else { ImmediateOffset(c, w); }
    OffsetReads(c, Rm(w), Word(Imm12(w)));
    TransferMeans(c, pins, load, width, false, Rd(w), Rn(w), o);
    if !c.aborted { TransferSame(c, pins, w, load, width, false, Plus(Lhs(c, w), WordOffset(c, w))); }
    PreservedIs(c, pins, w, Transfer(load, width, false, Rd(w), Rn(w), o));
  }

  lemma PreservedIs(c: Core, pins: Pins, w: Bits, i: Insn)
    requires i.ShiftImm? ==> i.n < 32
    ensures Preserved(c, pins, w, i) <==> Supported(w) && ((c.aborted && i.Transfer?) || Same(Meaning(c, pins, i), Executed(c, pins, w)))
  {
    hide Supported, Same, Meaning, Executed;
  }

  predicate IsFormat6(t: Bits) { t < 0x1_0000 && (t & 0xF800) >> 11 == 9 }

  lemma Fields6(t: Bits)
    requires IsFormat6(t)
    ensures var w := T.Format6(t);
            && IsTransfer(w) && !IsMultiply(w) && !IsHalf(w) && PreIndexed(w) && BitAt(w, 23) && BitAt(w, 20) && !BitAt(w, 22)
            && !BitAt(w, 25) && Nibble(w, 12) == Field(t, 8, 7) && Nibble(w, 16) == 15 && Imm12(w) == Field(t, 0, 0xFF) << 2
  {}

  lemma Fifteen()
    ensures RegNumber(15) == 15 && RegNumber(13) == 13
  {}

  lemma Registers6(t: Bits)
    requires IsFormat6(t)
    ensures var w := T.Format6(t); Rd(w) == Low3(t, 8) && Rn(w) == PC && Rd(w) != 15
  {
    Fields6(t);
    SmallField(t, 8);
    Fifteen();
    hide RegNumber, Nibble, Field, T.Format6, BitAt, Imm12, IsTransfer, IsMultiply, IsHalf, PreIndexed;
  }

  /** LDR Rd,[PC,#imm]. */
  lemma Translates6(c: Core, pins: Pins, t: Bits)
    requires IsFormat6(t)
    ensures Preserved(c, pins, T.Format6(t), Parse6(t))
  {
    hide *;
    var w := T.Format6(t);
    Fields6(t);
    Registers6(t);
    Parsed6(t);
    WordTransfer(c, pins, w, Imm(Word(Imm12(w))));
  }

  lemma Parsed6(t: Bits)
    ensures Parse6(t) == Transfer(true, Width32, false, Low3(t, 8), PC, Imm(Word(Field(t, 0, 0xFF) << 2)))
  {}

  predicate IsFormat7(t: Bits) { t < 0x1_0000 && t & 0xF000 == 0x5000 && !BitAt(t, 9) }

  lemma Fields7(t: Bits)
    requires IsFormat7(t)
    ensures var w := T.Format7(t);
            && IsTransfer(w) && !IsMultiply(w) && !IsHalf(w) && PreIndexed(w) && BitAt(w, 23) && BitAt(w, 25) && Unshifted(w)
            && BitAt(w, 20) == BitAt(t, 11) && BitAt(w, 22) == BitAt(t, 10)
  {}

  lemma Operands7(t: Bits)
    requires IsFormat7(t)
    ensures var w := T.Format7(t);
            Nibble(w, 12) == Field(t, 0, 7) && Nibble(w, 16) == Field(t, 3, 7) && Nibble(w, 0) == Field(t, 6, 7)
  {}

  lemma Registers7(t: Bits)
    requires IsFormat7(t)
    ensures var w := T.Format7(t); Rd(w) == Low3(t, 0) && Rn(w) == Low3(t, 3) && Rm(w) == Low3(t, 6) && Rd(w) != 15
  {
    Operands7(t);
    SmallField(t, 0);
    hide RegNumber, Nibble, Field, T.Format7;
  }

  /** STR, STRB, LDR and LDRB with a register offset. */
  lemma Translates7(c: Core, pins: Pins, t: Bits)
    requires IsFormat7(t)
    ensures Preserved(c, pins, T.Format7(t), Parse7(t))
  {
    hide *;
    var w := T.Format7(t);
    Fields7(t);
    Registers7(t);
    Parsed7(t);
    WordTransfer(c, pins, w, Reg(Rm(w)));
  }

  lemma Parsed7(t: Bits)
    ensures Parse7(t) == Transfer(BitAt(t, 11), if BitAt(t, 10) then Width8 else Width32, false, Low3(t, 0), Low3(t, 3), Reg(Low3(t, 6)))
  {}

  predicate IsFormat9(t: Bits) { t < 0x1_0000 && t & 0xE000 == 0x6000 }

  /** The scaled offset. */
  function Offset9(t: Bits): Bits { if BitAt(t, 12) then Field(t, 6, 31) else Field(t, 6, 31) << 2 }

  lemma Fields9(t: Bits)
    requires IsFormat9(t)
    ensures var w := T.Format9(t);
            && IsTransfer(w) && !IsMultiply(w) && !IsHalf(w) && PreIndexed(w) && BitAt(w, 23) && !BitAt(w, 25)
            && BitAt(w, 20) == BitAt(t, 11) && BitAt(w, 22) == BitAt(t, 12)
  {}

  lemma Operands9(t: Bits)
    requires IsFormat9(t)
    ensures var w := T.Format9(t);
            Nibble(w, 12) == Field(t, 0, 7) && Nibble(w, 16) == Field(t, 3, 7) && Imm12(w) == Offset9(t)
  {}

  lemma Registers9(t: Bits)
    requires IsFormat9(t)
    ensures var w := T.Format9(t); Rd(w) == Low3(t, 0) && Rn(w) == Low3(t, 3) && Rd(w) != 15 && Imm12(w) == Offset9(t)
  {
    Operands9(t);
    SmallField(t, 0);
    hide RegNumber, Nibble, Field, T.Format9, Imm12, Offset9;
  }

  /** STR, LDR, STRB and LDRB with a constant offset. */
  lemma Translates9(c: Core, pins: Pins, t: Bits)
    requires IsFormat9(t)
    ensures Preserved(c, pins, T.Format9(t), Parse9(t))
  {
    hide *;
    var w := T.Format9(t);
    Fields9(t);
    Registers9(t);
    Parsed9(t);
    WordTransfer(c, pins, w, Imm(Word(Imm12(w))));
  }

  lemma Parsed9(t: Bits)
    ensures Parse9(t) == Transfer(BitAt(t, 11), if BitAt(t, 12) then Width8 else Width32, false, Low3(t, 0), Low3(t, 3), Imm(Word(Offset9(t))))
  {
    hide Field, Low3, BitAt;
  }

  predicate IsFormat11(t: Bits) { t < 0x1_0000 && t & 0xF000 == 0x9000 }

  lemma Fields11(t: Bits)
    requires IsFormat11(t)
    ensures var w := T.Format11(t);
            && IsTransfer(w) && !IsMultiply(w) && !IsHalf(w) && PreIndexed(w) && BitAt(w, 23) && !BitAt(w, 25) && !BitAt(w, 22)
            && BitAt(w, 20) == BitAt(t, 11)
            && Nibble(w, 12) == Field(t, 8, 7) && Nibble(w, 16) == 13 && Imm12(w) == Field(t, 0, 0xFF) << 2
  {}

  lemma Registers11(t: Bits)
    requires IsFormat11(t)
    ensures var w := T.Format11(t); Rd(w) == Low3(t, 8) && Rn(w) == SP && Rd(w) != 15
  {
    Fields11(t);
    SmallField(t, 8);
    Fifteen();
    hide RegNumber, Nibble, Field, T.Format11, BitAt, Imm12, IsTransfer, IsMultiply, IsHalf, PreIndexed;
  }

  /** STR and LDR relative to SP. */
  lemma Translates11(c: Core, pins: Pins, t: Bits)
    requires IsFormat11(t)
    ensures Preserved(c, pins, T.Format11(t), Parse11(t))
  {
    hide *;
    var w := T.Format11(t);
    Fields11(t);
    Registers11(t);
    Parsed11(t);
    WordTransfer(c, pins, w, Imm(Word(Imm12(w))));
  }

  lemma Parsed11(t: Bits)
    ensures Parse11(t) == Transfer(BitAt(t, 11), Width32, false, Low3(t, 8), SP, Imm(Word(Field(t, 0, 0xFF) << 2)))
  {}

  // ---------------------------------------------------------------------------------------------
  // Halfwords and signed bytes: formats 8 and 10

  /** The width and signedness of a halfword or signed transfer. */
  predicate HalfForm(w: Bits, width: Width, signed: bool)
  {
    if !BitAt(w, 20) then width == Width16
    else if BitAt(w, 5) then width == Width16 && signed == BitAt(w, 6)
    else width == Width8 && signed
  }

  lemma HalfExecuted(c: Core, pins: Pins, w: Bits, width: Width, signed: bool)
    requires IsHalf(w) && !IsMultiply(w) && PreIndexed(w) && BitAt(w, 23) && HalfForm(w, width, signed)
    ensures Supported(w)
    ensures Executed(c, pins, w) == Performed(c, pins, w, BitAt(w, 20), width, signed, Plus(Lhs(c, w), HalfOffset(c, w)))
  {
    PreIndexedPlain(c, pins, w);
    hide IsTransfer, IsMultiply, IsHalf, IsData, PreIndexed, BitAt, LoadDone, StoreDone, Plus, Lhs, HalfOffset, WordTransferred,
      HalfTransferred;
  }

  /** GetLS7RHS of an immediate form. */
  function SplitOffset(w: Bits): Bits { Nibble(w, 0) | (Nibble(w, 8) << 4) }

  lemma HalfOffsetIs(c: Core, w: Bits)
    ensures HalfOffset(c, w) == if BitAt(w, 22) then Word(SplitOffset(w)) else c.reg[Rm(w)]
  {
    hide BitAt, Rm, Nibble;
  }

  lemma HalfTransfer(c: Core, pins: Pins, w: Bits, width: Width, signed: bool, o: Offset)
    requires IsHalf(w) && !IsMultiply(w) && PreIndexed(w) && BitAt(w, 23) && HalfForm(w, width, signed) && Rd(w) != 15
    requires o == if BitAt(w, 22) then Imm(Word(SplitOffset(w))) else Reg(Rm(w))
    ensures Preserved(c, pins, w, Transfer(BitAt(w, 20), width, signed, Rd(w), Rn(w), o))
  {
    hide *;
    var load := BitAt(w, 20);
    HalfExecuted(c, pins, w, width, signed);
    LhsReads(c, w);
    HalfOffsetIs(c, w);
    OffsetReads(c, Rm(w), Word(SplitOffset(w)));
    TransferMeans(c, pins, load, width, signed, Rd(w), Rn(w), o);
    if !c.aborted { TransferSame(c, pins, w, load, width, signed, Plus(Lhs(c, w), HalfOffset(c, w))); }
    PreservedIs(c, pins, w, Transfer(load, width, signed, Rd(w), Rn(w), o));
  }

  predicate IsFormat8(t: Bits) { t < 0x1_0000 && t & 0xF000 == 0x5000 && BitAt(t, 9) }

  function Width8Of(t: Bits): Width { if Field(t, 10, 3) == 1 then Width8 else Width16 }
  predicate Signed8Of(t: Bits) { Field(t, 10, 3) == 1 || Field(t, 10, 3) == 3 }

  lemma Fields8(t: Bits)
    requires IsFormat8(t)
    ensures var w := T.Format8(t);
            && IsHalf(w) && !IsMultiply(w) && PreIndexed(w) && BitAt(w, 23) && !BitAt(w, 22)
            && BitAt(w, 20) == (Field(t, 10, 3) != 0)
  {}

  lemma Form8(t: Bits)
    requires IsFormat8(t)
    ensures HalfForm(T.Format8(t), Width8Of(t), Signed8Of(t))
  {}

  lemma Operands8(t: Bits)
    requires IsFormat8(t)
    ensures var w := T.Format8(t);
            Nibble(w, 12) == Field(t, 0, 7) && Nibble(w, 16) == Field(t, 3, 7) && Nibble(w, 0) == Field(t, 6, 7)
  {}

  lemma Registers8(t: Bits)
    requires IsFormat8(t)
    ensures var w := T.Format8(t); Rd(w) == Low3(t, 0) && Rn(w) == Low3(t, 3) && Rm(w) == Low3(t, 6) && Rd(w) != 15
  {
    Operands8(t);
    SmallField(t, 0);
    hide RegNumber, Nibble, Field, T.Format8;
  }

  /** STRH, LDRSB, LDRH and LDRSH with a register offset. */
  lemma Translates8(c: Core, pins: Pins, t: Bits)
    requires IsFormat8(t)
    ensures Preserved(c, pins, T.Format8(t), Parse8(t))
  {
    hide *;
    var w := T.Format8(t);
    Fields8(t);
    Form8(t);
    Registers8(t);
    Parsed8(t);
    HalfTransfer(c, pins, w, Width8Of(t), Signed8Of(t), Reg(Rm(w)));
  }

  lemma Parsed8(t: Bits)
    ensures Parse8(t) == Transfer(Field(t, 10, 3) != 0, Width8Of(t), Signed8Of(t), Low3(t, 0), Low3(t, 3), Reg(Low3(t, 6)))
  {
    hide Field, Low3;
  }

  predicate IsFormat10(t: Bits) { t < 0x1_0000 && t & 0xF000 == 0x8000 }

  lemma Fields10(t: Bits)
    requires IsFormat10(t)
    ensures var w := T.Format10(t);
            && IsHalf(w) && !IsMultiply(w) && PreIndexed(w) && BitAt(w, 23) && BitAt(w, 22) && HalfForm(w, Width16, false)
            && BitAt(w, 20) == BitAt(t, 11)
  {}

  lemma Operands10(t: Bits)
    requires IsFormat10(t)
    ensures var w := T.Format10(t);
            Nibble(w, 12) == Field(t, 0, 7) && Nibble(w, 16) == Field(t, 3, 7) && SplitOffset(w) == Field(t, 6, 31) << 1
  {}

  lemma Registers10(t: Bits)
    requires IsFormat10(t)
    ensures var w := T.Format10(t); Rd(w) == Low3(t, 0) && Rn(w) == Low3(t, 3) && Rd(w) != 15 && SplitOffset(w) == Field(t, 6, 31) << 1
  {
    Operands10(t);
    SmallField(t, 0);
    hide RegNumber, Nibble, Field, T.Format10, SplitOffset;
  }

  /** STRH and LDRH with a constant offset. */
  lemma Translates10(c: Core, pins: Pins, t: Bits)
    requires IsFormat10(t)
    ensures Preserved(c, pins, T.Format10(t), Parse10(t))
  {
    hide *;
    var w := T.Format10(t);
    Fields10(t);
    Registers10(t);
    Parsed10(t);
    HalfTransfer(c, pins, w, Width16, false, Imm(Word(SplitOffset(w))));
  }

  lemma Parsed10(t: Bits)
    ensures Parse10(t) == Transfer(BitAt(t, 11), Width16, false, Low3(t, 0), Low3(t, 3), Imm(Word(Field(t, 6, 31) << 1)))
  {}

  // ---------------------------------------------------------------------------------------------
  // Addresses: formats 12 and 13

  lemma RotatedImmediate(x: Bits)
    requires 0xF00 <= x < 0x1000
    ensures Immediate(x) == (x & 0xFF) << 2
  {}

  lemma ScaledOperand(c: Core, w: Bits)
    requires BitAt(w, 25) && 0xF00 <= Imm12(w) < 0x1000
    ensures Operand(c, w, false) == (c, Word((Imm12(w) & 0xFF) << 2))
  {
    RotatedImmediate(Imm12(w));
    hide BitAt, Imm12, Immediate;
  }

  lemma PlainAddSub(c: Core, w: Bits, sub: bool, rhs: Word)
    requires !BitAt(w, 20) && OpOf(w) == (if sub then SUB else ADD) && Rd(w) != 15 && Operand(c, w, false) == (c, rhs)
    ensures DataProcessed(c, w) == Put(c, Rd(w), if sub then Minus(Lhs(c, w), rhs) else Plus(Lhs(c, w), rhs))
  {
    PlainPuts(c, w, rhs);
    hide BitAt, Rd, OpOf, Operand, DataProcessed, Lhs, Plus, Minus, Put;
  }

  lemma ItselfSame(c: Core)
    ensures Same(c, c)
  {}

  predicate IsFormat12(t: Bits) { t < 0x1_0000 && t & 0xF000 == 0xA000 }

  lemma Fields12(t: Bits)
    requires IsFormat12(t)
    ensures var w := T.Format12(t);
            && IsData(w) && !IsMultiply(w) && !IsHalf(w) && !IsTransfer(w) && OpOf(w) == ADD && !BitAt(w, 20) && BitAt(w, 25)
  {}

  lemma Operands12(t: Bits)
    requires IsFormat12(t)
    ensures var w := T.Format12(t);
            && Nibble(w, 12) == Field(t, 8, 7) && Nibble(w, 16) == (if BitAt(t, 11) then 13 else 15)
            && 0xF00 <= Imm12(w) < 0x1000 && (Imm12(w) & 0xFF) << 2 == Field(t, 0, 0xFF) << 2
  {}

  lemma Registers12(t: Bits)
    requires IsFormat12(t)
    ensures var w := T.Format12(t); Rd(w) == Low3(t, 8) && Rn(w) == (if BitAt(t, 11) then SP else PC) && Rd(w) != 15
  {
    Operands12(t);
    SmallField(t, 8);
    Fifteen();
    hide RegNumber, Nibble, Field, T.Format12, BitAt, Imm12;
  }

  /** ADD Rd,PC,#imm and ADD Rd,SP,#imm. */
  lemma Translates12(c: Core, pins: Pins, t: Bits)
    requires IsFormat12(t)
    ensures Preserved(c, pins, T.Format12(t), Parse12(t))
  {
    hide *;
    var w := T.Format12(t);
    Fields12(t);
    Operands12(t);
    Registers12(t);
    DataExecuted(c, pins, w);
    ScaledOperand(c, w);
    PlainAddSub(c, w, false, Word((Imm12(w) & 0xFF) << 2));
    LhsReads(c, w);
    Parsed12(c, pins, t);
    ItselfSame(Executed(c, pins, w));
    PreservedIs(c, pins, w, Parse12(t));
  }

  lemma Parsed12(c: Core, pins: Pins, t: Bits)
    ensures Parse12(t).AddTo?
    ensures Meaning(c, pins, Parse12(t))
         == Put(c, Low3(t, 8), Plus(Read(c, if BitAt(t, 11) then SP else PC), Word(Field(t, 0, 0xFF) << 2)))
  {
    hide Read, Plus, Low3, BitAt, Field, Put;
  }

  predicate IsFormat13(t: Bits) { t < 0x1_0000 && t & 0xFF00 == 0xB000 }

  lemma Fields13(t: Bits)
    requires IsFormat13(t)
    ensures var w := T.Format13(t);
            && IsData(w) && !IsMultiply(w) && !IsHalf(w) && !IsTransfer(w) && OpOf(w) == (if BitAt(t, 7) then SUB else ADD)
            && !BitAt(w, 20) && BitAt(w, 25)
  {}

  lemma Operands13(t: Bits)
    requires IsFormat13(t)
    ensures var w := T.Format13(t);
            && Nibble(w, 12) == 13 && Nibble(w, 16) == 13
            && 0xF00 <= Imm12(w) < 0x1000 && (Imm12(w) & 0xFF) << 2 == Field(t, 0, 0x7F) << 2
  {}

  lemma Registers13(t: Bits)
    requires IsFormat13(t)
    ensures var w := T.Format13(t); Rd(w) == SP && Rn(w) == SP && SP != 15
  {
    Operands13(t);
    Fifteen();
    hide RegNumber, Nibble, Field, T.Format13, Imm12;
  }

  /** ADD SP,#imm and SUB SP,#imm. */
  lemma Translates13(c: Core, pins: Pins, t: Bits)
    requires IsFormat13(t)
    ensures Preserved(c, pins, T.Format13(t), Parse13(t))
  {
    hide *;
    var w := T.Format13(t);
    Fields13(t);
    Operands13(t);
    Registers13(t);
    DataExecuted(c, pins, w);
    ScaledOperand(c, w);
    PlainAddSub(c, w, BitAt(t, 7), Word((Imm12(w) & 0xFF) << 2));
    LowLhs(c, w);
    Parsed13(c, pins, t);
    ItselfSame(Executed(c, pins, w));
    PreservedIs(c, pins, w, Parse13(t));
  }

  lemma Parsed13(c: Core, pins: Pins, t: Bits)
    ensures Parse13(t).AdjustSp?
    ensures var x := Word(Field(t, 0, 0x7F) << 2);
            Meaning(c, pins, Parse13(t)) == Put(c, SP, if BitAt(t, 7) then Minus(c.reg[SP], x) else Plus(c.reg[SP], x))
  {
    hide Minus, Plus, BitAt, Field, Put;
  }
}
