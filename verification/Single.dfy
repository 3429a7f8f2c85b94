/** Single loads and stores of words, halfwords and bytes, in all addressing modes
    (arch_arm/common/armemu32.c: LoadWord, LoadHalfWord, LoadByte, StoreWord, StoreHalfWord, StoreByte). */
module Single {
  import opened Words
  import opened Fields
  import opened State
  import opened Alu
  import opened Support
  import opened Shifter
  import opened DataPath
  import opened Exceptions
  import opened Block
  import Ram

  datatype Width = Width32 | Width16 | Width8

  // ---------------------------------------------------------------------------------------------
  // Memory, by width. Bytes and halfwords are lanes of a word, as in memory/ram.c.

  /** The bit offset of a byte address in its word. */
  function Turn(a: Word): (n: Bits)
    ensures n < 32
  {
    (a.bits & 3) << 3
  }

  function TurnedRight(w: Bits, n: Bits): Bits
    requires n < 32
  {
    if n == 0 then w else (w >> n) | (w << (32 - n))
  }

  /** ARMul_Align: the word rotated right by the byte offset. */
  function AlignedWord(w: Bits, a: Word): Bits { TurnedRight(w, Turn(a)) }

  /** A byte or halfword as the load leaves it in a register. */
  function SignByte(x: Bits): Bits { if x & 0x80 != 0 then (x & 0xFF) | 0xFFFF_FF00 else x }
  function SignHalf(x: Bits): Bits { if x & 0x8000 != 0 then (x & 0xFFFF) | 0xFFFF_0000 else x }

  function Loadable(w: Bits, a: Word, width: Width, signed: bool, big: bool): Word
  {
    match width
    case Width32 => Word(AlignedWord(w, a))
    case Width16 =>
      var x := Ram.HalfOf(w, Ram.HalfLane(Num(a), big));
      Word(if signed then SignHalf(x) else x)
    case Width8 =>
      var x := Ram.ByteOf(w, Ram.Lane(Num(a), big));
      Word(if signed then SignByte(x) else x)
  }

  /** The word at an address after the store of a register into it. */
  function Storable(w: Bits, a: Word, data: Word, width: Width, big: bool): Word
  {
    match width
    case Width32 => data
    case Width16 => Word(Ram.PutHalf(w, Ram.HalfLane(Num(a), big), data.bits))
    case Width8 => Word(Ram.PutByte(w, Ram.Lane(Num(a), big), data.bits))
  }

  // ---------------------------------------------------------------------------------------------
  // LoadWord and its relatives

  /** The end of a load. A word loaded into r15 may change to Thumb state. */
  function Delivered(c: Core, pins: Pins, instr: Bits, r: Word, width: Width): Core
  {
    if c.aborted then Entered(c, pins, DataAbort)
    else if width == Width32 && Rd(instr) == 15 then R15Branched(c, r)
    else DestWritten(c, instr, r)
  }

  /** What a load does, from its address on. */
  function LoadDone(c: Core, pins: Pins, instr: Bits, a: Word, width: Width, signed: bool): Core
  {
    Delivered(ReadDone(c, a), pins, instr, Loadable(WordAt(c, a).bits, a, width, signed, pins.bigend), width)
  }

  /** What a store does, from its address on. */
  function StoreDone(c: Core, pins: Pins, instr: Bits, a: Word, width: Width): Core
  {
    var b := BusUsed(c);
    var d := WriteDone(b, a, Storable(WordAt(b, a).bits, a, b.reg[Rd(instr)], width, pins.bigend));
    if d.aborted then Entered(d, pins, DataAbort) else d
  }

  // ---------------------------------------------------------------------------------------------
  // The instructions

  /** LSImmRHS and LSRegRHS, GetLSRegRHS included. */
  function WordOffset(c: Core, instr: Bits): Word
  {
    if !BitAt(instr, 25) then Word(Imm12(instr))
    else if Unshifted(instr) then c.reg[Rm(instr)]
    else Word(ImmShiftValue(KindOf(instr), c.reg[Rm(instr)].bits, Shamt(instr), c.c))
  }

  /** GetLS7RHS. */
  function HalfOffset(c: Core, instr: Bits): Word
  {
    if BitAt(instr, 22) then Word(Nibble(instr, 0) | (Nibble(instr, 8) << 4)) else c.reg[Rm(instr)]
  }

  function Address(base: Word, offset: Word, instr: Bits): Word
  {
    if BitAt(instr, 23) then Plus(base, offset) else Minus(base, offset)
  }

  /** Bit 24: the address is indexed before the access. */
  predicate IndexedFirst(instr: Bits) { BitAt(instr, 24) }

  /** The base is written: after a post-indexed access, or with bit 21. */
  predicate WritesBase(instr: Bits) { !IndexedFirst(instr) || BitAt(instr, 21) }

  /** The address is indexed first, and the base is not written back. */
  predicate PreIndexed(instr: Bits) { BitAt(instr, 24) && !BitAt(instr, 21) }

  /** What the access routines return, and the base is written on: with late aborts also after an abort; after a load
      only if it did not load the base. */
  predicate Succeeds(c: Core, pins: Pins, instr: Bits, a: Word, load: bool)
  {
    if ReadDone(c, a).aborted then pins.lateabt else load ==> Rd(instr) != Rn(instr)
  }

  function Accessed(c: Core, pins: Pins, instr: Bits, a: Word, width: Width, signed: bool): Core
  {
    if BitAt(instr, 20) then LoadDone(c, pins, instr, a, width, signed) else StoreDone(c, pins, instr, a, width)
  }

  /** LSBase: the base register of the state d. */
  function BasePut(d: Core, instr: Bits, w: Word): Core
  {
    hide *;
    d.(reg := d.reg[Rn(instr) := w])
  }

  /** The state d after the access at a from the state c, and after the write of the base. */
  function BaseDone(c: Core, d: Core, pins: Pins, instr: Bits, a: Word, wb: Word): Core
  {
    if WritesBase(instr) && Succeeds(c, pins, instr, a, BitAt(instr, 20)) then BasePut(d, instr, wb) else d
  }

  function WordWidth(instr: Bits): Width { if BitAt(instr, 22) then Width8 else Width32 }

  /** LDR, LDRB, STR and STRB. A post-indexed store looks at its offset register after the access. */
  function WordTransferred(c: Core, pins: Pins, instr: Bits): Core
  {
    var lhs := Lhs(c, instr);
    var indexed := Address(lhs, WordOffset(c, instr), instr);
    var a := if IndexedFirst(instr) then indexed else lhs;
    var d := Accessed(c, pins, instr, a, WordWidth(instr), false);
    BaseDone(c, d, pins, instr, a,
             if IndexedFirst(instr) || BitAt(instr, 20) then indexed else Address(lhs, WordOffset(d, instr), instr))
  }

  /** LDRSB is the one byte among the halfword and signed transfers. */
  function HalfWidth(instr: Bits): Width { if BitAt(instr, 20) && !BitAt(instr, 5) then Width8 else Width16 }

  predicate HalfSigned(instr: Bits) { BitAt(instr, 5) ==> BitAt(instr, 6) }

  /** LDRH, LDRSB, LDRSH (bits 5 and 6) and STRH. */
  function HalfTransferred(c: Core, pins: Pins, instr: Bits): Core
  {
    var lhs := Lhs(c, instr);
    var indexed := Address(lhs, HalfOffset(c, instr), instr);
    var a := if IndexedFirst(instr) then indexed else lhs;
    var d := Accessed(c, pins, instr, a, HalfWidth(instr), HalfSigned(instr));
    BaseDone(c, d, pins, instr, a,
             if IndexedFirst(instr) || BitAt(instr, 20) then indexed else Address(lhs, HalfOffset(d, instr), instr))
  }

  /** Without a write to the base. */
  lemma PreIndexedPlain(c: Core, pins: Pins, instr: Bits)
    requires PreIndexed(instr)
    ensures WordTransferred(c, pins, instr)
         == Accessed(c, pins, instr, Address(Lhs(c, instr), WordOffset(c, instr), instr), WordWidth(instr), false)
    ensures HalfTransferred(c, pins, instr)
         == Accessed(c, pins, instr, Address(Lhs(c, instr), HalfOffset(c, instr), instr), HalfWidth(instr), HalfSigned(instr))
  {
    hide BitAt, Accessed, Address, Lhs, WordOffset, HalfOffset, WordWidth, HalfWidth, HalfSigned, Succeeds;
  }

  // ---------------------------------------------------------------------------------------------
  // The same as the emulator does it, on the machine

  method Deliver(state: ArmState, instr: Bits, r: Word, width: Width)
    requires state.Valid() && !Is26Bit(state.Mode)
    modifies state, state.Reg, state.RegBank, state.Spsr
    ensures state.Value() == Delivered(old(state.Value()), state.pins, instr, r, width)
  {
    hide Rd, DestWritten, R15Branched, Entered, Is26Bit;
    if state.Aborted {
      Abort(state, DataAbort);
    } else if width == Width32 && Rd(instr) == 15 {
      WriteR15Branch(state, r);
    } else {
      WriteDest(state, instr, r);
    }
  }

  method LoadSingle(state: ArmState, instr: Bits, a: Word, width: Width, signed: bool) returns (ok: bool)
    requires state.Valid() && !Is26Bit(state.Mode)
    modifies state, state.Reg, state.RegBank, state.Spsr
    ensures state.Value() == LoadDone(old(state.Value()), state.pins, instr, a, width, signed)
    ensures ok == Succeeds(old(state.Value()), state.pins, instr, a, true)
  {
    hide Delivered, Is26Bit, Loadable, ReadDone, WordAt, Rd, Rn;
    var w := ReadWord(state, a);
    assert state.Mode == old(state.Mode);
    ok := if state.Aborted then state.pins.lateabt else Rd(instr) != Rn(instr);
    Deliver(state, instr, Loadable(w.bits, a, width, signed, state.pins.bigend), width);
  }

  method StoreSingle(state: ArmState, instr: Bits, a: Word, width: Width) returns (ok: bool)
    requires state.Valid() && !Is26Bit(state.Mode)
    modifies state, state.Reg, state.RegBank, state.Spsr
    ensures state.Value() == StoreDone(old(state.Value()), state.pins, instr, a, width)
    ensures ok == Succeeds(old(state.Value()), state.pins, instr, a, false)
  {
    hide Rd, Entered, Is26Bit, Storable, WriteDone, ReadDone, BusUsed, WordNo, AbortWord;
    StoreAborts(state.Value(), a, Word(0));
    UseBus(state);
    var w := if WordNo(a) in state.Mem then state.Mem[WordNo(a)] else AbortWord(state.TFlag);
    var x := Storable(w.bits, a, state.Reg[Rd(instr)], width, state.pins.bigend);
    StoreAborts(old(state.Value()), a, x);
    WriteWord(state, a, x);
    ok := true;
    if state.Aborted {
      Abort(state, DataAbort);
      ok := state.pins.lateabt;
    }
  }

  /** A store aborts as a load of the same address does. */
  lemma StoreAborts(c: Core, a: Word, x: Word)
    ensures WriteDone(BusUsed(c), a, x).aborted <==> ReadDone(c, a).aborted
  {
    hide WordNo;
    if WordNo(a) in c.mem {} else {}
  }

  method Access(state: ArmState, instr: Bits, a: Word, width: Width, signed: bool) returns (ok: bool)
    requires state.Valid() && !Is26Bit(state.Mode)
    modifies state, state.Reg, state.RegBank, state.Spsr
    ensures state.Value() == Accessed(old(state.Value()), state.pins, instr, a, width, signed)
    ensures ok == Succeeds(old(state.Value()), state.pins, instr, a, BitAt(instr, 20))
  {
    hide BitAt, LoadDone, StoreDone, Succeeds, Is26Bit;
    if BitAt(instr, 20) {
      ok := LoadSingle(state, instr, a, width, signed);
    } else {
      ok := StoreSingle(state, instr, a, width);
    }
  }

  method PutBase(state: ArmState, instr: Bits, w: Word)
    requires state.Valid()
    modifies state.Reg
    ensures state.Value() == BasePut(old(state.Value()), instr, w)
  {
    hide Rn;
    state.Reg[Rn(instr)] := w;
  }

  /** LSImmRHS or LSRegRHS. */
  method GetLSRegRHS(state: ArmState, instr: Bits) returns (rhs: Word)
    requires state.Valid()
    ensures rhs == WordOffset(state.Value(), instr)
  {
    hide BitAt, Rm, Unshifted, KindOf, ImmShiftValue, Imm12;
    if !BitAt(instr, 25) {
      rhs := Word(Imm12(instr));
    } else if Unshifted(instr) {
      rhs := state.Reg[Rm(instr)];
    } else {
      rhs := Word(ImmShiftValue(KindOf(instr), state.Reg[Rm(instr)].bits, Shamt(instr), state.CFlag));
    }
  }

  method GetLS7RHS(state: ArmState, instr: Bits) returns (rhs: Word)
    requires state.Valid()
    ensures rhs == HalfOffset(state.Value(), instr)
  {
    hide BitAt, Rm, Nibble;
    rhs := if BitAt(instr, 22) then Word(Nibble(instr, 0) | (Nibble(instr, 8) << 4)) else state.Reg[Rm(instr)];
  }

  /** Cases 0x40 to 0x7f. */
  method ExecuteWordTransfer(state: ArmState, instr: Bits)
    requires state.Valid() && !Is26Bit(state.Mode)
    modifies state, state.Reg, state.RegBank, state.Spsr
    ensures state.Value() == WordTransferred(old(state.Value()), state.pins, instr)
  {
    hide BitAt, Lhs, Is26Bit, Accessed, Address, WordOffset, Succeeds, WritesBase, IndexedFirst, BasePut, WordWidth;
    var lhs := GetLhs(state, instr);
    var offset := GetLSRegRHS(state, instr);
    var wb := Address(lhs, offset, instr);
    var a := if IndexedFirst(instr) then wb else lhs;
    var ok := Access(state, instr, a, WordWidth(instr), false);
    if WritesBase(instr) && ok {
      if !IndexedFirst(instr) && !BitAt(instr, 20) {
        offset := GetLSRegRHS(state, instr);
        wb := Address(lhs, offset, instr);
      }
      PutBase(state, instr, wb);
    }
  }

  /** The halfword and signed transfers among cases 0x00 to 0x1f: the SH and LH macros. */
  method ExecuteHalfTransfer(state: ArmState, instr: Bits)
    requires state.Valid() && !Is26Bit(state.Mode)
    modifies state, state.Reg, state.RegBank, state.Spsr
    ensures state.Value() == HalfTransferred(old(state.Value()), state.pins, instr)
  {
    hide BitAt, Lhs, Is26Bit, Accessed, Address, HalfOffset, Succeeds, WritesBase, IndexedFirst, BasePut, HalfWidth, HalfSigned;
    var lhs := GetLhs(state, instr);
    var offset := GetLS7RHS(state, instr);
    var wb := Address(lhs, offset, instr);
    var a := if IndexedFirst(instr) then wb else lhs;
    var ok := Access(state, instr, a, HalfWidth(instr), HalfSigned(instr));
    if WritesBase(instr) && ok {
      if !IndexedFirst(instr) && !BitAt(instr, 20) {
        offset := GetLS7RHS(state, instr);
        wb := Address(lhs, offset, instr);
      }
      PutBase(state, instr, wb);
    }
  }

  // ---------------------------------------------------------------------------------------------
  // What a load delivers

  /** A field of n bits, and with ones above it. */
  lemma ExtendedNumber(x: Bits, m: Bits, n: nat)
    requires n <= 16 && IsOnes(m, n) && AtMost(x, m)
    ensures Nat(x) < Pow2(n) <= 0x1_0000
    ensures Disjoint(x, Not(m)) ==> Nat(Or(x, Not(m))) == Nat(x) + LIMB - Pow2(n)
  {
    hide Nat, Not, Or, Disjoint, AtMost;
    NatAtMost(x, m);
    NatNot(m);
    NatIs(m);
    LowOnes(m, n, 32);
    Pow2Bound(n);
    if Disjoint(x, Not(m)) { NatOr(x, Not(m)); }
  }

  lemma NatIs(x: Bits)
    ensures Nat(x) == Low(x, 32)
  {}

  lemma Pow2Bound(n: nat)
    requires n <= 16
    ensures Pow2(n) <= 0x1_0000
    decreases 16 - n
  {
    if n == 16 { Pow2Limb(); } else { Pow2Bound(n + 1); }
  }

  lemma ByteBits(x: Bits)
    requires x < 256
    ensures AtMost(x, 0xFF) && Disjoint(x, Not(0xFF)) && SignByte(x) == if x & 0x80 != 0 then Or(x, Not(0xFF)) else x
  {}

  lemma HalfBits(x: Bits)
    requires x < 0x1_0000
    ensures AtMost(x, 0xFFFF) && Disjoint(x, Not(0xFFFF)) && SignHalf(x) == if x & 0x8000 != 0 then Or(x, Not(0xFFFF)) else x
  {}

  /** LDRSB: a byte with bit 7 set stands for itself less 256. */
  lemma SignByteNumber(x: Bits)
    requires x < 256
    ensures Signed(Word(SignByte(x))) == if x & 0x80 != 0 then Num(Word(x)) - 256 else Num(Word(x))
  {
    assert IsOnes(0xFF, 8) && Pow2(8) == 256;
    ByteBits(x);
    ExtendedNumber(x, 0xFF, 8);
    hide Nat, SignByte, Or, Not, Disjoint, Pow2, IsOnes;
  }

  /** LDRSH. */
  lemma SignHalfNumber(x: Bits)
    requires x < 0x1_0000
    ensures Signed(Word(SignHalf(x))) == if x & 0x8000 != 0 then Num(Word(x)) - 0x1_0000 else Num(Word(x))
  {
    AllOnes();
    Pow2Limb();
    HalfBits(x);
    ExtendedNumber(x, 0xFFFF, 16);
    hide Nat, SignHalf, Or, Not, Disjoint, Pow2, IsOnes;
  }

  lemma RotatesRight(x: Bits, n: Bits, c: bool)
    requires n < 32
    ensures RegShift(ROR, x, n, c).value == TurnedRight(x, n)
  {
    SmallAmount(n);
  }

  /** ARMul_Align: a word loaded from an unaligned address is rotated right by its byte offset, in the manual's
      sense. */
  lemma AlignIsRotation(w: Bits, a: Word, c: bool)
    ensures AlignedWord(w, a) == ShiftSteps(ROR, w, Turn(a), c).value
  {
    hide RegShift, ShiftSteps, Turn, TurnedRight;
    RegShiftIsManual(ROR, w, Turn(a), c);
    RotatesRight(w, Turn(a), c);
  }
}
