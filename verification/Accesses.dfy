/** Single loads and stores from their instruction words (ARM DDI 0100, sections A5.2 and A5.3): the address, the base that is
    written back, and the bytes that are read or written, as numbers and in either endianness. */
module Accesses {
  import opened Words
  import opened Fields
  import opened State
  import opened Support
  import opened Shifter
  import opened Alu
  import opened DataPath
  import opened Exceptions
  import opened Block
  import opened Single
  import opened Execute
  import opened MainSwitch
  import opened DataWords
  import opened Conditions
  import opened Interworking
  import opened MemoryBytes
  import B = Banks
  import TB = ThumbBranch
  import V = Vectors
  import Ram

  // ---------------------------------------------------------------------------------------------
  // Addresses

  /** The base register; r15 reads word-aligned. */
  function BaseNumber(c: Core, w: Bits): int
  {
    var n := Num(c.reg[Rn(w)]);
    if Rn(w) == 15 then n - n % 4 else n
  }

  /** The offset of a word or byte transfer: twelve bits, or a register shifted by a constant. */
  function OffsetNumber(c: Core, w: Bits): nat
  {
    AmountSmall(w);
    if !BitAt(w, 25) then Low(w, 12) else Num(Word(ImmShiftSteps(KindOf(w), c.reg[Rm(w)].bits, Shamt(w), c.c).value))
  }

  /** The offset of a halfword or signed transfer: two fields of four bits, or a register. */
  function HalfOffsetNumber(c: Core, w: Bits): nat
  {
    if BitAt(w, 22) then Low(w, 4) + 16 * Low(Shr8(w), 4) else Num(c.reg[Rm(w)])
  }

  /** Bit 23: up or down. */
  function MovedBase(base: int, o: nat, w: Bits): nat { (if BitAt(w, 23) then base + o else base - o) % LIMB }

  /** Bit 24: the address is that of the moved base, or of the base as it was. */
  function TargetOf(base: int, o: nat, w: Bits): int { if BitAt(w, 24) then MovedBase(base, o, w) else base }

  /** Post-indexed addressing and bit 21 write the base. */
  predicate UpdatesBase(w: Bits) { !BitAt(w, 24) || BitAt(w, 21) }

  lemma LhsNumber(c: Core, w: Bits)
    ensures Num(Lhs(c, w)) == BaseNumber(c, w) && 0 <= BaseNumber(c, w) < LIMB
  {
    RoundedNumbers(c.reg[15]);
    NumLimit(c.reg[Rn(w)]);
    hide Num, Masked, Rn, Odd;
  }

  lemma ImmediateNumber(w: Bits)
    ensures Num(Word(Imm12(w))) == Low(w, 12)
  {
    TB.OnesFacts();
    TwelveIs(w);
    LowAnd(w, 0xFFF, 12, 32);
    NatLow(And(w, 0xFFF));
    hide Low, And, IsOnes, Imm12;
  }

  lemma TwelveIs(w: Bits)
    ensures Imm12(w) == And(w, 0xFFF)
  {}

  lemma NoFour(w: Bits)
    requires IsTransfer(w)
    ensures BitAt(w, 25) ==> !BitAt(w, 4)
  {}

  lemma OffsetIs(c: Core, w: Bits)
    requires IsTransfer(w)
    ensures Num(WordOffset(c, w)) == OffsetNumber(c, w)
  {
    NoFour(w);
    ImmediateNumber(w);
    if BitAt(w, 25) { ConstantValue(c, w); }
    hide BitAt, IsTransfer, Low, Num, Imm12, KindOf, Rm, Shamt, Unshifted, ImmShiftSteps, ImmShiftValue;
  }

  lemma NibbleNumbers(w: Bits)
    ensures Nat(Nibble(w, 0) | (Nibble(w, 8) << 4)) == Low(w, 4) + 16 * Low(Shr8(w), 4)
  {
    FourOnes();
    NibblePatterns(w);
    TB.DoubledFour(And(Shr8(w), 0xF));
    FieldNumber(Shr8(w), 0xF, 4, 4);
    LowAnd(w, 0xF, 4, 32);
    NatLow(And(w, 0xF));
    NatOr(And(w, 0xF), TB.Shl4(And(Shr8(w), 0xF)));
    hide Low, And, Or, Disjoint, IsOnes, Pow2, Nat, Doubled, Shr8, TB.Shl4, Nibble;
  }

  lemma FourOnes()
    ensures IsOnes(0xF, 4) && Pow2(4) == 16
  {}

  lemma NibblePatterns(w: Bits)
    ensures Nibble(w, 0) | (Nibble(w, 8) << 4) == Or(And(w, 0xF), TB.Shl4(And(Shr8(w), 0xF)))
    ensures Disjoint(And(w, 0xF), TB.Shl4(And(Shr8(w), 0xF)))
  {}

  lemma HalfOffsetIs(c: Core, w: Bits)
    ensures Num(HalfOffset(c, w)) == HalfOffsetNumber(c, w)
  {
    NibbleNumbers(w);
    WordNumber(HalfOffset(c, w));
    hide BitAt, Low, Num, Nat, Nibble, Rm, Shr8;
  }

  lemma AddressNumber(base: Word, o: Word, w: Bits)
    ensures Num(Address(base, o, w)) == MovedBase(Num(base), Num(o), w)
  {
    NumPlus(base, o);
    NumMinus(base, o);
    NumLimit(base);
    NumLimit(o);
    hide BitAt, Num, Plus, Minus;
  }

  lemma TargetNumber(base: Word, o: Word, w: Bits)
    ensures Num(if IndexedFirst(w) then Address(base, o, w) else base) == TargetOf(Num(base), Num(o), w)
  {
    AddressNumber(base, o, w);
    hide BitAt, Num, Address, MovedBase;
  }

  // ---------------------------------------------------------------------------------------------
  // One access at an address

  /** A register is loaded, the base is written, and everything else stays; the load has the last word. */
  predicate LoadsRegister(c: Core, d: Core, w: Bits, moved: nat)
  {
    && d == c.(reg := d.reg, abortSig := false)
    && (forall r: RegNo :: r != Rd(w) && !(UpdatesBase(w) && r == Rn(w)) ==> d.reg[r] == c.reg[r])
    && (UpdatesBase(w) && Rn(w) != Rd(w) ==> Num(d.reg[Rn(w)]) == moved)
  }

  lemma LoadedRegister(c: Core, pins: Pins, w: Bits, a: Word, width: Width, signed: bool, wb: Word)
    requires BitAt(w, 20) && Rd(w) != 15 && !c.aborted && WordNo(a) in c.mem
    ensures var x := Loadable(c.mem[WordNo(a)].bits, a, width, signed, pins.bigend);
            var d := BaseDone(c, Accessed(c, pins, w, a, width, signed), pins, w, a, wb);
            LoadsRegister(c, d, w, Num(wb)) && d.reg[Rd(w)] == x
  {
    var x := Loadable(c.mem[WordNo(a)].bits, a, width, signed, pins.bigend);
    LoadedValue(c, pins, w, a, width, signed);
    LoadSucceeds(c, pins, w, a);
    WritesIs(w);
    PutBoth(c, Rd(w), x, Rn(w), wb);
    hide *;
    DoneIs(c, Accessed(c, pins, w, a, width, signed), pins, w, a, wb);
    LoadsIs(c, BaseDone(c, Accessed(c, pins, w, a, width, signed), pins, w, a, wb), w, Num(wb));
  }

  lemma LoadedValue(c: Core, pins: Pins, w: Bits, a: Word, width: Width, signed: bool)
    requires BitAt(w, 20) && Rd(w) != 15 && !c.aborted && WordNo(a) in c.mem
    ensures Accessed(c, pins, w, a, width, signed)
         == Received(c, Rd(w), Loadable(c.mem[WordNo(a)].bits, a, width, signed, pins.bigend))
  {
    hide BitAt, Rd, WordNo, R15Branched, R15Written, Entered, Loadable;
  }

  lemma LoadSucceeds(c: Core, pins: Pins, w: Bits, a: Word)
    requires BitAt(w, 20) && !c.aborted && WordNo(a) in c.mem
    ensures Succeeds(c, pins, w, a, BitAt(w, 20)) <==> Rd(w) != Rn(w)
  {
    hide BitAt, Rd, Rn, WordNo;
  }

  lemma WritesIs(w: Bits)
    ensures WritesBase(w) == UpdatesBase(w) && IndexedFirst(w) == BitAt(w, 24)
  {
    hide BitAt;
  }

  lemma DoneIs(c: Core, d: Core, pins: Pins, w: Bits, a: Word, wb: Word)
    ensures BaseDone(c, d, pins, w, a, wb) == if WritesBase(w) && Succeeds(c, pins, w, a, BitAt(w, 20)) then BasePut(d, w, wb) else d
    ensures BasePut(d, w, wb) == RegisterPut(d, Rn(w), wb)
  {
    hide WritesBase, Succeeds, BitAt, Rn;
  }

  lemma PutBoth(c: Core, r: RegNo, x: Word, b: RegNo, wb: Word)
    ensures var d := Received(c, r, x);
            d == c.(reg := d.reg, abortSig := false) && d.reg[r] == x && forall q: RegNo :: q != r ==> d.reg[q] == c.reg[q]
    ensures b != r ==> var e := RegisterPut(Received(c, r, x), b, wb);
                       && e == c.(reg := e.reg, abortSig := false) && e.reg[r] == x && e.reg[b] == wb
                       && forall q: RegNo :: q != r && q != b ==> e.reg[q] == c.reg[q]
  {}

  lemma LoadsIs(c: Core, d: Core, w: Bits, moved: nat)
    ensures LoadsRegister(c, d, w, moved)
       <==> (&& d == c.(reg := d.reg, abortSig := false)
             && (forall r: RegNo :: r != Rd(w) && !(UpdatesBase(w) && r == Rn(w)) ==> d.reg[r] == c.reg[r])
             && (UpdatesBase(w) && Rn(w) != Rd(w) ==> Num(d.reg[Rn(w)]) == moved))
  {
    hide Rd, Rn, Num, UpdatesBase;
  }

  /** A word of memory is replaced, and the base is written. */
  predicate StoresWord(c: Core, d: Core, w: Bits, moved: nat)
  {
    && d == c.(reg := d.reg, mem := d.mem, abortSig := false, nextInstr := c.nextInstr + 1 - c.nextInstr % 2)
    && (forall r: RegNo :: !(UpdatesBase(w) && r == Rn(w)) ==> d.reg[r] == c.reg[r])
    && (UpdatesBase(w) ==> Num(d.reg[Rn(w)]) == moved)
  }

  lemma StoredValue(c: Core, pins: Pins, w: Bits, a: Word, width: Width, signed: bool)
    requires !BitAt(w, 20) && !c.aborted && WordNo(a) in c.mem
    ensures var x := Storable(c.mem[WordNo(a)].bits, a, c.reg[Rd(w)], width, pins.bigend);
            var d := Accessed(c, pins, w, a, width, signed);
            && d == c.(mem := c.mem[WordNo(a) := x], abortSig := false, nextInstr := c.nextInstr + 1 - c.nextInstr % 2)
            && d.reg == c.reg && d.c == c.c
  {
    hide BitAt, Rd, WordNo, Entered, Storable;
  }

  lemma StoreSucceeds(c: Core, pins: Pins, w: Bits, a: Word)
    requires !BitAt(w, 20) && !c.aborted && WordNo(a) in c.mem
    ensures Succeeds(c, pins, w, a, BitAt(w, 20))
  {
    hide BitAt, Rd, Rn, WordNo;
  }

  lemma PutBase(d: Core, b: RegNo, wb: Word)
    ensures var e := RegisterPut(d, b, wb);
            e == d.(reg := e.reg) && e.reg[b] == wb && e.mem == d.mem && forall q: RegNo :: q != b ==> e.reg[q] == d.reg[q]
  {}

  lemma StoredRegister(c: Core, pins: Pins, w: Bits, a: Word, width: Width, signed: bool, wb: Word)
    requires !BitAt(w, 20) && !c.aborted && WordNo(a) in c.mem
    ensures var x := Storable(c.mem[WordNo(a)].bits, a, c.reg[Rd(w)], width, pins.bigend);
            var d := BaseDone(c, Accessed(c, pins, w, a, width, signed), pins, w, a, wb);
            StoresWord(c, d, w, Num(wb)) && d.mem == c.mem[WordNo(a) := x]
  {
    var d := Accessed(c, pins, w, a, width, signed);
    StoredValue(c, pins, w, a, width, signed);
    StoreSucceeds(c, pins, w, a);
    WritesIs(w);
    PutBase(d, Rn(w), wb);
    DoneIs(c, d, pins, w, a, wb);
    hide BitAt, Rd, Rn, WordNo, Num, Storable, Accessed, BaseDone, RegisterPut, BasePut, WritesBase, UpdatesBase, Succeeds;
  }

  // ---------------------------------------------------------------------------------------------
  // What is read

  lemma SignBit(x: Bits)
    requires Nat(x) < 0x100
    ensures x < 256 && (x & 0x80 != 0 <==> Nat(x) >= 0x80)
  {
    AtMost255();
    NatAtMost(x, 0xFF);
    NatAtMost(0x80, x);
    SevenOnes();
    HighBit(x);
    hide Nat;
  }

  lemma SevenOnes()
    ensures Nat(0x80) == 0x80
  {
    assert OneAt(4) == 0x10;
    assert OneAt(7) == 0x80 && Pow2(7) == 0x80;
    LowOneAt(7, 32);
  }

  lemma HighBit(x: Bits)
    requires AtMost(x, 0xFF)
    ensures x < 256 && (x & 0x80 != 0 <==> AtMost(0x80, x))
  {}

  lemma HalfSignBit(x: Bits)
    requires Nat(x) < 0x1_0000
    ensures x < 0x1_0000 && (x & 0x8000 != 0 <==> Nat(x) >= 0x8000)
  {
    HalfLimits();
    NatAtMost(x, 0xFFFF);
    NatAtMost(0x8000, x);
    HalfHighBit(x);
    hide Nat;
  }

  lemma HalfLimits()
    ensures Nat(0xFFFF) == 0xFFFF && Nat(0x8000) == 0x8000
  {
    AllOnes();
    Pow2Limb();
    LowOnes(0xFFFF, 16, 32);
    NatLow(0xFFFF);
    assert OneAt(8) == 0x100;
    assert OneAt(15) == 0x8000;
    LowOneAt(15, 32);
    assert Pow2(16) == 2 * Pow2(15);
    NatLow(0x8000);
    hide Low, IsOnes;
  }

  lemma HalfHighBit(x: Bits)
    requires AtMost(x, 0xFFFF)
    ensures x < 0x1_0000 && (x & 0x8000 != 0 <==> AtMost(0x8000, x))
  {}

  /** A number of n bits as a signed one. */
  function AsSigned(v: nat, half: nat): int { if v < half then v else v - 2 * half }

  lemma ByteValue(m: Memory, a: Word, big: bool)
    requires WordNo(a) in m
    ensures var b := ByteIn(m, Num(a), big);
            && Num(Loadable(m[WordNo(a)].bits, a, Width8, false, big)) == b
            && Signed(Loadable(m[WordNo(a)].bits, a, Width8, true, big)) == AsSigned(b, 0x80)
  {
    LaneIn(m, Num(a), big);
    var x := Ram.ByteOf(m[WordNo(a)].bits, Ram.Lane(Num(a), big));
    SignBit(x);
    SignByteNumber(x);
    WordNumber(Word(x));
    hide Num, Nat, Signed, Ram.ByteOf, Ram.Lane, SignByte, ByteIn;
  }

  lemma HalfValue(m: Memory, a: Word, big: bool)
    requires WordNo(a) in m
    ensures var h := HalfIn(m, Num(a), big);
            && Num(Loadable(m[WordNo(a)].bits, a, Width16, false, big)) == h
            && Signed(Loadable(m[WordNo(a)].bits, a, Width16, true, big)) == AsSigned(h, 0x8000)
  {
    HalfLaneIn(m, Num(a), big);
    var x := Ram.HalfOf(m[WordNo(a)].bits, Ram.HalfLane(Num(a), big));
    HalfSignBit(x);
    SignHalfNumber(x);
    WordNumber(Word(x));
    hide Num, Nat, Signed, Ram.HalfOf, Ram.HalfLane, SignHalf, HalfIn;
  }

  /** Eight times a byte offset. */
  function EightTimes(k: nat): Bits { if k == 0 then 0 else if k == 1 then 8 else if k == 2 then 16 else 24 }

  function Turned(a: Bits): Bits { (a & 3) << 3 }

  lemma TurnedUp(a: Bits)
    ensures Odd(a) && Odd(Half(a)) ==> Turned(a) == 24
    ensures Odd(a) && !Odd(Half(a)) ==> Turned(a) == 8
  {}

  lemma TurnedEven(a: Bits)
    ensures !Odd(a) && Odd(Half(a)) ==> Turned(a) == 16
    ensures !Odd(a) && !Odd(Half(a)) ==> Turned(a) == 0
  {}

  lemma TurnBits(a: Word)
    ensures Turn(a) == Turned(a.bits)
  {}

  lemma TurnIs(a: Word)
    ensures Turn(a) == EightTimes(Num(a) % 4)
  {
    hide *;
    TurnBits(a);
    TurnedUp(a.bits);
    TurnedEven(a.bits);
    EightValues();
    HalfParts2(a.bits);
    WordNumber(a);
    BinValues();
    Remainders(Low(Half(Half(a.bits)), 30), Bin(Odd(Half(a.bits))), Bin(Odd(a.bits)));
  }

  lemma EightValues()
    ensures EightTimes(0) == 0 && EightTimes(1) == 8 && EightTimes(2) == 16 && EightTimes(3) == 24
  {}

  /** A word read at any address is rotated right by its byte offset. */
  lemma WordValue(m: Memory, a: Word, big: bool)
    requires WordNo(a) in m
    ensures var x := Loadable(m[WordNo(a)].bits, a, Width32, false, big);
            x.bits == ShiftSteps(ROR, m[WordNo(a)].bits, EightTimes(Num(a) % 4), false).value && (Num(a) % 4 == 0 ==> x == m[WordNo(a)])
  {
    AlignIsRotation(m[WordNo(a)].bits, a, false);
    TurnIs(a);
    NoSteps(ROR, m[WordNo(a)].bits, false);
    hide Num, AlignedWord, ShiftSteps, Turn;
  }

  // ---------------------------------------------------------------------------------------------
  // The instructions

  /** The address of a word or byte transfer, and the base it leaves. */
  function WordTarget(c: Core, w: Bits): int { TargetOf(BaseNumber(c, w), OffsetNumber(c, w), w) }
  function WordMoved(c: Core, w: Bits): nat { MovedBase(BaseNumber(c, w), OffsetNumber(c, w), w) }

  lemma WordAddress(c: Core, w: Bits)
    requires IsTransfer(w)
    ensures Num(AccessAddress(c, w)) == WordTarget(c, w) && WordNo(AccessAddress(c, w)) == WordTarget(c, w) / 4
    ensures Num(IndexedBase(c, w)) == WordMoved(c, w) && 0 <= WordTarget(c, w)
  {
    hide *;
    AddressIs(c, w);
    LhsNumber(c, w);
    OffsetIs(c, w);
    AddressNumber(Lhs(c, w), WordOffset(c, w), w);
    TargetNumber(Lhs(c, w), WordOffset(c, w), w);
    TargetsAre(c, w);
    WordNoIs(AccessAddress(c, w));
  }

  lemma TargetsAre(c: Core, w: Bits)
    ensures WordTarget(c, w) == TargetOf(BaseNumber(c, w), OffsetNumber(c, w), w)
    ensures WordMoved(c, w) == MovedBase(BaseNumber(c, w), OffsetNumber(c, w), w)
  {
    hide TargetOf, MovedBase, BaseNumber, OffsetNumber;
  }

  lemma WordNoIs(a: Word)
    ensures WordNo(a) == Num(a) / 4
  {}

  /** LDR and LDRB in every addressing mode, from a mapped address. */
  lemma WordLoad(c: Core, pins: Pins, w: Bits, pc: Word)
    requires IsTransfer(w) && BitAt(w, 20) && Rd(w) != 15 && !c.aborted && WordTarget(c, w) / 4 in c.mem
    ensures var d, a := Dispatched(c, pins, w, pc), WordTarget(c, w);
            && LoadsRegister(c, d, w, WordMoved(c, w)) && a >= 0
            && (BitAt(w, 22) ==> Num(d.reg[Rd(w)]) == ByteIn(c.mem, a, pins.bigend))
            && (!BitAt(w, 22) ==> d.reg[Rd(w)].bits == ShiftSteps(ROR, c.mem[a / 4].bits, EightTimes(a % 4), false).value)
            && (!BitAt(w, 22) && a % 4 == 0 ==> d.reg[Rd(w)] == c.mem[a / 4])
  {
    hide *;
    var a := AccessAddress(c, w);
    WordAddress(c, w);
    TransferDispatched(c, pins, w, pc);
    WordParts(c, pins, w);
    AddressIs(c, w);
    PlainWidth(w);
    ByteValue(c.mem, a, pins.bigend);
    WordValue(c.mem, a, pins.bigend);
    LoadedRegister(c, pins, w, a, WordWidth(w), false, IndexedBase(c, w));
  }

  lemma SameOffset(c: Core, d: Core, w: Bits)
    requires d.reg == c.reg && d.c == c.c
    ensures WordOffset(d, w) == WordOffset(c, w) && HalfOffset(d, w) == HalfOffset(c, w)
  {
    hide BitAt, Imm12, Unshifted, Rm, KindOf, Shamt, ImmShiftValue, Nibble;
  }

  /** STR and STRB. */
  lemma WordStore(c: Core, pins: Pins, w: Bits, pc: Word, n: nat)
    requires IsTransfer(w) && !BitAt(w, 20) && !c.aborted && WordTarget(c, w) / 4 in c.mem && n / 4 in c.mem
    ensures var d, a, x := Dispatched(c, pins, w, pc), WordTarget(c, w), Num(c.reg[Rd(w)]);
            && StoresWord(c, d, w, WordMoved(c, w)) && d.mem.Keys == c.mem.Keys && n / 4 in d.mem
            && ByteIn(d.mem, n, pins.bigend)
            == (if BitAt(w, 22) then (if n == a then x % 0x100 else ByteIn(c.mem, n, pins.bigend))
                else if n / 4 == a / 4 then ByteNumber(x, if pins.bigend then 3 - n % 4 else n % 4)
                else ByteIn(c.mem, n, pins.bigend))
  {
    hide *;
    var a := AccessAddress(c, w);
    WordAddress(c, w);
    TransferDispatched(c, pins, w, pc);
    WordParts(c, pins, w);
    AddressIs(c, w);
    PlainWidth(w);
    var width := WordWidth(w);
    StoredValue(c, pins, w, a, width, false);
    SameOffset(c, Accessed(c, pins, w, a, width, false), w);
    StoredRegister(c, pins, w, a, width, false, IndexedBase(c, w));
    StorableIs(c.mem[WordNo(a)].bits, a, c.reg[Rd(w)], pins.bigend);
    WordNumber(c.reg[Rd(w)]);
    StoredByte(c.mem, Num(a), c.reg[Rd(w)].bits, n, pins.bigend);
    StoredWord(c.mem, Num(a), c.reg[Rd(w)], n, pins.bigend);
    SameKeys(c.mem, WordNo(a), Storable(c.mem[WordNo(a)].bits, a, c.reg[Rd(w)], width, pins.bigend));
  }

  lemma SameKeys(m: Memory, n: nat, w: Word)
    requires n in m
    ensures m[n := w].Keys == m.Keys
  {}

  lemma StorableIs(w: Bits, a: Word, data: Word, big: bool)
    ensures Storable(w, a, data, Width32, big) == data
    ensures Storable(w, a, data, Width8, big) == Word(Ram.PutByte(w, Ram.Lane(Num(a), big), data.bits))
    ensures Storable(w, a, data, Width16, big) == Word(Ram.PutHalf(w, Ram.HalfLane(Num(a), big), data.bits))
  {
    hide Num, Ram.PutByte, Ram.PutHalf, Ram.Lane, Ram.HalfLane;
  }

  // ---------------------------------------------------------------------------------------------
  // Halfwords and signed bytes

  function HalfTarget(c: Core, w: Bits): int { TargetOf(BaseNumber(c, w), HalfOffsetNumber(c, w), w) }
  function HalfMoved(c: Core, w: Bits): nat { MovedBase(BaseNumber(c, w), HalfOffsetNumber(c, w), w) }

  function HalfAddress(c: Core, w: Bits): Word
  {
    if IndexedFirst(w) then Address(Lhs(c, w), HalfOffset(c, w), w) else Lhs(c, w)
  }

  lemma HalfAddressNumber(c: Core, w: Bits)
    ensures Num(HalfAddress(c, w)) == HalfTarget(c, w) && WordNo(HalfAddress(c, w)) == HalfTarget(c, w) / 4
    ensures Num(Address(Lhs(c, w), HalfOffset(c, w), w)) == HalfMoved(c, w) && 0 <= HalfTarget(c, w)
  {
    LhsNumber(c, w);
    HalfOffsetIs(c, w);
    AddressNumber(Lhs(c, w), HalfOffset(c, w), w);
    TargetNumber(Lhs(c, w), HalfOffset(c, w), w);
    WordNoIs(HalfAddress(c, w));
    hide Lhs, HalfOffset, Address, Num, MovedBase, TargetOf, IndexedFirst, BaseNumber, HalfOffsetNumber, WordNo;
  }

  lemma HalfKind(w: Bits)
    requires IsHalf(w)
    ensures Supported(w) && !IsMultiply(w)
  {
    Execute.Overlap(w);
    hide IsTransfer, IsMultiply, IsHalf, IsData;
  }

  lemma HalfDispatched(c: Core, pins: Pins, w: Bits, pc: Word)
    requires IsHalf(w)
    ensures Dispatched(c, pins, w, pc) == HalfTransferred(c, pins, w)
  {
    hide *;
    HalfKind(w);
    DispatchKinds(c, pins, w, pc);
    HalfExecuted(c, pins, w);
  }

  lemma HalfExecuted(c: Core, pins: Pins, w: Bits)
    requires IsHalf(w) && Supported(w) && !IsMultiply(w)
    ensures Executed(c, pins, w) == HalfTransferred(c, pins, w)
  {
    hide IsTransfer, IsMultiply, IsHalf, IsData, HalfTransferred;
  }

  lemma HalfForms(w: Bits)
    ensures BitAt(w, 20) && !BitAt(w, 5) ==> HalfWidth(w) == Width8 && HalfSigned(w)
    ensures BitAt(w, 20) && BitAt(w, 5) ==> HalfWidth(w) == Width16 && HalfSigned(w) == BitAt(w, 6)
    ensures !BitAt(w, 20) ==> HalfWidth(w) == Width16
  {
    hide BitAt;
  }

  /** LDRH (bits 5 and 6 are 1 and 0), LDRSB (0 and 1) and LDRSH (1 and 1). */
  lemma HalfLoad(c: Core, pins: Pins, w: Bits, pc: Word)
    requires IsHalf(w) && BitAt(w, 20) && Rd(w) != 15 && !c.aborted && HalfTarget(c, w) / 4 in c.mem
    ensures var d, a := Dispatched(c, pins, w, pc), HalfTarget(c, w);
            && LoadsRegister(c, d, w, HalfMoved(c, w)) && a >= 0
            && (BitAt(w, 5) && !BitAt(w, 6) ==> Num(d.reg[Rd(w)]) == HalfIn(c.mem, a, pins.bigend))
            && (BitAt(w, 5) && BitAt(w, 6) ==> Signed(d.reg[Rd(w)]) == AsSigned(HalfIn(c.mem, a, pins.bigend), 0x8000))
            && (!BitAt(w, 5) ==> Signed(d.reg[Rd(w)]) == AsSigned(ByteIn(c.mem, a, pins.bigend), 0x80))
  {
    hide *;
    var a := HalfAddress(c, w);
    HalfAddressNumber(c, w);
    HalfDispatched(c, pins, w, pc);
    HalfParts(c, pins, w);
    HalfAddressIs(c, w);
    HalfForms(w);
    ByteValue(c.mem, a, pins.bigend);
    HalfValue(c.mem, a, pins.bigend);
    LoadedRegister(c, pins, w, a, HalfWidth(w), HalfSigned(w), Address(Lhs(c, w), HalfOffset(c, w), w));
  }

  lemma HalfAddressIs(c: Core, w: Bits)
    ensures HalfAddress(c, w) == if IndexedFirst(w) then Address(Lhs(c, w), HalfOffset(c, w), w) else Lhs(c, w)
  {
    hide Address, Lhs, HalfOffset, IndexedFirst;
  }

  /** STRH. */
  lemma HalfStore(c: Core, pins: Pins, w: Bits, pc: Word, n: nat)
    requires IsHalf(w) && !BitAt(w, 20) && !c.aborted && HalfTarget(c, w) / 4 in c.mem && n / 4 in c.mem
    ensures var d, a, x := Dispatched(c, pins, w, pc), HalfTarget(c, w), Num(c.reg[Rd(w)]);
            var lo, hi := x % 0x100, x / 0x100 % 0x100;
            && a >= 0 && StoresWord(c, d, w, HalfMoved(c, w)) && d.mem.Keys == c.mem.Keys && n / 4 in d.mem
            && ByteIn(d.mem, n, pins.bigend)
            == (if n == EvenAddress(a) then (if pins.bigend then hi else lo)
                else if n == EvenAddress(a) + 1 then (if pins.bigend then lo else hi)
                else ByteIn(c.mem, n, pins.bigend))
  {
    hide *;
    var a, wb := HalfAddress(c, w), Address(Lhs(c, w), HalfOffset(c, w), w);
    HalfAddressNumber(c, w);
    HalfDispatched(c, pins, w, pc);
    HalfParts(c, pins, w);
    HalfAddressIs(c, w);
    HalfForms(w);
    var width, signed := HalfWidth(w), HalfSigned(w);
    StoredValue(c, pins, w, a, width, signed);
    SameOffset(c, Accessed(c, pins, w, a, width, signed), w);
    StoredRegister(c, pins, w, a, width, signed, wb);
    StorableIs(c.mem[WordNo(a)].bits, a, c.reg[Rd(w)], pins.bigend);
    WordNumber(c.reg[Rd(w)]);
    StoredHalf(c.mem, Num(a), c.reg[Rd(w)].bits, n, pins.bigend);
    SameKeys(c.mem, WordNo(a), Storable(c.mem[WordNo(a)].bits, a, c.reg[Rd(w)], width, pins.bigend));
  }

  // ---------------------------------------------------------------------------------------------
  // Accesses of different widths

  lemma ByteLoaded(c: Core, pins: Pins, w: Bits, pc: Word)
    requires IsTransfer(w) && BitAt(w, 20) && BitAt(w, 22) && Rd(w) != 15 && !c.aborted && WordTarget(c, w) / 4 in c.mem
    ensures WordTarget(c, w) >= 0 && Num(Dispatched(c, pins, w, pc).reg[Rd(w)]) == ByteIn(c.mem, WordTarget(c, w), pins.bigend)
  {
    hide *;
    WordLoad(c, pins, w, pc);
  }

  lemma WordLoaded(c: Core, pins: Pins, w: Bits, pc: Word)
    requires IsTransfer(w) && BitAt(w, 20) && !BitAt(w, 22) && Rd(w) != 15 && !c.aborted && WordTarget(c, w) / 4 in c.mem
    requires WordTarget(c, w) % 4 == 0
    ensures WordTarget(c, w) >= 0 && Dispatched(c, pins, w, pc).reg[Rd(w)] == c.mem[WordTarget(c, w) / 4]
  {
    hide *;
    WordLoad(c, pins, w, pc);
  }

  lemma HalfLoaded(c: Core, pins: Pins, w: Bits, pc: Word)
    requires IsHalf(w) && BitAt(w, 20) && BitAt(w, 5) && !BitAt(w, 6) && Rd(w) != 15 && !c.aborted && HalfTarget(c, w) / 4 in c.mem
    ensures HalfTarget(c, w) >= 0 && Num(Dispatched(c, pins, w, pc).reg[Rd(w)]) == HalfIn(c.mem, HalfTarget(c, w), pins.bigend)
  {
    hide *;
    HalfLoad(c, pins, w, pc);
  }

  lemma ByteOf(m: Memory, a: nat, i: nat, big: bool)
    requires a % 4 == 0 && i < 4 && a / 4 in m
    ensures (a + i) / 4 == a / 4 && ByteIn(m, a + i, big) == ByteNumber(Num(m[a / 4]), if big then 3 - i else i)
  {
    assert (a + i) / 4 == a / 4 && (a + i) % 4 == i;
    hide Num, ByteNumber;
  }

  /** A byte load from an aligned word is a byte of what a word load delivers, counted from the end that the endianness says. */
  lemma ByteOfWord(c: Core, pins: Pins, word: Bits, byte: Bits, pc: Word, i: nat)
    requires IsTransfer(word) && BitAt(word, 20) && !BitAt(word, 22) && Rd(word) != 15
    requires IsTransfer(byte) && BitAt(byte, 20) && BitAt(byte, 22) && Rd(byte) != 15 && !c.aborted && i < 4
    requires var a := WordTarget(c, word); a >= 0 && a % 4 == 0 && a / 4 in c.mem && WordTarget(c, byte) == a + i
    ensures Num(Dispatched(c, pins, byte, pc).reg[Rd(byte)])
         == ByteNumber(Num(Dispatched(c, pins, word, pc).reg[Rd(word)]), if pins.bigend then 3 - i else i)
  {
    hide *;
    ByteOf(c.mem, WordTarget(c, word), i, pins.bigend);
    WordLoaded(c, pins, word, pc);
    ByteLoaded(c, pins, byte, pc);
  }

  lemma HalfBytes(m: Memory, h: nat, big: bool)
    requires h % 2 == 0 && h / 4 in m
    ensures (h + 1) / 4 == h / 4
    ensures HalfIn(m, h, big) == if big then 0x100 * ByteIn(m, h, big) + ByteIn(m, h + 1, big)
                                 else ByteIn(m, h, big) + 0x100 * ByteIn(m, h + 1, big)
  {
    EvenParts(h);
    EvenItself(h);
    hide ByteIn, EvenAddress;
  }

  /** A halfword load is its two byte loads. */
  lemma HalfOfBytes(c: Core, pins: Pins, half: Bits, byte0: Bits, byte1: Bits, pc: Word)
    requires IsHalf(half) && BitAt(half, 20) && BitAt(half, 5) && !BitAt(half, 6) && Rd(half) != 15 && !c.aborted
    requires IsTransfer(byte0) && BitAt(byte0, 20) && BitAt(byte0, 22) && Rd(byte0) != 15
    requires IsTransfer(byte1) && BitAt(byte1, 20) && BitAt(byte1, 22) && Rd(byte1) != 15
    requires var h := HalfTarget(c, half);
             h >= 0 && h % 2 == 0 && h / 4 in c.mem && WordTarget(c, byte0) == h && WordTarget(c, byte1) == h + 1
    ensures var b0, b1 := Num(Dispatched(c, pins, byte0, pc).reg[Rd(byte0)]), Num(Dispatched(c, pins, byte1, pc).reg[Rd(byte1)]);
            Num(Dispatched(c, pins, half, pc).reg[Rd(half)]) == if pins.bigend then 0x100 * b0 + b1 else b0 + 0x100 * b1
  {
    hide *;
    HalfBytes(c.mem, HalfTarget(c, half), pins.bigend);
    HalfLoaded(c, pins, half, pc);
    ByteLoaded(c, pins, byte0, pc);
    ByteLoaded(c, pins, byte1, pc);
  }

  lemma EvenItself(h: nat)
    requires h % 2 == 0
    ensures EvenAddress(h) == h
  {}

  /** A byte that is stored is loaded again, from any state with that memory, and every other byte is what it was. */
  lemma StoredByteLoads(c: Core, pins: Pins, store: Bits, pc: Word, e: Core, load: Bits, next: Word)
    requires IsTransfer(store) && !BitAt(store, 20) && BitAt(store, 22) && !c.aborted && WordTarget(c, store) / 4 in c.mem
    requires e.mem == Dispatched(c, pins, store, pc).mem && !e.aborted
    requires IsTransfer(load) && BitAt(load, 20) && BitAt(load, 22) && Rd(load) != 15 && WordTarget(e, load) / 4 in c.mem
    ensures var n := WordTarget(e, load);
            n >= 0 && Num(Dispatched(e, pins, load, next).reg[Rd(load)])
                   == if n == WordTarget(c, store) then Num(c.reg[Rd(store)]) % 0x100 else ByteIn(c.mem, n, pins.bigend)
  {
    TargetNatural(e, load);
    hide IsTransfer, BitAt, Rd, Dispatched, Num, WordTarget, ByteNumber, LoadsRegister, StoresWord, ShiftSteps, EightTimes, WordMoved, ByteIn;
    WordStore(c, pins, store, pc, WordTarget(e, load));
    WordLoad(e, pins, load, next);
  }

  lemma TargetNatural(c: Core, w: Bits)
    ensures WordTarget(c, w) >= 0 && HalfTarget(c, w) >= 0
  {
    LhsNumber(c, w);
    hide BaseNumber, OffsetNumber, HalfOffsetNumber, BitAt, Lhs;
  }

  /** The bytes of a halfword that is stored are loaded again. */
  lemma StoredHalfLoads(c: Core, pins: Pins, store: Bits, pc: Word, e: Core, load: Bits, next: Word)
    requires IsHalf(store) && !BitAt(store, 20) && !c.aborted && HalfTarget(c, store) / 4 in c.mem && HalfTarget(c, store) % 2 == 0
    requires e.mem == Dispatched(c, pins, store, pc).mem && !e.aborted
    requires IsTransfer(load) && BitAt(load, 20) && BitAt(load, 22) && Rd(load) != 15 && WordTarget(e, load) / 4 in c.mem
    ensures var n, a, x := WordTarget(e, load), HalfTarget(c, store), Num(c.reg[Rd(store)]);
            n >= 0 && Num(Dispatched(e, pins, load, next).reg[Rd(load)])
                   == if n == a then (if pins.bigend then x / 0x100 % 0x100 else x % 0x100)
                      else if n == a + 1 then (if pins.bigend then x % 0x100 else x / 0x100 % 0x100)
                      else ByteIn(c.mem, n, pins.bigend)
  {
    TargetNatural(e, load);
    TargetNatural(c, store);
    EvenItself(HalfTarget(c, store));
    hide IsTransfer, IsHalf, BitAt, Rd, Dispatched, Num, WordTarget, HalfTarget, ByteNumber, LoadsRegister, StoresWord, ShiftSteps, EightTimes,
      WordMoved, HalfMoved, ByteIn, EvenAddress;
    HalfStore(c, pins, store, pc, WordTarget(e, load));
    WordLoad(e, pins, load, next);
  }

  // ---------------------------------------------------------------------------------------------
  // Late aborts

  /** The state of the access that aborts. */
  function Faulting(c: Core, w: Bits): Core
  {
    c.(abortSig := true, aborted := true, nextInstr := if BitAt(w, 20) then c.nextInstr else c.nextInstr + 1 - c.nextInstr % 2)
  }

  lemma AccessFaults(c: Core, pins: Pins, w: Bits, a: Word, width: Width, signed: bool)
    requires WordNo(a) !in c.mem
    ensures Accessed(c, pins, w, a, width, signed) == Entered(Faulting(c, w), pins, DataAbort)
    ensures Succeeds(c, pins, w, a, BitAt(w, 20)) == pins.lateabt
  {
    hide BitAt, Rd, Rn, WordNo, Entered, Loadable, Storable;
  }

  /** LDR, LDRB, STR and STRB from an address that is not mapped, with a base to be written: the data abort is taken, and with
      late aborts the base is written after it, in the registers of Abort mode. */
  lemma WordFaults(c: Core, pins: Pins, w: Bits, pc: Word)
    requires IsTransfer(w) && UpdatesBase(w) && (BitAt(w, 20) || BitAt(w, 24)) && WordNo(AccessAddress(c, w)) !in c.mem
    ensures var e := Entered(Faulting(c, w), pins, DataAbort);
            Dispatched(c, pins, w, pc) == if pins.lateabt then RegisterPut(e, Rn(w), IndexedBase(c, w)) else e
  {
    hide *;
    var a := AccessAddress(c, w);
    TransferDispatched(c, pins, w, pc);
    WordParts(c, pins, w);
    AddressIs(c, w);
    AccessFaults(c, pins, w, a, WordWidth(w), false);
    WritesIs(w);
    DoneIs(c, Accessed(c, pins, w, a, WordWidth(w), false), pins, w, a, IndexedBase(c, w));
  }

  /** LDRH, LDRSB, LDRSH and STRH. */
  lemma HalfFaults(c: Core, pins: Pins, w: Bits, pc: Word)
    requires IsHalf(w) && UpdatesBase(w) && (BitAt(w, 20) || BitAt(w, 24)) && WordNo(HalfAddress(c, w)) !in c.mem
    ensures var e, wb := Entered(Faulting(c, w), pins, DataAbort), Address(Lhs(c, w), HalfOffset(c, w), w);
            Dispatched(c, pins, w, pc) == if pins.lateabt then RegisterPut(e, Rn(w), wb) else e
  {
    hide *;
    var a := HalfAddress(c, w);
    HalfDispatched(c, pins, w, pc);
    HalfParts(c, pins, w);
    HalfAddressIs(c, w);
    AccessFaults(c, pins, w, a, HalfWidth(w), HalfSigned(w));
    WritesIs(w);
    DoneIs(c, Accessed(c, pins, w, a, HalfWidth(w), HalfSigned(w)), pins, w, a, Address(Lhs(c, w), HalfOffset(c, w), w));
  }

  lemma FaultingKeeps(c: Core, w: Bits, o: BankNo, r: RegNo)
    ensures B.Consistent(Faulting(c, w)) == B.Consistent(c) && B.Flat(Faulting(c, w), o, r) == B.Flat(c, o, r)
  {
    hide BitAt, B.ValidMode, ModeToBank;
  }

  lemma PutView(e: Core, o: BankNo, r: RegNo, w: Word)
    requires e.bankNo == ABORTBANK
    ensures B.Flat(RegisterPut(e, r, w), o, r) == if B.Owner(ABORTBANK, r) == o then w else B.Flat(e, o, r)
  {}

  lemma OwnView(c: Core, r: RegNo)
    requires B.Consistent(c)
    ensures var o := B.Owner(c.bankNo, r); B.IsRegister(o, r) && B.Flat(c, o, r) == c.reg[r]
    ensures B.Owner(c.bankNo, r) == ABORTBANK ==> B.Owner(ABORTBANK, r) == ABORTBANK
  {
    B.ValidModeBank(c.mode);
    hide ModeToBank, B.ValidMode;
  }

  lemma AbortBank()
    ensures EntryBank(DataAbort) == ABORTBANK
  {}

  /** With late aborts the base register of the aborted program has the moved base if and only if Abort mode shares that
      register with the program, or there was nothing to write. */
  lemma LateBaseExactly(c: Core, pins: Pins, w: Bits, pc: Word)
    requires B.Consistent(c) && IsTransfer(w) && UpdatesBase(w) && (BitAt(w, 20) || BitAt(w, 24)) && Rn(w) != 15 && pins.lateabt
    requires WordNo(AccessAddress(c, w)) !in c.mem
    ensures B.Flat(Dispatched(c, pins, w, pc), B.Owner(c.bankNo, Rn(w)), Rn(w)) == IndexedBase(c, w)
       <==> B.Owner(ABORTBANK, Rn(w)) == B.Owner(c.bankNo, Rn(w)) || c.reg[Rn(w)] == IndexedBase(c, w)
  {
    hide *;
    var o, r := B.Owner(c.bankNo, Rn(w)), Rn(w);
    var f := Faulting(c, w);
    var e := Entered(f, pins, DataAbort);
    WordFaults(c, pins, w, pc);
    FaultingKeeps(c, w, o, r);
    OwnView(c, r);
    AbortBank();
    EntryEffect(f, pins, DataAbort);
    PutView(e, o, r, IndexedBase(c, w));
    if B.Owner(ABORTBANK, r) != o { EntryRegister(f, pins, DataAbort, o, r); }
  }

  // ---------------------------------------------------------------------------------------------
  // SWP from an unmapped address

  /** What an unmapped read returns: 0xEFFFFFFF, which SWP then rotates by the byte offset of the address and SWPB does not. */
  function FaultValue(c: Core, w: Bits): Word
  {
    var x := if c.t then 0xEFFF_DFFF else 0xEFFF_FFFF;
    if BitAt(w, 22) then Word(x) else Word(ShiftSteps(ROR, x, EightTimes(Num(Lhs(c, w)) % 4), false).value)
  }

  lemma SwapRotates(w: Bits, a: Word, big: bool)
    ensures Loadable(w, a, Width32, false, big) == Word(ShiftSteps(ROR, w, EightTimes(Num(a) % 4), false).value)
  {
    AlignIsRotation(w, a, false);
    TurnIs(a);
    hide Num, AlignedWord, ShiftSteps, Turn;
  }

  lemma SwapFaultValue(c: Core, w: Bits, big: bool)
    requires WordNo(Lhs(c, w)) !in c.mem
    ensures SwapValue(c, Lhs(c, w), WordWidth(w), big) == FaultValue(c, w)
  {
    SwapRotates((if c.t then 0xEFFF_DFFF else 0xEFFF_FFFF), Lhs(c, w), big);
    hide Lhs, WordNo, BitAt, Loadable, ShiftSteps, EightTimes, Num;
  }

  lemma ExchangeFaults(c: Core, w: Bits, a: Word, width: Width, big: bool)
    requires WordNo(a) !in c.mem
    ensures Exchanged(c, w, a, width, big) == RegisterPut(c.(abortSig := true, aborted := true), Rd(w), SwapValue(c, a, width, big))
  {
    hide WordNo, Rd, Rm, SwapValue, Storable, RegisterPut;
  }

  lemma SwapAborts(c: Core, pins: Pins, w: Bits, pc: Word)
    requires IsSwap(w) && WordNo(Lhs(c, w)) !in c.mem
    ensures var f := RegisterPut(c.(abortSig := true, aborted := true), Rd(w), FaultValue(c, w));
            Dispatched(c, pins, w, pc) == Entered(f, pins, DataAbort)
  {
    hide *;
    var a, width := Lhs(c, w), WordWidth(w);
    SwapDispatched(c, pins, w, pc);
    ExchangeFaults(c, w, a, width, pins.bigend);
    SwapFaultValue(c, w, pins.bigend);
    SwappedIs(c, pins, w);
    PutSignals(c.(abortSig := true, aborted := true), Rd(w), FaultValue(c, w));
  }

  lemma SwappedIs(c: Core, pins: Pins, w: Bits)
    ensures var d := Exchanged(c, w, Lhs(c, w), WordWidth(w), pins.bigend);
            Swapped(c, pins, w) == if d.abortSig || d.aborted then Entered(d, pins, DataAbort) else d
  {
    hide Exchanged, Lhs, WordWidth, Entered;
  }

  lemma PutSignals(c: Core, r: RegNo, w: Word)
    ensures var d := RegisterPut(c, r, w); d.aborted == c.aborted && d.mem == c.mem && d.mode == c.mode && d.bankNo == c.bankNo && d.reg[r] == w
    ensures B.Consistent(RegisterPut(c, r, w)) == B.Consistent(c)
  {
    hide B.ValidMode, ModeToBank;
  }

  lemma SignalKeeps(c: Core)
    ensures var d := c.(abortSig := true, aborted := true); B.Consistent(d) == B.Consistent(c) && d.mem == c.mem && d.bankNo == c.bankNo
  {
    hide B.ValidMode, ModeToBank;
  }

  /** SWP and SWPB from an unmapped address take the data abort, and memory stays as it is. The manual wants the destination kept;
      it is if and only if it held what an unmapped read returns. */
  lemma SwapFaultExactly(c: Core, pins: Pins, w: Bits, pc: Word)
    requires IsSwap(w) && B.Consistent(c) && WordNo(Lhs(c, w)) !in c.mem
    requires Rd(w) != 15 && !(c.bankNo == ABORTBANK && Rd(w) == 14)
    ensures var d, o := Dispatched(c, pins, w, pc), B.Owner(c.bankNo, Rd(w));
            && V.TakenAt(d, pins, 16, 0x17) && d.mem == c.mem
            && (B.Flat(d, o, Rd(w)) == c.reg[Rd(w)] <==> c.reg[Rd(w)] == FaultValue(c, w))
  {
    hide *;
    var r := Rd(w);
    var q := c.(abortSig := true, aborted := true);
    var f := RegisterPut(q, r, FaultValue(c, w));
    SignalKeeps(c);
    PutSignals(q, r, FaultValue(c, w));
    SwapAborts(c, pins, w, pc);
    V.SevenVectors(f, pins);
    EntryEffect(f, pins, DataAbort);
    OwnView(f, r);
    NotLink(c, r);
    EntryRegister(f, pins, DataAbort, B.Owner(c.bankNo, r), r);
  }

  lemma NotLink(c: Core, r: RegNo)
    requires !(c.bankNo == ABORTBANK && r == 14)
    ensures !(B.Owner(c.bankNo, r) == EntryBank(DataAbort) && r == 14)
  {}
}
