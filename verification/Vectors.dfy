/** Exception vectors (ARM DDI 0100, section A2.6), as numbers: where each exception goes, and in which mode. */
module Vectors {
  import opened Words
  import Fields
  import opened State
  import opened Alu
  import opened Banks
  import opened DataPath
  import opened Exceptions
  import opened Block
  import opened Execute
  import opened MainSwitch
  import opened Emulator
  import C = Conditions
  import T = Thumb

  /** Taken at an address, which the configuration may move, and in a mode. */
  predicate TakenAt(d: Core, pins: Pins, offset: nat, mode: Bits)
  {
    && Num(d.reg[15]) == (offset + (if pins.highVectors then 0xFFFF_0000 else 0) + Num(pins.remap)) % LIMB
    && d.mode.bits == mode
  }

  lemma SmallNumbers()
    ensures Num(Word(0)) == 0 && Num(Word(4)) == 4 && Num(Word(8)) == 8 && Num(Word(16)) == 16
  {
    SmallWords();
    LowZero(32);
    LowOneAt(4, 32);
    assert OneAt(4) == 16 && Pow2(4) == 16;
    hide Low;
  }

  /** Table A2-4: the address of each exception, and the mode it is taken in. */
  function TableOffset(e: Exception): nat
  {
    match e
    case Reset => 0
    case Undefined => 4
    case Swi => 8
    case PrefetchAbort => 12
    case DataAbort => 16
    case Irq => 24
    case Fiq => 28
  }

  function TableMode(e: Exception): Bits
  {
    match e
    case Reset => 0x13
    case Undefined => 0x1B
    case Swi => 0x13
    case PrefetchAbort => 0x17
    case DataAbort => 0x17
    case Irq => 0x12
    case Fiq => 0x11
  }

  lemma VectorNumbers(e: Exception)
    ensures Num(Vector(e)) == TableOffset(e)
  {
    SmallNumbers();
    Sum(8, 4);
    Sum(16, 8);
    Sum(24, 4);
    hide Num;
  }

  lemma Sum(a: Bits, b: Bits)
    requires Fields.Disjoint(a, b)
    ensures Num(Word(Fields.Or(a, b))) == Num(Word(a)) + Num(Word(b))
  {
    Fields.NatOr(a, b);
    NumNat(Word(a));
    NumNat(Word(b));
    NumNat(Word(Fields.Or(a, b)));
    hide Num, Nat, Fields.Disjoint, Fields.Or;
  }

  lemma HighNumber()
    ensures Num(Word(0xFFFF_0000)) == 0xFFFF_0000
  {
    AllOnes();
    NatNot(0xFFFF);
    Fields.LowOnes(0xFFFF, 16, 32);
    Pow2Limb();
    assert Not(0xFFFF) == 0xFFFF_0000;
    NumNat(Word(0xFFFF_0000));
    NatIs(0xFFFF);
    hide Num, Nat, Not, Low;
  }

  lemma NatIs(x: Bits)
    ensures Nat(x) == Low(x, 32)
  {}

  lemma PlusNumber(a: Word, b: Word)
    ensures Num(Plus(a, b)) == (Num(a) + Num(b)) % LIMB
  {
    NumPlus(a, b);
    NumLimit(a);
    NumLimit(b);
    hide Num, Plus;
  }

  lemma ThreeTerms(v: nat, h: nat, r: nat)
    ensures (v + (h + r) % LIMB) % LIMB == (v + h + r) % LIMB
  {
    var q := (h + r) / LIMB;
    assert h + r == q * LIMB + (h + r) % LIMB;
    Multiple(v + (h + r) % LIMB, q);
  }

  lemma Multiple(x: nat, q: nat)
    ensures (x + q * LIMB) % LIMB == x % LIMB
  {
    var k := x / LIMB;
    DivModUnique(x + q * LIMB, LIMB, k + q, x % LIMB);
  }

  lemma BaseNumber(pins: Pins)
    ensures Num(VectorBase(pins)) == ((if pins.highVectors then 0xFFFF_0000 else 0) + Num(pins.remap)) % LIMB
  {
    HighNumber();
    SmallNumbers();
    PlusNumber(if pins.highVectors then Word(0xFFFF_0000) else Word(0), pins.remap);
    hide Num, Plus;
  }

  lemma AddressNumber(e: Exception, pins: Pins)
    ensures Num(Plus(Vector(e), VectorBase(pins)))
         == (Num(Vector(e)) + (if pins.highVectors then 0xFFFF_0000 else 0) + Num(pins.remap)) % LIMB
  {
    hide *;
    PlusNumber(Vector(e), VectorBase(pins));
    BaseNumber(pins);
    ThreeTerms(Num(Vector(e)), if pins.highVectors then 0xFFFF_0000 else 0, Num(pins.remap));
  }

  lemma ModeNumbers(e: Exception)
    ensures EntryMode(e).bits == TableMode(e)
  {}

  lemma ModeOf(d: Core)
    ensures StatusOf(d).mode == d.mode
  {}

  lemma StatusModeOf(c: Core, e: Exception)
    ensures StatusOf(c).(i := true, f := c.f || e.Reset? || e.Fiq?, t := false, mode := EntryMode(e)).mode == EntryMode(e)
  {}

  /** An exception from any 32-bit mode goes to its address in the table, and is taken in the mode of the table. */
  lemma EntryAt(c: Core, pins: Pins, e: Exception)
    requires Consistent(c)
    ensures TakenAt(Entered(c, pins, e), pins, TableOffset(e), TableMode(e))
  {
    hide *;
    var d := Entered(c, pins, e);
    EntryEffect(c, pins, e);
    VectorNumbers(e);
    AddressNumber(e, pins);
    ModeNumbers(e);
    ModeOf(d);
    StatusModeOf(c, e);
    TakenAtIs(d, pins, TableOffset(e), TableMode(e));
  }

  lemma TakenAtIs(d: Core, pins: Pins, offset: nat, mode: Bits)
    ensures TakenAt(d, pins, offset, mode)
       <==> (Num(d.reg[15]) == (offset + (if pins.highVectors then 0xFFFF_0000 else 0) + Num(pins.remap)) % LIMB && d.mode.bits == mode)
  {
    hide Num;
  }

  /** The same, for the seven exceptions one by one. */
  lemma SevenVectors(c: Core, pins: Pins)
    requires Consistent(c)
    ensures TakenAt(Entered(c, pins, Reset), pins, 0, 0x13) && TakenAt(Entered(c, pins, Undefined), pins, 4, 0x1B)
    ensures TakenAt(Entered(c, pins, Swi), pins, 8, 0x13) && TakenAt(Entered(c, pins, PrefetchAbort), pins, 12, 0x17)
    ensures TakenAt(Entered(c, pins, DataAbort), pins, 16, 0x17) && TakenAt(Entered(c, pins, Irq), pins, 24, 0x12)
    ensures TakenAt(Entered(c, pins, Fiq), pins, 28, 0x11)
  {
    hide *;
    TableValues();
    EntryAt(c, pins, Reset);
    EntryAt(c, pins, Undefined);
    EntryAt(c, pins, Swi);
    EntryAt(c, pins, PrefetchAbort);
    EntryAt(c, pins, DataAbort);
    EntryAt(c, pins, Irq);
    EntryAt(c, pins, Fiq);
  }

  lemma TableValues()
    ensures TableOffset(Reset) == 0 && TableOffset(Undefined) == 4 && TableOffset(Swi) == 8 && TableOffset(PrefetchAbort) == 12
    ensures TableOffset(DataAbort) == 16 && TableOffset(Irq) == 24 && TableOffset(Fiq) == 28
    ensures TableMode(Reset) == 0x13 && TableMode(Undefined) == 0x1B && TableMode(Swi) == 0x13 && TableMode(PrefetchAbort) == 0x17
    ensures TableMode(DataAbort) == 0x17 && TableMode(Irq) == 0x12 && TableMode(Fiq) == 0x11
  {}

  // ---------------------------------------------------------------------------------------------
  // SWI

  lemma SwiKind(w: Bits)
    requires IsSwi(w)
    ensures !Supported(w) && !IsLongMultiply(w) && !IsMsr(w) && !IsBlock(w) && !IsSwap(w) && !IsMrs(w) && !IsBx(w) && !IsArmBranch(w)
  {
    hide RegList;
  }

  lemma SwiDispatched(c: Core, pins: Pins, w: Bits, pc: Word)
    requires IsSwi(w)
    ensures Dispatched(c, pins, w, pc) == Entered(c, pins, Swi)
  {
    SwiKind(w);
    hide Supported, IsLongMultiply, IsMsr, IsBlock, IsSwap, IsMrs, IsBx, IsArmBranch, IsSwi, Entered;
  }

  /** SWI is taken in Supervisor mode at address 8, and the link register holds the address of the next instruction. */
  lemma SwiTaken(c: Core, pins: Pins, w: Bits, pc: Word)
    requires IsSwi(w) && Consistent(c) && c.reg[15] == Ahead(pc, c.t)
    ensures var d := Dispatched(c, pins, w, pc); TakenAt(d, pins, 8, 0x13) && d.reg[14] == Plus(pc, Isize(c.t))
  {
    hide *;
    SwiDispatched(c, pins, w, pc);
    SevenVectors(c, pins);
    EntryEffect(c, pins, Swi);
    SwiLink(pc, c.t);
  }

  lemma SwiLink(pc: Word, t: bool)
    ensures Link(Swi, Ahead(pc, t), t) == Plus(pc, Isize(t))
  {
    SmallWords();
    NumLimit(pc);
    NumPlus(pc, Isize(t));
    NumPlus(pc, if t then Word(4) else Word(8));
    NumMinus(Ahead(pc, t), Isize(t));
    hide Num, Plus, Minus;
    WordEqual(Minus(Ahead(pc, t), Isize(t)), Plus(pc, Isize(t)));
  }

  // ---------------------------------------------------------------------------------------------
  // Undefined instructions

  lemma UndefinedLink(pc: Word, t: bool)
    ensures Link(Undefined, Ahead(pc, t), t) == Plus(pc, Isize(t))
  {
    SwiLink(pc, t);
    hide Minus, Plus, Isize;
  }

  /** An instruction that is none of the modelled ones, in ARM state and with its condition met, is taken as undefined: in Undefined
      mode at address 4, with the address of the next instruction in the link register. */
  lemma UndefinedTaken(c: Core, pins: Pins, w: Bits, pc: Word)
    requires !c.t && !Modelled(w) && C.Passes(w >> 28, c.n, c.z, c.c, c.v) && Consistent(c) && c.reg[15] == Ahead(pc, false)
    ensures var d := Emulated(c, pins, w, pc); TakenAt(d, pins, 4, 0x1B) && d.reg[14] == Plus(pc, Word(4))
  {
    hide *;
    C.TopSmall(w);
    C.HoldsAsWritten(w >> 28, FlagsOf(c));
    C.FlagsFields(c);
    C.EmulatedArm(c, pins, w, pc);
    SevenVectors(c, pins);
    EntryEffect(c, pins, Undefined);
    UndefinedLink(pc, false);
    ArmSize();
  }

  lemma ArmSize()
    ensures Isize(false) == Word(4)
  {}

  /** The same of a Thumb halfword that ARMul_ThumbDecode does not know. */
  lemma ThumbUndefinedTaken(c: Core, pins: Pins, pair: Bits, pc: Word)
    requires c.t && T.Decode(c, pins, pc, pair, false).Undefined? && Consistent(c) && c.reg[15] == Ahead(pc, true)
    ensures var d := Emulated(c, pins, pair, pc); TakenAt(d, pins, 4, 0x1B) && d.reg[14] == Plus(pc, Word(2))
  {
    hide *;
    ThumbUndefinedIs(c, pins, pair, pc);
    SevenVectors(c, pins);
    EntryEffect(c, pins, Undefined);
    UndefinedLink(pc, true);
    ThumbSize();
  }

  lemma ThumbSize()
    ensures Isize(true) == Word(2)
  {}

  lemma ThumbUndefinedIs(c: Core, pins: Pins, pair: Bits, pc: Word)
    requires c.t && T.Decode(c, pins, pc, pair, false).Undefined?
    ensures Emulated(c, pins, pair, pc) == Entered(c, pins, Undefined)
  {
    hide T.Decode, Entered;
  }
}
