/** Thumb translation: format 5, the operations on high registers and BX. MOV and BX are always translated right. ADD is
    not if it takes r15, at an address that is not word-aligned, as its first operand, which the ARM instruction reads
    rounded down. CMP is not if its first operand is r15, which makes it CMPP. */
module ThumbProof5 {
  import opened Words
  import opened State
  import opened Support
  import opened Alu
  import opened Banks
  import opened DataPath
  import opened Exceptions
  import opened Manual
  import opened Execute
  import opened MainSwitch
  import opened Interworking
  import T = Thumb
  import opened ThumbMeaning
  import opened ThumbProof

  datatype High = HAdd | HCmp | HMov | HBx

  predicate IsFormat5(t: Bits) { t < 0x1_0000 && t & 0xFC00 == 0x4400 && T.Format5(t).Translated? }

  /** The ARM instruction it is translated to. */
  function Arm5(t: Bits): Bits
    requires IsFormat5(t)
  {
    T.Format5(t).w
  }

  /** Bits 8 and 9. */
  function HighOf(t: Bits): High
  {
    var k := Field(t, 8, 3);
    if k == 0 then HAdd else if k == 1 then HCmp else if k == 2 then HMov else HBx
  }

  /** A register number of four bits: H1 in bit 7 with bits 0 to 2, and bits 3 to 6. */
  function DestField(t: Bits): Bits { Field(t, 0, 7) | (if BitAt(t, 7) then 8 else 0) }
  function Dest(t: Bits): RegNo { RegNumber(DestField(t)) }
  function Source(t: Bits): RegNo { RegNumber(Field(t, 3, 15)) }

  /** What the instruction means (ARM DDI 0100, sections A7.1.6, A7.1.21, A7.1.38 and A7.1.14): r15 reads as it is, and a
      write to it goes to an instruction of the present state; BX chooses the state by bit 0. */
  function HighMeaning(c: Core, t: Bits): Core
  {
    var a, b := c.reg[Dest(t)], c.reg[Source(t)];
    match HighOf(t)
    case HAdd => HighPut(c, Dest(t), Plus(a, b))
    case HMov => HighPut(c, Dest(t), b)
    case HCmp => WithFlags(c, Subtracted(a, b, true).f)
    case HBx => Interworked(c, b)
  }

  function HighPut(c: Core, r: RegNo, w: Word): Core { if r == 15 then Jumping(c, w) else Put(c, r, w) }

  // ---------------------------------------------------------------------------------------------
  // The ARM instructions

  lemma Bits5(t: Bits)
    requires IsFormat5(t) && HighOf(t) != HBx
    ensures var w := Arm5(t);
            && IsData(w) && !IsMultiply(w) && !IsHalf(w) && !IsTransfer(w) && !BitAt(w, 25) && Unshifted(w)
            && BitAt(w, 20) == HighOf(t).HCmp?
    ensures OpOf(Arm5(t)) == match HighOf(t) case HAdd => ADD case HCmp => CMP case _ => MOV
  {}

  lemma Operands5(t: Bits)
    requires IsFormat5(t) && HighOf(t) != HBx
    ensures var w := Arm5(t); Nibble(w, 12) == DestField(t) && Nibble(w, 16) == DestField(t) && Nibble(w, 0) == Field(t, 3, 15)
  {}

  lemma BranchBits(t: Bits)
    requires IsFormat5(t) && HighOf(t) == HBx
    ensures IsBx(Arm5(t)) && Nibble(Arm5(t), 0) == Field(t, 3, 15)
  {}

  lemma Registers5(t: Bits)
    requires IsFormat5(t)
    ensures var w := Arm5(t); Rm(w) == Source(t) && (HighOf(t) != HBx ==> Rd(w) == Dest(t) && Rn(w) == Dest(t))
  {
    hide RegNumber, Nibble, Field, Arm5, DestField, IsFormat5, IsBx, HighOf;
    if HighOf(t) == HBx { BranchBits(t); } else { Operands5(t); }
  }

  /** Running the translated instruction at pc. */
  function Ran(c: Core, pins: Pins, t: Bits, pc: Word): Core
    requires IsFormat5(t)
  {
    Dispatched(c, pins, Arm5(t), pc)
  }

  lemma DataDispatched(c: Core, pins: Pins, w: Bits, pc: Word)
    requires IsData(w) && !IsMultiply(w) && !IsHalf(w) && !IsTransfer(w)
    ensures Dispatched(c, pins, w, pc) == DataProcessed(c, w)
  {
    DataExecuted(c, pins, w);
    hide IsData, IsMultiply, IsHalf, IsTransfer, Executed, DataProcessed, Supported, IsLongMultiply, IsMsr, IsBlock, LongDone, MsrDone,
      Transfer.Transferred, OtherDone;
  }

  lemma DestIs(c: Core, w: Bits, r: Word)
    ensures DestWritten(c, w, r) == HighPut(c, Rd(w), r)
  {
    JumpingIs(c, r);
    hide R15Written, Rd, Jumping;
  }

  lemma AddDone(c: Core, w: Bits, rhs: Word)
    requires OpOf(w) == ADD && !BitAt(w, 20) && Operand(c, w, false) == (c, rhs)
    ensures DataProcessed(c, w) == DestWritten(c, w, Plus(Lhs(c, w), rhs))
  {
    hide OpOf, BitAt, Operand, DestWritten, Lhs, Plus, Rd;
  }

  lemma MovDone(c: Core, w: Bits, rhs: Word)
    requires OpOf(w) == MOV && !BitAt(w, 20) && Operand(c, w, false) == (c, rhs)
    ensures DataProcessed(c, w) == DestWritten(c, w, rhs)
  {
    hide OpOf, BitAt, Operand, DestWritten, Lhs, Rd;
  }

  /** MOV and BX mean what they say. */
  lemma MovBxTranslate(c: Core, pins: Pins, t: Bits, pc: Word)
    requires IsFormat5(t) && (HighOf(t) == HMov || HighOf(t) == HBx)
    ensures Ran(c, pins, t, pc) == HighMeaning(c, t)
  {
    hide *;
    var w := Arm5(t);
    RanIs(c, pins, t, pc);
    MeaningIs(c, t);
    Registers5(t);
    if HighOf(t) == HBx {
      BranchBits(t);
      BxDispatched(c, pins, w, pc);
    } else {
      Bits5(t);
      RegisterOperand(c, w, false);
      DataDispatched(c, pins, w, pc);
      MovDone(c, w, c.reg[Rm(w)]);
      DestIs(c, w, c.reg[Rm(w)]);
    }
  }

  lemma RanIs(c: Core, pins: Pins, t: Bits, pc: Word)
    requires IsFormat5(t)
    ensures Ran(c, pins, t, pc) == Dispatched(c, pins, Arm5(t), pc)
  {
    hide Dispatched, Arm5, IsFormat5;
  }

  lemma MeaningIs(c: Core, t: Bits)
    ensures var a, b := c.reg[Dest(t)], c.reg[Source(t)];
            && (HighOf(t) == HAdd ==> HighMeaning(c, t) == HighPut(c, Dest(t), Plus(a, b)))
            && (HighOf(t) == HMov ==> HighMeaning(c, t) == HighPut(c, Dest(t), b))
            && (HighOf(t) == HCmp ==> HighMeaning(c, t) == WithFlags(c, Subtracted(a, b, true).f))
            && (HighOf(t) == HBx ==> HighMeaning(c, t) == Interworked(c, b))
  {
    hide HighOf, Dest, Source, HighPut, Plus, WithFlags, Subtracted, Interworked;
  }

  // ---------------------------------------------------------------------------------------------
  // ADD

  lemma AddRan(c: Core, pins: Pins, t: Bits, pc: Word)
    requires IsFormat5(t) && HighOf(t) == HAdd
    ensures Rn(Arm5(t)) == Dest(t)
    ensures Ran(c, pins, t, pc) == HighPut(c, Dest(t), Plus(Lhs(c, Arm5(t)), c.reg[Source(t)]))
  {
    hide *;
    var w := Arm5(t);
    RanIs(c, pins, t, pc);
    Registers5(t);
    Bits5(t);
    RegisterOperand(c, w, false);
    DataDispatched(c, pins, w, pc);
    AddDone(c, w, c.reg[Rm(w)]);
    DestIs(c, w, Plus(Lhs(c, w), c.reg[Rm(w)]));
  }

  lemma LhsIs(c: Core, w: Bits)
    ensures Lhs(c, w) == if Rn(w) == 15 then Masked(c.reg[15], 0xFFFF_FFFC) else c.reg[Rn(w)]
  {
    hide Rn, Masked;
  }

  /** An even address rounded down to a word loses 2 if it is not word-aligned. */
  lemma LosesTwo(w: Word)
    requires IsAligned(w, true) && !IsAligned(w, false)
    ensures Num(w) == Num(Masked(w, 0xFFFF_FFFC)) + 2
  {
    RoundedNumbers(w);
    AlignedNumber(w, true);
    AlignedNumber(w, false);
    hide Num, Masked, Odd, IsAligned;
  }

  lemma SumsDiffer(a: Word, b: Word, x: Word)
    requires Num(b) == Num(a) + 2
    ensures RoundedDown(Plus(a, x), true) != RoundedDown(Plus(b, x), true)
  {
    RoundedIs(Plus(a, x), true);
    RoundedIs(Plus(b, x), true);
    NumPlus(a, x);
    NumPlus(b, x);
    NumLimit(a);
    NumLimit(b);
    NumLimit(x);
    hide Num, Plus, Masked, PcMask, RoundedDown;
  }

  /** ADD, in Thumb state, at any even address: right if and only if the first operand is not r15, or r15 is
      word-aligned. */
  lemma AddExactly(c: Core, pins: Pins, t: Bits, pc: Word)
    requires IsFormat5(t) && HighOf(t) == HAdd && c.t && IsAligned(c.reg[15], true)
    ensures Ran(c, pins, t, pc) == HighMeaning(c, t) <==> Dest(t) != 15 || IsAligned(c.reg[15], false)
  {
    hide *;
    var w := Arm5(t);
    AddRan(c, pins, t, pc);
    MeaningIs(c, t);
    LhsIs(c, w);
    WordMask(c.reg[15]);
    if Dest(t) == 15 && !IsAligned(c.reg[15], false) {
      var a, b, x := Lhs(c, w), c.reg[15], c.reg[Source(t)];
      LosesTwo(b);
      SumsDiffer(a, b, x);
      PutsR15(c, Plus(a, x));
      PutsR15(c, Plus(b, x));
    }
  }

  lemma WordMask(w: Word)
    ensures IsAligned(w, false) <==> Masked(w, 0xFFFF_FFFC) == w
  {}

  lemma PutsR15(c: Core, w: Word)
    ensures HighPut(c, 15, w).reg[15] == RoundedDown(w, c.t)
  {
    hide RoundedDown;
  }

  // ---------------------------------------------------------------------------------------------
  // CMP

  lemma CmpRan(c: Core, pins: Pins, t: Bits, pc: Word)
    requires IsFormat5(t) && HighOf(t) == HCmp
    ensures Ran(c, pins, t, pc) == if Dest(t) == 15 then PsrRestored(c) else HighMeaning(c, t)
  {
    hide *;
    var w := Arm5(t);
    RanIs(c, pins, t, pc);
    Registers5(t);
    Bits5(t);
    RegisterOperand(c, w, false);
    DataDispatched(c, pins, w, pc);
    MeaningIs(c, t);
    LhsIs(c, w);
    CmpIsTest();
    if Dest(t) == 15 { Restores(c, w); } else { CmpPuts(c, w, c.reg[Rm(w)]); }
  }

  lemma CmpIsTest()
    ensures IsTest(CMP)
  {}

  lemma Restores(c: Core, w: Bits)
    requires IsTest(OpOf(w)) && BitAt(w, 20) && Rd(w) == 15
    ensures DataProcessed(c, w) == PsrRestored(c)
  {
    hide OpOf, BitAt, Rd, IsTest, PsrRestored;
  }

  /** A comparison never sets both N and Z. */
  lemma NotBoth(a: Word, b: Word)
    ensures var f := Subtracted(a, b, true).f; !(f.n && f.z)
  {
    var x := Subtracted(a, b, true);
    SubtractedFlags(a, b);
    hide Subtracted, Num;
  }

  lemma SubtractedFlags(a: Word, b: Word)
    ensures var x := Subtracted(a, b, true); x.f.n == (Signed(x.r) < 0) && x.f.z == (Num(x.r) == 0)
  {
    hide Num, Fits, ToWord, Signed;
  }

  /** A state of User mode with N and Z both set, as an MSR can set them. */
  function BothSet(c: Core): Core { c.(mode := USER32MODE, bankNo := USERBANK, n := true, z := true) }

  lemma UserRestores(c: Core)
    ensures PsrRestored(BothSet(c)).n && PsrRestored(BothSet(c)).z
  {
    hide *;
    var d := BothSet(c);
    UserSpsr(c);
    PackedStatus(d);
    SetCpsrEffect(d, GetCpsr(d));
    RestoredIs(d);
    FlagsAre(PsrRestored(d), d);
  }

  lemma UserSpsr(c: Core)
    ensures var d := BothSet(c);
            && Consistent(d) && GetSpsr(d, d.mode) == GetCpsr(d) && d.mode.bits < 32 && ValidMode(Masked(GetCpsr(d), 0x1F)) && d.n && d.z
  {
    PackMode(true, true, c.c, c.v, c.s, c.i, c.f, 16, c.t);
    hide Pack;
  }

  lemma RestoredIs(c: Core)
    ensures PsrRestored(c) == SetCpsr(c, GetSpsr(c, c.mode))
  {
    hide SetCpsr, GetSpsr;
  }

  lemma FlagsAre(c: Core, d: Core)
    requires StatusOf(c) == StatusOf(d)
    ensures c.n == d.n && c.z == d.z
  {}

  lemma MeaningFlags(c: Core, t: Bits)
    requires HighOf(t) == HCmp
    ensures !(HighMeaning(c, t).n && HighMeaning(c, t).z)
  {
    NotBoth(c.reg[Dest(t)], c.reg[Source(t)]);
    hide HighOf, Dest, Source, Subtracted;
  }

  /** From every state, the translated instruction does what the Thumb instruction does. */
  ghost predicate Preserved5(pins: Pins, t: Bits, pc: Word)
    requires IsFormat5(t)
  {
    forall c: Core :: Ran(c, pins, t, pc) == HighMeaning(c, t)
  }

  /** CMP is translated correctly if and only if its first operand is not r15. */
  lemma CmpExactly(pins: Pins, t: Bits, pc: Word, c: Core)
    requires IsFormat5(t) && HighOf(t) == HCmp
    ensures Preserved5(pins, t, pc) <==> Dest(t) != 15
  {
    hide Ran, HighMeaning, IsFormat5, HighOf, Dest, PsrRestored;
    forall d: Core ensures Ran(d, pins, t, pc) == if Dest(t) == 15 then PsrRestored(d) else HighMeaning(d, t) {
      CmpRan(d, pins, t, pc);
    }
    UserRestores(c);
    MeaningFlags(BothSet(c), t);
  }
}
