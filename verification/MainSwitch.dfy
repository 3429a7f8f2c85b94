/** The main switch of ARMul_Emulate32 (arch_arm/common/armemu32.c) over the instructions of a v4 core: besides those of
    the other modules, SWP, MRS, BX, B and BL, SWI and the tests without S; and what they mean. */
module MainSwitch {
  import opened Words
  import opened Fields
  import opened State
  import opened Support
  import opened Alu
  import opened DataPath
  import opened Exceptions
  import opened Block
  import opened Multiply
  import opened Single
  import opened Execute
  import opened Transfer
  import opened Tables
  import opened ThumbBranch
  import T = Thumb

  // ---------------------------------------------------------------------------------------------
  // Decoding

  /** Cases 0x08 to 0x0f with 9 in bits 4 to 7. */
  predicate IsLongMultiply(w: Bits) { w & 0x0F80_00F0 == 0x0080_0090 }

  /** Cases 0x10 and 0x14 with 9 in bits 4 to 11. */
  predicate IsSwap(w: Bits) { w & 0x0FB0_0FF0 == 0x0100_0090 }

  /** Cases 0x10 and 0x14 with r15 as the left operand and bits 0 to 11 clear. */
  predicate IsMrs(w: Bits) { w & 0x0FBF_0FFF == 0x010F_0000 }

  predicate IsBx(w: Bits) { w & 0x0FFF_FFF0 == 0x012F_FF10 }

  /** Cases 0x12, 0x16, 0x32 and 0x36 with r15 as the destination. */
  predicate IsMsr(w: Bits)
  {
    w & 0x0DB0_F000 == 0x0120_F000 && !IsBx(w) && (BitAt(w, 25) || !(BitAt(w, 4) && BitAt(w, 7)))
  }

  /** Cases 0xa0 to 0xbf. */
  predicate IsArmBranch(w: Bits) { w & 0x0E00_0000 == 0x0A00_0000 }

  /** Cases 0xf0 to 0xff. */
  predicate IsSwi(w: Bits) { w & 0x0F00_0000 == 0x0F00_0000 }

  /** Cases 0x80 to 0x9f, with a register list. */
  predicate IsBlock(w: Bits) { w & 0x0E00_0000 == 0x0800_0000 && RegList(w) != [] }

  /** A test without S that is none of these. */
  predicate IsIdle(w: Bits)
  {
    w & 0x0D90_0000 == 0x0100_0000 && (BitAt(w, 25) || !(BitAt(w, 4) && BitAt(w, 7))) && !IsMrs(w) && !IsBx(w) && !IsMsr(w)
  }

  predicate Modelled(w: Bits)
  {
    || Supported(w) || IsLongMultiply(w) || IsSwap(w) || IsMrs(w) || IsBx(w) || IsMsr(w) || IsArmBranch(w) || IsSwi(w) || IsBlock(w)
    || IsIdle(w)
  }

  // ---------------------------------------------------------------------------------------------
  // What the instructions do

  function LongDone(c: Core, w: Bits): Core
  {
    if BitAt(w, 21) then LongAccumulated(c, w, BitAt(w, 22), BitAt(w, 20)) else LongMultiplied(c, w, BitAt(w, 22), BitAt(w, 20))
  }

  /** What SWP and SWPB deliver; on a fault the byte form does not cut the abort word. */
  function SwapValue(c: Core, a: Word, width: Width, big: bool): Word
  {
    if width == Width8 && ReadDone(c, a).abortSig then WordAt(c, a) else Loadable(WordAt(c, a).bits, a, width, false, big)
  }

  /** Memory and the abort state after the exchange, and the destination; also after a fault. */
  function Exchanged(c: Core, w: Bits, a: Word, width: Width, big: bool): Core
  {
    var x := Storable(WordAt(c, a).bits, a, c.reg[Rm(w)], width, big);
    RegisterPut(WriteDone(ReadDone(c, a), a, x), Rd(w), SwapValue(c, a, width, big))
  }

  function RegisterPut(c: Core, r: RegNo, w: Word): Core
  {
    hide *;
    c.(reg := c.reg[r := w])
  }

  function Swapped(c: Core, pins: Pins, w: Bits): Core
  {
    var d := Exchanged(c, w, Lhs(c, w), WordWidth(w), pins.bigend);
    if d.abortSig || d.aborted then Entered(d, pins, DataAbort) else d
  }

  /** MRS: ECC | EINT | EMODE, or the SPSR. */
  function PsrRead(c: Core, w: Bits): Word
  {
    if BitAt(w, 22) then GetSpsr(c, c.mode) else Word(Pack(c.n, c.z, c.c, c.v, c.s, c.i, c.f, c.mode.bits, false))
  }

  /** POSBRANCH and NEGBRANCH. */
  function PosBranch(w: Bits): Bits { (w & 0x7F_FFFF) << 2 }
  function NegBranch(w: Bits): Bits { (0xFF00_0000 | (w & 0xFF_FFFF)) << 2 }

  function BranchOffset(w: Bits): Bits { if BitAt(w, 23) then NegBranch(w) else PosBranch(w) }

  function ArmTarget(pc: Word, w: Bits): Word { Plus(Plus(pc, Word(8)), Word(BranchOffset(w))) }

  /** B and BL. */
  function ArmBranched(c: Core, w: Bits, pc: Word): Core
  {
    T.Jump(if BitAt(w, 24) then RegisterPut(c, 14, Plus(pc, Word(4))) else c, ArmTarget(pc, w))
  }

  function MsrDone(c: Core, w: Bits): Core { if BitAt(w, 22) then MsrSpsr(c, w) else MsrCpsr(c, w) }

  /** The instructions of this module. */
  function OtherDone(c: Core, pins: Pins, w: Bits, pc: Word): Core
  {
    if IsSwap(w) then Swapped(c, pins, w)
    else if IsMrs(w) then RegisterPut(c, Rd(w), PsrRead(c, w))
    else if IsBx(w) then R15Branched(c, c.reg[Rm(w)])
    else if IsArmBranch(w) then ArmBranched(c, w, pc)
    else if IsSwi(w) then Entered(c, pins, Swi)
    else c
  }

  /** An instruction at pc whose condition holds. */
  function Dispatched(c: Core, pins: Pins, w: Bits, pc: Word): Core
  {
    if Supported(w) then Executed(c, pins, w)
    else if IsLongMultiply(w) then LongDone(c, w)
    else if IsMsr(w) then MsrDone(c, w)
    else if IsBlock(w) then Transferred(c, pins, w)
    else OtherDone(c, pins, w, pc)
  }

  // ---------------------------------------------------------------------------------------------
  // The same as the emulator does it, on the machine

  /** PutWord of armvirt.c, whose fault ARMul_SwapWord does not look at. */
  method PutWord(state: ArmState, a: Word, w: Word)
    requires state.Valid()
    modifies state`Mem
    ensures var c := old(state.Value()); state.Value() == if WordNo(a) in c.mem then c.(mem := c.mem[WordNo(a) := w]) else c
  {
    hide WordNo;
    if WordNo(a) in state.Mem {
      state.Mem := state.Mem[WordNo(a) := w];
    }
  }

  /** A write after a read of the same address finds the abort signals as it would set them. */
  lemma ReadThenPut(c: Core, a: Word, w: Word)
    ensures var d := ReadDone(c, a);
            WriteDone(d, a, w) == if WordNo(a) in d.mem then d.(mem := d.mem[WordNo(a) := w]) else d
  {
    hide WordNo;
    if WordNo(a) in c.mem {} else {}
  }

  /** ARMul_SwapWord and ARMul_SwapByte. */
  method Swap(state: ArmState, a: Word, data: Word, width: Width) returns (temp: Word)
    requires state.Valid() && width != Width16
    modifies state`AbortSig, state`Aborted, state`Mem
    ensures var c := old(state.Value());
            var x := Storable(WordAt(c, a).bits, a, data, width, state.pins.bigend);
            state.Value() == WriteDone(ReadDone(c, a), a, x) && temp == SwapValue(c, a, width, state.pins.bigend)
  {
    hide WordAt, ReadDone, WriteDone, Loadable, Storable, WordNo;
    ghost var c := state.Value();
    temp := ReadWord(state, a);
    var x := Storable(temp.bits, a, data, width, state.pins.bigend);
    ReadThenPut(c, a, x);
    if width == Width8 {
      if !state.AbortSig {
        temp := Loadable(temp.bits, a, width, false, state.pins.bigend);
      }
      WriteWord(state, a, x);
    } else {
      PutWord(state, a, x);
      temp := Loadable(temp.bits, a, width, false, state.pins.bigend);
    }
  }

  method WriteRegister(state: ArmState, r: RegNo, w: Word)
    requires state.Valid()
    modifies state.Reg
    ensures state.Value() == RegisterPut(old(state.Value()), r, w)
  {
    state.Reg[r] := w;
  }

  /** SWP and SWPB. */
  method ExecuteSwap(state: ArmState, w: Bits)
    requires state.Valid() && !Is26Bit(state.Mode)
    modifies state, state.Reg, state.RegBank, state.Spsr
    ensures state.Value() == Swapped(old(state.Value()), state.pins, w)
  {
    hide Lhs, Rd, Rm, RegisterPut, WriteDone, ReadDone, Storable, SwapValue, WordAt, Entered, Is26Bit, BitAt;
    var a := GetLhs(state, w);
    var dest := Swap(state, a, state.Reg[Rm(w)], WordWidth(w));
    assert state.Mode == old(state.Mode);
    WriteRegister(state, Rd(w), dest);
    if state.AbortSig || state.Aborted {
      Abort(state, DataAbort);
    }
  }

  /** MRS. */
  method ExecuteMrs(state: ArmState, w: Bits)
    requires state.Valid()
    modifies state.Reg
    ensures var c := old(state.Value()); state.Value() == RegisterPut(c, Rd(w), PsrRead(c, w))
  {
    hide RegisterPut, Rd, BitAt, GetSpsr, Pack;
    var psr: Word;
    if BitAt(w, 22) {
      psr := GetSPSR(state, state.Mode);
    } else {
      psr := Word(Pack(state.NFlag, state.ZFlag, state.CFlag, state.VFlag, state.SFlag, state.IFlag, state.FFlag,
                       state.Mode.bits, false));
    }
    WriteRegister(state, Rd(w), psr);
  }

  /** Cases 0xa0 to 0xbf. */
  method ExecuteArmBranch(state: ArmState, w: Bits, pc: Word)
    requires state.Valid()
    modifies state`NextInstr, state.Reg
    ensures state.Value() == ArmBranched(old(state.Value()), w, pc)
  {
    hide RegisterPut, Plus, BranchOffset, BitAt, T.Jump;
    if BitAt(w, 24) {
      WriteRegister(state, 14, Plus(pc, Word(4)));
    }
    T.TakeJump(state, ArmTarget(pc, w));
  }

  /** UMULL, SMULL, UMLAL and SMLAL. */
  method ExecuteLongMultiply(state: ArmState, w: Bits)
    requires state.Valid()
    modifies state`NFlag, state`ZFlag, state`CFlag, state`VFlag, state.Reg
    ensures state.Value() == LongDone(old(state.Value()), w)
  {
    hide LongMultiplied, LongAccumulated, BitAt;
    if BitAt(w, 21) {
      MultiplyAdd64(state, w, BitAt(w, 22), BitAt(w, 20));
    } else {
      Multiply64(state, w, BitAt(w, 22), BitAt(w, 20));
    }
  }

  method ExecuteMsr(state: ArmState, w: Bits)
    requires state.Valid()
    modifies state, state.Reg, state.RegBank, state.Spsr
    ensures state.Value() == MsrDone(old(state.Value()), w)
  {
    hide MsrCpsr, MsrSpsr, BitAt;
    if BitAt(w, 22) { ExecuteMsrSpsr(state, w); } else { ExecuteMsrCpsr(state, w); }
  }

  method ExecuteOther(state: ArmState, w: Bits, pc: Word)
    requires state.Valid() && !Is26Bit(state.Mode)
    modifies state, state.Reg, state.RegBank, state.Spsr
    ensures state.Value() == OtherDone(old(state.Value()), state.pins, w, pc)
  {
    hide Swapped, RegisterPut, PsrRead, R15Branched, ArmBranched, Entered, IsSwap, IsMrs, IsBx, IsArmBranch, IsSwi, Rd, Rm, Is26Bit;
    if IsSwap(w) {
      ExecuteSwap(state, w);
    } else if IsMrs(w) {
      ExecuteMrs(state, w);
    } else if IsBx(w) {
      WriteR15Branch(state, state.Reg[Rm(w)]);
    } else if IsArmBranch(w) {
      ExecuteArmBranch(state, w, pc);
    } else if IsSwi(w) {
      Abort(state, Exception.Swi);
    }
  }

  /** The main switch. */
  method Dispatch(state: ArmState, bitList: array<nat>, w: Bits, pc: Word)
    requires state.Valid() && !Is26Bit(state.Mode) && Modelled(w)
    requires bitList.Length == 256 && forall i :: 0 <= i < 256 ==> bitList[i] == 4 * Ones(i)
    modifies state, state.Reg, state.RegBank, state.Spsr
    ensures state.Value() == Dispatched(old(state.Value()), state.pins, w, pc)
  {
    hide Executed, LongDone, MsrDone, Transferred, OtherDone, Supported, IsLongMultiply, IsMsr, IsBlock, Is26Bit, Ones, RegList;
    if Supported(w) {
      Execute.Execute(state, w);
    } else if IsLongMultiply(w) {
      ExecuteLongMultiply(state, w);
    } else if IsMsr(w) {
      ExecuteMsr(state, w);
    } else if IsBlock(w) {
      BlockList(w);
      ExecuteBlockTransfer(state, bitList, w);
    } else {
      ExecuteOther(state, w, pc);
    }
  }

  lemma BlockList(w: Bits)
    requires IsBlock(w)
    ensures RegList(w) != []
  {}

  /** Each instruction is of one kind only, so that the order of the tests does not matter. */
  lemma KindsExclude(w: Bits)
    ensures IsLongMultiply(w) || IsSwap(w) || IsMrs(w) || IsBx(w) || IsArmBranch(w) || IsSwi(w)
        ==> !Supported(w) && !IsMsr(w) && !IsBlock(w)
    ensures IsMsr(w) || IsIdle(w) || IsBlock(w) ==> !Supported(w)
    ensures IsIdle(w) ==> !IsLongMultiply(w) && !IsSwap(w) && !IsArmBranch(w) && !IsSwi(w) && !IsBlock(w)
  {
    hide RegList;
  }

  // ---------------------------------------------------------------------------------------------
  // Where ARM branches go

  lemma WideOnes()
    ensures IsOnes(0x1FF_FFFF, 25) && IsOnes(0x7F_FFFF, 23)
  {
    LongOnes();
    OneMore(0xFF_FFFF, 0x7F_FFFF, 23);
    OneMore(0x1FF_FFFF, 0xFF_FFFF, 24);
    hide IsOnes;
  }

  lemma WidePowers()
    ensures Pow2(23) == 0x80_0000 && Pow2(24) == 0x100_0000 && Pow2(25) == 0x200_0000 && Pow2(2) == 4
  {
    Powers();
    TwiceAsMuch(1);
    TwiceAsMuch(23);
    TwiceAsMuch(24);
    hide Pow2;
  }

  lemma BitTwentyThree(w: Bits)
    ensures Odd(HalfTimes(w, 23)) == BitAt(w, 23)
  {
    HalfSixteen(w);
    HalfFour(Shr16(w));
    HalfTimesTwice(w, 16, 4);
    HalfTimesTwice(w, 20, 3);
    TwoMore(Shr4(Shr16(w)));
    ShrTwentyThree(w);
    hide Shr4, Shr16, Half, Odd, BitAt, HalfTimes;
  }

  lemma ShrTwentyThree(w: Bits)
    ensures Odd(Half(Half(Half(Shr4(Shr16(w)))))) == BitAt(w, 23)
  {}

  function Shl2(w: Bits): Bits { w << 2 }

  lemma DoubledTwo(w: Bits)
    ensures Doubled(w, 2) == Shl2(w)
  {
    assert Doubled(w, 1) == Double(Doubled(w, 0));
    assert Doubled(w, 2) == Double(Doubled(w, 1));
    TwoDoubles(w);
    hide Double, Shl2;
  }

  lemma TwoDoubles(w: Bits)
    ensures Double(Double(w)) == Shl2(w)
  {}

  lemma PosPattern(w: Bits)
    ensures PosBranch(w) == Shl2(And(w, 0x7F_FFFF))
  {}

  lemma NegPattern(w: Bits)
    requires BitAt(w, 23)
    ensures NegBranch(w) == Or(Shl2(And(w, 0x7F_FFFF)), 0xFE00_0000)
  {}

  lemma Tops()
    ensures Top(true, 0x1FF_FFFF) == 0xFE00_0000 && Top(false, 0x1FF_FFFF) == 0
  {}

  lemma OrNothing(w: Bits)
    ensures Or(w, 0) == w
  {}

  lemma Pattern24(w: Bits)
    ensures BranchOffset(w) == Or(Doubled(And(w, 0x7F_FFFF), 2), Top(BitAt(w, 23), 0x1FF_FFFF))
  {
    Tops();
    DoubledTwo(And(w, 0x7F_FFFF));
    if BitAt(w, 23) { NegPattern(w); } else { PosPattern(w); }
    OrNothing(Shl2(And(w, 0x7F_FFFF)));
    hide Doubled, And, Or, Top, BitAt, Shl2, NegBranch, PosBranch;
  }

  lemma Below24(w: Bits)
    ensures Disjoint(Doubled(And(w, 0x7F_FFFF), 2), Not(0x1FF_FFFF))
  {
    DoubledTwo(And(w, 0x7F_FFFF));
    BelowTop(w);
    hide Doubled, And, Disjoint, Not, Shl2;
  }

  lemma BelowTop(w: Bits)
    ensures Disjoint(Shl2(And(w, 0x7F_FFFF)), Not(0x1FF_FFFF))
  {}

  lemma WrapWide(v: nat, low: nat, sign: bool)
    requires low < 0x80_0000 && v == 4 * low + (if sign then 0x1_0000_0000 - 0x200_0000 else 0)
    ensures v == Wrapped(4 * (if sign then low - 0x80_0000 else low))
  {}

  lemma SignedField(w: Bits)
    ensures SignedLow(w, 24) == (if BitAt(w, 23) then Low(w, 23) - 0x80_0000 else Low(w, 23)) && Low(w, 23) < 0x80_0000
  {
    WidePowers();
    BitTwentyThree(w);
    TopBit(w, 23);
    LowBound(w, 23);
    hide BitAt, Low, HalfTimes, Odd, Pow2;
  }

  lemma Number24(w: Bits)
    ensures Nat(BranchOffset(w)) == Wrapped(4 * SignedLow(w, 24))
  {
    hide *;
    Pattern24(w);
    Below24(w);
    WideOnes();
    WidePowers();
    SignedField(w);
    FieldNumber(w, 0x7F_FFFF, 23, 2);
    UnionNumber(Doubled(And(w, 0x7F_FFFF), 2), BitAt(w, 23), 0x1FF_FFFF, 25);
    var v := Nat(BranchOffset(w));
    assert v == 4 * Low(w, 23) + (if BitAt(w, 23) then 0x1_0000_0000 - 0x200_0000 else 0) by { LimbIs(); }
    WrapWide(v, Low(w, 23), BitAt(w, 23));
  }

  lemma LimbIs()
    ensures LIMB == 0x1_0000_0000
  {}

  lemma NatEight()
    ensures Nat(8) == Wrapped(8)
  {
    SmallWords();
    NumNat(Word(8));
    hide Num, Nat;
  }

  lemma ArmTargetIs(pc: Word, w: Bits)
    ensures ArmTarget(pc, w) == Plus(Plus(pc, Word(8)), Word(BranchOffset(w)))
  {}

  lemma ArmTargetNumber(pc: Word, w: Bits)
    ensures Num(ArmTarget(pc, w)) == Wrapped(Num(pc) + 8 + 4 * SignedLow(w, 24))
  {
    hide *;
    ArmTargetIs(pc, w);
    NatEight();
    Number24(w);
    SumWraps(pc, 8, 8);
    SumWraps(Plus(pc, Word(8)), BranchOffset(w), 4 * SignedLow(w, 24));
    WrapBoth(Num(pc) + 8, 4 * SignedLow(w, 24));
  }

  lemma PutLink(c: Core, w: Word)
    ensures R14(RegisterPut(c, 14, w)) == w
  {}

  lemma ArmBranchedParts(c: Core, w: Bits, pc: Word)
    ensures ArmBranched(c, w, pc) == T.Jump(if BitAt(w, 24) then RegisterPut(c, 14, Plus(pc, Word(4))) else c, ArmTarget(pc, w))
  {
    hide T.Jump, RegisterPut, Plus, ArmTarget, BitAt;
  }

  lemma ArmBranchedIs(c: Core, w: Bits, pc: Word)
    ensures var d := ArmBranched(c, w, pc);
            R15(d) == ArmTarget(pc, w) && R14(d) == if BitAt(w, 24) then Plus(pc, Word(4)) else R14(c)
  {
    hide *;
    ArmBranchedParts(c, w, pc);
    PutLink(c, Plus(pc, Word(4)));
    JumpTarget(c, ArmTarget(pc, w));
    JumpTarget(RegisterPut(c, 14, Plus(pc, Word(4))), ArmTarget(pc, w));
  }

  lemma BranchKind(w: Bits)
    requires IsArmBranch(w)
    ensures !Supported(w) && !IsLongMultiply(w) && !IsMsr(w) && !IsBlock(w) && !IsSwap(w) && !IsMrs(w) && !IsBx(w)
  {
    hide RegList;
  }

  /** B and BL (ARM DDI 0100, section A4.1.5): to the address of the instruction, plus 8, plus four times a signed
      24-bit offset; BL leaves the address of the next instruction in the link register. */
  lemma ArmBranchTarget(c: Core, pins: Pins, w: Bits, pc: Word)
    requires IsArmBranch(w)
    ensures var d := Dispatched(c, pins, w, pc);
            && Num(R15(d)) == Wrapped(Num(pc) + 8 + 4 * SignedLow(w, 24))
            && R14(d) == if BitAt(w, 24) then Plus(pc, Word(4)) else R14(c)
  {
    BranchKind(w);
    ArmTargetNumber(pc, w);
    ArmBranchedIs(c, w, pc);
    hide SignedLow, Num, Plus, ArmTarget, Wrapped, ArmBranched, BitAt, R14, R15, Supported, IsLongMultiply, IsMsr, IsBlock, IsSwap,
      IsMrs, IsBx, IsArmBranch;
  }

  // ---------------------------------------------------------------------------------------------
  // SWP

  lemma SwapKind(w: Bits)
    requires IsSwap(w)
    ensures !Supported(w) && !IsLongMultiply(w) && !IsMsr(w) && !IsBlock(w)
  {
    hide RegList;
  }

  lemma SwapDispatched(c: Core, pins: Pins, w: Bits, pc: Word)
    requires IsSwap(w)
    ensures Dispatched(c, pins, w, pc) == Swapped(c, pins, w)
  {
    SwapKind(w);
    hide Supported, IsLongMultiply, IsMsr, IsBlock, IsSwap, Swapped;
  }

  /** Word number n of memory and register r are replaced; the access succeeded. */
  function Swapping(c: Core, n: nat, x: Word, r: RegNo, y: Word): Core
  {
    hide *;
    c.(abortSig := false, mem := c.mem[n := x], reg := c.reg[r := y])
  }

  lemma ExchangedIs(c: Core, w: Bits, a: Word, width: Width, big: bool)
    requires WordNo(a) in c.mem
    ensures var m := c.mem[WordNo(a)].bits;
            var x, y := Storable(m, a, c.reg[Rm(w)], width, big), Loadable(m, a, width, false, big);
            Exchanged(c, w, a, width, big) == Swapping(c, WordNo(a), x, Rd(w), y)
  {
    hide WordNo, Rd, Rm, Storable, Loadable;
  }

  lemma SwappingAborts(c: Core, n: nat, x: Word, r: RegNo, y: Word)
    ensures var d := Swapping(c, n, x, r, y); !d.abortSig && d.aborted == c.aborted
  {}

  /** The whole machine after SWP or SWPB with a mapped address: the memory location has what the source register held,
      and the destination what the location held. */
  lemma SwapExchanges(c: Core, pins: Pins, w: Bits, pc: Word)
    requires IsSwap(w) && !c.aborted && WordNo(Lhs(c, w)) in c.mem
    ensures var a, width := Lhs(c, w), WordWidth(w);
            var m := c.mem[WordNo(a)].bits;
            var x, y := Storable(m, a, c.reg[Rm(w)], width, pins.bigend), Loadable(m, a, width, false, pins.bigend);
            Dispatched(c, pins, w, pc) == Swapping(c, WordNo(a), x, Rd(w), y)
  {
    SwapDispatched(c, pins, w, pc);
    ExchangedIs(c, w, Lhs(c, w), WordWidth(w), pins.bigend);
    hide IsSwap, Dispatched, Lhs, WordNo, Rd, Rm, Storable, Loadable, Entered, BitAt, Exchanged, Swapping;
    var a, width := Lhs(c, w), WordWidth(w);
    var m := c.mem[WordNo(a)].bits;
    var x, y := Storable(m, a, c.reg[Rm(w)], width, pins.bigend), Loadable(m, a, width, false, pins.bigend);
    SwappingAborts(c, WordNo(a), x, Rd(w), y);
  }

  lemma AlignedLoad(w: Bits, a: Word, big: bool)
    requires a.bits & 3 == 0
    ensures Loadable(w, a, Width32, false, big) == Word(w)
  {}

  lemma SwapBack(c: Core, n: nat, x: Word, r: RegNo, y: Word)
    requires n in c.mem && y == c.mem[n] && x == c.reg[r] && !c.abortSig
    ensures var d := Swapping(c, n, x, r, y);
            n in d.mem && d.mem[n] == x && d.reg[r] == y && Swapping(d, n, y, r, x) == c
  {}

  lemma SwappingLhs(c: Core, n: nat, x: Word, r: RegNo, y: Word, w: Bits)
    requires Rn(w) != r && r != 15
    ensures Lhs(Swapping(c, n, x, r, y), w) == Lhs(c, w)
  {
    hide Rn, Masked;
  }

  lemma StoresWord(m: Bits, a: Word, x: Word, big: bool)
    ensures Storable(m, a, x, Width32, big) == x
  {}

  lemma WordForm(w: Bits)
    requires !BitAt(w, 22)
    ensures WordWidth(w) == Width32
  {}

  lemma SwapsWord(c: Core, pins: Pins, w: Bits, pc: Word)
    requires IsSwap(w) && !BitAt(w, 22) && !c.aborted && WordNo(Lhs(c, w)) in c.mem && Lhs(c, w).bits & 3 == 0
    ensures var n := WordNo(Lhs(c, w)); Dispatched(c, pins, w, pc) == Swapping(c, n, c.reg[Rm(w)], Rd(w), c.mem[n])
  {
    var a := Lhs(c, w);
    var m := c.mem[WordNo(a)];
    AlignedLoad(m.bits, a, pins.bigend);
    hide *;
    WordForm(w);
    StoresWord(m.bits, a, c.reg[Rm(w)], pins.bigend);
    SwapExchanges(c, pins, w, pc);
  }

  /** SWP of a register with an aligned word, done twice, leaves everything as it was. */
  lemma SwapTwice(c: Core, pins: Pins, w: Bits, pc: Word, pc2: Word)
    requires IsSwap(w) && !BitAt(w, 22) && Rd(w) == Rm(w) && Rn(w) != Rd(w) && Rd(w) != 15
    requires !c.aborted && !c.abortSig && WordNo(Lhs(c, w)) in c.mem && Lhs(c, w).bits & 3 == 0
    ensures Dispatched(Dispatched(c, pins, w, pc), pins, w, pc2) == c
  {
    hide IsSwap, BitAt, Rd, Rm, Rn, Lhs, WordNo, Dispatched, Swapping;
    var n, r := WordNo(Lhs(c, w)), Rd(w);
    var x, y := c.reg[r], c.mem[n];
    SwapsWord(c, pins, w, pc);
    SwapBack(c, n, x, r, y);
    SwappingAborts(c, n, x, r, y);
    SwappingLhs(c, n, x, r, y, w);
    SwapsWord(Swapping(c, n, x, r, y), pins, w, pc2);
  }

  /** MRS, in ARM state, reads the whole CPSR or SPSR. */
  lemma MrsReads(c: Core, pins: Pins, w: Bits, pc: Word)
    requires IsMrs(w) && !c.t
    ensures Dispatched(c, pins, w, pc) == RegisterPut(c, Rd(w), if BitAt(w, 22) then GetSpsr(c, c.mode) else GetCpsr(c))
  {
    MrsKind(w);
    hide IsMrs, Supported, IsLongMultiply, IsMsr, IsBlock, IsSwap, RegisterPut, Pack, GetSpsr, Rd, BitAt;
  }

  lemma MrsKind(w: Bits)
    requires IsMrs(w)
    ensures !Supported(w) && !IsLongMultiply(w) && !IsMsr(w) && !IsBlock(w) && !IsSwap(w)
  {
    hide RegList;
  }
}
