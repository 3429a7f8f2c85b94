/** Writes to r15 as numbers: BX, LDR and LDM into r15 go to ARM or Thumb code by bit 0 of the value, and other writes round
    it down to an instruction of the present state (ARM DDI 0100, sections A2.6, A4.1.10, A4.1.20 and A4.1.23). */
module Interworking {
  import opened Words
  import opened Fields
  import opened State
  import opened Support
  import opened Alu
  import opened DataPath
  import opened Exceptions
  import opened Block
  import opened Single
  import opened Execute
  import opened Transfer
  import opened Pipeline
  import opened MainSwitch
  import opened Conditions
  import A = CaretAborts

  // ---------------------------------------------------------------------------------------------
  // Rounding down

  lemma MaskedIs(w: Word, m: Bits)
    ensures Masked(w, m).bits == And(w.bits, m)
  {}

  lemma WithinAnd(a: Bits, m: Bits)
    requires Within(a, m)
    ensures And(a, m) == a
  {}

  /** A word by its value without the lowest bit. */
  lemma HalfParts2(w: Bits)
    ensures Nat(w) == 2 * Low(Half(w), 31) + Bin(Odd(w)) && Low(Half(w), 31) == 2 * Low(Half(Half(w)), 30) + Bin(Odd(Half(w)))
  {
    hide Half, Odd;
  }

  lemma HalfWhole(w: Bits)
    ensures And(Half(w), 0x7FFF_FFFF) == Half(w) && And(Half(Half(w)), 0x3FFF_FFFF) == Half(Half(w))
  {
    hide Half, And, Within;
    AllWithin(w);
    HalvesOfOnes();
    HalfWithin(w, 0xFFFF_FFFF);
    HalfWithin(Half(w), 0x7FFF_FFFF);
    WithinAnd(Half(w), 0x7FFF_FFFF);
    WithinAnd(Half(Half(w)), 0x3FFF_FFFF);
  }

  lemma HalvesOfOnes()
    ensures Half(0xFFFF_FFFF) == 0x7FFF_FFFF && Half(0x7FFF_FFFF) == 0x3FFF_FFFF
    ensures Half(0xFFFF_FFFE) == 0x7FFF_FFFF && Half(0xFFFF_FFFC) == 0x7FFF_FFFE && Half(0x7FFF_FFFE) == 0x3FFF_FFFF
    ensures !Odd(0xFFFF_FFFE) && !Odd(0xFFFF_FFFC) && !Odd(0x7FFF_FFFE)
  {}

  lemma EvenPart(w: Bits)
    ensures Half(And(w, 0xFFFF_FFFE)) == Half(w) && !Odd(And(w, 0xFFFF_FFFE))
  {
    hide Half, And, Odd;
    HalvesOfOnes();
    HalfWhole(w);
    AndHalf(w, 0xFFFF_FFFE);
  }

  lemma QuarterPart(w: Bits)
    ensures var v := And(w, 0xFFFF_FFFC); Half(Half(v)) == Half(Half(w)) && !Odd(v) && !Odd(Half(v))
  {
    hide Half, And, Odd;
    HalvesOfOnes();
    HalfWhole(w);
    AndHalf(w, 0xFFFF_FFFC);
    AndHalf(Half(w), 0x7FFF_FFFE);
  }

  /** Masking the low one or two bits off. */
  lemma RoundedNumbers(w: Word)
    ensures Num(Masked(w, 0xFFFF_FFFE)) == Num(w) - Num(w) % 2 && Num(Masked(w, 0xFFFF_FFFC)) == Num(w) - Num(w) % 4
    ensures Odd(w.bits) <==> Num(w) % 2 == 1
  {
    hide *;
    var u, v := Masked(w, 0xFFFF_FFFE), Masked(w, 0xFFFF_FFFC);
    MaskedIs(w, 0xFFFF_FFFE);
    MaskedIs(w, 0xFFFF_FFFC);
    EvenPart(w.bits);
    QuarterPart(w.bits);
    HalfParts2(w.bits);
    HalfParts2(u.bits);
    HalfParts2(v.bits);
    NumNat(w);
    NumNat(u);
    NumNat(v);
    BinValues();
    Remainders(Low(Half(Half(w.bits)), 30), Bin(Odd(Half(w.bits))), Bin(Odd(w.bits)));
  }

  lemma BinValues()
    ensures Bin(true) == 1 && Bin(false) == 0
  {}

  lemma Remainders(q: nat, b1: nat, b0: nat)
    requires b1 <= 1 && b0 <= 1
    ensures (2 * (2 * q + b1) + b0) % 2 == b0 && (2 * (2 * q + b1) + b0) % 4 == 2 * b1 + b0
  {
    var n := 2 * (2 * q + b1) + b0;
    DivModUnique(n, 2, 2 * q + b1, b0);
    DivModUnique(n, 4, q, 2 * b1 + b0);
  }

  // ---------------------------------------------------------------------------------------------
  // Branches

  /** A value rounded down to the address of an instruction. */
  function RoundedDown(x: Word, t: bool): Word { ToWord(Num(x) - Num(x) % (if t then 2 else 4)) }

  /** The machine sent to another address, in the state it is in. */
  function Jumping(c: Core, x: Word): Core
  {
    hide *;
    c.(reg := c.reg[15 := RoundedDown(x, c.t)], nextInstr := Refilled(c.nextInstr))
  }

  /** The CPSR as a word. */
  function PackedWith(c: Core, t: bool): Word { Word(Pack(c.n, c.z, c.c, c.v, c.s, c.i, c.f, c.mode.bits, t)) }

  /** The machine sent to Thumb code at the value less 1 if it is odd, and to ARM code otherwise. */
  function Interworked(c: Core, x: Word): Core
  {
    var t := Num(x) % 2 == 1;
    Jumping(c.(t := t, cpsr := PackedWith(c, t)), x)
  }

  lemma NumWord(n: nat)
    requires n < LIMB
    ensures Num(ToWord(n)) == n
  {
    NatOf(n);
    hide Of, Nat;
  }

  lemma RoundedIs(x: Word, t: bool)
    ensures Masked(x, PcMask(t)) == RoundedDown(x, t) && Num(RoundedDown(x, t)) == Num(x) - Num(x) % (if t then 2 else 4)
  {
    hide *;
    RoundedNumbers(x);
    NumLimit(x);
    NumWord(Num(x) - Num(x) % (if t then 2 else 4));
    RoundingParts(x, t);
    WordEqual(Masked(x, PcMask(t)), RoundedDown(x, t));
  }

  lemma RoundingParts(x: Word, t: bool)
    ensures RoundedDown(x, t) == ToWord(Num(x) - Num(x) % (if t then 2 else 4)) && PcMask(true) == 0xFFFF_FFFE && PcMask(false) == 0xFFFF_FFFC
  {
    hide Num, ToWord;
  }

  lemma JumpingIs(c: Core, x: Word)
    ensures R15Written(c, x) == Jumping(c, x)
  {
    RoundedIs(x, c.t);
    hide RoundedDown, Masked, PcMask, Refilled;
  }

  lemma BranchedIs(c: Core, x: Word)
    ensures var t := Odd(x.bits); R15Branched(c, x) == R15Written(c.(t := t, cpsr := PackedWith(c, t)), x)
  {
    hide Odd, Masked, PcMask, Pack, Refilled;
  }

  lemma InterworkedIs(c: Core, x: Word)
    ensures R15Branched(c, x) == Interworked(c, x)
  {
    hide *;
    RoundedNumbers(x);
    var t := Odd(x.bits);
    BranchedIs(c, x);
    JumpingIs(c.(t := t, cpsr := PackedWith(c, t)), x);
    InterworkedBody(c, x);
  }

  lemma InterworkedBody(c: Core, x: Word)
    ensures var t := Num(x) % 2 == 1; Interworked(c, x) == Jumping(c.(t := t, cpsr := PackedWith(c, t)), x)
  {
    hide Num, Jumping, PackedWith;
  }

  // ---------------------------------------------------------------------------------------------
  // What a branch by value does

  /** T, the CPSR word and r15 after a branch to x from state c, and that the pipeline is to be refilled. */
  predicate GoesTo(c: Core, d: Core, x: Word)
  {
    && (if Num(x) % 2 == 1 then d.t && Num(d.reg[15]) == Num(x) - 1 else !d.t && Num(d.reg[15]) == Num(x) - Num(x) % 4)
    && d.cpsr == GetCpsr(d) && (c.mode.bits < 32 ==> (BitAt(d.cpsr.bits, 5) <==> d.t)) && Primed(d.nextInstr)
  }

  /** Nothing else changes but the registers and the abort signal. */
  predicate BranchOnly(c: Core, d: Core)
  {
    d == c.(reg := d.reg, t := d.t, cpsr := d.cpsr, nextInstr := d.nextInstr, abortSig := d.abortSig)
  }

  lemma PackT(n: bool, z: bool, c: bool, v: bool, s: bool, i: bool, f: bool, mode: Bits, t: bool)
    requires mode < 32
    ensures BitAt(Pack(n, z, c, v, s, i, f, mode, t), 5) <==> t
  {}

  lemma InterworkedParts(c: Core, x: Word)
    ensures var d := Interworked(c, x);
            && d.t == (Num(x) % 2 == 1) && d.reg == c.reg[15 := RoundedDown(x, d.t)] && d.cpsr == PackedWith(c, d.t)
            && d == c.(reg := d.reg, t := d.t, cpsr := d.cpsr, nextInstr := d.nextInstr) && Primed(d.nextInstr)
  {
    RefilledPrimed(c.nextInstr);
    hide Num, RoundedDown, PackedWith, Refilled, Primed;
  }

  lemma PackedNow(c: Core, d: Core)
    requires d == c.(reg := d.reg, t := d.t, cpsr := d.cpsr, nextInstr := d.nextInstr)
    ensures PackedWith(c, d.t) == GetCpsr(d)
  {
    hide Pack;
  }

  lemma PackedT(c: Core, t: bool)
    requires c.mode.bits < 32
    ensures BitAt(PackedWith(c, t).bits, 5) <==> t
  {
    PackT(c.n, c.z, c.c, c.v, c.s, c.i, c.f, c.mode.bits, t);
    hide Pack, BitAt;
  }

  lemma InterworkedGoes(c: Core, x: Word)
    ensures var d := Interworked(c, x);
            GoesTo(c, d, x) && BranchOnly(c, d) && (forall r: RegNo :: r != 15 ==> d.reg[r] == c.reg[r])
  {
    var d := Interworked(c, x);
    InterworkedParts(c, x);
    RoundedIs(x, d.t);
    PackedNow(c, d);
    if c.mode.bits < 32 { PackedT(c, d.t); }
    hide Num, RoundedDown, PackedWith, Primed, Interworked, GetCpsr, BitAt;
  }

  // ---------------------------------------------------------------------------------------------
  // BX

  lemma BxKind(w: Bits)
    requires IsBx(w)
    ensures !Supported(w) && !IsLongMultiply(w) && !IsMsr(w) && !IsBlock(w) && !IsSwap(w) && !IsMrs(w)
  {
    hide RegList;
  }

  lemma BxDispatched(c: Core, pins: Pins, w: Bits, pc: Word)
    requires IsBx(w)
    ensures Dispatched(c, pins, w, pc) == Interworked(c, c.reg[Rm(w)])
  {
    hide *;
    BxKind(w);
    DispatchKinds(c, pins, w, pc);
    OtherKinds(c, pins, w, pc);
    InterworkedIs(c, c.reg[Rm(w)]);
  }

  /** BX: to Thumb code if the register holds an odd number, and to ARM code otherwise; no other register changes. */
  lemma BxGoes(c: Core, pins: Pins, w: Bits, pc: Word)
    requires IsBx(w)
    ensures var d := Dispatched(c, pins, w, pc);
            GoesTo(c, d, c.reg[Rm(w)]) && BranchOnly(c, d) && (forall r: RegNo :: r != 15 ==> d.reg[r] == c.reg[r])
  {
    hide *;
    BxDispatched(c, pins, w, pc);
    InterworkedGoes(c, c.reg[Rm(w)]);
  }

  // ---------------------------------------------------------------------------------------------
  // LDR into r15

  /** The base moved by the offset, and the address of the access. */
  function IndexedBase(c: Core, w: Bits): Word { Address(Lhs(c, w), WordOffset(c, w), w) }

  function AccessAddress(c: Core, w: Bits): Word { if IndexedFirst(w) then IndexedBase(c, w) else Lhs(c, w) }

  lemma WithBase(c: Core, e: Core, x: Word, b: RegNo, v: Word)
    requires GoesTo(c, e, x) && BranchOnly(c, e) && b != 15
    ensures var d := e.(reg := e.reg[b := v]); GoesTo(c, d, x) && BranchOnly(c, d) && d.reg[15] == e.reg[15]
  {
    hide Num, Pack, BitAt, Primed;
  }

  lemma FromSignal(c: Core, e: Core, x: Word)
    requires GoesTo(c.(abortSig := false), e, x) && BranchOnly(c.(abortSig := false), e)
    ensures GoesTo(c, e, x) && BranchOnly(c, e)
  {
    hide Num, Pack, BitAt, Primed;
  }

  lemma TransferKind(w: Bits)
    requires IsTransfer(w)
    ensures Supported(w) && !IsMultiply(w) && !IsHalf(w) && !IsData(w)
  {
    Execute.Overlap(w);
    hide IsTransfer, IsMultiply, IsHalf, IsData;
  }

  lemma TransferDispatched(c: Core, pins: Pins, w: Bits, pc: Word)
    requires IsTransfer(w)
    ensures Dispatched(c, pins, w, pc) == WordTransferred(c, pins, w)
  {
    hide *;
    TransferKind(w);
    DispatchKinds(c, pins, w, pc);
    TransferExecuted(c, pins, w);
  }

  lemma TransferExecuted(c: Core, pins: Pins, w: Bits)
    requires IsTransfer(w) && Supported(w) && !IsMultiply(w) && !IsHalf(w)
    ensures Executed(c, pins, w) == WordTransferred(c, pins, w)
  {
    hide IsTransfer, IsMultiply, IsHalf, IsData, WordTransferred;
  }

  lemma LoadedPc(c: Core, pins: Pins, w: Bits, a: Word)
    requires BitAt(w, 20) && Rd(w) == 15 && !c.aborted && WordNo(a) in c.mem
    ensures Accessed(c, pins, w, a, Width32, false)
         == R15Branched(c.(abortSig := false), Word(AlignedWord(c.mem[WordNo(a)].bits, a)))
  {
    hide BitAt, Rd, WordNo, R15Branched, Entered, AlignedWord;
  }

  /** LDR into r15: as BX with the word read, rotated by the byte offset of the address; the base is written if the addressing
      mode says so, and no other register changes. */
  lemma LdrGoes(c: Core, pins: Pins, w: Bits, pc: Word)
    requires IsTransfer(w) && BitAt(w, 20) && !BitAt(w, 22) && Rd(w) == 15
    requires !c.aborted && WordNo(AccessAddress(c, w)) in c.mem
    ensures var d, a := Dispatched(c, pins, w, pc), AccessAddress(c, w);
            && GoesTo(c, d, Word(AlignedWord(c.mem[WordNo(a)].bits, a))) && BranchOnly(c, d)
            && (forall r: RegNo :: r != 15 && !(WritesBase(w) && r == Rn(w)) ==> d.reg[r] == c.reg[r])
            && (WritesBase(w) && Rn(w) != 15 ==> d.reg[Rn(w)] == IndexedBase(c, w))
  {
    hide *;
    var a := AccessAddress(c, w);
    var x := Word(AlignedWord(c.mem[WordNo(a)].bits, a));
    var q := c.(abortSig := false);
    var e := Interworked(q, x);
    TransferDispatched(c, pins, w, pc);
    WordParts(c, pins, w);
    AddressIs(c, w);
    PlainWidth(w);
    LoadedPc(c, pins, w, a);
    InterworkedIs(q, x);
    InterworkedGoes(q, x);
    FromSignal(c, e, x);
    BaseOfLoad(c, e, pins, w, a, IndexedBase(c, w));
    if WritesBase(w) && Rn(w) != 15 { WithBase(c, e, x, Rn(w), IndexedBase(c, w)); }
  }

  lemma AddressIs(c: Core, w: Bits)
    ensures IndexedBase(c, w) == Address(Lhs(c, w), WordOffset(c, w), w)
    ensures AccessAddress(c, w) == if IndexedFirst(w) then IndexedBase(c, w) else Lhs(c, w)
  {
    hide Address, Lhs, WordOffset, IndexedFirst;
  }

  lemma PlainWidth(w: Bits)
    ensures WordWidth(w) == if BitAt(w, 22) then Width8 else Width32
  {
    hide BitAt;
  }

  lemma BaseOfLoad(c: Core, e: Core, pins: Pins, w: Bits, a: Word, wb: Word)
    requires BitAt(w, 20) && Rd(w) == 15 && !c.aborted && WordNo(a) in c.mem
    ensures BaseDone(c, e, pins, w, a, wb) == if WritesBase(w) && Rn(w) != 15 then e.(reg := e.reg[Rn(w) := wb]) else e
  {
    hide BitAt, Rd, Rn, WordNo, WritesBase;
  }

  // ---------------------------------------------------------------------------------------------
  // LDM with r15

  lemma BlockDispatched(c: Core, pins: Pins, w: Bits, pc: Word)
    requires IsBlock(w)
    ensures Dispatched(c, pins, w, pc) == Transferred(c, pins, w) && RegList(w) != []
  {
    hide *;
    BlockKind(w);
    DispatchKinds(c, pins, w, pc);
  }

  lemma BlockKind(w: Bits)
    requires IsBlock(w)
    ensures !Supported(w) && !IsLongMultiply(w) && !IsMsr(w) && RegList(w) != []
  {
    hide RegList;
  }

  lemma LoadedPcIs(c: Core, pins: Pins, w: Bits, start: Word, wb: Word)
    requires BitAt(w, 15) && !LoadAll(c, RegList(w), start).aborted
    ensures var x := LoadAll(c, RegList(w), start);
            Loaded(c, pins, w, start, wb) == BaseWritten(R15Branched(x, x.reg[15]), w, wb)
  {
    hide LoadAll, RegList, BitAt, BaseWritten, R15Branched, Entered;
  }

  lemma LastIsPc(w: Bits)
    requires BitAt(w, 15)
    ensures Ascending(RegList(w)) && 0 < |RegList(w)| <= 16 && RegList(w)[|RegList(w)| - 1] == 15
  {
    A.NoPcInList(w);
    A.AscendingList(w);
    hide RegList, BitAt;
  }

  /** What is loaded besides r15. */
  ghost predicate OthersLoaded(c: Core, d: Core, w: Bits, k: nat, r: RegNo)
    requires k < |RegList(w)| <= 16 && Nth(FirstOf(c, w), k) in c.mem
  {
    var kth := RegList(w)[k];
    && (kth != 15 && !(Writeback(w) && kth == Rn(w)) ==> d.reg[kth] == c.mem[Nth(FirstOf(c, w), k)])
    && (r !in RegList(w) && !(Writeback(w) && r == Rn(w)) ==> d.reg[r] == c.reg[r])
    && (Writeback(w) ==> d.reg[Rn(w)] == NewBase(c.reg[Rn(w)], w))
  }

  lemma OnlyRegsBranch(c: Core, x: Core, e: Core, v: Word)
    requires OnlyRegs(c, x) && GoesTo(x, e, v) && BranchOnly(x, e)
    ensures GoesTo(c, e, v) && BranchOnly(c, e)
  {
    hide Num, Pack, BitAt, Primed;
  }

  lemma BaseAfter(e: Core, w: Bits, wb: Word)
    ensures BaseWritten(e, w, wb) == if Writeback(w) then e.(reg := e.reg[Rn(w) := wb]) else e
    ensures Writeback(w) ==> Rn(w) != 15
  {
    hide BitAt, Rn;
  }

  lemma LoadedOthers(c: Core, x: Core, e: Core, w: Bits, k: nat, r: RegNo)
    requires k < |RegList(w)| <= 16 && Nth(FirstOf(c, w), k) in c.mem
    requires x.reg[RegList(w)[k]] == c.mem[Nth(FirstOf(c, w), k)] && (r !in RegList(w) ==> x.reg[r] == c.reg[r]) && 15 in RegList(w)
    requires forall q: RegNo :: q != 15 ==> e.reg[q] == x.reg[q]
    ensures OthersLoaded(c, BaseWritten(e, w, NewBase(c.reg[Rn(w)], w)), w, k, r)
  {
    BaseAfter(e, w, NewBase(c.reg[Rn(w)], w));
    hide RegList, FirstOf, Nth, Writeback, Rn, NewBase, BaseWritten;
  }

  /** LDM with r15: as BX with the last word of the block; the other registers of the list are loaded, and the base is written
      back if the instruction says so. */
  lemma LdmGoes(c: Core, pins: Pins, w: Bits, pc: Word, k: nat, r: RegNo)
    requires IsBlock(w) && IsLoad(w) && !Caret(w) && BitAt(w, 15) && !c.aborted && k < |RegList(w)| <= 16
    requires Mapped(c.mem, FirstOf(c, w), |RegList(w)|)
    ensures |RegList(w)| > 0 && Nth(FirstOf(c, w), |RegList(w)| - 1) in c.mem && Nth(FirstOf(c, w), k) in c.mem
    ensures var d := Dispatched(c, pins, w, pc);
            && GoesTo(c, d, c.mem[Nth(FirstOf(c, w), |RegList(w)| - 1)]) && BranchOnly(c, d) && OthersLoaded(c, d, w, k, r)
  {
    hide *;
    var base, regs := c.reg[Rn(w)], RegList(w);
    var start, wb, last := Start(base, w), NewBase(base, w), |regs| - 1;
    LastIsPc(w);
    FirstAt(c, w);
    var x := LoadAll(c, regs, start);
    LoadAllEffect(c, regs, start, k, r);
    LoadAllEffect(c, regs, start, last, r);
    OnlyRegsAborted(c, x);
    KthMapped(c.mem, FirstOf(c, w), |regs|, k);
    KthMapped(c.mem, FirstOf(c, w), |regs|, last);
    BlockDispatched(c, pins, w, pc);
    TransferredLoad(c, pins, w);
    LoadedPcIs(c, pins, w, start, wb);
    var v := x.reg[15];
    var e := Interworked(x, v);
    InterworkedIs(x, v);
    InterworkedGoes(x, v);
    OnlyRegsBranch(c, x, e, v);
    LoadedOthers(c, x, e, w, k, r);
    BaseAfter(e, w, wb);
    if Writeback(w) { WithBase(c, e, v, Rn(w), wb); }
  }
}
