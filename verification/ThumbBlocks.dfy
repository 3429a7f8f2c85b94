/** Thumb block transfers and SWI (ARM DDI 0100, chapter A7: PUSH, POP, STMIA, LDMIA, SWI): the registers they name, and what the
    translated instructions do with them. */
module ThumbBlocks {
  import opened Words
  import opened State
  import opened Alu
  import opened Banks
  import opened DataPath
  import opened Exceptions
  import opened Block
  import opened Transfer
  import opened Execute
  import opened MainSwitch
  import opened Emulator
  import opened Interworking
  import opened Vectors
  import C = Conditions
  import M = MemoryBytes
  import T = Thumb
  import opened ThumbMeaning
  import opened ThumbProof

  predicate IsPush(t: Bits) { t < 0x1_0000 && t & 0xFE00 == 0xB400 }
  predicate IsPop(t: Bits) { t < 0x1_0000 && t & 0xFE00 == 0xBC00 }
  predicate IsStmia(t: Bits) { t < 0x1_0000 && t & 0xF800 == 0xC000 }
  predicate IsLdmia(t: Bits) { t < 0x1_0000 && t & 0xF800 == 0xC800 }

  /** The eight low registers by bits 0 to 7, and `top` by bit 8 if it is not 16. */
  predicate Named(t: Bits, top: nat, r: RegNo) { (r < 8 && Bit(t, r)) || (r == top && BitAt(t, 8)) }

  // ---------------------------------------------------------------------------------------------
  // The words

  lemma PushFields(t: Bits)
    requires IsPush(t)
    ensures var w := T.Format14(t);
            && !IsLoad(w) && !Caret(w) && Before(w) && !Up(w) && BitAt(w, 21) && Nibble(w, 16) == 13 && w & 0x0E00_0000 == 0x0800_0000
  {}

  lemma PopFields(t: Bits)
    requires IsPop(t)
    ensures var w := T.Format14(t);
            && IsLoad(w) && !Caret(w) && !Before(w) && Up(w) && BitAt(w, 21) && Nibble(w, 16) == 13 && w & 0x0E00_0000 == 0x0800_0000
            && BitAt(w, 15) == BitAt(t, 8)
  {}

  lemma MultipleFields(t: Bits)
    requires IsStmia(t) || IsLdmia(t)
    ensures var w := T.Format15(t);
            && IsLoad(w) == IsLdmia(t) && !Caret(w) && !Before(w) && Up(w) && BitAt(w, 21) && Nibble(w, 16) == Field(t, 8, 7)
            && w & 0x0E00_0000 == 0x0800_0000 && !BitAt(w, 15)
  {}

  // The lists. Bits 8 to 15 of the word are clear but for that of the top register.

  lemma LowSame(w: Bits, t: Bits, i: nat)
    requires AgreeOn(w, t, 0xFF) && i < 8
    ensures Bit(w, i) == Bit(t, i)
  {
    ByteOnes();
    C.BitAgree(w, t, 0xFF, 8, i);
  }

  lemma ByteOnes()
    ensures IsOnes(0xFF, 8)
  {}

  /** Bits 8 to 15 as the decoder tests them. */
  predicate HighBit(w: Bits, i: nat)
    requires 8 <= i < 16
  {
    if i == 8 then BitAt(w, 8) else if i == 9 then BitAt(w, 9) else if i == 10 then BitAt(w, 10) else if i == 11 then BitAt(w, 11)
    else if i == 12 then BitAt(w, 12) else if i == 13 then BitAt(w, 13) else if i == 14 then BitAt(w, 14) else BitAt(w, 15)
  }

  lemma HighBits(w: Bits, i: nat)
    requires 8 <= i < 16
    ensures Bit(w, i) == HighBit(w, i)
  {
    hide *;
    BitShifted(w, 8, i - 8);
    M.HalfEight(w);
    LowBits(M.Shr8(w));
    LowOfHigh(w);
    HighOfHigh(w);
    HighBitIs(w);
    assert i == 8 || i == 9 || i == 10 || i == 11 || i == 12 || i == 13 || i == 14 || i == 15;
  }

  lemma HighBitIs(w: Bits)
    ensures HighBit(w, 8) == BitAt(w, 8) && HighBit(w, 9) == BitAt(w, 9) && HighBit(w, 10) == BitAt(w, 10)
    ensures HighBit(w, 11) == BitAt(w, 11) && HighBit(w, 12) == BitAt(w, 12) && HighBit(w, 13) == BitAt(w, 13)
    ensures HighBit(w, 14) == BitAt(w, 14) && HighBit(w, 15) == BitAt(w, 15)
  {
    hide BitAt;
  }

  lemma TwoBits(x: Bits)
    ensures Bit(x, 0) == Odd(x) && Bit(x, 1) == Odd(Half(x))
  {
    hide Half, Odd;
    assert Bit(x, 1) == Bit(Half(x), 0);
  }

  lemma TwoOn(x: Bits, i: nat)
    ensures Bit(x, 2 + i) == Bit(Half(Half(x)), i)
  {
    hide Half, Odd;
    assert Bit(x, 2 + i) == Bit(Half(x), 1 + i);
  }

  lemma LowBits(x: Bits)
    ensures Bit(x, 0) == Odd(x) && Bit(x, 1) == Odd(Half(x)) && Bit(x, 2) == Odd(Half(Half(x)))
    ensures Bit(x, 3) == Odd(Half(Half(Half(x)))) && Bit(x, 4) == Odd(Half(Half(Half(Half(x)))))
    ensures Bit(x, 5) == Odd(Half(Half(Half(Half(Half(x)))))) && Bit(x, 6) == Odd(Half(Half(Half(Half(Half(Half(x)))))))
    ensures Bit(x, 7) == Odd(Half(Half(Half(Half(Half(Half(Half(x))))))))
  {
    hide *;
    var x2 := Half(Half(x));
    var x4 := Half(Half(x2));
    var x6 := Half(Half(x4));
    TwoBits(x);
    TwoBits(x2);
    TwoBits(x4);
    TwoBits(x6);
    TwoOn(x, 0);
    TwoOn(x, 1);
    TwoOn(x, 2);
    TwoOn(x, 3);
    TwoOn(x, 4);
    TwoOn(x, 5);
    TwoOn(x2, 0);
    TwoOn(x2, 1);
    TwoOn(x2, 2);
    TwoOn(x2, 3);
    TwoOn(x4, 0);
    TwoOn(x4, 1);
  }

  lemma LowOfHigh(w: Bits)
    ensures var x := M.Shr8(w); Odd(x) == BitAt(w, 8) && Odd(Half(x)) == BitAt(w, 9) && Odd(Half(Half(x))) == BitAt(w, 10)
    ensures Odd(Half(Half(Half(M.Shr8(w))))) == BitAt(w, 11)
  {}

  lemma HighOfHigh(w: Bits)
    ensures Odd(Half(Half(Half(Half(M.Shr8(w)))))) == BitAt(w, 12)
    ensures Odd(Half(Half(Half(Half(Half(M.Shr8(w))))))) == BitAt(w, 13)
    ensures Odd(Half(Half(Half(Half(Half(Half(M.Shr8(w)))))))) == BitAt(w, 14)
    ensures Odd(Half(Half(Half(Half(Half(Half(Half(M.Shr8(w))))))))) == BitAt(w, 15)
  {}

  lemma {:induction false} BitShifted(w: Bits, n: nat, i: nat)
    ensures Bit(w, n + i) == Bit(HalfTimes(w, n), i)
    decreases n
  {
    if n > 0 { BitShifted(Half(w), n - 1, i); }
  }

  lemma PushBits(t: Bits)
    requires IsPush(t)
    ensures var w := T.Format14(t); AgreeOn(w, t, 0xFF) && BitAt(w, 14) == BitAt(t, 8) && w & 0xBF00 == 0
  {}

  lemma PopBits(t: Bits)
    requires IsPop(t)
    ensures var w := T.Format14(t); AgreeOn(w, t, 0xFF) && BitAt(w, 15) == BitAt(t, 8) && w & 0x7F00 == 0
  {}

  lemma MultipleBits(t: Bits)
    requires IsStmia(t) || IsLdmia(t)
    ensures var w := T.Format15(t); AgreeOn(w, t, 0xFF) && w & 0xFF00 == 0
  {}

  lemma ClearBits(w: Bits)
    ensures w & 0x3F00 == 0 ==> !BitAt(w, 8) && !BitAt(w, 9) && !BitAt(w, 10) && !BitAt(w, 11) && !BitAt(w, 12) && !BitAt(w, 13)
    ensures w & 0x8000 == 0 ==> !BitAt(w, 15)
    ensures w & 0x4000 == 0 ==> !BitAt(w, 14)
  {}

  lemma ClearParts(w: Bits)
    ensures w & 0xBF00 == 0 ==> w & 0x3F00 == 0 && w & 0x8000 == 0
    ensures w & 0x7F00 == 0 ==> w & 0x3F00 == 0 && w & 0x4000 == 0
    ensures w & 0xFF00 == 0 ==> w & 0x3F00 == 0 && w & 0x4000 == 0 && w & 0x8000 == 0
  {}

  /** The registers of a list with the low byte of t and, of the high ones, at most `top`. */
  lemma ListIs(w: Bits, t: Bits, top: nat, r: RegNo)
    requires AgreeOn(w, t, 0xFF) && w & 0x3F00 == 0
    requires (BitAt(w, 14) <==> top == 14 && BitAt(t, 8)) && (BitAt(w, 15) <==> top == 15 && BitAt(t, 8)) && (top == 14 || top == 15 || top == 16)
    ensures r in RegList(w) <==> Named(t, top, r)
  {
    ListMeaning(w, 0);
    if r < 8 { LowSame(w, t, r); } else { HighBits(w, r); }
    ClearBits(w);
    hide Bit, BitAt, AgreeOn, ListFrom, HighBit;
    HighBitIs(w);
  }

  lemma PushList(t: Bits, r: RegNo)
    requires IsPush(t)
    ensures r in RegList(T.Format14(t)) <==> Named(t, 14, r)
  {
    hide *;
    var w := T.Format14(t);
    PushBits(t);
    ClearParts(w);
    ClearBits(w);
    ListIs(w, t, 14, r);
  }

  lemma PopList(t: Bits, r: RegNo)
    requires IsPop(t)
    ensures r in RegList(T.Format14(t)) <==> Named(t, 15, r)
  {
    hide *;
    var w := T.Format14(t);
    PopBits(t);
    ClearParts(w);
    ClearBits(w);
    ListIs(w, t, 15, r);
  }

  lemma MultipleList(t: Bits, r: RegNo)
    requires IsStmia(t) || IsLdmia(t)
    ensures r in RegList(T.Format15(t)) <==> Named(t, 16, r)
  {
    hide *;
    var w := T.Format15(t);
    MultipleBits(t);
    ClearParts(w);
    ClearBits(w);
    ListIs(w, t, 16, r);
  }

  lemma Thirteen()
    ensures RegNumber(13) == 13
  {
    assert Low(13, 4) == 2 * Low(6, 3) + 1 by { assert Half(13) == 6; }
    assert Low(6, 3) == 2 * Low(3, 2) by { assert Half(6) == 3; }
    assert Low(3, 2) == 2 * Low(1, 1) + 1 by { assert Half(3) == 1; }
    assert Low(1, 1) == 1;
  }

  // ---------------------------------------------------------------------------------------------
  // Thumb code

  /** A Thumb instruction that is translated does what the ARM instruction does. */
  lemma ThumbRuns(c: Core, pins: Pins, pair: Bits, pc: Word)
    requires c.t && T.Decode(c, pins, pc, pair, false).Translated?
    ensures var w := T.Decode(c, pins, pc, pair, false).w;
            Emulated(c, pins, pair, pc) == if Modelled(w) then Dispatched(c, pins, w, pc) else Entered(c, pins, Undefined)
  {
    var w := T.Decode(c, pins, pc, pair, false).w;
    T.TranslatedAlways(c, pins, pc, pair, false);
    C.AlwaysHolds(FlagsOf(c));
    hide T.Decode, Modelled, Dispatched, Entered, Holds;
  }

  // ---------------------------------------------------------------------------------------------
  // PUSH and POP

  /** What a store of n registers at word `first` leaves. */
  ghost predicate Stores(c: Core, d: Core, regs: seq<RegNo>, first: nat, k: nat, n: nat)
    requires k < |regs|
  {
    && d.mem.Keys == c.mem.Keys && Nth(first, k) in d.mem && d.mem[Nth(first, k)] == c.reg[regs[k]]
    && (n in c.mem && Outside(n, first, |regs|) ==> d.mem[n] == c.mem[n])
  }

  lemma StoredParts(c: Core, d: Core, w: Bits, k: nat, n: nat)
    requires k < |RegList(w)| <= 16 && StmDone(c, d, w, k, n) && Writeback(w)
    ensures Stores(c, d, RegList(w), FirstOf(c, w), k, n)
    ensures d == c.(reg := c.reg[Rn(w) := NewBase(c.reg[Rn(w)], w)], mem := d.mem, abortSig := false, nextInstr := d.nextInstr)
  {
    hide RegList, FirstOf, Rn, NewBase, Nth, BitAt;
  }

  lemma DownFirst(c: Core, w: Bits)
    requires !Up(w) && Before(w) && |RegList(w)| <= 16
    ensures FirstOf(c, w) == Nth(WordNo(c.reg[Rn(w)]) + WORDS - |RegList(w)|, 0)
  {
    hide RegList, Rn, WordNo, Nth, Up, Before;
  }

  lemma UpFirst(c: Core, w: Bits)
    requires Up(w) && !Before(w) && |RegList(w)| <= 16
    ensures FirstOf(c, w) == WordNo(c.reg[Rn(w)])
  {
    NextWord(c.reg[Rn(w)]);
    NthZero(WordNo(c.reg[Rn(w)]), 0);
    hide RegList, Rn, WordNo, Nth, Up, Before;
  }

  lemma ListSize(w: Bits)
    ensures |RegList(w)| <= 16 && Ascending(RegList(w))
  {
    ListMeaning(w, 0);
    hide ListFrom;
  }

  lemma BaseRegister(w: Bits, r: RegNo)
    requires BitAt(w, 21) && Rn(w) == r && r != 15
    ensures Writeback(w)
  {
    hide BitAt, Rn;
  }

  lemma BlockIs(w: Bits)
    requires w & 0x0E00_0000 == 0x0800_0000 && RegList(w) != []
    ensures IsBlock(w)
  {
    hide RegList;
  }

  lemma NibbleRegister(w: Bits, x: Bits)
    requires Nibble(w, 16) == x && x < 16
    ensures Rn(w) == RegNumber(x)
  {
    hide RegNumber, Nibble;
  }

  /** PUSH: the named registers, in ascending order, go to the words below SP, which moves down to the first of them. */
  lemma PushMeaning(c: Core, pins: Pins, t: Bits, pc: Word, k: nat, n: nat)
    requires IsPush(t) && !c.aborted && k < |RegList(T.Format14(t))| <= 16
    requires var regs := RegList(T.Format14(t)); Mapped(c.mem, Nth(WordNo(c.reg[SP]) + WORDS - |regs|, 0), |regs|)
    ensures forall r: RegNo :: r in RegList(T.Format14(t)) <==> Named(t, 14, r)
    ensures Ascending(RegList(T.Format14(t)))
    ensures var d, regs := Dispatched(c, pins, T.Format14(t), pc), RegList(T.Format14(t));
            && Stores(c, d, regs, Nth(WordNo(c.reg[SP]) + WORDS - |regs|, 0), k, n)
            && Num(d.reg[SP]) == (Num(c.reg[SP]) + LIMB - 4 * |regs|) % LIMB
            && d == c.(reg := c.reg[SP := d.reg[SP]], mem := d.mem, abortSig := false, nextInstr := d.nextInstr)
  {
    hide *;
    var w := T.Format14(t);
    SpIs();
    LimbWords();
    forall r: RegNo ensures r in RegList(w) <==> Named(t, 14, r) { PushList(t, r); }
    PushFields(t);
    Thirteen();
    NibbleRegister(w, 13);
    ListSize(w);
    BaseRegister(w, 13);
    BlockIs(w);
    BlockDispatched(c, pins, w, pc);
    DownFirst(c, w);
    StmMeaning(c, pins, w, k, n);
    StoredParts(c, Transferred(c, pins, w), w, k, n);
    NewBaseNumber(c.reg[13], w);
    SameRow(c.reg, 13, NewBase(c.reg[13], w));
  }

  lemma SpIs()
    ensures SP == 13
  {}

  lemma LimbWords()
    ensures LIMB == 0x1_0000_0000 && WORDS == 0x4000_0000
  {}

  lemma SameRow(row: Row, r: RegNo, w: Word)
    ensures row[r := w][r] == w
  {}

  /** What a load of registers from word `first` leaves in register r, and in the k-th one, but for the base. */
  predicate Loads(c: Core, d: Core, regs: seq<RegNo>, first: nat, base: RegNo, k: nat, r: RegNo)
    requires k < |regs| && Nth(first, k) in c.mem
  {
    && d == c.(reg := d.reg, abortSig := false)
    && (regs[k] != base ==> d.reg[regs[k]] == c.mem[Nth(first, k)])
    && (r !in regs && r != base ==> d.reg[r] == c.reg[r])
  }

  lemma LoadedParts(c: Core, d: Core, w: Bits, k: nat, r: RegNo)
    requires k < |RegList(w)| <= 16 && Nth(FirstOf(c, w), k) in c.mem && LdmDone(c, d, w, k, r) && Writeback(w)
    ensures Loads(c, d, RegList(w), FirstOf(c, w), Rn(w), k, r) && d.reg[Rn(w)] == NewBase(c.reg[Rn(w)], w)
  {
    hide RegList, FirstOf, Rn, NewBase, Nth, BitAt;
  }

  /** POP without r15: the named registers come from the words at SP, which moves up past them. */
  lemma PopMeaning(c: Core, pins: Pins, t: Bits, pc: Word, k: nat, r: RegNo)
    requires IsPop(t) && !BitAt(t, 8) && !c.aborted && k < |RegList(T.Format14(t))| <= 16
    requires Mapped(c.mem, WordNo(c.reg[SP]), |RegList(T.Format14(t))|)
    ensures forall r: RegNo :: r in RegList(T.Format14(t)) <==> Named(t, 15, r)
    ensures Ascending(RegList(T.Format14(t))) && Nth(WordNo(c.reg[SP]), k) in c.mem
    ensures var d, regs := Dispatched(c, pins, T.Format14(t), pc), RegList(T.Format14(t));
            && Loads(c, d, regs, WordNo(c.reg[SP]), SP, k, r) && Num(d.reg[SP]) == (Num(c.reg[SP]) + 4 * |regs|) % LIMB
  {
    hide *;
    var w := T.Format14(t);
    SpIs();
    forall r: RegNo ensures r in RegList(w) <==> Named(t, 15, r) { PopList(t, r); }
    PopFields(t);
    Thirteen();
    NibbleRegister(w, 13);
    ListSize(w);
    BaseRegister(w, 13);
    BlockIs(w);
    BlockDispatched(c, pins, w, pc);
    UpFirst(c, w);
    KthMapped(c.mem, WordNo(c.reg[SP]), |RegList(w)|, k);
    LdmMeaning(c, pins, w, k, r);
    LoadedParts(c, Transferred(c, pins, w), w, k, r);
    NewBaseNumber(c.reg[13], w);
  }

  /** POP with r15: the same, and the machine goes to the last word, to ARM or Thumb code by its bit 0. */
  lemma PopPcMeaning(c: Core, pins: Pins, t: Bits, pc: Word, k: nat, r: RegNo)
    requires IsPop(t) && BitAt(t, 8) && !c.aborted && k < |RegList(T.Format14(t))| <= 16
    requires Mapped(c.mem, WordNo(c.reg[SP]), |RegList(T.Format14(t))|)
    ensures forall r: RegNo :: r in RegList(T.Format14(t)) <==> Named(t, 15, r)
    ensures var regs, first := RegList(T.Format14(t)), WordNo(c.reg[SP]); Nth(first, |regs| - 1) in c.mem && Nth(first, k) in c.mem
    ensures var d, regs, first := Dispatched(c, pins, T.Format14(t), pc), RegList(T.Format14(t)), WordNo(c.reg[SP]);
            && GoesTo(c, d, c.mem[Nth(first, |regs| - 1)]) && BranchOnly(c, d)
            && (regs[k] != 15 && regs[k] != SP ==> d.reg[regs[k]] == c.mem[Nth(first, k)])
            && (r !in regs && r != SP ==> d.reg[r] == c.reg[r]) && Num(d.reg[SP]) == (Num(c.reg[SP]) + 4 * |regs|) % LIMB
  {
    hide *;
    var w := T.Format14(t);
    SpIs();
    forall r: RegNo ensures r in RegList(w) <==> Named(t, 15, r) { PopList(t, r); }
    PopFields(t);
    Thirteen();
    NibbleRegister(w, 13);
    ListSize(w);
    BaseRegister(w, 13);
    BlockIs(w);
    UpFirst(c, w);
    LdmGoes(c, pins, w, pc, k, r);
    OthersParts(c, Dispatched(c, pins, w, pc), w, k, r);
    NewBaseNumber(c.reg[13], w);
  }

  lemma OthersParts(c: Core, d: Core, w: Bits, k: nat, r: RegNo)
    requires k < |RegList(w)| <= 16 && Nth(FirstOf(c, w), k) in c.mem && OthersLoaded(c, d, w, k, r) && Writeback(w)
    ensures RegList(w)[k] != 15 && RegList(w)[k] != Rn(w) ==> d.reg[RegList(w)[k]] == c.mem[Nth(FirstOf(c, w), k)]
    ensures r !in RegList(w) && r != Rn(w) ==> d.reg[r] == c.reg[r]
    ensures d.reg[Rn(w)] == NewBase(c.reg[Rn(w)], w)
  {
    hide RegList, FirstOf, Rn, NewBase, Nth, Writeback;
  }

  // ---------------------------------------------------------------------------------------------
  // STMIA and LDMIA

  lemma MultipleBase(t: Bits)
    requires IsStmia(t) || IsLdmia(t)
    ensures Rn(T.Format15(t)) == Low3(t, 8) && Low3(t, 8) < 8
  {
    MultipleFields(t);
    SmallField(t, 8);
    hide IsLoad, Caret, Before, Up, BitAt, Nibble, Field, RegNumber, T.Format15;
  }

  /** STMIA: the named registers go to the words from the base up; the base register moves past them, and is stored as it was. */
  lemma StmiaMeaning(c: Core, pins: Pins, t: Bits, pc: Word, k: nat, n: nat)
    requires IsStmia(t) && !c.aborted && k < |RegList(T.Format15(t))| <= 16
    requires Mapped(c.mem, WordNo(c.reg[Low3(t, 8)]), |RegList(T.Format15(t))|)
    ensures forall r: RegNo :: r in RegList(T.Format15(t)) <==> Named(t, 16, r)
    ensures Ascending(RegList(T.Format15(t)))
    ensures var d, regs, b := Dispatched(c, pins, T.Format15(t), pc), RegList(T.Format15(t)), Low3(t, 8);
            && Stores(c, d, regs, WordNo(c.reg[b]), k, n) && Num(d.reg[b]) == (Num(c.reg[b]) + 4 * |regs|) % LIMB
            && d == c.(reg := c.reg[b := d.reg[b]], mem := d.mem, abortSig := false, nextInstr := d.nextInstr)
  {
    hide *;
    var w, b := T.Format15(t), Low3(t, 8);
    forall r: RegNo ensures r in RegList(w) <==> Named(t, 16, r) { MultipleList(t, r); }
    MultipleFields(t);
    NotBoth(t);
    MultipleBase(t);
    ListSize(w);
    BaseRegister(w, b);
    BlockIs(w);
    BlockDispatched(c, pins, w, pc);
    UpFirst(c, w);
    StmMeaning(c, pins, w, k, n);
    StoredParts(c, Transferred(c, pins, w), w, k, n);
    NewBaseNumber(c.reg[b], w);
    SameRow(c.reg, b, NewBase(c.reg[b], w));
  }

  lemma NotBoth(t: Bits)
    ensures !(IsStmia(t) && IsLdmia(t))
  {}

  /** LDMIA: the named registers come from the words from the base up, and the base register moves past them, also if it is
      among them. */
  lemma LdmiaMeaning(c: Core, pins: Pins, t: Bits, pc: Word, k: nat, r: RegNo)
    requires IsLdmia(t) && !c.aborted && k < |RegList(T.Format15(t))| <= 16
    requires Mapped(c.mem, WordNo(c.reg[Low3(t, 8)]), |RegList(T.Format15(t))|)
    ensures forall r: RegNo :: r in RegList(T.Format15(t)) <==> Named(t, 16, r)
    ensures Ascending(RegList(T.Format15(t))) && Nth(WordNo(c.reg[Low3(t, 8)]), k) in c.mem
    ensures var d, regs, b := Dispatched(c, pins, T.Format15(t), pc), RegList(T.Format15(t)), Low3(t, 8);
            Loads(c, d, regs, WordNo(c.reg[b]), b, k, r) && Num(d.reg[b]) == (Num(c.reg[b]) + 4 * |regs|) % LIMB
  {
    hide *;
    var w, b := T.Format15(t), Low3(t, 8);
    forall r: RegNo ensures r in RegList(w) <==> Named(t, 16, r) { MultipleList(t, r); }
    MultipleFields(t);
    MultipleBase(t);
    ListSize(w);
    BaseRegister(w, b);
    BlockIs(w);
    BlockDispatched(c, pins, w, pc);
    UpFirst(c, w);
    KthMapped(c.mem, WordNo(c.reg[b]), |RegList(w)|, k);
    LdmMeaning(c, pins, w, k, r);
    LoadedParts(c, Transferred(c, pins, w), w, k, r);
    NewBaseNumber(c.reg[b], w);
  }

  lemma SameNumber(a: Word, b: Word)
    ensures a == b <==> Num(a) == Num(b)
  {
    if Num(a) == Num(b) { WordEqual(a, b); }
    hide Num;
  }

  /** In Thumb code a base register among the loaded ones should have the word it is loaded with. It has if and only if that
      is the moved base. */
  lemma LdmiaBaseExactly(c: Core, pins: Pins, t: Bits, pc: Word, k: nat)
    requires IsLdmia(t) && !c.aborted && k < |RegList(T.Format15(t))| <= 16 && RegList(T.Format15(t))[k] == Low3(t, 8)
    requires Mapped(c.mem, WordNo(c.reg[Low3(t, 8)]), |RegList(T.Format15(t))|)
    ensures Nth(WordNo(c.reg[Low3(t, 8)]), k) in c.mem
    ensures var word, b := c.mem[Nth(WordNo(c.reg[Low3(t, 8)]), k)], Low3(t, 8);
            Dispatched(c, pins, T.Format15(t), pc).reg[b] == word
            <==> Num(word) == (Num(c.reg[b]) + 4 * |RegList(T.Format15(t))|) % LIMB
  {
    hide *;
    LdmiaMeaning(c, pins, t, pc, k, 0);
    SameNumber(Dispatched(c, pins, T.Format15(t), pc).reg[Low3(t, 8)], c.mem[Nth(WordNo(c.reg[Low3(t, 8)]), k)]);
  }

  // ---------------------------------------------------------------------------------------------
  // SWI

  predicate IsThumbSwi(t: Bits) { t < 0x1_0000 && t & 0xFF00 == 0xDF00 }

  lemma SwiWord(t: Bits)
    requires IsThumbSwi(t)
    ensures IsSwi(T.Format17(t)) && IsSwi(0xEFFF_DFFF) && T.Group(t) == 27 && t & 0x0F00 == 0x0F00
  {}

  lemma SwiDecodes(c: Core, pins: Pins, pair: Bits, pc: Word)
    requires IsThumbSwi(T.Halves(pair, pins.bigend).0)
    ensures T.Decode(c, pins, pc, pair, false) == T.Translated(T.Format17(T.Halves(pair, pins.bigend).0))
  {
    SwiWord(T.Halves(pair, pins.bigend).0);
    hide T.Halves, T.Format17, T.Format5, T.Table, T.Group, T.Format16, T.Format19, T.BranchLink, T.Jump, T.Offset18, Plus, BitAt,
      IsThumbSwi;
  }

  lemma SwiModelled(w: Bits)
    requires IsSwi(w)
    ensures Modelled(w)
  {
    hide IsSwi, Supported, IsLongMultiply, IsSwap, IsMrs, IsBx, IsMsr, IsArmBranch, IsBlock, IsIdle;
  }

  /** SWI in Thumb state: Supervisor mode, address 8, and the address of the next halfword in the link register. */
  lemma ThumbSwi(c: Core, pins: Pins, pair: Bits, pc: Word)
    requires c.t && Consistent(c) && c.reg[15] == Ahead(pc, true) && IsThumbSwi(T.Halves(pair, pins.bigend).0)
    ensures var d := Emulated(c, pins, pair, pc); TakenAt(d, pins, 8, 0x13) && d.reg[14] == Plus(pc, Isize(true))
  {
    hide *;
    var w := T.Format17(T.Halves(pair, pins.bigend).0);
    SwiWord(T.Halves(pair, pins.bigend).0);
    SwiDecodes(c, pins, pair, pc);
    SwiModelled(w);
    ThumbRuns(c, pins, pair, pc);
    SwiTaken(c, pins, w, pc);
  }
}
