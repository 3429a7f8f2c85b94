/** Thumb code in the pipeline: every Thumb instruction but one leaves r15, T and NextInstr in step, from every state. The
    exception is CMP with r15 as the first operand, which ARMul_ThumbDecode turns into CMPP. */
module ThumbOrderly {
  import opened Words
  import opened State
  import opened DataPath
  import opened Multiply
  import opened Single
  import opened Execute
  import opened MainSwitch
  import opened Emulator
  import T = Thumb

  /** A test, and r15 in bits 12 to 15: not for the PSR. */
  predicate NoPsr(w: Bits) { w & 0x0D90_F000 != 0x0110_F000 && (w & 0x0DB0_F000 != 0x0120_F000 || IsBx(w)) }

  /** A single transfer that does not write its base. */
  predicate NoBase(w: Bits) { (w & 0x0C00_0000 == 0x0400_0000 || w & 0x0E00_0090 == 0x0000_0090) ==> w & 0x0120_0000 == 0x0100_0000 }

  /** Neither a multiplication into r15, nor a 64-bit one, nor SWP or MRS. */
  predicate NoOther(w: Bits)
  {
    && (w & 0x0FC0_00F0 == 0x0000_0090 ==> w & 0x000F_0000 != 0x000F_0000)
    && w & 0x0F80_00F0 != 0x0080_0090 && w & 0x0FB0_0FF0 != 0x0100_0090 && w & 0x0FBF_0FFF != 0x010F_0000
  }

  predicate IsMul(w: Bits) { w & 0x0FC0_00F0 == 0x0000_0090 }

  predicate Tame(w: Bits) { NoPsr(w) && NoOther(w) && (NoBase(w) || IsMul(w)) }

  lemma TameLow(t: Bits)
    requires t < 0x1_0000
    ensures Tame(T.Format1(t))
    ensures Tame(T.Format2(t))
    ensures Tame(T.Format3(t))
  {}

  /** A data-processing instruction with S and room for its registers; bit 7 is clear. */
  predicate Roomy(base: Bits) { base & 0x0C0F_FF80 == 0 && base & 0x0010_0000 != 0 }

  lemma BasesRoomy(k: Bits)
    requires k < 16
    ensures var (base, placing) := T.Subset4(k); if placing == T.Mul then base == 0xE010_0090 else Roomy(base)
  {}

  lemma RoomyTame(w: Bits)
    requires w & 0x0C00_8080 == 0 && w & 0x0010_0000 != 0
    ensures Tame(w)
  {}

  lemma RoomyNorm(base: Bits, t: Bits)
    requires Roomy(base)
    ensures var w := T.Placed(base, t, T.Norm); w & 0x0C00_8080 == 0 && w & 0x0010_0000 != 0
  {}

  lemma RoomyShifts(base: Bits, t: Bits)
    requires Roomy(base)
    ensures var w := T.Placed(base, t, T.Shifts); w & 0x0C00_8080 == 0 && w & 0x0010_0000 != 0
  {}

  lemma RoomyNegs(base: Bits, t: Bits)
    requires Roomy(base)
    ensures var w := T.Placed(base, t, T.Negs); w & 0x0C00_8080 == 0 && w & 0x0010_0000 != 0
  {}

  lemma MulTame(t: Bits)
    ensures Tame(T.Placed(0xE010_0090, t, T.Mul))
  {}

  lemma TamePlaced(base: Bits, t: Bits, placing: T.Placing)
    requires if placing == T.Mul then base == 0xE010_0090 else Roomy(base)
    ensures Tame(T.Placed(base, t, placing))
  {
    hide Tame, Roomy, T.Placed;
    if placing == T.Mul {
      MulTame(t);
    } else {
      RoomyNorm(base, t);
      RoomyShifts(base, t);
      RoomyNegs(base, t);
      RoomyTame(T.Placed(base, t, placing));
    }
  }

  lemma TameFour(t: Bits)
    requires t < 0x1_0000
    ensures Tame(T.Format4(t))
  {
    hide Tame, T.Subset4, T.Placed, T.Index4, Roomy;
    T.IndexSmall4(t);
    BasesRoomy(T.Index4(t));
    var (base, placing) := T.Subset4(T.Index4(t));
    TamePlaced(base, t, placing);
  }

  /** CMP with r15 as the first operand. */
  predicate ComparesPc(t: Bits) { t & 0xFF87 == 0x4587 }

  lemma TameFive(t: Bits)
    requires t < 0x1_0000 && T.Group(t) == 8 && BitAt(t, 10) && T.Format5(t).Translated? && !ComparesPc(t)
    ensures Tame(T.Format5(t).w)
  {}

  lemma TameTransfers(t: Bits)
    requires t < 0x1_0000
    ensures Tame(T.Format6(t))
    ensures Tame(T.Format7(t))
    ensures Tame(T.Format8(t))
    ensures Tame(T.Format9(t))
  {}

  lemma TameMiddle(t: Bits)
    requires t < 0x1_0000
    ensures Tame(T.Format10(t))
    ensures Tame(T.Format11(t))
    ensures Tame(T.Format12(t))
  {}

  lemma TameHigh(t: Bits)
    requires t < 0x1_0000
    ensures Tame(T.Format14(t))
    ensures Tame(T.Format15(t))
    ensures Tame(T.Format17(t))
    ensures Tame(0xEFFF_DFFF)
  {}

  // ---------------------------------------------------------------------------------------------
  // Tame instructions are orderly

  predicate FieldIs15(w: Bits, k: Bits)
    requires k <= 28
  {
    Nibble(w, k) == 15
  }

  /** A register number is 15 only if its field is. */
  lemma FieldFifteen(x: Bits)
    requires x < 16 && RegNumber(x) == 15
    ensures x == 15
  {
    assert IsOnes(15, 4);
    assert Within(x, 15) && Within(15, 15);
    LowBound(x, 4);
    assert Low(15, 4) == 15;
    LowInjective(x, 15, 4, 15);
  }

  lemma NibbleSmall(w: Bits)
    ensures Nibble(w, 12) < 16 && Nibble(w, 16) < 16
  {}

  lemma Fifteens(w: Bits)
    ensures Rd(w) == 15 ==> FieldIs15(w, 12)
    ensures Rn(w) == 15 ==> FieldIs15(w, 16)
  {
    NibbleSmall(w);
    if Rd(w) == 15 { FieldFifteen(Nibble(w, 12)); }
    if Rn(w) == 15 { FieldFifteen(Nibble(w, 16)); }
    hide Nibble, RegNumber;
  }

  lemma TestBits(w: Bits)
    ensures IsData(w) && IsTest(OpOf(w)) ==> w & 0x0D90_0000 == 0x0110_0000
  {}

  lemma NotRestoring(w: Bits)
    ensures NoPsr(w) && IsData(w) ==> !RestoresPsr(w)
  {
    TestBits(w);
    Fifteens(w);
    if IsData(w) && RestoresPsr(w) { PsrBits(w); }
    hide IsData, IsTest, OpOf, Rd, NoPsr;
  }

  lemma PsrBits(w: Bits)
    requires w & 0x0D90_0000 == 0x0110_0000 && FieldIs15(w, 12)
    ensures !NoPsr(w)
  {}

  lemma NotMsr(w: Bits)
    requires NoPsr(w)
    ensures !IsMsr(w)
  {}

  lemma KindBits(w: Bits)
    ensures NoOther(w) ==> !IsLongMultiply(w) && !IsSwap(w) && !IsMrs(w)
    ensures NoOther(w) && IsMultiply(w) ==> !FieldIs15(w, 16)
    ensures IsMul(w) ==> !IsHalf(w) && !IsTransfer(w)
    ensures NoBase(w) && (IsHalf(w) || IsTransfer(w)) ==> !WritesBase(w)
  {}

  lemma TameOrderly(c: Core, w: Bits)
    requires Tame(w)
    ensures Orderly(c, w)
  {
    hide NoPsr, NoOther, NoBase, IsMul, IsData, RestoresPsr, IsMsr, KeepsT, IsMultiply, IsLongMultiply, IsHalf, IsTransfer, IsSwap, IsMrs,
      WritesBase, Rn, Rd, FieldIs15, BitAt, RdHi, RdLo;
    NotRestoring(w);
    NotMsr(w);
    KindBits(w);
    Fifteens(w);
  }

  // ---------------------------------------------------------------------------------------------
  // Thumb

  lemma TranslatedTame(c: Core, pins: Pins, pc: Word, pair: Bits, aborted: bool)
    requires T.Decode(c, pins, pc, pair, aborted).Translated? && !ComparesPc(T.Halves(pair, pins.bigend).0)
    ensures Tame(T.Decode(c, pins, pc, pair, aborted).w)
  {
    var t := T.Halves(pair, pins.bigend).0;
    T.HalvesSmall(pair, pins.bigend);
    TameLow(t);
    TameFour(t);
    if T.Group(t) == 8 && BitAt(t, 10) && T.Format5(t).Translated? { TameFive(t); }
    TameTransfers(t);
    TameMiddle(t);
    TameHigh(t);
    hide Tame, T.Halves, BitAt, ComparesPc, T.Format1, T.Format2, T.Format3, T.Format4, T.Format5, T.Format6, T.Format7, T.Format8,
      T.Format9, T.Format10, T.Format11, T.Format12, T.Format14, T.Format15, T.Format17, T.Format16, T.Format19, T.BranchLink, T.Jump,
      T.Offset18, Plus;
  }

  /** A Thumb instruction is orderly in every state, if it is not CMP with r15 as the first operand. */
  lemma ThumbIsOrderly(c: Core, pins: Pins, pair: Bits, pc: Word)
    requires c.t && !ComparesPc(T.Halves(pair, pins.bigend).0)
    ensures EmulatedOrderly(c, pins, pair, pc)
  {
    hide T.Decode, Tame, Orderly, ComparesPc, T.Halves;
    if T.Decode(c, pins, pc, pair, false).Translated? {
      TranslatedTame(c, pins, pc, pair, false);
      TameOrderly(c, T.Decode(c, pins, pc, pair, false).w);
    }
  }
}
