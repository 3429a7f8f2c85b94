/** The main switch by its own case labels: bits 20 to 27, with bits 4 to 7 where the cases look at them. */
module Decoding {
  import opened Words
  import opened DataPath
  import opened Block
  import opened Execute
  import opened MainSwitch
  import opened Emulator

  /** BITS (20, 27), BITS (4, 7), BITS (4, 11), BITS (12, 15) and BITS (16, 19). */
  function Case(w: Bits): Bits { (w >> 20) & 0xFF }
  function Low4(w: Bits): Bits { (w >> 4) & 0xF }
  function Low8(w: Bits): Bits { (w >> 4) & 0xFF }
  function Destination(w: Bits): Bits { (w >> 12) & 0xF }
  function LeftOperand(w: Bits): Bits { (w >> 16) & 0xF }

  /** Multiplications: 9 in bits 4 to 7. */
  lemma MultiplyCases(w: Bits)
    ensures IsMultiply(w) ==> Case(w) <= 0x03 && Low4(w) == 9
    ensures Case(w) <= 0x03 && Low4(w) == 9 ==> IsMultiply(w)
    ensures IsLongMultiply(w) ==> 0x08 <= Case(w) <= 0x0F && Low4(w) == 9
    ensures 0x08 <= Case(w) <= 0x0F && Low4(w) == 9 ==> IsLongMultiply(w)
  {}

  /** A register offset of a halfword transfer has bits 8 to 11 clear; in the odd cases an immediate one has bit 22 set. */
  predicate HalfOperand(w: Bits) { Case(w) & 4 != 0 || (w >> 8) & 0xF == 0 }

  /** Halfword and signed transfers: 11 in bits 4 to 7, and with bit 20 also 13 and 15. */
  lemma HalfCases(w: Bits)
    ensures IsHalf(w) ==> Case(w) < 0x20 && HalfOperand(w) && (Low4(w) == 0xB || (Case(w) & 1 == 1 && (Low4(w) == 0xD || Low4(w) == 0xF)))
    ensures Case(w) < 0x20 && HalfOperand(w) && Low4(w) == 0xB ==> IsHalf(w)
    ensures Case(w) < 0x20 && HalfOperand(w) && Case(w) & 1 == 1 && (Low4(w) == 0xD || Low4(w) == 0xF) ==> IsHalf(w)
  {}

  /** Word and byte transfers: bit 4 of the register forms is clear. */
  lemma TransferCases(w: Bits)
    ensures IsTransfer(w) ==> 0x40 <= Case(w) <= 0x7F && (Case(w) < 0x60 || Low4(w) & 1 == 0)
    ensures 0x40 <= Case(w) <= 0x7F && (Case(w) < 0x60 || Low4(w) & 1 == 0) ==> IsTransfer(w)
  {}

  /** Block transfers, branches and SWI. */
  lemma HighCases(w: Bits)
    ensures IsBlock(w) ==> 0x80 <= Case(w) <= 0x9F && RegList(w) != []
    ensures 0x80 <= Case(w) <= 0x9F && RegList(w) != [] ==> IsBlock(w)
    ensures IsArmBranch(w) ==> 0xA0 <= Case(w) <= 0xBF
    ensures 0xA0 <= Case(w) <= 0xBF ==> IsArmBranch(w)
    ensures IsSwi(w) ==> 0xF0 <= Case(w)
    ensures 0xF0 <= Case(w) ==> IsSwi(w)
  {
    hide RegList;
  }

  /** SWP and MRS in cases 0x10 and 0x14, BX in case 0x12. */
  lemma SpecialCases(w: Bits)
    ensures IsSwap(w) ==> (Case(w) == 0x10 || Case(w) == 0x14) && Low8(w) == 9
    ensures (Case(w) == 0x10 || Case(w) == 0x14) && Low8(w) == 9 ==> IsSwap(w)
    ensures IsMrs(w) ==> (Case(w) == 0x10 || Case(w) == 0x14) && w & 0xFFF == 0 && LeftOperand(w) == 15
    ensures (Case(w) == 0x10 || Case(w) == 0x14) && w & 0xFFF == 0 && LeftOperand(w) == 15 ==> IsMrs(w)
    ensures IsBx(w) ==> (w >> 4) & 0xFF_FFFF == 0x12_FFF1
    ensures (w >> 4) & 0xFF_FFFF == 0x12_FFF1 ==> IsBx(w)
  {}

  /** The encodings with bits 4 and 7 set are not for data processing. */
  predicate PlainForm(w: Bits) { Case(w) >= 0x20 || Low4(w) & 9 != 9 }

  /** MSR: the tests without S, with r15 as the destination. */
  lemma MsrCases(w: Bits)
    ensures IsMsr(w) ==> Case(w) in {0x12, 0x16, 0x32, 0x36} && Destination(w) == 15 && PlainForm(w) && !IsBx(w)
    ensures Case(w) in {0x12, 0x16, 0x32, 0x36} && Destination(w) == 15 && PlainForm(w) && !IsBx(w) ==> IsMsr(w)
  {}

  /** Data processing: the other cases below 0x40, without the tests that do not set the flags. */
  predicate DataCase(w: Bits)
  {
    Case(w) < 0x40 && PlainForm(w) && Case(w) !in {0x10, 0x12, 0x14, 0x16, 0x30, 0x32, 0x34, 0x36}
  }

  lemma TestCases(w: Bits)
    requires Case(w) < 0x40
    ensures IsTest(OpOf(w)) && !BitAt(w, 20) ==> Case(w) in {0x10, 0x12, 0x14, 0x16, 0x30, 0x32, 0x34, 0x36}
    ensures Case(w) in {0x10, 0x12, 0x14, 0x16, 0x30, 0x32, 0x34, 0x36} ==> IsTest(OpOf(w)) && !BitAt(w, 20)
  {}

  lemma FormCases(w: Bits)
    ensures (w & 0x0C00_0000 == 0) == (Case(w) < 0x40)
    ensures Case(w) < 0x40 ==> (BitAt(w, 25) || !(BitAt(w, 4) && BitAt(w, 7))) == PlainForm(w)
  {}

  lemma DataForm(w: Bits)
    ensures DataCase(w) ==> !IsMultiply(w) && !IsHalf(w) && !IsTransfer(w)
  {}

  lemma DataCases(w: Bits)
    ensures IsPlainData(w) <==> DataCase(w)
  {
    FormCases(w);
    DataForm(w);
    if Case(w) < 0x40 { TestCases(w); }
    hide Case, PlainForm, BitAt, OpOf, IsTest, IsMultiply, IsHalf, IsTransfer;
  }
}
