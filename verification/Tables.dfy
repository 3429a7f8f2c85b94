/** The tables of ARMul_EmulateInit (arch_arm/common/arminit.c): how many bytes an LDM or STM moves, by
    eight bits of its register list, and the rotated immediates of data-processing instructions. */
module Tables {
  import opened Words
  import opened Shifter
  import opened DataPath
  import opened Block

  /** The number of ones in the binary form of n. */
  function Ones(n: nat): nat { if n == 0 then 0 else n % 2 + Ones(n / 2) }

  /** The ones among the low k bits. */
  function Count(n: nat, k: nat): nat { Ones(n % Pow2(k)) }

  predicate HasBit(n: nat, p: nat)
    requires p > 0
  {
    (n / p) % 2 == 1
  }

  lemma {:induction false} OnesStep(n: nat, k: nat)
    ensures Count(n, k + 1) == Count(n, k) + (if HasBit(n, Pow2(k)) then 1 else 0)
    decreases k
  {
    if k == 0 {
      CountZero(n);
    } else {
      hide *;
      CountDown(n, k);
      CountDown(n, k - 1);
      OnesStep(n / 2, k - 1);
      BitDown(n, k - 1);
    }
  }

  lemma CountZero(n: nat)
    ensures Count(n, 0) == 0 && Count(n, 1) == n % 2 && Pow2(0) == 1
    ensures HasBit(n, 1) <==> n % 2 == 1
  {
    assert Pow2(1) == 2;
  }

  lemma CountDown(n: nat, k: nat)
    ensures Count(n, k + 1) == Count(n / 2, k) + n % 2
  {
    ModHalves(n, Pow2(k));
    OnesDouble((n / 2) % Pow2(k), n % 2);
    hide Ones;
  }

  lemma BitDown(n: nat, k: nat)
    ensures HasBit(n, Pow2(k + 1)) <==> HasBit(n / 2, Pow2(k))
  {
    DivHalves(n, Pow2(k));
  }

  lemma OnesDouble(n: nat, b: nat)
    requires b < 2
    ensures Ones(2 * n + b) == Ones(n) + b
  {}

  lemma DivHalves(n: nat, p: nat)
    requires p > 0
    ensures n / (2 * p) == n / 2 / p
  {
    var q, r := n / 2 / p, (n / 2) % p;
    assert n / 2 == q * p + r;
    assert n == q * (2 * p) + (2 * r + n % 2);
    DivModUnique(n, 2 * p, q, 2 * r + n % 2);
  }

  /** How often the loops below add to entry i, for the first k of the eight passes. */
  ghost predicate Counted(bitList: seq<nat>, k: nat)
  {
    forall i :: 0 <= i < |bitList| ==> bitList[i] == Count(i, k)
  }

  /** One pass: the entries whose index has the bit j go up by one. */
  method CountBit(bitList: array<nat>, j: nat, ghost k: nat)
    requires j == Pow2(k) && Counted(bitList[..], k)
    modifies bitList
    ensures Counted(bitList[..], k + 1)
  {
    hide Count, Pow2, HasBit;
    for i := 0 to bitList.Length
      invariant forall m :: 0 <= m < i ==> bitList[m] == Count(m, k + 1)
      invariant forall m :: i <= m < bitList.Length ==> bitList[m] == Count(m, k)
    {
      OnesStep(i, k);
      if HasBit(i, j) {  // (i & j) > 0
        bitList[i] := bitList[i] + 1;
      }
    }
  }

  method CountBits(bitList: array<nat>)
    requires bitList.Length == 256 && forall i :: 0 <= i < 256 ==> bitList[i] == 0
    modifies bitList
    ensures forall i :: 0 <= i < 256 ==> bitList[i] == Ones(i)
  {
    CountedNone(bitList[..]);
    hide Ones, Counted, Pow2;
    PowerZero();
    var j := 1;
    ghost var k := 0;
    while j < 256
      invariant k <= 8 && j == Pow2(k) && Counted(bitList[..], k)
      decreases 8 - k
    {
      Power(k);
      CountBit(bitList, j, k);
      j := 2 * j;
      k := k + 1;
    }
    Power(k);
    CountedAll(bitList[..]);
  }

  lemma CountedNone(s: seq<nat>)
    requires forall i :: 0 <= i < |s| ==> s[i] == 0
    ensures Counted(s, 0)
  {}

  lemma CountedAll(s: seq<nat>)
    requires |s| == 256 && Counted(s, 8)
    ensures forall i :: 0 <= i < |s| ==> s[i] == Ones(i)
  {
    assert Pow2(8) == 256;
    hide Ones, Pow2;
    forall i | 0 <= i < |s| ensures s[i] == Ones(i) { Below(i); }
  }

  lemma Below(i: nat)
    ensures i < 256 ==> i % 256 == i
  {}

  lemma PowerZero()
    ensures Pow2(0) == 1
  {}

  lemma Power(k: nat)
    requires k <= 8
    ensures Pow2(k) == 256 <==> k == 8
    ensures Pow2(k) <= 256 && Pow2(k + 1) == 2 * Pow2(k)
    decreases 8 - k
  {
    assert Pow2(8) == 256;
    if k < 8 { Power(k + 1); }
  }

  /** The three loops over ARMul_BitList. */
  method InitBitList() returns (bitList: array<nat>)
    ensures fresh(bitList) && bitList.Length == 256
    ensures forall i :: 0 <= i < 256 ==> bitList[i] == 4 * Ones(i)
  {
    hide Ones;
    bitList := new nat[256](_ => 0);
    CountBits(bitList);
    for i := 0 to 256
      invariant forall m :: 0 <= m < i ==> bitList[m] == 4 * Ones(m)
      invariant forall m :: i <= m < 256 ==> bitList[m] == Ones(m)
    {
      bitList[i] := bitList[i] * 4;  // from registers to bytes
    }
  }

  method InitImmedTable() returns (immedTable: array<Bits>)
    ensures fresh(immedTable) && immedTable.Length == 4096
    ensures forall i :: 0 <= i < 4096 ==> immedTable[i] == Immediate(Of(i))
  {
    hide Immediate, Of;
    immedTable := new Bits[4096];
    for i := 0 to 4096
      invariant forall m :: 0 <= m < i ==> immedTable[m] == Immediate(Of(m))
    {
      immedTable[i] := Immediate(Of(i));
    }
  }

  /** LSMNumRegs, two look-ups in the table, is four times the length of the register list. */
  lemma NumRegs(instr: Bits)
    ensures 4 * Ones(Low(instr, 8)) + 4 * Ones(Low(Shr8(instr), 8)) == 4 * |RegList(instr)|
  {
    ListOnes(instr, 0);
    LowSplit(instr, 8, 8);
    HalfFour(instr);
    HalfFour(Shr4(instr));
    HalfTimesTwice(instr, 4, 4);
    ShrEight(instr);
    OnesSplit(instr, 8, 8);
  }

  function Shr8(w: Bits): Bits { w >> 8 }

  lemma ShrEight(w: Bits)
    ensures Shr4(Shr4(w)) == Shr8(w)
  {}

  lemma {:induction false} OnesSplit(w: Bits, n: nat, k: nat)
    ensures Ones(Low(w, n + k)) == Ones(Low(w, n)) + Ones(Low(HalfTimes(w, n), k))
    decreases n
  {
    hide Ones, Half, Low;
    if n == 0 {
      NoneAtAll(w);
    } else {
      LowStep(w, n - 1 + k);
      LowStep(w, n - 1);
      OnesSplit(Half(w), n - 1, k);
      OnesDouble(Low(Half(w), n - 1 + k), if Odd(w) then 1 else 0);
      OnesDouble(Low(Half(w), n - 1), if Odd(w) then 1 else 0);
    }
  }

  lemma NoneAtAll(w: Bits)
    ensures Low(w, 0) == 0 && Ones(0) == 0
  {}

  lemma LowStep(w: Bits, n: nat)
    ensures Low(w, n + 1) == 2 * Low(Half(w), n) + (if Odd(w) then 1 else 0)
  {
    hide Half, Odd;
  }

  lemma {:induction false} HalfTimesNext(w: Bits, k: nat)
    ensures Bit(w, k) <==> Odd(HalfTimes(w, k))
    ensures HalfTimes(w, k + 1) == Half(HalfTimes(w, k))
    decreases k
  {
    if k > 0 { HalfTimesNext(Half(w), k - 1); }
  }

  lemma {:induction false} ListOnes(instr: Bits, k: nat)
    requires k <= 16
    ensures |ListFrom(instr, k)| == Ones(Low(HalfTimes(instr, k), 16 - k))
    decreases 16 - k
  {
    if k < 16 {
      ListOnes(instr, k + 1);
      HalfTimesNext(instr, k);
      OnesDouble(Low(HalfTimes(instr, k + 1), 15 - k), if Bit(instr, k) then 1 else 0);
    }
  }

  lemma TwelveBits(instr: Bits)
    ensures Nat(Imm12(instr)) < 4096
  {
    assert Pow2(6) == 64 && Pow2(12) == 4096;
    hide Imm12, Shr4, Half, Low, HalfTimes, Pow2;
    var w := Imm12(instr);
    LowSplit(w, 12, 20);
    HalfFour(w);
    HalfFour(Shr4(w));
    HalfFour(Shr4(Shr4(w)));
    HalfTimesTwice(w, 4, 4);
    HalfTimesTwice(w, 8, 4);
    NothingAbove(instr);
    LowZero(20);
    LowBound(w, 12);
  }

  lemma NothingAbove(instr: Bits)
    ensures Shr4(Shr4(Shr4(Imm12(instr)))) == 0
  {}

  /** The table look-up of DPImmRHS. */
  lemma ImmedLookup(immedTable: seq<Bits>, instr: Bits)
    requires |immedTable| == 4096 && forall i :: 0 <= i < 4096 ==> immedTable[i] == Immediate(Of(i))
    ensures Nat(Imm12(instr)) < 4096 && immedTable[Nat(Imm12(instr))] == Immediate(Imm12(instr))
  {
    hide Immediate, Of, Nat, Imm12;
    TwelveBits(instr);
    OfNat(Imm12(instr));
  }

  /** An immediate is its low byte rotated right by twice its top four bits, in the manual's sense. */
  lemma ImmediateIsManual(i: Bits, c: bool)
    requires i < 4096
    ensures Immediate(i) == ShiftSteps(ROR, i & 0xFF, (i >> 7) & 0x1E, c).value
  {
    RotationAmount(i);
    RegShiftIsManual(ROR, i & 0xFF, (i >> 7) & 0x1E, c);
    ImmediateRotates(i, c);
    hide RegShift, ShiftSteps, Immediate;
  }

  lemma RotationAmount(i: Bits)
    ensures (i >> 7) & 0x1E < 32 && ((i >> 7) & 0x1E) & 0x1F == (i >> 7) & 0x1E
  {}

  lemma ImmediateRotates(i: Bits, c: bool)
    ensures (i >> 7) & 0x1E < 256 && Immediate(i) == RegShift(ROR, i & 0xFF, (i >> 7) & 0x1E, c).value
  {
    RotationAmount(i);
    var x, n := i & 0xFF, (i >> 7) & 0x1E;
    RotatesBy(x, n, c);
  }

  lemma RotatesBy(x: Bits, n: Bits, c: bool)
    requires n < 32
    ensures RegShift(ROR, x, n, c).value == (x >> n) | (x << (32 - n))
  {
    SmallAmount(n);
    if n != 0 { SwapOr(Shl(x, 32 - n), Shr(x, n)); }
  }

  lemma SwapOr(a: Bits, b: Bits)
    ensures a | b == b | a
  {}
}
