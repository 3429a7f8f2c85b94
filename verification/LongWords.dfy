/** The multiplications from their instruction words (ARM DDI 0100, section A3.5): which product a word computes, of which
    operands, whether it is added to, and what the flags are. */
module LongWords {
  import opened Words
  import opened State
  import opened Alu
  import opened DataPath
  import opened Multiply
  import opened Execute
  import opened Manual
  import opened MainSwitch
  import opened Conditions

  /** Bits 20 to 27. */
  function Opcode(w: Bits): Bits { (w >> 20) & 0xFF }

  /** 9 in bits 4 to 7 of a word with bits 24 to 27 clear. */
  predicate Multiplies(w: Bits) { w & 0x0F00_00F0 == 0x0000_0090 }

  /** The product of two words as signed or as unsigned numbers. */
  function ExactProduct(a: Word, b: Word, signed: bool): int
  {
    if signed then SignedProduct(Signed(a), Signed(b)) else Product(Num(a), Num(b))
  }

  /** The machine with a new pair in RdHi and RdLo, and with `s` its N and Z; C, V and everything else are kept. */
  predicate PairReplaced(c: Core, d: Core, w: Bits, p: nat, s: bool)
  {
    && Long(d.reg[Rd(w)], d.reg[Rn(w)]) == p
    && (forall r: RegNo :: r != Rd(w) && r != Rn(w) ==> d.reg[r] == c.reg[r])
    && d == (if s then c.(reg := d.reg, n := p >= LONG / 2, z := p == 0) else c.(reg := d.reg))
  }

  lemma WideIs(a: Word, b: Word, signed: bool)
    ensures Wide(a, b, signed) == ExactProduct(a, b, signed) % LONG
  {
    NumLimit(a);
    NumLimit(b);
    ProductBound(Num(a), Num(b), LIMB - 1);
    hide Num, Signed, SignedProduct, Product;
  }

  lemma OldPair(c: Core, w: Bits)
    ensures PairOf(c, w) == Long(c.reg[Rd(w)], c.reg[Rn(w)])
  {
    hide Long, Rd, Rn;
  }

  lemma PairFrame(c: Core, w: Bits, p: nat)
    requires p < LONG && Rd(w) != Rn(w)
    ensures var d := PairWritten(c, w, p);
            && d == c.(reg := d.reg) && Long(d.reg[Rd(w)], d.reg[Rn(w)]) == p
            && (forall r: RegNo :: r != Rd(w) && r != Rn(w) ==> d.reg[r] == c.reg[r])
  {
    PairReads(c, w, p);
    OldPair(PairWritten(c, w, p), w);
    hide Long, Rd, Rn, LowWord, HighWord, PairOf;
  }

  lemma FlaggedPair(c: Core, d: Core, w: Bits, p: nat, s: bool)
    requires d == c.(reg := d.reg) && Long(d.reg[Rd(w)], d.reg[Rn(w)]) == p
    requires forall r: RegNo :: r != Rd(w) && r != Rn(w) ==> d.reg[r] == c.reg[r]
    ensures PairReplaced(c, if s then WithFlags(d, LongFlags(FlagsOf(d), p)) else d, w, p, s)
  {
    hide Long, Rd, Rn;
  }

  lemma LegalParts(w: Bits)
    requires Legal(w)
    ensures Rd(w) != Rn(w)
  {
    hide Rd, Rn, Rs, Rm;
  }

  lemma ProductDone(c: Core, w: Bits, signed: bool, s: bool)
    requires Legal(w)
    ensures PairReplaced(c, LongMultiplied(c, w, signed, s), w, ExactProduct(c.reg[Rs(w)], c.reg[Rm(w)], signed) % LONG, s)
  {
    var p := Wide(c.reg[Rs(w)], c.reg[Rm(w)], signed);
    var d := PairWritten(c, w, p);
    WideIs(c.reg[Rs(w)], c.reg[Rm(w)], signed);
    LegalParts(w);
    PairFrame(c, w, p);
    FlaggedPair(c, d, w, p, s);
    hide PairWritten, Wide, ExactProduct, Legal, Long, Rd, Rn, Rs, Rm, LongFlags, WithFlags, PairReplaced;
  }

  lemma RestOf(c: Core, d: Core, w: Bits, p: nat)
    requires PairReplaced(c, d, w, p, false)
    ensures d == c.(reg := d.reg) && PairOf(d, w) == p
    ensures forall r: RegNo :: r != Rd(w) && r != Rn(w) ==> d.reg[r] == c.reg[r]
  {
    OldPair(d, w);
    hide Long, Rd, Rn, PairOf;
  }

  lemma SumModulo(x: nat, y: int)
    ensures (x + y % LONG) % LONG == (x + y) % LONG
  {
    var k := y / LONG;
    assert y == k * LONG + y % LONG;
    ModUnique(x + y, x + y % LONG, k, LONG);
  }

  lemma SumDone(c: Core, w: Bits, signed: bool, s: bool)
    requires Legal(w)
    ensures var p := (PairOf(c, w) + ExactProduct(c.reg[Rs(w)], c.reg[Rm(w)], signed)) % LONG;
            PairReplaced(c, LongAccumulated(c, w, signed, s), w, p, s)
  {
    hide *;
    LongIs();
    var x := ExactProduct(c.reg[Rs(w)], c.reg[Rm(w)], signed);
    var d := LongMultiplied(c, w, signed, false);
    var p := (PairOf(c, w) + PairOf(d, w)) % LONG;
    var e := PairWritten(d, w, p);
    ProductDone(c, w, signed, false);
    RestOf(c, d, w, x % LONG);
    SumModulo(PairOf(c, w), x);
    LegalParts(w);
    PairFrame(d, w, p);
    AgainFrame(c, d, e);
    FlaggedPair(c, e, w, p, s);
    AccumulatedParts(c, w, signed, s);
  }

  lemma LongIs()
    ensures LONG == 0x1_0000_0000_0000_0000
  {}

  lemma AccumulatedParts(c: Core, w: Bits, signed: bool, s: bool)
    ensures var d := LongMultiplied(c, w, signed, false);
            var p := (PairOf(c, w) + PairOf(d, w)) % LONG;
            var e := PairWritten(d, w, p);
            LongAccumulated(c, w, signed, s) == if s then WithFlags(e, LongFlags(FlagsOf(e), p)) else e
  {
    hide LongMultiplied, PairWritten, PairOf, WithFlags, LongFlags;
  }

  lemma AgainFrame(c: Core, d: Core, e: Core)
    requires d == c.(reg := d.reg) && e == d.(reg := e.reg)
    ensures e == c.(reg := e.reg)
  {}

  /** The eight opcodes: bit 2 of the opcode for signed, bit 1 for accumulation, bit 0 for the flags. */
  lemma OpcodeBits(w: Bits)
    requires Multiplies(w) && 8 <= Opcode(w) <= 15
    ensures IsLongMultiply(w) && !Supported(w)
    ensures BitAt(w, 22) <==> Opcode(w) in {12, 13, 14, 15}
    ensures BitAt(w, 21) <==> Opcode(w) in {10, 11, 14, 15}
    ensures BitAt(w, 20) <==> Opcode(w) in {9, 11, 13, 15}
  {}

  /** UMULL (8 and, with S, 9), UMLAL (10, 11), SMULL (12, 13) and SMLAL (14, 15): RdHi:RdLo is the exact product of Rm and Rs,
      or itself plus the product, modulo 2^64; the S form sets N and Z from it. */
  lemma LongWord(c: Core, pins: Pins, w: Bits, pc: Word)
    requires Multiplies(w) && 8 <= Opcode(w) <= 15 && Legal(w)
    ensures var k, a, b := Opcode(w), c.reg[Rs(w)], c.reg[Rm(w)];
            var x := ExactProduct(a, b, k in {12, 13, 14, 15});
            var was := if k in {10, 11, 14, 15} then Long(c.reg[Rd(w)], c.reg[Rn(w)]) else 0;
            PairReplaced(c, Dispatched(c, pins, w, pc), w, (was + x) % LONG, k in {9, 11, 13, 15})
  {
    hide *;
    OpcodeBits(w);
    DispatchKinds(c, pins, w, pc);
    LongParts(c, w);
    OldPair(c, w);
    SumDone(c, w, BitAt(w, 22), BitAt(w, 20));
    ProductDone(c, w, BitAt(w, 22), BitAt(w, 20));
  }

  // ---------------------------------------------------------------------------------------------
  // MUL and MLA

  lemma ShortBits(w: Bits)
    requires Multiplies(w) && Opcode(w) <= 3
    ensures IsMultiply(w)
    ensures BitAt(w, 21) <==> Opcode(w) >= 2
    ensures BitAt(w, 20) <==> Opcode(w) in {1, 3}
  {}

  /** The machine with a new register, and with `s` its N and Z. */
  predicate WordReplaced(c: Core, d: Core, r: RegNo, n: nat, s: bool)
  {
    && Num(d.reg[r]) == n
    && d == (if s then c.(reg := c.reg[r := d.reg[r]], n := n >= 0x8000_0000, z := n == 0) else c.(reg := c.reg[r := d.reg[r]]))
  }

  lemma PutWord(c: Core, r: RegNo, w: Word, s: bool)
    ensures var d := c.(reg := c.reg[r := w]);
            WordReplaced(c, if s then WithFlags(d, NegZero(FlagsOf(d), w)) else d, r, Num(w), s)
  {
    NegZeroMeans(FlagsOf(c), w);
    SignOf(w);
    hide Num, NegZero, Signed;
  }

  lemma SignOf(w: Word)
    ensures Signed(w) < 0 <==> Num(w) >= 0x8000_0000
  {
    NumLimit(w);
    hide Num;
  }

  lemma MultipliedParts(c: Core, w: Bits, accumulate: bool, s: bool)
    requires Rn(w) != 15 && Rn(w) != Rm(w)
    ensures var p := Times(c.reg[Rm(w)], c.reg[Rs(w)]);
            var r := if accumulate then Plus(p, c.reg[Rd(w)]) else p;
            var d := c.(reg := c.reg[Rn(w) := r]);
            Multiplied(c, w, accumulate, s) == if s then WithFlags(d, NegZero(FlagsOf(d), r)) else d
  {
    hide Rn, Rm, Rs, Rd, Times, Plus, WithFlags, NegZero;
  }

  lemma SumNumber(a: Word, b: Word, x: Word, accumulate: bool)
    ensures var p := Times(a, b);
            Num(if accumulate then Plus(p, x) else p) == ((if accumulate then Num(x) else 0) + Product(Num(a), Num(b))) % LIMB
  {
    hide *;
    var p := Times(a, b);
    LowProduct(a, b);
    NumPlus(p, x);
    NumLimit(p);
    NumLimit(x);
    LimbIs();
    SumReduced(Num(x), Product(Num(a), Num(b)));
    SmallSum(Num(x), Num(p));
  }

  lemma LimbIs()
    ensures LIMB == 0x1_0000_0000
  {}

  lemma SumReduced(x: nat, p: nat)
    ensures (x + p) % LIMB == (x + p % LIMB) % LIMB
  {
    var q := p / LIMB;
    assert p == q * LIMB + p % LIMB;
    ModUnique(x + p, x + p % LIMB, q, LIMB);
  }

  lemma SmallSum(x: nat, y: nat)
    requires x < LIMB && y < LIMB
    ensures (x + y) % LIMB == if x + y < LIMB then x + y else x + y - LIMB
  {}

  /** MUL (0 and, with S, 1) and MLA (2, 3): Rm times Rs, plus bits 12 to 15 for MLA, modulo 2^32. */
  lemma ShortWord(c: Core, pins: Pins, w: Bits, pc: Word)
    requires Multiplies(w) && Opcode(w) <= 3 && Rn(w) != 15 && Rn(w) != Rm(w)
    ensures var k := Opcode(w);
            var n := ((if k >= 2 then Num(c.reg[Rd(w)]) else 0) + Product(Num(c.reg[Rm(w)]), Num(c.reg[Rs(w)]))) % LIMB;
            WordReplaced(c, Dispatched(c, pins, w, pc), Rn(w), n, k in {1, 3})
  {
    hide *;
    ShortBits(w);
    MultiplySupported(c, pins, w);
    DispatchKinds(c, pins, w, pc);
    MultipliedParts(c, w, BitAt(w, 21), BitAt(w, 20));
    SumNumber(c.reg[Rm(w)], c.reg[Rs(w)], c.reg[Rd(w)], BitAt(w, 21));
    var p := Times(c.reg[Rm(w)], c.reg[Rs(w)]);
    PutWord(c, Rn(w), if BitAt(w, 21) then Plus(p, c.reg[Rd(w)]) else p, BitAt(w, 20));
  }

  lemma MultiplySupported(c: Core, pins: Pins, w: Bits)
    requires IsMultiply(w)
    ensures Supported(w) && Executed(c, pins, w) == Multiplied(c, w, BitAt(w, 21), BitAt(w, 20))
  {
    hide IsMultiply, Multiplied, BitAt, IsHalf, IsData, IsTransfer;
  }
}
