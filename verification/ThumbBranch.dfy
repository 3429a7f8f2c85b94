/** Where Thumb branches go (ARM DDI 0100, chapter A7: B and BL). */
module ThumbBranch {
  import opened Words
  import opened Fields
  import opened State
  import opened Alu
  import opened DataPath
  import opened Exceptions
  import opened Thumb

  /** The low n bits of a word as a signed number. */
  function SignedLow(w: Bits, n: nat): int
    requires n > 0
  {
    if Low(w, n) >= Pow2(n - 1) then Low(w, n) - Pow2(n) else Low(w, n)
  }

  /** Modulo 2^32. */
  function Wrapped(x: int): int { x % LIMB }

  lemma OnesFacts()
    ensures IsOnes(0x3F, 6) && IsOnes(0x7F, 7) && IsOnes(0xFF, 8) && IsOnes(0x1FF, 9)
    ensures IsOnes(0x3FF, 10) && IsOnes(0x7FF, 11) && IsOnes(0xFFF, 12)
  {}

  lemma LongOnes()
    ensures IsOnes(0x7F_FFFF, 23)
  {
    AllOnes();
    OneMore(0x1_FFFF, 0xFFFF, 16);
    OneMore(0x3_FFFF, 0x1_FFFF, 17);
    OneMore(0x7_FFFF, 0x3_FFFF, 18);
    OneMore(0xF_FFFF, 0x7_FFFF, 19);
    OneMore(0x1F_FFFF, 0xF_FFFF, 20);
    OneMore(0x3F_FFFF, 0x1F_FFFF, 21);
    OneMore(0x7F_FFFF, 0x3F_FFFF, 22);
  }

  lemma OneMore(m: Bits, half: Bits, n: nat)
    requires IsOnes(half, n) && Half(m) == half && Odd(m)
    ensures IsOnes(m, n + 1)
  {
    hide Half, Odd;
  }

  lemma Powers()
    ensures Pow2(1) == 2 && Pow2(7) == 128 && Pow2(8) == 256 && Pow2(9) == 512 && Pow2(10) == 1024 && Pow2(11) == 2048
    ensures Pow2(12) == 4096 && Pow2(22) == 0x40_0000 && Pow2(23) == 0x80_0000
  {
    Pow2Limb();
    assert Pow2(4) == 16 && Pow2(8) == 256;
    TwiceAsMuch(16);
    TwiceAsMuch(17);
    TwiceAsMuch(18);
    TwiceAsMuch(19);
    TwiceAsMuch(20);
    TwiceAsMuch(21);
    TwiceAsMuch(22);
  }

  lemma TwiceAsMuch(n: nat)
    ensures Pow2(n + 1) == 2 * Pow2(n)
  {}

  /** The top bit of a field. */
  lemma {:induction false} TopBit(w: Bits, n: nat)
    ensures Low(w, n + 1) == Low(w, n) + (if Odd(HalfTimes(w, n)) then Pow2(n) else 0)
    decreases n
  {
    if n > 0 { TopBit(Half(w), n - 1); }
  }

  lemma BitTen(w: Bits)
    ensures Odd(HalfTimes(w, 10)) == BitAt(w, 10)
  {
    HalfFour(w);
    HalfFour(Shr4(w));
    HalfTimesTwice(w, 4, 4);
    HalfTimesTwice(w, 8, 2);
    TwoMore(Shr4(Shr4(w)));
    ShrTen(w);
    hide Shr4, Half, Odd, BitAt;
  }

  lemma TwoMore(w: Bits)
    ensures HalfTimes(w, 2) == Half(Half(w)) && HalfTimes(w, 3) == Half(Half(Half(w)))
  {}

  lemma ShrTen(w: Bits)
    ensures Odd(Half(Half(Shr4(Shr4(w))))) == BitAt(w, 10)
    ensures Odd(Half(Half(Half(Shr4(w))))) == BitAt(w, 7)
  {}

  lemma BitSeven(w: Bits)
    ensures Odd(HalfTimes(w, 7)) == BitAt(w, 7)
  {
    HalfFour(w);
    HalfTimesTwice(w, 4, 3);
    TwoMore(Shr4(w));
    ShrTen(w);
    hide Shr4, Half, Odd, BitAt;
  }

  /** 2^32 - 2^n as a word. */
  lemma HighOnes(m: Bits, n: nat)
    requires n <= 32 && IsOnes(m, n)
    ensures Nat(Not(m)) == LIMB - Pow2(n)
  {
    NatNot(m);
    LowOnes(m, n, 32);
  }

  // ---------------------------------------------------------------------------------------------
  // The offsets

  function Top(sign: bool, m: Bits): Bits { if sign then Not(m) else 0 }

  lemma TopNumber(sign: bool, m: Bits, n: nat)
    requires n <= 32 && IsOnes(m, n)
    ensures Nat(Top(sign, m)) == if sign then LIMB - Pow2(n) else 0
  {
    LowZero(32);
    HighOnes(m, n);
    hide Not, Low;
  }

  /** A field with ones above it for a sign. */
  lemma UnionNumber(field: Bits, sign: bool, m: Bits, n: nat)
    requires n <= 32 && IsOnes(m, n) && Disjoint(field, Not(m))
    ensures Nat(Or(field, Top(sign, m))) == Nat(field) + (if sign then LIMB - Pow2(n) else 0)
  {
    TopNumber(sign, m, n);
    DisjointZero(field);
    NatOr(field, Top(sign, m));
    hide Or, Disjoint, Not;
  }

  lemma DisjointZero(w: Bits)
    ensures Disjoint(w, 0)
  {}

  lemma DoubledOnce(w: Bits)
    ensures Doubled(w, 1) == w << 1
  {
    assert Doubled(w, 1) == Double(Doubled(w, 0));
  }

  // The bit patterns of Offset16, Offset18 and Offset19.

  lemma Pattern16(t: Bits)
    ensures Offset16(t) == Or(Doubled(And(t, 0x7F), 1), Top(BitAt(t, 7), 0xFF))
  {
    assert Not(0xFF) == 0xFFFF_FF00;
    DoubledOnce(And(t, 0x7F));
    hide BitAt, Not, Doubled;
  }

  lemma Below16(t: Bits)
    ensures Disjoint(Doubled(And(t, 0x7F), 1), Not(0xFF))
  {
    DoubledOnce(And(t, 0x7F));
    hide Doubled;
  }

  lemma Pattern18(t: Bits)
    ensures Offset18(t) == Or(Doubled(And(t, 0x3FF), 1), Top(BitAt(t, 10), 0x7FF))
  {
    assert Not(0x7FF) == 0xFFFF_F800;
    DoubledOnce(And(t, 0x3FF));
    hide BitAt, Not, Doubled;
  }

  lemma Below18(t: Bits)
    ensures Disjoint(Doubled(And(t, 0x3FF), 1), Not(0x7FF))
  {
    DoubledOnce(And(t, 0x3FF));
    hide Doubled;
  }

  function Shl12(w: Bits): Bits { w << 12 }
  function Shl4(w: Bits): Bits { w << 4 }

  lemma DoubledFour(w: Bits)
    ensures Doubled(w, 4) == Shl4(w)
  {
    assert Doubled(w, 1) == Double(Doubled(w, 0));
    assert Doubled(w, 2) == Double(Doubled(w, 1));
    assert Doubled(w, 3) == Double(Doubled(w, 2));
    FourDoubles(w);
    hide Double, Shl4;
  }

  lemma FourDoubles(w: Bits)
    ensures Double(Double(Double(Double(w)))) == Shl4(w)
  {}

  lemma {:induction false} DoubledTwice(w: Bits, i: nat, j: nat)
    ensures Doubled(Doubled(w, i), j) == Doubled(w, i + j)
    decreases j
  {
    if j > 0 { DoubledTwice(w, i, j - 1); }
  }

  lemma ShlTwelve(w: Bits)
    ensures Shl4(Shl4(Shl4(w))) == Shl12(w)
  {}

  lemma DoubledTwelve(w: Bits)
    ensures Doubled(w, 12) == Shl12(w)
  {
    DoubledFour(w);
    DoubledFour(Shl4(w));
    DoubledFour(Shl4(Shl4(w)));
    DoubledTwice(w, 4, 4);
    DoubledTwice(w, 8, 4);
    ShlTwelve(w);
    hide Shl4, Shl12, Double;
  }

  lemma Pattern19(t: Bits)
    ensures Offset19(t) == Or(Shl12(And(t, 0x7FF)), Top(BitAt(t, 10), 0x7F_FFFF))
  {
    assert Not(0x7F_FFFF) == 0xFF80_0000;
    hide BitAt, Not;
  }

  lemma Below19(t: Bits)
    ensures Disjoint(Shl12(And(t, 0x7FF)), Not(0x7F_FFFF))
  {}

  lemma WrapField(v: nat, low: nat, sign: bool, half: nat)
    requires low < half <= 1024 && v == 2 * low + (if sign then LIMB - 2 * half else 0)
    ensures v == Wrapped(2 * (if sign then low - half else low))
  {}

  lemma Number16(t: Bits)
    ensures Nat(Offset16(t)) == Wrapped(2 * SignedLow(t, 8))
  {
    Pattern16(t);
    Below16(t);
    OnesFacts();
    Powers();
    BitSeven(t);
    TopBit(t, 7);
    LowBound(t, 7);
    FieldNumber(t, 0x7F, 7, 1);
    UnionNumber(Doubled(And(t, 0x7F), 1), BitAt(t, 7), 0xFF, 8);
    WrapField(Nat(Offset16(t)), Low(t, 7), BitAt(t, 7), 128);
    hide Nat, Offset16, Disjoint, And, Or, Not, Doubled, BitAt, Low, HalfTimes, Odd, Pow2, IsOnes, Top;
  }

  lemma Number18(t: Bits)
    ensures Nat(Offset18(t)) == Wrapped(2 * SignedLow(t, 11))
  {
    Pattern18(t);
    Below18(t);
    OnesFacts();
    Powers();
    BitTen(t);
    TopBit(t, 10);
    LowBound(t, 10);
    FieldNumber(t, 0x3FF, 10, 1);
    UnionNumber(Doubled(And(t, 0x3FF), 1), BitAt(t, 10), 0x7FF, 11);
    WrapField(Nat(Offset18(t)), Low(t, 10), BitAt(t, 10), 1024);
    hide Nat, Offset18, Disjoint, And, Or, Not, Doubled, BitAt, Low, HalfTimes, Odd, Pow2, IsOnes, Top;
  }

  lemma Number19(t: Bits)
    ensures Nat(Offset19(t)) == Wrapped(4096 * SignedLow(t, 11))
  {
    Pattern19(t);
    Below19(t);
    OnesFacts();
    LongOnes();
    Powers();
    BitTen(t);
    TopBit(t, 10);
    LowBound(t, 10);
    DoubledTwelve(And(t, 0x7FF));
    FieldNumber(t, 0x7FF, 11, 12);
    UnionNumber(Shl12(And(t, 0x7FF)), BitAt(t, 10), 0x7F_FFFF, 23);
    hide Nat, Offset19, Disjoint, And, Or, Not, Doubled, BitAt, Low, HalfTimes, Odd, Pow2, IsOnes, Top, Shl12;
  }

  // ---------------------------------------------------------------------------------------------
  // The targets

  lemma SumWraps(base: Word, x: Bits, offset: int)
    requires Nat(x) == Wrapped(offset)
    ensures Num(Plus(base, Word(x))) == Wrapped(Num(base) + offset)
  {
    NumPlus(base, Word(x));
    NumNat(Word(x));
    hide Num, Plus, Nat;
    NumLimit(base);
    WrapSum(Num(base), offset);
  }

  lemma WrapSum(a: int, b: int)
    ensures Wrapped(a + Wrapped(b)) == Wrapped(a + b)
  {
    var q := b / LIMB;
    assert b == q * LIMB + Wrapped(b);
    Multiple(a + Wrapped(b), q);
  }

  lemma WrapBoth(a: int, b: int)
    ensures Wrapped(Wrapped(a) + b) == Wrapped(a + b)
  {
    WrapSum(Wrapped(a), b);
    WrapAgain(a, b);
    hide Wrapped;
  }

  lemma WrapAgain(a: int, b: int)
    ensures Wrapped(Wrapped(a) + Wrapped(b)) == Wrapped(a + b)
  {
    var p, q := a / LIMB, b / LIMB;
    assert a == p * LIMB + Wrapped(a) && b == q * LIMB + Wrapped(b);
    Multiple(Wrapped(a) + Wrapped(b), p + q);
  }

  lemma Multiple(x: int, k: int)
    ensures Wrapped(x + k * LIMB) == Wrapped(x)
  {
    var q := x / LIMB;
    assert x + k * LIMB == (k + q) * LIMB + Wrapped(x);
    var e := (x + k * LIMB) / LIMB - (k + q);
    assert e * LIMB == Wrapped(x) - Wrapped(x + k * LIMB);
    Small(e, LIMB);
  }

  lemma NatFour()
    ensures Nat(4) == Wrapped(4)
  {
    SmallWords();
    NumNat(Word(4));
    hide Num, Nat;
  }

  lemma SumTwice(base: Word, x: Bits, offset: int)
    requires Nat(x) == Wrapped(offset)
    ensures Num(Plus(Plus(base, Word(4)), Word(x))) == Wrapped(Num(base) + 4 + offset)
  {
    hide *;
    NatFour();
    SumWraps(base, 4, 4);
    SumWraps(Plus(base, Word(4)), x, offset);
    WrapBoth(Num(base) + 4, offset);
  }

  lemma SumThrice(base: Word, x: Bits, y: Bits, a: int, b: int)
    requires Nat(x) == Wrapped(a) && Nat(y) == Wrapped(b)
    ensures Num(Plus(Plus(Plus(base, Word(4)), Word(x)), Word(y))) == Wrapped(Num(base) + 4 + a + b)
  {
    hide *;
    SumTwice(base, x, a);
    SumWraps(Plus(Plus(base, Word(4)), Word(x)), y, b);
    WrapBoth(Num(base) + 4 + a, b);
  }

  function R14(c: Core): Word { c.reg[14] }
  function R15(c: Core): Word { c.reg[15] }

  lemma JumpTarget(c: Core, target: Word)
    ensures R15(Jump(c, target)) == target && R14(Jump(c, target)) == R14(c)
  {}

  /** The target of a B at `pc`. */
  function BranchTo(pc: Word, t: Bits): Word { Plus(Plus(pc, Word(4)), Word(Offset18(t))) }

  /** B: to the address of the instruction, plus 4, plus twice a signed 11-bit offset. */
  lemma BranchTarget(c: Core, pins: Pins, pc: Word, pair: Bits, aborted: bool)
    requires IsBranch(Halves(pair, pins.bigend).0)
    ensures var t := Halves(pair, pins.bigend).0;
            && Decode(c, pins, pc, pair, aborted) == Branched(Jump(c, BranchTo(pc, t)))
            && Num(BranchTo(pc, t)) == Wrapped(Num(pc) + 4 + 2 * SignedLow(t, 11))
  {
    BranchNumber(pc, Halves(pair, pins.bigend).0);
    hide Halves, SignedLow, Num, Plus, Offset18, Wrapped, Jump, BitAt, Format1, Format2, Format3, Format4, Format5, Format6, Format7,
      Format8, Format9, Format10, Format11, Format12, Format14, Format15, Format17, Format16, Format19, BranchLink;
  }

  predicate IsBranch(t: Bits) { Group(t) == 28 }

  lemma BranchToIs(pc: Word, t: Bits)
    ensures BranchTo(pc, t) == Plus(Plus(pc, Word(4)), Word(Offset18(t)))
  {}

  lemma BranchNumber(pc: Word, t: Bits)
    ensures Num(BranchTo(pc, t)) == Wrapped(Num(pc) + 4 + 2 * SignedLow(t, 11))
  {
    hide *;
    BranchToIs(pc, t);
    Number18(t);
    SumTwice(pc, Offset18(t), 2 * SignedLow(t, 11));
  }

  /** Bcc: the branch is taken exactly when its condition holds. */
  lemma ConditionalTarget(c: Core, pc: Word, t: Bits)
    ensures var d := Format16(c, pc, t);
            if Holds((t & 0x0F00) >> 8, FlagsOf(c)) then Num(R15(d)) == Wrapped(Num(pc) + 4 + 2 * SignedLow(t, 8))
            else d == c
  {
    hide Plus, Num, Offset16, Wrapped, SignedLow, Jump, Holds;
    ConditionalNumber(c, pc, t);
  }

  lemma ConditionalNumber(c: Core, pc: Word, t: Bits)
    ensures Num(R15(Jump(c, Plus(Plus(pc, Word(4)), Word(Offset16(t)))))) == Wrapped(Num(pc) + 4 + 2 * SignedLow(t, 8))
  {
    hide *;
    Number16(t);
    SumTwice(pc, Offset16(t), 2 * SignedLow(t, 8));
    JumpTarget(c, Plus(Plus(pc, Word(4)), Word(Offset16(t))));
  }

  // ---------------------------------------------------------------------------------------------
  // BL

  /** The 23-bit offset in the two halves of a BL, as a signed number. */
  function LinkOffset(first: Bits, second: Bits): int
  {
    var x := 4096 * Low(first, 11) + 2 * Low(second, 11);
    if x >= 0x40_0000 then x - 0x80_0000 else x
  }

  lemma LinkOffsetParts(first: Bits, second: Bits)
    ensures LinkOffset(first, second) == 4096 * SignedLow(first, 11) + 2 * Low(second, 11)
    ensures Low(second, 11) < 2048
  {
    Powers();
    LowBound(first, 11);
    LowBound(second, 11);
    hide Low, Pow2;
  }

  function Second(t: Bits): Bits { (t & 0x07FF) << 1 }

  lemma SecondNumber(t: Bits)
    ensures Nat(Second(t)) == 2 * Low(t, 11)
  {
    OnesFacts();
    Powers();
    FieldNumber(t, 0x7FF, 11, 1);
    assert Doubled(And(t, 0x7FF), 1) == Second(t);
    hide Doubled, And, Second, Low, Pow2, Nat;
  }

  lemma TwoTwos(pc: Word)
    ensures Plus(Plus(pc, Word(2)), Word(2)) == Plus(pc, Word(4))
  {
    SmallWords();
    NumPlus(pc, Word(2));
    NumPlus(Plus(pc, Word(2)), Word(2));
    NumPlus(pc, Word(4));
    NumLimit(pc);
    hide Num, Plus;
    WordEqual(Plus(Plus(pc, Word(2)), Word(2)), Plus(pc, Word(4)));
  }

  lemma PairIs(c: Core, pc: Word, first: Bits, second: Bits)
    requires IsSecondHalf(second)
    ensures var d := Format19(c, pc, first, second);
            && R15(d) == Plus(Plus(R15(c), Word(Offset19(first))), Word(Second(second)))
            && R14(d) == ThumbLink(Plus(Plus(pc, Word(2)), Word(2)))
  {
    hide Plus, Offset19, ThumbLink, IsSecondHalf, Refilled;
  }

  /** The two halves of a BL, executed together at `pc`: the target is pc + 4 plus the 23-bit offset, and
      the link register holds the address after them with the Thumb bit. */
  lemma LinkTarget(c: Core, pc: Word, first: Bits, second: Bits)
    requires IsSecondHalf(second) && R15(c) == Plus(pc, Word(4))
    ensures var d := Format19(c, pc, first, second);
            && Num(R15(d)) == Wrapped(Num(pc) + 4 + LinkOffset(first, second))
            && R14(d) == ThumbLink(Plus(pc, Word(4)))
  {
    PairIs(c, pc, first, second);
    TwoTwos(pc);
    hide *;
    LinkNumber(pc, first, second);
  }

  lemma LinkNumber(pc: Word, first: Bits, second: Bits)
    ensures Num(Plus(Plus(Plus(pc, Word(4)), Word(Offset19(first))), Word(Second(second))))
         == Wrapped(Num(pc) + 4 + LinkOffset(first, second))
  {
    hide *;
    Number19(first);
    LinkOffsetParts(first, second);
    SecondNumber(second);
    SmallWrapped(2 * Low(second, 11));
    SumThrice(pc, Offset19(first), Second(second), 4096 * SignedLow(first, 11), 2 * Low(second, 11));
  }

  lemma SmallWrapped(x: nat)
    ensures x < 4096 ==> Wrapped(x) == x
  {}

  // ---------------------------------------------------------------------------------------------
  // The link register, and the halves of BL by themselves

  lemma EvenDisjoint(w: Word)
    requires Num(w) % 2 == 0
    ensures Disjoint(w.bits, 1) && Num(Word(1)) == 1
  {
    AlignedNumber(w, true);
    EvenBits(w);
    NumOne(true);
    EvenIs(w.bits);
    hide Num, IsAligned, Odd, Disjoint;
  }

  lemma EvenIs(w: Bits)
    requires !Odd(w)
    ensures Disjoint(w, 1)
  {}

  /** The Thumb link is the address with bit 0 set. */
  lemma LinkNumberIs(w: Word)
    requires Num(w) % 2 == 0
    ensures Num(ThumbLink(w)) == Num(w) + 1
  {
    EvenDisjoint(w);
    NatOr(w.bits, 1);
    NumNat(w);
    NumNat(Word(1));
    NumNat(ThumbLink(w));
    LinkIsOr(w);
    hide Num, Nat, Or, Disjoint, ThumbLink;
  }

  lemma LinkIsOr(w: Word)
    ensures ThumbLink(w) == Word(Or(w.bits, 1))
  {
    OneSet(w.bits);
    hide Or;
  }

  lemma OneSet(b: Bits)
    ensures Or(b, 1) == b | 1
  {}

  lemma EvenSum(pc: Word, n: Word)
    requires Num(pc) % 2 == 0 && (n == Word(2) || n == Word(4))
    ensures Num(Plus(pc, n)) == Wrapped(Num(pc) + Num(n)) && Num(Plus(pc, n)) % 2 == 0
  {
    SmallWords();
    NumPlus(pc, n);
    NumLimit(pc);
    hide Num, Plus;
  }

  /** After BL at an even address r14 holds the address after it, plus 1. */
  lemma LinkReturn(c: Core, pc: Word, first: Bits, second: Bits)
    requires IsSecondHalf(second) && R15(c) == Plus(pc, Word(4)) && Num(pc) % 2 == 0
    ensures Num(R14(Format19(c, pc, first, second))) == Wrapped(Num(pc) + 4) + 1
  {
    hide *;
    LinkTarget(c, pc, first, second);
    SmallWords();
    EvenSum(pc, Word(4));
    LinkNumberIs(Plus(pc, Word(4)));
  }

  lemma SecondIs(c: Core, pc: Word, t: Bits)
    ensures var d := BranchLink(c, pc, t); R15(d) == Plus(R14(c), Word(Second(t))) && R14(d) == ThumbLink(Plus(pc, Word(2)))
  {
    hide Plus, ThumbLink, Refilled;
  }

  /** The second half of BL by itself: to r14 plus twice its 11-bit field, with the address after it, plus 1, in r14. */
  lemma SecondHalf(c: Core, pins: Pins, pc: Word, pair: Bits, aborted: bool)
    requires Group(Halves(pair, pins.bigend).0) == 31 && Num(pc) % 2 == 0
    ensures Decode(c, pins, pc, pair, aborted).Branched?
    ensures var d := Decode(c, pins, pc, pair, aborted).c;
            && Num(R15(d)) == Wrapped(Num(R14(c)) + 2 * Low(Halves(pair, pins.bigend).0, 11)) && Num(R14(d)) == Wrapped(Num(pc) + 2) + 1
  {
    hide *;
    var t := Halves(pair, pins.bigend).0;
    SecondDecodes(c, pins, pc, pair, aborted);
    SecondIs(c, pc, t);
    SecondNumber(t);
    ElevenBits(t);
    SmallWrapped(2 * Low(t, 11));
    SumWraps(R14(c), Second(t), 2 * Low(t, 11));
    SmallWords();
    EvenSum(pc, Word(2));
    LinkNumberIs(Plus(pc, Word(2)));
  }

  lemma ElevenBits(t: Bits)
    ensures Low(t, 11) < 2048
  {
    Powers();
    LowBound(t, 11);
    hide Low, Pow2;
  }

  lemma SecondDecodes(c: Core, pins: Pins, pc: Word, pair: Bits, aborted: bool)
    requires Group(Halves(pair, pins.bigend).0) == 31
    ensures Decode(c, pins, pc, pair, aborted) == Branched(BranchLink(c, pc, Halves(pair, pins.bigend).0))
  {
    hide Halves, Plus, Offset18, Jump, BitAt, Format5, Format17, Table, Format16, Format19, BranchLink;
  }
}
