/** Multiplications: MUL and MLA, and the 64-bit products of Multiply64 and MultiplyAdd64
    (arch_arm/common/armemu32.c), which work on 16-bit limbs. */
module Multiply {
  import opened Words
  import opened State
  import opened Alu
  import opened DataPath

  const LONG: nat := 0x1_0000_0000_0000_0000

  /** The number in a register pair. */
  function Long(lo: Word, hi: Word): nat { Num(lo) + LIMB * Num(hi) }

  /** A product modulo 2^64: LUNSIGNED or LSIGNED. */
  function Wide(a: Word, b: Word, signed: bool): nat
  {
    if signed then SignedProduct(Signed(a), Signed(b)) % LONG else Product(Num(a), Num(b)) % LONG
  }

  function SignedProduct(x: int, y: int): int { x * y }

  // ---------------------------------------------------------------------------------------------
  // Adding and negating

  predicate Below(a: Word, b: Word) { a.bits < b.bits }

  predicate IsZero(w: Word) { w.bits == 0 }

  lemma NotAtMost(a: Word, b: Word)
    ensures Below(a, b) ==> !AtMost(b.bits, a.bits)
    ensures !AtMost(b.bits, a.bits) ==> Below(a, b)
  {}

  lemma LessNumber(a: Word, b: Word)
    ensures Below(a, b) <==> Num(a) < Num(b)
    ensures a == b <==> Num(a) == Num(b)
  {
    hide Below, AtMost, Nat;
    NotAtMost(a, b);
    NatAtMost(b.bits, a.bits);
    if Num(a) == Num(b) { NatInjective(a.bits, b.bits); }
  }

  lemma ZeroNumber(w: Word)
    ensures IsZero(w) <==> Num(w) == 0
  {
    Facts(w);
  }

  /** Add32. */
  method Add32(a1: Word, a2: Word) returns (result: Word, carry: bool)
    ensures Num(result) + (if carry then LIMB else 0) == Num(a1) + Num(a2)
  {
    hide Num, Plus, Below, IsZero;
    result := Plus(a1, a2);
    carry := if result == a1 then !IsZero(a2) else Below(result, a1);
    NumPlus(a1, a2);
    ZeroNumber(a2);
    NumLimit(a1);
    NumLimit(a2);
    LessNumber(result, a1);
  }

  lemma LongBound(lo: Word, hi: Word)
    ensures Long(lo, hi) < LONG
  {
    NumLimit(lo);
    NumLimit(hi);
    hide Num;
  }

  function Complement(w: Word): Word { Word(Not(w.bits)) }

  lemma NumComplement(w: Word)
    ensures Num(Complement(w)) == LIMB - 1 - Num(w)
  {
    NatNot(w.bits);
    hide Nat;
  }

  const ONES := Word(0xFFFF_FFFF)

  /** The last step of Multiply64: the two's complement of a pair. */
  method Negated(lo: Word, hi: Word) returns (l: Word, h: Word)
    ensures Long(l, h) == (LONG - Long(lo, hi)) % LONG
  {
    hide Num, Plus, Complement, ONES;
    l, h := Complement(lo), Complement(hi);
    NumComplement(lo);
    NumComplement(hi);
    NumLimit(lo);
    NumLimit(hi);
    NumZeroOne();
    NumPlus(h, Word(1));
    NumPlus(l, Word(1));
    OnesNumber(l);
    NegatedNumber(Num(lo), Num(hi));
    if l == ONES {
      l, h := Word(0), Plus(h, Word(1));
    } else {
      l := Plus(l, Word(1));
    }
  }

  lemma NegatedNumber(lo: nat, hi: nat)
    requires lo < LIMB && hi < LIMB
    ensures var x := (LONG - (lo + LIMB * hi)) % LONG;
            x == if lo != 0 then LIMB - lo + LIMB * (LIMB - 1 - hi) else if hi != 0 then LIMB * (LIMB - hi) else 0
  {}

  lemma NumZeroOne()
    ensures Num(Word(0)) == 0 && Num(Word(1)) == 1
  {
    LowZero(32);
    LowOneAt(0, 32);
  }

  lemma OnesNumber(w: Word)
    ensures w == ONES <==> Num(w) == LIMB - 1
  {
    NumComplement(Word(0));
    NumZeroOne();
    LessNumber(w, ONES);
    assert Complement(Word(0)) == ONES;
    hide Num, Complement;
  }

  // ---------------------------------------------------------------------------------------------
  // The product of two words

  function LowHalf(w: Word): Word { Word(Low16(w.bits)) }
  function HighHalf(w: Word): Word { Word(Shr16(w.bits)) }
  function ShiftedUp(w: Word): Word { Word(Shl16(w.bits)) }

  lemma HalfNumbers(w: Word)
    ensures Num(w) == Num(LowHalf(w)) + 0x1_0000 * Num(HighHalf(w))
    ensures Num(LowHalf(w)) < 0x1_0000 && Num(HighHalf(w)) < 0x1_0000
    ensures Num(ShiftedUp(w)) == 0x1_0000 * Num(LowHalf(w))
  {
    NatSixteen(w.bits);
    hide Nat, Low16, Shr16, Shl16;
  }

  /** A product of 16-bit limbs fits in a word. */
  lemma LimbProduct(a: Word, b: Word)
    requires Num(a) < 0x1_0000 && Num(b) < 0x1_0000
    ensures Num(Times(a, b)) == Product(Num(a), Num(b)) <= 0xFFFE_0001
  {
    hide Nat, Of;
    NatOf(Product(Num(a), Num(b)));
    ProductBound(Num(a), Num(b), 0xFFFF);
  }

  lemma ProductBound(x: nat, y: nat, m: nat)
    requires x <= m && y <= m
    ensures Product(x, y) <= m * m
  {
    assert x * y <= m * y <= m * m;
  }

  /** Schoolbook multiplication of two-limb numbers. */
  lemma Schoolbook(s0: nat, s1: nat, m0: nat, m1: nat)
    ensures Product(s0 + 0x1_0000 * s1, m0 + 0x1_0000 * m1)
         == Product(s0, m0) + 0x1_0000 * (Product(s0, m1) + Product(s1, m0)) + LIMB * Product(s1, m1)
  {
  }

  /** The four limb products of Multiply64, added with their carries: the exact product. */
  method Multiplied64(rs: Word, rm: Word) returns (rdLo: Word, rdHi: Word)
    ensures Long(rdLo, rdHi) == Product(Num(rs), Num(rm))
  {
    hide Num, Plus, Times, LowHalf, HighHalf, ShiftedUp, Product, One;
    var lo := Times(LowHalf(rs), LowHalf(rm));
    var mid1 := Times(LowHalf(rs), HighHalf(rm));
    var mid2 := Times(HighHalf(rs), LowHalf(rm));
    var hi := Times(HighHalf(rs), HighHalf(rm));
    HalfNumbers(rs);
    HalfNumbers(rm);
    LimbProduct(LowHalf(rs), LowHalf(rm));
    LimbProduct(LowHalf(rs), HighHalf(rm));
    LimbProduct(HighHalf(rs), LowHalf(rm));
    LimbProduct(HighHalf(rs), HighHalf(rm));
    Schoolbook(Num(LowHalf(rs)), Num(HighHalf(rs)), Num(LowHalf(rm)), Num(HighHalf(rm)));
    NumLimit(rs);
    NumLimit(rm);
    ProductBound(Num(rs), Num(rm), LIMB - 1);
    rdLo, rdHi := AddLimbs(lo, mid1, mid2, hi);
  }

  /** lo + 2^16 * (mid1 + mid2) + 2^32 * hi, which must fit in 64 bits. */
  method AddLimbs(lo: Word, mid1: Word, mid2: Word, hi: Word) returns (rdLo: Word, rdHi: Word)
    requires Num(lo) + 0x1_0000 * (Num(mid1) + Num(mid2)) + LIMB * Num(hi) < LONG
    ensures Long(rdLo, rdHi) == Num(lo) + 0x1_0000 * (Num(mid1) + Num(mid2)) + LIMB * Num(hi)
  {
    hide Num, Plus, LowHalf, HighHalf, ShiftedUp, One;
    HalfNumbers(mid1);
    HalfNumbers(mid2);
    var carry1, carry2: bool;
    rdLo, carry1 := Add32(lo, ShiftedUp(mid1));
    rdLo, carry2 := Add32(rdLo, ShiftedUp(mid2));
    TopNumber(carry1, carry2, HighHalf(mid1), HighHalf(mid2), hi);
    rdHi := Plus(One(carry1), Plus(Plus(Plus(One(carry2), HighHalf(mid1)), HighHalf(mid2)), hi));
  }

  /** The high word: both carries, the high halves of the middle products, and the high product. */
  lemma TopNumber(carry1: bool, carry2: bool, h1: Word, h2: Word, hi: Word)
    requires Bin(carry1) + Bin(carry2) + Num(h1) + Num(h2) + Num(hi) < LIMB
    ensures Num(Plus(One(carry1), Plus(Plus(Plus(One(carry2), h1), h2), hi)))
         == Bin(carry1) + Bin(carry2) + Num(h1) + Num(h2) + Num(hi)
  {
    hide *;
    NumOne(carry1);
    NumOne(carry2);
    var a := Plus(One(carry2), h1);
    NumPlus(One(carry2), h1);
    NumPlus(a, h2);
    NumPlus(Plus(a, h2), hi);
    NumPlus(One(carry1), Plus(Plus(a, h2), hi));
    LimbIs();
    BinSmall(carry1);
    BinSmall(carry2);
  }

  lemma LimbIs()
    ensures LIMB == 0x1_0000_0000
  {}

  lemma BinSmall(b: bool)
    ensures Bin(b) <= 1
  {}

  /** -w when w is negative as a signed number. */
  function Magnitude(w: Word): Word { if Negative(w) then Minus(Word(0), w) else w }

  lemma NumMagnitude(w: Word)
    ensures Num(Magnitude(w)) == (if Negative(w) then 0 - Signed(w) else Signed(w)) <= HALF
    ensures Negative(w) <==> Signed(w) < 0
  {
    hide Num, Minus, Negative;
    Facts(w);
    NumZeroOne();
    NumMinus(Word(0), w);
  }

  lemma SignedProductMod(x: int, y: int, p: nat, opposite: bool)
    requires p < LONG && SignedProduct(x, y) == if opposite then 0 - p else p
    ensures SignedProduct(x, y) % LONG == if opposite then (LONG - p) % LONG else p
  {
    hide SignedProduct;
    if opposite && p > 0 { assert 0 - p == -1 * LONG + (LONG - p); }
  }

  lemma SignRule(x: int, y: int)
    ensures var p := SignedProduct(if x < 0 then -x else x, if y < 0 then -y else y);
            p >= 0 && SignedProduct(x, y) == if (x < 0) != (y < 0) then -p else p
  {}

  lemma Unsigned(x: nat, y: nat)
    ensures Product(x, y) == SignedProduct(x, y)
  {}

  /** The product of Multiply64 modulo 2^64, unsigned or two's complement. */
  method WideProduct(rs: Word, rm: Word, msigned: bool) returns (lo: Word, hi: Word)
    ensures Long(lo, hi) == Wide(rs, rm, msigned)
  {
    hide Num, Long, Minus, Negative, Product, SignedProduct, Magnitude, Signed;
    var sign := msigned && Negative(rm) != Negative(rs);
    var s, m := if msigned then Magnitude(rs) else rs, if msigned then Magnitude(rm) else rm;
    lo, hi := Multiplied64(s, m);
    LongBound(lo, hi);
    if msigned {
      NumMagnitude(rs);
      NumMagnitude(rm);
      SignRule(Signed(rs), Signed(rm));
      Unsigned(Num(s), Num(m));
      SignedProductMod(Signed(rs), Signed(rm), Long(lo, hi), sign);
    }
    if sign {
      lo, hi := Negated(lo, hi);
    }
  }

  // ---------------------------------------------------------------------------------------------
  // The instructions

  function RdHi(instr: Bits): RegNo { Rn(instr) }
  function RdLo(instr: Bits): RegNo { Rd(instr) }

  /** The operand registers Multiply64 accepts. Rs may be one of the destinations. */
  predicate Legal(instr: Bits)
  {
    && RdHi(instr) != 15 && RdLo(instr) != 15 && Rs(instr) != 15 && Rm(instr) != 15
    && RdHi(instr) != RdLo(instr) && RdHi(instr) != Rm(instr) && RdLo(instr) != Rm(instr)
  }

  /** The two words of a 64-bit number. */
  function LowWord(p: nat): Word { ToWord(p % LIMB) }
  function HighWord(p: nat): Word { ToWord(p / LIMB) }

  function PairWritten(c: Core, instr: Bits, p: nat): Core
  {
    c.(reg := c.reg[RdLo(instr) := LowWord(p)][RdHi(instr) := HighWord(p)])
  }

  /** N and Z of a 64-bit result. */
  function LongFlags(f: Nzcv, p: nat): Nzcv { f.(n := p >= LONG / 2, z := p == 0) }

  /** What Multiply64 does: UMULL, SMULL and their S forms. With illegal registers nothing is written, and
      the S form sets the flags for 0. */
  function LongMultiplied(c: Core, instr: Bits, msigned: bool, scc: bool): Core
  {
    var p := if Legal(instr) then Wide(c.reg[Rs(instr)], c.reg[Rm(instr)], msigned) else 0;
    var d := if Legal(instr) then PairWritten(c, instr, p) else c;
    if scc then WithFlags(d, LongFlags(FlagsOf(d), p)) else d
  }

  function PairOf(c: Core, instr: Bits): nat { Long(c.reg[RdLo(instr)], c.reg[RdHi(instr)]) }

  /** What MultiplyAdd64 does: UMLAL, SMLAL and their S forms. */
  function LongAccumulated(c: Core, instr: Bits, msigned: bool, scc: bool): Core
  {
    var d := LongMultiplied(c, instr, msigned, false);
    var p := (PairOf(c, instr) + PairOf(d, instr)) % LONG;
    var e := PairWritten(d, instr, p);
    if scc then WithFlags(e, LongFlags(FlagsOf(e), p)) else e
  }

  lemma PairUnique(lo: Word, hi: Word)
    ensures LowWord(Long(lo, hi)) == lo && HighWord(Long(lo, hi)) == hi
  {
    NumLimit(lo);
    NumLimit(hi);
    DivModUnique(Long(lo, hi), LIMB, Num(hi), Num(lo));
    OfNat(lo.bits);
    OfNat(hi.bits);
    hide Of, Nat;
  }

  /** The word from which N and Z of a 64-bit result are set. Both words have a part in it, for Z; the low one is folded in
      half, so that only bit 31 of the high one reaches N. */
  function LongTest(lo: Word, hi: Word): Word { Word(hi.bits | (lo.bits >> 16) | (lo.bits & 0xFFFF)) }

  lemma LongTestBits(lo: Word, hi: Word)
    ensures Negative(LongTest(lo, hi)) <==> Negative(hi)
    ensures LongTest(lo, hi).bits == 0 ==> lo.bits == 0 && hi.bits == 0
    ensures lo.bits == 0 && hi.bits == 0 ==> LongTest(lo, hi).bits == 0
  {}

  lemma LongTestFlags(f: Nzcv, lo: Word, hi: Word)
    ensures NegZero(f, LongTest(lo, hi)) == LongFlags(f, Long(lo, hi))
  {
    hide Num, Negative, LongTest;
    LongTestBits(lo, hi);
    Facts(lo);
    Facts(hi);
    Facts(LongTest(lo, hi));
  }

  method WritePair(state: ArmState, instr: Bits, lo: Word, hi: Word)
    requires state.Valid()
    modifies state.Reg
    ensures state.Value() == PairWritten(old(state.Value()), instr, Long(lo, hi))
  {
    hide Long, LowWord, HighWord, RdLo, RdHi;
    PairUnique(lo, hi);
    state.Reg[RdLo(instr)] := lo;
    state.Reg[RdHi(instr)] := hi;
  }

  method TestPair(state: ArmState, lo: Word, hi: Word)
    requires state.Valid()
    modifies state`NFlag, state`ZFlag, state`CFlag, state`VFlag
    ensures state.Value() == WithFlags(old(state.Value()), LongFlags(FlagsOf(old(state.Value())), Long(lo, hi)))
  {
    hide Long, LongFlags, NegZero, WithFlags;
    var f := GetFlags(state);
    LongTestFlags(f, lo, hi);
    SetFlags(state, NegZero(f, LongTest(lo, hi)));
  }

  method Multiply64(state: ArmState, instr: Bits, msigned: bool, scc: bool)
    requires state.Valid()
    modifies state`NFlag, state`ZFlag, state`CFlag, state`VFlag, state.Reg
    ensures state.Value() == LongMultiplied(old(state.Value()), instr, msigned, scc)
  {
    hide Wide, PairWritten, LongFlags, Long, Legal, Rs, Rm, WithFlags;
    var lo, hi := Word(0), Word(0);
    LongZero();
    if Legal(instr) {
      lo, hi := WideProduct(state.Reg[Rs(instr)], state.Reg[Rm(instr)], msigned);
      WritePair(state, instr, lo, hi);
    }
    if scc {
      TestPair(state, lo, hi);
    }
  }

  lemma LongZero()
    ensures Long(Word(0), Word(0)) == 0
  {
    NumZeroOne();
  }

  /** Two pairs added, with the carry of Add32. */
  method AddPairs(lo1: Word, hi1: Word, lo2: Word, hi2: Word) returns (lo: Word, hi: Word)
    ensures Long(lo, hi) == (Long(lo1, hi1) + Long(lo2, hi2)) % LONG
  {
    hide Num, Adc;
    var carry: bool;
    lo, carry := Add32(lo1, lo2);
    hi := Adc(hi1, hi2, carry);  // (RdHi + Reg[nRdHi]) + carry
    NumAdc(hi1, hi2, carry);
    NumLimit(lo);
    NumLimit(hi1);
    NumLimit(hi2);
  }

  method MultiplyAdd64(state: ArmState, instr: Bits, msigned: bool, scc: bool)
    requires state.Valid()
    modifies state`NFlag, state`ZFlag, state`CFlag, state`VFlag, state.Reg
    ensures state.Value() == LongAccumulated(old(state.Value()), instr, msigned, scc)
  {
    hide LongMultiplied, PairWritten, LongFlags, Long, RdLo, RdHi, WithFlags;
    var lo, hi := state.Reg[RdLo(instr)], state.Reg[RdHi(instr)];
    Multiply64(state, instr, msigned, false);
    lo, hi := AddPairs(lo, hi, state.Reg[RdLo(instr)], state.Reg[RdHi(instr)]);
    WritePair(state, instr, lo, hi);
    if scc {
      TestPair(state, lo, hi);
    }
  }

  // ---------------------------------------------------------------------------------------------
  // What the results are

  function SignedLong(p: nat): int { if p >= LONG / 2 then p - LONG else p }

  lemma PairReads(c: Core, instr: Bits, p: nat)
    requires p < LONG && RdHi(instr) != RdLo(instr)
    ensures PairOf(PairWritten(c, instr, p), instr) == p
  {
    hide Of, Nat, RdHi, RdLo;
    NatOf(p % LIMB);
    NatOf(p / LIMB);
  }

  lemma FlagsLeavePair(c: Core, instr: Bits, f: Nzcv)
    ensures PairOf(WithFlags(c, f), instr) == PairOf(c, instr)
  {
    hide Long, RdHi, RdLo;
  }

  lemma SignedRange(w: Word)
    ensures 0 - HALF <= Signed(w) < HALF
  {
    hide Num;
    Facts(w);
  }

  lemma SignedProductRange(x: int, y: int)
    requires 0 - HALF <= x < HALF && 0 - HALF <= y < HALF
    ensures 0 - LONG / 2 <= SignedProduct(x, y) < LONG / 2
  {
    SignRule(x, y);
    var a, b := if x < 0 then -x else x, if y < 0 then -y else y;
    ProductBound(a, b, HALF);
    Unsigned(a, b);
    hide SignedProduct, Product;
  }

  lemma SignedLongMod(p: int)
    requires 0 - LONG / 2 <= p < LONG / 2
    ensures SignedLong(p % LONG) == p
  {
    if p < 0 { assert p == -1 * LONG + (p + LONG); }
  }

  /** Multiply64 leaves the exact product, unsigned or signed, in RdHi:RdLo, and the S form sets N and Z
      from all 64 bits; no other register or flag changes. */
  lemma LongProducts(c: Core, instr: Bits, msigned: bool, scc: bool, r: RegNo)
    requires Legal(instr)
    ensures var d := LongMultiplied(c, instr, msigned, scc);
            var a, b := c.reg[Rs(instr)], c.reg[Rm(instr)];
            && (if msigned then SignedLong(PairOf(d, instr)) == SignedProduct(Signed(a), Signed(b))
                else PairOf(d, instr) == Product(Num(a), Num(b)))
            && FlagsOf(d) == (if scc then LongFlags(FlagsOf(c), PairOf(d, instr)) else FlagsOf(c))
            && (r != RdHi(instr) && r != RdLo(instr) ==> d.reg[r] == c.reg[r])
  {
    hide Num, Long, Rs, Rm, LowWord, HighWord, SignedProduct, Product, Signed, PairOf, SignedLong, RdLo, RdHi;
    var a, b := c.reg[Rs(instr)], c.reg[Rm(instr)];
    var p := Wide(a, b, msigned);
    var d := PairWritten(c, instr, p);
    PairReads(c, instr, p);
    FlagsLeavePair(d, instr, LongFlags(FlagsOf(d), p));
    if msigned {
      SignedRange(a);
      SignedRange(b);
      SignedProductRange(Signed(a), Signed(b));
      SignedLongMod(SignedProduct(Signed(a), Signed(b)));
    } else {
      NumLimit(a);
      NumLimit(b);
      ProductBound(Num(a), Num(b), LIMB - 1);
    }
  }

  /** MultiplyAdd64 adds the product to the old RdHi:RdLo modulo 2^64. */
  lemma LongAccumulation(c: Core, instr: Bits, msigned: bool, scc: bool, r: RegNo)
    requires Legal(instr)
    ensures var d := LongAccumulated(c, instr, msigned, scc);
            var p := (PairOf(c, instr) + Wide(c.reg[Rs(instr)], c.reg[Rm(instr)], msigned)) % LONG;
            && PairOf(d, instr) == p
            && FlagsOf(d) == (if scc then LongFlags(FlagsOf(c), p) else FlagsOf(c))
            && (r != RdHi(instr) && r != RdLo(instr) ==> d.reg[r] == c.reg[r])
  {
    hide Num, Long, Rs, Rm, LowWord, HighWord, PairOf, Wide, LongFlags, RdLo, RdHi;
    var p := Wide(c.reg[Rs(instr)], c.reg[Rm(instr)], msigned);
    WideBound(c.reg[Rs(instr)], c.reg[Rm(instr)], msigned);
    PairReads(c, instr, p);
    var d := LongMultiplied(c, instr, msigned, false);
    var q := (PairOf(c, instr) + p) % LONG;
    PairReads(d, instr, q);
    FlagsLeavePair(PairWritten(d, instr, q), instr, LongFlags(FlagsOf(d), q));
  }

  lemma WideBound(a: Word, b: Word, msigned: bool)
    ensures Wide(a, b, msigned) < LONG
  {}

  // ---------------------------------------------------------------------------------------------
  // MUL and MLA

  /** MUL and MLA with their S forms. With Rd equal to Rm the product counts as 0;
      with r15 as the destination nothing happens. */
  function Multiplied(c: Core, instr: Bits, accumulate: bool, s: bool): Core
  {
    hide *;
    var rd := Rn(instr);
    var product := if Rm(instr) == rd then Word(0) else Times(c.reg[Rm(instr)], c.reg[Rs(instr)]);
    var r := if accumulate then (if Rm(instr) == rd then c.reg[Rd(instr)] else Plus(product, c.reg[Rd(instr)])) else product;
    if rd == 15 && Rm(instr) != 15 then c
    else
      var d := c.(reg := c.reg[rd := r]);
      if s then WithFlags(d, NegZero(FlagsOf(d), r)) else d
  }

  method ExecuteMultiply(state: ArmState, instr: Bits, accumulate: bool, s: bool)
    requires state.Valid()
    modifies state`NFlag, state`ZFlag, state`CFlag, state`VFlag, state.Reg
    ensures state.Value() == Multiplied(old(state.Value()), instr, accumulate, s)
  {
    hide Rn, Rm, Rs, Rd, Times, Plus, NegZero, WithFlags;
    var dest := Rn(instr);
    var rhs, acc := state.Reg[Rs(instr)], state.Reg[Rd(instr)];
    var r := Word(0);
    if Rm(instr) == dest {
      if accumulate { r := acc; }
    } else {
      r := Times(state.Reg[Rm(instr)], rhs);
      if accumulate { r := Plus(r, acc); }
    }
    if Rm(instr) == dest || dest != 15 {
      state.Reg[dest] := r;
      if s {
        var f := GetFlags(state);
        SetFlags(state, NegZero(f, r));
      }
    }
  }

  lemma ModUnique(x: int, y: int, k: int, d: nat)
    requires d > 0 && x == y + k * d
    ensures x % d == y % d
  {
    var q, r := y / d, y % d;
    assert y == q * d + r;
    assert x == (q + k) * d + r;
    var e := x / d - (q + k);
    assert x == (x / d) * d + x % d;
    assert e * d == r - x % d;
    Small(e, d);
  }

  /** The 32-bit product is the low word of the unsigned and of the signed product. */
  lemma LowProduct(a: Word, b: Word)
    ensures Num(Times(a, b)) == Product(Num(a), Num(b)) % LIMB == SignedProduct(Signed(a), Signed(b)) % LIMB
  {
    hide Nat, Of;
    NatOf(Product(Num(a), Num(b)));
    var x, y := Signed(a), Signed(b);
    var i, j := Num(a), Num(b);
    var p, q := if x == i then 0 else 1, if y == j then 0 else 1;
    assert i == x + p * LIMB && j == y + q * LIMB;
    Expand(x, y, p, q);
    ModUnique(i * j, x * y, x * q + y * p + p * q * LIMB, LIMB);
  }

  lemma Expand(x: int, y: int, p: int, q: int)
    ensures (x + p * LIMB) * (y + q * LIMB) == x * y + (x * q + y * p + p * q * LIMB) * LIMB
  {}
}
