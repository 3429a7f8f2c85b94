/** Addition and subtraction as the ARM Architecture Reference Manual defines them (ARM DDI 0100, glossary:
    CarryFrom, BorrowFrom, OverflowFrom), and that the emulator's results and flags are those. */
module Manual {
  import opened Words
  import opened State
  import opened Alu
  import opened DataPath

  /** A result and the four flags. */
  datatype Result = Result(r: Word, f: Nzcv)

  /** The range of a signed word. */
  predicate Fits(x: int) { 0 - HALF <= x < HALF }

  function Flagged(r: Word, carry: bool, overflow: bool): Result
  {
    Result(r, Nzcv(Signed(r) < 0, Num(r) == 0, carry, overflow))
  }

  /** a + b + c: the sum modulo 2^32, the carry out of it, and whether the signed sum overflows. */
  function Added(a: Word, b: Word, c: bool): Result
  {
    var s := Num(a) + Num(b) + Bin(c);
    Flagged(ToWord(s), s >= LIMB, !Fits(Signed(a) + Signed(b) + Bin(c)))
  }

  /** a - b - !c: the difference modulo 2^32, C set unless it borrows, and whether the signed difference
      overflows. */
  function Subtracted(a: Word, b: Word, c: bool): Result
  {
    NumLimit(b);
    var d := Num(a) - Num(b) - Bin(!c);
    Flagged(if d >= 0 then ToWord(d) else ToWord(d + LIMB), d >= 0, !Fits(Signed(a) - Signed(b) - Bin(!c)))
  }

  lemma WordFrom(w: Word, n: nat)
    requires Num(w) == n
    ensures w == ToWord(n)
  {
    OfNat(w.bits);
    hide Of, Nat;
  }

  lemma SignedRange(w: Word)
    ensures Fits(Signed(w)) && (Negative(w) <==> Signed(w) < 0)
  {
    hide Num, Negative;
    Facts(w);
  }

  lemma NegZeroMeans(f: Nzcv, r: Word)
    ensures NegZero(f, r) == Nzcv(Signed(r) < 0, Num(r) == 0, f.c, f.v)
  {
    hide Num, Negative;
    Facts(r);
  }

  /** ADCS (and ADDS, with carry 0) as the manual has it. */
  lemma AdcIsAdded(a: Word, b: Word, c: bool)
    ensures var r := Adc(a, b, c); Result(r, AddFlags(a, b, r)) == Added(a, b, c)
  {
    hide Num, Adc, AddFlags, Signed, ToWord;
    var r := Adc(a, b, c);
    AddFlagsExact(a, b, c);
    SignedRange(a);
    SignedRange(b);
    SignedRange(r);
    NumLimit(r);
    NumAdc(a, b, c);
    NumLimit(a);
    NumLimit(b);
    SumWord(r, Num(a) + Num(b) + Bin(c));
  }

  lemma SumWord(r: Word, s: nat)
    requires s < 2 * LIMB && Num(r) == if s < LIMB then s else s - LIMB
    ensures r == ToWord(s)
  {
    hide Of, Nat;
    NatOf(s);
    NumNat(r);
    NatInjective(r.bits, Of(s));
  }

  lemma SbcIsSubtracted(f: Nzcv, a: Word, b: Word, c: bool)
    ensures var r := Sbc(a, b, c); Result(r, NegZero(SubFlags(f, a, b, r), r)) == Subtracted(a, b, c)
    ensures var r := Sbc(a, b, c); Result(r, SubFlags(NegZero(f, r), a, b, r)) == Subtracted(a, b, c)
  {
    hide Num, Sbc, SubFlags, Signed, ToWord, NegZero;
    var r := Sbc(a, b, c);
    SubFlagsExact(f, a, b, c);
    SubFlagsExact(NegZero(f, r), a, b, c);
    NegZeroMeans(SubFlags(f, a, b, r), r);
    NegZeroMeans(f, r);
    SubFlagsKeep(f, a, b, r);
    SubFlagsKeep(NegZero(f, r), a, b, r);
    SignedRange(a);
    SignedRange(b);
    SignedRange(r);
    NumLimit(r);
    NumLimit(a);
    NumLimit(b);
    NumSbc(a, b, c);
    var d := Num(a) - Num(b) - Bin(!c);
    SumWord(r, if d >= 0 then d else d + LIMB);
  }

  lemma SubFlagsKeep(f: Nzcv, a: Word, b: Word, r: Word)
    ensures SubFlags(f, a, b, r).n == f.n && SubFlags(f, a, b, r).z == f.z
  {}

  /** Without carry in. */
  lemma PlusIsAdc(a: Word, b: Word)
    ensures Plus(a, b) == Adc(a, b, false)
  {
    hide Num, Plus;
    NumOne(false);
    NumPlus(a, b);
    NumPlus(Plus(a, b), One(false));
    NumLimit(Plus(a, b));
    WordFrom(Plus(a, b), Num(Plus(a, b)));
    WordFrom(Adc(a, b, false), Num(Plus(a, b)));
  }

  lemma MinusIsSbc(a: Word, b: Word)
    ensures Minus(a, b) == Sbc(a, b, true)
  {
    hide Num, Minus;
    NumOne(false);
    NumMinus(a, b);
    NumMinus(Minus(a, b), One(false));
    WordFrom(Minus(a, b), Num(Minus(a, b)));
    WordFrom(Sbc(a, b, true), Num(Minus(a, b)));
  }

  // ---------------------------------------------------------------------------------------------
  // Results in the machine

  function Put(c: Core, r: RegNo, w: Word): Core { c.(reg := c.reg[r := w]) }

  function PutFlags(c: Core, r: RegNo, w: Word, f: Nzcv): Core { WithFlags(Put(c, r, w), f) }

  /** The flags of a shift or logical operation: N and Z of the result, C from the shifter; V is kept. */
  function LogicalFlags(c: Core, w: Word, carry: bool): Nzcv { Nzcv(Signed(w) < 0, Num(w) == 0, carry, c.v) }
}
