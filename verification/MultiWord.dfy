/** Multiword arithmetic: ADDS followed by ADCS, and SUBS followed by SBCS, over vectors of limbs.

    This is what the C and V flags are for; it also shows that the short cuts in the flag code of
    arch_arm/common/armemu32.c never lose one. Limbs are least significant first. */
module MultiWord {
  import opened Words
  import opened Alu

  /** LIMB to the power n. */
  function Base(n: nat): (p: nat)
    ensures p > 0
  {
    if n == 0 then 1 else LIMB * Base(n - 1)
  }

  /** The unsigned value of a vector. */
  function Value(xs: seq<Word>): nat
  {
    if xs == [] then 0 else Num(xs[0]) + LIMB * Value(xs[1..])
  }

  /** The two's-complement value of a vector: its last limb carries the sign. */
  function SignedValue(xs: seq<Word>): int
    requires xs != []
  {
    if |xs| == 1 then Signed(xs[0]) else Num(xs[0]) + LIMB * SignedValue(xs[1..])
  }

  /** ADCS on each limb in turn, from flags f. */
  function AdcsChain(xs: seq<Word>, ys: seq<Word>, f: Nzcv): (r: (seq<Word>, Nzcv))
    requires |xs| == |ys|
    ensures |r.0| == |xs|
  {
    hide Adcs;
    if xs == [] then ([], f)
    else
      var (z, g) := Adcs(xs[0], ys[0], f);
      var (zs, h) := AdcsChain(xs[1..], ys[1..], g);
      ([z] + zs, h)
  }

  /** ADDS on the lowest limb, then ADCS. */
  function AddsChain(xs: seq<Word>, ys: seq<Word>): (r: (seq<Word>, Nzcv))
    requires |xs| == |ys| > 0
    ensures |r.0| == |xs|
  {
    hide Adds;
    var (z, g) := Adds(xs[0], ys[0]);
    var (zs, h) := AdcsChain(xs[1..], ys[1..], g);
    ([z] + zs, h)
  }

  function SbcsChain(xs: seq<Word>, ys: seq<Word>, f: Nzcv): (r: (seq<Word>, Nzcv))
    requires |xs| == |ys|
    ensures |r.0| == |xs|
  {
    hide Sbcs;
    if xs == [] then ([], f)
    else
      var (z, g) := Sbcs(xs[0], ys[0], f);
      var (zs, h) := SbcsChain(xs[1..], ys[1..], g);
      ([z] + zs, h)
  }

  /** SUBS on the lowest limb, then SBCS. */
  function SubsChain(xs: seq<Word>, ys: seq<Word>, f: Nzcv): (r: (seq<Word>, Nzcv))
    requires |xs| == |ys| > 0
    ensures |r.0| == |xs|
  {
    hide Subs;
    var (z, g) := Subs(xs[0], ys[0], f);
    var (zs, h) := SbcsChain(xs[1..], ys[1..], g);
    ([z] + zs, h)
  }

  /** `Wrap` for a vector of n limbs. */
  function WrapAt(n: nat, overflow: bool, negative: bool): int
  {
    if !overflow then 0 else if negative then Base(n) else 0 - Base(n)
  }

  lemma AdcsExact(a: Word, b: Word, f: Nzcv)
    ensures var (r, g) := Adcs(a, b, f);
            && g.n == (Signed(r) < 0) && g.z == (Num(r) == 0)
            && Num(a) + Num(b) + Bin(f.c) == Num(r) + (if g.c then LIMB else 0)
            && Signed(a) + Signed(b) + Bin(f.c) == Signed(r) + Wrap(g.v, g.n)
  {
    hide Num, AddFlags, Adc;
    AddFlagsExact(a, b, f.c);
    Facts(Adc(a, b, f.c));
  }

  lemma SbcsExact(a: Word, b: Word, f: Nzcv)
    ensures var (r, g) := Sbcs(a, b, f);
            && g.n == (Signed(r) < 0) && g.z == (Num(r) == 0)
            && Num(a) - Num(b) - Bin(!f.c) == Num(r) - (if g.c then 0 else LIMB)
            && Signed(a) - Signed(b) - Bin(!f.c) == Signed(r) + Wrap(g.v, g.n)
  {
    hide Num, SubFlags, Sbc;
    var r := Sbc(a, b, f.c);
    SubFlagsExact(f, a, b, f.c);
    Facts(r);
    NegZeroAfter(SubFlags(f, a, b, r), r);
  }

  lemma NegZeroAfter(f: Nzcv, r: Word)
    ensures var g := NegZero(f, r); g.c == f.c && g.v == f.v
    ensures NegZero(f, r).n == Negative(r) && NegZero(f, r).z == (!Negative(r) && r.bits == 0)
  {}

  lemma ValueParts(xs: seq<Word>)
    requires xs != []
    ensures Value(xs) == Num(xs[0]) + 0x1_0000_0000 * Value(xs[1..])
    ensures SignedValue(xs) == if |xs| == 1 then Signed(xs[0]) else Num(xs[0]) + 0x1_0000_0000 * SignedValue(xs[1..])
    ensures |xs| == 1 ==> Value(xs[1..]) == 0
  {
    hide Num, Signed;
  }

  lemma BaseParts(n: nat)
    requires n > 0
    ensures Base(n) == 0x1_0000_0000 * Base(n - 1) && Base(0) == 1
    ensures Wrap(true, true) == 0x1_0000_0000 && Wrap(true, false) == -0x1_0000_0000
  {}

  lemma WrapParts(n: nat, overflow: bool, negative: bool)
    requires n > 0
    ensures WrapAt(n, overflow, negative) == 0x1_0000_0000 * WrapAt(n - 1, overflow, negative)
    ensures WrapAt(1, overflow, negative) == Wrap(overflow, negative)
  {
    BaseParts(n);
    BaseParts(1);
  }

  lemma NumRange(w: Word)
    ensures 0 <= Num(w) < 0x1_0000_0000
  {
    NumLimit(w);
  }

  lemma Rest(z: Word, zs: seq<Word>)
    ensures ([z] + zs)[0] == z && ([z] + zs)[1..] == zs && |[z] + zs| == 1 + |zs|
  {}

  lemma AdcsStep(xs: seq<Word>, ys: seq<Word>, f: Nzcv)
    requires |xs| == |ys| > 0
    ensures var (z, g) := Adcs(xs[0], ys[0], f);
            var (zs, h) := AdcsChain(xs[1..], ys[1..], g);
            AdcsChain(xs, ys, f) == ([z] + zs, h)
    ensures AdcsChain(xs[1..], ys[1..], Adcs(xs[0], ys[0], f).1).0 == [] <==> |xs| == 1
    ensures |xs| == 1 ==> AdcsChain(xs[1..], ys[1..], Adcs(xs[0], ys[0], f).1).1 == Adcs(xs[0], ys[0], f).1
  {
    hide Adcs;
  }

  lemma SbcsStep(xs: seq<Word>, ys: seq<Word>, f: Nzcv)
    requires |xs| == |ys| > 0
    ensures var (z, g) := Sbcs(xs[0], ys[0], f);
            var (zs, h) := SbcsChain(xs[1..], ys[1..], g);
            SbcsChain(xs, ys, f) == ([z] + zs, h)
    ensures SbcsChain(xs[1..], ys[1..], Sbcs(xs[0], ys[0], f).1).0 == [] <==> |xs| == 1
    ensures |xs| == 1 ==> SbcsChain(xs[1..], ys[1..], Sbcs(xs[0], ys[0], f).1).1 == Sbcs(xs[0], ys[0], f).1
  {
    hide Sbcs;
  }

  lemma Empty(f: Nzcv)
    ensures AdcsChain([], [], f) == ([], f) && SbcsChain([], [], f) == ([], f) && Value([]) == 0 && Base(0) == 1
    ensures Bin(true) == 1 && Bin(false) == 0
  {}

  /** ADCS on n limbs adds exactly, with the carry in and the carry out, unsigned and signed. */
  lemma {:induction false} AdcsChainExact(xs: seq<Word>, ys: seq<Word>, f: Nzcv)
    requires |xs| == |ys|
    ensures var (zs, g) := AdcsChain(xs, ys, f);
            && Value(xs) + Value(ys) + Bin(f.c) == Value(zs) + (if g.c then Base(|xs|) else 0)
            && (xs != [] ==>
                && SignedValue(xs) + SignedValue(ys) + Bin(f.c) == SignedValue(zs) + WrapAt(|xs|, g.v, g.n)
                && g.n == (SignedValue(zs) < 0))
    decreases |xs|
  {
    hide *;
    Empty(f);
    if xs != [] {
      var (z, g) := Adcs(xs[0], ys[0], f);
      var (zs, h) := AdcsChain(xs[1..], ys[1..], g);
      AdcsExact(xs[0], ys[0], f);
      AdcsChainExact(xs[1..], ys[1..], g);
      AdcsStep(xs, ys, f);
      Rest(z, zs);
      Parts(xs, ys, [z] + zs, h);
    }
  }

  lemma Parts(xs: seq<Word>, ys: seq<Word>, zs: seq<Word>, h: Nzcv)
    requires |xs| == |ys| == |zs| > 0
    ensures Value(xs) == Num(xs[0]) + 0x1_0000_0000 * Value(xs[1..])
    ensures Value(ys) == Num(ys[0]) + 0x1_0000_0000 * Value(ys[1..])
    ensures Value(zs) == Num(zs[0]) + 0x1_0000_0000 * Value(zs[1..])
    ensures SignedValue(xs) == if |xs| == 1 then Signed(xs[0]) else Num(xs[0]) + 0x1_0000_0000 * SignedValue(xs[1..])
    ensures SignedValue(ys) == if |xs| == 1 then Signed(ys[0]) else Num(ys[0]) + 0x1_0000_0000 * SignedValue(ys[1..])
    ensures SignedValue(zs) == if |xs| == 1 then Signed(zs[0]) else Num(zs[0]) + 0x1_0000_0000 * SignedValue(zs[1..])
    ensures Base(|xs|) == 0x1_0000_0000 * Base(|xs| - 1) && LIMB == 0x1_0000_0000 && 0 <= Num(zs[0]) < 0x1_0000_0000
    ensures WrapAt(|xs|, h.v, h.n) == 0x1_0000_0000 * WrapAt(|xs| - 1, h.v, h.n)
    ensures |xs| == 1 ==> WrapAt(|xs|, h.v, h.n) == Wrap(h.v, h.n)
  {
    hide *;
    ValueParts(xs);
    ValueParts(ys);
    ValueParts(zs);
    BaseParts(|xs|);
    WrapParts(|xs|, h.v, h.n);
    NumRange(zs[0]);
    LimbIs();
  }

  lemma LimbIs()
    ensures LIMB == 0x1_0000_0000
  {}

  lemma {:induction false} SbcsChainExact(xs: seq<Word>, ys: seq<Word>, f: Nzcv)
    requires |xs| == |ys|
    ensures var (zs, g) := SbcsChain(xs, ys, f);
            && Value(xs) - Value(ys) - Bin(!f.c) == Value(zs) - (if g.c then 0 else Base(|xs|))
            && (xs != [] ==>
                && SignedValue(xs) - SignedValue(ys) - Bin(!f.c) == SignedValue(zs) + WrapAt(|xs|, g.v, g.n)
                && g.n == (SignedValue(zs) < 0))
    decreases |xs|
  {
    hide *;
    Empty(f);
    if xs != [] {
      var (z, g) := Sbcs(xs[0], ys[0], f);
      var (zs, h) := SbcsChain(xs[1..], ys[1..], g);
      SbcsExact(xs[0], ys[0], f);
      SbcsChainExact(xs[1..], ys[1..], g);
      SbcsStep(xs, ys, f);
      Rest(z, zs);
      Parts(xs, ys, [z] + zs, h);
    }
  }

  lemma {:induction false} ValueBound(xs: seq<Word>)
    ensures Value(xs) < Base(|xs|)
    decreases |xs|
  {
    hide Num;
    if xs != [] {
      ValueBound(xs[1..]);
      NumLimit(xs[0]);
    }
  }

  lemma {:induction false} SignedValueBound(xs: seq<Word>)
    requires xs != []
    ensures 0 - Base(|xs|) <= 2 * SignedValue(xs) < Base(|xs|)
    decreases |xs|
  {
    hide Num;
    NumLimit(xs[0]);
    assert Base(1) == LIMB * Base(0);
    if |xs| > 1 { SignedValueBound(xs[1..]); }
  }

  lemma AddsIsAdcs(a: Word, b: Word, f: Nzcv)
    requires !f.c
    ensures Adds(a, b) == Adcs(a, b, f)
  {
    hide Num, AddFlags, NegZero, Of;
    NumAdc(a, b, false);
    NumPlus(a, b);
    NumInjective(Adc(a, b, false), Plus(a, b));
  }

  lemma SubsIsSbcs(a: Word, b: Word, f: Nzcv)
    requires f.c
    ensures Subs(a, b, f) == Sbcs(a, b, f)
  {
    hide Num, SubFlags, NegZero, Of;
    NumSbc(a, b, true);
    NumMinus(a, b);
    NumInjective(Sbc(a, b, true), Minus(a, b));
  }

  lemma NumInjective(a: Word, b: Word)
    requires Num(a) == Num(b)
    ensures a == b
  {
    NatInjective(a.bits, b.bits);
  }

  /** An ADDS followed by any number of ADCS computes the exact sum: C is the carry out of the whole
      vector, V and N its signed overflow and sign. */
  lemma AddsChainExact(xs: seq<Word>, ys: seq<Word>)
    requires |xs| == |ys| > 0
    ensures var (zs, g) := AddsChain(xs, ys);
            && Value(zs) == (Value(xs) + Value(ys)) % Base(|xs|)
            && (g.c <==> Value(xs) + Value(ys) >= Base(|xs|))
            && (g.n <==> SignedValue(zs) < 0)
            && (g.v <==> !(0 - Base(|xs|) <= 2 * (SignedValue(xs) + SignedValue(ys)) < Base(|xs|)))
            && (!g.v ==> SignedValue(zs) == SignedValue(xs) + SignedValue(ys))
  {
    hide Num, Adcs, Adds, Value, SignedValue, Base, AdcsChain, AddsChain;
    var f := Nzcv(false, false, false, false);
    AddsChainIs(xs, ys, f);
    AdcsChainExact(xs, ys, f);
    var (zs, g) := AdcsChain(xs, ys, f);
    ValueBound(zs);
    SignedValueBound(zs);
    SumMod(Value(xs) + Value(ys), Value(zs), Base(|xs|), g.c);
    OverflowMeans(SignedValue(xs) + SignedValue(ys), SignedValue(zs), Base(|xs|), g.v, g.n);
  }

  lemma AddsChainIs(xs: seq<Word>, ys: seq<Word>, f: Nzcv)
    requires |xs| == |ys| > 0 && !f.c
    ensures AddsChain(xs, ys) == AdcsChain(xs, ys, f)
  {
    hide Adcs, Adds;
    AddsIsAdcs(xs[0], ys[0], f);
  }

  lemma OverflowMeans(s: int, r: int, b: nat, overflow: bool, negative: bool)
    requires 0 - b <= 2 * r < b && negative == (r < 0)
    requires s == r + (if !overflow then 0 else if negative then b else 0 - b)
    ensures overflow <==> !(0 - b <= 2 * s < b)
  {}

  lemma SumMod(s: nat, r: nat, b: nat, carry: bool)
    requires r < b && s == r + (if carry then b else 0)
    ensures s % b == r
  {
    DivModUnique(s, b, if carry then 1 else 0, r);
  }

  /** A SUBS followed by any number of SBCS computes the exact difference, whatever the flags were
      before. Afterwards CS decides the unsigned order of the whole vectors and GE the signed order. */
  lemma SubsChainOrder(xs: seq<Word>, ys: seq<Word>, f: Nzcv)
    requires |xs| == |ys| > 0
    ensures var (zs, g) := SubsChain(xs, ys, f);
            && Value(zs) == (Value(xs) - Value(ys)) % Base(|xs|)
            && (Holds(CS, g) <==> Value(xs) >= Value(ys))
            && (Holds(CC, g) <==> Value(xs) < Value(ys))
            && (Holds(GE, g) <==> SignedValue(xs) >= SignedValue(ys))
            && (Holds(LT, g) <==> SignedValue(xs) < SignedValue(ys))
  {
    hide Num, Sbcs, Subs, Value, SignedValue, Base;
    var f1 := f.(c := true);
    SubsIgnoresFlags(xs[0], ys[0], f, f1);
    SubsIsSbcs(xs[0], ys[0], f1);
    SbcsChainExact(xs, ys, f1);
    var (zs, g) := SbcsChain(xs, ys, f1);
    assert SubsChain(xs, ys, f) == SbcsChain(xs, ys, f1);
    ValueBound(zs);
    SignedValueBound(zs);
    DifferenceMod(Value(xs) - Value(ys), Value(zs), Base(|xs|), g.c);
  }

  lemma SubsIgnoresFlags(a: Word, b: Word, f: Nzcv, g: Nzcv)
    ensures Subs(a, b, f) == Subs(a, b, g)
  {
    hide Negative, SubCarry, SubOverflow, Either, Minus;
  }

  lemma DifferenceMod(s: int, r: nat, b: nat, carry: bool)
    requires r < b && s == r - (if carry then 0 else b)
    ensures s % b == r
  {
    if !carry {
      assert s + b == r;
      ModShift(s, b);
      DivModUnique(r, b, 0, r);
    } else {
      DivModUnique(s, b, 0, r);
    }
  }

  lemma ModShift(s: int, b: nat)
    requires b > 0
    ensures (s + b) % b == s % b
  {
    var q, r := s / b, s % b;
    assert s == q * b + r;
    assert s + b == (q + 1) * b + r;
    var q1, r1 := (s + b) / b, (s + b) % b;
    assert s + b == q1 * b + r1;
    assert (q1 - q - 1) * b == r - r1;
    Small(q1 - q - 1, b);
  }

  /** CMP on one limb: after it, each condition decides the order it names. */
  lemma CmpOrder(a: Word, b: Word, f: Nzcv)
    ensures var g := Cmp(a, b, f);
            && (Holds(EQ, g) <==> a == b) && (Holds(NE, g) <==> a != b)
            && (Holds(HI, g) <==> Num(a) > Num(b)) && (Holds(LS, g) <==> Num(a) <= Num(b))
            && (Holds(CS, g) <==> Num(a) >= Num(b)) && (Holds(CC, g) <==> Num(a) < Num(b))
            && (Holds(GT, g) <==> Signed(a) > Signed(b)) && (Holds(LE, g) <==> Signed(a) <= Signed(b))
            && (Holds(GE, g) <==> Signed(a) >= Signed(b)) && (Holds(LT, g) <==> Signed(a) < Signed(b))
  {
    hide Num, Sbcs, Subs, Sbc, SubFlags, NegZero, Holds, Minus;
    CmpIsSubs(a, b, f.(c := true));
    SubsIsSbcs(a, b, f.(c := true));
    SbcsExact(a, b, f.(c := true));
    CmpIgnoresFlags(a, b, f, f.(c := true));
    if Num(a) == Num(b) { NumInjective(a, b); }
    NumLimit(a);
    NumLimit(b);
    NumLimit(Sbcs(a, b, f.(c := true)).0);
    HoldsMeans(Cmp(a, b, f));
  }

  lemma CmpIsSubs(a: Word, b: Word, f: Nzcv)
    ensures Cmp(a, b, f) == Subs(a, b, f).1
  {
    hide Negative, SubCarry, SubOverflow, Either, Minus;
  }

  lemma CmpIgnoresFlags(a: Word, b: Word, f: Nzcv, g: Nzcv)
    ensures Cmp(a, b, f) == Cmp(a, b, g)
  {
    hide Negative, SubCarry, SubOverflow, Either, Minus;
  }

  lemma HoldsMeans(g: Nzcv)
    ensures Holds(EQ, g) == g.z && Holds(NE, g) == !g.z && Holds(CS, g) == g.c && Holds(CC, g) == !g.c
    ensures Holds(HI, g) == (g.c && !g.z) && Holds(LS, g) == (!g.c || g.z)
    ensures Holds(GE, g) == (g.n == g.v) && Holds(LT, g) == (g.n != g.v)
    ensures Holds(GT, g) == (g.n == g.v && !g.z) && Holds(LE, g) == (g.n != g.v || g.z)
    ensures Holds(MI, g) == g.n && Holds(PL, g) == !g.n && Holds(VS, g) == g.v && Holds(VC, g) == !g.v
    ensures Holds(AL, g) && !Holds(15, g)
  {}
}
