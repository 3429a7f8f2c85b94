/** The numbers of words put together from fields: masks, shifts and disjoint unions. */
module Fields {
  import opened Words

  function And(w: Bits, m: Bits): Bits { w & m }
  function Or(a: Bits, b: Bits): Bits { a | b }

  predicate Disjoint(a: Bits, b: Bits) { a & b == 0 }

  // ---------------------------------------------------------------------------------------------
  // Masks

  lemma AndHalf(w: Bits, m: Bits)
    ensures Half(And(w, m)) == And(Half(w), Half(m))
    ensures Odd(And(w, m)) <==> Odd(w) && Odd(m)
  {}

  lemma AndZero(w: Bits)
    ensures And(w, 0) == 0
  {}

  /** Masking with k ones keeps the low k bits. */
  lemma {:induction false} LowAnd(w: Bits, m: Bits, k: nat, n: nat)
    requires k <= n && IsOnes(m, k)
    ensures Low(And(w, m), n) == Low(w, k)
    decreases k
  {
    if k == 0 {
      AndZero(w);
      LowZero(n);
    } else {
      AndHalf(w, m);
      LowAnd(Half(w), Half(m), k - 1, n - 1);
    }
  }

  lemma {:induction false} LowOnes(m: Bits, k: nat, n: nat)
    requires k <= n && IsOnes(m, k)
    ensures Low(m, n) == Pow2(k) - 1
    decreases k
  {
    if k == 0 { LowZero(n); } else { LowOnes(Half(m), k - 1, n - 1); }
  }

  // ---------------------------------------------------------------------------------------------
  // Unions

  lemma OrHalf(a: Bits, b: Bits)
    requires Disjoint(a, b)
    ensures Half(Or(a, b)) == Or(Half(a), Half(b)) && Disjoint(Half(a), Half(b))
    ensures Odd(Or(a, b)) == (Odd(a) || Odd(b)) && !(Odd(a) && Odd(b))
  {
    HalfOr(a, b);
    HalfDisjoint(a, b);
    OddOr(a, b);
    hide Half, Or, Disjoint, Odd;
  }

  lemma HalfOr(a: Bits, b: Bits)
    ensures Half(Or(a, b)) == Or(Half(a), Half(b))
  {}

  lemma HalfDisjoint(a: Bits, b: Bits)
    requires Disjoint(a, b)
    ensures Disjoint(Half(a), Half(b)) && !(Odd(a) && Odd(b))
  {}

  lemma OddOr(a: Bits, b: Bits)
    ensures Odd(Or(a, b)) == (Odd(a) || Odd(b))
  {}

  lemma {:induction false} LowOr(a: Bits, b: Bits, n: nat)
    requires Disjoint(a, b)
    ensures Low(Or(a, b), n) == Low(a, n) + Low(b, n)
    decreases n
  {
    hide Or, Disjoint, Half, Odd;
    if n > 0 {
      OrHalf(a, b);
      LowOr(Half(a), Half(b), n - 1);
    }
  }

  /** The word of two disjoint fields. */
  lemma NatOr(a: Bits, b: Bits)
    requires Disjoint(a, b)
    ensures Nat(Or(a, b)) == Nat(a) + Nat(b)
  {
    LowOr(a, b, 32);
  }

  // ---------------------------------------------------------------------------------------------
  // Shifts

  function Doubled(w: Bits, k: nat): Bits { if k == 0 then w else Double(Doubled(w, k - 1)) }

  /** A word of n bits shifted left by k places. */
  lemma {:induction false} LowDoubled(w: Bits, k: nat, n: nat)
    requires n + k <= 32
    ensures Low(Doubled(w, k), n + k) == Pow2(k) * Low(w, n)
    decreases k
  {
    if k > 0 {
      LowDoubled(w, k - 1, n);
      LowDouble(Doubled(w, k - 1), n + k - 1);
      DoubleProduct(Pow2(k - 1), Low(w, n));
    }
  }

  /** A field of n bits at bit k. */
  lemma FieldNumber(w: Bits, m: Bits, n: nat, k: nat)
    requires n + k <= 32 && IsOnes(m, n)
    ensures Nat(Doubled(And(w, m), k)) == Pow2(k) * Low(w, n)
  {
    LowDoubled(And(w, m), k, 32 - k);
    LowAnd(w, m, n, 32 - k);
  }
}
