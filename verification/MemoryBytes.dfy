/** The bytes of memory as numbers, in either endianness (ARM DDI 0100, section A2.7), and what reading and replacing a byte
    or halfword lane of a word means for them. */
module MemoryBytes {
  import opened Words
  import opened Fields
  import opened State
  import Ram

  /** Byte i of a word, counted from the least significant one. */
  function ByteNumber(v: nat, i: nat): nat
    requires i < 4
  {
    (if i == 0 then v else if i == 1 then v / 0x100 else if i == 2 then v / 0x1_0000 else v / 0x100_0000) % 0x100
  }

  /** The byte at address n. */
  function ByteIn(m: Memory, n: nat, big: bool): nat
    requires n / 4 in m
  {
    ByteNumber(Num(m[n / 4]), if big then 3 - n % 4 else n % 4)
  }

  // ---------------------------------------------------------------------------------------------
  // Lanes

  function Shr8(w: Bits): Bits { w >> 8 }
  function Shr24(w: Bits): Bits { w >> 24 }

  lemma ShrEights(w: Bits)
    ensures Shr4(Shr4(w)) == Shr8(w) && Shr8(Shr16(w)) == Shr24(w)
  {}

  lemma HalfEight(w: Bits)
    ensures HalfTimes(w, 8) == Shr8(w) && HalfTimes(w, 24) == Shr24(w)
  {
    HalfFour(w);
    HalfFour(Shr4(w));
    HalfTimesTwice(w, 4, 4);
    HalfSixteen(w);
    HalfFour(Shr16(w));
    HalfFour(Shr4(Shr16(w)));
    HalfTimesTwice(Shr16(w), 4, 4);
    HalfTimesTwice(w, 16, 8);
    ShrEights(w);
    ShrEights(Shr16(w));
    hide Shr4, Shr8, Shr16, Shr24, Half;
  }

  lemma BytePowers()
    ensures Pow2(8) == 0x100 && Pow2(16) == 0x1_0000 && Pow2(24) == 0x100_0000
  {
    assert Pow2(8) == 0x100;
    assert Pow2(16) == 0x1_0000;
  }

  lemma EightOnes()
    ensures IsOnes(0xFF, 8)
  {}

  /** The low byte. */
  lemma LowByteNumber(w: Bits)
    ensures Nat(And(w, 0xFF)) == Low(w, 8) && Low(w, 8) == Nat(w) % 0x100
  {
    EightOnes();
    BytePowers();
    LowAnd(w, 0xFF, 8, 32);
    LowSplit(w, 8, 24);
    LowBound(w, 8);
    NatLow(w);
    NatLow(And(w, 0xFF));
    DivModUnique(Nat(w), 0x100, Low(HalfTimes(w, 8), 24), Low(w, 8));
    hide Low, And, IsOnes, Pow2;
  }

  lemma NatLow(x: Bits)
    ensures Nat(x) == Low(x, 32)
  {}

  /** A word shifted right is divided. */
  lemma ShiftedNumber(w: Bits, k: nat)
    requires k <= 32
    ensures Nat(w) / Pow2(k) == Low(HalfTimes(w, k), 32 - k)
  {
    hide *;
    var q := Low(HalfTimes(w, k), 32 - k);
    LowSplit(w, k, 32 - k);
    LowBound(w, k);
    NatLow(w);
    Commuted(Pow2(k), q);
    DivModUnique(Nat(w), Pow2(k), q, Low(w, k));
  }

  lemma Commuted(a: nat, b: nat)
    ensures a * b == b * a
  {}

  lemma FirstLane(w: Bits)
    ensures Ram.ByteOf(w, 0) == And(w, 0xFF)
  {}

  lemma SecondLane(w: Bits)
    ensures Ram.ByteOf(w, 1) == And(Shr8(w), 0xFF)
  {}

  lemma ThirdLane(w: Bits)
    ensures Ram.ByteOf(w, 2) == And(Shr16(w), 0xFF)
  {}

  lemma FourthLane(w: Bits)
    ensures Ram.ByteOf(w, 3) == And(Shr24(w), 0xFF)
  {}

  lemma LowOfLow(w: Bits, k: nat)
    requires k <= 24
    ensures Low(HalfTimes(w, k), 8) == Low(HalfTimes(w, k), 32 - k) % 0x100
  {
    var v := HalfTimes(w, k);
    LowSplit(v, 8, 24 - k);
    LowBound(v, 8);
    BytePowers();
    DivModUnique(Low(v, 32 - k), 0x100, Low(HalfTimes(v, 8), 24 - k), Low(v, 8));
    hide Low, HalfTimes, Pow2;
  }

  lemma ByteAt(w: Bits, k: nat)
    requires k <= 24
    ensures Nat(And(HalfTimes(w, k), 0xFF)) == Nat(w) / Pow2(k) % 0x100
  {
    LowByteNumber(HalfTimes(w, k));
    LowOfLow(w, k);
    ShiftedNumber(w, k);
    hide Nat, And, HalfTimes, Pow2, Low;
  }

  lemma LowLane(w: Bits)
    ensures Nat(Ram.ByteOf(w, 0)) == Nat(w) % 0x100 && Nat(Ram.ByteOf(w, 1)) == Nat(w) / 0x100 % 0x100
  {
    hide *;
    FirstLane(w);
    SecondLane(w);
    HalfEight(w);
    BytePowers();
    LowByteNumber(w);
    ByteAt(w, 8);
  }

  lemma HighLane(w: Bits)
    ensures Nat(Ram.ByteOf(w, 2)) == Nat(w) / 0x1_0000 % 0x100 && Nat(Ram.ByteOf(w, 3)) == Nat(w) / 0x100_0000 % 0x100
  {
    hide *;
    ThirdLane(w);
    FourthLane(w);
    HalfEight(w);
    HalfSixteen(w);
    BytePowers();
    ByteAt(w, 16);
    ByteAt(w, 24);
  }

  /** A byte lane of a word is that byte of its number. */
  lemma LaneNumber(w: Bits, lane: nat)
    requires lane < 4
    ensures Nat(Ram.ByteOf(w, lane)) == ByteNumber(Nat(w), lane) < 0x100
  {
    LowLane(w);
    HighLane(w);
    hide Nat, Ram.ByteOf;
  }

  lemma WordNumber(w: Word)
    ensures Num(w) == Nat(w.bits)
  {}

  /** The byte at an address is its lane of the word there. */
  lemma LaneIn(m: Memory, n: nat, big: bool)
    requires n / 4 in m
    ensures Nat(Ram.ByteOf(m[n / 4].bits, Ram.Lane(n, big))) == ByteIn(m, n, big) < 0x100
  {
    LaneNumber(m[n / 4].bits, Ram.Lane(n, big));
    WordNumber(m[n / 4]);
    hide Nat, Num, Ram.ByteOf, ByteNumber;
  }

  // ---------------------------------------------------------------------------------------------
  // Words and halfwords of bytes

  lemma Divided(v: nat)
    ensures v / 0x1_0000 == v / 0x100 / 0x100 && v / 0x100_0000 == v / 0x1_0000 / 0x100
  {
    var q1, r1 := v / 0x100, v % 0x100;
    var q2, r2 := q1 / 0x100, q1 % 0x100;
    DivModUnique(v, 0x1_0000, q2, 0x100 * r2 + r1);
    var s := v % 0x1_0000;
    var q3, r3 := q2 / 0x100, q2 % 0x100;
    assert v == 0x1_0000 * q2 + s;
    DivModUnique(v, 0x100_0000, q3, 0x1_0000 * r3 + s);
  }

  /** A word is the sum of its bytes. */
  lemma WordOfBytes(v: nat)
    requires v < LIMB
    ensures v == ByteNumber(v, 0) + 0x100 * ByteNumber(v, 1) + 0x1_0000 * ByteNumber(v, 2) + 0x100_0000 * ByteNumber(v, 3)
  {
    Divided(v);
    var q1, q2, q3 := v / 0x100, v / 0x1_0000, v / 0x100_0000;
    assert v == 0x100 * q1 + v % 0x100;
    assert q1 == 0x100 * q2 + q1 % 0x100;
    assert q2 == 0x100 * q3 + q2 % 0x100;
    assert q3 < 0x100;
  }

  lemma HalfLaneBytes(w: Bits, lane: nat)
    requires lane == 0 || lane == 2
    ensures Nat(Ram.HalfOf(w, lane)) == ByteNumber(Nat(w), lane) + 0x100 * ByteNumber(Nat(w), lane + 1) < 0x1_0000
  {
    Ram.HalfOfBytes(w, lane);
    LaneNumber(w, lane);
    LaneNumber(w, lane + 1);
    PairNumber(Ram.ByteOf(w, lane), Ram.ByteOf(w, lane + 1));
    hide Nat, Ram.HalfOf, Ram.ByteOf, Ram.Pair, ByteNumber;
  }

  lemma PairBits(b0: Bits, b1: Bits)
    requires b0 <= 0xFF && b1 <= 0xFF
    ensures Ram.Pair(b0, b1) == Or(b0, Shl8(b1)) && Disjoint(b0, Shl8(b1)) && And(b1, 0xFF) == b1
  {}

  function Shl8(w: Bits): Bits { w << 8 }

  lemma DoubledEight(w: Bits)
    ensures Doubled(w, 8) == Shl8(w)
  {
    assert Doubled(w, 1) == Double(Doubled(w, 0));
    assert Doubled(w, 2) == Double(Doubled(w, 1));
    assert Doubled(w, 3) == Double(Doubled(w, 2));
    assert Doubled(w, 4) == Double(Doubled(w, 3));
    assert Doubled(w, 5) == Double(Doubled(w, 4));
    assert Doubled(w, 6) == Double(Doubled(w, 5));
    assert Doubled(w, 7) == Double(Doubled(w, 6));
    assert Doubled(w, 8) == Double(Doubled(w, 7));
    EightDoubles(w);
    hide Double, Shl8;
  }

  lemma EightDoubles(w: Bits)
    ensures Double(Double(Double(Double(Double(Double(Double(Double(w)))))))) == Shl8(w)
  {}

  lemma AtMost255()
    ensures Nat(0xFF) == 255
  {
    EightOnes();
    LowOnes(0xFF, 8, 32);
    BytePowers();
    NatLow(0xFF);
    hide Low, IsOnes, Pow2;
  }

  lemma PairNumber(b0: Bits, b1: Bits)
    requires Nat(b0) < 0x100 && Nat(b1) < 0x100
    ensures Nat(Ram.Pair(b0, b1)) == Nat(b0) + 0x100 * Nat(b1)
  {
    AtMost255();
    NatOrder(b0, 0xFF);
    NatOrder(b1, 0xFF);
    PairBits(b0, b1);
    DoubledEight(b1);
    EightOnes();
    FieldNumber(b1, 0xFF, 8, 8);
    LowByteNumber(b1);
    BytePowers();
    NatOr(b0, Shl8(b1));
    hide Nat, Low, And, Or, Disjoint, Shl8, Doubled, IsOnes, Pow2, Ram.Pair;
  }

  /** The even address of the halfword that address a is in. */
  function EvenAddress(a: nat): nat { a - a % 2 }

  lemma EvenParts(a: nat)
    ensures var h := EvenAddress(a);
            h / 4 == a / 4 && (h + 1) / 4 == a / 4 && h % 4 == (if a % 4 < 2 then 0 else 2) && (h + 1) % 4 == h % 4 + 1
  {
    var q, r := a / 4, a % 4;
    assert a == 4 * q + r;
    EvenOf(q, r);
    var b := if r < 2 then 0 else 2;
    DivModUnique(4 * q + b, 4, q, b);
    DivModUnique(4 * q + b + 1, 4, q, b + 1);
  }

  lemma EvenOf(q: nat, r: nat)
    requires r < 4
    ensures (4 * q + r) % 2 == r % 2
  {
    DivModUnique(4 * q + r, 2, 2 * q + r / 2, r % 2);
  }

  /** The halfword that address a is in, from its two bytes. */
  function HalfIn(m: Memory, a: nat, big: bool): nat
    requires a / 4 in m
  {
    EvenParts(a);
    var b0, b1 := ByteIn(m, EvenAddress(a), big), ByteIn(m, EvenAddress(a) + 1, big);
    if big then 0x100 * b0 + b1 else b0 + 0x100 * b1
  }

  lemma HalfLaneIs(a: nat, big: bool)
    ensures Ram.HalfLane(a, big) == if (a % 4 < 2) == big then 2 else 0
  {
    var q, r := a / 4, a % 4;
    assert a == 4 * q + r;
    DivModUnique(4 * q + r, 2, 2 * q + r / 2, r % 2);
    assert a / 2 == 2 * q + r / 2;
    EvenOf(q, r / 2);
    DivModUnique(2 * q + r / 2, 2, q, r / 2);
  }

  lemma HalfLaneIn(m: Memory, a: nat, big: bool)
    requires a / 4 in m
    ensures Nat(Ram.HalfOf(m[a / 4].bits, Ram.HalfLane(a, big))) == HalfIn(m, a, big) < 0x1_0000
  {
    hide Nat, Num, Ram.HalfOf, ByteNumber, EvenAddress, Ram.HalfLane;
    EvenParts(a);
    HalfLaneIs(a, big);
    HalfLaneBytes(m[a / 4].bits, Ram.HalfLane(a, big));
    WordNumber(m[a / 4]);
  }

  /** The word at the aligned address n is its four bytes. */
  lemma WordIn(m: Memory, n: nat, big: bool)
    requires n % 4 == 0 && n / 4 in m
    ensures (n + 1) / 4 == n / 4 && (n + 2) / 4 == n / 4 && (n + 3) / 4 == n / 4
    ensures var b0, b1, b2, b3 := ByteIn(m, n, big), ByteIn(m, n + 1, big), ByteIn(m, n + 2, big), ByteIn(m, n + 3, big);
            Num(m[n / 4]) == if big then 0x100_0000 * b0 + 0x1_0000 * b1 + 0x100 * b2 + b3
                             else b0 + 0x100 * b1 + 0x1_0000 * b2 + 0x100_0000 * b3
  {
    NumLimit(m[n / 4]);
    WordOfBytes(Num(m[n / 4]));
    hide Num, ByteNumber;
  }

  // ---------------------------------------------------------------------------------------------
  // Replacing a lane

  lemma StoredByte(m: Memory, a: nat, d: Bits, n: nat, big: bool)
    requires a / 4 in m && n / 4 in m
    ensures var e := m[a / 4 := Word(Ram.PutByte(m[a / 4].bits, Ram.Lane(a, big), d))];
            ByteIn(e, n, big) == if n == a then Nat(d) % 0x100 else ByteIn(m, n, big)
  {
    var w := m[a / 4].bits;
    var x := Ram.PutByte(w, Ram.Lane(a, big), d);
    LaneIn(m, n, big);
    LaneIn(m[a / 4 := Word(x)], n, big);
    Ram.PutByteLanes(w, Ram.Lane(a, big), d, Ram.Lane(n, big));
    LowByteNumber(d);
    LowByteIs(d);
    if n / 4 == a / 4 { LanesDiffer(a, n, big); }
    hide Nat, Num, Ram.ByteOf, Ram.PutByte, Ram.Lane, ByteNumber, ByteIn, Ram.LowByte, And;
  }

  lemma LowByteIs(d: Bits)
    ensures Ram.LowByte(d) == And(d, 0xFF) && Ram.NextByte(d) == And(Shr8(d), 0xFF)
  {}

  lemma LanesDiffer(a: nat, n: nat, big: bool)
    requires n / 4 == a / 4
    ensures Ram.Lane(n, big) == Ram.Lane(a, big) <==> n == a
  {}

  lemma NextByteNumber(d: Bits)
    ensures Nat(Ram.NextByte(d)) == Nat(d) / 0x100 % 0x100
  {
    LowByteIs(d);
    HalfEight(d);
    BytePowers();
    ByteAt(d, 8);
    hide Nat, And, Shr8, HalfTimes, Pow2, Ram.NextByte;
  }

  lemma StoredHalf(m: Memory, a: nat, d: Bits, n: nat, big: bool)
    requires a / 4 in m && n / 4 in m
    ensures var e := m[a / 4 := Word(Ram.PutHalf(m[a / 4].bits, Ram.HalfLane(a, big), d))];
            var h, lo, hi := EvenAddress(a), Nat(d) % 0x100, Nat(d) / 0x100 % 0x100;
            ByteIn(e, n, big) == if n == h then (if big then hi else lo) else if n == h + 1 then (if big then lo else hi)
                                 else ByteIn(m, n, big)
  {
    var w := m[a / 4].bits;
    var x := Ram.PutHalf(w, Ram.HalfLane(a, big), d);
    LaneIn(m, n, big);
    LaneIn(m[a / 4 := Word(x)], n, big);
    Ram.PutHalfLanes(w, Ram.HalfLane(a, big), d, Ram.Lane(n, big));
    LowByteNumber(d);
    LowByteIs(d);
    NextByteNumber(d);
    if n / 4 == a / 4 { HalfLanesDiffer(a, n, big); } else { OtherHalf(a, n); }
    hide Nat, Num, Ram.ByteOf, Ram.PutHalf, Ram.Lane, Ram.HalfLane, ByteNumber, ByteIn, Ram.LowByte, Ram.NextByte, And, EvenAddress;
  }

  lemma HalfLanesDiffer(a: nat, n: nat, big: bool)
    requires n / 4 == a / 4
    ensures var h := EvenAddress(a);
            && (n == h <==> Ram.Lane(n, big) == Ram.HalfLane(a, big) + (if big then 1 else 0))
            && (n == h + 1 <==> Ram.Lane(n, big) == Ram.HalfLane(a, big) + (if big then 0 else 1))
  {
    EvenParts(a);
    HalfLaneIs(a, big);
    hide EvenAddress, Ram.HalfLane;
    assert EvenAddress(a) == 4 * (a / 4) + EvenAddress(a) % 4;
    assert n == 4 * (a / 4) + n % 4;
  }

  lemma OtherHalf(a: nat, n: nat)
    requires n / 4 != a / 4
    ensures n != EvenAddress(a) && n != EvenAddress(a) + 1
  {
    EvenParts(a);
    hide EvenAddress;
  }

  /** A whole word. */
  lemma StoredWord(m: Memory, a: nat, w: Word, n: nat, big: bool)
    requires a / 4 in m && n / 4 in m
    ensures ByteIn(m[a / 4 := w], n, big)
         == if n / 4 == a / 4 then ByteNumber(Num(w), if big then 3 - n % 4 else n % 4) else ByteIn(m, n, big)
  {
    hide Num, ByteNumber;
  }
}
