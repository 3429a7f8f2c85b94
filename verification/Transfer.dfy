/** What LDM and STM mean (ARM DDI 0100, section A5.4): the k-th register of the list and the k-th word
    from the start address belong together, in each of the four addressing modes. */
module Transfer {
  import opened Words
  import opened State
  import opened Support
  import opened Alu
  import opened DataPath
  import opened Exceptions
  import opened Block
  import opened Tables

  // ---------------------------------------------------------------------------------------------
  // Cases 0x80 to 0x9f of the main switch

  /** LSMNumRegs. */
  function ByteCount(instr: Bits): Word { ToWord(4 * |RegList(instr)|) }

  predicate Before(instr: Bits) { BitAt(instr, 24) }
  predicate Up(instr: Bits) { BitAt(instr, 23) }
  predicate Caret(instr: Bits) { BitAt(instr, 22) }
  predicate Writeback(instr: Bits) { BitAt(instr, 21) && Rn(instr) != 15 }
  predicate IsLoad(instr: Bits) { BitAt(instr, 20) }

  function Start(base: Word, instr: Bits): Word
  {
    if Up(instr) then (if Before(instr) then Plus(base, Word(4)) else base)
    else (if Before(instr) then Minus(base, ByteCount(instr)) else Plus(Minus(base, ByteCount(instr)), Word(4)))
  }

  /** The base after the transfer. */
  function NewBase(base: Word, instr: Bits): Word
  {
    if Up(instr) then Plus(base, ByteCount(instr)) else Minus(base, ByteCount(instr))
  }

  /** A block transfer instruction. */
  function Transferred(c: Core, pins: Pins, instr: Bits): Core
  {
    var base := c.reg[Rn(instr)];
    var start, wb := Start(base, instr), NewBase(base, instr);
    if IsLoad(instr) then
      if Caret(instr) then SLoaded(c, pins, instr, start, wb) else Loaded(c, pins, instr, start, wb)
    else
      if Caret(instr) then SStored(c, pins, instr, start, wb) else Stored(c, pins, instr, start, wb)
  }

  /** LSMNumRegs, from ARMul_BitList. */
  method LSMNumRegs(bitList: array<nat>, instr: Bits) returns (n: Word)
    requires bitList.Length == 256 && forall i :: 0 <= i < 256 ==> bitList[i] == 4 * Ones(i)
    ensures n == ByteCount(instr)
  {
    hide Low, Ones, RegList;
    NumRegs(instr);
    LowBound(instr, 8);
    LowBound(Shr8(instr), 8);
    assert Pow2(8) == 256;
    n := ToWord(bitList[Low(instr, 8)] + bitList[Low(Shr8(instr), 8)]);
  }

  /** Cases 0x80 to 0x9f of the main switch. */
  method ExecuteBlockTransfer(state: ArmState, bitList: array<nat>, instr: Bits)
    requires state.Valid() && RegList(instr) != [] && !Is26Bit(state.Mode)
    requires bitList.Length == 256 && forall i :: 0 <= i < 256 ==> bitList[i] == 4 * Ones(i)
    modifies state, state.Reg, state.RegBank, state.Spsr
    ensures state.Value() == Transferred(old(state.Value()), state.pins, instr)
  {
    hide Rn, Up, Before, Caret, IsLoad, Plus, Minus, ByteCount, Is26Bit, RegList, Stored, SStored, Loaded, SLoaded;
    var n := LSMNumRegs(bitList, instr);
    var base := state.Reg[Rn(instr)];
    var low := Minus(base, n);
    var start := if Up(instr) then (if Before(instr) then Plus(base, Word(4)) else base)
                 else if Before(instr) then low else Plus(low, Word(4));
    var wb := if Up(instr) then Plus(base, n) else low;
    if IsLoad(instr) {
      if Caret(instr) { LoadSMult(state, instr, start, wb); } else { LoadMult(state, instr, start, wb); }
    } else {
      if Caret(instr) { StoreSMult(state, instr, start, wb); } else { StoreMult(state, instr, start, wb); }
    }
  }

  // ---------------------------------------------------------------------------------------------
  // Addresses

  /** The number of words in the address space. */
  const WORDS: nat := 0x4000_0000

  /** The k-th word from word number w. */
  function Nth(w: nat, k: nat): nat { (w + k) % WORDS }

  lemma NextWord(a: Word)
    ensures WordNo(Plus(a, Word(4))) == Nth(WordNo(a), 1)
    ensures WordNo(a) < WORDS
  {
    hide Num, Plus;
    SmallWords();
    NumPlus(a, Word(4));
    NumLimit(a);
  }

  lemma NthNext(w: nat, k: nat)
    ensures Nth(Nth(w, 1), k) == Nth(w, k + 1)
  {}

  lemma NthZero(w: nat, k: nat)
    ensures w < WORDS ==> Nth(w, 0) == w
    ensures Nth(Nth(w, 0), k) == Nth(w, k)
  {}

  lemma NthDistinct(w: nat, i: nat, j: nat)
    requires Nth(w, i) == Nth(w, j) && i < WORDS && j < WORDS
    ensures i == j
  {
    var q, p := (w + i) / WORDS, (w + j) / WORDS;
    assert (q - p) * WORDS == i - j;
    Small(q - p, WORDS);
  }

  /** The first word of the transfer, in the terms of the manual: from word number b with n registers. */
  function FirstWord(b: nat, n: nat, instr: Bits): nat
    requires n <= 16
  {
    if Up(instr) then Nth(b, if Before(instr) then 1 else 0)
    else Nth(b + WORDS - n, if Before(instr) then 0 else 1)
  }

  lemma NumByteCount(instr: Bits)
    ensures Num(ByteCount(instr)) == 4 * |RegList(instr)| && |RegList(instr)| <= 16
  {
    ListMeaning(instr, 0);
    hide Nat, Of, RegList;
    NatOf(4 * |RegList(instr)|);
  }

  lemma WordBelow(a: Word, instr: Bits)
    ensures |RegList(instr)| <= 16
    ensures WordNo(Minus(a, ByteCount(instr))) == Nth(WordNo(a) + WORDS - |RegList(instr)|, 0)
  {
    hide Num, Minus, RegList, ByteCount;
    NumByteCount(instr);
    NumLimit(a);
    NumMinus(a, ByteCount(instr));
    QuarterLess(Num(a), |RegList(instr)|);
  }

  lemma QuarterLess(a: nat, n: nat)
    requires a < LIMB && n <= 16
    ensures (if a >= 4 * n then a - 4 * n else a - 4 * n + LIMB) / 4 == Nth(a / 4 + WORDS - n, 0)
  {
    var q, r := a / 4, a % 4;
    assert a == 4 * q + r;
    if q >= n { assert a - 4 * n == 4 * (q - n) + r; } else { assert a - 4 * n + LIMB == 4 * (q - n + WORDS) + r; }
  }

  lemma StartWord(base: Word, instr: Bits)
    requires |RegList(instr)| <= 16
    ensures WordNo(Start(base, instr)) == FirstWord(WordNo(base), |RegList(instr)|, instr)
  {
    hide WordNo, Plus, Minus, Before, Up, RegList, ByteCount, Nth;
    NextWord(base);
    NextWord(Minus(base, ByteCount(instr)));
    WordBelow(base, instr);
    NthZero(WordNo(base), 0);
    NthZero(WordNo(base) + WORDS - |RegList(instr)|, 1);
  }

  lemma NewBaseNumber(base: Word, instr: Bits)
    ensures var n := 4 * |RegList(instr)|;
            Num(NewBase(base, instr)) == (if Up(instr) then Num(base) + n else Num(base) + LIMB - n) % LIMB
  {
    hide Num, Plus, Minus, Up, RegList, ByteCount;
    NumByteCount(instr);
    NumLimit(base);
    NumPlus(base, ByteCount(instr));
    NumMinus(base, ByteCount(instr));
  }

  // ---------------------------------------------------------------------------------------------
  // Loads

  /** The n words from word number w are mapped. */
  ghost predicate Mapped(m: Memory, w: nat, n: nat)
  {
    forall k: nat :: k < n ==> Nth(w, k) in m
  }

  ghost predicate Ascending(regs: seq<RegNo>)
  {
    forall i, j :: 0 <= i < j < |regs| ==> regs[i] < regs[j]
  }

  /** Nothing changes but the registers and the abort signal. */
  predicate OnlyRegs(c: Core, d: Core) { d == c.(reg := d.reg, abortSig := d.abortSig) }

  lemma MappedRest(m: Memory, w: nat, n: nat)
    requires n > 0 && Mapped(m, w, n)
    ensures Nth(w, 0) in m && Mapped(m, Nth(w, 1), n - 1)
  {
    forall k: nat | k < n - 1 ensures Nth(Nth(w, 1), k) in m { NthNext(w, k); }
  }

  lemma LoadOneEffect(c: Core, r: RegNo, a: Word)
    requires !c.aborted && Nth(WordNo(a), 0) in c.mem
    ensures LoadOne(c, r, a) == c.(reg := c.reg[r := c.mem[Nth(WordNo(a), 0)]], abortSig := false)
  {
    NextWord(a);
    NthZero(WordNo(a), 0);
    hide WordNo, Nth;
  }

  /** Register regs[k] receives word number w + k, and a register that is not in regs does not change. */
  lemma {:induction false} LoadAllEffect(c: Core, regs: seq<RegNo>, a: Word, k: nat, r: RegNo)
    requires !c.aborted && Ascending(regs) && Mapped(c.mem, WordNo(a), |regs|)
    ensures var d := LoadAll(c, regs, a);
            && OnlyRegs(c, d) && (regs != [] ==> !d.abortSig)
            && (k < |regs| ==> d.reg[regs[k]] == c.mem[Nth(WordNo(a), k)])
            && (r !in regs ==> d.reg[r] == c.reg[r])
    decreases |regs|
  {
    hide LoadOne, WordNo, Plus, Nth;
    if regs != [] {
      var d, rest, b := LoadOne(c, regs[0], a), regs[1..], Plus(a, Word(4));
      MappedRest(c.mem, WordNo(a), |regs|);
      LoadOneEffect(c, regs[0], a);
      NextWord(a);
      if k == 0 {
        assert forall j :: 0 <= j < |rest| ==> rest[j] > regs[0];
        LoadAllEffect(d, rest, b, 0, regs[0]);
        LoadAllEffect(d, rest, b, 0, r);
      } else {
        LoadAllEffect(d, rest, b, k - 1, r);
        NthNext(WordNo(a), k - 1);
      }
    }
  }

  /** The first word of a transfer from state c. */
  function FirstOf(c: Core, instr: Bits): nat
    requires |RegList(instr)| <= 16
  {
    FirstWord(WordNo(c.reg[Rn(instr)]), |RegList(instr)|, instr)
  }

  /** The k-th register of the list holds the k-th word, the base is written back (last, also when it is in
      the list), register r is unchanged if it is neither, and so is everything else. */
  predicate LdmDone(c: Core, d: Core, instr: Bits, k: nat, r: RegNo)
    requires k < |RegList(instr)| <= 16 && Nth(FirstOf(c, instr), k) in c.mem
  {
    var kth := RegList(instr)[k];
    && OnlyRegs(c, d) && !d.abortSig
    && (Writeback(instr) ==> d.reg[Rn(instr)] == NewBase(c.reg[Rn(instr)], instr))
    && (!(Writeback(instr) && kth == Rn(instr)) ==> d.reg[kth] == c.mem[Nth(FirstOf(c, instr), k)])
    && (!(Writeback(instr) && r == Rn(instr)) && r !in RegList(instr) ==> d.reg[r] == c.reg[r])
  }

  lemma LoadedIs(c: Core, pins: Pins, instr: Bits, start: Word, wb: Word)
    requires !BitAt(instr, 15) && !LoadAll(c, RegList(instr), start).aborted
    ensures Loaded(c, pins, instr, start, wb) == BaseWritten(LoadAll(c, RegList(instr), start), instr, wb)
  {
    hide LoadAll, RegList, BitAt, BaseWritten, Entered, R15Branched;
  }

  /** The loads leave everything but the base. */
  lemma ThenBase(c: Core, x: Core, instr: Bits, k: nat, r: RegNo)
    requires k < |RegList(instr)| <= 16 && Nth(FirstOf(c, instr), k) in c.mem
    requires OnlyRegs(c, x) && !x.abortSig && x.reg[RegList(instr)[k]] == c.mem[Nth(FirstOf(c, instr), k)]
    requires r !in RegList(instr) ==> x.reg[r] == c.reg[r]
    ensures LdmDone(c, BaseWritten(x, instr, NewBase(c.reg[Rn(instr)], instr)), instr, k, r)
  {
    hide BitAt, Rn, RegList, FirstOf, NewBase, Nth;
  }

  lemma KthMapped(m: Memory, w: nat, n: nat, k: nat)
    requires Mapped(m, w, n) && k < n
    ensures Nth(w, k) in m
  {
    hide Nth;
  }

  lemma FirstAt(c: Core, instr: Bits)
    requires |RegList(instr)| <= 16
    ensures FirstOf(c, instr) == WordNo(Start(c.reg[Rn(instr)], instr))
  {
    StartWord(c.reg[Rn(instr)], instr);
    hide RegList, FirstWord, WordNo, Start, Rn;
  }

  lemma TransferredLoad(c: Core, pins: Pins, instr: Bits)
    requires IsLoad(instr) && !Caret(instr)
    ensures var base := c.reg[Rn(instr)];
            Transferred(c, pins, instr) == Loaded(c, pins, instr, Start(base, instr), NewBase(base, instr))
  {
    hide Rn, Start, NewBase, Loaded, IsLoad, Caret;
  }

  lemma ListAscending(instr: Bits)
    ensures Ascending(RegList(instr))
  {
    ListMeaning(instr, 0);
    hide ListFrom;
  }

  lemma OnlyRegsAborted(c: Core, x: Core)
    requires OnlyRegs(c, x)
    ensures x.aborted == c.aborted
  {}

  /** LDM of a list without r15. */
  lemma LdmMeaning(c: Core, pins: Pins, instr: Bits, k: nat, r: RegNo)
    requires IsLoad(instr) && !Caret(instr) && !BitAt(instr, 15) && k < |RegList(instr)| <= 16 && !c.aborted
    requires Mapped(c.mem, FirstOf(c, instr), |RegList(instr)|)
    ensures LdmDone(c, Transferred(c, pins, instr), instr, k, r)
  {
    hide *;
    var base := c.reg[Rn(instr)];
    var start := Start(base, instr);
    var x := LoadAll(c, RegList(instr), start);
    ListAscending(instr);
    FirstAt(c, instr);
    LoadAllEffect(c, RegList(instr), start, k, r);
    OnlyRegsAborted(c, x);
    KthMapped(c.mem, FirstOf(c, instr), |RegList(instr)|, k);
    TransferredLoad(c, pins, instr);
    LoadedIs(c, pins, instr, start, NewBase(base, instr));
    ThenBase(c, x, instr, k, r);
  }

  // ---------------------------------------------------------------------------------------------
  // Stores

  /** Nothing changes but the memory and the abort signal. */
  predicate OnlyMem(c: Core, d: Core) { d == c.(mem := d.mem, abortSig := d.abortSig) }

  lemma StoreOneEffect(c: Core, r: RegNo, a: Word)
    requires !c.aborted && Nth(WordNo(a), 0) in c.mem
    ensures StoreOne(c, r, a) == c.(mem := c.mem[Nth(WordNo(a), 0) := c.reg[r]], abortSig := false)
  {
    NextWord(a);
    NthZero(WordNo(a), 0);
    hide WordNo, Nth;
  }

  lemma MappedStill(m: Memory, n: nat, x: Word, w: nat, len: nat)
    requires Mapped(m, w, len)
    ensures Mapped(m[n := x], w, len)
  {}

  lemma {:induction false} StoreAllFrame(c: Core, regs: seq<RegNo>, a: Word)
    requires !c.aborted && Mapped(c.mem, WordNo(a), |regs|)
    ensures var d := StoreAll(c, regs, a); OnlyMem(c, d) && (regs != [] ==> !d.abortSig) && d.mem.Keys == c.mem.Keys
    decreases |regs|
  {
    hide StoreOne, WordNo, Plus, Nth;
    if regs != [] {
      StoreStep(c, regs, a);
      StoreAllFrame(StoreOne(c, regs[0], a), regs[1..], Plus(a, Word(4)));
    }
  }

  lemma StoreStep(c: Core, regs: seq<RegNo>, a: Word)
    requires !c.aborted && Mapped(c.mem, WordNo(a), |regs|) && regs != []
    ensures var d := StoreOne(c, regs[0], a);
            && d == c.(mem := c.mem[Nth(WordNo(a), 0) := c.reg[regs[0]]], abortSig := false)
            && d.mem.Keys == c.mem.Keys && WordNo(Plus(a, Word(4))) == Nth(WordNo(a), 1)
            && Mapped(d.mem, WordNo(Plus(a, Word(4))), |regs| - 1)
            && StoreAll(c, regs, a) == StoreAll(d, regs[1..], Plus(a, Word(4)))
  {
    hide StoreOne, WordNo, Plus, Nth;
    MappedRest(c.mem, WordNo(a), |regs|);
    StoreOneEffect(c, regs[0], a);
    MappedStill(c.mem, Nth(WordNo(a), 0), c.reg[regs[0]], Nth(WordNo(a), 1), |regs| - 1);
    NextWord(a);
  }

  /** n is none of the first k words from w. */
  ghost predicate Outside(n: nat, w: nat, k: nat)
  {
    forall j: nat :: j < k ==> n != Nth(w, j)
  }

  lemma OutsideRest(n: nat, w: nat, k: nat)
    requires k > 0 && Outside(n, w, k)
    ensures n != Nth(w, 0) && Outside(n, Nth(w, 1), k - 1)
  {
    forall j: nat | j < k - 1 ensures n != Nth(Nth(w, 1), j) { NthNext(w, j); }
  }

  lemma FirstOutside(w: nat, k: nat)
    requires 0 < k <= WORDS
    ensures Outside(Nth(w, 0), Nth(w, 1), k - 1)
  {
    forall j: nat | j < k - 1 ensures Nth(w, 0) != Nth(Nth(w, 1), j) {
      NthNext(w, j);
      if Nth(w, 0) == Nth(w, j + 1) { NthDistinct(w, 0, j + 1); }
    }
  }

  /** A word outside the range does not change. */
  lemma {:induction false} StoreAllOther(c: Core, regs: seq<RegNo>, a: Word, n: nat)
    requires !c.aborted && Mapped(c.mem, WordNo(a), |regs|) && n in c.mem && Outside(n, WordNo(a), |regs|)
    ensures var d := StoreAll(c, regs, a); n in d.mem && d.mem[n] == c.mem[n]
    decreases |regs|
  {
    hide StoreOne, WordNo, Plus, Nth;
    if regs != [] {
      StoreStep(c, regs, a);
      OutsideRest(n, WordNo(a), |regs|);
      StoreAllOther(StoreOne(c, regs[0], a), regs[1..], Plus(a, Word(4)), n);
    }
  }

  /** Word number w + k receives register regs[k]. */
  lemma {:induction false} StoreAllKth(c: Core, regs: seq<RegNo>, a: Word, k: nat)
    requires !c.aborted && Mapped(c.mem, WordNo(a), |regs|) && k < |regs| <= WORDS
    ensures var d := StoreAll(c, regs, a); Nth(WordNo(a), k) in d.mem && d.mem[Nth(WordNo(a), k)] == c.reg[regs[k]]
    decreases |regs|
  {
    hide StoreOne, WordNo, Plus, Nth;
    StoreStep(c, regs, a);
    var d, b := StoreOne(c, regs[0], a), Plus(a, Word(4));
    if k == 0 {
      FirstOutside(WordNo(a), |regs|);
      StoreAllOther(d, regs[1..], b, Nth(WordNo(a), 0));
    } else {
      StoreAllKth(d, regs[1..], b, k - 1);
      NthNext(WordNo(a), k - 1);
    }
  }

  /** The k-th word holds the k-th register of the list (the base as it was before the instruction), the
      base is written back, word n is unchanged if it is not in the block, and so is everything else. */
  ghost predicate StmDone(c: Core, d: Core, instr: Bits, k: nat, n: nat)
    requires k < |RegList(instr)| <= 16
  {
    var first := FirstOf(c, instr);
    && d == BaseWritten(if c.t then c else BusUsed(c), instr, NewBase(c.reg[Rn(instr)], instr)).(mem := d.mem, abortSig := false)
    && d.mem.Keys == c.mem.Keys
    && Nth(first, k) in d.mem && d.mem[Nth(first, k)] == c.reg[RegList(instr)[k]]
    && (n in c.mem && Outside(n, first, |RegList(instr)|) ==> d.mem[n] == c.mem[n])
  }

  /** STM. */
  lemma StmMeaning(c: Core, pins: Pins, instr: Bits, k: nat, n: nat)
    requires !IsLoad(instr) && !Caret(instr) && k < |RegList(instr)| <= 16 && !c.aborted
    requires Mapped(c.mem, FirstOf(c, instr), |RegList(instr)|)
    ensures StmDone(c, Transferred(c, pins, instr), instr, k, n)
  {
    hide Rn, WordNo, RegList, FirstWord, Start, NewBase, Nth, Stored, BaseWritten, BusUsed, BitAt, SStored, SLoaded, Loaded;
    var base := c.reg[Rn(instr)];
    StartWord(base, instr);
    var e, start := if c.t then c else BusUsed(c), Start(base, instr);
    BusUsedRest(c);
    StoreAllKth(e, RegList(instr), start, k);
    if n in c.mem && Outside(n, FirstOf(c, instr), |RegList(instr)|) {
      StoreAllOther(e, RegList(instr), start, n);
    }
    StoredIs(c, pins, instr, start, NewBase(base, instr));
  }

  lemma StoredIs(c: Core, pins: Pins, instr: Bits, start: Word, wb: Word)
    requires !c.aborted && RegList(instr) != [] && Mapped(c.mem, WordNo(start), |RegList(instr)|)
    ensures var e := if c.t then c else BusUsed(c);
            var m := StoreAll(e, RegList(instr), start).mem;
            && Stored(c, pins, instr, start, wb) == BaseWritten(e, instr, wb).(mem := m, abortSig := false)
            && m.Keys == c.mem.Keys
  {
    hide WordNo, RegList, Entered, BaseReg, StoreAll;
    var e := if c.t then c else BusUsed(c);
    StoreAllFrame(e, RegList(instr), start);
  }

  lemma BusUsedRest(c: Core)
    ensures BusUsed(c) == c.(nextInstr := BusUsed(c).nextInstr)
  {}
}
