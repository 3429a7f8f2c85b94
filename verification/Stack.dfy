/** Pushing with STMDB Rb!,list and popping with LDMIA Rb!,list: a pop gives back what its push saved, to
    any depth of nesting, and what an aborted block transfer leaves behind. */
module Stack {
  import opened Words
  import opened State
  import opened Alu
  import opened DataPath
  import opened Exceptions
  import opened Block
  import opened Transfer

  /** STMDB Rb!,list and LDMIA Rb!,list with the same base and list, which holds neither Rb nor r15. */
  predicate PushPop(push: Bits, pop: Bits)
  {
    && !IsLoad(push) && !Caret(push) && Before(push) && !Up(push) && Writeback(push)
    && IsLoad(pop) && !Caret(pop) && !Before(pop) && Up(pop) && Writeback(pop)
    && Rn(push) == Rn(pop) && RegList(push) == RegList(pop)
    && 0 < |RegList(pop)| <= 16 && Rn(pop) !in RegList(pop) && !BitAt(pop, 15)
  }

  /** The new base is the start of the block, and popping takes it back. */
  lemma BaseAgain(base: Word, push: Bits, pop: Bits)
    requires PushPop(push, pop)
    ensures NewBase(base, push) == Start(base, push)
    ensures NewBase(NewBase(base, push), pop) == base
    ensures Start(NewBase(base, push), pop) == NewBase(base, push)
  {
    hide Rn, RegList, Plus, Minus, Num, IsLoad, Caret;
    var low := Minus(base, ByteCount(push));
    assert ByteCount(push) == ByteCount(pop);
    NumMinus(base, ByteCount(push));
    NumPlus(low, ByteCount(pop));
    NumLimit(base);
    NumByteCount(pop);
    WordEqual(Plus(low, ByteCount(pop)), base);
  }

  /** The words of the block hold in e what they hold in d. */
  ghost predicate SameWords(d: Memory, e: Memory, w: nat, n: nat)
  {
    forall k: nat :: k < n ==> Nth(w, k) in d && Nth(w, k) in e && d[Nth(w, k)] == e[Nth(w, k)]
  }

  /** Push, anything that leaves the saved words and the base register alone, pop. */
  lemma RoundTrip(c: Core, e: Core, pins: Pins, push: Bits, pop: Bits, k: nat, r: RegNo)
    requires PushPop(push, pop) && !c.aborted && !e.aborted && k < |RegList(pop)|
    requires Mapped(c.mem, FirstOf(c, push), |RegList(pop)|)
    requires var d := Transferred(c, pins, push);
             e.reg[Rn(pop)] == d.reg[Rn(pop)] && SameWords(d.mem, e.mem, FirstOf(c, push), |RegList(pop)|)
    ensures var f := Transferred(e, pins, pop);
            && f.reg[RegList(pop)[k]] == c.reg[RegList(pop)[k]] && f.reg[Rn(pop)] == c.reg[Rn(pop)]
            && (r !in RegList(pop) && r != Rn(pop) ==> f.reg[r] == e.reg[r]) && OnlyRegs(e, f)
  {
    hide FirstWord, Transferred, RegList, Rn, WordNo, NewBase, Start, IsLoad, Caret, Before, Up, BitAt, ByteCount, Plus, Minus, Nth;
    var base := c.reg[Rn(pop)];
    StmMeaning(c, pins, push, k, 0);
    BaseAgain(base, push, pop);
    StartWord(base, push);
    StartWord(NewBase(base, push), pop);
    assert FirstOf(e, pop) == FirstOf(c, push);
    LdmMeaning(e, pins, pop, k, r);
  }

  // ---------------------------------------------------------------------------------------------
  // Nesting

  /** A program on a stack: it writes registers and words, and calls frames that save registers first and
      restore them last. */
  datatype Item =
    | Set(r: RegNo, w: Word)
    | Poke(n: nat, w: Word)
    | Frame(push: Bits, pop: Bits, body: seq<Item>)

  function Run(c: Core, pins: Pins, body: seq<Item>): Core
    decreases body, 0
  {
    if body == [] then c
    else
      match body[0]
      case Set(r, w) => Run(c.(reg := c.reg[r := w]), pins, body[1..])
      case Poke(n, w) => Run(c.(mem := c.mem[n := w]), pins, body[1..])
      case Frame(push, pop, inner) => Run(Framed(c, pins, push, pop, inner), pins, body[1..])
  }

  function Framed(c: Core, pins: Pins, push: Bits, pop: Bits, body: seq<Item>): Core
    decreases body, 1
  {
    Transferred(Run(Transferred(c, pins, push), pins, body), pins, pop)
  }

  /** The stack discipline, for base register rb and a stack pointer at word number `sp`: the program does
      not write the base register or r15, writes only words that are mapped and not between `sp` and `top`,
      and its frames stay in mapped memory. */
  predicate Disciplined(body: seq<Item>, rb: RegNo, sp: nat, top: nat, mapped: set<nat>)
    decreases body
  {
    body == [] ||
    ((match body[0]
      case Set(r, _) => r != rb && r != 15
      case Poke(n, _) => n in mapped && !(sp <= n < top)
      case Frame(push, pop, inner) =>
        var n := |RegList(pop)|;
        && PushPop(push, pop) && Rn(pop) == rb && n <= sp
        && (forall w :: sp - n <= w < sp ==> w in mapped)
        && Disciplined(inner, rb, sp - n, top, mapped))
     && Disciplined(body[1..], rb, sp, top, mapped))
  }

  /** What a disciplined program keeps: the base register, the words from `sp` to `top`, and the mapping. */
  ghost predicate Kept(c: Core, d: Core, rb: RegNo, sp: nat, top: nat)
  {
    && d.reg[rb] == c.reg[rb] && d.mem.Keys == c.mem.Keys && !d.aborted
    && (forall n :: sp <= n < top && n in c.mem ==> d.mem[n] == c.mem[n])
  }

  lemma KeptAgain(c: Core, d: Core, e: Core, rb: RegNo, sp: nat, top: nat)
    requires Kept(c, d, rb, sp, top) && Kept(d, e, rb, sp, top)
    ensures Kept(c, e, rb, sp, top)
  {}

  /** A disciplined program keeps the stack above it. */
  lemma {:induction false} RunKeeps(c: Core, pins: Pins, body: seq<Item>, rb: RegNo, sp: nat, top: nat)
    requires Disciplined(body, rb, sp, top, c.mem.Keys) && WordNo(c.reg[rb]) == sp && sp <= top <= WORDS && !c.aborted
    ensures Kept(c, Run(c, pins, body), rb, sp, top)
    decreases body, 0
  {
    hide WordNo, RegList, Rn, PushPop, Framed;
    if body != [] {
      var d :=
        match body[0]
        case Set(r, w) => c.(reg := c.reg[r := w])
        case Poke(n, w) => c.(mem := c.mem[n := w])
        case Frame(push, pop, inner) => Framed(c, pins, push, pop, inner);
      if body[0].Frame? {
        FrameRestores(c, pins, body[0].push, body[0].pop, body[0].body, rb, sp, top, 0, 0);
      }
      assert Kept(c, d, rb, sp, top);
      RunKeeps(d, pins, body[1..], rb, sp, top);
      KeptAgain(c, d, Run(d, pins, body[1..]), rb, sp, top);
    }
  }

  /** The k-th register of the list is the same in both states. */
  predicate SameKth(c: Core, d: Core, pop: Bits, k: nat)
  {
    k < |RegList(pop)| ==> d.reg[RegList(pop)[k]] == c.reg[RegList(pop)[k]]
  }

  lemma NthPlain(w: nat, k: nat)
    requires w + k < WORDS
    ensures Nth(w, k) == w + k
  {}

  /** A push in word numbers: the block ends below the stack pointer. */
  lemma PushDone(c: Core, pins: Pins, push: Bits, pop: Bits, sp: nat, m: nat)
    requires PushPop(push, pop) && |RegList(pop)| <= sp && WordNo(c.reg[Rn(pop)]) == sp && !c.aborted
    requires forall w :: sp - |RegList(pop)| <= w < sp ==> w in c.mem
    ensures var d := Transferred(c, pins, push);
            var n := |RegList(pop)|;
            && FirstOf(c, push) == sp - n && Mapped(c.mem, sp - n, n) && sp <= WORDS && !d.aborted && d.mem.Keys == c.mem.Keys
            && WordNo(d.reg[Rn(pop)]) == sp - n
            && (m in c.mem && !(sp - n <= m < sp) ==> d.mem[m] == c.mem[m])
  {
    hide Transferred, RegList, Rn, WordNo, NewBase, Start, IsLoad, Caret, Before, Up, BitAt, ByteCount, Plus, Minus, Nth, BusUsed;
    var n, base := |RegList(pop)|, c.reg[Rn(pop)];
    NextWord(base);
    FirstOfPush(c, push, pop, sp);
    var low := sp - n;
    forall k: nat | k < n ensures Nth(low, k) in c.mem && low <= Nth(low, k) < sp { NthPlain(low, k); }
    BaseAgain(base, push, pop);
    StartWord(base, push);
    StmMeaning(c, pins, push, 0, m);
    BusUsedRest(c);
    if m in c.mem && !(low <= m < sp) { assert Outside(m, low, n); }
  }

  lemma BelowWord(w: nat, n: nat)
    requires n <= w < WORDS
    ensures Nth(w + WORDS - n, 0) == w - n
  {}

  lemma PushFirst(b: nat, n: nat, push: Bits)
    requires Before(push) && !Up(push) && n <= 16 && n <= b < WORDS
    ensures FirstWord(b, n, push) == b - n
  {
    hide Before, Up, Nth;
    BelowWord(b, n);
  }

  lemma PushParts(push: Bits, pop: Bits)
    requires PushPop(push, pop)
    ensures Before(push) && !Up(push) && RegList(push) == RegList(pop) && Rn(push) == Rn(pop) && |RegList(pop)| <= 16
  {}

  lemma FirstIs(c: Core, instr: Bits)
    requires |RegList(instr)| <= 16
    ensures FirstOf(c, instr) == FirstWord(WordNo(c.reg[Rn(instr)]), |RegList(instr)|, instr)
  {}

  lemma FirstOfPush(c: Core, push: Bits, pop: Bits, sp: nat)
    requires PushPop(push, pop) && |RegList(pop)| <= sp && sp == WordNo(c.reg[Rn(pop)]) && sp < WORDS
    ensures |RegList(push)| <= 16 && FirstOf(c, push) == sp - |RegList(pop)|
  {
    PushParts(push, pop);
    hide *;
    FirstIs(c, push);
    PushFirst(sp, |RegList(pop)|, push);
  }

  /** Whatever a frame does between its push and its pop, the registers it saved and the base register are
      restored. */
  lemma {:induction false} FrameRestores(
      c: Core, pins: Pins, push: Bits, pop: Bits, body: seq<Item>, rb: RegNo, sp: nat, top: nat, k: nat, r: RegNo)
    requires PushPop(push, pop) && Rn(pop) == rb && |RegList(pop)| <= sp && WordNo(c.reg[rb]) == sp
    requires forall w :: sp - |RegList(pop)| <= w < sp ==> w in c.mem
    requires Disciplined(body, rb, sp - |RegList(pop)|, top, c.mem.Keys) && sp <= top <= WORDS && !c.aborted
    ensures var d := Framed(c, pins, push, pop, body);
            && Kept(c, d, rb, sp, top)
            && SameKth(c, d, pop, k)
    decreases body, 1
  {
    hide Transferred, RegList, Rn, WordNo, PushPop, FirstOf, Nth, Disciplined;
    var d, n := Transferred(c, pins, push), |RegList(pop)|;
    PushDone(c, pins, push, pop, sp, 0);
    var e, low := Run(d, pins, body), sp - n;
    RunKeeps(d, pins, body, rb, low, top);
    forall j: nat | j < n ensures Nth(low, j) in d.mem && Nth(low, j) in e.mem && d.mem[Nth(low, j)] == e.mem[Nth(low, j)] {
      NthPlain(low, j);
    }
    assert n > 0 by { PopSome(push, pop); }
    RoundTrip(c, e, pins, push, pop, if k < n then k else 0, r);
    forall m | sp <= m < top && m in c.mem ensures e.mem[m] == c.mem[m] {
      PushDone(c, pins, push, pop, sp, m);
    }
  }

  lemma PopSome(push: Bits, pop: Bits)
    requires PushPop(push, pop)
    ensures |RegList(pop)| > 0
  {}

  // ---------------------------------------------------------------------------------------------
  // Aborts

  lemma LoadOneParts(c: Core, r: RegNo, a: Word)
    requires !c.aborted
    ensures var d := LoadOne(c, r, a);
            && d.aborted == (WordNo(a) !in c.mem) && d.mem == c.mem
            && (forall q: RegNo :: q != r ==> d.reg[q] == c.reg[q])
  {
    hide WordNo;
  }

  /** A multiple load aborts exactly when some word of the block is not mapped. */
  lemma {:induction false} LoadAborts(c: Core, regs: seq<RegNo>, a: Word)
    requires !c.aborted
    ensures LoadAll(c, regs, a).aborted <==> !Mapped(c.mem, WordNo(a), |regs|)
    ensures LoadAll(c, regs, a).mem == c.mem
    decreases |regs|
  {
    hide WordNo, Plus, Nth, LoadOne;
    if regs != [] {
      LoadOneParts(c, regs[0], a);
      BlockParts(c.mem, a, |regs|);
      if WordNo(a) in c.mem {
        LoadAborts(LoadOne(c, regs[0], a), regs[1..], Plus(a, Word(4)));
      }
    }
  }

  lemma BlockParts(m: Memory, a: Word, n: nat)
    requires n > 0
    ensures Mapped(m, WordNo(a), n) <==> WordNo(a) in m && Mapped(m, WordNo(Plus(a, Word(4))), n - 1)
  {
    hide WordNo, Nth, Plus;
    var w := WordNo(a);
    NextWord(a);
    NthZero(w, 0);
    if Mapped(m, w, n) { MappedRest(m, w, n); }
    if w in m && Mapped(m, Nth(w, 1), n - 1) {
      forall k: nat | k < n ensures Nth(w, k) in m {
        if k > 0 { NthNext(w, k - 1); }
      }
    }
  }

  lemma {:induction false} LoadAllKeeps(c: Core, regs: seq<RegNo>, a: Word, r: RegNo)
    requires !c.aborted && r !in regs
    ensures LoadAll(c, regs, a).reg[r] == c.reg[r]
    decreases |regs|
  {
    hide Plus, WordNo, LoadOne;
    if regs != [] {
      LoadOneParts(c, regs[0], a);
      if WordNo(a) in c.mem { LoadAllKeeps(LoadOne(c, regs[0], a), regs[1..], Plus(a, Word(4)), r); }
    }
  }

  /** An LDM that meets an unmapped word takes the data abort with its base register, unless that is in the
      list, and the memory as they were: it can be run again. */
  lemma LdmAborts(c: Core, pins: Pins, instr: Bits)
    requires IsLoad(instr) && !Caret(instr) && RegList(instr) != [] && |RegList(instr)| <= 16 && !c.aborted
    requires !Mapped(c.mem, FirstOf(c, instr), |RegList(instr)|)
    ensures var d := LoadAll(c, RegList(instr), Start(c.reg[Rn(instr)], instr));
            && Transferred(c, pins, instr) == Entered(d, pins, DataAbort) && d.mem == c.mem
            && (Rn(instr) !in RegList(instr) ==> d.reg[Rn(instr)] == c.reg[Rn(instr)])
  {
    hide *;
    var base := c.reg[Rn(instr)];
    FirstAt(c, instr);
    LoadAborts(c, RegList(instr), Start(base, instr));
    TransferredLoad(c, pins, instr);
    LoadedAborts(c, pins, instr, Start(base, instr), NewBase(base, instr));
    if Rn(instr) !in RegList(instr) { LoadAllKeeps(c, RegList(instr), Start(base, instr), Rn(instr)); }
  }

  lemma LoadedAborts(c: Core, pins: Pins, instr: Bits, start: Word, wb: Word)
    requires LoadAll(c, RegList(instr), start).aborted
    ensures Loaded(c, pins, instr, start, wb) == Entered(LoadAll(c, RegList(instr), start), pins, DataAbort)
  {
    hide LoadAll, RegList, BitAt, BaseWritten, Entered, R15Branched;
  }

  lemma StoreOneParts(c: Core, r: RegNo, a: Word)
    requires !c.aborted
    ensures var d := StoreOne(c, r, a);
            && (d.aborted <==> WordNo(a) !in c.mem) && (d.abortSig <==> d.aborted)
            && d.mem.Keys == c.mem.Keys && d.reg == c.reg
  {
    hide WordNo;
  }

  lemma {:induction false} StoreAborts(c: Core, regs: seq<RegNo>, a: Word)
    requires !c.aborted && !Mapped(c.mem, WordNo(a), |regs|)
    ensures var d := StoreAll(c, regs, a); d.aborted && d.abortSig && d.reg == c.reg
    decreases |regs|
  {
    hide WordNo, Plus, Nth, StoreOne;
    if regs != [] {
      StoreOneParts(c, regs[0], a);
      BlockParts(c.mem, a, |regs|);
      BlockParts(StoreOne(c, regs[0], a).mem, a, |regs|);
      SameMapped(c.mem, StoreOne(c, regs[0], a).mem, WordNo(a), |regs|);
      if WordNo(a) in c.mem {
        StoreAborts(StoreOne(c, regs[0], a), regs[1..], Plus(a, Word(4)));
      }
    }
  }

  lemma SameMapped(m: Memory, o: Memory, w: nat, n: nat)
    requires m.Keys == o.Keys
    ensures Mapped(m, w, n) <==> Mapped(o, w, n)
  {
    assert forall x :: x in m <==> x in o by { forall x ensures x in m <==> x in o { assert x in m.Keys <==> x in o.Keys; } }
  }

  /** An STM that meets an unmapped word takes the data abort; its base is written back only with late
      aborts. */
  lemma StmAborts(c: Core, pins: Pins, instr: Bits)
    requires !IsLoad(instr) && !Caret(instr) && RegList(instr) != [] && |RegList(instr)| <= 16 && !c.aborted
    requires !Mapped(c.mem, FirstOf(c, instr), |RegList(instr)|)
    ensures var base := c.reg[Rn(instr)];
            var d := StoreAll(if c.t then c else BusUsed(c), RegList(instr), Start(base, instr));
            && Transferred(c, pins, instr)
            == Entered(if pins.lateabt then BaseWritten(d, instr, NewBase(base, instr)) else d, pins, DataAbort)
            && d.reg == c.reg
  {
    hide Rn, WordNo, RegList, FirstWord, Start, NewBase, Entered, BaseReg;
    StartWord(c.reg[Rn(instr)], instr);
    StoreAborts(if c.t then c else BusUsed(c), RegList(instr), Start(c.reg[Rn(instr)], instr));
  }
}
