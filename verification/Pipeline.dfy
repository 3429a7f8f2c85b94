/** The main loop of ARMul_Emulate32 (arch_arm/common/armemu32.c): a three-slot prefetching pipeline, and the machine
    without a pipeline that it refines. Debugger stops are not part of it. */
module Pipeline {
  import opened Words
  import opened State
  import opened Support
  import opened Alu
  import opened DataPath
  import opened Exceptions
  import opened Block

  // ---------------------------------------------------------------------------------------------
  // ARMul_ReLoadInstr

  /** The word at an address, or the abort word. */
  function CodeWord(m: Memory, a: Word, t: bool): Bits { if WordNo(a) in m then m[WordNo(a)].bits else AbortWord(t).bits }

  /** The instruction at an address: a word, or in Thumb state the halfword there and the next one. */
  function Instr(m: Memory, big: bool, a: Word, t: bool): Bits
  {
    if t && a.bits & 2 != 0 then
      var lo, hi := CodeWord(m, a, t), CodeWord(m, Plus(a, Word(4)), t);
      if big then (lo << 16) | (hi >> 16) else ((hi & 0xFFFF) << 16) | (lo >> 16)
    else CodeWord(m, a, t)
  }

  // ---------------------------------------------------------------------------------------------
  // The pipeline

  /** The local variables of the loop, with the machine. */
  datatype Pipe = Pipe(c: Core, pc: Word, decoded: Bits, loaded: Bits)

  /** NextInstr of PRIMEPIPE or more: the program counter has been changed. */
  predicate Primed(n: nat) { n >= PRIMEPIPE }

  /** Bit 1 of NextInstr: r15 has been advanced already. */
  predicate PcIncremented(n: nat) { (n / 2) % 2 == 1 }

  /** The switch on NextInstr: what is fetched, and the instruction to execute. */
  function Fetch(p: Pipe, big: bool): (Pipe, Bits)
  {
    var c, t := p.c, p.c.t;
    if Primed(c.nextInstr) then
      var pc := c.reg[15];
      (Pipe(Restarted(c), pc, Instr(c.mem, big, Plus(pc, Isize(t)), t), Instr(c.mem, big, Ahead(pc, t), t)),
       Instr(c.mem, big, pc, t))
    else
      var pc := Plus(p.pc, Isize(t));
      (Pipe(Advance(c), pc, p.loaded, Instr(c.mem, big, Ahead(pc, t), t)), p.decoded)
  }

  /** The machine after a refill. Each fetch clears the abort signal. */
  function Restarted(c: Core): Core
  {
    hide *;
    c.(reg := c.reg[15 := Ahead(c.reg[15], c.t)], abortSig := false, aborted := false, nextInstr := 0)
  }

  /** The machine after a fetch in sequence. */
  function Advance(c: Core): Core
  {
    hide *;
    if PcIncremented(c.nextInstr) then c.(abortSig := false, nextInstr := 0)
    else c.(reg := c.reg[15 := Plus(c.reg[15], Isize(c.t))], abortSig := false, nextInstr := 0)
  }

  /** What executes an instruction at an address; and whether instead an exception is taken first. */
  type Exec = (Core, Bits, Word) -> Core

  datatype Tick = Go | Take(e: Exception)

  function Acted(exec: Exec, pins: Pins, c: Core, w: Bits, pc: Word, tick: Tick): Core
  {
    match tick
    case Go => exec(c, w, pc)
    case Take(e) => Entered(c, pins, e)
  }

  datatype Executing = Executing(pc: Word, w: Bits)

  function Step(exec: Exec, pins: Pins, p: Pipe, tick: Tick): (Pipe, Executing)
  {
    var (q, w) := Fetch(p, pins.bigend);
    (q.(c := Acted(exec, pins, q.c, w, q.pc, tick)), Executing(q.pc, w))
  }

  // ---------------------------------------------------------------------------------------------
  // The machine without a pipeline

  /** The machine, and the address of the next instruction. */
  datatype Plain = Plain(c: Core, next: Word)

  /** r15 reads two instructions ahead while the instruction at pc is executed. */
  function Ready(c: Core, pc: Word): Core
  {
    hide *;
    c.(reg := c.reg[15 := Ahead(pc, c.t)], abortSig := false, aborted := false, nextInstr := 0)
  }

  function PlainStep(exec: Exec, pins: Pins, q: Plain, tick: Tick): (Plain, Executing)
  {
    var pc := q.next;
    var w := Instr(q.c.mem, pins.bigend, pc, q.c.t);
    var d := Acted(exec, pins, Ready(q.c, pc), w, pc, tick);
    (Plain(d, if Primed(d.nextInstr) then d.reg[15] else Plus(pc, Isize(d.t))), Executing(pc, w))
  }

  // ---------------------------------------------------------------------------------------------
  // What the pipeline relies on

  /** After an instruction that ran in state c: unless it asked for a refill, T is as before and r15 has
      been advanced exactly if bit 1 of NextInstr says so; and no abort is pending. */
  predicate Proper(c: Core, d: Core)
  {
    && !d.aborted
    && (Primed(d.nextInstr) ||
        (d.t == c.t && d.reg[15] == if PcIncremented(d.nextInstr) then Plus(c.reg[15], Isize(c.t)) else c.reg[15]))
  }

  /** The two prefetched slots hold the same instructions in both memories. */
  predicate SameSlots(m: Memory, o: Memory, big: bool, pc: Word, t: bool)
  {
    && Instr(m, big, Plus(pc, Isize(t)), t) == Instr(o, big, Plus(pc, Isize(t)), t)
    && Instr(m, big, Ahead(pc, t), t) == Instr(o, big, Ahead(pc, t), t)
  }

  /** The machine while the instruction at q.next is executed, and after it. */
  function During(q: Plain): Core { Ready(q.c, q.next) }

  function After(exec: Exec, pins: Pins, q: Plain, tick: Tick): Core
  {
    Acted(exec, pins, During(q), Instr(q.c.mem, pins.bigend, q.next, q.c.t), q.next, tick)
  }

  /** The instruction at q.next does not store into a prefetched slot that will be used. */
  predicate NoHit(exec: Exec, pins: Pins, q: Plain, tick: Tick)
  {
    var d := After(exec, pins, q, tick);
    Primed(d.nextInstr) || SameSlots(q.c.mem, d.mem, pins.bigend, q.next, q.c.t)
  }

  /** It keeps r15, T and NextInstr in step, if it is executed. */
  predicate InStep(exec: Exec, pins: Pins, q: Plain, tick: Tick)
  {
    tick.Go? ==> Proper(During(q), After(exec, pins, q, tick))
  }

  // ---------------------------------------------------------------------------------------------
  // Exceptions refill the pipeline

  lemma SwitchedAborted(c: Core, mode: Word)
    ensures ModeSwitched(c, mode).aborted == c.aborted
  {
    SwitchedKeeps(c, c.mode, mode);
    hide Switched;
  }

  lemma SwitchedKeeps(c: Core, oldmode: Word, newmode: Word)
    ensures Switched(c, oldmode, newmode).aborted == c.aborted
  {
    hide Moved, ModeToBank;
    MovedKeeps(c.(bankNo := ModeToBank(newmode)), ModeToBank(oldmode), ModeToBank(newmode));
  }

  lemma MovedKeeps(c: Core, oldbank: BankNo, newbank: BankNo)
    ensures Moved(c, oldbank, newbank).aborted == c.aborted
  {
    hide Saved, Restored;
  }

  lemma AlteredAborted(c: Core, psr: Word, oldmode: Word)
    ensures R15Altered(FlagsFrom(c, psr), oldmode).aborted == c.aborted
  {
    hide BitAt, Masked, PackedR15, Is26Bit;
  }

  lemma SetCpsrAborted(c: Core, w: Word)
    ensures SetCpsr(c, w).aborted == c.aborted
  {
    var x := c.(cpsr := w);
    SwitchedAborted(x, Masked(w, 0x1F));
    AlteredAborted(ModeSwitched(x, Masked(w, 0x1F)), w, c.mode);
    hide ModeSwitched, FlagsFrom, R15Altered, Masked;
  }

  lemma PsrsAborted(c: Core, e: Exception)
    ensures PsrsChanged(c, e).aborted == c.aborted
  {
    hide SetCpsr, EntryCpsr, GetCpsr, EntryMode, ModeToBank, Masked;
    SetCpsrAborted(SpsrSet(c, EntryMode(e), GetCpsr(c)), EntryCpsr(c, e));
  }

  lemma VectoredPrimed(c: Core, lr: Word, pc: Word)
    ensures Primed(Vectored(c, lr, pc).nextInstr) && Vectored(c, lr, pc).aborted == c.aborted
  {
    RefilledPrimed(c.nextInstr);
    hide Refilled;
  }

  lemma RefilledPrimed(n: nat)
    ensures Primed(Refilled(n))
  {}

  lemma EnteredProper(c: Core, pins: Pins, e: Exception)
    ensures Primed(Entered(c, pins, e).nextInstr) && !Entered(c, pins, e).aborted
  {
    EnteredParts(c, pins, e);
    PsrsAborted(c.(aborted := false), e);
    VectoredPrimed(PsrsChanged(c.(aborted := false), e), Link(e, c.reg[15], c.t), Plus(Vector(e), VectorBase(pins)));
    hide Entered, Vectored, PsrsChanged, Primed, Link, Plus, Vector, VectorBase;
  }

  lemma AfterProper(exec: Exec, pins: Pins, q: Plain, tick: Tick)
    requires InStep(exec, pins, q, tick)
    ensures Proper(During(q), After(exec, pins, q, tick))
  {
    if tick.Take? { EnteredProper(During(q), pins, tick.e); }
    hide Entered, Primed, Isize, Plus, PcIncremented, Instr, During;
  }

  // ---------------------------------------------------------------------------------------------
  // The simulation

  /** The pipeline and the plain machine before an instruction: the latches hold the next two instructions
      and r15 is where NextInstr says. */
  predicate Related(p: Pipe, q: Plain, big: bool)
  {
    && p.c == q.c && !p.c.aborted
    && if Primed(p.c.nextInstr) then q.next == p.c.reg[15]
       else
         && q.next == Plus(p.pc, Isize(p.c.t))
         && p.c.reg[15] == (if PcIncremented(p.c.nextInstr) then Plus(Ahead(p.pc, p.c.t), Isize(p.c.t)) else Ahead(p.pc, p.c.t))
         && p.decoded == Instr(p.c.mem, big, q.next, p.c.t)
         && p.loaded == Instr(p.c.mem, big, Ahead(p.pc, p.c.t), p.c.t)
  }

  /** After the fetch, while the instruction is executed: r15 is two instructions ahead and the latches hold
      the two after it. */
  predicate Fetched(p: Pipe, w: Bits, q: Plain, big: bool)
  {
    && p.c == Ready(q.c, q.next) && p.pc == q.next && w == Instr(q.c.mem, big, q.next, q.c.t)
    && p.decoded == Instr(q.c.mem, big, Plus(q.next, Isize(q.c.t)), q.c.t)
    && p.loaded == Instr(q.c.mem, big, Ahead(q.next, q.c.t), q.c.t)
  }

  lemma AheadNext(pc: Word, t: bool)
    ensures Ahead(pc, t) == Plus(Plus(pc, Isize(t)), Isize(t))
    ensures Plus(Ahead(pc, t), Isize(t)) == Ahead(Plus(pc, Isize(t)), t)
  {
    hide Num, Plus;
    var n, m := Isize(t), if t then Word(4) else Word(8);
    SmallWords();
    NumLimit(pc);
    NumPlus(pc, n);
    NumPlus(Plus(pc, n), n);
    NumPlus(pc, m);
    NumPlus(Plus(pc, m), n);
    NumPlus(Plus(pc, n), m);
    WordEqual(Ahead(pc, t), Plus(Plus(pc, n), n));
    WordEqual(Plus(Ahead(pc, t), n), Ahead(Plus(pc, n), t));
  }

  lemma AdvanceIsReady(c: Core, pc: Word)
    requires !c.aborted
    ensures PcIncremented(c.nextInstr) && c.reg[15] == Ahead(pc, c.t) ==> Advance(c) == Ready(c, pc)
    ensures !PcIncremented(c.nextInstr) && Plus(c.reg[15], Isize(c.t)) == Ahead(pc, c.t) ==> Advance(c) == Ready(c, pc)
  {
    hide Plus, Isize, Ahead, PcIncremented;
  }

  lemma RestartIsReady(c: Core)
    ensures Restarted(c) == Ready(c, c.reg[15])
  {
    hide Ahead;
  }

  /** The fetch establishes it. */
  lemma FetchKeeps(p: Pipe, q: Plain, big: bool)
    requires Related(p, q, big)
    ensures var (f, w) := Fetch(p, big); Fetched(f, w, q, big)
  {
    hide Plus, Isize, Ahead, PcIncremented, Primed, Instr, Advance, Restarted, Ready;
    AheadNext(p.pc, p.c.t);
    if Primed(p.c.nextInstr) {
      RestartIsReady(p.c);
    } else {
      AdvanceIsReady(p.c, q.next);
    }
  }

  lemma ReadyIs(c: Core, pc: Word)
    ensures var d := Ready(c, pc);
            d.nextInstr == 0 && !d.aborted && !d.abortSig && d.t == c.t && d.reg[15] == Ahead(pc, c.t) && d.mem == c.mem
  {
    hide Ahead;
  }

  /** One step of the pipeline and of the plain machine: the same instruction at the same address, and the two
      are related again. */
  lemma StepsAgree(exec: Exec, pins: Pins, p: Pipe, q: Plain, tick: Tick)
    requires Related(p, q, pins.bigend) && InStep(exec, pins, q, tick) && NoHit(exec, pins, q, tick)
    ensures var (p1, x) := Step(exec, pins, p, tick);
            var (q1, y) := PlainStep(exec, pins, q, tick);
            x == y && Related(p1, q1, pins.bigend)
  {
    hide Plus, Isize, Ahead, PcIncremented, Primed, Instr, Ready, Acted, Fetch, InStep;
    FetchKeeps(p, q, pins.bigend);
    ReadyIs(q.c, q.next);
    AfterProper(exec, pins, q, tick);
  }

  // ---------------------------------------------------------------------------------------------
  // Every run

  function Run(exec: Exec, pins: Pins, p: Pipe, ticks: seq<Tick>): (Pipe, seq<Executing>)
    decreases |ticks|
  {
    if ticks == [] then (p, [])
    else
      var (p1, x) := Step(exec, pins, p, ticks[0]);
      var (p2, xs) := Run(exec, pins, p1, ticks[1..]);
      (p2, [x] + xs)
  }

  function PlainRun(exec: Exec, pins: Pins, q: Plain, ticks: seq<Tick>): (Plain, seq<Executing>)
    decreases |ticks|
  {
    if ticks == [] then (q, [])
    else
      var (q1, x) := PlainStep(exec, pins, q, ticks[0]);
      var (q2, xs) := PlainRun(exec, pins, q1, ticks[1..]);
      (q2, [x] + xs)
  }

  /** Each instruction of the plain run is in step, and none stores into a slot that the pipeline has already fetched. */
  predicate Disciplined(exec: Exec, pins: Pins, q: Plain, ticks: seq<Tick>)
    decreases |ticks|
  {
    || ticks == []
    || (InStep(exec, pins, q, ticks[0]) && NoHit(exec, pins, q, ticks[0])
        && Disciplined(exec, pins, PlainStep(exec, pins, q, ticks[0]).0, ticks[1..]))
  }

  /** The prefetching loop executes the same instructions at the same addresses as the machine without a
      pipeline, on every run with any interleaving of exceptions, and leaves the machine in the same state. */
  lemma {:induction false} RunsAgree(exec: Exec, pins: Pins, p: Pipe, q: Plain, ticks: seq<Tick>)
    requires Related(p, q, pins.bigend) && Disciplined(exec, pins, q, ticks)
    ensures Run(exec, pins, p, ticks).1 == PlainRun(exec, pins, q, ticks).1
    ensures Related(Run(exec, pins, p, ticks).0, PlainRun(exec, pins, q, ticks).0, pins.bigend)
    decreases |ticks|
  {
    hide Step, PlainStep, Related, NoHit, InStep;
    if ticks != [] {
      StepsAgree(exec, pins, p, q, ticks[0]);
      RunsAgree(exec, pins, Step(exec, pins, p, ticks[0]).0, PlainStep(exec, pins, q, ticks[0]).0, ticks[1..]);
    }
  }

  /** It starts so: after a reset, or any other write of r15, the pipeline is empty. */
  lemma PrimedRelated(c: Core, pc: Word, decoded: Bits, loaded: Bits, big: bool)
    requires Primed(c.nextInstr) && !c.aborted
    ensures Related(Pipe(c, pc, decoded, loaded), Plain(c, c.reg[15]), big)
  {}

  lemma SecondFetch(p: Pipe, d: Core, big: bool)
    requires !Primed(d.nextInstr)
    ensures var (f, w) := Fetch(p.(c := d), big); f.pc == Plus(p.pc, Isize(d.t)) && w == p.decoded
  {
    hide Plus, Isize, Ahead, Primed, Instr, Advance, Restarted;
  }

  /** The slot after the instruction at q.next, fetched before it, is what there is to fetch after it, in state d. */
  predicate SlotGood(q: Plain, d: Core, big: bool)
  {
    Instr(q.c.mem, big, Plus(q.next, Isize(q.c.t)), q.c.t) == Instr(d.mem, big, Plus(q.next, Isize(d.t)), d.t)
  }

  /** Where they part: after an instruction that does not refill the pipeline, the next one is the same exactly if its
      slot is still good. */
  lemma NextAgrees(exec: Exec, pins: Pins, p: Pipe, q: Plain, tick: Tick, next: Tick)
    requires Related(p, q, pins.bigend) && !Primed(After(exec, pins, q, tick).nextInstr)
    ensures var (x, y) := (Step(exec, pins, p, tick).0, PlainStep(exec, pins, q, tick).0);
            Step(exec, pins, x, next).1 == PlainStep(exec, pins, y, next).1 <==> SlotGood(q, After(exec, pins, q, tick), pins.bigend)
  {
    hide Plus, Isize, Ahead, PcIncremented, Primed, Instr, Ready, Acted, Fetch, Related;
    FetchKeeps(p, q, pins.bigend);
    var (f, w) := Fetch(p, pins.bigend);
    SecondFetch(f, After(exec, pins, q, tick), pins.bigend);
  }
}
