/** Block transfers in the pipeline: whatever their mode, registers and aborts, they leave r15 and NextInstr as the
    next fetch expects. */
module BlockPipeline {
  import opened Words
  import opened State
  import opened Support
  import opened DataPath
  import opened Exceptions
  import opened Block
  import opened Tables
  import opened Transfer
  import opened Pipeline

  /** The fetch state is as it was: T, NextInstr, and (if `r15`) the program counter. */
  predicate Untouched(c: Core, d: Core, r15: bool) { d.t == c.t && d.nextInstr == c.nextInstr && (r15 ==> d.reg[15] == c.reg[15]) }

  // ---------------------------------------------------------------------------------------------
  // Registers of the list

  lemma ShrTwelve(w: Bits)
    ensures Odd(Half(Half(Half(Shr4(Shr4(Shr4(w))))))) == BitAt(w, 15)
  {}

  lemma ThreeHalves(w: Bits)
    ensures HalfTimes(w, 3) == Half(Half(Half(w)))
  {}

  lemma BitFifteen(w: Bits)
    ensures Bit(w, 15) == BitAt(w, 15)
  {
    hide *;
    HalfTimesNext(w, 15);
    HalfFour(w);
    HalfFour(Shr4(w));
    HalfFour(Shr4(Shr4(w)));
    HalfTimesTwice(w, 4, 4);
    HalfTimesTwice(w, 8, 4);
    HalfTimesTwice(w, 12, 3);
    ThreeHalves(Shr4(Shr4(Shr4(w))));
    ShrTwelve(w);
  }

  lemma ListHasPc(w: Bits)
    ensures 15 in RegList(w) <==> BitAt(w, 15)
  {
    ListMeaning(w, 0);
    BitFifteen(w);
    hide Bit, BitAt;
  }

  lemma AccessUntouched(c: Core, a: Word, x: Word)
    ensures Untouched(c, ReadDone(c, a), true) && Untouched(c, WriteDone(c, a, x), true)
  {
    hide WordNo;
  }

  lemma LoadOneUntouched(c: Core, r: RegNo, a: Word)
    ensures Untouched(c, LoadOne(c, r, a), r != 15)
  {
    hide ReadDone, WordAt;
    AccessUntouched(c, a, Word(0));
  }

  lemma {:induction false} LoadAllUntouched(c: Core, regs: seq<RegNo>, a: Word)
    ensures Untouched(c, LoadAll(c, regs, a), 15 !in regs)
    decreases |regs|
  {
    hide LoadOne, Plus;
    if regs != [] {
      var d := LoadOne(c, regs[0], a);
      LoadOneUntouched(c, regs[0], a);
      LoadAllUntouched(d, regs[1..], Plus(a, Word(4)));
    }
  }

  lemma StoreOneUntouched(c: Core, r: RegNo, a: Word)
    ensures Untouched(c, StoreOne(c, r, a), true)
  {
    hide WriteDone;
    AccessUntouched(c, a, c.reg[r]);
  }

  lemma {:induction false} StoreAllUntouched(c: Core, regs: seq<RegNo>, a: Word)
    ensures Untouched(c, StoreAll(c, regs, a), true)
    decreases |regs|
  {
    hide StoreOne, Plus;
    if regs != [] {
      var d := StoreOne(c, regs[0], a);
      StoreOneUntouched(c, regs[0], a);
      StoreAllUntouched(d, regs[1..], Plus(a, Word(4)));
    }
  }

  lemma MovedUntouched(c: Core, oldbank: BankNo, newbank: BankNo)
    ensures Untouched(c, Moved(c, oldbank, newbank), true) && Moved(c, oldbank, newbank).aborted == c.aborted
  {
    hide Saved;
    var m := Saved(c.bank, c.reg, oldbank, newbank);
    assert Restored(c.reg, m, oldbank, newbank)[15] == c.reg[15];
  }

  lemma SwitchedUntouched(c: Core, oldmode: Word, newmode: Word)
    ensures Untouched(c, Switched(c, oldmode, newmode), true) && Switched(c, oldmode, newmode).aborted == c.aborted
  {
    hide Moved, ModeToBank;
    MovedUntouched(c.(bankNo := ModeToBank(newmode)), ModeToBank(oldmode), ModeToBank(newmode));
  }

  lemma BanksUntouched(c: Core)
    ensures Untouched(c, UserRegisters(c), true) && UserRegisters(c).aborted == c.aborted
    ensures Untouched(c, OwnRegisters(c), true) && OwnRegisters(c).aborted == c.aborted
  {
    hide Switched, IsUser;
    SwitchedUntouched(c, c.mode, USER26MODE);
    SwitchedUntouched(c, USER26MODE, c.mode);
  }

  lemma BaseUntouched(c: Core, w: Bits, wb: Word)
    ensures Untouched(c, BaseWritten(c, w, wb), true) && BaseWritten(c, w, wb).aborted == c.aborted
  {
    hide Rn, BitAt;
  }

  // ---------------------------------------------------------------------------------------------
  // Ready for the next fetch

  /** Either a refill is asked for, or the fetch state is that of c after an ordinary instruction. */
  predicate Settled(c: Core, d: Core) { Primed(d.nextInstr) || (d.nextInstr <= 1 && d.t == c.t && d.reg[15] == c.reg[15]) }

  lemma SettledProper(c: Core, d: Core)
    requires Settled(c, d) && !d.aborted
    ensures Proper(c, d)
  {
    hide Plus, Isize;
  }

  lemma StillSettled(c: Core, d: Core, e: Core)
    requires Settled(c, d) && Untouched(d, e, true)
    ensures Settled(c, e)
  {}

  lemma WrittenPrimed(c: Core, src: Word)
    ensures Primed(R15Written(c, src).nextInstr) && R15Written(c, src).aborted == c.aborted
    ensures Primed(R15Branched(c, src).nextInstr) && R15Branched(c, src).aborted == c.aborted
  {
    hide Masked, PcMask, GetCpsr, Odd;
  }

  lemma EnteredSettled(c: Core, d: Core, pins: Pins)
    ensures Settled(c, Entered(d, pins, DataAbort)) && !Entered(d, pins, DataAbort).aborted
  {
    EnteredProper(d, pins, DataAbort);
    hide Entered;
  }

  lemma LoadedProper(c: Core, pins: Pins, w: Bits, start: Word, wb: Word)
    requires c.nextInstr == 0 && !c.aborted
    ensures Proper(c, Loaded(c, pins, w, start, wb))
  {
    hide LoadAll, RegList, Entered, R15Branched, BaseWritten, BitAt, Settled, Primed, Proper;
    var x := LoadAll(c, RegList(w), start);
    LoadAllUntouched(c, RegList(w), start);
    ListHasPc(w);
    if x.aborted {
      EnteredSettled(c, x, pins);
    } else {
      var y := if BitAt(w, 15) then R15Branched(x, x.reg[15]) else x;
      WrittenPrimed(x, x.reg[15]);
      BranchSettled(c, x, y, BitAt(w, 15));
      BaseUntouched(y, w, wb);
      StillSettled(c, y, BaseWritten(y, w, wb));
    }
    SettledProper(c, Loaded(c, pins, w, start, wb));
  }

  lemma BranchSettled(c: Core, x: Core, y: Core, pc: bool)
    requires c.nextInstr == 0 && Untouched(c, x, !pc) && (if pc then Primed(y.nextInstr) else y == x)
    ensures Settled(c, y)
  {}

  lemma BusSettled(c: Core)
    requires c.nextInstr == 0
    ensures Settled(c, c) && Settled(c, BusUsed(c)) && BusUsed(c).aborted == c.aborted
  {}

  lemma StoreFinishedProper(c: Core, d: Core, pins: Pins, w: Bits, wb: Word)
    requires Settled(c, d)
    ensures Proper(c, StoreFinished(d, pins, w, wb))
  {
    hide Entered, BaseWritten, Settled, Proper;
    BaseUntouched(d, w, wb);
    StillSettled(c, d, BaseWritten(d, w, wb));
    var e := if d.abortSig && d.aborted && !pins.lateabt then d else BaseWritten(d, w, wb);
    EnteredSettled(c, e, pins);
    SettledProper(c, StoreFinished(d, pins, w, wb));
  }

  lemma StoredProper(c: Core, pins: Pins, w: Bits, start: Word, wb: Word)
    requires c.nextInstr == 0 && !c.aborted
    ensures Proper(c, Stored(c, pins, w, start, wb))
  {
    hide StoreAll, RegList, StoreFinished, Settled, Proper, BusUsed;
    var b := if c.t then c else BusUsed(c);
    BusSettled(c);
    StoreAllUntouched(b, RegList(w), start);
    StillSettled(c, b, StoreAll(b, RegList(w), start));
    StoreFinishedProper(c, StoreAll(b, RegList(w), start), pins, w, wb);
  }

  lemma SStoredProper(c: Core, pins: Pins, w: Bits, start: Word, wb: Word)
    requires c.nextInstr == 0 && !c.aborted
    ensures Proper(c, SStored(c, pins, w, start, wb))
  {
    hide StoreAll, RegList, StoreFinished, Settled, Proper, BusUsed, UserRegisters, OwnRegisters, Untouched;
    var b := BusUsed(c);
    var u := UserRegisters(b);
    var d := StoreAll(u, RegList(w), start);
    BusSettled(c);
    BanksUntouched(b);
    StillSettled(c, b, u);
    StoreAllUntouched(u, RegList(w), start);
    StillSettled(c, u, d);
    BanksUntouched(d);
    StillSettled(c, d, OwnRegisters(d));
    StoreFinishedProper(c, if d.aborted then d else OwnRegisters(d), pins, w, wb);
  }

  lemma SBaseProper(c: Core, d: Core, pins: Pins, w: Bits, wb: Word)
    requires Settled(c, d)
    ensures Settled(c, SBaseDone(d, pins, w, wb)) && !SBaseDone(d, pins, w, wb).aborted
  {
    hide Entered, BaseWritten, Settled;
    BaseUntouched(d, w, wb);
    StillSettled(c, d, BaseWritten(d, w, wb));
    EnteredSettled(c, if d.abortSig && !pins.lateabt then d else BaseWritten(d, w, wb), pins);
  }

  lemma PsrRestoredAborted(c: Core)
    ensures PsrRestored(c).aborted == c.aborted
  {
    SetCpsrAborted(c, GetSpsr(c, c.mode));
    hide SetCpsr, GetSpsr;
  }

  lemma BaseDoneAborted(d: Core, pins: Pins, w: Bits, wb: Word)
    ensures !SBaseDone(d, pins, w, wb).aborted
  {
    hide Entered, BaseWritten;
    BaseUntouched(d, w, wb);
    EnteredSettled(d, if d.abortSig && !pins.lateabt then d else BaseWritten(d, w, wb), pins);
  }

  lemma SLoadFinishedProper(c: Core, x: Core, pins: Pins, w: Bits, wb: Word)
    requires BitAt(w, 15) || Settled(c, x)
    ensures Proper(c, SLoadFinished(x, pins, w, wb))
  {
    hide SBaseDone, OwnRegisters, R15Written, PsrRestored, IsUser, BitAt, Settled, Proper, Primed;
    var d := SBaseDone(x, pins, w, wb);
    BaseDoneAborted(x, pins, w, wb);
    if !BitAt(w, 15) {
      SBaseProper(c, x, pins, w, wb);
      BanksUntouched(d);
      StillSettled(c, d, OwnRegisters(d));
    } else {
      var e := if IsUser(d.mode) then d else PsrRestored(d);
      PsrRestoredAborted(d);
      WrittenPrimed(e, e.reg[15]);
      PrimedSettled(c, R15Written(e, e.reg[15]));
    }
    SettledProper(c, SLoadFinished(x, pins, w, wb));
  }

  lemma PrimedSettled(c: Core, d: Core)
    requires Primed(d.nextInstr)
    ensures Settled(c, d)
  {}

  lemma SLoadedProper(c: Core, pins: Pins, w: Bits, start: Word, wb: Word)
    requires c.nextInstr == 0 && !c.aborted
    ensures Proper(c, SLoaded(c, pins, w, start, wb))
  {
    hide LoadAll, SLoadAll, RegList, SLoadFinished, UserRegisters, BitAt, Settled, Proper, Untouched;
    var u := if BitAt(w, 15) then c else UserRegisters(c);
    BanksUntouched(c);
    SLoadAllIs(u, RegList(w), start);
    var x := LoadAll(u, RegList(w), start);
    if !BitAt(w, 15) {
      BusSettled(c);
      StillSettled(c, c, u);
      ListHasPc(w);
      LoadAllUntouched(u, RegList(w), start);
      StillSettled(c, u, x);
    }
    SLoadFinishedProper(c, x, pins, w, wb);
  }

  /** Every block transfer leaves r15 and NextInstr in step. */
  lemma TransferredProper(c: Core, pins: Pins, w: Bits)
    requires c.nextInstr == 0 && !c.aborted
    ensures Proper(c, Transferred(c, pins, w))
  {
    hide Loaded, SLoaded, Stored, SStored, Proper, Start, NewBase, Rn, IsLoad, Caret;
    var base := c.reg[Rn(w)];
    LoadedProper(c, pins, w, Start(base, w), NewBase(base, w));
    SLoadedProper(c, pins, w, Start(base, w), NewBase(base, w));
    StoredProper(c, pins, w, Start(base, w), NewBase(base, w));
    SStoredProper(c, pins, w, Start(base, w), NewBase(base, w));
  }
}
