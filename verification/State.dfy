/** The machine state: `ARMul_State` of arch_arm/common/armdefs.h.

    `ArmState` is the mutable structure, `Core` its value. Every routine of the emulator is a method
    on an `ArmState` whose postcondition gives the new `Value()` as a function of the old one. */
module State {
  import opened Words

  // Mode numbers (armdefs.h). The theorems quantify over the modes of a 32-bit program space.
  const USER26MODE := Word(0)
  const USER32MODE := Word(16)
  const FIQ32MODE := Word(17)
  const IRQ32MODE := Word(18)
  const SVC32MODE := Word(19)
  const ABORT32MODE := Word(23)
  const UNDEF32MODE := Word(27)
  const SYSTEM32MODE := Word(31)

  type BankNo = b: nat | b < 7
  type RegNo = r: nat | r < 16

  // Register banks. System mode uses the user bank.
  const USERBANK: BankNo := 0
  const FIQBANK: BankNo := 1
  const IRQBANK: BankNo := 2
  const SVCBANK: BankNo := 3
  const ABORTBANK: BankNo := 4
  const UNDEFBANK: BankNo := 5
  const DUMMYBANK: BankNo := 6

  // Ways to start the next instruction (armemu.h). NextInstr is a set of bits: 1 for an N cycle, 2
  // for a program counter already advanced, 4 for a pipeline to be refilled.
  const SEQ: nat := 0
  const PRIMEPIPE: nat := 4

  const NOUGHT := Word(0)
  const ZEROS: seq<Word> := [
    NOUGHT, NOUGHT, NOUGHT, NOUGHT, NOUGHT, NOUGHT, NOUGHT, NOUGHT,
    NOUGHT, NOUGHT, NOUGHT, NOUGHT, NOUGHT, NOUGHT, NOUGHT, NOUGHT]

  type Row = s: seq<Word> | |s| == 16 witness ZEROS
  type Matrix = s: seq<Row> | |s| == 7 witness [ZEROS, ZEROS, ZEROS, ZEROS, ZEROS, ZEROS, ZEROS]
  type Spsrs = s: seq<Word> | |s| == 7 witness ZEROS[..7]

  /** Data memory behind armvirt.c: the words the MMU maps, by word number (address / 4). A word that
      is not mapped faults. */
  type Memory = map<nat, Word>

  datatype Core = Core(
    reg: Row,
    bank: Matrix,
    spsr: Spsrs,
    cpsr: Word,
    n: bool, z: bool, c: bool, v: bool, s: bool,
    i: bool, f: bool, t: bool,
    bankNo: BankNo,
    mode: Word,
    nextInstr: nat,
    mem: Memory,
    abortSig: bool,
    aborted: bool)

  /** Wiring that no modelled routine changes. */
  datatype Pins = Pins(bigend: bool, lateabt: bool, highVectors: bool, remap: Word)

  class ArmState {
    const Reg: array<Word>
    const RegBank: array<Row>
    const Spsr: array<Word>
    var Cpsr: Word
    var NFlag: bool
    var ZFlag: bool
    var CFlag: bool
    var VFlag: bool
    var SFlag: bool
    var IFlag: bool
    var FFlag: bool
    var TFlag: bool
    var Bank: BankNo
    var Mode: Word
    var NextInstr: nat
    var Mem: Memory
    var AbortSig: bool
    var Aborted: bool
    const pins: Pins

    ghost predicate Valid()
    {
      && Reg.Length == 16 && RegBank.Length == 7 && Spsr.Length == 7
      && Reg != Spsr && (Reg as object) != RegBank && (Spsr as object) != RegBank
    }

    ghost function Value(): Core
      requires Valid()
      reads this, Reg, RegBank, Spsr
    {
      Core(Reg[..], RegBank[..], Spsr[..], Cpsr, NFlag, ZFlag, CFlag, VFlag, SFlag, IFlag, FFlag, TFlag,
           Bank, Mode, NextInstr, Mem, AbortSig, Aborted)
    }
  }
}
