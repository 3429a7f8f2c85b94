/** What Thumb instructions of formats 1 to 4 and 6 to 13 mean (ARM DDI 0100, chapter A7), without any
    reference to ARM instructions. */
module ThumbMeaning {
  import opened Words
  import opened State
  import opened Support
  import opened Shifter
  import opened DataPath
  import opened Exceptions
  import opened Block
  import opened Single
  import opened Manual

  datatype Offset = Reg(r: RegNo) | Imm(w: Word)

  datatype Tiny = TAnd | TEor | TShift(kind: Kind) | TAdc | TSbc | TTst | TNeg | TCmp | TCmn | TOrr | TMul | TBic | TMvn

  datatype Insn =
    | ShiftImm(kind: Kind, rd: RegNo, rs: RegNo, n: Bits)
    | Add3(sub: bool, rd: RegNo, rs: RegNo, o: Offset)
    | Mov8(rd: RegNo, w: Word)
    | Cmp8(rd: RegNo, w: Word)
    | Add8(sub: bool, rd: RegNo, w: Word)
    | Alu(op: Tiny, rd: RegNo, rs: RegNo)
    | Transfer(load: bool, width: Width, signed: bool, rd: RegNo, base: RegNo, o: Offset)
    | AddTo(rd: RegNo, base: RegNo, w: Word)
    | AdjustSp(sub: bool, w: Word)

  // ---------------------------------------------------------------------------------------------
  // Reading the halfword (ARM DDI 0100, section A6.2)

  function Field(t: Bits, k: Bits, m: Bits): Bits
    requires k < 32
  {
    (t >> k) & m
  }

  /** A three-bit register number. */
  function Low3(t: Bits, k: Bits): RegNo
    requires k < 32
  {
    RegNumber(Field(t, k, 7))
  }

  function KindField(t: Bits): Kind
  {
    if Field(t, 11, 3) == 0 then LSL else if Field(t, 11, 3) == 1 then LSR else ASR
  }

  function TinyOf(t: Bits): Tiny { TinyAt(Field(t, 6, 15)) }

  function TinyAt(k: Bits): Tiny
  {
    if k == 0 then TAnd else if k == 1 then TEor else if k == 2 then TShift(LSL) else if k == 3 then TShift(LSR)
    else if k == 4 then TShift(ASR) else if k == 5 then TAdc else if k == 6 then TSbc else if k == 7 then TShift(ROR)
    else if k == 8 then TTst else if k == 9 then TNeg else if k == 10 then TCmp else if k == 11 then TCmn
    else if k == 12 then TOrr else if k == 13 then TMul else if k == 14 then TBic else TMvn
  }

  const SP: RegNo := 13
  const PC: RegNo := 15

  function Parse1(t: Bits): Insn { ShiftImm(KindField(t), Low3(t, 0), Low3(t, 3), Field(t, 6, 31)) }

  function Parse2(t: Bits): Insn
  {
    Add3(BitAt(t, 9), Low3(t, 0), Low3(t, 3), if BitAt(t, 10) then Imm(Word(Field(t, 6, 7))) else Reg(Low3(t, 6)))
  }

  function Parse3(t: Bits): Insn
  {
    var w := Word(Field(t, 0, 0xFF));
    if !BitAt(t, 12) then (if BitAt(t, 11) then Cmp8(Low3(t, 8), w) else Mov8(Low3(t, 8), w))
    else Add8(BitAt(t, 11), Low3(t, 8), w)
  }

  function Parse4(t: Bits): Insn { Alu(TinyOf(t), Low3(t, 0), Low3(t, 3)) }

  function Parse6(t: Bits): Insn { Transfer(true, Width32, false, Low3(t, 8), PC, Imm(Word(Field(t, 0, 0xFF) << 2))) }

  function Parse7(t: Bits): Insn
  {
    Transfer(BitAt(t, 11), if BitAt(t, 10) then Width8 else Width32, false, Low3(t, 0), Low3(t, 3), Reg(Low3(t, 6)))
  }

  /** STRH, LDRSB, LDRH and LDRSH. */
  function Parse8(t: Bits): Insn
  {
    var k := Field(t, 10, 3);
    Transfer(k != 0, if k == 1 then Width8 else Width16, k == 1 || k == 3, Low3(t, 0), Low3(t, 3), Reg(Low3(t, 6)))
  }

  function Parse9(t: Bits): Insn
  {
    var n := Field(t, 6, 31);
    Transfer(BitAt(t, 11), if BitAt(t, 12) then Width8 else Width32, false, Low3(t, 0), Low3(t, 3),
             Imm(Word(if BitAt(t, 12) then n else n << 2)))
  }

  function Parse10(t: Bits): Insn
  {
    Transfer(BitAt(t, 11), Width16, false, Low3(t, 0), Low3(t, 3), Imm(Word(Field(t, 6, 31) << 1)))
  }

  function Parse11(t: Bits): Insn
  {
    Transfer(BitAt(t, 11), Width32, false, Low3(t, 8), SP, Imm(Word(Field(t, 0, 0xFF) << 2)))
  }

  function Parse12(t: Bits): Insn
  {
    AddTo(Low3(t, 8), if BitAt(t, 11) then SP else PC, Word(Field(t, 0, 0xFF) << 2))
  }

  function Parse13(t: Bits): Insn { AdjustSp(BitAt(t, 7), Word(Field(t, 0, 0x7F) << 2)) }

  // ---------------------------------------------------------------------------------------------
  // Meaning

  /** Register r as a base or an operand; r15 reads as the address of the instruction plus 4, rounded down to
      a word. */
  function Read(c: Core, r: RegNo): Word { if r == PC then Masked(c.reg[15], 0xFFFF_FFFC) else c.reg[r] }

  function ReadOffset(c: Core, o: Offset): Word { if o.Reg? then c.reg[o.r] else o.w }

  /** The result of a shift or logical operation. */
  function PutLogical(c: Core, r: RegNo, w: Word, carry: bool): Core { PutFlags(c, r, w, LogicalFlags(c, w, carry)) }

  function PutResult(c: Core, r: RegNo, x: Result): Core { PutFlags(c, r, x.r, x.f) }

  function AddOrSub(sub: bool, a: Word, b: Word): Result { if sub then Subtracted(a, b, true) else Added(a, b, false) }

  function AluMeaning(c: Core, op: Tiny, rd: RegNo, rs: RegNo): Core
  {
    var a, b := c.reg[rd], c.reg[rs];
    match op
    case TAnd => PutLogical(c, rd, Word(a.bits & b.bits), c.c)
    case TEor => PutLogical(c, rd, Word(a.bits ^ b.bits), c.c)
    case TOrr => PutLogical(c, rd, Word(a.bits | b.bits), c.c)
    case TBic => PutLogical(c, rd, Word(a.bits & !b.bits), c.c)
    case TMvn => PutLogical(c, rd, Word(!b.bits), c.c)
    case TTst => WithFlags(c, LogicalFlags(c, Word(a.bits & b.bits), c.c))
    case TShift(kind) =>
      var s := ShiftSteps(kind, a.bits, LowByte(b), c.c);
      PutLogical(c, rd, Word(s.value), s.carry)
    case TAdc => PutResult(c, rd, Added(a, b, c.c))
    case TSbc => PutResult(c, rd, Subtracted(a, b, c.c))
    case TNeg => PutResult(c, rd, Subtracted(Word(0), b, true))
    case TCmp => WithFlags(c, Subtracted(a, b, true).f)
    case TCmn => WithFlags(c, Added(a, b, false).f)
    case TMul => PutLogical(c, rd, ToWord(Product(Num(a), Num(b))), c.c)
  }

  /** A load or store; an address that is not mapped takes the data abort. */
  function TransferMeaning(c: Core, pins: Pins, load: bool, width: Width, signed: bool, rd: RegNo, a: Word): Core
  {
    if WordNo(a) !in c.mem then Entered(c.(aborted := true), pins, DataAbort)
    else if load then Put(c, rd, Loadable(c.mem[WordNo(a)].bits, a, width, signed, pins.bigend))
    else c.(mem := c.mem[WordNo(a) := Storable(c.mem[WordNo(a)].bits, a, c.reg[rd], width, pins.bigend)])
  }

  function Meaning(c: Core, pins: Pins, i: Insn): Core
    requires i.ShiftImm? ==> i.n < 32
  {
    match i
    case ShiftImm(kind, rd, rs, n) =>
      var s := ImmShiftSteps(kind, c.reg[rs].bits, n, c.c);
      PutLogical(c, rd, Word(s.value), s.carry)
    case Add3(sub, rd, rs, o) => PutResult(c, rd, AddOrSub(sub, c.reg[rs], ReadOffset(c, o)))
    case Mov8(rd, w) => PutLogical(c, rd, w, c.c)
    case Cmp8(rd, w) => WithFlags(c, Subtracted(c.reg[rd], w, true).f)
    case Add8(sub, rd, w) => PutResult(c, rd, AddOrSub(sub, c.reg[rd], w))
    case Alu(op, rd, rs) => AluMeaning(c, op, rd, rs)
    case Transfer(load, width, signed, rd, base, o) =>
      TransferMeaning(c, pins, load, width, signed, rd, Plus(Read(c, base), ReadOffset(c, o)))
    case AddTo(rd, base, w) => Put(c, rd, Plus(Read(c, base), w))
    case AdjustSp(sub, w) => Put(c, SP, if sub then Minus(c.reg[SP], w) else Plus(c.reg[SP], w))
  }
}
