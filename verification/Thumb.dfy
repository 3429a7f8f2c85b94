/** ARMul_ThumbDecode (arch_arm/common/thumbemu.c): Thumb instructions are translated to ARM instructions, or,
    when they are branches, executed directly. */
module Thumb {
  import opened Words
  import opened State
  import opened Alu
  import opened DataPath

  // ---------------------------------------------------------------------------------------------
  // The translation, by format (ARM DDI 0100, section A6.2)

  /** Format 1: shift by an immediate. */
  function Format1(t: Bits): Bits
  {
    0xE1B0_0000 | ((t & 0x1800) >> 6) | ((t & 0x07C0) << 1) | ((t & 0x0038) >> 3) | ((t & 0x0007) << 12)
  }

  /** Format 2: add and subtract, register or 3-bit immediate. */
  function Format2(t: Bits): Bits
  {
    var k := (t & 0x0600) >> 9;
    var base: Bits := if k == 0 then 0xE090_0000 else if k == 1 then 0xE050_0000 else if k == 2 then 0xE290_0000 else 0xE250_0000;
    base | ((t & 0x01C0) >> 6) | ((t & 0x0038) << 13) | ((t & 0x0007) << 12)
  }

  /** Format 3: MOV, CMP, ADD and SUB with an 8-bit immediate. */
  function Format3(t: Bits): Bits
  {
    var k := (t & 0x1800) >> 11;
    var base: Bits := if k == 0 then 0xE3B0_0000 else if k == 1 then 0xE350_0000 else if k == 2 then 0xE290_0000 else 0xE250_0000;
    base | (t & 0x00FF) | ((t & 0x0700) << 8) | ((t & 0x0700) << 4)
  }

  /** The four ways the register operands of format 4 are placed. */
  datatype Placing = Norm | Shifts | Negs | Mul

  /** The ARM instruction of each operation, without its registers, and how they are placed. The order is that of the
      Thumb encoding: AND, EOR, LSL, LSR, ASR, ADC, SBC, ROR, TST, NEG, CMP, CMN, ORR, MUL, BIC, MVN. */
  function Subset4(k: Bits): (Bits, Placing)
  {
    if k == 0 then (0xE010_0000, Norm)
    else if k == 1 then (0xE030_0000, Norm)
    else if k == 2 then (0xE1B0_0010, Shifts)
    else if k == 3 then (0xE1B0_0030, Shifts)
    else if k == 4 then (0xE1B0_0050, Shifts)
    else if k == 5 then (0xE0B0_0000, Norm)
    else if k == 6 then (0xE0D0_0000, Norm)
    else if k == 7 then (0xE1B0_0070, Shifts)
    else if k == 8 then (0xE110_0000, Norm)
    else if k == 9 then (0xE270_0000, Negs)
    else if k == 10 then (0xE150_0000, Norm)
    else if k == 11 then (0xE170_0000, Norm)
    else if k == 12 then (0xE190_0000, Norm)
    else if k == 13 then (0xE010_0090, Mul)
    else if k == 14 then (0xE1D0_0000, Norm)
    else (0xE1F0_0000, Norm)
  }

  function Placed(base: Bits, t: Bits, placing: Placing): Bits
  {
    match placing
    case Norm => base | ((t & 0x0007) << 16) | ((t & 0x0007) << 12) | ((t & 0x0038) >> 3)
    case Shifts => base | ((t & 0x0007) << 12) | (t & 0x0007) | ((t & 0x0038) << 5)
    case Negs => base | ((t & 0x0007) << 12) | ((t & 0x0038) << 13)
    case Mul => base | ((t & 0x0007) << 16) | ((t & 0x0007) << 8) | ((t & 0x0038) >> 3)
  }

  function Index4(t: Bits): Bits { (t & 0x03C0) >> 6 }

  /** Format 4: two-register operations. */
  function Format4(t: Bits): Bits
  {
    var (base, placing) := Subset4(Index4(t));
    Placed(base, t, placing)
  }

  /** Format 6: LDR Rd,[PC,#imm]. */
  function Format6(t: Bits): Bits { 0xE59F_0000 | ((t & 0x0700) << 4) | ((t & 0x00FF) << 2) }

  /** Formats 7 and 8: load and store with a register offset. */
  function Format7(t: Bits): Bits
  {
    var k := (t & 0x0C00) >> 10;
    var base: Bits := if k == 0 then 0xE780_0000 else if k == 1 then 0xE7C0_0000 else if k == 2 then 0xE790_0000 else 0xE7D0_0000;
    base | ((t & 0x0007) << 12) | ((t & 0x0038) << 13) | ((t & 0x01C0) >> 6)
  }

  function Format8(t: Bits): Bits
  {
    var k := (t & 0x0C00) >> 10;
    var base: Bits := if k == 0 then 0xE180_00B0 else if k == 1 then 0xE190_00D0 else if k == 2 then 0xE190_00B0 else 0xE190_00F0;
    base | ((t & 0x0007) << 12) | ((t & 0x0038) << 13) | ((t & 0x01C0) >> 6)
  }

  /** Format 9: load and store with a 5-bit immediate offset, scaled for words. */
  function Format9(t: Bits): Bits
  {
    var k := (t & 0x1800) >> 11;
    var base: Bits := if k == 0 then 0xE580_0000 else if k == 1 then 0xE590_0000 else if k == 2 then 0xE5C0_0000 else 0xE5D0_0000;
    base | ((t & 0x0007) << 12) | ((t & 0x0038) << 13) | (if BitAt(t, 12) then (t & 0x07C0) >> 6 else (t & 0x07C0) >> 4)
  }

  /** Format 10: halfwords with a 5-bit immediate offset, scaled by 2. */
  function Format10(t: Bits): Bits
  {
    (if BitAt(t, 11) then 0xE1D0_00B0 else 0xE1C0_00B0)
    | ((t & 0x0007) << 12) | ((t & 0x0038) << 13) | ((t & 0x01C0) >> 5) | ((t & 0x0600) >> 1)
  }

  /** Format 11: LDR and STR relative to SP. */
  function Format11(t: Bits): Bits
  {
    (if BitAt(t, 11) then 0xE59D_0000 else 0xE58D_0000) | ((t & 0x0700) << 4) | ((t & 0x00FF) << 2)
  }

  /** Format 12: ADD Rd,PC,#imm and ADD Rd,SP,#imm. */
  function Format12(t: Bits): Bits
  {
    (if BitAt(t, 11) then 0xE28D_0F00 else 0xE28F_0F00) | ((t & 0x0700) << 4) | (t & 0x00FF)
  }

  /** Format 13: ADD SP,#imm and SUB SP,#imm. */
  function Format13(t: Bits): Bits { (if BitAt(t, 7) then 0xE24D_DF00 else 0xE28D_DF00) | (t & 0x007F) }

  /** Format 5: operations on high registers, and BX. Nothing is encoded by 0, 4 and 8; 14 and 15 are BLX, which
      a v4 core does not have. */
  function Format5(t: Bits): (r: Result)
    ensures !r.Branched?
  {
    var rd := (t & 0x0007) | (if BitAt(t, 7) then 8 else 0);
    var rs := ((t & 0x0038) >> 3) | (if BitAt(t, 6) then 8 else 0);
    var k := (t & 0x03C0) >> 6;
    if 1 <= k <= 3 then Translated(0xE080_0000 | (rd << 16) | (rd << 12) | rs)
    else if 5 <= k <= 7 then Translated(0xE150_0000 | (rd << 16) | (rd << 12) | rs)
    else if 9 <= k <= 11 then Translated(0xE1A0_0000 | (rd << 16) | (rd << 12) | rs)
    else if k == 12 || k == 13 then Translated(0xE12F_FF10 | ((t & 0x0078) >> 3))
    else Undefined
  }

  const SWI_BREAKPOINT: Bits := 0x18_0000

  /** Cases 22 and 23: format 13, the breakpoint instruction, and PUSH and POP (format 14). */
  function Format14(t: Bits): Bits
  {
    if t & 0x0F00 == 0 then Format13(t)
    else if t & 0x0F00 == 0x0E00 then 0xEF00_0000 | SWI_BREAKPOINT
    else
      (if BitAt(t, 11) then (if BitAt(t, 8) then 0xE8BD_8000 else 0xE8BD_0000)
       else if BitAt(t, 8) then 0xE92D_4000 else 0xE92D_0000) | (t & 0x00FF)
  }

  /** Format 15: STMIA and LDMIA. */
  function Format15(t: Bits): Bits
  {
    (if BitAt(t, 11) then 0xE8B0_0000 else 0xE8A0_0000) | ((t & 0x0700) << 8) | (t & 0x00FF)
  }

  /** Format 17: SWI. */
  function Format17(t: Bits): Bits
  {
    if t & 0x00FF == 0x18 then 0xEF00_0000 | ((t & 0x00FF) << 16)
    else if t & 0x00FF == 0xFE then 0xEF00_0000 | SWI_BREAKPOINT
    else 0xEF00_0000 | (t & 0x00FF)
  }

  // ---------------------------------------------------------------------------------------------
  // Branches

  /** The offsets of formats 16, 18 and the first half of 19. */
  function Offset16(t: Bits): Bits { ((t & 0x7F) << 1) | (if BitAt(t, 7) then 0xFFFF_FF00 else 0) }
  function Offset18(t: Bits): Bits { ((t & 0x3FF) << 1) | (if BitAt(t, 10) then 0xFFFF_F800 else 0) }
  function Offset19(t: Bits): Bits { ((t & 0x07FF) << 12) | (if BitAt(t, 10) then 0xFF80_0000 else 0) }

  function Jump(c: Core, target: Word): Core { Flush(c.(reg := c.reg[15 := target])) }

  /** Format 16: a conditional branch. */
  function Format16(c: Core, pc: Word, t: Bits): Core
  {
    if Holds((t & 0x0F00) >> 8, FlagsOf(c)) then Jump(c, Plus(Plus(pc, Word(4)), Word(Offset16(t)))) else c
  }

  function ThumbLink(pc: Word): Word { Word(pc.bits | 1) }

  /** The second half of a BL at `pc`. */
  function BranchLink(c: Core, pc: Word, t: Bits): Core
  {
    hide *;
    var target := Plus(c.reg[14], Word((t & 0x07FF) << 1));
    Jump(c.(reg := c.reg[14 := ThumbLink(Plus(pc, Word(2)))]), target)
  }

  predicate IsSecondHalf(t: Bits) { (t & 0xF800) >> 11 == 31 }

  /** The first half of a BL, and the second one with it when it follows. */
  function Format19(c: Core, pc: Word, t: Bits, next: Bits): Core
  {
    var d := c.(reg := c.reg[14 := Plus(c.reg[15], Word(Offset19(t)))]);
    if IsSecondHalf(next) then BranchLink(d, Plus(pc, Word(2)), next) else d
  }

  // ---------------------------------------------------------------------------------------------
  // ARMul_ThumbDecode

  datatype Result = Undefined | Translated(w: Bits) | Branched(c: Core)

  /** The instruction and the one after it, from the word the pipeline holds. */
  function Halves(pair: Bits, bigend: bool): (Bits, Bits)
  {
    if bigend then (pair >> 16, pair & 0xFFFF) else (pair & 0xFFFF, pair >> 16)
  }

  /** `aborted`: AbortAddr is the address of this instruction. */
  function Decode(c: Core, pins: Pins, pc: Word, pair: Bits, aborted: bool): Result
  {
    var (t, next) := Halves(pair, pins.bigend);
    var k := Group(t);
    if k == 8 && BitAt(t, 10) then Format5(t)
    else if k <= 25 then Translated(Table(k, t))
    else if k <= 27 then
      if t & 0x0F00 == 0x0F00 then Translated(if t == 0xDFFF && aborted then 0xEFFF_DFFF else Format17(t))
      else if t & 0x0F00 != 0x0E00 then Branched(Format16(c, pc, t))
      else Undefined
    else if k == 28 then Branched(Jump(c, Plus(Plus(pc, Word(4)), Word(Offset18(t)))))
    else if k == 29 then Undefined
    else if k == 30 then Branched(Format19(c, pc, t, next))
    else Branched(BranchLink(c, pc, t))
  }

  function Group(t: Bits): Bits { (t & 0xF800) >> 11 }

  /** Cases 0 to 25 of the switch, without format 5: pure bit expressions. */
  function Table(k: Bits, t: Bits): Bits
  {
    if k <= 2 then Format1(t) else if k == 3 then Format2(t) else if k <= 7 then Format3(t)
    else if k == 8 then Format4(t) else if k == 9 then Format6(t)
    else if k <= 11 then (if !BitAt(t, 9) then Format7(t) else Format8(t))
    else if k <= 15 then Format9(t) else if k <= 17 then Format10(t) else if k <= 19 then Format11(t)
    else if k <= 21 then Format12(t) else if k <= 23 then Format14(t) else Format15(t)
  }

  predicate Always(w: Bits) { w >> 28 == AL }

  lemma AlwaysLow(t: Bits)
    requires t < 0x1_0000
    ensures Always(Format1(t)) && Always(Format2(t)) && Always(Format3(t))
  {}

  lemma BasesAlways(k: Bits)
    requires k < 16
    ensures Always(Subset4(k).0)
  {}

  lemma PlacedAlways(base: Bits, t: Bits)
    requires Always(base) && t < 0x1_0000
    ensures Always(Placed(base, t, Norm)) && Always(Placed(base, t, Shifts))
    ensures Always(Placed(base, t, Negs)) && Always(Placed(base, t, Mul))
  {}

  lemma IndexSmall4(t: Bits)
    ensures Index4(t) < 16
  {}

  lemma AlwaysFour(t: Bits)
    requires t < 0x1_0000
    ensures Always(Format4(t))
  {
    hide Always, Subset4, Placed, Index4;
    IndexSmall4(t);
    BasesAlways(Index4(t));
    PlacedAlways(Subset4(Index4(t)).0, t);
    var (base, placing) := Subset4(Index4(t));
    assert placing == Norm || placing == Shifts || placing == Negs || placing == Mul;
  }

  lemma AlwaysFive(t: Bits)
    requires t < 0x1_0000 && Format5(t).Translated?
    ensures Always(Format5(t).w)
  {}

  lemma AlwaysTransfers(t: Bits)
    requires t < 0x1_0000
    ensures Always(Format6(t)) && Always(Format7(t)) && Always(Format8(t)) && Always(Format9(t))
  {}

  lemma AlwaysMiddle(t: Bits)
    requires t < 0x1_0000
    ensures Always(Format10(t)) && Always(Format11(t)) && Always(Format12(t)) && Always(Format13(t))
  {}

  lemma AlwaysHigh(t: Bits)
    requires t < 0x1_0000
    ensures Always(Format14(t)) && Always(Format15(t)) && Always(Format17(t))
  {}

  lemma HalvesSmall(pair: Bits, bigend: bool)
    ensures Halves(pair, bigend).0 < 0x1_0000 && Halves(pair, bigend).1 < 0x1_0000
  {}

  /** Every ARM instruction the translator produces has the condition AL. */
  lemma TranslatedAlways(c: Core, pins: Pins, pc: Word, pair: Bits, aborted: bool)
    requires Decode(c, pins, pc, pair, aborted).Translated?
    ensures Always(Decode(c, pins, pc, pair, aborted).w)
  {
    var t := Halves(pair, pins.bigend).0;
    HalvesSmall(pair, pins.bigend);
    AlwaysLow(t);
    AlwaysFour(t);
    if Format5(t).Translated? { AlwaysFive(t); }
    AlwaysTransfers(t);
    AlwaysMiddle(t);
    AlwaysHigh(t);
    AbortAlways();
    hide Always, Halves, BitAt, Format1, Format2, Format3, Format4, Format5, Format6, Format7, Format8, Format9, Format10,
      Format11, Format12, Format14, Format15, Format17, Format16, Format19, BranchLink, Jump, Offset18, Plus;
  }

  lemma AbortAlways()
    ensures Always(0xEFFF_DFFF)
  {}

  // ---------------------------------------------------------------------------------------------
  // The same as the emulator does it, on the machine

  method TakeJump(state: ArmState, target: Word)
    requires state.Valid()
    modifies state`NextInstr, state.Reg
    ensures state.Value() == Jump(old(state.Value()), target)
  {
    hide Refilled;
    state.Reg[15] := target;
    state.NextInstr := Refilled(state.NextInstr);
  }

  method TakeBranchLink(state: ArmState, pc: Word, t: Bits)
    requires state.Valid()
    modifies state`NextInstr, state.Reg
    ensures state.Value() == BranchLink(old(state.Value()), pc, t)
  {
    hide Plus, ThumbLink, Jump;
    var target := Plus(state.Reg[14], Word((t & 0x07FF) << 1));
    state.Reg[14] := ThumbLink(Plus(pc, Word(2)));
    TakeJump(state, target);
  }

  /** Formats 16, 18 and 19, which ARMul_ThumbDecode executes at once. */
  method ExecuteBranch(state: ArmState, pc: Word, pair: Bits, aborted: bool)
    requires state.Valid() && Decode(state.Value(), state.pins, pc, pair, aborted).Branched?
    modifies state`NextInstr, state.Reg
    ensures Decode(old(state.Value()), state.pins, pc, pair, aborted) == Branched(state.Value())
  {
    hide Table, Group, Format5, Format17, Halves, Plus, Jump, Offset16, Offset18, Offset19, Holds, BranchLink, BitAt, IsSecondHalf;
    var (t, next) := Halves(pair, state.pins.bigend);
    var k := Group(t);
    if k <= 27 {
      var f := GetFlags(state);
      if Holds((t & 0x0F00) >> 8, f) {
        TakeJump(state, Plus(Plus(pc, Word(4)), Word(Offset16(t))));
      }
    } else if k == 28 {
      TakeJump(state, Plus(Plus(pc, Word(4)), Word(Offset18(t))));
    } else if k == 30 {
      state.Reg[14] := Plus(state.Reg[15], Word(Offset19(t)));
      if IsSecondHalf(next) {
        TakeBranchLink(state, Plus(pc, Word(2)), next);
      }
    } else {
      TakeBranchLink(state, pc, t);
    }
  }

  /** tdstate of armemu.h. */
  datatype TdState = TUndefined | TDecoded | TBranch

  method ThumbDecode(state: ArmState, pc: Word, pair: Bits, aborted: bool) returns (valid: TdState, ainstr: Bits)
    requires state.Valid()
    modifies state`NextInstr, state.Reg
    ensures match Decode(old(state.Value()), state.pins, pc, pair, aborted)
            case Undefined => valid == TUndefined && state.Value() == old(state.Value())
            case Translated(w) => valid == TDecoded && ainstr == w && state.Value() == old(state.Value())
            case Branched(c) => valid == TBranch && state.Value() == c
  {
    hide Table, Group, Format5, Format17, Format16, Format19, Halves, Plus, Jump, BranchLink, BitAt, Offset18;
    ainstr := 0xDEAD_C0DE;
    var (t, next) := Halves(pair, state.pins.bigend);
    var k := Group(t);
    valid := TDecoded;
    if k == 8 && BitAt(t, 10) {
      match Format5(t)
      case Translated(w) => ainstr := w;
      case Undefined => valid := TUndefined;
    } else if k <= 25 {
      ainstr := Table(k, t);
    } else if k <= 27 && t & 0x0F00 == 0x0F00 {
      ainstr := if t == 0xDFFF && aborted then 0xEFFF_DFFF else Format17(t);
    } else if k == 29 || (k <= 27 && t & 0x0F00 == 0x0E00) {
      valid := TUndefined;
    } else {
      ExecuteBranch(state, pc, pair, aborted);
      valid := TBranch;
    }
  }
}
