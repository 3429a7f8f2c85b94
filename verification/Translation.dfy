/** The Thumb translator as a whole: for every halfword of formats 1 to 4 and 6 to 13, ARMul_ThumbDecode produces
    an ARM instruction of the same meaning. */
module Translation {
  import opened Words
  import opened State
  import opened DataPath
  import opened Execute
  import T = Thumb
  import opened ThumbMeaning
  import opened ThumbProof
  import opened ThumbProof4
  import opened ThumbTransfer

  /** A halfword of formats 1 to 4 or 6 to 13; MUL with two different registers. */
  predicate Covered(t: Bits)
  {
    || IsFormat1(t) || IsFormat2(t) || IsFormat3(t) || (IsFormat4(t) && (TinyOf(t).TMul? ==> Low3(t, 0) != Low3(t, 3)))
    || IsFormat6(t) || IsFormat7(t) || IsFormat8(t) || IsFormat9(t) || IsFormat10(t) || IsFormat11(t) || IsFormat12(t) || IsFormat13(t)
  }

  function Parse(t: Bits): Insn
  {
    if IsFormat1(t) then Parse1(t)
    else if IsFormat2(t) then Parse2(t)
    else if IsFormat3(t) then Parse3(t)
    else if IsFormat4(t) then Parse4(t)
    else if IsFormat6(t) then Parse6(t)
    else if IsFormat7(t) then Parse7(t)
    else if IsFormat8(t) then Parse8(t)
    else if IsFormat9(t) then Parse9(t)
    else if IsFormat10(t) then Parse10(t)
    else if IsFormat11(t) then Parse11(t)
    else if IsFormat12(t) then Parse12(t)
    else Parse13(t)
  }

  /** The ARM instruction of a covered halfword. */
  function Produced(t: Bits): Bits
  {
    if IsFormat1(t) then T.Format1(t)
    else if IsFormat2(t) then T.Format2(t)
    else if IsFormat3(t) then T.Format3(t)
    else if IsFormat4(t) then T.Format4(t)
    else if IsFormat6(t) then T.Format6(t)
    else if IsFormat7(t) then T.Format7(t)
    else if IsFormat8(t) then T.Format8(t)
    else if IsFormat9(t) then T.Format9(t)
    else if IsFormat10(t) then T.Format10(t)
    else if IsFormat11(t) then T.Format11(t)
    else if IsFormat12(t) then T.Format12(t)
    else T.Format13(t)
  }

  lemma SmallShift(t: Bits)
    ensures Parse(t).ShiftImm? ==> Parse(t).n < 32
  {
    FieldSmall(t);
    hide Field, Low3, KindField, TinyOf, BitAt;
  }

  lemma FieldSmall(t: Bits)
    ensures Field(t, 6, 31) < 32
  {}

  /** The decoder takes a covered halfword to the instruction of its format. */
  lemma Decodes(c: Core, pins: Pins, pc: Word, pair: Bits, aborted: bool)
    requires Covered(T.Halves(pair, pins.bigend).0)
    ensures T.Decode(c, pins, pc, pair, aborted) == T.Translated(Produced(T.Halves(pair, pins.bigend).0))
  {
    DecodesAt(c, pins, pc, pair, aborted, T.Halves(pair, pins.bigend).0);
  }

  lemma DecodesAt(c: Core, pins: Pins, pc: Word, pair: Bits, aborted: bool, t: Bits)
    requires t == T.Halves(pair, pins.bigend).0 && Covered(t)
    ensures T.Decode(c, pins, pc, pair, aborted) == T.Translated(Produced(t))
  {
    hide T.Halves, T.Format1, T.Format2, T.Format3, T.Format4, T.Format5, T.Format6, T.Format7, T.Format8, T.Format9, T.Format10,
      T.Format11, T.Format12, T.Format13, T.Format15, T.Format17, T.Format16, T.Format19, T.BranchLink, T.Jump,
      T.Offset18, Plus, TinyOf, Low3;
  }

  predicate ShiftsByRegister(i: Insn) { i.Alu? && i.op.TShift? }

  /** The ARM instruction does what the Thumb instruction means, up to the fetch state: the kind of the next fetch and the
      abort signal of the last access. A shift by a register has also advanced r15, as the next fetch expects. (No abort
      is ever pending when a load or store begins.) */
  predicate Faithful(c: Core, pins: Pins, w: Bits, i: Insn)
    requires i.ShiftImm? ==> i.n < 32
  {
    && Supported(w)
    && (if ShiftsByRegister(i) then Executed(c, pins, w) == Cycled(Meaning(c, pins, i))
        else (c.aborted && i.Transfer?) || Same(Meaning(c, pins, i), Executed(c, pins, w)))
  }

  lemma FaithfulIfPreserved(c: Core, pins: Pins, w: Bits, i: Insn)
    requires (i.ShiftImm? ==> i.n < 32) && !ShiftsByRegister(i) && Preserved(c, pins, w, i)
    ensures Faithful(c, pins, w, i)
  {
    hide Supported, Same, Meaning, Executed, ShiftsByRegister;
  }

  lemma FaithfulIfEqual(c: Core, pins: Pins, w: Bits, i: Insn)
    requires (i.ShiftImm? ==> i.n < 32) && Supported(w)
    requires Executed(c, pins, w) == if ShiftsByRegister(i) then Cycled(Meaning(c, pins, i)) else Meaning(c, pins, i)
    ensures Faithful(c, pins, w, i)
  {
    ItselfSame(Meaning(c, pins, i));
    hide Supported, Same, Meaning, Executed, ShiftsByRegister, Cycled;
  }

  lemma Effect4Means(c: Core, pins: Pins, t: Bits)
    ensures Effect4(c, t) == if ShiftsByRegister(Parse4(t)) then Cycled(Meaning(c, pins, Parse4(t))) else Meaning(c, pins, Parse4(t))
  {
    IsMeaning4(c, pins, t);
    hide AluMeaning, TinyOf, Low3, Cycled, Meaning;
  }

  lemma ParseIs(t: Bits)
    ensures IsFormat1(t) ==> Parse(t) == Parse1(t) && Produced(t) == T.Format1(t)
    ensures !IsFormat1(t) && IsFormat2(t) ==> Parse(t) == Parse2(t) && Produced(t) == T.Format2(t)
    ensures !IsFormat1(t) && !IsFormat2(t) && IsFormat3(t) ==> Parse(t) == Parse3(t) && Produced(t) == T.Format3(t)
    ensures !IsFormat1(t) && !IsFormat2(t) && !IsFormat3(t) && IsFormat4(t) ==> Parse(t) == Parse4(t) && Produced(t) == T.Format4(t)
  {
    hide IsFormat1, IsFormat2, IsFormat3, IsFormat4, Parse1, Parse2, Parse3, Parse4, T.Format1, T.Format2, T.Format3, T.Format4;
  }

  lemma FaithfulLow(c: Core, pins: Pins, t: Bits)
    requires Covered(t) && (IsFormat1(t) || IsFormat2(t) || IsFormat3(t) || IsFormat4(t))
    ensures (Parse(t).ShiftImm? ==> Parse(t).n < 32) && Faithful(c, pins, Produced(t), Parse(t))
  {
    CoveredMul(t);
    NoShiftLow(t);
    hide *;
    SmallShift(t);
    ParseIs(t);
    if IsFormat1(t) {
      Translates1(c, pins, t);
    } else if IsFormat2(t) {
      Translates2(c, pins, t);
    } else if IsFormat3(t) {
      Translates3(c, pins, t);
    } else {
      Translates4(c, pins, t);
      Effect4Means(c, pins, t);
    }
    FaithfulIfEqual(c, pins, Produced(t), Parse(t));
  }

  lemma NoShiftLow(t: Bits)
    ensures !ShiftsByRegister(Parse1(t)) && !ShiftsByRegister(Parse2(t)) && !ShiftsByRegister(Parse3(t))
  {
    hide KindField, Low3, Field, BitAt;
  }

  lemma CoveredMul(t: Bits)
    requires Covered(t)
    ensures IsFormat4(t) && TinyOf(t).TMul? ==> Low3(t, 0) != Low3(t, 3)
  {
    hide Low3, TinyOf;
  }

  predicate IsHigh(t: Bits)
  {
    || IsFormat6(t) || IsFormat7(t) || IsFormat8(t) || IsFormat9(t) || IsFormat10(t) || IsFormat11(t) || IsFormat12(t) || IsFormat13(t)
  }

  /** The formats do not overlap. */
  lemma Apart(t: Bits)
    requires IsHigh(t)
    ensures !IsFormat1(t) && !IsFormat2(t) && !IsFormat3(t) && !IsFormat4(t)
  {}

  lemma PreservedWords(c: Core, pins: Pins, t: Bits)
    ensures IsFormat6(t) ==> Preserved(c, pins, T.Format6(t), Parse6(t))
    ensures IsFormat7(t) ==> Preserved(c, pins, T.Format7(t), Parse7(t))
    ensures IsFormat8(t) ==> Preserved(c, pins, T.Format8(t), Parse8(t))
    ensures IsFormat9(t) ==> Preserved(c, pins, T.Format9(t), Parse9(t))
  {
    hide *;
    if IsFormat6(t) { Translates6(c, pins, t); }
    if IsFormat7(t) { Translates7(c, pins, t); }
    if IsFormat8(t) { Translates8(c, pins, t); }
    if IsFormat9(t) { Translates9(c, pins, t); }
  }

  lemma PreservedRest(c: Core, pins: Pins, t: Bits)
    ensures IsFormat10(t) ==> Preserved(c, pins, T.Format10(t), Parse10(t))
    ensures IsFormat11(t) ==> Preserved(c, pins, T.Format11(t), Parse11(t))
    ensures IsFormat12(t) ==> Preserved(c, pins, T.Format12(t), Parse12(t))
    ensures IsFormat13(t) ==> Preserved(c, pins, T.Format13(t), Parse13(t))
  {
    hide *;
    if IsFormat10(t) { Translates10(c, pins, t); }
    if IsFormat11(t) { Translates11(c, pins, t); }
    if IsFormat12(t) { Translates12(c, pins, t); }
    if IsFormat13(t) { Translates13(c, pins, t); }
  }

  lemma NoShiftHigh(t: Bits)
    requires IsHigh(t)
    ensures !Parse(t).ShiftImm? && !Parse(t).Alu?
  {
    Apart(t);
    hide IsFormat1, IsFormat2, IsFormat3, IsFormat4, IsFormat6, IsFormat7, IsFormat8, IsFormat9, IsFormat10, IsFormat11,
      IsFormat12, IsFormat13, Low3, Field, BitAt;
  }

  lemma PreservedHigh(c: Core, pins: Pins, t: Bits)
    requires IsHigh(t)
    ensures !Parse(t).ShiftImm? && !Parse(t).Alu? && Preserved(c, pins, Produced(t), Parse(t))
  {
    Apart(t);
    NoShiftHigh(t);
    PreservedWords(c, pins, t);
    PreservedRest(c, pins, t);
    hide IsFormat1, IsFormat2, IsFormat3, IsFormat4, IsFormat6, IsFormat7, IsFormat8, IsFormat9, IsFormat10, IsFormat11,
      IsFormat12, IsFormat13, T.Format6, T.Format7, T.Format8, T.Format9, T.Format10, T.Format11, T.Format12, T.Format13, Parse6, Parse7,
      Parse8, Parse9, Parse10, Parse11, Parse12, Parse13, Preserved;
  }

  /** From every state, running the ARM instruction that ARMul_ThumbDecode makes of a covered halfword leaves the
      registers, flags, status and memory that the Thumb instruction leaves, a data abort included. */
  lemma TranslationPreservesMeaning(c: Core, pins: Pins, pc: Word, pair: Bits, aborted: bool)
    requires Covered(T.Halves(pair, pins.bigend).0)
    ensures var t := T.Halves(pair, pins.bigend).0;
            && T.Decode(c, pins, pc, pair, aborted) == T.Translated(Produced(t))
            && (Parse(t).ShiftImm? ==> Parse(t).n < 32) && Faithful(c, pins, Produced(t), Parse(t))
  {
    Decodes(c, pins, pc, pair, aborted);
    FaithfulAt(c, pins, T.Halves(pair, pins.bigend).0);
    hide *;
  }

  lemma FaithfulAt(c: Core, pins: Pins, t: Bits)
    requires Covered(t)
    ensures (Parse(t).ShiftImm? ==> Parse(t).n < 32) && Faithful(c, pins, Produced(t), Parse(t))
  {
    CoveredSplit(t);
    hide *;
    if IsHigh(t) {
      PreservedHigh(c, pins, t);
      NotAlu(Parse(t));
      FaithfulIfPreserved(c, pins, Produced(t), Parse(t));
    } else {
      FaithfulLow(c, pins, t);
    }
  }

  lemma NotAlu(i: Insn)
    ensures !i.Alu? ==> !ShiftsByRegister(i)
  {}

  lemma CoveredSplit(t: Bits)
    requires Covered(t)
    ensures IsHigh(t) || IsFormat1(t) || IsFormat2(t) || IsFormat3(t) || IsFormat4(t)
  {}
}
