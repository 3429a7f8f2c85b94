/** The barrel shifter: GetDPRegRHS, GetDPSRegRHS and GetLSRegRHS of arch_arm/common/armemu32.c,
    against section A5.1 of the ARM Architecture Reference Manual (ARM DDI 0100). */
module Shifter {
  import opened Words

  /** The shift opcodes of armemu.h. */
  datatype Kind = LSL | LSR | ASR | ROR

  /** Bits 5 and 6 of an instruction. */
  function KindOf(instr: Bits): Kind
  {
    if BitAt(instr, 6) then (if BitAt(instr, 5) then ROR else ASR) else (if BitAt(instr, 5) then LSR else LSL)
  }

  /** A shifted operand and the carry the shifter puts out. */
  datatype Shifted = Shifted(value: Bits, carry: bool)

  function Shl(x: Bits, n: Bits): Bits
    requires n < 32
  {
    x << n
  }

  function Shr(x: Bits, n: Bits): Bits
    requires n < 32
  {
    x >> n
  }

  /** `(int) x >> n`. */
  function Sar(x: Bits, n: Bits): Bits
    requires n < 32
  {
    if Neg(x) then !Shr(!x, n) else Shr(x, n)
  }

  /** `(int) x >> 31`. */
  function SignFill(x: Bits): Bits { if Neg(x) then 0xFFFF_FFFF else 0 }

  /** `(x << (32 - n)) | (x >> n)`, for n not 0. */
  function Rotated(x: Bits, n: Bits): Bits
    requires 0 < n < 32
  {
    Shl(x, 32 - n) | Shr(x, n)
  }

  /** `(x >> 1) | (CFLAG << 31)`. */
  function Rrx(x: Bits, c: bool): Bits { (x >> 1) | (if c then 0x8000_0000 else 0) }

  /** GetDPRegRHS, shift amount in a register: `n` is its low byte. */
  function RegShiftValue(kind: Kind, x: Bits, n: Bits): Bits
    requires n < 256
  {
    match kind
    case LSL => if n == 0 then x else if n >= 32 then 0 else Shl(x, n)
    case LSR => if n == 0 then x else if n >= 32 then 0 else Shr(x, n)
    case ASR => if n == 0 then x else if n >= 32 then SignFill(x) else Sar(x, n)
    case ROR => var m := n & 0x1F; if m == 0 then x else Rotated(x, m)
  }

  /** GetDPRegRHS and GetLSRegRHS, constant shift amount. */
  function ImmShiftValue(kind: Kind, x: Bits, n: Bits, c: bool): Bits
    requires n < 32
  {
    match kind
    case LSL => Shl(x, n)
    case LSR => if n == 0 then 0 else Shr(x, n)
    case ASR => if n == 0 then SignFill(x) else Sar(x, n)
    case ROR => if n == 0 then Rrx(x, c) else Rotated(x, n)
  }

  /** GetDPSRegRHS, shift amount in a register. */
  function RegShift(kind: Kind, x: Bits, n: Bits, c: bool): Shifted
    requires n < 256
  {
    if n == 0 then Shifted(x, c)
    else match kind
      case LSL =>
        if n == 32 then Shifted(0, Odd(x)) else if n > 32 then Shifted(0, false)
        else Shifted(Shl(x, n), Odd(Shr(x, 32 - n)))
      case LSR =>
        if n == 32 then Shifted(0, Neg(x)) else if n > 32 then Shifted(0, false)
        else Shifted(Shr(x, n), Odd(Shr(x, n - 1)))
      case ASR =>
        if n >= 32 then Shifted(SignFill(x), Neg(x))
        else Shifted(Sar(x, n), Odd(Sar(x, n - 1)))
      case ROR =>
        var m := n & 0x1F;
        if m == 0 then Shifted(x, Neg(x)) else Shifted(Rotated(x, m), Odd(Shr(x, m - 1)))
  }

  /** GetDPSRegRHS, constant shift amount. The source evaluates `base >> (32 - shamt)` for LSL, which C
      leaves undefined for LSL #0: the DPSRegRHS macro has to keep that case away. */
  function ImmShift(kind: Kind, x: Bits, n: Bits, c: bool): Shifted
    requires n < 32 && !(kind == LSL && n == 0)
  {
    match kind
    case LSL => Shifted(Shl(x, n), Odd(Shr(x, 32 - n)))
    case LSR => if n == 0 then Shifted(0, Neg(x)) else Shifted(Shr(x, n), Odd(Shr(x, n - 1)))
    case ASR => if n == 0 then Shifted(SignFill(x), Neg(x)) else Shifted(Sar(x, n), Odd(Sar(x, n - 1)))
    case ROR => if n == 0 then Shifted(Rrx(x, c), Odd(x)) else Shifted(Rotated(x, n), Odd(Shr(x, n - 1)))
  }

  // ---------------------------------------------------------------------------------------------
  // Section A5.1: a shift by n is n shifts by one place, and the carry out is the last bit to leave

  function Lsl1(x: Bits): Bits { x << 1 }
  function Lsr1(x: Bits): Bits { x >> 1 }
  function Asr1(x: Bits): Bits { (x >> 1) | (x & 0x8000_0000) }
  function Ror1(x: Bits): Bits { (x >> 1) | (x << 31) }

  function ShiftOnce(kind: Kind, x: Bits): Shifted
  {
    match kind
    case LSL => Shifted(Lsl1(x), Neg(x))
    case LSR => Shifted(Lsr1(x), Odd(x))
    case ASR => Shifted(Asr1(x), Odd(x))
    case ROR => Shifted(Ror1(x), Odd(x))
  }

  /** Sections A5.1.5 to A5.1.12: shifting by n, where a shift by 0 passes the carry flag through. */
  function ShiftSteps(kind: Kind, x: Bits, n: Bits, c: bool): Shifted
    decreases n
  {
    if n == 0 then Shifted(x, c) else ShiftOnce(kind, ShiftSteps(kind, x, n - 1, c).value)
  }

  /** An immediate amount of 0 means LSL #0 (no shift), LSR #32, ASR #32 and RRX (A5.1.13). */
  function ImmShiftSteps(kind: Kind, x: Bits, n: Bits, c: bool): Shifted
    requires n < 32
  {
    if n != 0 || kind == LSL then ShiftSteps(kind, x, n, c)
    else if kind == ROR then Shifted(Rrx(x, c), Odd(x))
    else ShiftSteps(kind, x, 32, c)
  }

  // One more place. The first lemmas are about the bit-vector operations alone.

  lemma ShlStep(x: Bits, n: Bits)
    requires 0 < n < 32
    ensures Shl(x, n) == Lsl1(Shl(x, n - 1))
    ensures Odd(Shr(x, 32 - n)) <==> Neg(Shl(x, n - 1)) 
  {}
  lemma ShrStep(x: Bits, n: Bits)
    requires 0 < n < 32
    ensures Shr(x, n) == Lsr1(Shr(x, n - 1))
  {}
  lemma ShrTop(x: Bits, n: Bits)
    requires !Neg(x) && n < 32
    ensures !Neg(Shr(x, n))
  {}
  lemma Asr1Not(y: Bits)
    requires !Neg(y)
    ensures Asr1(!y) == !Lsr1(y)
  {}
  lemma Asr1Positive(x: Bits)
    requires !Neg(x)
    ensures Asr1(x) == Lsr1(x)
  {}
  lemma NegNot(x: Bits)
    ensures Neg(!x) <==> !Neg(x)
  {}
  lemma Ends(x: Bits)
    ensures Shl(x, 0) == x && Shr(x, 0) == x && Sar(x, 0) == x && Sar(x, 31) == SignFill(x)
    ensures Lsl1(Shl(x, 31)) == 0 && Lsr1(Shr(x, 31)) == 0 && Asr1(SignFill(x)) == SignFill(x)
    ensures Lsl1(0) == 0 && Lsr1(0) == 0 && !Odd(0) && !Neg(0)
    ensures Neg(Shl(x, 31)) <==> Odd(x)
    ensures Odd(Shr(x, 31)) <==> Neg(x)
    ensures Odd(SignFill(x)) <==> Neg(x)
  {}
  lemma RotatedFirst(x: Bits)
    ensures Rotated(x, 1) == Ror1(x)
  {}
  lemma RotatedLast(x: Bits)
    ensures Ror1(Rotated(x, 31)) == x
  {}
  lemma RotatedLow(x: Bits, n: Bits)
    requires 0 < n < 31
    ensures Odd(Rotated(x, n)) <==> Odd(Shr(x, n))
  {}
  lemma RotatedTop(x: Bits)
    ensures Odd(Rotated(x, 31)) <==> Neg(x)
  {}
  lemma RotatedRaw(x: Bits, n: Bits)
    requires 1 < n < 32
    ensures Shl(x, 32 - n) | Shr(x, n) == Ror1(Shl(x, 33 - n) | Shr(x, n - 1))
  {}
  lemma OneLess(n: Bits)
    requires 1 < n < 32
    ensures 32 - (n - 1) == 33 - n
  {}
  lemma RotatedStep(x: Bits, n: Bits)
    requires 1 < n < 32
    ensures Rotated(x, n) == Ror1(Rotated(x, n - 1))
  {
    OneLess(n);
    RotatedRaw(x, n);
    hide Shl, Shr, Ror1;
  }

  lemma SarStep(x: Bits, n: Bits)
    requires 0 < n < 32
    ensures Sar(x, n) == Asr1(Sar(x, n - 1))
  {
    hide Shr, Asr1, Neg, Lsr1;
    if Neg(x) {
      NegNot(x);
      ShrStep(!x, n);
      ShrTop(!x, n - 1);
      Asr1Not(Shr(!x, n - 1));
    } else {
      ShrStep(x, n);
      ShrTop(x, n - 1);
      Asr1Positive(Shr(x, n - 1));
    }
  }

  lemma LslStep(x: Bits, n: Bits, c: bool)
    requires 0 < n < 256
    ensures RegShift(LSL, x, n, c) == ShiftOnce(LSL, RegShift(LSL, x, n - 1, c).value)
  {
    hide Shl, Shr, Lsl1, Odd, Neg;
    Ends(x);
    if n < 32 { ShlStep(x, n); }
  }

  lemma LsrStep(x: Bits, n: Bits, c: bool)
    requires 0 < n < 256
    ensures RegShift(LSR, x, n, c) == ShiftOnce(LSR, RegShift(LSR, x, n - 1, c).value)
  {
    hide Shr, Lsr1, Odd, Neg;
    Ends(x);
    if n < 32 { ShrStep(x, n); }
  }

  lemma AsrStep(x: Bits, n: Bits, c: bool)
    requires 0 < n < 256
    ensures RegShift(ASR, x, n, c) == ShiftOnce(ASR, RegShift(ASR, x, n - 1, c).value)
  {
    hide Sar, Asr1, SignFill, Odd, Neg;
    Ends(x);
    if n < 32 { SarStep(x, n); }
  }

  lemma RorStep(x: Bits, n: Bits, c: bool)
    requires 0 < n < 256
    ensures RegShift(ROR, x, n, c) == ShiftOnce(ROR, RegShift(ROR, x, n - 1, c).value)
  {
    hide Rotated, Ror1, Odd, Neg, Shr;
    var m := n & 0x1F;
    if m == 0 {
      RotatedLast(x);
      RotatedTop(x);
    } else if m == 1 {
      RotatedFirst(x);
      Ends(x);
    } else {
      RotatedStep(x, m);
      RotatedLow(x, m - 1);
    }
  }

  // ---------------------------------------------------------------------------------------------
  // The three routines and the manual

  /** GetDPSRegRHS with a register amount is the shifter of section A5.1, for every amount from 0 to 255. */
  lemma {:induction false} RegShiftIsManual(kind: Kind, x: Bits, n: Bits, c: bool)
    requires n < 256
    ensures RegShift(kind, x, n, c) == ShiftSteps(kind, x, n, c)
    decreases n
  {
    hide ShiftOnce;
    if n != 0 {
      RegShiftIsManual(kind, x, n - 1, c);
      match kind
      case LSL => LslStep(x, n, c);
      case LSR => LsrStep(x, n, c);
      case ASR => AsrStep(x, n, c);
      case ROR => RorStep(x, n, c);
    }
  }

  /** GetDPSRegRHS with a constant amount is the shifter of section A5.1 wherever the macro calls it. */
  lemma ImmShiftIsManual(kind: Kind, x: Bits, n: Bits, c: bool)
    requires n < 32 && !(kind == LSL && n == 0)
    ensures ImmShift(kind, x, n, c) == ImmShiftSteps(kind, x, n, c)
  {
    if n == 0 {
      RegShiftIsManual(kind, x, 32, c);
    } else {
      RegShiftIsManual(kind, x, n, c);
      SmallAmount(n);
    }
  }

  lemma SmallAmount(n: Bits)
    requires n < 32
    ensures n & 0x1F == n
  {}

  /** The routine without flags computes the same value. */
  lemma RegShiftValueIsManual(kind: Kind, x: Bits, n: Bits, c: bool)
    requires n < 256
    ensures RegShiftValue(kind, x, n) == ShiftSteps(kind, x, n, c).value
  {
    RegShiftIsManual(kind, x, n, c);
  }

  lemma ImmShiftValueIsManual(kind: Kind, x: Bits, n: Bits, c: bool)
    requires n < 32
    ensures ImmShiftValue(kind, x, n, c) == ImmShiftSteps(kind, x, n, c).value
  {
    if kind == LSL && n == 0 {
      Ends(x);
    } else {
      ImmShiftIsManual(kind, x, n, c);
    }
  }
}
