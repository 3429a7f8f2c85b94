/** The RAM of memory/ram.c: an array of 32-bit words for each bank, read and written by byte, halfword and
    word in either endianness. It refines one flat map from addresses to bytes. */
module Ram {
  import opened Words
  import opened BankSearch

  datatype Ram = Ram(banks: seq<Bank>, rom: seq<seq<Bits>>, big: bool)

  /** Word-aligned banks with an array of words each. */
  predicate Formed(r: Ram)
  {
    && Terminated(r.banks) && |r.rom| >= Count(r.banks)
    && (forall i :: 0 <= i < Count(r.banks) ==>
          r.banks[i].addr % 4 == 0 && r.banks[i].len % 4 == 0 && |r.rom[i]| == r.banks[i].len / 4)
  }

  predicate Mapped(r: Ram, a: nat)
    requires Terminated(r.banks)
  {
    First(r.banks, a).Some?
  }

  /** The bank of an address, and the index of its word there. */
  function BankOf(r: Ram, a: nat): nat
    requires Formed(r) && Mapped(r, a)
  {
    First(r.banks, a).value
  }

  function IndexOf(r: Ram, a: nat): (k: nat)
    requires Formed(r) && Mapped(r, a)
    ensures k < |r.rom[BankOf(r, a)]|
  {
    (a - r.banks[BankOf(r, a)].addr) / 4
  }

  function Cell(r: Ram, a: nat): Bits
    requires Formed(r) && Mapped(r, a)
  {
    r.rom[BankOf(r, a)][IndexOf(r, a)]
  }

  function WithCell(r: Ram, a: nat, w: Bits): Ram
    requires Formed(r) && Mapped(r, a)
  {
    r.(rom := r.rom[BankOf(r, a) := r.rom[BankOf(r, a)][IndexOf(r, a) := w]])
  }

  // ---------------------------------------------------------------------------------------------
  // Lanes of a word

  /** The byte lane of an address: (big_endian * 3) ^ (addr & 3). */
  function Lane(a: nat, big: bool): (l: nat)
    ensures l < 4
  {
    if big then 3 - a % 4 else a % 4
  }

  /** The halfword lane: (big_endian * 2) ^ (addr & 2), in bytes. */
  function HalfLane(a: nat, big: bool): (l: nat)
    ensures l == 0 || l == 2
  {
    if (a / 2) % 2 == (if big then 1 else 0) then 0 else 2
  }

  /** `lane << 3`. */
  function Offset(lane: nat): (n: Bits)
    requires lane < 4
    ensures n <= 24
  {
    if lane == 0 then 0 else if lane == 1 then 8 else if lane == 2 then 16 else 24
  }

  function ByteOf(w: Bits, lane: nat): Bits
    requires lane < 4
  {
    (w >> Offset(lane)) & 0xFF
  }

  function HalfOf(w: Bits, lane: nat): Bits
    requires lane < 4
  {
    (w >> Offset(lane)) & 0xFFFF
  }

  function PutByte(w: Bits, lane: nat, data: Bits): Bits
    requires lane < 4
  {
    (w & !(0xFF << Offset(lane))) | ((data & 0xFF) << Offset(lane))
  }

  function PutHalf(w: Bits, lane: nat, data: Bits): Bits
    requires lane < 4
  {
    (w & !(0xFFFF << Offset(lane))) | ((data & 0xFFFF) << Offset(lane))
  }

  lemma PutByte0(w: Bits, d: Bits)
    ensures ByteOf(PutByte(w, 0, d), 0) == LowByte(d)
    ensures ByteOf(PutByte(w, 0, d), 1) == ByteOf(w, 1)
    ensures ByteOf(PutByte(w, 0, d), 2) == ByteOf(w, 2)
    ensures ByteOf(PutByte(w, 0, d), 3) == ByteOf(w, 3)
  {}

  lemma PutByte1(w: Bits, d: Bits)
    ensures ByteOf(PutByte(w, 1, d), 0) == ByteOf(w, 0)
    ensures ByteOf(PutByte(w, 1, d), 1) == LowByte(d)
    ensures ByteOf(PutByte(w, 1, d), 2) == ByteOf(w, 2)
    ensures ByteOf(PutByte(w, 1, d), 3) == ByteOf(w, 3)
  {}

  lemma PutByte2Low(w: Bits, d: Bits)
    ensures ByteOf(PutByte(w, 2, d), 0) == ByteOf(w, 0)
    ensures ByteOf(PutByte(w, 2, d), 1) == ByteOf(w, 1)
  {}

  lemma PutByte2(w: Bits, d: Bits)
    ensures ByteOf(PutByte(w, 2, d), 2) == LowByte(d)
    ensures ByteOf(PutByte(w, 2, d), 3) == ByteOf(w, 3)
  {}

  lemma PutByte3(w: Bits, d: Bits)
    ensures ByteOf(PutByte(w, 3, d), 0) == ByteOf(w, 0)
    ensures ByteOf(PutByte(w, 3, d), 1) == ByteOf(w, 1)
    ensures ByteOf(PutByte(w, 3, d), 2) == ByteOf(w, 2)
    ensures ByteOf(PutByte(w, 3, d), 3) == LowByte(d)
  {}

  lemma PutHalf0(w: Bits, d: Bits)
    ensures ByteOf(PutHalf(w, 0, d), 0) == LowByte(d)
    ensures ByteOf(PutHalf(w, 0, d), 1) == NextByte(d)
    ensures ByteOf(PutHalf(w, 0, d), 2) == ByteOf(w, 2)
    ensures ByteOf(PutHalf(w, 0, d), 3) == ByteOf(w, 3)
  {}

  lemma PutHalf2(w: Bits, d: Bits)
    ensures ByteOf(PutHalf(w, 2, d), 0) == ByteOf(w, 0)
    ensures ByteOf(PutHalf(w, 2, d), 1) == ByteOf(w, 1)
    ensures ByteOf(PutHalf(w, 2, d), 2) == LowByte(d)
    ensures ByteOf(PutHalf(w, 2, d), 3) == NextByte(d)
  {}

  lemma PutByteLanes(w: Bits, lane: nat, data: Bits, m: nat)
    requires lane < 4 && m < 4
    ensures ByteOf(PutByte(w, lane, data), m) == if m == lane then LowByte(data) else ByteOf(w, m)
  {
    PutByte0(w, data);
    PutByte1(w, data);
    PutByte2Low(w, data);
    PutByte2(w, data);
    PutByte3(w, data);
    hide ByteOf, PutByte;
  }

  function LowByte(d: Bits): Bits { d & 0xFF }
  function NextByte(d: Bits): Bits { (d >> 8) & 0xFF }

  lemma PutHalfLanes(w: Bits, lane: nat, data: Bits, m: nat)
    requires (lane == 0 || lane == 2) && m < 4
    ensures ByteOf(PutHalf(w, lane, data), m)
         == if m == lane then LowByte(data) else if m == lane + 1 then NextByte(data) else ByteOf(w, m)
  {
    PutHalf0(w, data);
    PutHalf2(w, data);
    hide ByteOf, PutHalf;
  }

  /** A little-endian halfword and word of bytes. */
  function Pair(b0: Bits, b1: Bits): Bits { b0 | (b1 << 8) }
  function Quad(b0: Bits, b1: Bits, b2: Bits, b3: Bits): Bits { b0 | (b1 << 8) | (b2 << 16) | (b3 << 24) }

  lemma LowHalfBytes(w: Bits)
    ensures HalfOf(w, 0) == Pair(ByteOf(w, 0), ByteOf(w, 1))
  {}

  lemma HighHalfBytes(w: Bits)
    ensures HalfOf(w, 2) == Pair(ByteOf(w, 2), ByteOf(w, 3))
  {}

  lemma HalfOfBytes(w: Bits, lane: nat)
    requires lane == 0 || lane == 2
    ensures HalfOf(w, lane) == Pair(ByteOf(w, lane), ByteOf(w, lane + 1))
  {
    LowHalfBytes(w);
    HighHalfBytes(w);
    hide HalfOf, Pair, ByteOf;
  }

  lemma WordOfBytes(w: Bits)
    ensures w == Quad(ByteOf(w, 0), ByteOf(w, 1), ByteOf(w, 2), ByteOf(w, 3))
  {}

  // ---------------------------------------------------------------------------------------------
  // Accesses

  function ReadByte(r: Ram, a: nat): Bits
    requires Formed(r) && Mapped(r, a)
  {
    ByteOf(Cell(r, a), Lane(a, r.big))
  }

  function ReadHalf(r: Ram, a: nat): Bits
    requires Formed(r) && Mapped(r, a)
  {
    HalfOf(Cell(r, a), HalfLane(a, r.big))
  }

  function ReadWord(r: Ram, a: nat): Bits
    requires Formed(r) && Mapped(r, a)
  {
    Cell(r, a)
  }

  function WriteByte(r: Ram, a: nat, data: Bits): Ram
    requires Formed(r) && Mapped(r, a)
  {
    WithCell(r, a, PutByte(Cell(r, a), Lane(a, r.big), data))
  }

  function WriteHalf(r: Ram, a: nat, data: Bits): Ram
    requires Formed(r) && Mapped(r, a)
  {
    WithCell(r, a, PutHalf(Cell(r, a), HalfLane(a, r.big), data))
  }

  function WriteWord(r: Ram, a: nat, data: Bits): Ram
    requires Formed(r) && Mapped(r, a)
  {
    WithCell(r, a, data)
  }

  /** ram.c on the machine; every access goes through bank_ptr and its memory of the last bank. */
  class Memory {
    const memmap: MemMap
    const rom: array<seq<Bits>>
    const bigEndian: bool

    ghost predicate Valid()
      reads memmap, rom
    {
      memmap.Valid() && Formed(Value()) && Unambiguous(memmap.memBanks) && Sound(memmap.memBanks, memmap.mbp)
    }

    ghost function Value(): Ram
      reads rom
    {
      Ram(memmap.memBanks, rom[..], bigEndian)
    }

    constructor (m: MemMap, words: array<seq<Bits>>, big: bool)
      requires m.Valid() && Formed(Ram(m.memBanks, words[..], big)) && Unambiguous(m.memBanks) && Sound(m.memBanks, m.mbp)
      ensures Valid() && Value() == Ram(m.memBanks, words[..], big)
    {
      memmap, rom, bigEndian := m, words, big;
    }

    /** The bank and the index of the word at `addr`. */
    method Locate(addr: nat) returns (bank: nat, k: nat)
      requires Valid() && Mapped(Value(), addr)
      modifies memmap
      ensures Valid() && bank == BankOf(Value(), addr) && k == IndexOf(Value(), addr) && bank < rom.Length
    {
      FoundSound(memmap.memBanks, memmap.mbp, addr);
      var mbp := memmap.BankPtr(addr);
      bank := mbp.value;
      k := (addr - memmap.memBanks[bank].addr) / 4;
    }

    method MemReadByte(addr: nat) returns (data: Bits)
      requires Valid() && Mapped(Value(), addr)
      modifies memmap
      ensures Valid() && data == ReadByte(Value(), addr)
    {
      hide Lane, ByteOf;
      var bank, k := Locate(addr);
      data := ByteOf(rom[bank][k], Lane(addr, bigEndian));
    }

    method MemReadHalfword(addr: nat) returns (data: Bits)
      requires Valid() && Mapped(Value(), addr)
      modifies memmap
      ensures Valid() && data == ReadHalf(Value(), addr)
    {
      hide HalfLane, HalfOf;
      var bank, k := Locate(addr);
      data := HalfOf(rom[bank][k], HalfLane(addr, bigEndian));
    }

    method MemReadWord(addr: nat) returns (data: Bits)
      requires Valid() && Mapped(Value(), addr)
      modifies memmap
      ensures Valid() && data == ReadWord(Value(), addr)
    {
      var bank, k := Locate(addr);
      data := rom[bank][k];
    }

    method SetCell(bank: nat, k: nat, w: Bits)
      requires Valid() && bank < Count(memmap.memBanks) && bank < rom.Length && k < |rom[bank]|
      modifies rom
      ensures Valid() && rom[..] == old(rom[..])[bank := old(rom[bank])[k := w]]
    {
      hide Unambiguous, Sound, Count;
      rom[bank] := rom[bank][k := w];
    }

    method MemWriteByte(addr: nat, data: Bits)
      requires Valid() && Mapped(Value(), addr)
      modifies memmap, rom
      ensures Valid() && Value() == WriteByte(old(Value()), addr, data)
    {
      hide Lane, PutByte;
      var bank, k := Locate(addr);
      SetCell(bank, k, PutByte(rom[bank][k], Lane(addr, bigEndian), data));
    }

    method MemWriteHalfword(addr: nat, data: Bits)
      requires Valid() && Mapped(Value(), addr)
      modifies memmap, rom
      ensures Valid() && Value() == WriteHalf(old(Value()), addr, data)
    {
      hide HalfLane, PutHalf;
      var bank, k := Locate(addr);
      SetCell(bank, k, PutHalf(rom[bank][k], HalfLane(addr, bigEndian), data));
    }

    method MemWriteWord(addr: nat, data: Bits)
      requires Valid() && Mapped(Value(), addr)
      modifies memmap, rom
      ensures Valid() && Value() == WriteWord(old(Value()), addr, data)
    {
      var bank, k := Locate(addr);
      SetCell(bank, k, data);
    }
  }

  // ---------------------------------------------------------------------------------------------
  // One byte map

  /** The word of an address: its first byte. */
  function WordStart(a: nat): nat { a - a % 4 }

  /** The four bytes of a word are in one bank. */
  lemma SameBank(r: Ram, a: nat, b: nat)
    requires Formed(r) && Mapped(r, a) && WordStart(a) == WordStart(b)
    ensures Mapped(r, b) && BankOf(r, b) == BankOf(r, a) && IndexOf(r, b) == IndexOf(r, a)
  {
    var j := BankOf(r, a);
    forall i | 0 <= i < Count(r.banks) ensures Match(r.banks[i], a) <==> Match(r.banks[i], b) {
      MatchWord(r.banks[i], a, b);
    }
    FirstSame(r.banks, a, b, 0);
    IndexSame(r.banks[j].addr, a, b);
  }

  lemma MatchWord(k: Bank, a: nat, b: nat)
    requires k.addr % 4 == 0 && k.len % 4 == 0 && WordStart(a) == WordStart(b)
    ensures Match(k, a) <==> Match(k, b)
  {}

  lemma {:induction false} FirstSame(banks: seq<Bank>, a: nat, b: nat, k: nat)
    requires Terminated(banks) && k <= Count(banks)
    requires forall i :: 0 <= i < Count(banks) ==> (Match(banks[i], a) <==> Match(banks[i], b))
    ensures FirstFrom(banks, a, k) == FirstFrom(banks, b, k)
    decreases Count(banks) - k
  {
    if k < Count(banks) { FirstSame(banks, a, b, k + 1); }
  }

  lemma IndexSame(base: nat, a: nat, b: nat)
    requires base % 4 == 0 && WordStart(a) == WordStart(b) && base <= a && base <= b
    ensures (a - base) / 4 == (b - base) / 4
  {}

  /** Two addresses share a word of the array only if they share a word. */
  lemma OtherCell(r: Ram, a: nat, b: nat)
    requires Formed(r) && Mapped(r, a) && Mapped(r, b)
    requires BankOf(r, b) == BankOf(r, a) && IndexOf(r, b) == IndexOf(r, a)
    ensures WordStart(a) == WordStart(b)
  {
    SameIndex(r.banks[BankOf(r, a)].addr, a, b);
  }

  lemma SameIndex(base: nat, a: nat, b: nat)
    requires base % 4 == 0 && base <= a && base <= b && (a - base) / 4 == (b - base) / 4
    ensures WordStart(a) == WordStart(b)
  {}

  lemma WithCellReads(r: Ram, a: nat, w: Bits, b: nat)
    requires Formed(r) && Mapped(r, a) && Mapped(r, b)
    ensures var s := WithCell(r, a, w);
            Formed(s) && Mapped(s, b) && Cell(s, b) == if WordStart(a) == WordStart(b) then w else Cell(r, b)
  {
    if WordStart(a) == WordStart(b) { SameBank(r, a, b); }
    if BankOf(r, b) == BankOf(r, a) && IndexOf(r, b) == IndexOf(r, a) { OtherCell(r, a, b); }
    hide WordStart, First;
  }

  lemma LaneSame(a: nat, b: nat, big: bool)
    requires WordStart(a) == WordStart(b)
    ensures Lane(a, big) == Lane(b, big) <==> a == b
  {}

  /** A byte write changes its own byte and no other. */
  lemma WriteByteFrame(r: Ram, a: nat, data: Bits, b: nat)
    requires Formed(r) && Mapped(r, a) && Mapped(r, b)
    ensures var s := WriteByte(r, a, data);
            Formed(s) && Mapped(s, b) && ReadByte(s, b) == if a == b then LowByte(data) else ReadByte(r, b)
  {
    WithCellReads(r, a, PutByte(Cell(r, a), Lane(a, r.big), data), b);
    if WordStart(a) == WordStart(b) {
      SameBank(r, a, b);
      LaneSame(a, b, r.big);
    }
    PutByteLanes(Cell(r, a), Lane(a, r.big), data, Lane(b, r.big));
    hide PutByte, ByteOf, Lane, WordStart, Cell, WithCell;
  }

  /** The byte of a halfword at offset 0 or 1, in the given endianness. */
  function HalfByte(data: Bits, i: nat, big: bool): Bits { if (i == 0) == big then NextByte(data) else LowByte(data) }

  lemma HalfLanes(a: nat, b: nat, big: bool)
    requires a % 2 == 0 && WordStart(a) == WordStart(b)
    ensures b == a ==> Lane(b, big) == HalfLane(a, big) + (if big then 1 else 0)
    ensures b == a + 1 ==> Lane(b, big) == HalfLane(a, big) + (if big then 0 else 1)
    ensures b != a && b != a + 1 ==> Lane(b, big) != HalfLane(a, big) && Lane(b, big) != HalfLane(a, big) + 1
  {}

  lemma EvenWord(a: nat)
    requires a % 2 == 0
    ensures WordStart(a + 1) == WordStart(a)
  {
    var k, r := a / 4, a % 4;
    assert a == 4 * k + r;
    assert r == 0 || r == 2;
    DivModUnique(a + 1, 4, k, r + 1);
  }

  /** A halfword write to an even address changes its own two bytes and no other. */
  lemma WriteHalfFrame(r: Ram, a: nat, data: Bits, b: nat)
    requires Formed(r) && Mapped(r, a) && Mapped(r, b) && a % 2 == 0
    ensures var s := WriteHalf(r, a, data);
            && Formed(s) && Mapped(s, b)
            && ReadByte(s, b) == if b == a || b == a + 1 then HalfByte(data, b - a, r.big) else ReadByte(r, b)
  {
    WithCellReads(r, a, PutHalf(Cell(r, a), HalfLane(a, r.big), data), b);
    EvenWord(a);
    if WordStart(a) == WordStart(b) {
      SameBank(r, a, b);
      HalfLanes(a, b, r.big);
    }
    PutHalfLanes(Cell(r, a), HalfLane(a, r.big), data, Lane(b, r.big));
    hide PutHalf, ByteOf, Lane, HalfLane, WordStart, Cell, WithCell;
  }

  /** The byte of a word at offset 0 to 3, in the given endianness. */
  function WordByte(data: Bits, i: nat, big: bool): Bits
    requires i < 4
  {
    ByteOf(data, if big then 3 - i else i)
  }

  lemma WordLanes(a: nat, b: nat, big: bool)
    requires a % 4 == 0 && WordStart(a) == WordStart(b)
    ensures a <= b < a + 4 && Lane(b, big) == if big then 3 - (b - a) else b - a
  {}

  lemma OtherWord(a: nat, b: nat)
    requires a % 4 == 0 && WordStart(a) != WordStart(b)
    ensures !(a <= b < a + 4)
  {}

  /** A word write to an aligned address changes its own four bytes and no other. */
  lemma WriteWordFrame(r: Ram, a: nat, data: Bits, b: nat)
    requires Formed(r) && Mapped(r, a) && Mapped(r, b) && a % 4 == 0
    ensures var s := WriteWord(r, a, data);
            && Formed(s) && Mapped(s, b)
            && ReadByte(s, b) == if a <= b < a + 4 then WordByte(data, b - a, r.big) else ReadByte(r, b)
  {
    WithCellReads(r, a, data, b);
    if WordStart(a) == WordStart(b) {
      WordLanes(a, b, r.big);
    } else {
      OtherWord(a, b);
    }
    hide ByteOf, Lane, WordStart, Cell, WithCell;
  }

  /** A halfword read from an even address is its two bytes. */
  lemma ReadHalfBytes(r: Ram, a: nat)
    requires Formed(r) && Mapped(r, a) && a % 2 == 0
    ensures Mapped(r, a + 1)
    ensures ReadHalf(r, a) == if r.big then Pair(ReadByte(r, a + 1), ReadByte(r, a)) else Pair(ReadByte(r, a), ReadByte(r, a + 1))
  {
    EvenWord(a);
    SameBank(r, a, a + 1);
    HalfLanes(a, a, r.big);
    HalfLanes(a, a + 1, r.big);
    HalfOfBytes(Cell(r, a), HalfLane(a, r.big));
    hide ByteOf, HalfOf, Lane, HalfLane, WordStart, Pair, First;
  }

  lemma AlignedWord(a: nat, i: nat)
    requires a % 4 == 0 && i < 4
    ensures WordStart(a + i) == WordStart(a)
  {}

  lemma WordBytesMapped(r: Ram, a: nat, i: nat)
    requires Formed(r) && Mapped(r, a) && a % 4 == 0 && i < 4
    ensures Mapped(r, a + i) && ReadByte(r, a + i) == WordByte(Cell(r, a), i, r.big)
  {
    AlignedWord(a, i);
    SameBank(r, a, a + i);
    WordLanes(a, a + i, r.big);
    hide ByteOf, Lane, WordStart, First;
  }

  /** A word read from an aligned address is its four bytes. */
  lemma ReadWordBytes(r: Ram, a: nat)
    requires Formed(r) && Mapped(r, a) && a % 4 == 0
    ensures Mapped(r, a + 1) && Mapped(r, a + 2) && Mapped(r, a + 3)
    ensures var b0, b1, b2, b3 := ReadByte(r, a), ReadByte(r, a + 1), ReadByte(r, a + 2), ReadByte(r, a + 3);
            ReadWord(r, a) == if r.big then Quad(b3, b2, b1, b0) else Quad(b0, b1, b2, b3)
  {
    hide ByteOf, ReadByte, Quad, Cell, First, WordByte, Formed;
    WordBytesMapped(r, a, 0);
    WordBytesMapped(r, a, 1);
    WordBytesMapped(r, a, 2);
    WordBytesMapped(r, a, 3);
    WordQuad(Cell(r, a), r.big);
  }

  lemma WordQuad(w: Bits, big: bool)
    ensures var b0, b1, b2, b3 := WordByte(w, 0, big), WordByte(w, 1, big), WordByte(w, 2, big), WordByte(w, 3, big);
            w == if big then Quad(b3, b2, b1, b0) else Quad(b0, b1, b2, b3)
  {
    WordOfBytes(w);
    hide ByteOf, Quad;
  }

  // ---------------------------------------------------------------------------------------------
  // Every interleaving of accesses

  datatype Size = Size8 | Size16 | Size32

  datatype Access = Read(size: Size, addr: nat) | Write(size: Size, addr: nat, data: Bits)

  predicate Aligned(x: Access) { x.addr % (match x.size case Size8 => 1 case Size16 => 2 case Size32 => 4) == 0 }

  predicate Legal(banks: seq<Bank>, x: Access)
    requires Terminated(banks)
  {
    Aligned(x) && First(banks, x.addr).Some?
  }

  /** One access to the RAM: the RAM after it, and the value read (0 for a write). */
  function RamStep(r: Ram, x: Access): (Ram, Bits)
    requires Formed(r) && Legal(r.banks, x)
  {
    match x
    case Read(Size8, a) => (r, ReadByte(r, a))
    case Read(Size16, a) => (r, ReadHalf(r, a))
    case Read(Size32, a) => (r, ReadWord(r, a))
    case Write(Size8, a, d) => (WriteByte(r, a, d), 0)
    case Write(Size16, a, d) => (WriteHalf(r, a, d), 0)
    case Write(Size32, a, d) => (WriteWord(r, a, d), 0)
  }

  /** Memory as the architecture has it: a map from addresses to bytes. */
  type Bytes = map<nat, Bits>

  function At(m: Bytes, a: nat): Bits { if a in m then m[a] else 0 }

  /** The same access to a byte map. */
  function ByteStep(m: Bytes, big: bool, x: Access): (Bytes, Bits)
  {
    match x
    case Read(Size8, a) => (m, At(m, a))
    case Read(Size16, a) => (m, if big then Pair(At(m, a + 1), At(m, a)) else Pair(At(m, a), At(m, a + 1)))
    case Read(Size32, a) =>
      (m, if big then Quad(At(m, a + 3), At(m, a + 2), At(m, a + 1), At(m, a))
          else Quad(At(m, a), At(m, a + 1), At(m, a + 2), At(m, a + 3)))
    case Write(Size8, a, d) => (m[a := LowByte(d)], 0)
    case Write(Size16, a, d) => (m[a := HalfByte(d, 0, big)][a + 1 := HalfByte(d, 1, big)], 0)
    case Write(Size32, a, d) =>
      (m[a := WordByte(d, 0, big)][a + 1 := WordByte(d, 1, big)][a + 2 := WordByte(d, 2, big)][a + 3 := WordByte(d, 3, big)], 0)
  }

  /** The byte map holds, for each mapped address, the byte the RAM has there. */
  ghost predicate Refines(r: Ram, m: Bytes)
    requires Formed(r)
  {
    forall a: nat :: Mapped(r, a) ==> a in m && m[a] == ReadByte(r, a)
  }

  lemma ByteIs(r: Ram, m: Bytes, a: nat)
    requires Formed(r) && Refines(r, m) && Mapped(r, a)
    ensures At(m, a) == ReadByte(r, a)
  {
    hide ReadByte;
  }

  lemma Read16Refines(r: Ram, m: Bytes, a: nat)
    requires Formed(r) && Refines(r, m) && Mapped(r, a) && a % 2 == 0
    ensures ReadHalf(r, a) == if r.big then Pair(At(m, a + 1), At(m, a)) else Pair(At(m, a), At(m, a + 1))
  {
    ReadHalfBytes(r, a);
    ByteIs(r, m, a);
    ByteIs(r, m, a + 1);
    hide *;
  }

  lemma Read32Refines(r: Ram, m: Bytes, a: nat)
    requires Formed(r) && Refines(r, m) && Mapped(r, a) && a % 4 == 0
    ensures ReadWord(r, a) == if r.big then Quad(At(m, a + 3), At(m, a + 2), At(m, a + 1), At(m, a))
                              else Quad(At(m, a), At(m, a + 1), At(m, a + 2), At(m, a + 3))
  {
    ReadWordBytes(r, a);
    ByteIs(r, m, a);
    ByteIs(r, m, a + 1);
    ByteIs(r, m, a + 2);
    ByteIs(r, m, a + 3);
    hide *;
  }

  lemma ReadRefines(r: Ram, m: Bytes, x: Access)
    requires Formed(r) && Legal(r.banks, x) && Refines(r, m) && x.Read?
    ensures RamStep(r, x).1 == ByteStep(m, r.big, x).1
  {
    hide ReadByte, ReadHalf, ReadWord, First, Quad, Pair, At, Refines, Formed;
    match x.size
    case Size8 => ByteIs(r, m, x.addr);
    case Size16 => Read16Refines(r, m, x.addr);
    case Size32 => Read32Refines(r, m, x.addr);
  }

  /** The bytes of the map after a write. */
  lemma MapWrite(m: Bytes, a: nat, d: Bits, big: bool, b: nat)
    ensures var n := ByteStep(m, big, Write(Size8, a, d)).0;
            if b == a then b in n && n[b] == LowByte(d) else (b in m ==> b in n && n[b] == m[b])
    ensures var n := ByteStep(m, big, Write(Size16, a, d)).0;
            if b == a || b == a + 1 then b in n && n[b] == HalfByte(d, b - a, big) else (b in m ==> b in n && n[b] == m[b])
    ensures var n := ByteStep(m, big, Write(Size32, a, d)).0;
            if a <= b < a + 4 then b in n && n[b] == WordByte(d, b - a, big) else (b in m ==> b in n && n[b] == m[b])
  {
    hide LowByte, HalfByte, WordByte;
  }

  lemma WriteRefines(r: Ram, m: Bytes, x: Access, b: nat)
    requires Formed(r) && Legal(r.banks, x) && Refines(r, m) && x.Write? && Mapped(r, b)
    ensures var s, n := RamStep(r, x).0, ByteStep(m, r.big, x).0;
            Formed(s) && Mapped(s, b) && b in n && n[b] == ReadByte(s, b)
  {
    hide ReadByte, First, HalfByte, WordByte, LowByte, WriteByte, WriteHalf, WriteWord, ByteStep, Refines, Formed;
    RefinesAt(r, m, b);
    MapWrite(m, x.addr, x.data, r.big, b);
    match x.size
    case Size8 => WriteByteFrame(r, x.addr, x.data, b);
    case Size16 => WriteHalfFrame(r, x.addr, x.data, b);
    case Size32 => WriteWordFrame(r, x.addr, x.data, b);
  }

  lemma RefinesAt(r: Ram, m: Bytes, b: nat)
    requires Formed(r) && Refines(r, m) && Mapped(r, b)
    ensures b in m && m[b] == ReadByte(r, b)
  {
    hide ReadByte, First;
  }

  lemma StepRefines(r: Ram, m: Bytes, x: Access)
    requires Formed(r) && Legal(r.banks, x) && Refines(r, m)
    ensures var s, n := RamStep(r, x).0, ByteStep(m, r.big, x).0;
            Formed(s) && s.banks == r.banks && s.big == r.big && Refines(s, n)
    ensures RamStep(r, x).1 == ByteStep(m, r.big, x).1
  {
    hide ReadByte, RamStep, ByteStep, First;
    var s, n := RamStep(r, x).0, ByteStep(m, r.big, x).0;
    StepKeepsShape(r, x);
    if x.Read? {
      ReadRefines(r, m, x);
      ReadKeeps(r, m, x);
    } else {
      forall b: nat | Mapped(s, b) ensures b in n && n[b] == ReadByte(s, b) { WriteRefines(r, m, x, b); }
      WriteValue(r, m, x);
    }
  }

  lemma ReadKeeps(r: Ram, m: Bytes, x: Access)
    requires Formed(r) && Legal(r.banks, x) && x.Read?
    ensures RamStep(r, x).0 == r && ByteStep(m, r.big, x).0 == m
  {}

  lemma WriteValue(r: Ram, m: Bytes, x: Access)
    requires Formed(r) && Legal(r.banks, x) && x.Write?
    ensures RamStep(r, x).1 == ByteStep(m, r.big, x).1
  {
    hide WriteByte, WriteHalf, WriteWord, WordByte, HalfByte;
  }

  /** The values read in a sequence of accesses, and the final state. */
  function RamRun(r: Ram, xs: seq<Access>): (Ram, seq<Bits>)
    requires Formed(r) && (forall x <- xs :: Legal(r.banks, x))
    decreases |xs|
  {
    if xs == [] then (r, [])
    else
      var (s, v) := RamStep(r, xs[0]);
      StepKeepsShape(r, xs[0]);
      var (t, vs) := RamRun(s, xs[1..]);
      (t, [v] + vs)
  }

  lemma StepKeepsShape(r: Ram, x: Access)
    requires Formed(r) && Legal(r.banks, x)
    ensures var s := RamStep(r, x).0; Formed(s) && s.banks == r.banks && s.big == r.big
  {
    hide PutByte, PutHalf, First, Lane, HalfLane, ByteOf, Cell, WithCell;
    if x.Write? {
      var w := Cell(r, x.addr);
      CellKeepsShape(r, x.addr, PutByte(w, Lane(x.addr, r.big), x.data));
      CellKeepsShape(r, x.addr, PutHalf(w, HalfLane(x.addr, r.big), x.data));
      CellKeepsShape(r, x.addr, x.data);
    }
  }

  lemma CellKeepsShape(r: Ram, a: nat, w: Bits)
    requires Formed(r) && Mapped(r, a)
    ensures var s := WithCell(r, a, w); Formed(s) && s.banks == r.banks && s.big == r.big
  {
    WithCellReads(r, a, w, a);
  }

  function ByteRun(m: Bytes, big: bool, xs: seq<Access>): (Bytes, seq<Bits>)
    decreases |xs|
  {
    if xs == [] then (m, [])
    else
      var (n, v) := ByteStep(m, big, xs[0]);
      var (o, vs) := ByteRun(n, big, xs[1..]);
      (o, [v] + vs)
  }

  /** Any interleaving of aligned accesses to mapped addresses reads the same values from the RAM as from
      the byte map, and leaves the two in agreement. */
  lemma {:induction false} RunRefines(r: Ram, m: Bytes, xs: seq<Access>)
    requires Formed(r) && (forall x <- xs :: Legal(r.banks, x)) && Refines(r, m)
    ensures RamRun(r, xs).1 == ByteRun(m, r.big, xs).1
    ensures Formed(RamRun(r, xs).0) && Refines(RamRun(r, xs).0, ByteRun(m, r.big, xs).0)
    decreases |xs|
  {
    hide RamStep, ByteStep, Refines, Formed;
    if xs != [] {
      StepKeepsShape(r, xs[0]);
      StepRefines(r, m, xs[0]);
      RunRefines(RamStep(r, xs[0]).0, ByteStep(m, r.big, xs[0]).0, xs[1..]);
    }
  }
}
