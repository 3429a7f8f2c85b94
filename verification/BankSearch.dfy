/** bank_ptr of memory/bank_ops.c: the search for the memory bank of an address, which looks first at the
    bank it found last. */
module BankSearch {

  /** A memory bank; the array of banks ends at one of length 0. */
  datatype Bank = Bank(addr: nat, len: nat)

  datatype Option<T> = None | Some(value: T)

  predicate Match(b: Bank, addr: nat) { b.addr <= addr && addr - b.addr < b.len }

  /** mem_banks: `Count` banks and the terminator. */
  predicate Terminated(banks: seq<Bank>) { exists i :: 0 <= i < |banks| && banks[i].len == 0 }

  /** The index of the terminator. */
  function Count(banks: seq<Bank>): (n: nat)
    requires Terminated(banks)
    ensures n < |banks| && banks[n].len == 0
    ensures forall i :: 0 <= i < n ==> banks[i].len > 0
  {
    if banks[0].len == 0 then 0 else
      assert Terminated(banks[1..]) by { var i :| 0 <= i < |banks| && banks[i].len == 0; assert banks[1..][i - 1].len == 0; }
      1 + Count(banks[1..])
  }

  /** What a fresh search from bank k on finds: the first bank that holds the address. */
  function FirstFrom(banks: seq<Bank>, addr: nat, k: nat): (r: Option<nat>)
    requires Terminated(banks) && k <= Count(banks)
    ensures r.Some? ==> k <= r.value < Count(banks) && Match(banks[r.value], addr)
    ensures forall i :: k <= i < (if r.Some? then r.value else Count(banks)) ==> !Match(banks[i], addr)
    decreases Count(banks) - k
  {
    if k == Count(banks) then None else if Match(banks[k], addr) then Some(k) else FirstFrom(banks, addr, k + 1)
  }

  function First(banks: seq<Bank>, addr: nat): Option<nat>
    requires Terminated(banks)
  {
    FirstFrom(banks, addr, 0)
  }

  /** bank_ptr as a function of the remembered bank `mbp`: what it remembers next, and its result. A failed
      search leaves the terminator remembered. */
  function Found(banks: seq<Bank>, mbp: Option<nat>, addr: nat): (Option<nat>, Option<nat>)
    requires Terminated(banks) && (mbp.Some? ==> mbp.value < |banks|)
  {
    if mbp.Some? && Match(banks[mbp.value], addr) then (mbp, mbp)
    else
      var r := First(banks, addr);
      (if r.Some? then r else Some(Count(banks)), r)
  }

  class MemMap {
    const memBanks: seq<Bank>
    var mbp: Option<nat>

    ghost predicate Valid()
      reads this
    {
      Terminated(memBanks) && (mbp.Some? ==> mbp.value < |memBanks|)
    }

    constructor (banks: seq<Bank>)
      requires Terminated(banks)
      ensures Valid() && memBanks == banks && mbp == None
    {
      memBanks := banks;
      mbp := None;
    }

    method BankPtr(addr: nat) returns (r: Option<nat>)
      requires Valid()
      modifies this
      ensures Valid() && (mbp, r) == Found(memBanks, old(mbp), addr)
    {
      if mbp.Some? && Match(memBanks[mbp.value], addr) {
        return mbp;
      }
      var k := 0;
      mbp := Some(0);
      while memBanks[k].len != 0
        invariant k <= Count(memBanks) && mbp == Some(k)
        invariant First(memBanks, addr) == FirstFrom(memBanks, addr, k)
        decreases Count(memBanks) - k
      {
        if Match(memBanks[k], addr) {
          return mbp;
        }
        k := k + 1;
        mbp := Some(k);
      }
      r := None;
    }
  }

  // ---------------------------------------------------------------------------------------------
  // Every call of every sequence

  /** The results of a sequence of calls. */
  function Results(banks: seq<Bank>, mbp: Option<nat>, addrs: seq<nat>): seq<Option<nat>>
    requires Terminated(banks) && (mbp.Some? ==> mbp.value < |banks|)
    decreases |addrs|
  {
    if addrs == [] then []
    else
      var (next, r) := Found(banks, mbp, addrs[0]);
      [r] + Results(banks, next, addrs[1..])
  }

  function Fresh(banks: seq<Bank>, addrs: seq<nat>): seq<Option<nat>>
    requires Terminated(banks)
  {
    if addrs == [] then [] else [First(banks, addrs[0])] + Fresh(banks, addrs[1..])
  }

  /** The memory of the last bank never shows. */
  ghost predicate Transparent(banks: seq<Bank>)
    requires Terminated(banks)
  {
    forall addrs: seq<nat> :: Results(banks, None, addrs) == Fresh(banks, addrs)
  }

  predicate Overlap(a: Bank, b: Bank) { a.addr < b.addr + b.len && b.addr < a.addr + a.len }

  /** Every address of bank j is in an earlier bank. */
  ghost predicate Hidden(banks: seq<Bank>, j: nat)
    requires j < |banks|
  {
    forall x: nat :: Match(banks[j], x) ==> exists i: nat :: i < j && Match(banks[i], x)
  }

  /** Two banks overlap only if the later one is out of reach altogether. */
  ghost predicate Unambiguous(banks: seq<Bank>)
    requires Terminated(banks)
  {
    forall i: nat, j: nat :: i < j < Count(banks) && Overlap(banks[i], banks[j]) ==> Hidden(banks, j)
  }

  lemma OverlapPoint(a: Bank, b: Bank) returns (x: nat)
    requires Overlap(a, b) && a.len > 0 && b.len > 0
    ensures Match(a, x) && Match(b, x)
  {
    x := if a.addr < b.addr then b.addr else a.addr;
  }

  /** What bank_ptr remembers: nothing, the terminator, or a bank that a fresh search can find. */
  ghost predicate Sound(banks: seq<Bank>, mbp: Option<nat>)
    requires Terminated(banks)
  {
    mbp == None || mbp.value == Count(banks) || (mbp.value < Count(banks) && !Hidden(banks, mbp.value))
  }

  lemma BothOverlap(a: Bank, b: Bank, x: nat)
    requires Match(a, x) && Match(b, x)
    ensures Overlap(a, b)
  {}

  lemma FoundSound(banks: seq<Bank>, mbp: Option<nat>, addr: nat)
    requires Terminated(banks) && Unambiguous(banks) && Sound(banks, mbp)
    ensures var (next, r) := Found(banks, mbp, addr); Sound(banks, next) && r == First(banks, addr)
  {
    var f := First(banks, addr);
    if mbp.Some? && Match(banks[mbp.value], addr) {
      BothOverlap(banks[f.value], banks[mbp.value], addr);
    } else if f.Some? {
      assert forall i: nat :: i < f.value ==> !Match(banks[i], addr);
    }
  }

  lemma {:induction false} SoundResults(banks: seq<Bank>, mbp: Option<nat>, addrs: seq<nat>)
    requires Terminated(banks) && Unambiguous(banks) && Sound(banks, mbp)
    ensures Results(banks, mbp, addrs) == Fresh(banks, addrs)
    decreases |addrs|
  {
    if addrs != [] {
      FoundSound(banks, mbp, addrs[0]);
      SoundResults(banks, Found(banks, mbp, addrs[0]).0, addrs[1..]);
    }
  }

  /** bank_ptr returns what a fresh first-match search returns, on every call of every sequence, exactly
      when the banks are unambiguous. Disjoint banks are. */
  lemma TransparentExactly(banks: seq<Bank>)
    requires Terminated(banks)
    ensures Transparent(banks) <==> Unambiguous(banks)
  {
    if Unambiguous(banks) {
      forall addrs: seq<nat> ensures Results(banks, None, addrs) == Fresh(banks, addrs) { SoundResults(banks, None, addrs); }
    } else {
      var i: nat, j: nat :| i < j < Count(banks) && Overlap(banks[i], banks[j]) && !Hidden(banks, j);
      var y: nat :| Match(banks[j], y) && !exists i: nat :: i < j && Match(banks[i], y);
      NotTransparent(banks, i, j, y);
    }
  }

  lemma OneCall(banks: seq<Bank>, mbp: Option<nat>, x: nat)
    requires Terminated(banks) && (mbp.Some? ==> mbp.value < |banks|)
    ensures Results(banks, mbp, [x]) == [Found(banks, mbp, x).1]
    ensures Fresh(banks, [x]) == [First(banks, x)]
  {
    hide Found, First;
    assert [x][1..] == [];
  }

  lemma TwoCalls(banks: seq<Bank>, mbp: Option<nat>, y: nat, x: nat)
    requires Terminated(banks) && (mbp.Some? ==> mbp.value < |banks|)
    ensures Results(banks, mbp, [y, x]) == [Found(banks, mbp, y).1, Found(banks, Found(banks, mbp, y).0, x).1]
    ensures Fresh(banks, [y, x]) == [First(banks, y), First(banks, x)]
  {
    assert [y, x][1..] == [x];
    OneCall(banks, Found(banks, mbp, y).0, x);
  }

  /** After an address that only bank j holds, an address that an earlier bank holds too goes to bank j. */
  lemma Shadowed(banks: seq<Bank>, i: nat, j: nat, y: nat, x: nat)
    requires Terminated(banks) && i < j < Count(banks) && Match(banks[i], x) && Match(banks[j], x)
    requires First(banks, y) == Some(j)
    ensures Results(banks, None, [y, x]) == [Some(j), Some(j)]
    ensures Fresh(banks, [y, x]) != Results(banks, None, [y, x])
  {
    TwoCalls(banks, None, y, x);
    assert Fresh(banks, [y, x])[1] == First(banks, x);
    assert Results(banks, None, [y, x])[1] == Some(j);
  }

  lemma NotTransparent(banks: seq<Bank>, i: nat, j: nat, y: nat)
    requires Terminated(banks) && i < j < Count(banks) && Overlap(banks[i], banks[j])
    requires Match(banks[j], y) && !exists k: nat :: k < j && Match(banks[k], y)
    ensures !Transparent(banks)
  {
    var x := OverlapPoint(banks[i], banks[j]);
    assert First(banks, y) == Some(j);
    Shadowed(banks, i, j, y, x);
    assert Results(banks, None, [y, x]) != Fresh(banks, [y, x]);
  }

  /** Disjoint banks are unambiguous. */
  lemma DisjointUnambiguous(banks: seq<Bank>)
    requires Terminated(banks)
    requires forall i: nat, j: nat :: i < j < Count(banks) ==> !Overlap(banks[i], banks[j])
    ensures Unambiguous(banks)
  {}
}
