/** The event wheel (ARMul_ScheduleEvent, ARMul_EnvokeEvent and EnvokeList in arch_arm/common/armsupp.c):
    1024 slots, each a linked list of events, indexed by time modulo 1024.

    An event is any value of type E, and calling its function is delivering it. Time is a parameter; it is
    a number of cycles since the start, of which the emulator sees 32 bits. */
module Events {

  const EVENTLISTSIZE: nat := 1024
  const WORD: nat := 0x1_0000_0000

  /** ARMul_Time, an unsigned int. */
  function Clock(t: nat): nat { t % WORD }

  type Slots<E> = seq<seq<E>>

  datatype Wheel<E> = Wheel(slots: Slots<E>, eventSet: nat, now: nat)

  /** The events in slots from..to, in the order in which EnvokeList calls them. */
  function Gather<E>(slots: Slots<E>, from: nat, to: nat): seq<E>
    requires to < |slots|
    decreases |slots| - from
  {
    if from > to then [] else slots[from] + Gather(slots, from + 1, to)
  }

  function Cleared<E>(slots: Slots<E>, from: nat, to: nat): (r: Slots<E>)
    requires to < |slots|
    ensures |r| == |slots|
    decreases |slots| - from
  {
    if from > to then slots else Cleared(slots[from := []], from + 1, to)
  }

  function Pending<E>(w: Wheel<E>): seq<E>
    requires |w.slots| == EVENTLISTSIZE
  {
    Gather(w.slots, 0, EVENTLISTSIZE - 1)
  }

  /** EventSet is the number of events on the wheel. */
  predicate Counted<E>(w: Wheel<E>)
  {
    |w.slots| == EVENTLISTSIZE && w.eventSet == |Pending(w)|
  }

  // ---------------------------------------------------------------------------------------------
  // The routines

  function Base(w: Wheel, t: nat): nat { if w.eventSet == 0 then Clock(t) else w.now }

  function SlotOf(now: nat, delay: nat): nat { ((now + delay) % WORD) % EVENTLISTSIZE }

  /** What ARMul_ScheduleEvent does at time t. */
  function Scheduled<E>(w: Wheel<E>, t: nat, delay: nat, what: E): Wheel<E>
    requires |w.slots| == EVENTLISTSIZE
  {
    var now := Base(w, t);
    var when := SlotOf(now, delay);
    Wheel(w.slots[when := [what] + w.slots[when]], w.eventSet + 1, now)
  }

  /** What EnvokeList does, and the events it calls. */
  function ListEnvoked<E>(w: Wheel<E>, from: nat, to: nat): (Wheel<E>, seq<E>)
    requires Counted(w) && to < EVENTLISTSIZE
  {
    GatherPart(w.slots, from, to);
    (w.(slots := Cleared(w.slots, from, to), eventSet := w.eventSet - |Gather(w.slots, from, to)|),
     Gather(w.slots, from, to))
  }

  /** What ARMul_EnvokeEvent does at time t, and the events it calls. */
  function Envoked<E>(w: Wheel<E>, t: nat): (Wheel<E>, seq<E>)
    requires Counted(w)
  {
    var now := Clock(t) % EVENTLISTSIZE;
    var v := w.(now := now);
    if w.now < now then ListEnvoked(v, w.now, now)
    else if w.now > now then
      var (x, first) := ListEnvoked(v, w.now, EVENTLISTSIZE - 1);
      StillCounted(v, w.now, EVENTLISTSIZE - 1);
      var (y, second) := ListEnvoked(x, 0, now);
      (y, first + second)
    else (v, [])
  }

  // ---------------------------------------------------------------------------------------------
  // Counting

  function Times<E(==)>(s: seq<E>, e: E): nat { multiset(s)[e] }

  lemma TimesConcat<E>(s: seq<E>, t: seq<E>, e: E)
    ensures Times(s + t, e) == Times(s, e) + Times(t, e)
  {
    assert multiset(s + t) == multiset(s) + multiset(t);
  }

  /** Slot k takes the list x: its old events go, those of x come. */
  lemma {:induction false} GatherUpdate<E>(slots: Slots<E>, k: nat, x: seq<E>, from: nat, to: nat, e: E)
    requires from <= k <= to < |slots|
    ensures Times(Gather(slots[k := x], from, to), e) + Times(slots[k], e) == Times(Gather(slots, from, to), e) + Times(x, e)
    decreases |slots| - from
  {
    hide Times;
    var next := slots[k := x];
    TimesConcat(slots[from], Gather(slots, from + 1, to), e);
    TimesConcat(next[from], Gather(next, from + 1, to), e);
    if k == from {
      GatherBeyond(slots, k, x, from + 1, to);
    } else {
      GatherUpdate(slots, k, x, from + 1, to, e);
    }
  }

  lemma {:induction false} GatherBeyond<E>(slots: Slots<E>, k: nat, x: seq<E>, from: nat, to: nat)
    requires k < from && to < |slots| && k < |slots|
    ensures Gather(slots[k := x], from, to) == Gather(slots, from, to)
    decreases |slots| - from
  {
    if from <= to { GatherBeyond(slots, k, x, from + 1, to); }
  }

  /** Clearing a range takes away exactly what EnvokeList calls. */
  lemma {:induction false} ClearedGather<E>(slots: Slots<E>, from: nat, to: nat, last: nat, e: E)
    requires to <= last < |slots|
    ensures Times(Gather(slots, 0, last), e) == Times(Gather(Cleared(slots, from, to), 0, last), e) + Times(Gather(slots, from, to), e)
    decreases |slots| - from
  {
    assert Times<E>([], e) == 0;
    hide Times;
    if from <= to {
      var next := slots[from := []];
      GatherUpdate(slots, from, [], 0, last, e);
      GatherBeyond(slots, from, [], from + 1, to);
      ClearedGather(next, from + 1, to, last, e);
      TimesConcat(slots[from], Gather(slots, from + 1, to), e);
    }
  }

  lemma {:induction false} LengthUpdate<E>(slots: Slots<E>, k: nat, x: seq<E>, from: nat, to: nat)
    requires from <= k <= to < |slots|
    ensures |Gather(slots[k := x], from, to)| + |slots[k]| == |Gather(slots, from, to)| + |x|
    decreases |slots| - from
  {
    var next := slots[k := x];
    assert Gather(next, from, to) == next[from] + Gather(next, from + 1, to);
    assert Gather(slots, from, to) == slots[from] + Gather(slots, from + 1, to);
    if k == from { GatherBeyond(slots, k, x, from + 1, to); } else { LengthUpdate(slots, k, x, from + 1, to); }
  }

  lemma {:induction false} ClearedLength<E>(slots: Slots<E>, from: nat, to: nat, last: nat)
    requires to <= last < |slots|
    ensures |Gather(slots, 0, last)| == |Gather(Cleared(slots, from, to), 0, last)| + |Gather(slots, from, to)|
    decreases |slots| - from
  {
    if from <= to {
      LengthUpdate(slots, from, [], 0, last);
      GatherBeyond(slots, from, [], from + 1, to);
      ClearedLength(slots[from := []], from + 1, to, last);
    }
  }

  lemma GatherPart<E>(slots: Slots<E>, from: nat, to: nat)
    requires to < |slots|
    ensures |Gather(slots, from, to)| <= |Gather(slots, 0, |slots| - 1)|
  {
    ClearedLength(slots, from, to, |slots| - 1);
  }

  lemma StillCounted<E>(w: Wheel<E>, from: nat, to: nat)
    requires Counted(w) && to < EVENTLISTSIZE
    ensures Counted(ListEnvoked(w, from, to).0)
  {
    ClearedLength(w.slots, from, to, EVENTLISTSIZE - 1);
  }

  lemma ListKeepsCounted<E>(w: Wheel<E>, from: nat, to: nat, e: E)
    requires Counted(w) && to < EVENTLISTSIZE
    ensures var (v, fired) := ListEnvoked(w, from, to);
            Counted(v) && Times(Pending(w), e) == Times(Pending(v), e) + Times(fired, e)
  {
    hide Times;
    StillCounted(w, from, to);
    ClearedGather(w.slots, from, to, EVENTLISTSIZE - 1, e);
  }

  /** Scheduling adds one event, whatever Now is. */
  lemma ScheduleCounts<E>(w: Wheel<E>, t: nat, delay: nat, what: E, e: E)
    requires Counted(w)
    ensures var v := Scheduled(w, t, delay, what);
            Counted(v) && Times(Pending(v), e) == Times(Pending(w), e) + (if e == what then 1 else 0)
  {
    var when := SlotOf(Base(w, t), delay);
    TimesConcat([what], w.slots[when], e);
    assert Times([what], e) == if e == what then 1 else 0;
    hide Times;
    GatherUpdate(w.slots, when, [what] + w.slots[when], 0, EVENTLISTSIZE - 1, e);
    LengthUpdate(w.slots, when, [what] + w.slots[when], 0, EVENTLISTSIZE - 1);
  }

  /** Envoking loses no event and calls none twice, whatever Now is. */
  lemma EnvokeCounts<E>(w: Wheel<E>, t: nat, e: E)
    requires Counted(w)
    ensures var (v, fired) := Envoked(w, t);
            Counted(v) && Times(Pending(w), e) == Times(Pending(v), e) + Times(fired, e)
  {
    var now := Clock(t) % EVENTLISTSIZE;
    var u := w.(now := now);
    assert Times<E>([], e) == 0;
    hide Times;
    if w.now < now {
      ListKeepsCounted(u, w.now, now, e);
    } else if w.now > now {
      ListKeepsCounted(u, w.now, EVENTLISTSIZE - 1, e);
      var (x, first) := ListEnvoked(u, w.now, EVENTLISTSIZE - 1);
      ListKeepsCounted(x, 0, now, e);
      var (y, second) := ListEnvoked(x, 0, now);
      TimesConcat(first, second, e);
    }
  }

  // ---------------------------------------------------------------------------------------------
  // The same as the emulator does it, on arrays and counters

  function SlotCalled<E>(w: Wheel<E>, k: nat): Wheel<E>
    requires Counted(w) && k < EVENTLISTSIZE
  {
    SlotCounts(w, k);
    w.(slots := w.slots[k := []], eventSet := w.eventSet - |w.slots[k]|)
  }

  lemma SlotCounts<E>(w: Wheel<E>, k: nat)
    requires Counted(w) && k < EVENTLISTSIZE
    ensures w.eventSet >= |w.slots[k]| && Counted(w.(slots := w.slots[k := []], eventSet := w.eventSet - |w.slots[k]|))
  {
    LengthUpdate(w.slots, k, [], 0, EVENTLISTSIZE - 1);
  }

  lemma ListStep<E>(w: Wheel<E>, k: nat, to: nat)
    requires Counted(w) && k <= to < EVENTLISTSIZE
    ensures Counted(SlotCalled(w, k))
    ensures var (v, rest) := ListEnvoked(SlotCalled(w, k), k + 1, to); ListEnvoked(w, k, to) == (v, w.slots[k] + rest)
  {
    SlotCounts(w, k);
    GatherBeyond(w.slots, k, [], k + 1, to);
  }

  lemma ListEnds<E>(w: Wheel<E>, k: nat, to: nat)
    requires Counted(w) && to < EVENTLISTSIZE && k > to
    ensures ListEnvoked(w, k, to) == (w, [])
  {}

  class EventWheel<E> {
    const EventPtr: array<seq<E>>
    var EventSet: nat
    var Now: nat

    ghost predicate Valid()
      reads this, EventPtr
    {
      EventPtr.Length == EVENTLISTSIZE && Counted(Value())
    }

    ghost function Value(): Wheel<E>
      reads this, EventPtr
    {
      Wheel(EventPtr[..], EventSet, Now)
    }

    /** The state ARMul_NewState sets up. */
    constructor ()
      ensures Valid() && EventSet == 0
    {
      EventPtr := new seq<E>[EVENTLISTSIZE](_ => []);
      EventSet := 0;
      Now := 0;
      new;
      NoEvents(EventPtr[..], 0);
    }

    method ScheduleEvent(time: nat, delay: nat, what: E)
      requires Valid()
      modifies this, EventPtr
      ensures Valid() && Value() == Scheduled(old(Value()), time, delay, what)
    {
      ghost var w := Value();
      ScheduleCounts(w, time, delay, what, what);
      if EventSet == 0 {
        Now := Clock(time);
      }
      EventSet := EventSet + 1;
      var when := SlotOf(Now, delay);
      EventPtr[when] := [what] + EventPtr[when];
    }

    /** The inner loop of EnvokeList: the events of a slot are called, and the slot is emptied. */
    method CallSlot(k: nat) returns (called: seq<E>)
      requires Valid() && k < EVENTLISTSIZE
      modifies this`EventSet, EventPtr
      ensures Valid() && called == old(EventPtr[k]) && Value() == SlotCalled(old(Value()), k)
    {
      ghost var w := Value();
      SlotCounts(w, k);
      var list, i := EventPtr[k], 0;
      called := [];
      while i < |list|
        invariant 0 <= i <= |list| && EventPtr[..] == w.slots
        invariant called == list[..i] && EventSet + i == w.eventSet >= |list|
      {
        called := called + [list[i]];
        EventSet := EventSet - 1;
        i := i + 1;
      }
      EventPtr[k] := [];
      assert EventPtr[..] == w.slots[k := []];
    }

    /** EnvokeList; `called` are the events whose functions it calls, in order. */
    method EnvokeList(from: nat, to: nat) returns (called: seq<E>)
      requires Valid() && to < EVENTLISTSIZE
      modifies this`EventSet, EventPtr
      ensures Valid() && Value() == ListEnvoked(old(Value()), from, to).0 && called == ListEnvoked(old(Value()), from, to).1
    {
      hide ListEnvoked, SlotCalled;
      ghost var w := Value();
      called := [];
      var k := from;
      while k <= to
        invariant Valid() && Now == w.now
        invariant ListEnvoked(w, from, to).0 == ListEnvoked(Value(), k, to).0
        invariant ListEnvoked(w, from, to).1 == called + ListEnvoked(Value(), k, to).1
        decreases EVENTLISTSIZE - k
      {
        ListStep(Value(), k, to);
        var slot := CallSlot(k);
        ghost var rest := ListEnvoked(Value(), k + 1, to).1;
        assert called + (slot + rest) == (called + slot) + rest;
        called := called + slot;
        k := k + 1;
      }
      ListEnds(Value(), k, to);
      assert ListEnvoked(w, from, to).1 == called;
    }

    /** EnvokeEvent. */
    method EnvokeEvent(time: nat) returns (called: seq<E>)
      requires Valid()
      modifies this, EventPtr
      ensures Valid() && (Value(), called) == Envoked(old(Value()), time)
    {
      hide Cleared, Gather;
      var was := Now;
      Now := Clock(time) % EVENTLISTSIZE;
      called := [];
      if was < Now {
        called := EnvokeList(was, Now);
      } else if was > Now {
        var first := EnvokeList(was, EVENTLISTSIZE - 1);
        var second := EnvokeList(0, Now);
        called := first + second;
      }
    }
  }

  lemma {:induction false} NoEvents<E>(slots: Slots<E>, from: nat)
    requires |slots| > 0 && forall k :: 0 <= k < |slots| ==> slots[k] == []
    ensures Gather(slots, from, |slots| - 1) == []
    decreases |slots| - from
  {
    if from < |slots| { NoEvents(slots, from + 1); }
  }
}
