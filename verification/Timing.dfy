/** When events fire: the wheel refines a set of events with due times, exactly as long as it is filled
    from empty at a time below 1024 or at a multiple of 1024. */
module Timing {
  import opened Events

  /** An event and the time it is due. (The emulator stores the event only; the due time is for the
      specification.) */
  datatype Timed<E> = Timed(what: E, due: nat)

  // ---------------------------------------------------------------------------------------------
  // Which slots fire

  /** Whether ARMul_EnvokeEvent calls slot k when Now goes from `was` to `now`. */
  predicate Fires(was: nat, now: nat, k: nat)
  {
    if was < now then was <= k <= now else if was > now then k >= was || k <= now else false
  }

  lemma {:induction false} ClearedAt<E>(slots: Slots<E>, from: nat, to: nat, k: nat)
    requires to < |slots| && k < |slots|
    ensures Cleared(slots, from, to)[k] == if from <= k <= to then [] else slots[k]
    decreases |slots| - from
  {
    if from <= to { ClearedAt(slots[from := []], from + 1, to, k); }
  }

  /** An event in a range of slots is in one of them. */
  lemma {:induction false} GatherFrom<E>(slots: Slots<E>, from: nat, to: nat, e: E) returns (k: nat)
    requires to < |slots| && e in Gather(slots, from, to)
    ensures from <= k <= to && e in slots[k]
    decreases |slots| - from
  {
    if e in slots[from] { k := from; } else { k := GatherFrom(slots, from + 1, to, e); }
  }

  lemma {:induction false} GatherAll<E>(slots: Slots<E>, from: nat, to: nat, k: nat, e: E)
    requires from <= k <= to < |slots| && e in slots[k]
    ensures e in Gather(slots, from, to)
    decreases |slots| - from
  {
    if k > from { GatherAll(slots, from + 1, to, k, e); }
  }

  lemma EnvokedSlot<E>(w: Wheel<E>, t: nat, k: nat)
    requires Counted(w) && k < EVENTLISTSIZE
    ensures |Envoked(w, t).0.slots| == EVENTLISTSIZE && Envoked(w, t).0.now == Clock(t) % EVENTLISTSIZE
    ensures Envoked(w, t).0.slots[k] == if Fires(w.now, Clock(t) % EVENTLISTSIZE, k) then [] else w.slots[k]
  {
    var now := Clock(t) % EVENTLISTSIZE;
    var u := w.(now := now);
    if w.now < now {
      ClearedAt(u.slots, w.now, now, k);
    } else if w.now > now {
      ClearedAt(u.slots, w.now, EVENTLISTSIZE - 1, k);
      StillCounted(u, w.now, EVENTLISTSIZE - 1);
      var x := ListEnvoked(u, w.now, EVENTLISTSIZE - 1).0;
      ClearedAt(x.slots, 0, now, k);
    }
  }

  /** The events called are those of the slots that fire. */
  lemma EnvokedEvent<E>(w: Wheel<E>, t: nat, e: E) returns (k: nat)
    requires Counted(w) && e in Envoked(w, t).1
    ensures k < EVENTLISTSIZE && Fires(w.now, Clock(t) % EVENTLISTSIZE, k) && e in w.slots[k]
  {
    var now := Clock(t) % EVENTLISTSIZE;
    var u := w.(now := now);
    if w.now < now {
      k := GatherFrom(u.slots, w.now, now, e);
    } else {
      StillCounted(u, w.now, EVENTLISTSIZE - 1);
      var (x, first) := ListEnvoked(u, w.now, EVENTLISTSIZE - 1);
      if e in first {
        k := GatherFrom(u.slots, w.now, EVENTLISTSIZE - 1, e);
      } else {
        k := GatherFrom(x.slots, 0, now, e);
        ClearedAt(u.slots, w.now, EVENTLISTSIZE - 1, k);
      }
    }
  }

  // ---------------------------------------------------------------------------------------------
  // Due times

  /** Now stands for the time b: it is reduced, or it is a multiple of 1024 (and the range from Now to 1023
      is empty, as it should be). */
  predicate Stands(now: nat, b: nat)
  {
    now % EVENTLISTSIZE == b % EVENTLISTSIZE && (now < EVENTLISTSIZE || now % EVENTLISTSIZE == 0)
  }

  /** Every event is in the slot of its due time, which is 1 to 1023 cycles after b. */
  ghost predicate OnTime<E>(slots: Slots<Timed<E>>, b: nat)
  {
    forall k: nat, e: Timed<E> :: k < |slots| && e in slots[k] ==> e.due % EVENTLISTSIZE == k && b < e.due < b + EVENTLISTSIZE
  }

  lemma SplitMod(x: nat, r: nat, d: nat)
    requires x % EVENTLISTSIZE == r && d < EVENTLISTSIZE
    ensures (x + d) % EVENTLISTSIZE == if r + d < EVENTLISTSIZE then r + d else r + d - EVENTLISTSIZE
  {}

  lemma ClockMod(t: nat)
    ensures Clock(t) % EVENTLISTSIZE == t % EVENTLISTSIZE
  {
    var q := t / WORD;
    assert t == q * WORD + Clock(t);
    assert WORD == 0x40_0000 * EVENTLISTSIZE;
    assert t == (q * 0x40_0000) * EVENTLISTSIZE + Clock(t);
    ModMultiple(Clock(t), q * 0x40_0000);
  }

  lemma ModMultiple(x: nat, k: nat)
    ensures (k * EVENTLISTSIZE + x) % EVENTLISTSIZE == x % EVENTLISTSIZE
  {
    var q := x / EVENTLISTSIZE;
    assert k * EVENTLISTSIZE + x == (k + q) * EVENTLISTSIZE + x % EVENTLISTSIZE;
  }

  /** Slots fire exactly when the events in them are due, across any number of wrap-arounds. */
  lemma FiresWhenDue(now: nat, b: nat, t: nat, due: nat)
    requires Stands(now, b) && b <= t < b + EVENTLISTSIZE && b < due < b + EVENTLISTSIZE
    ensures Fires(now, Clock(t) % EVENTLISTSIZE, due % EVENTLISTSIZE) <==> due <= t
  {
    ClockMod(t);
    var r := b % EVENTLISTSIZE;
    SplitMod(b, r, t - b);
    SplitMod(b, r, due - b);
  }

  /** ARMul_EnvokeEvent at time t calls no event before it is due, and leaves none behind that is. */
  lemma EnvokeOnTime<E>(w: Wheel<Timed<E>>, b: nat, t: nat)
    requires Counted(w) && OnTime(w.slots, b) && Stands(w.now, b) && b <= t < b + EVENTLISTSIZE
    ensures var (v, fired) := Envoked(w, t);
            && OnTime(v.slots, t) && Stands(v.now, t)
            && (forall e :: e in fired ==> b < e.due <= t)
  {
    hide Fires, Stands, Envoked;
    var (v, fired) := Envoked(w, t);
    EnvokedSlot(w, t, 0);
    forall e | e in fired ensures b < e.due <= t {
      var k := EnvokedEvent(w, t, e);
      FiresWhenDue(w.now, b, t, e.due);
    }
    forall k: nat, e: Timed<E> | k < |v.slots| && e in v.slots[k]
      ensures e.due % EVENTLISTSIZE == k && t < e.due < t + EVENTLISTSIZE
    {
      EnvokedSlot(w, t, k);
      FiresWhenDue(w.now, b, t, e.due);
    }
    NowStands(t);
  }

  lemma NowStands(t: nat)
    ensures Stands(Clock(t) % EVENTLISTSIZE, t)
  {
    ClockMod(t);
  }

  /** ARMul_ScheduleEvent puts the event where its due time is. */
  lemma ScheduleOnTime<E>(w: Wheel<Timed<E>>, t: nat, b: nat, delay: nat, what: E)
    requires |w.slots| == EVENTLISTSIZE && OnTime(w.slots, b) && Stands(Base(w, t), b) && 0 < delay < EVENTLISTSIZE
    ensures var v := Scheduled(w, t, delay, Timed(what, b + delay)); OnTime(v.slots, b) && Stands(v.now, b)
  {
    SlotDue(Base(w, t), b, delay);
  }

  lemma SlotDue(now: nat, b: nat, delay: nat)
    requires now % EVENTLISTSIZE == b % EVENTLISTSIZE && delay < EVENTLISTSIZE
    ensures SlotOf(now, delay) == (b + delay) % EVENTLISTSIZE
  {
    ClockMod(now + delay);
    SplitMod(now, b % EVENTLISTSIZE, delay);
    SplitMod(b, b % EVENTLISTSIZE, delay);
  }

  // ---------------------------------------------------------------------------------------------
  // Every run

  /** The program schedules an event, or the main loop comes round after some cycles and, if an event is
      set, envokes. */
  datatype Op<E> = Schedule(delay: nat, what: E) | Tick(elapsed: nat)

  /** The wheel, the time, and the time that Now stands for: when it was last envoked or last filled from
      empty. */
  datatype Machine<E> = Machine(w: Wheel<Timed<E>>, time: nat, base: nat)

  /** A call of an event's function, between the previous envocation and `at`. */
  datatype Firing<E> = Firing(event: Timed<E>, since: nat, at: nat)

  function NewBase(m: Machine): nat { if m.w.eventSet == 0 then m.time else m.base }

  function Request<E>(m: Machine<E>, op: Op<E>): seq<Timed<E>>
  {
    if op.Schedule? then [Timed(op.what, NewBase(m) + op.delay)] else []
  }

  function Step<E>(m: Machine<E>, op: Op<E>): (Machine<E>, seq<Timed<E>>)
    requires Counted(m.w)
  {
    match op
    case Schedule(delay, what) =>
      (Machine(Scheduled(m.w, m.time, delay, Timed(what, NewBase(m) + delay)), m.time, NewBase(m)), [])
    case Tick(elapsed) =>
      var t := m.time + elapsed;
      if m.w.eventSet == 0 then (m.(time := t), [])
      else
        var (v, fired) := Envoked(m.w, t);
        (Machine(v, t, t), fired)
  }

  /** Times at which it is safe to fill an empty wheel. */
  predicate SafeStart(t: nat) { Clock(t) < EVENTLISTSIZE || t % EVENTLISTSIZE == 0 }

  /** Delays are 1 to 1023 and the main loop comes round within 1023 cycles while an event is set. */
  predicate Allowed<E>(m: Machine<E>, op: Op<E>)
  {
    match op
    case Schedule(delay, _) => 0 < delay < EVENTLISTSIZE && (m.w.eventSet == 0 ==> SafeStart(m.time))
    case Tick(elapsed) => m.w.eventSet != 0 ==> m.time + elapsed < m.base + EVENTLISTSIZE
  }

  ghost predicate Good<E>(m: Machine<E>)
  {
    && Counted(m.w) && m.base <= m.time && OnTime(m.w.slots, m.base)
    && (m.w.eventSet != 0 ==> Stands(m.w.now, m.base))
  }

  function Firings<E>(fired: seq<Timed<E>>, since: nat, at: nat): seq<Firing<E>>
  {
    seq(|fired|, i requires 0 <= i < |fired| => Firing(fired[i], since, at))
  }

  lemma EmptySlots<E>(w: Wheel<E>, k: nat)
    requires Counted(w) && w.eventSet == 0 && k < EVENTLISTSIZE
    ensures w.slots[k] == []
  {
    if w.slots[k] != [] { GatherAll(w.slots, 0, EVENTLISTSIZE - 1, k, w.slots[k][0]); }
  }

  lemma EmptyOnTime<E>(w: Wheel<Timed<E>>, b: nat)
    requires Counted(w) && w.eventSet == 0
    ensures OnTime(w.slots, b)
  {
    forall k: nat | k < EVENTLISTSIZE ensures w.slots[k] == [] { EmptySlots(w, k); }
  }

  lemma SafeStands(t: nat)
    requires SafeStart(t)
    ensures Stands(Clock(t), t)
  {
    ClockMod(t);
  }

  lemma StepTimely<E>(m: Machine<E>, op: Op<E>, e: Timed<E>)
    requires Good(m) && Allowed(m, op)
    ensures var (n, fired) := Step(m, op);
            && Good(n)
            && (forall x <- fired :: m.base < x.due <= n.time)
            && Times(Pending(m.w), e) + Times(Request(m, op), e) == Times(Pending(n.w), e) + Times(fired, e)
  {
    hide Stands, Clock, SafeStart, Envoked, Scheduled, OnTime, Times;
    TimesNone<Timed<E>>(e);
    match op
    case Schedule(delay, what) =>
      if m.w.eventSet == 0 {
        EmptyOnTime(m.w, m.time);
        SafeStands(m.time);
      }
      ScheduleOnTime(m.w, m.time, NewBase(m), delay, what);
      ScheduleCounts(m.w, m.time, delay, Timed(what, NewBase(m) + delay), e);
      TimesOne(Timed(what, NewBase(m) + delay), e);
    case Tick(elapsed) =>
      if m.w.eventSet == 0 {
        EmptyOnTime(m.w, m.base);
      } else {
        EnvokeOnTime(m.w, m.base, m.time + elapsed);
        EnvokeCounts(m.w, m.time + elapsed, e);
      }
  }

  lemma TimesNone<E>(e: E)
    ensures Times([], e) == 0
  {}

  lemma TimesOne<E>(x: E, e: E)
    ensures Times([x], e) == if x == e then 1 else 0
  {}

  ghost predicate AllAllowed<E>(m: Machine<E>, ops: seq<Op<E>>)
    requires Counted(m.w)
    decreases |ops|
  {
    ops == [] || (Allowed(m, ops[0]) && Counted(Step(m, ops[0]).0.w) && AllAllowed(Step(m, ops[0]).0, ops[1..]))
  }

  lemma StepCounted<E>(m: Machine<E>, op: Op<E>)
    requires Counted(m.w)
    ensures Counted(Step(m, op).0.w)
  {
    match op
    case Schedule(delay, what) =>
      var x := Timed(what, NewBase(m) + delay);
      ScheduleCounts(m.w, m.time, delay, x, x);
    case Tick(elapsed) =>
      if m.w.eventSet != 0 { EnvokeCounts(m.w, m.time + elapsed, Pending(m.w)[0]); }
  }

  function Run<E>(m: Machine<E>, ops: seq<Op<E>>): Machine<E>
    requires Counted(m.w)
    decreases |ops|
  {
    if ops == [] then m
    else
      StepCounted(m, ops[0]);
      Run(Step(m, ops[0]).0, ops[1..])
  }

  /** All that is scheduled in a run, with due times. */
  function Requests<E>(m: Machine<E>, ops: seq<Op<E>>): seq<Timed<E>>
    requires Counted(m.w)
    decreases |ops|
  {
    if ops == [] then []
    else
      StepCounted(m, ops[0]);
      Request(m, ops[0]) + Requests(Step(m, ops[0]).0, ops[1..])
  }

  /** All calls of event functions in a run. */
  function Log<E>(m: Machine<E>, ops: seq<Op<E>>): seq<Firing<E>>
    requires Counted(m.w)
    decreases |ops|
  {
    if ops == [] then []
    else
      StepCounted(m, ops[0]);
      var (n, fired) := Step(m, ops[0]);
      Firings(fired, m.base, n.time) + Log(n, ops[1..])
  }

  function Called<E>(log: seq<Firing<E>>): seq<Timed<E>>
  {
    if log == [] then [] else [log[0].event] + Called(log[1..])
  }

  lemma {:induction false} EventsConcat<E>(x: seq<Firing<E>>, y: seq<Firing<E>>)
    ensures Called(x + y) == Called(x) + Called(y)
  {
    if x == [] {
      assert x + y == y;
    } else {
      assert (x + y)[1..] == x[1..] + y;
      EventsConcat(x[1..], y);
    }
  }

  lemma {:induction false} EventsOf<E>(fired: seq<Timed<E>>, since: nat, at: nat)
    ensures Called(Firings(fired, since, at)) == fired
    decreases |fired|
  {
    if fired != [] {
      assert Firings(fired, since, at)[1..] == Firings(fired[1..], since, at);
      EventsOf(fired[1..], since, at);
    }
  }

  /** Every event of a run is called once, at the first envocation at or after its due time, or is still
      pending and not yet due. */
  lemma {:induction false} RunTimely<E>(m: Machine<E>, ops: seq<Op<E>>, e: Timed<E>)
    requires Good(m) && AllAllowed(m, ops)
    ensures Good(Run(m, ops))
    ensures forall x <- Log(m, ops) :: x.since < x.event.due <= x.at
    ensures Times(Pending(m.w), e) + Times(Requests(m, ops), e) == Times(Pending(Run(m, ops).w), e) + Times(Called(Log(m, ops)), e)
    decreases |ops|
  {
    assert Counted(m.w);
    hide Step, Allowed, Times, Good, Request;
    TimesNone<Timed<E>>(e);
    if ops != [] {
      StepCounted(m, ops[0]);
      var (n, fired) := Step(m, ops[0]);
      StepTimely(m, ops[0], e);
      RunTimely(n, ops[1..], e);
      EventsConcat(Firings(fired, m.base, n.time), Log(n, ops[1..]));
      EventsOf(fired, m.base, n.time);
      TimesConcat(fired, Called(Log(n, ops[1..])), e);
      TimesConcat(Request(m, ops[0]), Requests(n, ops[1..]), e);
    }
  }

  // ---------------------------------------------------------------------------------------------
  // Exactly when

  /** One event, scheduled on an empty wheel at time t, and envoked at time u. */
  predicate CalledAt(w: Wheel<Timed<int>>, t: nat, delay: nat, u: nat)
    requires Counted(w)
  {
    var e := Timed(0, t + delay);
    ScheduleCounts(w, t, delay, e, e);
    e in Envoked(Scheduled(w, t, delay, e), u).1
  }

  /** Filling an empty wheel at time t is timely for all delays and all later envocations. */
  ghost predicate TimelyFrom(w: Wheel<Timed<int>>, t: nat)
    requires Counted(w)
  {
    forall delay: nat, u: nat {:trigger CalledAt(w, t, delay, u)} ::
      0 < delay < EVENTLISTSIZE && t <= u < t + EVENTLISTSIZE ==> (CalledAt(w, t, delay, u) <==> t + delay <= u)
  }

  /** ARMul_ScheduleEvent stores the time unreduced when the wheel was empty. That is right exactly at the
      safe times. */
  lemma TimelyExactly(w: Wheel<Timed<int>>, t: nat)
    requires Counted(w) && w.eventSet == 0
    ensures TimelyFrom(w, t) <==> SafeStart(t)
  {
    if SafeStart(t) {
      forall delay: nat, u: nat | 0 < delay < EVENTLISTSIZE && t <= u < t + EVENTLISTSIZE
        ensures CalledAt(w, t, delay, u) <==> t + delay <= u
      {
        SafeIsTimely(w, t, delay, u);
      }
    } else {
      var delay := EVENTLISTSIZE - t % EVENTLISTSIZE;
      TooEarly(w, t, delay);
    }
  }

  lemma SafeIsTimely(w: Wheel<Timed<int>>, t: nat, delay: nat, u: nat)
    requires Counted(w) && w.eventSet == 0 && SafeStart(t) && 0 < delay < EVENTLISTSIZE && t <= u < t + EVENTLISTSIZE
    ensures CalledAt(w, t, delay, u) <==> t + delay <= u
  {
    hide Stands, Clock, SafeStart, Envoked, Scheduled;
    var e := Timed(0, t + delay);
    var v := Scheduled(w, t, delay, e);
    EmptyOnTime(w, t);
    SafeStands(t);
    ScheduleOnTime(w, t, t, delay, 0);
    ScheduleCounts(w, t, delay, e, e);
    EnvokeOnTime(v, t, u);
    EnvokeCounts(v, u, e);
    var (x, fired) := Envoked(v, u);
    if t + delay <= u && e in Pending(x) {
      var k := GatherFrom(x.slots, 0, EVENTLISTSIZE - 1, e);
      assert false;
    }
  }

  /** Otherwise an event due when the wheel wraps around is called at once. */
  lemma TooEarly(w: Wheel<Timed<int>>, t: nat, delay: nat)
    requires Counted(w) && w.eventSet == 0 && !SafeStart(t) && delay == EVENTLISTSIZE - t % EVENTLISTSIZE
    ensures CalledAt(w, t, delay, t)
  {
    var e := Timed(0, t + delay);
    var v := Scheduled(w, t, delay, e);
    ScheduleCounts(w, t, delay, e, e);
    ClockMod(t);
    SlotDue(Clock(t), t, delay);
    WrapsToZero(t);
    var u := v.(now := Clock(t) % EVENTLISTSIZE);
    StillCounted(u, v.now, EVENTLISTSIZE - 1);
    var x := ListEnvoked(u, v.now, EVENTLISTSIZE - 1).0;
    assert x.slots == v.slots;
    GatherAll(x.slots, 0, u.now, 0, e);
  }

  lemma WrapsToZero(t: nat)
    ensures (t + (EVENTLISTSIZE - t % EVENTLISTSIZE)) % EVENTLISTSIZE == 0
  {
    ModMultiple(0, t / EVENTLISTSIZE + 1);
    assert t + (EVENTLISTSIZE - t % EVENTLISTSIZE) == (t / EVENTLISTSIZE + 1) * EVENTLISTSIZE;
  }
}
