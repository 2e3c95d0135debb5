/**
  What the scheduler does to one timer: when it fires, how often, and in which order
  relative to the others. Stated about the countdown scheduler, proved through the naive one.
*/
module TimerTrace {
  import opened TimerSpec
  import opened TimerProofs

  predicate Before(a: Firing, b: Firing) {
    a.tick < b.tick || (a.tick == b.tick && a.slot < b.slot)
  }

  ghost predicate Ordered(tr: seq<Firing>) {
    forall i, j :: 0 <= i < j < |tr| ==> Before(tr[i], tr[j])
  }

  ghost predicate NotAfter(tr: seq<Firing>, now: nat) {
    forall i :: 0 <= i < |tr| ==> tr[i].tick <= now
  }

  function Stamp(slots: seq<nat>, now: nat): (r: seq<Firing>)
    ensures |r| == |slots| && forall k :: 0 <= k < |slots| ==> r[k] == Firing(slots[k], now)
  {
    seq(|slots|, k requires 0 <= k < |slots| => Firing(slots[k], now))
  }

  /** The slots called back on a tick are exactly the due ones, each once, in slot order. */
  ghost predicate Ascending(d: seq<nat>) {
    forall a, b :: 0 <= a < b < |d| ==> d[a] < d[b]
  }

  lemma {:induction false} DueSlotsExact(timer: seq<Timer>, n: nat, now: nat)
    requires n <= |timer|
    ensures forall i :: i in DueSlots(timer, n, now) <==> 0 <= i < n && Due(timer[i], now)
    ensures Ascending(DueSlots(timer, n, now))
  {
    if n > 0 {
      DueSlotsExact(timer, n - 1, now);
      var d := DueSlots(timer, n - 1, now);
      assert forall a :: 0 <= a < |d| ==> d[a] in d;
      var last := if Due(timer[n - 1], now) then [n - 1] else [];
      assert forall i :: i in d + last <==> i in d || i in last;
    }
  }

  lemma {:induction false} FireAllTrace(v: Naive, slots: seq<nat>, cb: Handlers)
    requires InBounds(cb, |v.timer|)
    ensures NaiveFireAll(v, slots, cb).trace == v.trace + Stamp(slots, v.now)
    decreases |slots|
  {
    if slots != [] {
      var init, last := slots[..|slots| - 1], slots[|slots| - 1];
      FireAllTrace(v, init, cb);
      assert Stamp(slots, v.now) == Stamp(init, v.now) + [Firing(last, v.now)];
    }
  }

  lemma TickTrace(v: Naive, cb: Handlers)
    requires v.numTimers <= |v.timer| && InBounds(cb, |v.timer|)
    ensures NaiveTick(v, cb).trace == v.trace + Stamp(DueSlots(v.timer, v.numTimers, v.now + 1), v.now + 1)
  {
    var now := v.now + 1;
    FireAllTrace(v.(now := now, timer := AdvanceAll(v.timer, v.numTimers, now)), DueSlots(v.timer, v.numTimers, now), cb);
  }

  lemma StampOrdered(tr: seq<Firing>, slots: seq<nat>, now: nat)
    requires Ordered(tr) && NotAfter(tr, now) && Ascending(slots)
    ensures Ordered(tr + Stamp(slots, now + 1)) && NotAfter(tr + Stamp(slots, now + 1), now + 1)
  {
  }

  lemma {:induction false} TicksOrdered(v: Naive, n: nat, cb: Handlers)
    requires v.numTimers <= |v.timer| && InBounds(cb, |v.timer|)
    requires Ordered(v.trace) && NotAfter(v.trace, v.now)
    ensures Ordered(NaiveTicks(v, n, cb).trace) && NotAfter(NaiveTicks(v, n, cb).trace, v.now + n)
  {
    hide NaiveTick, DueSlots, InBounds, Ordered, NotAfter;
    if n > 0 {
      TicksOrdered(v, n - 1, cb);
      var u := NaiveTicks(v, n - 1, cb);
      TickTrace(u, cb);
      var slots := DueSlots(u.timer, u.numTimers, u.now + 1);
      DueSlotsExact(u.timer, u.numTimers, u.now + 1);
      StampOrdered(u.trace, slots, u.now);
    }
  }

  lemma {:induction false} NaiveRunOrdered(v: Naive, ops: seq<Op>)
    requires Legal(v, ops) && Ordered(v.trace) && NotAfter(v.trace, v.now)
    ensures Ordered(NaiveRun(v, ops).trace)
    decreases |ops|
  {
    if ops != [] {
      var next := NaiveStep(v, ops[0]);
      match ops[0] {
        case Ticks(n, cb) => TicksOrdered(v, n, cb);
        case _ => assert next.trace == v.trace && next.now == v.now;
      }
      NaiveRunOrdered(next, ops[1..]);
    }
  }

  /** Over every legal run callbacks happen in order of time, and in slot order within one tick;
      in particular no slot fires twice on one tick. */
  lemma {:induction false} RunOrdered(ops: seq<Op>)
    requires Legal(Abs(Initial()), ops)
    ensures Inv(Initial()) && Ordered(Run(Initial(), ops).trace)
  {
    SchedulerCorrect(ops);
    NaiveRunOrdered(Abs(Initial()), ops);
    assert Run(Initial(), ops).trace == NaiveRun(Abs(Initial()), ops).trace;
  }

  // ---------------------------------------------------------------- one timer

  /** No callback names slot i. */
  ghost predicate LeavesAlone(cb: Handlers, i: nat) {
    forall tr: seq<Firing>, c: Call {:trigger c in Reaction(cb, tr)} :: c in Reaction(cb, tr) ==> c.index != i
  }

  /** The ticks at which slot i fired, in order. */
  function TicksOf(tr: seq<Firing>, i: nat): seq<nat>
    decreases |tr|
  {
    if tr == [] then []
    else
      var last := tr[|tr| - 1];
      TicksOf(tr[..|tr| - 1], i) + if last.slot == i then [last.tick] else []
  }

  lemma {:induction false} CallsLeaveAlone(v: Naive, calls: seq<Call>, i: nat)
    requires i < |v.timer|
    requires forall c {:trigger c in calls} :: c in calls ==> c.index < |v.timer| && c.index != i
    ensures NaiveCalls(v, calls).timer[i] == v.timer[i]
    decreases |calls|
  {
    if calls != [] {
      assert calls[0] in calls;
      assert forall c {:trigger c in calls[1..]} :: c in calls[1..] ==> c in calls;
      CallsLeaveAlone(NaiveCall(v, calls[0]), calls[1..], i);
    }
  }

  lemma {:induction false} FireAllLeavesAlone(v: Naive, slots: seq<nat>, cb: Handlers, i: nat)
    requires InBounds(cb, |v.timer|) && LeavesAlone(cb, i) && i < |v.timer|
    ensures NaiveFireAll(v, slots, cb).timer[i] == v.timer[i]
    decreases |slots|
  {
    if slots != [] {
      var init, last := slots[..|slots| - 1], slots[|slots| - 1];
      FireAllLeavesAlone(v, init, cb, i);
      var u := NaiveFireAll(v, init, cb);
      var tr := u.trace + [Firing(last, u.now)];
      CallsLeaveAlone(u.(trace := tr), Reaction(cb, tr), i);
    }
  }

  lemma {:induction false} StampTicks(tr: seq<Firing>, slots: seq<nat>, now: nat, i: nat)
    requires Ascending(slots)
    ensures TicksOf(tr + Stamp(slots, now), i) == TicksOf(tr, i) + if i in slots then [now] else []
    decreases |slots|
  {
    if slots == [] {
      assert tr + Stamp(slots, now) == tr;
    } else {
      var init := slots[..|slots| - 1];
      var all := tr + Stamp(slots, now);
      assert all[..|all| - 1] == tr + Stamp(init, now);
      StampTicks(tr, init, now, i);
      assert slots == init + [slots[|slots| - 1]];
    }
  }

  /** One tick, seen from slot i. */
  lemma {:induction false} TickAlone(v: Naive, cb: Handlers, i: nat)
    requires v.numTimers <= |v.timer| && InBounds(cb, |v.timer|) && LeavesAlone(cb, i) && i < v.numTimers
    ensures NaiveTick(v, cb).timer[i] == Advance(v.timer[i], v.now + 1)
    ensures TicksOf(NaiveTick(v, cb).trace, i) ==
            TicksOf(v.trace, i) + if Due(v.timer[i], v.now + 1) then [v.now + 1] else []
  {
    var now := v.now + 1;
    var slots := DueSlots(v.timer, v.numTimers, now);
    var u := v.(now := now, timer := AdvanceAll(v.timer, v.numTimers, now));
    assert NaiveTick(v, cb) == NaiveFireAll(u, slots, cb);
    assert u.timer[i] == Advance(v.timer[i], now);
    hide NaiveTick, NaiveFireAll, DueSlots, AdvanceAll, TicksOf, LeavesAlone, InBounds;
    TickTrace(v, cb);
    DueSlotsExact(v.timer, v.numTimers, now);
    StampTicks(v.trace, slots, now, i);
    FireAllLeavesAlone(u, slots, cb, i);
  }

  /** The first k multiples of `period` from `first` on. */
  function Multiples(first: nat, period: nat, k: nat): seq<nat> {
    seq(k, j requires 0 <= j < k => first + j * period)
  }

  /** From t to r the timer fired k times, at its deadline and each period after, up to `now`. */
  ghost predicate Periodic(t: Timer, before: seq<nat>, r: Timer, after: seq<nat>, now: nat, k: nat) {
    && r == t.(timeToFire := t.timeToFire + k * t.period)
    && after == before + Multiples(t.timeToFire, t.period, k)
    && (k > 0 ==> t.timeToFire + (k - 1) * t.period <= now)
    && now < t.timeToFire + k * t.period
  }

  lemma PeriodicZero(t: Timer, before: seq<nat>, now: nat)
    requires t.timeToFire > now
    ensures Periodic(t, before, t, before, now, 0)
  {
    assert before + Multiples(t.timeToFire, t.period, 0) == before;
  }

  lemma PeriodicStep(t: Timer, before: seq<nat>, r: Timer, after: seq<nat>, now: nat, m: nat) returns (k: nat)
    requires Periodic(t, before, r, after, now, m) && t.active && t.continuous && t.period >= 1
    ensures Periodic(t, before, Advance(r, now + 1), after + (if Due(r, now + 1) then [now + 1] else []), now + 1, k)
  {
    if Due(r, now + 1) {
      k := m + 1;
      assert (m + 1) * t.period == m * t.period + t.period;
      assert Multiples(t.timeToFire, t.period, k) == Multiples(t.timeToFire, t.period, m) + [now + 1];
    } else {
      k := m;
    }
  }

  lemma {:induction false} NaivePeriodic(v: Naive, n: nat, cb: Handlers, i: nat) returns (k: nat)
    requires v.numTimers <= |v.timer| && InBounds(cb, |v.timer|) && LeavesAlone(cb, i) && i < v.numTimers
    requires v.timer[i].active && v.timer[i].continuous && v.timer[i].period >= 1 && v.timer[i].timeToFire > v.now
    ensures Periodic(v.timer[i], TicksOf(v.trace, i),
                     NaiveTicks(v, n, cb).timer[i], TicksOf(NaiveTicks(v, n, cb).trace, i), v.now + n, k)
  {
    hide NaiveTick, Periodic, TicksOf, LeavesAlone, InBounds, Advance;
    if n == 0 {
      k := 0;
      PeriodicZero(v.timer[i], TicksOf(v.trace, i), v.now);
    } else {
      var m := NaivePeriodic(v, n - 1, cb, i);
      var u := NaiveTicks(v, n - 1, cb);
      TickAlone(u, cb, i);
      k := PeriodicStep(v.timer[i], TicksOf(v.trace, i), u.timer[i], TicksOf(u.trace, i), v.now + n - 1, m);
    }
  }

  /** A periodic timer no callback touches: n ticks fire it at its deadline and every period
      after that, k times, k being the number of those instants the n ticks reach. */
  lemma PeriodicTimerExact(s: Sys, n: nat, cb: Handlers, i: nat) returns (k: nat)
    requires Inv(s) && Permitted(cb, s.timer, s.numTimers) && LeavesAlone(cb, i)
    requires i < s.numTimers && s.timer[i].active && s.timer[i].continuous
    ensures |TickN(s, n, cb).timer| == |s.timer|
    ensures Periodic(s.timer[i], TicksOf(s.trace, i),
                     TickN(s, n, cb).timer[i], TicksOf(TickN(s, n, cb).trace, i), Now(s) + n, k)
  {
    assert SlotOk(s.timer[i], i, s.numTimers, s.ticksTotal + s.currCountdownPeriod);
    TickNRefines(s, n, cb);
    hide TickN, NaiveTicks;
    assert Abs(TickN(s, n, cb)).timer == TickN(s, n, cb).timer;
    k := NaivePeriodic(Abs(s), n, cb, i);
  }

  lemma {:induction false} NaiveOneShot(v: Naive, n: nat, cb: Handlers, i: nat)
    requires v.numTimers <= |v.timer| && InBounds(cb, |v.timer|) && LeavesAlone(cb, i) && i < v.numTimers
    requires v.timer[i].active && !v.timer[i].continuous && v.timer[i].timeToFire > v.now
    ensures var t := v.timer[i]; var r := NaiveTicks(v, n, cb); var fired := t.timeToFire <= v.now + n;
      && r.timer[i] == t.(active := !fired)
      && TicksOf(r.trace, i) == TicksOf(v.trace, i) + if fired then [t.timeToFire] else []
  {
    hide NaiveTick, TicksOf, LeavesAlone, InBounds;
    if n > 0 {
      NaiveOneShot(v, n - 1, cb, i);
      TickAlone(NaiveTicks(v, n - 1, cb), cb, i);
    }
  }

  /** A one-shot timer no callback touches fires once, exactly at its deadline, and is then off. */
  lemma {:induction false} OneShotTimerExact(s: Sys, n: nat, cb: Handlers, i: nat)
    requires Inv(s) && Permitted(cb, s.timer, s.numTimers) && LeavesAlone(cb, i)
    requires i < s.numTimers && s.timer[i].active && !s.timer[i].continuous
    ensures var t := s.timer[i]; var r := TickN(s, n, cb); var fired := t.timeToFire <= Now(s) + n;
      && |r.timer| == |s.timer| && r.timer[i] == t.(active := !fired)
      && TicksOf(r.trace, i) == TicksOf(s.trace, i) + if fired then [t.timeToFire] else []
  {
    assert SlotOk(s.timer[i], i, s.numTimers, s.ticksTotal + s.currCountdownPeriod);
    TickNRefines(s, n, cb);
    assert Abs(TickN(s, n, cb)).timer == TickN(s, n, cb).timer;
    NaiveOneShot(Abs(s), n, cb, i);
  }

  // ---------------------------------------------------------------- what a caller is promised

  function Sooner(a: nat, b: nat): nat {
    if a < b then a else b
  }

  /** The delay a caller gets: what it asks for, and one tick where it asks for none. */
  lemma AskedDelay(s: Sys, i: nat, ticks: nat, continuous: bool)
    requires Inv(s) && CallAllowed(Activate(i, ticks, continuous), s.timer, s.numTimers)
    ensures var r := ActivateTicks(s, i, ticks, continuous);
      && Inv(r) && Now(r) == Now(s) && r.trace == s.trace && r.numTimers == s.numTimers && |r.timer| == |s.timer|
      && r.timer[i].active && r.timer[i].continuous == continuous && r.timer[i].inUse
      && r.timer[i].timeToFire == Now(s) + (if ticks == 0 then 1 else ticks)
      && r.timer[i].period == (if ticks == 0 then 1 else ticks)
      && r.ticksTotal + r.currCountdownPeriod
         == Sooner(s.ticksTotal + s.currCountdownPeriod, Now(s) + (if ticks == 0 then 1 else ticks))
      && SameSlots(s.timer, r.timer)
      && forall j :: 0 <= j < |s.timer| && j != i ==> r.timer[j] == s.timer[j]
  {
    CallRefines(s, Activate(i, ticks, continuous));
    assert RunCall(s, Activate(i, ticks, continuous)) == ActivateTicks(s, i, ticks, continuous);
  }

  /** When a timer fires that is due first in d ticks and, if it is periodic, every d ticks after that. */
  function Rings(now: nat, d: nat, continuous: bool, n: nat): seq<nat>
    requires d > 0
  {
    if n < d then [] else if !continuous then [now + d] else seq(n / d, j => now + (j + 1) * d)
  }

  /** A timer d ticks from its deadline, with period d, over the next n ticks. */
  lemma RingsFrom(s: Sys, i: nat, d: nat, n: nat, cb: Handlers)
    requires Inv(s) && Permitted(cb, s.timer, s.numTimers) && LeavesAlone(cb, i) && d > 0
    requires i < s.numTimers && s.timer[i].active && s.timer[i].timeToFire == Now(s) + d && s.timer[i].period == d
    ensures TicksOf(TickN(s, n, cb).trace, i) == TicksOf(s.trace, i) + Rings(Now(s), d, s.timer[i].continuous, n)
  {
    var continuous := s.timer[i].continuous;
    hide Inv, Permitted, LeavesAlone, TickN, TicksOf, Rings;
    if continuous { RingsPeriodic(s, i, d, n, cb); } else { RingsOnce(s, i, d, n, cb); }
  }

  lemma RingsPeriodic(s: Sys, i: nat, d: nat, n: nat, cb: Handlers)
    requires Inv(s) && Permitted(cb, s.timer, s.numTimers) && LeavesAlone(cb, i) && d > 0
    requires i < s.numTimers && s.timer[i].active && s.timer[i].timeToFire == Now(s) + d && s.timer[i].period == d
    requires s.timer[i].continuous
    ensures TicksOf(TickN(s, n, cb).trace, i) == TicksOf(s.trace, i) + Rings(Now(s), d, true, n)
  {
    var t := s.timer[i];
    hide Inv, Permitted, LeavesAlone, TickN, TicksOf, Rings, Multiples, Periodic;
    var k := PeriodicTimerExact(s, n, cb, i);
    PeriodicRings(t, TicksOf(s.trace, i), TickN(s, n, cb).timer[i], TicksOf(TickN(s, n, cb).trace, i), Now(s), d, n, k);
  }

  lemma RingsOnce(s: Sys, i: nat, d: nat, n: nat, cb: Handlers)
    requires Inv(s) && Permitted(cb, s.timer, s.numTimers) && LeavesAlone(cb, i) && d > 0
    requires i < s.numTimers && s.timer[i].active && s.timer[i].timeToFire == Now(s) + d && !s.timer[i].continuous
    ensures TicksOf(TickN(s, n, cb).trace, i) == TicksOf(s.trace, i) + Rings(Now(s), d, false, n)
  {
    hide Inv, Permitted, LeavesAlone, TickN, TicksOf, Rings;
    OneShotTimerExact(s, n, cb, i);
    OneRing(Now(s), d, n);
  }

  lemma OneRing(now: nat, d: nat, n: nat)
    requires d > 0
    ensures Rings(now, d, false, n) == if now + d <= now + n then [now + d] else []
  {
  }

  lemma PeriodicRings(t: Timer, before: seq<nat>, r: Timer, after: seq<nat>, now: nat, d: nat, n: nat, k: nat)
    requires d > 0 && t.timeToFire == now + d && t.period == d && Periodic(t, before, r, after, now + n, k)
    ensures after == before + Rings(now, d, true, n)
  {
    hide Multiples, Rings;
    RingCount(now, d, n, k);
  }

  lemma RingCount(now: nat, d: nat, n: nat, k: nat)
    requires d > 0 && now + n < now + d + k * d && (k > 0 ==> now + d + (k - 1) * d <= now + n)
    ensures n / d == k && Multiples(now + d, d, k) == Rings(now, d, true, n)
  {
    RingBounds(now, d, n, k);
    Quotient(n, d, k);
    hide Multiples;
    MultiplesAre(now, d, k);
  }

  lemma NextMultiple(j: nat, d: nat)
    ensures (j + 1) * d == j * d + d
  {
  }

  lemma RingBounds(now: nat, d: nat, n: nat, k: nat)
    requires d > 0 && now + n < now + d + k * d && (k > 0 ==> now + d + (k - 1) * d <= now + n)
    ensures k * d <= n < (k + 1) * d && (n < d <==> k == 0)
  {
    NextMultiple(k, d);
    if k > 0 { NextMultiple(k - 1, d); }
  }

  lemma MultiplesAre(now: nat, d: nat, k: nat)
    ensures Multiples(now + d, d, k) == seq(k, j => now + (j + 1) * d)
  {
    forall j: nat | j < k
      ensures now + d + j * d == now + (j + 1) * d
    {
      NextMultiple(j, d);
    }
  }

  lemma Quotient(n: nat, d: nat, k: nat)
    requires d > 0 && k * d <= n < (k + 1) * d
    ensures n / d == k
  {
    var q := n / d;
    assert q * d <= n < q * d + d;
    assert q < k ==> (q + 1) * d <= k * d;
    assert q > k ==> (k + 1) * d <= q * d;
  }

  /**
    A timer activated for `ticks` ticks that callbacks leave alone fires first when exactly that many have passed, one
    for none; then, if it is periodic, every so many again, and otherwise never.
  */
  lemma ActivatedFires(s: Sys, i: nat, ticks: nat, continuous: bool, n: nat, cb: Handlers)
    requires Inv(s) && CallAllowed(Activate(i, ticks, continuous), s.timer, s.numTimers)
    requires Permitted(cb, s.timer, s.numTimers) && LeavesAlone(cb, i)
    ensures var r := ActivateTicks(s, i, ticks, continuous);
      && Inv(r) && Permitted(cb, r.timer, r.numTimers) && Now(r) == Now(s)
      && TicksOf(TickN(r, n, cb).trace, i)
         == TicksOf(s.trace, i) + Rings(Now(s), if ticks == 0 then 1 else ticks, continuous, n)
  {
    hide Inv, Permitted, LeavesAlone, TickN, TicksOf, ActivateTicks;
    AskedDelay(s, i, ticks, continuous);
    var r := ActivateTicks(s, i, ticks, continuous);
    PermittedStable(cb, s.timer, r.timer, s.numTimers);
    RingsFrom(r, i, if ticks == 0 then 1 else ticks, n, cb);
  }

  /**
    A registration gives back the lowest slot from 1 on that is not in use, one more than there were if all are, and
    touches no other. Registered active it fires like a timer just activated; registered inactive it does not fire.
  */
  lemma RegisteredFires(s: Sys, ticks: nat, continuous: bool, active: bool, n: nat, cb: Handlers)
    requires Inv(s) && FreeSlot(s.timer, s.numTimers, 1) < |s.timer|
    ensures var (r, id) := RegisterTicks(s, ticks, continuous, active);
      && Inv(r) && Now(r) == Now(s) && 1 <= id <= s.numTimers && id < |s.timer| && |r.timer| == |s.timer|
      && (forall j :: 1 <= j < id ==> s.timer[j].inUse) && !s.timer[id].inUse
      && r.timer[id].inUse && (forall j :: 0 <= j < |s.timer| && j != id ==> r.timer[j] == s.timer[j])
      && r.numTimers == (if id == s.numTimers then s.numTimers + 1 else s.numTimers)
      && (active ==> r.ticksTotal + r.currCountdownPeriod
                     == Sooner(s.ticksTotal + s.currCountdownPeriod, Now(s) + (if ticks == 0 then 1 else ticks)))
      && (!active ==> r.ticksTotal == s.ticksTotal && r.currCountdownPeriod == s.currCountdownPeriod)
      && (Permitted(cb, r.timer, r.numTimers) && LeavesAlone(cb, id) ==>
            TicksOf(TickN(r, n, cb).trace, id)
            == TicksOf(s.trace, id) + (if active then Rings(Now(s), if ticks == 0 then 1 else ticks, continuous, n) else []))
  {
    RegisterRefines(s, ticks, continuous, active);
    RegisteredSlot(s, ticks, continuous, active);
    var (r, id) := RegisterTicks(s, ticks, continuous, active);
    if Permitted(cb, r.timer, r.numTimers) && LeavesAlone(cb, id) {
      hide Inv, Permitted, LeavesAlone, TickN, TicksOf, RegisterTicks, FreeSlot;
      if active { RingsFrom(r, id, if ticks == 0 then 1 else ticks, n, cb); } else { InactiveSilent(r, n, cb, id); }
    }
  }

  lemma RegisteredSlot(s: Sys, ticks: nat, continuous: bool, active: bool)
    requires Inv(s) && FreeSlot(s.timer, s.numTimers, 1) < |s.timer|
    ensures var (r, id) := RegisterTicks(s, ticks, continuous, active);
      && 1 <= id <= s.numTimers && id < |s.timer| && |r.timer| == |s.timer| && r.trace == s.trace && Now(r) == Now(s)
      && (forall j :: 1 <= j < id ==> s.timer[j].inUse) && !s.timer[id].inUse
      && (forall j :: 0 <= j < |s.timer| && j != id ==> r.timer[j] == s.timer[j])
      && r.numTimers == (if id == s.numTimers then s.numTimers + 1 else s.numTimers)
      && r.timer[id].inUse && r.timer[id].active == active && r.timer[id].continuous == continuous
      && r.timer[id].timeToFire == Now(s) + (if ticks == 0 then 1 else ticks)
      && r.timer[id].period == (if ticks == 0 then 1 else ticks)
      && r.ticksTotal + r.currCountdownPeriod
         == (if active then Sooner(s.ticksTotal + s.currCountdownPeriod, Now(s) + (if ticks == 0 then 1 else ticks))
             else s.ticksTotal + s.currCountdownPeriod)
      && r.ticksTotal == s.ticksTotal
  {
    RegisterRefines(s, ticks, continuous, active);
    var id := FreeSlot(s.timer, s.numTimers, 1);
    assert SlotOk(s.timer[id], id, s.numTimers, s.ticksTotal + s.currCountdownPeriod);
    assert Now(RegisterTicks(s, ticks, continuous, active).0) == Abs(RegisterTicks(s, ticks, continuous, active).0).now;
  }

  lemma {:induction false} NaiveSilent(v: Naive, n: nat, cb: Handlers, i: nat)
    requires v.numTimers <= |v.timer| && InBounds(cb, |v.timer|) && LeavesAlone(cb, i) && i < v.numTimers && !v.timer[i].active
    ensures NaiveTicks(v, n, cb).timer[i] == v.timer[i] && TicksOf(NaiveTicks(v, n, cb).trace, i) == TicksOf(v.trace, i)
  {
    hide NaiveTick, TicksOf, LeavesAlone, InBounds;
    if n > 0 {
      NaiveSilent(v, n - 1, cb, i);
      TickAlone(NaiveTicks(v, n - 1, cb), cb, i);
    }
  }

  /** A timer that is off stays off and silent. */
  lemma InactiveSilent(s: Sys, n: nat, cb: Handlers, i: nat)
    requires Inv(s) && Permitted(cb, s.timer, s.numTimers) && LeavesAlone(cb, i) && i < s.numTimers && !s.timer[i].active
    ensures TicksOf(TickN(s, n, cb).trace, i) == TicksOf(s.trace, i)
  {
    hide TickN, NaiveTicks, TicksOf;
    TickNRefines(s, n, cb);
    NaiveSilent(Abs(s), n, cb, i);
  }

  /** After deactivate_timer the timer does not fire again, and no other timer is touched. */
  lemma DeactivatedSilent(s: Sys, i: nat, n: nat, cb: Handlers)
    requires Inv(s) && CallAllowed(Deactivate(i), s.timer, s.numTimers)
    requires Permitted(cb, s.timer, s.numTimers) && LeavesAlone(cb, i)
    ensures var r := DeactivateTimer(s, i);
      && Inv(r) && Permitted(cb, r.timer, r.numTimers) && Now(r) == Now(s)
      && (forall j :: 0 <= j < |s.timer| && j != i ==> r.timer[j] == s.timer[j])
      && TicksOf(TickN(r, n, cb).trace, i) == TicksOf(s.trace, i)
  {
    CallRefines(s, Deactivate(i));
    var r := DeactivateTimer(s, i);
    assert RunCall(s, Deactivate(i)) == r;
    PermittedStable(cb, s.timer, r.timer, s.numTimers);
    hide Inv, Permitted, LeavesAlone, TickN, TicksOf;
    InactiveSilent(r, n, cb, i);
  }

  /**
    unregisterTimer refuses an active timer and changes nothing; any other it takes out, so that its slot can be
    registered again, and touches no other. The bound comes down only from the last slot.
  */
  lemma UnregisteredFrees(s: Sys, i: nat)
    requires Inv(s) && 1 <= i < s.numTimers && s.timer[i].inUse
    ensures var (r, ok) := Unregister(s, i);
      && Inv(r) && (ok <==> !s.timer[i].active) && (!ok ==> r == s) && Now(r) == Now(s) && r.trace == s.trace
      && |r.timer| == |s.timer| && (forall j :: 0 <= j < |s.timer| && j != i ==> r.timer[j] == s.timer[j])
      && (ok ==> r.timer[i] == Timer(false, 0x7fff_ffff_ffff_ffff, 0x7fff_ffff_ffff_ffff, false, false)
                 && r.numTimers == (if i + 1 == s.numTimers then s.numTimers - 1 else s.numTimers)
                 && FreeSlot(r.timer, r.numTimers, 1) <= i)
  {
    StepRefines(s, UnregisterSlot(i));
    assert Step(s, UnregisterSlot(i)) == Unregister(s, i).0;
  }

  /** From power-on, with nothing registered, the null timer fires every 2^32 - 1 ticks and nothing else does. */
  lemma NullTimerRings(n: nat, cb: Handlers)
    requires Permitted(cb, Initial().timer, 1)
    ensures Inv(Initial()) && Now(Initial()) == 0 && Initial().numTimers == 1 && |Initial().timer| == 64
    ensures forall j :: 1 <= j < 64 ==> !Initial().timer[j].inUse && !Initial().timer[j].active
    ensures TicksOf(TickN(Initial(), n, cb).trace, 0) == Rings(0, 4294967295, true, n)
    ensures Now(TickN(Initial(), n, cb)) == n
  {
    InitialInv();
    NullAlone(cb);
    InitialNull();
    hide TickN, Rings, Initial, Inv, Permitted, LeavesAlone, TicksOf, NaiveTicks;
    TickNRefines(Initial(), n, cb);
    RingsFrom(Initial(), 0, 4294967295, n, cb);
  }

  lemma InitialNull()
    ensures var s := Initial();
      && |s.timer| == 64 && s.numTimers == 1 && Now(s) == 0 && s.trace == [] && TicksOf(s.trace, 0) == []
      && s.timer[0].active && s.timer[0].continuous && s.timer[0].timeToFire == 4294967295 && s.timer[0].period == 4294967295
      && forall j :: 1 <= j < 64 ==> !s.timer[j].inUse && !s.timer[j].active
  {
  }

  lemma NullAlone(cb: Handlers)
    requires Permitted(cb, Initial().timer, 1)
    ensures LeavesAlone(cb, 0)
  {
  }
}
