/**
  The countdown scheduler refines the naive one, over every run.
*/
module TimerProofs {
  import opened Common
  import opened TimerSpec

  /** What holds between any two calls on the timer system, and between two callbacks. */
  ghost predicate Inv(s: Sys) {
    && |s.timer| == MAX_TIMERS
    && 1 <= s.numTimers <= MAX_TIMERS
    && NullTimerOk(s.timer[0], Now(s))
    && 0 < s.currCountdown <= s.currCountdownPeriod <= NULL_INTERVAL
    && (forall i :: 0 <= i < MAX_TIMERS ==> SlotOk(s.timer[i], i, s.numTimers, s.ticksTotal + s.currCountdownPeriod))
  }

  predicate NullTimerOk(t: Timer, now: nat) {
    t.inUse && t.active && t.continuous && t.period == NULL_INTERVAL && t.timeToFire <= now + NULL_INTERVAL
  }

  predicate SlotOk(t: Timer, i: nat, numTimers: nat, deadline: nat) {
    && (t.active ==> t.timeToFire >= deadline && t.period >= 1)
    && (i >= numTimers ==> !t.active && !t.inUse)
  }

  lemma InitialInv()
    ensures Inv(Initial())
  {
  }

  // ---------------------------------------------------------------- single calls

  ghost predicate SameSlots(a: seq<Timer>, b: seq<Timer>) {
    |a| == |b| && forall i :: 0 <= i < |a| ==> a[i].inUse == b[i].inUse
  }

  lemma PermittedStable(cb: Handlers, a: seq<Timer>, b: seq<Timer>, n: nat)
    requires Permitted(cb, a, n) && SameSlots(a, b)
    ensures Permitted(cb, b, n)
  {
  }

  lemma AllowedStable(calls: seq<Call>, a: seq<Timer>, b: seq<Timer>, n: nat)
    requires AllAllowed(calls, a, n) && SameSlots(a, b)
    ensures AllAllowed(calls, b, n)
  {
  }

  lemma CallRefines(s: Sys, c: Call)
    requires Inv(s) && CallAllowed(c, s.timer, s.numTimers)
    ensures Inv(RunCall(s, c))
    ensures Abs(RunCall(s, c)) == NaiveCall(Abs(s), c)
    ensures SameSlots(s.timer, RunCall(s, c).timer)
  {
    var r := RunCall(s, c);
    assert Now(r) == Now(s);
    forall j | 0 <= j < MAX_TIMERS
      ensures SlotOk(r.timer[j], j, r.numTimers, r.ticksTotal + r.currCountdownPeriod)
    {
      assert SlotOk(s.timer[j], j, s.numTimers, s.ticksTotal + s.currCountdownPeriod);
    }
  }

  lemma {:induction false} CallsRefine(s: Sys, calls: seq<Call>)
    requires Inv(s) && AllAllowed(calls, s.timer, s.numTimers)
    ensures Inv(RunCalls(s, calls))
    ensures Abs(RunCalls(s, calls)) == NaiveCalls(Abs(s), calls)
    ensures SameSlots(s.timer, RunCalls(s, calls).timer)
    decreases |calls|
  {
    if calls != [] {
      assert calls[0] in calls;
      CallRefines(s, calls[0]);
      AllowedStable(calls, s.timer, RunCall(s, calls[0]).timer, s.numTimers);
      assert forall c :: c in calls[1..] ==> c in calls;
      CallsRefine(RunCall(s, calls[0]), calls[1..]);
    }
  }

  lemma FireRefines(s: Sys, slot: nat, cb: Handlers)
    requires Inv(s) && Permitted(cb, s.timer, s.numTimers)
    ensures Inv(Fire(s, slot, cb))
    ensures Abs(Fire(s, slot, cb)) == NaiveFire(Abs(s), slot, cb)
    ensures SameSlots(s.timer, Fire(s, slot, cb).timer)
  {
    var tr := s.trace + [Firing(slot, Now(s))];
    CallsRefine(s.(trace := tr), Reaction(cb, tr));
  }

  lemma {:induction false} FireAllRefines(s: Sys, slots: seq<nat>, cb: Handlers)
    requires Inv(s) && Permitted(cb, s.timer, s.numTimers)
    ensures Inv(FireAll(s, slots, cb))
    ensures Abs(FireAll(s, slots, cb)) == NaiveFireAll(Abs(s), slots, cb)
    ensures SameSlots(s.timer, FireAll(s, slots, cb).timer)
    decreases |slots|
  {
    if slots != [] {
      var init := slots[..|slots| - 1];
      FireAllRefines(s, init, cb);
      PermittedStable(cb, s.timer, FireAll(s, init, cb).timer, s.numTimers);
      FireRefines(FireAll(s, init, cb), slots[|slots| - 1], cb);
    }
  }

  // ---------------------------------------------------------------- one tick

  /** The countdown has run out; `s` is otherwise as the invariant describes it. */
  ghost predicate RunOut(s: Sys) {
    s.currCountdown == 0 && 0 < s.currCountdownPeriod && Inv(s.(currCountdown := 1))
  }

  /** After the first loop of countdownEvent every active timer is due strictly later. */
  lemma AdvancedLater(timer: seq<Timer>, numTimers: nat, now: nat, j: nat)
    requires j < |timer| && numTimers <= |timer| && SlotOk(timer[j], j, numTimers, now)
    ensures SlotOk(AdvanceAll(timer, numTimers, now)[j], j, numTimers, now + 1)
  {
  }

  /** countdownEvent re-arms a countdown that fits in 32 bits: the narrowing loses nothing. */
  lemma RearmExact(s: Sys)
    requires RunOut(s)
    ensures Inv(Rearm(s))
    ensures Now(Rearm(s)) == s.ticksTotal + s.currCountdownPeriod
    ensures Rearm(s).timer == AdvanceAll(s.timer, s.numTimers, s.ticksTotal + s.currCountdownPeriod)
    ensures MinTimeToFire(Rearm(s).timer, s.numTimers) == Some(Rearm(s).ticksTotal + Rearm(s).currCountdown)
  {
    var now := s.ticksTotal + s.currCountdownPeriod;
    var timer := AdvanceAll(s.timer, s.numTimers, now);
    forall j | 0 <= j < MAX_TIMERS
      ensures SlotOk(timer[j], j, s.numTimers, now + 1)
    {
      assert SlotOk(s.timer[j], j, s.numTimers, now);
      AdvancedLater(s.timer, s.numTimers, now, j);
    }
    assert NullTimerOk(timer[0], now) by {
      assert SlotOk(s.timer[0], 0, s.numTimers, now);
    }
    var min := MinTimeToFire(timer, s.numTimers);
    assert min.Some? && min.value <= timer[0].timeToFire;
    assert now < min.value;
    RearmInv(s, now, timer, min.value);
  }

  lemma {:induction false} RearmInv(s: Sys, now: nat, timer: seq<Timer>, min: nat)
    requires s.numTimers <= |s.timer| && now == s.ticksTotal + s.currCountdownPeriod
    requires timer == AdvanceAll(s.timer, s.numTimers, now) && MinTimeToFire(timer, s.numTimers) == Some(min)
    requires |timer| == MAX_TIMERS && 1 <= s.numTimers && NullTimerOk(timer[0], now)
    requires forall j :: 0 <= j < MAX_TIMERS ==> SlotOk(timer[j], j, s.numTimers, now + 1)
    requires now < min <= now + NULL_INTERVAL
    ensures Inv(Rearm(s)) && Rearm(s).timer == timer && Rearm(s).ticksTotal == now && Now(Rearm(s)) == now
    ensures now + Rearm(s).currCountdown == min
  {
    hide AdvanceAll, MinTimeToFire;
    var r := Rearm(s);
    assert r.currCountdown == r.currCountdownPeriod == min - now;
    forall j | 0 <= j < MAX_TIMERS
      ensures SlotOk(r.timer[j], j, r.numTimers, r.ticksTotal + r.currCountdownPeriod)
    {
      assert SlotOk(timer[j], j, s.numTimers, now + 1);
    }
  }

  lemma RearmAbs(s: Sys)
    requires RunOut(s)
    ensures Now(s.(currCountdown := 1)) + 1 == s.ticksTotal + s.currCountdownPeriod
    ensures Abs(Rearm(s)) == Naive(AdvanceAll(s.timer, s.numTimers, Now(s.(currCountdown := 1)) + 1), s.numTimers,
                                   Now(s.(currCountdown := 1)) + 1, s.trace)
    ensures Inv(Rearm(s)) && SameSlots(s.timer, Rearm(s).timer)
  {
    RearmExact(s);
  }

  lemma EventRefines(s: Sys, cb: Handlers)
    requires RunOut(s) && Permitted(cb, s.timer, s.numTimers)
    ensures Inv(CountdownEvent(s, cb))
    ensures Abs(CountdownEvent(s, cb)) == NaiveTick(Abs(s.(currCountdown := 1)), cb)
    ensures SameSlots(s.timer, CountdownEvent(s, cb).timer)
  {
    hide Inv, Rearm, FireAll, NaiveFireAll;
    RearmAbs(s);
    var due := DueSlots(s.timer, s.numTimers, s.ticksTotal + s.currCountdownPeriod);
    PermittedStable(cb, s.timer, Rearm(s).timer, s.numTimers);
    FireAllRefines(Rearm(s), due, cb);
    assert CountdownEvent(s, cb) == FireAll(Rearm(s), due, cb);
    assert NaiveTick(Abs(s.(currCountdown := 1)), cb) == NaiveFireAll(Abs(Rearm(s)), due, cb);
  }

  lemma {:induction false} NothingDue(timer: seq<Timer>, n: nat, now: nat)
    requires n <= |timer| && forall i :: 0 <= i < n ==> !Due(timer[i], now)
    ensures DueSlots(timer, n, now) == []
  {
    if n > 0 { NothingDue(timer, n - 1, now); }
  }

  /** tick1 is one step of the every-tick scan, and keeps the invariant. */
  lemma Tick1Refines(s: Sys, cb: Handlers)
    requires Inv(s) && Permitted(cb, s.timer, s.numTimers)
    ensures Inv(Tick1(s, cb))
    ensures Abs(Tick1(s, cb)) == NaiveTick(Abs(s), cb)
    ensures SameSlots(s.timer, Tick1(s, cb).timer)
  {
    if s.currCountdown == 1 {
      EventRefines(s.(currCountdown := 0), cb);
    } else {
      var now := Now(s) + 1;
      assert Now(Tick1(s, cb)) == now;
      forall i | 0 <= i < s.numTimers
        ensures !Due(s.timer[i], now)
      {
        assert SlotOk(s.timer[i], i, s.numTimers, s.ticksTotal + s.currCountdownPeriod);
      }
      NothingDue(s.timer, s.numTimers, now);
      assert AdvanceAll(s.timer, s.numTimers, now) == s.timer;
    }
  }

  // ---------------------------------------------------------------- n ticks

  /** tick1, with what its successor needs. */
  function NextTick(s: Sys, cb: Handlers): (r: Sys)
    requires Inv(s) && Permitted(cb, s.timer, s.numTimers)
    ensures Inv(r) && Permitted(cb, r.timer, r.numTimers) && r.numTimers == s.numTimers
  {
    Tick1Refines(s, cb);
    PermittedStable(cb, s.timer, Tick1(s, cb).timer, s.numTimers);
    Tick1(s, cb)
  }

  function Tick1s(s: Sys, n: nat, cb: Handlers): (r: Sys)
    requires Inv(s) && Permitted(cb, s.timer, s.numTimers)
    ensures Inv(r) && Permitted(cb, r.timer, r.numTimers) && r.numTimers == s.numTimers
    decreases n
  {
    if n == 0 then s else Tick1s(NextTick(s, cb), n - 1, cb)
  }

  /** countdownEvent as tickn calls it, with what its successor needs. */
  function NextEvent(s: Sys, cb: Handlers): (r: Sys)
    requires Inv(s) && Permitted(cb, s.timer, s.numTimers)
    ensures Inv(r) && Permitted(cb, r.timer, r.numTimers) && r.numTimers == s.numTimers
  {
    EventRefines(s.(currCountdown := 0), cb);
    PermittedStable(cb, s.timer, CountdownEvent(s.(currCountdown := 0), cb).timer, s.numTimers);
    CountdownEvent(s.(currCountdown := 0), cb)
  }

  /** tickn: whole countdowns at a time. */
  function TickN(s: Sys, n: nat, cb: Handlers): (r: Sys)
    requires Inv(s) && Permitted(cb, s.timer, s.numTimers)
    ensures Inv(r) && Permitted(cb, r.timer, r.numTimers) && r.numTimers == s.numTimers
    decreases n
  {
    if n >= s.currCountdown then TickN(NextEvent(s, cb), n - s.currCountdown, cb)
    else s.(currCountdown := s.currCountdown - n)
  }

  /** Below the countdown, single ticks only count down. */
  lemma {:induction false} QuietTicks(s: Sys, n: nat, cb: Handlers)
    requires Inv(s) && Permitted(cb, s.timer, s.numTimers) && n < s.currCountdown
    ensures Tick1s(s, n, cb) == s.(currCountdown := s.currCountdown - n)
    decreases n
  {
    if n > 0 {
      QuietTicks(NextTick(s, cb), n - 1, cb);
    }
  }

  lemma {:induction false} Tick1sCompose(s: Sys, a: nat, b: nat, cb: Handlers)
    requires Inv(s) && Permitted(cb, s.timer, s.numTimers)
    ensures Tick1s(s, a + b, cb) == Tick1s(Tick1s(s, a, cb), b, cb)
    decreases a
  {
    hide Inv, Permitted, NextTick;
    if a > 0 {
      var next := NextTick(s, cb);
      Tick1sCompose(next, a - 1, b, cb);
      assert Tick1s(s, a, cb) == Tick1s(next, a - 1, cb);
      assert Tick1s(s, a + b, cb) == Tick1s(next, a - 1 + b, cb);
    }
  }

  /** A whole countdown of single ticks ends in countdownEvent. */
  lemma {:induction false} FullCountdown(s: Sys, cb: Handlers)
    requires Inv(s) && Permitted(cb, s.timer, s.numTimers)
    ensures Tick1s(s, s.currCountdown, cb) == NextEvent(s, cb)
  {
    hide CountdownEvent;
    var c := s.currCountdown;
    QuietTicks(s, c - 1, cb);
    Tick1sCompose(s, c - 1, 1, cb);
    var last := s.(currCountdown := 1);
    assert Tick1s(last, 1, cb) == NextTick(last, cb);
  }

  /** tickn(n) is n calls of tick1: same state, same callback trace. */
  lemma {:induction false} TickNIsTick1s(s: Sys, n: nat, cb: Handlers)
    requires Inv(s) && Permitted(cb, s.timer, s.numTimers)
    ensures TickN(s, n, cb) == Tick1s(s, n, cb)
    decreases n
  {
    var c := s.currCountdown;
    if n < c {
      QuietTicks(s, n, cb);
    } else {
      FullCountdown(s, cb);
      Tick1sCompose(s, c, n - c, cb);
      TickNIsTick1s(NextEvent(s, cb), n - c, cb);
    }
  }

  lemma {:induction false} TickNSplits(s: Sys, a: nat, b: nat, cb: Handlers)
    requires Inv(s) && Permitted(cb, s.timer, s.numTimers)
    ensures TickN(s, a + b, cb) == TickN(TickN(s, a, cb), b, cb)
  {
    hide Inv, Permitted, Tick1s, TickN;
    TickNIsTick1s(s, a + b, cb);
    TickNIsTick1s(s, a, cb);
    TickNIsTick1s(Tick1s(s, a, cb), b, cb);
    Tick1sCompose(s, a, b, cb);
  }

  lemma {:induction false} NaiveTicksFront(v: Naive, n: nat, cb: Handlers)
    requires v.numTimers <= |v.timer| && InBounds(cb, |v.timer|)
    ensures NaiveTicks(v, n + 1, cb) == NaiveTicks(NaiveTick(v, cb), n, cb)
  {
    hide NaiveTick;
    if n > 0 { NaiveTicksFront(v, n - 1, cb); }
  }

  lemma NextTickRefines(s: Sys, cb: Handlers)
    requires Inv(s) && Permitted(cb, s.timer, s.numTimers)
    ensures s.numTimers <= |s.timer|
    ensures Abs(NextTick(s, cb)) == NaiveTick(Abs(s), cb)
  {
    hide NaiveTick, Tick1;
    Tick1Refines(s, cb);
  }

  lemma {:induction false} Tick1sRefine(s: Sys, n: nat, cb: Handlers)
    requires Inv(s) && Permitted(cb, s.timer, s.numTimers) && s.numTimers <= |s.timer|
    ensures Abs(Tick1s(s, n, cb)) == NaiveTicks(Abs(s), n, cb)
    decreases n
  {
    hide Inv, NaiveTick, NextTick;
    if n > 0 {
      var next := NextTick(s, cb);
      NextTickRefines(s, cb);
      NextTickRefines(next, cb);
      Tick1sRefine(next, n - 1, cb);
      NaiveTicksFront(Abs(s), n - 1, cb);
    }
  }

  /** tickn(n) fires what n every-tick scans fire, and moves time_ticks() on by n. */
  lemma {:induction false} TickNRefines(s: Sys, n: nat, cb: Handlers)
    requires Inv(s) && Permitted(cb, s.timer, s.numTimers)
    ensures Inv(TickN(s, n, cb))
    ensures Abs(TickN(s, n, cb)) == NaiveTicks(Abs(s), n, cb)
    ensures Now(TickN(s, n, cb)) == Now(s) + n
  {
    TickNIsTick1s(s, n, cb);
    Tick1sRefine(s, n, cb);
    assert NaiveTicks(Abs(s), n, cb).now == Now(s) + n;
  }

  // ---------------------------------------------------------------- runs

  datatype Op =
    | Ticks(n: nat, cb: Handlers)
    | Register(ticks: nat, continuous: bool, active: bool)
    | UnregisterSlot(i: nat)
    | CallFrom(call: Call)

  /** What each operation demands of its caller; a slot must be free to register in. */
  ghost predicate Allowed(op: Op, timer: seq<Timer>, numTimers: nat)
    requires 1 <= numTimers <= |timer|
  {
    match op
    case Ticks(n, cb) => Permitted(cb, timer, numTimers)
    case Register(_, _, _) => FreeSlot(timer, numTimers, 1) < |timer|
    case UnregisterSlot(i) => 1 <= i < numTimers && timer[i].inUse
    case CallFrom(c) => CallAllowed(c, timer, numTimers)
  }

  ghost predicate Sized(v: Naive) {
    1 <= v.numTimers <= |v.timer|
  }

  ghost function NaiveStep(v: Naive, op: Op): Naive
    requires Sized(v) && Allowed(op, v.timer, v.numTimers)
  {
    match op
    case Ticks(n, cb) => NaiveTicks(v, n, cb)
    case Register(ticks, continuous, active) => NaiveRegister(v, ticks, continuous, active)
    case UnregisterSlot(i) => NaiveUnregister(v, i)
    case CallFrom(c) => NaiveCall(v, c)
  }

  ghost function Step(s: Sys, op: Op): Sys
    requires Inv(s) && Allowed(op, s.timer, s.numTimers)
  {
    match op
    case Ticks(n, cb) => TickN(s, n, cb)
    case Register(ticks, continuous, active) => RegisterTicks(s, ticks, continuous, active).0
    case UnregisterSlot(i) => Unregister(s, i).0
    case CallFrom(c) => RunCall(s, c)
  }

  lemma RegisterRefines(s: Sys, ticks: nat, continuous: bool, active: bool)
    requires Inv(s) && FreeSlot(s.timer, s.numTimers, 1) < |s.timer|
    ensures Inv(RegisterTicks(s, ticks, continuous, active).0)
    ensures Abs(RegisterTicks(s, ticks, continuous, active).0) == NaiveRegister(Abs(s), ticks, continuous, active)
  {
    var t := AtLeastOne(ticks);
    var r := RegisterTicks(s, ticks, continuous, active).0;
    assert Now(r) == Now(s);
    assert r.ticksTotal + r.currCountdownPeriod <= s.ticksTotal + s.currCountdownPeriod;
    assert active ==> r.ticksTotal + r.currCountdownPeriod <= Now(s) + t;
    var i := FreeSlot(s.timer, s.numTimers, 1);
    forall j | 0 <= j < MAX_TIMERS
      ensures SlotOk(r.timer[j], j, r.numTimers, r.ticksTotal + r.currCountdownPeriod)
    {
      assert SlotOk(s.timer[j], j, s.numTimers, s.ticksTotal + s.currCountdownPeriod);
    }
  }

  lemma StepRefines(s: Sys, op: Op)
    requires Inv(s) && Allowed(op, s.timer, s.numTimers)
    ensures Inv(Step(s, op))
    ensures Abs(Step(s, op)) == NaiveStep(Abs(s), op)
  {
    match op
    case Ticks(n, cb) => TickNRefines(s, n, cb);
    case Register(ticks, continuous, active) => RegisterRefines(s, ticks, continuous, active);
    case UnregisterSlot(i) =>
      var r := Unregister(s, i).0;
      forall j | 0 <= j < MAX_TIMERS
        ensures SlotOk(r.timer[j], j, r.numTimers, r.ticksTotal + r.currCountdownPeriod)
      {
        assert SlotOk(s.timer[j], j, s.numTimers, s.ticksTotal + s.currCountdownPeriod);
      }
    case CallFrom(c) => CallRefines(s, c);
  }

  /** A run whose every operation meets its caller's obligations. */
  ghost predicate Legal(v: Naive, ops: seq<Op>)
    decreases |ops|
  {
    Sized(v) && (ops != [] ==> Allowed(ops[0], v.timer, v.numTimers) && Legal(NaiveStep(v, ops[0]), ops[1..]))
  }

  ghost function NaiveRun(v: Naive, ops: seq<Op>): Naive
    requires Legal(v, ops)
    decreases |ops|
  {
    if ops == [] then v else NaiveRun(NaiveStep(v, ops[0]), ops[1..])
  }

  ghost function Run(s: Sys, ops: seq<Op>): Sys
    requires Inv(s) && Legal(Abs(s), ops)
    decreases |ops|
  {
    if ops == [] then s
    else
      StepRefines(s, ops[0]);
      Run(Step(s, ops[0]), ops[1..])
  }

  /** Main result: over every legal run the countdown scheduler is the every-tick scan, and
      its 32-bit countdown never loses a bit. */
  lemma {:induction false} RunRefines(s: Sys, ops: seq<Op>)
    requires Inv(s) && Legal(Abs(s), ops)
    ensures Inv(Run(s, ops))
    ensures Abs(Run(s, ops)) == NaiveRun(Abs(s), ops)
    decreases |ops|
  {
    if ops != [] {
      StepRefines(s, ops[0]);
      RunRefines(Step(s, ops[0]), ops[1..]);
    }
  }

  /** The same from power-on, with what it means for the timers: none is ever overdue. */
  lemma {:induction false} SchedulerCorrect(ops: seq<Op>)
    requires Legal(Abs(Initial()), ops)
    ensures Inv(Initial())
    ensures Abs(Run(Initial(), ops)) == NaiveRun(Abs(Initial()), ops)
    ensures var s := Run(Initial(), ops);
      && 0 < s.currCountdown <= s.currCountdownPeriod <= 0xffff_ffff
      && forall i :: 0 <= i < |s.timer| && s.timer[i].active ==>
           i < s.numTimers && Now(s) + s.currCountdown <= s.timer[i].timeToFire
  {
    InitialInv();
    RunRefines(Initial(), ops);
    var s := Run(Initial(), ops);
    forall i | 0 <= i < |s.timer| && s.timer[i].active
      ensures i < s.numTimers && Now(s) + s.currCountdown <= s.timer[i].timeToFire
    {
      assert SlotOk(s.timer[i], i, s.numTimers, s.ticksTotal + s.currCountdownPeriod);
    }
  }
}
