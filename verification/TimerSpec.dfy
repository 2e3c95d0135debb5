/**
  The Bochs timer table as a value, with every operation of bx_pc_system_c on it
  written as a function, and beside it the scheduler it stands for: one that looks at
  every active timer on every tick.

  Quantities of type Bit64u are unbounded here (no run reaches 2^64 ticks); quantities of
  type Bit32u are reduced with Wrap32 wherever the program narrows or subtracts.
*/
module TimerSpec {
  import opened Common

  const MAX_TIMERS := 64
  const NULL_INTERVAL := 0xffff_ffff
  const MIN_PERIOD := 1

  datatype Timer = Timer(inUse: bool, period: nat, timeToFire: nat, active: bool, continuous: bool)

  const FREE_TIMER := Timer(false, 0, 0, false, false)

  /** One invocation of a timer's callback: which slot, at which absolute tick. */
  datatype Firing = Firing(slot: nat, tick: nat)

  /** What a callback may do to the timer table. */
  datatype Call =
    | Activate(index: nat, ticks: nat, continuous: bool)
    | Deactivate(index: nat)

  /** A callback's behaviour is a function of everything that has fired so far, this firing
      included: devices are deterministic, with any amount of memory. */
  type Handlers = seq<Firing> -> seq<Call>

  function Reaction(cb: Handlers, trace: seq<Firing>): seq<Call> {
    cb(trace)
  }

  datatype Sys = Sys(
    timer: seq<Timer>,
    numTimers: nat,
    currCountdown: nat,
    currCountdownPeriod: nat,
    ticksTotal: nat,
    trace: seq<Firing>)

  /** Reduction modulo 2^32, split so that values already in range need no division. */
  function Wrap32(x: int): (r: nat)
    ensures r < 0x1_0000_0000
  {
    if 0 <= x < 0x1_0000_0000 then x else x % 0x1_0000_0000
  }

  /** time_ticks() */
  function Now(s: Sys): nat {
    s.ticksTotal + Wrap32(s.currCountdownPeriod - s.currCountdown)
  }

  function Initial(): Sys {
    Sys(seq(MAX_TIMERS, i => if i == 0 then Timer(true, NULL_INTERVAL, NULL_INTERVAL, true, true) else FREE_TIMER),
        1, NULL_INTERVAL, NULL_INTERVAL, 0, [])
  }

  // ---------------------------------------------------------------- the countdown scheduler

  function AtLeastOne(ticks: nat): nat {
    if ticks < MIN_PERIOD then MIN_PERIOD else ticks
  }

  /** Shorten the running countdown when a timer due in `ticks` ticks precedes its end. */
  function Skew(s: Sys, ticks: nat): (r: Sys)
    ensures r.timer == s.timer && r.numTimers == s.numTimers && r.ticksTotal == s.ticksTotal && r.trace == s.trace
    ensures 0 < ticks && 0 < s.currCountdown <= s.currCountdownPeriod <= NULL_INTERVAL ==>
      && 0 < r.currCountdown <= r.currCountdownPeriod <= s.currCountdownPeriod && Now(r) == Now(s)
      && r.ticksTotal + r.currCountdownPeriod <= Now(s) + ticks
  {
    if ticks < s.currCountdown then
      s.(currCountdownPeriod := Wrap32(s.currCountdownPeriod - Wrap32(s.currCountdown - Wrap32(ticks))),
         currCountdown := Wrap32(ticks))
    else s
  }

  function ActivateTicks(s: Sys, i: nat, ticks: nat, continuous: bool): Sys
    requires i < |s.timer|
  {
    var t := AtLeastOne(ticks);
    Skew(s.(timer := s.timer[i := Timer(s.timer[i].inUse, t, Now(s) + t, true, continuous)]), t)
  }

  function DeactivateTimer(s: Sys, i: nat): Sys
    requires i < |s.timer|
  {
    s.(timer := s.timer[i := s.timer[i].(active := false)])
  }

  /** First unused slot at or after `i`, or `numTimers` when there is none. */
  function FreeSlot(timer: seq<Timer>, numTimers: nat, i: nat): (slot: nat)
    requires i <= numTimers <= |timer|
    ensures i <= slot <= numTimers
    ensures slot < numTimers ==> !timer[slot].inUse
    ensures forall j :: i <= j < slot ==> timer[j].inUse
    decreases numTimers - i
  {
    if i < numTimers && timer[i].inUse then FreeSlot(timer, numTimers, i + 1) else i
  }

  function RegisterTicks(s: Sys, ticks: nat, continuous: bool, active: bool): (Sys, nat)
    requires 1 <= s.numTimers <= |s.timer| && FreeSlot(s.timer, s.numTimers, 1) < |s.timer|
  {
    var t := AtLeastOne(ticks);
    var i := FreeSlot(s.timer, s.numTimers, 1);
    var s1 := s.(timer := s.timer[i := Timer(true, t, Now(s) + t, active, continuous)]);
    var s2 := if active then Skew(s1, t) else s1;
    (s2.(numTimers := if i == s.numTimers then s.numTimers + 1 else s.numTimers), i)
  }

  /** BX_MAX_BIT64S, the value left in the fields of an unregistered slot. */
  const MAX_BIT64S := 0x7fff_ffff_ffff_ffff

  function Unregister(s: Sys, i: nat): (Sys, bool)
    requires i < |s.timer| && i < s.numTimers
  {
    if s.timer[i].active then (s, false)
    else
      (s.(timer := s.timer[i := Timer(false, MAX_BIT64S, MAX_BIT64S, false, false)],
          numTimers := if i == s.numTimers - 1 then s.numTimers - 1 else s.numTimers), true)
  }

  predicate Due(t: Timer, now: nat) {
    t.active && t.timeToFire == now
  }

  /** What the first loop of countdownEvent leaves in a slot. */
  function Advance(t: Timer, now: nat): Timer {
    if !Due(t, now) then t
    else if t.continuous then t.(timeToFire := t.timeToFire + t.period)
    else t.(active := false)
  }

  function AdvanceAll(timer: seq<Timer>, n: nat, now: nat): (r: seq<Timer>)
    requires n <= |timer|
    ensures |r| == |timer|
    ensures forall j :: 0 <= j < |timer| ==> r[j] == if j < n then Advance(timer[j], now) else timer[j]
  {
    seq(|timer|, j requires 0 <= j < |timer| => if j < n then Advance(timer[j], now) else timer[j])
  }

  /** The slots below n whose timer is due, in ascending order: triggered[]. */
  function DueSlots(timer: seq<Timer>, n: nat, now: nat): seq<nat>
    requires n <= |timer|
  {
    if n == 0 then []
    else DueSlots(timer, n - 1, now) + if Due(timer[n - 1], now) then [n - 1] else []
  }

  function Earlier(a: Option<nat>, b: nat): Option<nat> {
    if a.None? || b < a.value then Some(b) else a
  }

  /** Earliest deadline among the active slots below n; None stands for the all-ones start value. */
  function MinTimeToFire(timer: seq<Timer>, n: nat): (r: Option<nat>)
    requires n <= |timer|
    ensures forall j :: 0 <= j < n && timer[j].active ==> r.Some? && r.value <= timer[j].timeToFire
    ensures r.Some? ==> exists j :: 0 <= j < n && timer[j].active && timer[j].timeToFire == r.value
  {
    if n == 0 then None
    else if timer[n - 1].active then Earlier(MinTimeToFire(timer, n - 1), timer[n - 1].timeToFire)
    else MinTimeToFire(timer, n - 1)
  }

  predicate CallAllowed(c: Call, timer: seq<Timer>, numTimers: nat) {
    1 <= c.index < numTimers && c.index < |timer| && timer[c.index].inUse
  }

  ghost predicate AllAllowed(calls: seq<Call>, timer: seq<Timer>, numTimers: nat) {
    forall c {:trigger c in calls} :: c in calls ==> CallAllowed(c, timer, numTimers)
  }

  function RunCall(s: Sys, c: Call): Sys
    requires c.index < |s.timer|
  {
    match c
    case Activate(i, ticks, continuous) => ActivateTicks(s, i, ticks, continuous)
    case Deactivate(i) => DeactivateTimer(s, i)
  }

  function RunCalls(s: Sys, calls: seq<Call>): (r: Sys)
    requires forall c :: c in calls ==> c.index < |s.timer|
    ensures |r.timer| == |s.timer| && r.numTimers == s.numTimers && r.trace == s.trace
    ensures r.ticksTotal == s.ticksTotal
    decreases |calls|
  {
    if calls == [] then s
    else RunCalls(RunCall(s, calls[0]), calls[1..])
  }

  /** Every call the callbacks can make names a registered slot other than the null timer's. */
  ghost predicate Permitted(cb: Handlers, timer: seq<Timer>, numTimers: nat) {
    forall tr: seq<Firing>, c: Call {:trigger c in Reaction(cb, tr)} :: c in Reaction(cb, tr) ==> CallAllowed(c, timer, numTimers)
  }

  ghost predicate InBounds(cb: Handlers, n: nat) {
    forall tr: seq<Firing>, c: Call {:trigger c in Reaction(cb, tr)} :: c in Reaction(cb, tr) ==> c.index < n
  }

  function Fire(s: Sys, slot: nat, cb: Handlers): (r: Sys)
    requires InBounds(cb, |s.timer|)
    ensures |r.timer| == |s.timer| && r.numTimers == s.numTimers
    ensures r.ticksTotal == s.ticksTotal
  {
    var tr := s.trace + [Firing(slot, Now(s))];
    RunCalls(s.(trace := tr), Reaction(cb, tr))
  }

  /** The second loop of countdownEvent: call back every slot that was due on entry. */
  function FireAll(s: Sys, slots: seq<nat>, cb: Handlers): (r: Sys)
    requires InBounds(cb, |s.timer|)
    ensures |r.timer| == |s.timer| && r.numTimers == s.numTimers
    ensures r.ticksTotal == s.ticksTotal
    decreases |slots|
  {
    if slots == [] then s
    else
      var prefix := FireAll(s, slots[..|slots| - 1], cb);
      Fire(prefix, slots[|slots| - 1], cb)
  }

  /** countdownEvent up to the point where the callbacks start. */
  function Rearm(s: Sys): Sys
    requires s.numTimers <= |s.timer|
  {
    var now := s.ticksTotal + s.currCountdownPeriod;
    var timer := AdvanceAll(s.timer, s.numTimers, now);
    var min := MinTimeToFire(timer, s.numTimers);
    var c := match min case Some(m) => Wrap32(m - now) case None => Wrap32(-1 - now);
    s.(ticksTotal := now, timer := timer, currCountdown := c, currCountdownPeriod := c)
  }

  function CountdownEvent(s: Sys, cb: Handlers): Sys
    requires s.numTimers <= |s.timer| && InBounds(cb, |s.timer|)
  {
    FireAll(Rearm(s), DueSlots(s.timer, s.numTimers, s.ticksTotal + s.currCountdownPeriod), cb)
  }

  function Tick1(s: Sys, cb: Handlers): Sys
    requires s.numTimers <= |s.timer| && InBounds(cb, |s.timer|)
  {
    var c := Wrap32(s.currCountdown - 1);
    if c == 0 then CountdownEvent(s.(currCountdown := 0), cb) else s.(currCountdown := c)
  }

  // ---------------------------------------------------------------- the naive scheduler

  /** No countdown: just the table, the time and what has fired. */
  datatype Naive = Naive(timer: seq<Timer>, numTimers: nat, now: nat, trace: seq<Firing>)

  function Abs(s: Sys): Naive {
    Naive(s.timer, s.numTimers, Now(s), s.trace)
  }

  function NaiveCall(v: Naive, c: Call): Naive
    requires c.index < |v.timer|
  {
    match c
    case Activate(i, ticks, continuous) =>
      var t := AtLeastOne(ticks);
      v.(timer := v.timer[i := Timer(v.timer[i].inUse, t, v.now + t, true, continuous)])
    case Deactivate(i) =>
      v.(timer := v.timer[i := v.timer[i].(active := false)])
  }

  function NaiveCalls(v: Naive, calls: seq<Call>): (r: Naive)
    requires forall c :: c in calls ==> c.index < |v.timer|
    ensures |r.timer| == |v.timer| && r.numTimers == v.numTimers && r.now == v.now && r.trace == v.trace
    decreases |calls|
  {
    if calls == [] then v else NaiveCalls(NaiveCall(v, calls[0]), calls[1..])
  }

  function NaiveFire(v: Naive, slot: nat, cb: Handlers): (r: Naive)
    requires InBounds(cb, |v.timer|)
    ensures |r.timer| == |v.timer| && r.numTimers == v.numTimers && r.now == v.now
    ensures r.trace == v.trace + [Firing(slot, v.now)]
  {
    var tr := v.trace + [Firing(slot, v.now)];
    NaiveCalls(v.(trace := tr), Reaction(cb, tr))
  }

  function NaiveFireAll(v: Naive, slots: seq<nat>, cb: Handlers): (r: Naive)
    requires InBounds(cb, |v.timer|)
    ensures |r.timer| == |v.timer| && r.numTimers == v.numTimers && r.now == v.now
    decreases |slots|
  {
    if slots == [] then v
    else NaiveFire(NaiveFireAll(v, slots[..|slots| - 1], cb), slots[|slots| - 1], cb)
  }

  /** One tick: time moves on, the due timers are noted and re-armed, then called back in slot order. */
  function NaiveTick(v: Naive, cb: Handlers): (r: Naive)
    requires v.numTimers <= |v.timer| && InBounds(cb, |v.timer|)
    ensures |r.timer| == |v.timer| && r.numTimers == v.numTimers && r.now == v.now + 1
  {
    var now := v.now + 1;
    NaiveFireAll(v.(now := now, timer := AdvanceAll(v.timer, v.numTimers, now)),
                 DueSlots(v.timer, v.numTimers, now), cb)
  }

  function NaiveTicks(v: Naive, n: nat, cb: Handlers): (r: Naive)
    requires v.numTimers <= |v.timer| && InBounds(cb, |v.timer|)
    ensures |r.timer| == |v.timer| && r.numTimers == v.numTimers && r.now == v.now + n
  {
    if n == 0 then v else NaiveTick(NaiveTicks(v, n - 1, cb), cb)
  }

  function NaiveRegister(v: Naive, ticks: nat, continuous: bool, active: bool): Naive
    requires 1 <= v.numTimers <= |v.timer| && FreeSlot(v.timer, v.numTimers, 1) < |v.timer|
  {
    var t := AtLeastOne(ticks);
    var i := FreeSlot(v.timer, v.numTimers, 1);
    v.(timer := v.timer[i := Timer(true, t, v.now + t, active, continuous)],
       numTimers := if i == v.numTimers then v.numTimers + 1 else v.numTimers)
  }

  function NaiveUnregister(v: Naive, i: nat): Naive
    requires i < |v.timer| && i < v.numTimers
  {
    if v.timer[i].active then v
    else v.(timer := v.timer[i := Timer(false, MAX_BIT64S, MAX_BIT64S, false, false)],
            numTimers := if i == v.numTimers - 1 then v.numTimers - 1 else v.numTimers)
  }
}
