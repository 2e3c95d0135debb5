/**
  bx_pc_system_c itself: the timer table updated in place. Each method is tied to the
  function of TimerSpec that says what it does to the whole state.
*/
module PcSystem {
  import opened Common
  import opened TimerSpec
  import opened TimerProofs

  lemma {:induction false} FireAllLast(s: Sys, slots: seq<nat>, i: nat, cb: Handlers)
    requires InBounds(cb, |s.timer|)
    ensures FireAll(s, slots + [i], cb) == Fire(FireAll(s, slots, cb), i, cb)
  {
    assert (slots + [i])[..|slots|] == slots;
  }

  lemma {:induction false} FireAllNone(s: Sys, cb: Handlers)
    requires InBounds(cb, |s.timer|)
    ensures FireAll(s, [], cb) == s
  {
  }

  class PcSystem {
    const timer: array<Timer>
    var numTimers: nat
    var triggeredTimer: nat
    var currCountdown: nat
    var currCountdownPeriod: nat
    var ticksTotal: nat
    var trace: seq<Firing>

    ghost predicate Valid()
      reads this, timer
    {
      timer.Length == MAX_TIMERS && 1 <= numTimers <= MAX_TIMERS
    }

    ghost function Model(): Sys
      reads this, timer
    {
      Sys(timer[..], numTimers, currCountdown, currCountdownPeriod, ticksTotal, trace)
    }

    /** The constructor followed by initialize(); the other slots start zeroed. */
    constructor ()
      ensures Valid() && fresh(timer) && Model() == Initial() && Inv(Model()) && triggeredTimer == 0
    {
      timer := new Timer[MAX_TIMERS](i => if i == 0 then Timer(true, NULL_INTERVAL, NULL_INTERVAL, true, true) else FREE_TIMER);
      numTimers := 1;
      triggeredTimer := 0;
      currCountdown := NULL_INTERVAL;
      currCountdownPeriod := NULL_INTERVAL;
      ticksTotal := 0;
      trace := [];
      new;
      assert timer[..] == Initial().timer;
      InitialInv();
    }

    method TimeTicks() returns (t: nat)
      ensures t == Now(Model())
    {
      t := ticksTotal + Wrap32(currCountdownPeriod - currCountdown);
    }

    method SkewCountdown(ticks: nat)
      requires Valid()
      modifies this`currCountdown, this`currCountdownPeriod
      ensures Valid() && Model() == Skew(old(Model()), ticks)
    {
      if ticks < currCountdown {
        currCountdownPeriod := Wrap32(currCountdownPeriod - Wrap32(currCountdown - Wrap32(ticks)));
        currCountdown := Wrap32(ticks);
      }
    }

    method ActivateTimerTicks(i: nat, ticks: nat, continuous: bool)
      requires Valid() && i < MAX_TIMERS
      modifies this`currCountdown, this`currCountdownPeriod, timer
      ensures Valid() && Model() == ActivateTicks(old(Model()), i, ticks, continuous)
    {
      var t := if ticks < MIN_PERIOD then MIN_PERIOD else ticks;
      timer[i] := timer[i].(period := t);
      var now := TimeTicks();
      timer[i] := timer[i].(timeToFire := now + t);
      timer[i] := timer[i].(active := true);
      timer[i] := timer[i].(continuous := continuous);
      assert timer[..] == old(timer[..])[i := Timer(old(timer[i]).inUse, t, now + t, true, continuous)];
      SkewCountdown(t);
    }

    method Deactivate(i: nat)
      requires Valid() && i < MAX_TIMERS
      modifies timer
      ensures Valid() && Model() == DeactivateTimer(old(Model()), i)
    {
      timer[i] := timer[i].(active := false);
    }

    method RegisterTimerTicks(ticks: nat, continuous: bool, active: bool) returns (id: nat)
      requires Valid() && FreeSlot(timer[..], numTimers, 1) < MAX_TIMERS
      modifies this`currCountdown, this`currCountdownPeriod, this`numTimers, timer
      ensures Valid() && (Model(), id) == RegisterTicks(old(Model()), ticks, continuous, active)
    {
      var t := if ticks < MIN_PERIOD then MIN_PERIOD else ticks;
      id := 1;
      while id < numTimers
        invariant 1 <= id <= numTimers
        invariant FreeSlot(timer[..], numTimers, 1) == FreeSlot(timer[..], numTimers, id)
      {
        if !timer[id].inUse { break; }
        id := id + 1;
      }
      var now := TimeTicks();
      timer[id] := Timer(true, t, now + t, active, continuous);
      if active {
        SkewCountdown(t);
      }
      if id == numTimers {
        numTimers := numTimers + 1;
      }
    }

    method UnregisterTimer(i: nat) returns (ok: bool)
      requires Valid() && 1 <= i < numTimers
      modifies this`numTimers, timer
      ensures Valid() && (Model(), ok) == Unregister(old(Model()), i)
    {
      if timer[i].active {
        return false;
      }
      timer[i] := Timer(false, MAX_BIT64S, MAX_BIT64S, false, false);
      if i == numTimers - 1 {
        numTimers := numTimers - 1;
      }
      return true;
    }

    /** The body of a callback: the calls it makes, one after the other. */
    method RunCallback(calls: seq<Call>)
      requires Valid() && forall c :: c in calls ==> c.index < MAX_TIMERS
      modifies this`currCountdown, this`currCountdownPeriod, timer
      ensures Valid() && Model() == RunCalls(old(Model()), calls)
      decreases |calls|
    {
      if calls != [] {
        ghost var s := Model();
        assert calls[0] in calls && forall c :: c in calls[1..] ==> c in calls;
        match calls[0] {
          case Activate(i, ticks, continuous) => ActivateTimerTicks(i, ticks, continuous);
          case Deactivate(i) => Deactivate(i);
        }
        assert Model() == RunCall(s, calls[0]);
        RunCallback(calls[1..]);
      }
    }

    /** One round of the first loop of countdownEvent. */
    method ScanSlot(i: nat, triggered: array<bool>, min: Option<nat>) returns (r: Option<nat>)
      requires Valid() && i < numTimers && triggered.Length == MAX_TIMERS
      modifies timer, triggered
      ensures timer[i] == Advance(old(timer[i]), ticksTotal) && triggered[i] == Due(old(timer[i]), ticksTotal)
      ensures forall j :: 0 <= j < MAX_TIMERS && j != i ==> timer[j] == old(timer[j]) && triggered[j] == old(triggered[j])
      ensures r == if timer[i].active then Earlier(min, timer[i].timeToFire) else min
    {
      r := min;
      triggered[i] := false;
      if timer[i].active {
        if ticksTotal == timer[i].timeToFire {
          triggered[i] := true;
          if !timer[i].continuous {
            timer[i] := timer[i].(active := false);
          } else {
            timer[i] := timer[i].(timeToFire := timer[i].timeToFire + timer[i].period);
            r := Earlier(r, timer[i].timeToFire);
          }
        } else {
          r := Earlier(r, timer[i].timeToFire);
        }
      }
    }

    /** The first loop of countdownEvent. */
    method Scan() returns (triggered: array<bool>, minTimeToFire: Option<nat>)
      requires Valid()
      modifies timer
      ensures Valid() && fresh(triggered) && triggered.Length == MAX_TIMERS
      ensures timer[..] == AdvanceAll(old(timer[..]), numTimers, ticksTotal)
      ensures forall j :: 0 <= j < numTimers ==> triggered[j] == Due(old(timer[..])[j], ticksTotal)
      ensures minTimeToFire == MinTimeToFire(timer[..], numTimers)
    {
      ghost var was := timer[..];
      triggered := new bool[MAX_TIMERS](_ => false);
      ghost var goal := AdvanceAll(was, numTimers, ticksTotal);
      assert forall j :: 0 <= j < MAX_TIMERS ==> goal[j] == if j < numTimers then Advance(was[j], ticksTotal) else was[j];
      hide AdvanceAll, Advance;
      minTimeToFire := None;
      var i: nat := 0;
      while i < numTimers
        invariant 0 <= i <= numTimers
        invariant forall j :: 0 <= j < MAX_TIMERS ==> timer[j] == if j < i then goal[j] else was[j]
        invariant forall j :: 0 <= j < i ==> triggered[j] == Due(was[j], ticksTotal)
        invariant minTimeToFire == MinTimeToFire(goal, i)
      {
        minTimeToFire := ScanSlot(i, triggered, minTimeToFire);
        i := i + 1;
      }
      assert timer[..] == goal;
    }

    /** countdownEvent up to its second loop. */
    method ScanAndRearm() returns (triggered: array<bool>)
      requires Valid()
      modifies this`ticksTotal, this`currCountdown, this`currCountdownPeriod, timer
      ensures Valid() && Model() == Rearm(old(Model()))
      ensures fresh(triggered) && triggered.Length == MAX_TIMERS
      ensures forall j :: 0 <= j < numTimers ==> triggered[j] == Due(old(timer[..])[j], old(ticksTotal + currCountdownPeriod))
    {
      hide AdvanceAll, MinTimeToFire;
      ticksTotal := ticksTotal + currCountdownPeriod;
      var minTimeToFire: Option<nat>;
      triggered, minTimeToFire := Scan();
      currCountdown := match minTimeToFire
        case Some(m) => Wrap32(m - ticksTotal)
        case None => Wrap32(-1 - ticksTotal);
      currCountdownPeriod := currCountdown;
    }

    /** timer[i].funct(timer[i].this_ptr) */
    method FireTimer(i: nat, cb: Handlers)
      requires Valid() && InBounds(cb, MAX_TIMERS)
      modifies this`currCountdown, this`currCountdownPeriod, this`trace, timer
      ensures Valid() && Model() == Fire(old(Model()), i, cb)
    {
      var now := TimeTicks();
      trace := trace + [Firing(i, now)];
      RunCallback(Reaction(cb, trace));
    }

    method CountdownEvent(cb: Handlers)
      requires Valid() && InBounds(cb, MAX_TIMERS)
      modifies this, timer
      ensures Valid() && Model() == TimerSpec.CountdownEvent(old(Model()), cb)
      ensures triggeredTimer == old(triggeredTimer) || triggeredTimer == 0
    {
      hide FireAll, Fire, Rearm;
      ghost var was := timer[..];
      ghost var s := Model();
      var triggered := ScanAndRearm();
      ghost var armed := Model();
      FireAllNone(armed, cb);
      var i: nat := 0;
      while i < numTimers
        invariant Valid() && 0 <= i <= numTimers == s.numTimers
        invariant forall j :: 0 <= j < numTimers ==> triggered[j] == Due(was[j], s.ticksTotal + s.currCountdownPeriod)
        invariant Model() == FireAll(armed, DueSlots(was, i, s.ticksTotal + s.currCountdownPeriod), cb)
        invariant triggeredTimer == old(triggeredTimer) || triggeredTimer == 0
      {
        ghost var due := DueSlots(was, i, s.ticksTotal + s.currCountdownPeriod);
        if triggered[i] {
          triggeredTimer := i;
          FireTimer(i, cb);
          triggeredTimer := 0;
          FireAllLast(armed, due, i, cb);
        }
        assert DueSlots(was, i + 1, s.ticksTotal + s.currCountdownPeriod) == if triggered[i] then due + [i] else due;
        i := i + 1;
      }
    }

    /** tick1() */
    method Tick(cb: Handlers)
      requires Valid() && Inv(Model()) && Permitted(cb, timer[..], numTimers)
      modifies this, timer
      ensures Valid() && Model() == Tick1(old(Model()), cb) && Inv(Model())
    {
      Tick1Refines(Model(), cb);
      currCountdown := Wrap32(currCountdown - 1);
      if currCountdown == 0 {
        CountdownEvent(cb);
      }
    }

    /** tickn() */
    method TickMany(ticks: nat, cb: Handlers)
      requires Valid() && Inv(Model()) && Permitted(cb, timer[..], numTimers)
      modifies this, timer
      ensures Valid() && Model() == TickN(old(Model()), ticks, cb) && Inv(Model())
    {
      var n: nat := ticks;
      while n >= currCountdown
        invariant Valid() && Inv(Model()) && Permitted(cb, timer[..], numTimers)
        invariant TickN(Model(), n, cb) == TickN(old(Model()), ticks, cb)
        decreases n
      {
        ghost var s := Model();
        n := n - currCountdown;
        currCountdown := 0;
        CountdownEvent(cb);
        assert Model() == NextEvent(s, cb);
      }
      currCountdown := currCountdown - n;
    }
  }

  // ---------------------------------------------------------------- time_usec_sequential

  /** The two fields time_usec_sequential keeps. */
  datatype UsecClock = UsecClock(lastTimeUsec: nat, usecSinceLast: nat)

  /** One call when time_usec() reads `now`: the new fields and the value returned. */
  function Sequential(c: UsecClock, now: nat): (UsecClock, nat)
    requires now >= c.lastTimeUsec
  {
    var diff := now - c.lastTimeUsec;
    var since := if diff == 0 then c.usecSinceLast else if diff >= c.usecSinceLast then 0 else c.usecSinceLast - diff;
    (UsecClock(now, since + 1), now + (since + 1))
  }

  ghost predicate Nondecreasing(times: seq<nat>, from: nat) {
    && (times != [] ==> from <= times[0])
    && forall i, j :: 0 <= i < j < |times| ==> times[i] <= times[j]
  }

  function Readings(c: UsecClock, times: seq<nat>): (r: seq<nat>)
    requires Nondecreasing(times, c.lastTimeUsec)
    ensures |r| == |times|
    decreases |times|
  {
    if times == [] then []
    else
      var (next, value) := Sequential(c, times[0]);
      [value] + Readings(next, times[1..])
  }

  /** The value returned just before reading number i. */
  function Previous(c: UsecClock, r: seq<nat>, i: nat): nat
    requires i <= |r|
  {
    if i == 0 then c.lastTimeUsec + c.usecSinceLast else r[i - 1]
  }

  function Max(a: nat, b: nat): nat {
    if a > b then a else b
  }

  /** Every value returned exceeds the clock it was read at and every value returned before,
      and is the least such value. */
  lemma {:induction false} ReadingsIncrease(c: UsecClock, times: seq<nat>)
    requires Nondecreasing(times, c.lastTimeUsec)
    ensures forall i :: 0 <= i < |times| ==>
      Readings(c, times)[i] == Max(Previous(c, Readings(c, times), i), times[i]) + 1
    decreases |times|
  {
    if times != [] {
      var (next, value) := Sequential(c, times[0]);
      var rest := times[1..];
      ReadingsIncrease(next, rest);
      var r, tail := Readings(c, times), Readings(next, rest);
      assert r == [value] + tail;
      forall i | 0 <= i < |times|
        ensures r[i] == Max(Previous(c, r, i), times[i]) + 1
      {
        if i > 0 {
          assert tail[i - 1] == Max(Previous(next, tail, i - 1), rest[i - 1]) + 1;
        }
      }
    }
  }

  class UsecCounter {
    var lastTimeUsec: nat
    var usecSinceLast: nat

    constructor ()
      ensures lastTimeUsec == 0 && usecSinceLast == 0
    {
      lastTimeUsec, usecSinceLast := 0, 0;
    }

    method TimeUsecSequential(thisTimeUsec: nat) returns (t: nat)
      requires thisTimeUsec >= lastTimeUsec
      modifies this
      ensures (UsecClock(lastTimeUsec, usecSinceLast), t) ==
              Sequential(old(UsecClock(lastTimeUsec, usecSinceLast)), thisTimeUsec)
    {
      if thisTimeUsec != lastTimeUsec {
        var diffUsec := thisTimeUsec - lastTimeUsec;
        lastTimeUsec := thisTimeUsec;
        if diffUsec >= usecSinceLast {
          usecSinceLast := 0;
        } else {
          usecSinceLast := usecSinceLast - diffUsec;
        }
      }
      usecSinceLast := usecSinceLast + 1;
      return thisTimeUsec + usecSinceLast;
    }
  }
}
