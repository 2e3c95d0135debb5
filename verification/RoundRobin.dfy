/**
  Time slices: how many clock interrupts a ready thread waits for the processor when threads
  lose it only to the clock.
*/
module RoundRobin {
  import opened Common
  import opened KernelModel
  import opened KernelInv
  import opened KernelSteps
  import opened KernelRing
  import opened KernelRun

  /** What the clock decides on and changes. */
  datatype View = View(current: Tid, ready: seq<Tid>, ticks: map<Tid, nat>, priority: map<Tid, nat>)

  function ViewOf(k: Kernel): View {
    View(k.current, k.ready, map t | t in k.threads :: k.threads[t].ticks, map t | t in k.threads :: k.threads[t].priority)
  }

  ghost predicate Known(v: View) {
    && v.ticks.Keys == v.priority.Keys && v.current in v.ticks
    && NoDup(v.ready) && v.current !in v.ready
    && forall t :: t in v.ready ==> t in v.ticks
  }

  /** One clock interrupt. */
  function Beat(v: View): View
    requires v.current in v.ticks && v.current in v.priority
  {
    if v.ticks[v.current] > 0 then v.(ticks := v.ticks[v.current := v.ticks[v.current] - 1])
    else
      var queue := v.ready + [v.current];
      v.(current := queue[0], ready := queue[1..], ticks := v.ticks[v.current := v.priority[v.current]])
  }

  lemma BeatKnown(v: View)
    requires Known(v)
    ensures Known(Beat(v))
  {
    var queue := v.ready + [v.current];
    NoDupAdd(v.ready, v.current);
    NoDupSplit(queue);
  }

  function Beats(v: View, n: nat): (r: View)
    requires Known(v)
    ensures Known(r)
    decreases n
  {
    if n == 0 then v else BeatKnown(v); Beats(Beat(v), n - 1)
  }

  lemma {:induction false} BeatsCompose(v: View, a: nat, b: nat)
    requires Known(v)
    ensures Beats(v, a + b) == Beats(Beats(v, a), b)
    decreases a
  {
    if a > 0 {
      BeatKnown(v);
      BeatsCompose(Beat(v), a - 1, b);
    }
  }

  /** While its slice lasts, the running thread stays. */
  lemma {:induction false} WithinSlice(v: View, n: nat)
    requires Known(v) && n <= v.ticks[v.current]
    ensures Beats(v, n) == v.(ticks := v.ticks[v.current := v.ticks[v.current] - n])
    decreases n
  {
    if n == 0 {
      assert v.ticks[v.current := v.ticks[v.current]] == v.ticks;
    } else {
      BeatKnown(v);
      WithinSlice(Beat(v), n - 1);
    }
  }

  /** The slice used up, the thread goes to the end of the queue with a full slice and the first takes over. */
  lemma {:induction false} SliceEnd(v: View)
    requires Known(v) && v.ready != []
    ensures Beats(v, v.ticks[v.current] + 1) ==
            v.(current := v.ready[0], ready := v.ready[1..] + [v.current], ticks := v.ticks[v.current := v.priority[v.current]])
  {
    var n := v.ticks[v.current];
    BeatsCompose(v, n, 1);
    WithinSlice(v, n);
    var last := Beats(v, n);
    assert Beats(last, 1) == Beat(last);
    assert (v.ready + [v.current])[1..] == v.ready[1..] + [v.current];
  }

  /** Clock interrupts until the thread at position `pos` of the ready list runs. */
  function Latency(v: View, pos: nat): nat
    requires Known(v) && pos < |v.ready|
  {
    v.ticks[v.current] + 1 + SliceSum(v, pos)
  }

  /** priority + 1 for each of the first n threads of the ready list. */
  function SliceSum(v: View, n: nat): nat
    requires Known(v) && n <= |v.ready|
  {
    if n == 0 then 0 else SliceSum(v, n - 1) + v.priority[v.ready[n - 1]] + 1
  }

  /** Every ready thread has a full slice. */
  ghost predicate Rested(v: View)
    requires Known(v)
  {
    forall t :: t in v.ready ==> v.ticks[t] == v.priority[t]
  }

  lemma {:induction false} SliceSumShift(v: View, u: View, n: nat)
    requires Known(v) && Known(u) && u.priority == v.priority && n < |v.ready| && n <= |u.ready|
    requires forall i :: 0 <= i < n ==> u.ready[i] == v.ready[i + 1]
    ensures SliceSum(v, n + 1) == v.priority[v.ready[0]] + 1 + SliceSum(u, n)
  {
    if n > 0 { SliceSumShift(v, u, n - 1); }
  }

  /** A ready thread is dispatched after exactly the rest of the running slice plus the slices ahead of it,
      and not before. */
  lemma {:induction false} ExactLatency(v: View, pos: nat)
    requires Known(v) && Rested(v) && pos < |v.ready|
    ensures Beats(v, Latency(v, pos)).current == v.ready[pos]
    ensures forall n :: 0 <= n < Latency(v, pos) ==> Beats(v, n).current != v.ready[pos]
    decreases pos
  {
    var m := v.ticks[v.current] + 1;
    SliceEnd(v);
    forall n | 0 <= n < m
      ensures Beats(v, n).current != v.ready[pos]
    {
      WithinSlice(v, n);
    }
    if pos > 0 {
      var u := Beats(v, m);
      assert u.ready[pos - 1] == v.ready[pos];
      RestedAfterSlice(v, u);
      SliceSumShift(v, u, pos - 1);
      assert u.ticks[u.current] == v.priority[v.ready[0]];
      assert Latency(v, pos) == m + Latency(u, pos - 1);
      ExactLatency(u, pos - 1);
      BeatsCompose(v, m, Latency(u, pos - 1));
      forall n | m <= n < Latency(v, pos)
        ensures Beats(v, n).current != v.ready[pos]
      {
        BeatsCompose(v, m, n - m);
      }
    }
  }

  lemma RestedAfterSlice(v: View, u: View)
    requires Known(v) && Rested(v) && v.ready != [] && Known(u)
    requires u == v.(current := v.ready[0], ready := v.ready[1..] + [v.current], ticks := v.ticks[v.current := v.priority[v.current]])
    ensures Rested(u) && v.ready[0] != v.current && u.ticks[v.ready[0]] == v.priority[v.ready[0]]
  {
    assert v.ready[0] in v.ready;
  }

  // ---------------------------------------------------------------- in the kernel

  lemma InvKnown(k: Kernel)
    requires Inv(k)
    ensures Known(ViewOf(k))
  {
  }

  /** intr_timer_handler is one beat. */
  lemma ClockBeat(k: Kernel)
    requires Inv(k) && Wf(k)
    ensures Known(ViewOf(k)) && ClockInterrupt(k).Next?
    ensures ViewOf(ClockInterrupt(k).k) == Beat(ViewOf(k))
  {
    InvKnown(k);
    ClockSafe(k);
    ClockBeatView(k);
  }

  lemma ClockBeatView(k: Kernel)
    requires k.current in k.threads && (forall t :: t in k.ready ==> t in k.threads)
    requires Cur(k).status == Running && ClockInterrupt(k).Next?
    ensures ViewOf(ClockInterrupt(k).k) == Beat(ViewOf(k))
  {
    var v, w := Beat(ViewOf(k)), ViewOf(ClockInterrupt(k).k);
    if Cur(k).ticks > 0 {
      assert w.ticks == v.ticks;
      assert w.priority == v.priority;
    } else {
      assert w.ticks == v.ticks;
      assert w.priority == v.priority;
    }
  }

  /** A run in which only the clock moves the processor on. */
  ghost predicate ClockOnly(k: Kernel, acts: seq<Action>)
    requires Legal(k, acts)
    decreases |acts|
  {
    acts != [] && Step(k, acts[0]).Next? ==>
      && (acts[0] != Clock ==> ViewOf(Step(k, acts[0]).k) == ViewOf(k))
      && ClockOnly(Step(k, acts[0]).k, acts[1..])
  }

  function Clocks(acts: seq<Action>): nat {
    if acts == [] then 0 else (if acts[0] == Clock then 1 else 0) + Clocks(acts[1..])
  }

  lemma {:induction false} RunBeats(k: Kernel, acts: seq<Action>)
    requires Inv(k) && Legal(k, acts) && ClockOnly(k, acts) && Run(k, acts).Next?
    ensures Known(ViewOf(k)) && ViewOf(Run(k, acts).k) == Beats(ViewOf(k), Clocks(acts))
    decreases |acts|
  {
    InvKnown(k);
    hide Core, Wf, Enabled, Beat, ViewOf, Known;
    if acts != [] {
      StepSafe(k, acts[0]);
      if acts[0] == Clock {
        ClockBeat(k);
      }
      RunBeats(Step(k, acts[0]).k, acts[1..]);
    }
  }

  /** Over every run in which only the clock pre-empts and the ready threads have full slices, the thread at
      ready position `pos` runs after exactly (running thread's ticks + 1) + the sum of (priority + 1) over
      the threads ahead of it clock interrupts, and never earlier. */
  lemma {:induction false} RoundRobinExact(k: Kernel, acts: seq<Action>, pos: nat)
    requires Inv(k) && Legal(k, acts) && ClockOnly(k, acts) && Run(k, acts).Next?
    requires Known(ViewOf(k)) && Rested(ViewOf(k)) && pos < |k.ready|
    ensures Clocks(acts) == Latency(ViewOf(k), pos) ==> Run(k, acts).k.current == k.ready[pos]
    ensures Clocks(acts) < Latency(ViewOf(k), pos) ==> Run(k, acts).k.current != k.ready[pos]
  {
    hide Inv, Legal, ClockOnly, Run, Clocks;
    RunBeats(k, acts);
    ExactLatency(ViewOf(k), pos);
  }
}
