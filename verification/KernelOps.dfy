/**
  Operations from their beginning to their end: what a thread has begun it either still has under way or has carried
  out, whatever sleeps and interruptions lie between; and every clock interrupt is charged to one thread.
*/
module KernelOps {
  import opened Common
  import opened KernelModel
  import opened KernelInv
  import opened KernelSteps
  import opened KernelRing
  import opened KernelRun
  import opened KernelEffects

  // ---------------------------------------------------------------- the ring operation a thread is in

  /** The byte a thread has completed a put of between two states. */
  function PutDone(t: Thread, t': Thread): seq<Byte> {
    if t.ring.Put? && t'.ring == NoRing then [t.ring.byte] else []
  }

  predicate GetDone(t: Thread, t': Thread) {
    t.ring == Get && t'.ring == NoRing
  }

  /** A ring operation is begun from none, and changes to none only. */
  ghost predicate OpKept(t: Thread, t': Thread, a: Action, current: bool) {
    if t'.ring == t.ring then true
    else if t.ring == NoRing then current && ((a.BeginPut? && t'.ring == Put(a.b)) || (a.BeginGet? && t'.ring == Get))
    else current && t'.ring == NoRing
  }

  /** What a step stores and fetches: the running thread's completed operation, or an accepted key, and nothing else. */
  ghost predicate Carried(k: Kernel, a: Action, k': Kernel)
    requires k.current in k.threads && k.current in k'.threads
  {
    var t, t' := k.threads[k.current], k'.threads[k.current];
    && k'.ring.put == k.ring.put + PutDone(t, t') + (if a.Key? && !Full(k.ring) then [a.byte] else [])
    && (if GetDone(t, t') then |k.ring.got| < |k.ring.put| && k'.ring.got == k.ring.got + [k.ring.put[|k.ring.got|]]
        else k'.ring.got == k.ring.got)
  }

  ghost predicate OpsKept(k: Kernel, a: Action, k': Kernel) {
    && k.current in k.threads && k.threads.Keys <= k'.threads.Keys
    && (forall t {:trigger k'.threads[t]} :: t in k.threads ==> OpKept(k.threads[t], k'.threads[t], a, t == k.current))
    && (forall t {:trigger k'.threads[t]} :: t in k'.threads && t !in k.threads ==> k'.threads[t].ring == NoRing)
    && Carried(k, a, k')
  }

  /** Scheduling, waking and sleeping: no operation begun or ended, nothing stored or fetched. */
  ghost predicate SameOps(k: Kernel, k': Kernel) {
    && k.threads.Keys == k'.threads.Keys && k'.ring.put == k.ring.put && k'.ring.got == k.ring.got
    && (forall t {:trigger k'.threads[t]} :: t in k.threads ==> k'.threads[t].ring == k.threads[t].ring)
  }

  lemma SameOpsKept(k: Kernel, a: Action, k': Kernel)
    requires k.current in k.threads && SameOps(k, k') && !a.Key?
    ensures OpsKept(k, a, k')
  {
  }

  lemma ScheduleOps(k: Kernel)
    requires k.current in k.threads && (forall t :: t in k.ready ==> t in k.threads) && Schedule(k).Next?
    ensures SameOps(k, Schedule(k).k)
  {
  }

  lemma BlockOps(k: Kernel, k1: Kernel, stat: Status)
    requires k.current in k.threads && (forall t :: t in k.ready ==> t in k.threads)
    requires k1.ready == k.ready && k1.current == k.current && SameOps(k, k1) && ThreadBlock(k1, stat).Next?
    ensures SameOps(k, ThreadBlock(k1, stat).k)
  {
    ScheduleOps(SetCur(k1, Cur(k1).(status := stat)));
    hide Schedule;
  }

  lemma UnblockOps(k: Kernel, w: Tid)
    requires w in k.threads && ThreadUnblock(k, w).Next?
    ensures SameOps(k, ThreadUnblock(k, w).k)
  {
  }

  lemma AcquireOps(k: Kernel, l: LockId, phase: AcquirePhase)
    requires Wf(k) && l in k.locks && AcquireStep(k, l, phase).Next?
    ensures SameOps(k, AcquireStep(k, l, phase).k)
  {
    if (phase == Down || phase == Retry) && k.locks[l].value == 0 {
      BlockOps(k, SetLock(SetCur(k, Cur(k).(pc := Acquire(l, Retry))), l,
                          k.locks[l].(waiters := k.locks[l].waiters + [k.current])), Blocked);
      hide ThreadBlock;
    }
  }

  lemma ReleaseOps(k: Kernel, l: LockId, phase: ReleasePhase)
    requires Wf(k) && l in k.locks && ReleaseStep(k, l, phase).Next?
    ensures SameOps(k, ReleaseStep(k, l, phase).k)
  {
  }

  lemma RingWaitOps(k: Kernel)
    requires Wf(k) && RingWaitStep(k).Next?
    ensures SameOps(k, RingWaitStep(k).k)
  {
    var k1 := SetCur(k, Cur(k).(pc := RingSleep));
    var k2, k3 := k1.(ring := k.ring.(producer := Some(k.current))), k1.(ring := k.ring.(consumer := Some(k.current)));
    if Cur(k).ring.Put? { BlockOps(k, k2, Blocked); } else { BlockOps(k, k3, Blocked); }
    hide ThreadBlock;
  }

  lemma WakeOps(k: Kernel)
    requires k.ring.consumer.Some? ==> k.ring.consumer.value in k.threads
    requires k.ring.producer.Some? ==> k.ring.producer.value in k.threads
    ensures WakeConsumer(k).Next? ==> SameOps(k, WakeConsumer(k).k)
    ensures WakeProducer(k).Next? ==> SameOps(k, WakeProducer(k).k)
  {
  }

  /** The byte at tail is the oldest of those stored and not fetched. */
  lemma OldestByte(r: Ring)
    requires RingOk(r) && !Empty(r)
    ensures |r.got| < |r.put| && r.buf[r.tail] == r.put[|r.got|]
  {
    assert |Contents(r)| == Occupancy(r) > 0;
    assert r.put[|r.got|] == Contents(r)[0];
  }

  lemma RingTestOps(k: Kernel)
    requires Inv(k) && Wf(k) && Cur(k).pc == RingTest && RingTestStep(k).Next?
    ensures OpsKept(k, Exec, RingTestStep(k).k)
  {
    hide Core, ThreadOk, RingOk, WakeConsumer, WakeProducer;
    KnowRing(k);
    KnowThread(k, k.current);
    var t := Cur(k);
    DoneOk(t, k.locks.Keys);
    var done := SetCur(k, Done(t));
    match t.ring
    case Put(b) => if !Full(k.ring) { WakeOps(done.(ring := Store(k.ring, b))); }
    case Get =>
      if !Empty(k.ring) {
        OldestByte(k.ring);
        WakeOps(done.(ring := Fetch(k.ring)));
      }
    case NoRing => assert false;
  }

  lemma KeyOps(k: Kernel, b: Byte)
    requires Wf(k) && KeyInterrupt(k, b).Next?
    ensures OpsKept(k, Key(b), KeyInterrupt(k, b).k)
  {
    WakeOps(k.(ring := Store(k.ring, b)));
    hide WakeConsumer;
  }

  lemma ExecOps(k: Kernel)
    requires Inv(k) && Wf(k) && ExecStep(k).Next?
    ensures OpsKept(k, Exec, ExecStep(k).k)
  {
    hide Core, AcquireStep, ReleaseStep, RingTestStep, RingWaitStep, OpsKept, SameOps;
    match Cur(k).pc
    case Acquire(l, phase) => AcquireOps(k, l, phase); SameOpsKept(k, Exec, ExecStep(k).k);
    case Release(l, phase) => ReleaseOps(k, l, phase); SameOpsKept(k, Exec, ExecStep(k).k);
    case RingTest => RingTestOps(k);
    case RingWait => RingWaitOps(k); SameOpsKept(k, Exec, ExecStep(k).k);
    case _ => OtherOps(k);
  }

  lemma OtherOps(k: Kernel)
    requires Wf(k) && (Cur(k).pc == User || Cur(k).pc == Asleep || Cur(k).pc == RingSleep)
    ensures OpsKept(k, Exec, ExecStep(k).k)
  {
  }

  lemma ClockOps(k: Kernel)
    requires Wf(k) && ClockInterrupt(k).Next?
    ensures SameOps(k, ClockInterrupt(k).k)
  {
    if Cur(k).ticks == 0 { ScheduleOps(Counted(k)); }
    hide Schedule;
  }

  /**
    A thread's ring operation begins with ioq_putchar or ioq_getchar and ends only in the step that stores its byte at
    the end, or fetches the oldest; only such steps, and keys that find room, store or fetch anything.
  */
  lemma StepOps(k: Kernel, a: Action)
    requires Inv(k) && Wf(k) && Enabled(k, a) && Step(k, a).Next?
    ensures OpsKept(k, a, Step(k, a).k)
  {
    hide Core, ExecStep, KeyInterrupt, ThreadUnblock, ClockInterrupt, ThreadBlock;
    match a
    case Clock => ClockOps(k); SameOpsKept(k, a, Step(k, a).k);
    case Key(b) => KeyOps(k, b);
    case Exec => ExecOps(k);
    case Sleep(stat) => BlockOps(k, SetCur(k, Cur(k).(pc := Asleep)), stat); SameOpsKept(k, a, Step(k, a).k);
    case Wake(w) => UnblockOps(k, w); SameOpsKept(k, a, Step(k, a).k);
    case _ => BeginIdle(k, a);
  }

  /** The actions that only move the running thread's program counter or its interrupt flag. */
  predicate Begins(a: Action) {
    a.SetIntr? || a.BeginAcquire? || a.BeginRelease? || a.BeginPut? || a.BeginGet?
  }

  lemma BeginStep(k: Kernel, a: Action)
    requires Wf(k) && Enabled(k, a) && Begins(a)
    ensures Step(k, a) == Next(SetCur(k, Begun(Cur(k), a))) && Cur(k).pc == User
  {
  }

  lemma BeginIdle(k: Kernel, a: Action)
    requires Inv(k) && Wf(k) && Enabled(k, a) && Step(k, a).Next? && (Begins(a) || a.Start?)
    ensures OpsKept(k, a, Step(k, a).k)
  {
    hide Core, Wf, Enabled, ThreadOk;
    KnowRing(k);
    if a.Start? {
      NewTid(k, a);
      StartOps(k, a.t, a.prio);
    } else {
      BeginStep(k, a);
      UserIdle(k);
      hide Step;
    }
  }

  lemma UserIdle(k: Kernel)
    requires Inv(k) && Cur(k).pc == User
    ensures Cur(k).ring == NoRing
  {
    KnowThread(k, k.current);
    hide Core;
  }

  lemma NewTid(k: Kernel, a: Action)
    requires Wf(k) && Enabled(k, a)
    ensures a.Start? ==> a.t !in k.threads
  {
  }

  lemma StartOps(k: Kernel, t: Tid, prio: nat)
    requires k.current in k.threads && ThreadStart(k, t, prio).Next? && t !in k.threads
    ensures OpsKept(k, Start(t, prio), ThreadStart(k, t, prio).k)
  {
  }

  // ---------------------------------------------------------------- over runs

  /** The byte a step stores, if it stores one. */
  ghost function StoredBy(k: Kernel, a: Action): seq<Byte>
    requires Wf(k) && Enabled(k, a) && Step(k, a).Next?
  {
    var k' := Step(k, a).k;
    (if k.current in k'.threads then PutDone(Cur(k), k'.threads[k.current]) else [])
      + (if a.Key? && !Full(k.ring) then [a.byte] else [])
  }

  /** The bytes of the puts completed and the keys accepted along the run, in order. */
  ghost function AllStored(k: Kernel, acts: seq<Action>): seq<Byte>
    requires Legal(k, acts)
    decreases |acts|
  {
    if acts == [] || Step(k, acts[0]).Failed? then []
    else StoredBy(k, acts[0]) + AllStored(Step(k, acts[0]).k, acts[1..])
  }

  /** The gets completed along the run. */
  ghost function AllFetched(k: Kernel, acts: seq<Action>): nat
    requires Legal(k, acts)
    decreases |acts|
  {
    if acts == [] || Step(k, acts[0]).Failed? then 0
    else
      var k' := Step(k, acts[0]).k;
      (if k.current in k'.threads && GetDone(Cur(k), k'.threads[k.current]) then 1 else 0) + AllFetched(k', acts[1..])
  }

  /** The bytes that thread u begins to put, and those it completes. */
  ghost function PutsBegun(k: Kernel, acts: seq<Action>, u: Tid): seq<Byte>
    requires Legal(k, acts)
    decreases |acts|
  {
    if acts == [] || Step(k, acts[0]).Failed? then []
    else (if k.current == u && acts[0].BeginPut? then [acts[0].b] else []) + PutsBegun(Step(k, acts[0]).k, acts[1..], u)
  }

  ghost function PutsCompleted(k: Kernel, acts: seq<Action>, u: Tid): seq<Byte>
    requires Legal(k, acts)
    decreases |acts|
  {
    if acts == [] || Step(k, acts[0]).Failed? then []
    else
      var k' := Step(k, acts[0]).k;
      (if k.current == u && u in k'.threads then PutDone(Cur(k), k'.threads[u]) else []) + PutsCompleted(k', acts[1..], u)
  }

  /** The byte of the put u has under way. */
  function Pending(k: Kernel, u: Tid): seq<Byte> {
    if u in k.threads && k.threads[u].ring.Put? then [k.threads[u].ring.byte] else []
  }

  /**
    Over every run the ring's bytes are those of the puts completed and the keys accepted, in that order, and each
    completed get has fetched one.
  */
  lemma {:induction false} RunStores(k: Kernel, acts: seq<Action>)
    requires Inv(k) && Legal(k, acts) && Run(k, acts).Next?
    ensures var k' := Run(k, acts).k;
      && k'.ring.put == k.ring.put + AllStored(k, acts)
      && k.ring.got <= k'.ring.got && |k'.ring.got| == |k.ring.got| + AllFetched(k, acts)
    decreases |acts|
  {
    hide Core, Wf, Step, Enabled;
    if acts != [] {
      StepSafe(k, acts[0]);
      StepOps(k, acts[0]);
      RunStores(Step(k, acts[0]).k, acts[1..]);
    }
  }

  /** The bytes a thread begins to put are, in order, the bytes it completes, and the one it still has under way. */
  lemma {:induction false} NoPutLost(k: Kernel, acts: seq<Action>, u: Tid)
    requires Inv(k) && Legal(k, acts) && Run(k, acts).Next?
    ensures Pending(k, u) + PutsBegun(k, acts, u) == PutsCompleted(k, acts, u) + Pending(Run(k, acts).k, u)
    decreases |acts|
  {
    hide Core, Wf, Step, Enabled, OpsKept, Pending, PutDone;
    if acts != [] {
      KnowRing(k);
      StepSafe(k, acts[0]);
      StepOps(k, acts[0]);
      var k' := Step(k, acts[0]).k;
      PendingStep(k, acts[0], k', u);
      NoPutLost(k', acts[1..], u);
      var b := if k.current == u && acts[0].BeginPut? then [acts[0].b] else [];
      var c := if k.current == u && u in k'.threads then PutDone(Cur(k), k'.threads[u]) else [];
      Chained(Pending(k, u), b, c, Pending(k', u), PutsBegun(k', acts[1..], u), PutsCompleted(k', acts[1..], u),
              Pending(Run(k, acts).k, u));
    }
  }

  lemma Chained<T>(p: seq<T>, b: seq<T>, c: seq<T>, p': seq<T>, begun: seq<T>, completed: seq<T>, last: seq<T>)
    requires p + b == c + p' && p' + begun == completed + last
    ensures p + (b + begun) == (c + completed) + last
  {
    assert p + (b + begun) == (p + b) + begun;
    assert c + (p' + begun) == (c + p') + begun;
    assert c + (completed + last) == (c + completed) + last;
  }

  lemma PendingStep(k: Kernel, a: Action, k': Kernel, u: Tid)
    requires Wf(k) && Enabled(k, a) && Step(k, a) == Next(k') && Inv(k) && OpsKept(k, a, k')
    ensures Pending(k, u) + (if k.current == u && a.BeginPut? then [a.b] else [])
         == (if k.current == u && u in k'.threads then PutDone(Cur(k), k'.threads[u]) else []) + Pending(k', u)
  {
    KnowThread(k, k.current);
    hide Core;
  }

  // ---------------------------------------------------------------- locks, slices and accounts

  /** The way through lock_acquire, or lock_release, of l is at its end. */
  predicate AcquireDone(t: Thread, t': Thread, l: LockId) {
    t.pc.Acquire? && t.pc.lock == l && !(t'.pc.Acquire? && t'.pc.lock == l)
  }

  predicate ReleaseDone(t: Thread, t': Thread, l: LockId) {
    t.pc.Release? && t.pc.lock == l && !(t'.pc.Release? && t'.pc.lock == l)
  }

  function One(b: bool): nat {
    if b then 1 else 0
  }

  /** The running thread's locks: one more for each acquire at its end, one fewer for each release. */
  ghost predicate DepthsFollow(t: Thread, t': Thread) {
    forall l: LockId :: Depth(t', l) + One(ReleaseDone(t, t', l)) == Depth(t, l) + One(AcquireDone(t, t', l))
  }

  /** The running thread enters lock_acquire and lock_release where it calls them, or in a ring operation. */
  predicate Enters(t: Thread, t': Thread, a: Action) {
    && (t'.pc.Acquire? ==>
          t'.pc.lock == RING || a == BeginAcquire(t'.pc.lock) || (t.pc.Acquire? && t.pc.lock == t'.pc.lock))
    && (t'.pc.Release? ==>
          t'.pc.lock == RING || a == BeginRelease(t'.pc.lock) || (t.pc.Release? && t.pc.lock == t'.pc.lock))
  }

  /** What a step does to a thread that was there. */
  ghost predicate ThreadKept(t: Thread, t': Thread, a: Action, current: bool) {
    && t'.priority == t.priority
    && t'.elapsed == t.elapsed + One(current && a.Clock?)
    && t'.intr == (if current && a.SetIntr? then a.on else t.intr)
    && (if current then DepthsFollow(t, t') && Enters(t, t', a) else t'.pc == t.pc && t'.depth == t.depth)
  }

  ghost predicate AccountsKept(k: Kernel, a: Action, k': Kernel) {
    && k.current in k.threads && k'.ticks == k.ticks + One(a.Clock?)
    && (forall t {:trigger k'.threads[t]} :: t in k.threads ==>
          t in k'.threads && ThreadKept(k.threads[t], k'.threads[t], a, t == k.current))
    && (if a.Start? then
          && k'.threads.Keys == k.threads.Keys + {a.t} && k'.all == k.all + [a.t] && k'.ready == k.ready + [a.t]
          && k'.threads[a.t].priority == a.prio && k'.threads[a.t].ticks == a.prio && k'.threads[a.t].elapsed == 0
          && k'.threads[a.t].status == Ready && k'.threads[a.t].intr && k'.threads[a.t].pc == User
          && forall l: LockId :: Depth(k'.threads[a.t], l) == 0
        else k'.threads.Keys == k.threads.Keys && k'.all == k.all)
  }

  /** Scheduling and waking change the status and the slice of a thread, and nothing else. */
  ghost predicate SameAccounts(k: Kernel, k': Kernel) {
    && k'.threads.Keys == k.threads.Keys && k'.all == k.all && k'.ticks == k.ticks
    && (forall t {:trigger k'.threads[t]} :: t in k.threads ==>
          k'.threads[t] == k.threads[t].(status := k'.threads[t].status, ticks := k'.threads[t].ticks))
  }

  lemma ScheduleAccounts(k: Kernel)
    requires k.current in k.threads && (forall t :: t in k.ready ==> t in k.threads) && Schedule(k).Next?
    ensures SameAccounts(k, Schedule(k).k)
  {
  }

  lemma UnblockAccounts(k: Kernel, w: Tid)
    requires w in k.threads && ThreadUnblock(k, w).Next?
    ensures SameAccounts(k, ThreadUnblock(k, w).k)
  {
  }

  lemma WakeAccounts(k: Kernel)
    requires k.ring.consumer.Some? ==> k.ring.consumer.value in k.threads
    requires k.ring.producer.Some? ==> k.ring.producer.value in k.threads
    ensures WakeConsumer(k).Next? ==> SameAccounts(k, WakeConsumer(k).k)
    ensures WakeProducer(k).Next? ==> SameAccounts(k, WakeProducer(k).k)
  {
  }

  /** The running thread goes from t to b, and then scheduling or waking follows. */
  lemma MovedAccounts(k: Kernel, a: Action, k1: Kernel, k': Kernel)
    requires k.current in k.threads && !a.Start? && SameAccounts(k1, k')
    requires k1.threads.Keys == k.threads.Keys && k1.all == k.all && k1.ticks == k.ticks + One(a.Clock?)
    requires forall t {:trigger k1.threads[t]} :: t in k.threads && t != k.current ==> k1.threads[t] == k.threads[t]
    requires ThreadKept(Cur(k), k1.threads[k.current], a, true)
    ensures AccountsKept(k, a, k')
  {
    forall t | t in k.threads
      ensures ThreadKept(k.threads[t], k'.threads[t], a, t == k.current)
    {
      assert k'.threads[t] == k1.threads[t].(status := k'.threads[t].status, ticks := k'.threads[t].ticks);
      assert forall l: LockId :: Depth(k'.threads[t], l) == Depth(k1.threads[t], l);
    }
  }

  lemma SameAccountsRefl(k: Kernel)
    ensures SameAccounts(k, k)
  {
  }

  lemma BlockAccounts(k: Kernel, a: Action, k1: Kernel, stat: Status)
    requires k.current in k.threads && (forall t :: t in k.ready ==> t in k.threads) && !a.Start? && !a.Clock?
    requires k1.ready == k.ready && k1.current == k.current
    requires k1.threads.Keys == k.threads.Keys && k1.all == k.all && k1.ticks == k.ticks && ThreadBlock(k1, stat).Next?
    requires forall t {:trigger k1.threads[t]} :: t in k.threads && t != k.current ==> k1.threads[t] == k.threads[t]
    requires ThreadKept(Cur(k), k1.threads[k.current], a, true)
    ensures AccountsKept(k, a, ThreadBlock(k1, stat).k)
  {
    var k2 := SetCur(k1, Cur(k1).(status := stat));
    ScheduleAccounts(k2);
    assert forall l: LockId :: Depth(k2.threads[k.current], l) == Depth(k1.threads[k.current], l);
    hide Schedule, Depth;
    MovedAccounts(k, a, k2, ThreadBlock(k1, stat).k);
  }

  lemma AcquireAccounts(k: Kernel, l: LockId, phase: AcquirePhase)
    requires Inv(k) && Wf(k) && Cur(k).pc == Acquire(l, phase) && AcquireStep(k, l, phase).Next?
    ensures AccountsKept(k, Exec, AcquireStep(k, l, phase).k)
  {
    hide Core;
    if (phase == Down || phase == Retry) && k.locks[l].value == 0 {
      BlockAccounts(k, Exec, SetLock(SetCur(k, Cur(k).(pc := Acquire(l, Retry))), l,
                                     k.locks[l].(waiters := k.locks[l].waiters + [k.current])), Blocked);
      hide ThreadBlock;
    } else {
      var k' := AcquireStep(k, l, phase).k;
      SameAccountsRefl(k');
      AcquireMoves(k, l, phase);
      MovedAccounts(k, Exec, k', k');
    }
  }

  lemma AcquireMoves(k: Kernel, l: LockId, phase: AcquirePhase)
    requires Wf(k) && Cur(k).pc == Acquire(l, phase) && AcquireStep(k, l, phase).Next?
    requires !((phase == Down || phase == Retry) && k.locks[l].value == 0)
    ensures var k' := AcquireStep(k, l, phase).k;
      && k'.threads.Keys == k.threads.Keys && k'.all == k.all && k'.ticks == k.ticks
      && (forall t {:trigger k'.threads[t]} :: t in k.threads && t != k.current ==> k'.threads[t] == k.threads[t])
      && ThreadKept(Cur(k), k'.threads[k.current], Exec, true)
  {
  }

  lemma UndoneKept(t: Thread, l: LockId, phase: ReleasePhase)
    requires t.pc == Release(l, phase) && Depth(t, l) >= 1
    ensures ThreadKept(t, Undone(t, l), Exec, true)
  {
  }

  lemma ReleaseDepth(k: Kernel, l: LockId, phase: ReleasePhase)
    requires Inv(k) && Cur(k).pc == Release(l, phase)
    ensures Depth(Cur(k), l) >= 1 && l in k.locks
  {
    KnowThread(k, k.current);
    hide Core;
  }

  lemma ReleaseAccounts(k: Kernel, l: LockId, phase: ReleasePhase)
    requires Inv(k) && Wf(k) && Cur(k).pc == Release(l, phase) && ReleaseStep(k, l, phase).Next?
    ensures AccountsKept(k, Exec, ReleaseStep(k, l, phase).k)
  {
    hide Core, Wf, Undone, ThreadKept, SameAccounts, AccountsKept, SemaUp, Depth;
    KnowRing(k);
    ReleaseDepth(k, l, phase);
    UndoneKept(Cur(k), l, phase);
    var k' := ReleaseStep(k, l, phase).k;
    if phase == Up {
      UpAccounts(k, l);
      MovedAccounts(k, Exec, SetCur(k, Undone(Cur(k), l)), k');
    } else {
      SameAccountsRefl(k');
      ReleaseMoves(k, l, phase);
      MovedAccounts(k, Exec, k', k');
    }
  }

  lemma UpAccounts(k: Kernel, l: LockId)
    requires Wf(k) && l in k.locks && SemaUp(k, l).Next?
    ensures SameAccounts(SetCur(k, Undone(Cur(k), l)), SemaUp(k, l).k)
  {
    hide Undone;
  }

  lemma ReleaseMoves(k: Kernel, l: LockId, phase: ReleasePhase)
    requires Wf(k) && Cur(k).pc == Release(l, phase) && ReleaseStep(k, l, phase).Next? && phase != Up && Depth(Cur(k), l) >= 1
    ensures var k' := ReleaseStep(k, l, phase).k;
      && k'.threads.Keys == k.threads.Keys && k'.all == k.all && k'.ticks == k.ticks
      && (forall t {:trigger k'.threads[t]} :: t in k.threads && t != k.current ==> k'.threads[t] == k.threads[t])
      && ThreadKept(Cur(k), k'.threads[k.current], Exec, true)
  {
    UndoneKept(Cur(k), l, phase);
  }

  lemma RingTestKept(t: Thread)
    requires t.pc == RingTest
    ensures ThreadKept(t, Done(t), Exec, true) && ThreadKept(t, t.(pc := Acquire(RING, Test)), Exec, true)
  {
  }

  lemma RingTestAccounts(k: Kernel)
    requires Wf(k) && Cur(k).pc == RingTest && RingTestStep(k).Next?
    ensures AccountsKept(k, Exec, RingTestStep(k).k)
  {
    var t := Cur(k);
    RingTestKept(t);
    hide ThreadKept, AccountsKept, SameAccounts;
    var done := SetCur(k, Done(t));
    var k' := RingTestStep(k).k;
    match t.ring
    case Put(b) =>
      if Full(k.ring) { SameAccountsRefl(k'); MovedAccounts(k, Exec, k', k'); }
      else {
        WakeAccounts(done.(ring := Store(k.ring, b)));
        hide WakeConsumer;
        MovedAccounts(k, Exec, done.(ring := Store(k.ring, b)), k');
      }
    case Get =>
      if Empty(k.ring) { SameAccountsRefl(k'); MovedAccounts(k, Exec, k', k'); }
      else {
        WakeAccounts(done.(ring := Fetch(k.ring)));
        hide WakeProducer;
        MovedAccounts(k, Exec, done.(ring := Fetch(k.ring)), k');
      }
    case NoRing => SameAccountsRefl(k'); MovedAccounts(k, Exec, k', k');
  }

  lemma RingWaitAccounts(k: Kernel)
    requires Wf(k) && Cur(k).pc == RingWait && RingWaitStep(k).Next?
    ensures AccountsKept(k, Exec, RingWaitStep(k).k)
  {
    var k1 := SetCur(k, Cur(k).(pc := RingSleep));
    var k2, k3 := k1.(ring := k.ring.(producer := Some(k.current))), k1.(ring := k.ring.(consumer := Some(k.current)));
    if Cur(k).ring.Put? { BlockAccounts(k, Exec, k2, Blocked); } else { BlockAccounts(k, Exec, k3, Blocked); }
    hide ThreadBlock;
  }

  lemma ExecAccounts(k: Kernel)
    requires Inv(k) && Wf(k) && ExecStep(k).Next?
    ensures AccountsKept(k, Exec, ExecStep(k).k)
  {
    hide Core, AcquireStep, ReleaseStep, RingTestStep, RingWaitStep, SameAccounts;
    match Cur(k).pc
    case Acquire(l, phase) => AcquireAccounts(k, l, phase);
    case Release(l, phase) => ReleaseAccounts(k, l, phase);
    case RingTest => RingTestAccounts(k);
    case RingWait => RingWaitAccounts(k);
    case _ =>
  }

  lemma ClockAccounts(k: Kernel)
    requires Wf(k) && ClockInterrupt(k).Next?
    ensures AccountsKept(k, Clock, ClockInterrupt(k).k)
  {
    var c := Counted(k);
    if Cur(k).ticks == 0 {
      ScheduleAccounts(c);
    } else {
      assert SameAccounts(c, ClockInterrupt(k).k);
    }
    hide Schedule;
    assert forall l: LockId :: Depth(c.threads[k.current], l) == Depth(Cur(k), l);
    MovedAccounts(k, Clock, c, ClockInterrupt(k).k);
  }

  lemma KeyAccounts(k: Kernel, b: Byte)
    requires Wf(k) && KeyInterrupt(k, b).Next?
    ensures AccountsKept(k, Key(b), KeyInterrupt(k, b).k)
  {
    var k1 := k.(ring := Store(k.ring, b));
    SameAccountsRefl(k);
    if Full(k.ring) { MovedAccounts(k, Key(b), k, k); }
    else {
      WakeAccounts(k1);
      hide WakeConsumer;
      MovedAccounts(k, Key(b), k1, KeyInterrupt(k, b).k);
    }
  }

  /**
    Priorities never change; a thread's interrupt flag changes only by its own hand; a clock interrupt is charged to the
    thread it finds running and to no other; an acquire ends with one acquire of that lock more, a release with one less,
    and nothing else changes either; a new thread is READY at the end of both lists, its slice its priority.
  */
  lemma StepAccounts(k: Kernel, a: Action)
    requires Inv(k) && Wf(k) && Enabled(k, a) && Step(k, a).Next?
    ensures AccountsKept(k, a, Step(k, a).k)
  {
    hide Core, ExecStep, KeyInterrupt, ThreadUnblock, ClockInterrupt, ThreadBlock;
    match a
    case Clock => ClockAccounts(k);
    case Key(b) => KeyAccounts(k, b);
    case Exec => ExecAccounts(k);
    case Sleep(stat) => BlockAccounts(k, a, SetCur(k, Cur(k).(pc := Asleep)), stat);
    case Wake(w) => UnblockAccounts(k, w); MovedAccounts(k, a, k, Step(k, a).k);
    case _ => BeginAccounts(k, a);
  }

  lemma BeginAccounts(k: Kernel, a: Action)
    requires Inv(k) && Wf(k) && Enabled(k, a) && Step(k, a).Next? && (Begins(a) || a.Start?)
    ensures AccountsKept(k, a, Step(k, a).k)
  {
    hide Core, Wf, Enabled, ThreadOk;
    KnowRing(k);
    if a.Start? {
      NewTid(k, a);
      StartAccounts(k, a.t, a.prio);
    } else {
      BeginStep(k, a);
      BeginKept(Cur(k), a);
      hide Step, ThreadKept, Begun;
      var k' := SetCur(k, Begun(Cur(k), a));
      SameAccountsRefl(k');
      MovedAccounts(k, a, k', k');
    }
  }

  lemma BeginKept(t: Thread, a: Action)
    requires t.pc == User && Begins(a)
    ensures ThreadKept(t, Begun(t, a), a, true)
  {
  }

  lemma StartAccounts(k: Kernel, t: Tid, prio: nat)
    requires k.current in k.threads && ThreadStart(k, t, prio).Next? && t !in k.threads
    ensures AccountsKept(k, Start(t, prio), ThreadStart(k, t, prio).k)
  {
  }

  // ---------------------------------------------------------------- accounts over runs

  /** Clock interrupts along the run. */
  ghost function Clocks(k: Kernel, acts: seq<Action>): nat
    requires Legal(k, acts)
    decreases |acts|
  {
    if acts == [] || Step(k, acts[0]).Failed? then 0 else One(acts[0].Clock?) + Clocks(Step(k, acts[0]).k, acts[1..])
  }

  function Elapsed(threads: map<Tid, Thread>, all: seq<Tid>): nat {
    if all == [] then 0
    else (if all[0] in threads then threads[all[0]].elapsed else 0) + Elapsed(threads, all[1..])
  }

  lemma {:induction false} ElapsedCharged(threads: map<Tid, Thread>, threads': map<Tid, Thread>, all: seq<Tid>, t: Tid, d: nat)
    requires NoDup(all) && forall x :: x in all ==> x in threads && x in threads'
    requires forall x :: x in all ==> threads'[x].elapsed == threads[x].elapsed + (if x == t then d else 0)
    ensures Elapsed(threads', all) == Elapsed(threads, all) + (if t in all then d else 0)
  {
    if all != [] {
      NoDupSplit(all);
      ElapsedCharged(threads, threads', all[1..], t, d);
    }
  }

  lemma {:induction false} ElapsedJoined(threads: map<Tid, Thread>, all: seq<Tid>, t: Tid)
    requires t in threads && threads[t].elapsed == 0
    ensures Elapsed(threads, all + [t]) == Elapsed(threads, all)
  {
    if all == [] {
      assert ([] + [t])[1..] == [];
    } else {
      assert (all + [t])[1..] == all[1..] + [t];
      ElapsedJoined(threads, all[1..], t);
    }
  }

  lemma ElapsedStep(k: Kernel, a: Action, k': Kernel)
    requires Inv(k) && AccountsKept(k, a, k')
    requires a.Start? ==> a.t !in k.threads
    ensures Elapsed(k'.threads, k'.all) == Elapsed(k.threads, k.all) + One(a.Clock?)
  {
    QueuesAll(k);
    hide Inv;
    forall x | x in k.all
      ensures x in k'.threads && k'.threads[x].elapsed == k.threads[x].elapsed + (if x == k.current then One(a.Clock?) else 0)
    {
      assert ThreadKept(k.threads[x], k'.threads[x], a, x == k.current);
    }
    ElapsedCharged(k.threads, k'.threads, k.all, k.current, One(a.Clock?));
    if a.Start? { ElapsedJoined(k'.threads, k.all, a.t); }
  }

  lemma QueuesAll(k: Kernel)
    requires Inv(k)
    ensures NoDup(k.all) && (forall x :: x in k.all <==> x in k.threads) && k.current in k.all
  {
    hide Threads, Locks, RingOk, Sleepers, ReadyExact, WaitersExact;
  }

  /** The kernel's tick count is the number of clock interrupts, and the threads' elapsed_ticks add up to it. */
  lemma {:induction false} TicksAccountedFor(k: Kernel, acts: seq<Action>)
    requires Inv(k) && Legal(k, acts) && Run(k, acts).Next?
    ensures var k' := Run(k, acts).k;
      && k'.ticks == k.ticks + Clocks(k, acts)
      && Elapsed(k'.threads, k'.all) == Elapsed(k.threads, k.all) + Clocks(k, acts)
    decreases |acts|
  {
    hide Core, Wf, Step, AccountsKept, Elapsed;
    if acts != [] {
      StepSafe(k, acts[0]);
      StepAccounts(k, acts[0]);
      NewTid(k, acts[0]);
      TicksStep(k, acts[0], Step(k, acts[0]).k);
      ElapsedStep(k, acts[0], Step(k, acts[0]).k);
      TicksAccountedFor(Step(k, acts[0]).k, acts[1..]);
    }
  }

  lemma TicksStep(k: Kernel, a: Action, k': Kernel)
    requires AccountsKept(k, a, k')
    ensures k'.ticks == k.ticks + One(a.Clock?)
  {
  }

  /** How often thread u begins and ends an acquire of l along the run, and ends a release. */
  ghost function AcquiresBegun(k: Kernel, acts: seq<Action>, u: Tid, l: LockId): nat
    requires Legal(k, acts)
    decreases |acts|
  {
    if acts == [] || Step(k, acts[0]).Failed? then 0
    else One(k.current == u && acts[0] == BeginAcquire(l)) + AcquiresBegun(Step(k, acts[0]).k, acts[1..], u, l)
  }

  ghost function AcquiresDone(k: Kernel, acts: seq<Action>, u: Tid, l: LockId): nat
    requires Legal(k, acts)
    decreases |acts|
  {
    if acts == [] || Step(k, acts[0]).Failed? then 0
    else
      var k' := Step(k, acts[0]).k;
      One(k.current == u && u in k'.threads && AcquireDone(Cur(k), k'.threads[u], l)) + AcquiresDone(k', acts[1..], u, l)
  }

  ghost function ReleasesDone(k: Kernel, acts: seq<Action>, u: Tid, l: LockId): nat
    requires Legal(k, acts)
    decreases |acts|
  {
    if acts == [] || Step(k, acts[0]).Failed? then 0
    else
      var k' := Step(k, acts[0]).k;
      One(k.current == u && u in k'.threads && ReleaseDone(Cur(k), k'.threads[u], l)) + ReleasesDone(k', acts[1..], u, l)
  }

  function DepthOf(k: Kernel, u: Tid, l: LockId): nat {
    if u in k.threads then Depth(k.threads[u], l) else 0
  }

  function Acquiring(k: Kernel, u: Tid, l: LockId): nat {
    One(u in k.threads && k.threads[u].pc.Acquire? && k.threads[u].pc.lock == l)
  }

  /**
    A lock's nesting depth is the acquires that have ended less the releases; and every acquire of a lock other than the
    ring's that a thread begins has ended, or is the one it is in.
  */
  lemma {:induction false} NoAcquireLost(k: Kernel, acts: seq<Action>, u: Tid, l: LockId)
    requires Inv(k) && Legal(k, acts) && Run(k, acts).Next?
    ensures var k' := Run(k, acts).k;
      && DepthOf(k', u, l) + ReleasesDone(k, acts, u, l) == DepthOf(k, u, l) + AcquiresDone(k, acts, u, l)
      && (l != RING ==>
            Acquiring(k, u, l) + AcquiresBegun(k, acts, u, l) == AcquiresDone(k, acts, u, l) + Acquiring(k', u, l))
    decreases |acts|
  {
    hide Core, Wf, Step, AccountsKept, DepthOf, Acquiring, AcquireDone, ReleaseDone;
    if acts != [] {
      var k' := Step(k, acts[0]).k;
      StepSafe(k, acts[0]);
      StepAccounts(k, acts[0]);
      NewTid(k, acts[0]);
      DepthStep(k, acts[0], k', u, l);
      if l != RING { AcquiringStep(k, acts[0], u, l); }
      NoAcquireLost(k', acts[1..], u, l);
    }
  }

  lemma DepthStep(k: Kernel, a: Action, k': Kernel, u: Tid, l: LockId)
    requires AccountsKept(k, a, k') && (a.Start? ==> a.t !in k.threads)
    ensures DepthOf(k', u, l) + One(k.current == u && u in k'.threads && ReleaseDone(Cur(k), k'.threads[u], l))
         == DepthOf(k, u, l) + One(k.current == u && u in k'.threads && AcquireDone(Cur(k), k'.threads[u], l))
  {
    hide AcquireDone, ReleaseDone;
    if u in k.threads { assert ThreadKept(k.threads[u], k'.threads[u], a, u == k.current); }
    hide Depth;
  }

  /** A way through lock_acquire of a lock of the program's own starts only where the program says so. */
  lemma AcquiringStep(k: Kernel, a: Action, u: Tid, l: LockId)
    requires Inv(k) && Wf(k) && Enabled(k, a) && Step(k, a).Next? && l != RING
    ensures var k' := Step(k, a).k;
      Acquiring(k, u, l) + One(k.current == u && a == BeginAcquire(l))
      == One(k.current == u && u in k'.threads && AcquireDone(Cur(k), k'.threads[u], l)) + Acquiring(k', u, l)
  {
    hide Core, Step, Wf, Enabled;
    KnowRing(k);
    StepAccounts(k, a);
    var k' := Step(k, a).k;
    NewTid(k, a);
    if u in k.threads && u != k.current {
      assert ThreadKept(k.threads[u], k'.threads[u], a, false);
    } else if u == k.current {
      EntersAcquire(k, a, l);
    }
  }

  lemma EntersAcquire(k: Kernel, a: Action, l: LockId)
    requires Inv(k) && Wf(k) && Enabled(k, a) && Step(k, a).Next? && l != RING && AccountsKept(k, a, Step(k, a).k)
    ensures k.current in Step(k, a).k.threads
    ensures var t' := Step(k, a).k.threads[k.current];
      t'.pc.Acquire? && t'.pc.lock == l ==> a == BeginAcquire(l) || (Cur(k).pc.Acquire? && Cur(k).pc.lock == l)
    ensures a == BeginAcquire(l) ==> !Cur(k).pc.Acquire? && Step(k, a).k.threads[k.current].pc == Acquire(l, Test)
  {
    hide Core;
    assert ThreadKept(Cur(k), Step(k, a).k.threads[k.current], a, true);
    if a == BeginAcquire(l) { Entering(k, l); }
    hide Step;
  }

  lemma Entering(k: Kernel, l: LockId)
    requires Wf(k) && Enabled(k, BeginAcquire(l))
    ensures Cur(k).pc == User && Step(k, BeginAcquire(l)) == Next(SetCur(k, Cur(k).(pc := Acquire(l, Test))))
  {
  }

  ghost function ReleasesBegun(k: Kernel, acts: seq<Action>, u: Tid, l: LockId): nat
    requires Legal(k, acts)
    decreases |acts|
  {
    if acts == [] || Step(k, acts[0]).Failed? then 0
    else One(k.current == u && acts[0] == BeginRelease(l)) + ReleasesBegun(Step(k, acts[0]).k, acts[1..], u, l)
  }

  function Releasing(k: Kernel, u: Tid, l: LockId): nat {
    One(u in k.threads && k.threads[u].pc.Release? && k.threads[u].pc.lock == l)
  }

  /** Likewise every release that a thread begins has ended, or is the one it is in. */
  lemma {:induction false} NoReleaseLost(k: Kernel, acts: seq<Action>, u: Tid, l: LockId)
    requires Inv(k) && Legal(k, acts) && Run(k, acts).Next? && l != RING
    ensures Releasing(k, u, l) + ReleasesBegun(k, acts, u, l)
         == ReleasesDone(k, acts, u, l) + Releasing(Run(k, acts).k, u, l)
    decreases |acts|
  {
    hide Core, Wf, Step, AccountsKept, Releasing, ReleaseDone;
    if acts != [] {
      StepSafe(k, acts[0]);
      ReleasingStep(k, acts[0], u, l);
      NoReleaseLost(Step(k, acts[0]).k, acts[1..], u, l);
    }
  }

  lemma ReleasingStep(k: Kernel, a: Action, u: Tid, l: LockId)
    requires Inv(k) && Wf(k) && Enabled(k, a) && Step(k, a).Next? && l != RING
    ensures var k' := Step(k, a).k;
      Releasing(k, u, l) + One(k.current == u && a == BeginRelease(l))
      == One(k.current == u && u in k'.threads && ReleaseDone(Cur(k), k'.threads[u], l)) + Releasing(k', u, l)
  {
    hide Core, Step, Wf, Enabled;
    KnowRing(k);
    StepAccounts(k, a);
    var k' := Step(k, a).k;
    NewTid(k, a);
    if u in k.threads && u != k.current {
      assert ThreadKept(k.threads[u], k'.threads[u], a, false);
    } else if u == k.current {
      EntersRelease(k, a, l);
    }
  }

  lemma EntersRelease(k: Kernel, a: Action, l: LockId)
    requires Inv(k) && Wf(k) && Enabled(k, a) && Step(k, a).Next? && l != RING && AccountsKept(k, a, Step(k, a).k)
    ensures k.current in Step(k, a).k.threads
    ensures var t' := Step(k, a).k.threads[k.current];
      t'.pc.Release? && t'.pc.lock == l ==> a == BeginRelease(l) || (Cur(k).pc.Release? && Cur(k).pc.lock == l)
    ensures a == BeginRelease(l) ==> !Cur(k).pc.Release? && Step(k, a).k.threads[k.current].pc == Release(l, Check)
  {
    hide Core;
    assert ThreadKept(Cur(k), Step(k, a).k.threads[k.current], a, true);
    if a == BeginRelease(l) { BeginsRelease(k, l); }
    hide Step;
  }

  lemma BeginsRelease(k: Kernel, l: LockId)
    requires Wf(k) && Enabled(k, BeginRelease(l))
    ensures Cur(k).pc == User && Step(k, BeginRelease(l)) == Next(SetCur(k, Cur(k).(pc := Release(l, Check))))
  {
  }

  // ---------------------------------------------------------------- the order of the queues

  /** The step ends with another thread on the processor, or the same one dispatched again. */
  ghost predicate Switches(k: Kernel, a: Action)
    requires Wf(k)
  {
    GivesUp(k, a) || (a.Clock? && Cur(k).ticks == 0)
  }

  /** The ready list is first come, first served, but that a woken thread goes to the front. */
  ghost predicate ReadyFollows(k: Kernel, a: Action, k': Kernel)
    requires Wf(k)
  {
    if Switches(k, a) then
      var queue := k.ready + (if a.Clock? then [k.current] else []);
      queue != [] && k'.current == queue[0] && k'.ready == queue[1..]
    else
      && k'.current == k.current
      && k'.ready == (if WokenBy(k, a).Some? then [WokenBy(k, a).value] else []) + k.ready + (if a.Start? then [a.t] else [])
  }

  /** The thread that a step puts to sleep in l's waiters, and the one it takes out of them. */
  function Joins(k: Kernel, a: Action, l: LockId): seq<Tid>
    requires Wf(k)
  {
    if a.Exec? && Cur(k).pc.Acquire? && Cur(k).pc.lock == l && GivesUp(k, a) then [k.current] else []
  }

  predicate HeadLeaves(k: Kernel, a: Action, l: LockId)
    requires Wf(k) && l in k.locks
  {
    a.Exec? && Cur(k).pc == Release(l, Up) && k.locks[l].waiters != []
  }

  /** A lock's waiters are served in the order they came. */
  ghost predicate WaitersFollow(k: Kernel, a: Action, k': Kernel)
    requires Wf(k)
  {
    && k'.locks.Keys == k.locks.Keys
    && forall l {:trigger k'.locks[l]} :: l in k.locks ==>
         (if HeadLeaves(k, a, l) then [k.locks[l].waiters[0]] else []) + k'.locks[l].waiters
         == k.locks[l].waiters + Joins(k, a, l)
  }

  lemma SwitchOrder(k: Kernel, k1: Kernel, a: Action)
    requires Inv(k) && Wf(k) && Switches(k, a) && k1.current == k.current && k1.ready == k.ready && k1.current in k1.threads
    requires (forall t :: t in k1.ready ==> t in k1.threads) && Schedule(k1).Next?
    requires Cur(k1).status == Running <==> a.Clock?
    ensures ReadyFollows(k, a, Schedule(k1).k) && Schedule(k1).k.locks == k1.locks
  {
    hide Core, GivesUp, Inv;
  }

  lemma ClockOrder(k: Kernel)
    requires Inv(k) && Wf(k)
    ensures ClockInterrupt(k).Next? && ReadyFollows(k, Clock, ClockInterrupt(k).k) && ClockInterrupt(k).k.locks == k.locks
  {
    ClockSafe(k);
    hide Core, Schedule;
    if Cur(k).ticks == 0 { SwitchOrder(k, Counted(k), Clock); }
  }

  lemma SleepOrder(k: Kernel, stat: Status)
    requires Inv(k) && Wf(k) && Enabled(k, Sleep(stat)) && Step(k, Sleep(stat)).Next?
    ensures ReadyFollows(k, Sleep(stat), Step(k, Sleep(stat)).k) && Step(k, Sleep(stat)).k.locks == k.locks
  {
    hide Core, Schedule, ThreadBlock;
    SleepEq(k, stat);
    SwitchOrder(k, SetCur(k, Cur(k).(pc := Asleep, status := stat)), Sleep(stat));
  }

  lemma AcquireOrder(k: Kernel, l: LockId, phase: AcquirePhase)
    requires Inv(k) && Wf(k) && Cur(k).pc == Acquire(l, phase) && ExecStep(k).Next?
    ensures ReadyFollows(k, Exec, ExecStep(k).k) && WaitersFollow(k, Exec, ExecStep(k).k)
  {
    hide Core, Schedule;
    if (phase == Down || phase == Retry) && k.locks[l].value == 0 {
      BlockOnLock(k, l);
      BlockOnLockEq(k, l);
      SwitchOrder(k, Moved(k, BlockedOn(Cur(k), l), l, k.locks[l].(waiters := k.locks[l].waiters + [k.current]), k.ring), Exec);
      hide SemaDown, ReadyFollows;
    }
  }

  lemma RingWaitOrder(k: Kernel)
    requires Inv(k) && Wf(k) && Cur(k).pc == RingWait && ExecStep(k).Next?
    ensures ReadyFollows(k, Exec, ExecStep(k).k) && WaitersFollow(k, Exec, ExecStep(k).k)
  {
    hide Core, Schedule;
    NobodyWaits(k);
    RingWaitEq(k);
    SwitchOrder(k, RingWaiting(k), Exec);
    hide RingWaitStep, ReadyFollows;
  }

  lemma ReleaseOrder(k: Kernel, l: LockId, phase: ReleasePhase)
    requires Wf(k) && Cur(k).pc == Release(l, phase) && ExecStep(k).Next?
    ensures ReadyFollows(k, Exec, ExecStep(k).k) && WaitersFollow(k, Exec, ExecStep(k).k)
  {
    hide Undone;
  }

  lemma RingTestOrder(k: Kernel)
    requires Wf(k) && Cur(k).pc == RingTest && ExecStep(k).Next?
    ensures ReadyFollows(k, Exec, ExecStep(k).k) && WaitersFollow(k, Exec, ExecStep(k).k)
  {
    TransferReady(k);
    RingTestLocks(k);
    hide RingTestStep;
  }

  lemma RingTestLocks(k: Kernel)
    requires Wf(k) && Cur(k).pc == RingTest && RingTestStep(k).Next?
    ensures RingTestStep(k).k.locks == k.locks && RingTestStep(k).k.current == k.current
  {
  }

  lemma OtherOrder(k: Kernel)
    requires Wf(k) && (Cur(k).pc == User || Cur(k).pc == Asleep || Cur(k).pc == RingSleep)
    ensures ReadyFollows(k, Exec, ExecStep(k).k) && WaitersFollow(k, Exec, ExecStep(k).k)
  {
  }

  lemma BeginOrder(k: Kernel, a: Action)
    requires Inv(k) && Wf(k) && Enabled(k, a) && Step(k, a).Next? && !a.Exec? && !a.Clock? && !a.Sleep?
    ensures ReadyFollows(k, a, Step(k, a).k) && WaitersFollow(k, a, Step(k, a).k)
  {
    hide Core;
  }

  /**
    A thread that loses the processor to the clock goes to the end of the ready list, one that gives it up is in no
    place of it, a woken one goes to the front, a new one to the end; the first of the list gets the processor. A lock's
    waiters leave in the order they came.
  */
  lemma StepOrder(k: Kernel, a: Action)
    requires Inv(k) && Wf(k) && Enabled(k, a) && Step(k, a).Next?
    ensures ReadyFollows(k, a, Step(k, a).k) && WaitersFollow(k, a, Step(k, a).k)
  {
    hide Core, ReadyFollows, ExecStep, ThreadBlock, ClockInterrupt, KeyInterrupt, ThreadUnblock;
    match a
    case Clock => ClockOrder(k);
    case Sleep(stat) => SleepOrder(k, stat);
    case Exec => ExecOrder(k);
    case _ => BeginOrder(k, a);
  }

  lemma ExecOrder(k: Kernel)
    requires Inv(k) && Wf(k) && ExecStep(k).Next?
    ensures ReadyFollows(k, Exec, ExecStep(k).k) && WaitersFollow(k, Exec, ExecStep(k).k)
  {
    hide Core, ReadyFollows, WaitersFollow, ExecStep;
    match Cur(k).pc
    case Acquire(l, phase) => AcquireOrder(k, l, phase);
    case Release(l, phase) => ReleaseOrder(k, l, phase);
    case RingTest => RingTestOrder(k);
    case RingWait => RingWaitOrder(k);
    case _ => OtherOrder(k);
  }

  // ---------------------------------------------------------------- what the ASSERTs catch

  /** A thread that puts itself to sleep is of the status it asked for, and another has the processor. */
  lemma SleepsAs(k: Kernel, stat: Status)
    requires Inv(k) && Wf(k) && Enabled(k, Sleep(stat)) && k.ready != []
    ensures stat == Blocked || stat == Waiting || stat == Hanging
    ensures Step(k, Sleep(stat)).Next?
    ensures var k' := Step(k, Sleep(stat)).k;
      && k.current in k'.threads && k'.threads[k.current].status == stat
      && k'.current == k.ready[0] && k'.current != k.current && k'.ready == k.ready[1..]
  {
    hide Core, ThreadBlock;
    StepSafe(k, Sleep(stat));
    EmptyExactly(k, Sleep(stat));
    SleepEq(k, stat);
    NotQueued(k);
    ReadyHead(k);
  }

  lemma ReadyHead(k: Kernel)
    requires Inv(k) && k.ready != []
    ensures k.ready[0] in k.ready && k.ready[0] != k.current && k.ready[0] in k.threads
  {
    NotQueued(k);
    assert k.ready[0] in k.ready;
  }

  /**
    Where its condition does not hold an ASSERT does fail. thread.c: scheduling with interrupts on, or a running thread
    that is in the ready list; sleeping as RUNNING, READY or DIED; waking such a thread, or one in the ready list;
    starting a thread that is in a list already, or listing main a second time.
  */
  lemma ThreadAssertsCatch(k: Kernel, stat: Status, w: Tid, prio: nat)
    requires Wf(k) && w in k.threads
    ensures Schedule(k, true) == Failed(InterruptsOn)
    ensures Cur(k).status == Running && k.current in k.ready ==> Schedule(k) == Failed(AlreadyReady)
    ensures Cur(k).status != Running && k.ready == [] ==> Schedule(k) == Failed(ReadyListEmpty)
    ensures stat == Running || stat == Ready || stat == Died ==> ThreadBlock(k, stat) == Failed(NotBlocked)
    ensures var s := k.threads[w].status;
      && (s == Running || s == Ready || s == Died ==> ThreadUnblock(k, w) == Failed(NotBlocked))
      && ((s == Blocked || s == Waiting || s == Hanging) && w in k.ready ==> ThreadUnblock(k, w) == Failed(AlreadyReady))
    ensures w in k.ready ==> ThreadStart(k, w, prio) == Failed(AlreadyReady)
    ensures w !in k.ready && w in k.all ==> ThreadStart(k, w, prio) == Failed(AlreadyListed)
    ensures k.current in k.all ==> ListMain(k) == Failed(AlreadyListed)
  {
  }

  /**
    sync.c: waiting in a list one is in already; a semaphore that is not 0 after down or before up, or not 1 after up;
    an acquired lock with a count, a released one without; a release by another than the holder.
  */
  lemma LockAssertsCatch(k: Kernel, l: LockId)
    requires Wf(k) && l in k.locks
    ensures var lock := k.locks[l];
      && (lock.value == 0 && k.current in lock.waiters ==> SemaDown(k, l) == Failed(AlreadyWaiting))
      && (lock.value > 1 ==> SemaDown(k, l) == Failed(ValueNotZero))
      && (lock.value > 0 ==> SemaUp(k, l) == Failed(ValueNotZero) && Raise(k, l) == Failed(ValueNotOne))
      && (lock.repeat > 0 ==> AcquireStep(k, l, SetRepeat) == Failed(RepeatNotZero))
      && (lock.holder != Some(k.current) ==> ReleaseStep(k, l, Check) == Failed(NotHolder))
      && (lock.holder == Some(k.current) && lock.repeat == 0 ==> ReleaseStep(k, l, Check) == Failed(RepeatNotOne))
  {
  }

  /** ioqueue.c: a ring operation with interrupts on; waiting where another waits; waking where nobody does. */
  lemma RingAssertsCatch(k: Kernel)
    requires Wf(k)
    ensures Cur(k).intr ==> RingTestStep(k) == Failed(InterruptsOn)
    ensures Cur(k).ring.Put? && k.ring.producer.Some? ==> RingWaitStep(k) == Failed(WaiterTaken)
    ensures Cur(k).ring == Get && k.ring.consumer.Some? ==> RingWaitStep(k) == Failed(WaiterTaken)
    ensures WakeUp(k, None) == Failed(NoWaiter)
  {
  }

  /** What runs start from: main running alone with its slice of 31 and interrupts off, every lock free, the ring empty. */
  lemma BootState(main: Tid, locks: set<LockId>, l: LockId)
    ensures var k := Boot(main, locks);
      && k.current == main && k.ready == [] && k.all == [main] && k.threads.Keys == {main} && k.ticks == 0
      && k.threads[main].status == Running && k.threads[main].priority == 31 && k.threads[main].ticks == 31
      && k.threads[main].elapsed == 0 && !k.threads[main].intr && Depth(k.threads[main], l) == 0
      && (l in k.locks <==> l in locks || l == RING)
      && (l in k.locks ==>
            && k.locks[l].holder == None && k.locks[l].repeat == 0 && k.locks[l].value == 1 && k.locks[l].waiters == [])
      && |k.ring.buf| == 64 && k.ring.head == k.ring.tail && k.ring.put == [] && k.ring.got == []
      && k.ring.producer == None && k.ring.consumer == None
  {
  }
}
