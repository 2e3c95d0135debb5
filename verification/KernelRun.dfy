/**
  Whole runs of the kernel, from boot, under any interleaving the interrupts allow; and what the
  invariant says about locks, queues and the ring in every state a run reaches.
*/
module KernelRun {
  import opened Common
  import opened KernelModel
  import opened KernelInv
  import opened KernelSteps
  import opened KernelRing

  lemma ExecSafe(k: Kernel)
    requires Inv(k) && Wf(k)
    ensures Safe(ExecStep(k))
  {
    hide Core, Wf, ThreadOk, AcquireStep, ReleaseStep, RingTestStep, RingWaitStep;
    KnowRing(k);
    KnowThread(k, k.current);
    var t := Cur(k);
    match t.pc
    case User =>
    case Asleep => AwakeOk(t, k.locks.Keys); PlainStep(k, t.(pc := User));
    case Acquire(l, phase) => AcquireSafe(k, l, phase);
    case Release(l, phase) => ReleaseSafe(k, l, phase);
    case RingTest => RingTestSafe(k);
    case RingWait => RingWaitSafe(k);
    case RingSleep => AwakeOk(t, k.locks.Keys); PlainStep(k, t.(pc := Release(RING, Check)));
  }

  lemma AwakeOk(t: Thread, locks: set<LockId>)
    requires ThreadOk(t, locks) && t.status == Running && RING in locks
    ensures t.pc == Asleep ==> ThreadOk(t.(pc := User), locks)
    ensures t.pc == RingSleep ==> ThreadOk(t.(pc := Release(RING, Check)), locks)
  {
  }

  /** The running thread after an action that only moves its program counter or its interrupt flag. */
  function Begun(t: Thread, a: Action): Thread {
    match a
    case SetIntr(on) => t.(intr := on)
    case BeginAcquire(l) => t.(pc := Acquire(l, Test))
    case BeginRelease(l) => t.(pc := Release(l, Check))
    case BeginPut(b) => t.(pc := RingTest, ring := Put(b))
    case BeginGet => t.(pc := RingTest, ring := Get)
    case _ => t
  }

  lemma BeginOk(k: Kernel, t: Thread, a: Action)
    requires Wf(k) && t == Cur(k) && ThreadOk(t, k.locks.Keys) && t.status == Running && t.pc == User && Enabled(k, a)
    requires a.SetIntr? || a.BeginAcquire? || a.BeginRelease? || a.BeginPut? || a.BeginGet?
    ensures var b := Begun(t, a);
      ThreadOk(b, k.locks.Keys) && b.status == Running && Plain(b.pc) && b.depth == t.depth
    ensures Step(k, a) == Next(SetCur(k, Begun(t, a)))
  {
  }

  lemma UserSafe(k: Kernel, a: Action)
    requires Inv(k) && Wf(k) && Enabled(k, a) && Cur(k).pc == User
    requires a.SetIntr? || a.BeginAcquire? || a.BeginRelease? || a.BeginPut? || a.BeginGet?
    ensures Safe(Step(k, a))
  {
    hide Core, Wf, ThreadOk, Enabled, Step, Begun;
    KnowRing(k);
    KnowThread(k, k.current);
    BeginOk(k, Cur(k), a);
    PlainStep(k, Begun(Cur(k), a));
  }

  /** Every enabled step keeps the invariant; no ASSERT fails, but for the one that finds the ready list empty. */
  lemma StepSafe(k: Kernel, a: Action)
    requires Inv(k) && Wf(k) && Enabled(k, a)
    ensures Safe(Step(k, a))
  {
    hide Core, Wf, ThreadOk, ExecStep, ClockInterrupt, KeyInterrupt, ThreadBlock, ThreadUnblock, ThreadStart;
    match a
    case Clock => ClockSafe(k);
    case Key(b) => KeySafe(k, b);
    case Exec => ExecSafe(k);
    case Sleep(stat) => SleepSafe(k, stat);
    case Wake(w) => WakeSafe(k, w);
    case Start(n, prio) => StartSafe(k, n, prio);
    case _ => UserSafe(k, a);
  }

  // ---------------------------------------------------------------- a thread that never blocks

  /** Steps that can put the running thread to sleep, now or further on. */
  predicate MayBlock(a: Action) {
    a.BeginAcquire? || a.BeginRelease? || a.BeginPut? || a.BeginGet? || a.Sleep?
  }

  /** The step ends in thread_block: the running thread asks to sleep, comes to ioq_wait, or finds the lock taken. */
  predicate GivesUp(k: Kernel, a: Action)
    requires Wf(k)
  {
    match a
    case Sleep(_) => true
    case Exec =>
      (match Cur(k).pc
       case RingWait => true
       case Acquire(l, phase) => (phase == Down || phase == Retry) && k.locks[l].value == 0
       case _ => false)
    case _ => false
  }

  /** schedule's ASSERT on the ready list fails exactly when the running thread gives up the processor and no other
      thread is ready. */
  lemma EmptyExactly(k: Kernel, a: Action)
    requires Inv(k) && Wf(k) && Enabled(k, a)
    ensures Step(k, a) == Failed(ReadyListEmpty) <==> k.ready == [] && GivesUp(k, a)
  {
    hide Core, Wf, ExecStep, ClockInterrupt, KeyInterrupt, ThreadBlock;
    KnowRing(k);
    InvWf(k);
    match a
    case Clock => ClockSafe(k);
    case Key(b) => KeySafe(k, b);
    case Exec => ExecEmpty(k);
    case Sleep(stat) => SleepEq(k, stat);
    case _ =>
  }

  lemma ExecEmpty(k: Kernel)
    requires Inv(k) && Wf(k)
    ensures ExecStep(k) == Failed(ReadyListEmpty) <==> k.ready == [] && GivesUp(k, Exec)
  {
    hide Core, SemaDown, RingWaitStep;
    match Cur(k).pc
    case Acquire(l, phase) => if phase == Down || phase == Retry { DownEmpty(k, l); }
    case RingWait =>
      NobodyWaits(k);
      RingWaitEq(k);
    case _ =>
  }

  lemma DownEmpty(k: Kernel, l: LockId)
    requires Inv(k) && Wf(k) && l in k.locks && (Cur(k).pc == Acquire(l, Down) || Cur(k).pc == Acquire(l, Retry))
    ensures SemaDown(k, l) == Failed(ReadyListEmpty) <==> k.ready == [] && k.locks[l].value == 0
  {
    hide Core, Wf;
    if k.locks[l].value == 0 {
      BlockOnLock(k, l);
      BlockOnLockEq(k, l);
      hide SemaDown;
    }
  }

  /** The shortest such run: a main thread alone that goes to sleep. */
  lemma LoneSleeperFails()
    ensures var k := Boot(0, {}); Inv(k) && Wf(k) && Enabled(k, Sleep(Blocked)) && Step(k, Sleep(Blocked)) == Failed(ReadyListEmpty)
  {
    BootInv(0, {});
    InvWf(Boot(0, {}));
    EmptyExactly(Boot(0, {}), Sleep(Blocked));
  }

  /** What scheduling and waking leave alone: every program counter, and the ring's history. */
  ghost predicate SamePcs(k: Kernel, k': Kernel) {
    && k.threads.Keys <= k'.threads.Keys
    && (forall t {:trigger k'.threads[t]} :: t in k.threads ==> k'.threads[t].pc == k.threads[t].pc)
    && k'.ring.put == k.ring.put && k'.ring.got == k.ring.got
  }

  lemma ScheduleFrame(k: Kernel)
    requires k.current in k.threads && forall t :: t in k.ready ==> t in k.threads
    ensures Schedule(k).Next? ==> SamePcs(k, Schedule(k).k)
  {
  }

  lemma ClockFrame(k: Kernel)
    requires k.current in k.threads && forall t :: t in k.ready ==> t in k.threads
    ensures ClockInterrupt(k).Next? ==> SamePcs(k, ClockInterrupt(k).k)
  {
    ScheduleFrame(Counted(k));
    hide Schedule;
  }

  lemma UnblockFrame(k: Kernel, w: Tid)
    requires w in k.threads
    ensures ThreadUnblock(k, w).Next? ==> SamePcs(k, ThreadUnblock(k, w).k)
  {
  }

  lemma WakeFrame(k: Kernel)
    requires k.ring.consumer.Some? ==> k.ring.consumer.value in k.threads
    requires k.ring.producer.Some? ==> k.ring.producer.value in k.threads
    ensures WakeConsumer(k).Next? ==> SamePcs(k, WakeConsumer(k).k)
    ensures WakeProducer(k).Next? ==> SamePcs(k, WakeProducer(k).k)
  {
  }

  /** What a whole step leaves alone: the other threads' program counters, and the history so far. */
  ghost predicate Frame(k: Kernel, k': Kernel) {
    && k.threads.Keys <= k'.threads.Keys
    && (forall t {:trigger k'.threads[t]} :: t in k.threads && t != k.current ==> k'.threads[t].pc == k.threads[t].pc)
    && k.ring.put <= k'.ring.put && k.ring.got <= k'.ring.got
  }

  lemma BlockFrame(k: Kernel, k1: Kernel, stat: Status)
    requires k.current in k.threads && (forall t :: t in k.ready ==> t in k.threads)
    requires k1.ready == k.ready && k1.current == k.current && k1.threads.Keys == k.threads.Keys && Frame(k, k1)
    ensures ThreadBlock(k1, stat).Next? ==> Frame(k, ThreadBlock(k1, stat).k)
  {
    ScheduleFrame(SetCur(k1, Cur(k1).(status := stat)));
    hide Schedule;
  }

  lemma AcquireFrame(k: Kernel, l: LockId, phase: AcquirePhase)
    requires Wf(k) && l in k.locks && AcquireStep(k, l, phase).Next?
    ensures Frame(k, AcquireStep(k, l, phase).k)
  {
    if (phase == Down || phase == Retry) && k.locks[l].value == 0 {
      BlockFrame(k, SetLock(SetCur(k, Cur(k).(pc := Acquire(l, Retry))), l,
                            k.locks[l].(waiters := k.locks[l].waiters + [k.current])), Blocked);
      hide ThreadBlock;
    }
  }

  lemma ReleaseFrame(k: Kernel, l: LockId, phase: ReleasePhase)
    requires Wf(k) && l in k.locks && ReleaseStep(k, l, phase).Next?
    ensures Frame(k, ReleaseStep(k, l, phase).k)
  {
    if phase == Up && k.locks[l].waiters != [] {
      UnblockFrame(SetLock(SetCur(k, Undone(Cur(k), l)), l,
                           k.locks[l].(value := k.locks[l].value + 1, waiters := k.locks[l].waiters[1..])), k.locks[l].waiters[0]);
    }
    hide ThreadUnblock;
  }

  lemma RingTestFrame(k: Kernel)
    requires Wf(k) && RingTestStep(k).Next?
    ensures Frame(k, RingTestStep(k).k)
  {
    var done := SetCur(k, Done(Cur(k)));
    hide WakeConsumer, WakeProducer;
    match Cur(k).ring
    case Put(b) => WakeFrame(done.(ring := Store(k.ring, b)));
    case Get => WakeFrame(done.(ring := Fetch(k.ring)));
    case NoRing =>
  }

  lemma RingWaitFrame(k: Kernel)
    requires Wf(k) && RingWaitStep(k).Next?
    ensures Frame(k, RingWaitStep(k).k)
  {
    var k1 := SetCur(k, Cur(k).(pc := RingSleep));
    BlockFrame(k, k1.(ring := k.ring.(producer := Some(k.current))), Blocked);
    BlockFrame(k, k1.(ring := k.ring.(consumer := Some(k.current))), Blocked);
    hide ThreadBlock;
  }

  lemma KeyFrame(k: Kernel, b: Byte)
    requires Wf(k) && KeyInterrupt(k, b).Next?
    ensures Frame(k, KeyInterrupt(k, b).k) && KeyInterrupt(k, b).k.threads[k.current].pc == Cur(k).pc
  {
    WakeFrame(k.(ring := Store(k.ring, b)));
    hide WakeConsumer;
  }

  lemma ExecFrame(k: Kernel)
    requires Wf(k) && ExecStep(k).Next?
    ensures Frame(k, ExecStep(k).k)
  {
    hide AcquireStep, ReleaseStep, RingTestStep, RingWaitStep;
    match Cur(k).pc
    case Acquire(l, phase) => AcquireFrame(k, l, phase);
    case Release(l, phase) => ReleaseFrame(k, l, phase);
    case RingTest => RingTestFrame(k);
    case RingWait => RingWaitFrame(k);
    case _ =>
  }

  /** A step changes no other thread's program counter, and only adds to what was stored and fetched. */
  lemma StepFrame(k: Kernel, a: Action)
    requires Wf(k) && Enabled(k, a) && Step(k, a).Next?
    ensures Frame(k, Step(k, a).k)
    ensures Cur(k).pc == User && !MayBlock(a) ==>
      k.current in Step(k, a).k.threads && Step(k, a).k.threads[k.current].pc == User
  {
    hide ExecStep, KeyInterrupt, ThreadUnblock, ClockInterrupt, ThreadBlock;
    match a
    case Clock => ClockFrame(k);
    case Key(b) => KeyFrame(k, b);
    case Exec => ExecFrame(k);
    case Sleep(stat) => BlockFrame(k, SetCur(k, Cur(k).(pc := Asleep)), stat);
    case Wake(w) => UnblockFrame(k, w);
    case _ =>
  }

  /** The thread is in its own code, as one that never blocks always is. */
  ghost predicate Idles(k: Kernel, idle: Tid) {
    idle in k.threads && k.threads[idle].pc == User
  }

  lemma IdleReady(k: Kernel, idle: Tid)
    requires Core(k) && Idles(k, idle) && idle != k.current
    ensures idle in k.ready
  {
    assert ThreadOk(k.threads[idle], k.locks.Keys);
  }

  lemma IdleStays(k: Kernel, a: Action)
    requires Wf(k) && Cur(k).pc == User && !MayBlock(a)
    ensures !GivesUp(k, a)
  {
  }

  /** While one thread never blocks, no ASSERT fails at all. */
  lemma IdleStep(k: Kernel, a: Action, idle: Tid)
    requires Inv(k) && Wf(k) && Enabled(k, a) && Idles(k, idle)
    requires k.current == idle ==> !MayBlock(a)
    ensures Step(k, a).Next? && Inv(Step(k, a).k) && Idles(Step(k, a).k, idle)
  {
    hide Core, Wf, Step, Enabled;
    KnowRing(k);
    StepSafe(k, a);
    EmptyExactly(k, a);
    if k.current == idle { IdleStays(k, a); } else { IdleReady(k, idle); }
    StepFrame(k, a);
  }

  // ---------------------------------------------------------------- runs

  /** Each action is enabled in the state it finds. */
  ghost predicate Legal(k: Kernel, acts: seq<Action>)
    decreases |acts|
  {
    Wf(k) && (acts != [] ==>
      Enabled(k, acts[0]) && (Step(k, acts[0]).Next? ==> Legal(Step(k, acts[0]).k, acts[1..])))
  }

  ghost function Run(k: Kernel, acts: seq<Action>): Outcome
    requires Legal(k, acts)
    decreases |acts|
  {
    if acts == [] then Next(k)
    else
      match Step(k, acts[0])
      case Next(k1) => Run(k1, acts[1..])
      case Failed(a) => Failed(a)
  }

  /** Somewhere along the run the running thread gives up the processor and no other thread is ready. */
  ghost predicate Starves(k: Kernel, acts: seq<Action>)
    requires Legal(k, acts)
    decreases |acts|
  {
    && acts != []
    && ((k.ready == [] && GivesUp(k, acts[0])) || (Step(k, acts[0]).Next? && Starves(Step(k, acts[0]).k, acts[1..])))
  }

  /** A run keeps the invariant to its end unless it starves; if it does, the ASSERT on the ready list fails,
      and no other ever can. */
  lemma {:induction false} RunSafe(k: Kernel, acts: seq<Action>)
    requires Inv(k) && Legal(k, acts)
    ensures Safe(Run(k, acts))
    ensures Run(k, acts) == Failed(ReadyListEmpty) <==> Starves(k, acts)
    decreases |acts|
  {
    hide Core, Wf, Step, Enabled, GivesUp;
    if acts != [] {
      StepSafe(k, acts[0]);
      EmptyExactly(k, acts[0]);
      if Step(k, acts[0]).Next? {
        RunSafe(Step(k, acts[0]).k, acts[1..]);
      }
    }
  }

  /** `idle` starts nothing that can block, all along the run. */
  ghost predicate NeverBlocks(k: Kernel, acts: seq<Action>, idle: Tid)
    requires Legal(k, acts)
    decreases |acts|
  {
    acts != [] ==>
      && (k.current == idle ==> !MayBlock(acts[0]))
      && (Step(k, acts[0]).Next? ==> NeverBlocks(Step(k, acts[0]).k, acts[1..], idle))
  }

  /** Main result: from boot, with main as the thread that never blocks, no ASSERT in thread.c,
      sync.c or ioqueue.c ever fails, whatever the threads and the interrupts do. */
  lemma {:induction false} BootRunSafe(main: Tid, locks: set<LockId>, acts: seq<Action>)
    requires Legal(Boot(main, locks), acts) && NeverBlocks(Boot(main, locks), acts, main)
    ensures Run(Boot(main, locks), acts).Next? && Inv(Run(Boot(main, locks), acts).k)
  {
    BootInv(main, locks);
    IdleRun(Boot(main, locks), acts, main);
  }

  lemma {:induction false} IdleRun(k: Kernel, acts: seq<Action>, idle: Tid)
    requires Inv(k) && Legal(k, acts) && Idles(k, idle) && NeverBlocks(k, acts, idle)
    ensures Run(k, acts).Next? && Inv(Run(k, acts).k)
    decreases |acts|
  {
    hide Core, Wf, Step, Enabled, Idles;
    if acts != [] {
      IdleStep(k, acts[0], idle);
      IdleRun(Step(k, acts[0]).k, acts[1..], idle);
    }
  }

  // ---------------------------------------------------------------- what the invariant says

  ghost function Owners(k: Kernel, l: LockId): set<Tid> {
    set t | t in k.threads && Owns(k.threads[t], l)
  }

  /** value plus the threads past sema_down and not yet through sema_up is always 1. */
  lemma MutualExclusion(k: Kernel, l: LockId)
    requires Inv(k) && l in k.locks
    ensures |Owners(k, l)| + k.locks[l].value == 1
  {
    assert LockOk(k.threads, l, k.locks[l]);
    if k.locks[l].value == 0 {
      var t :| t in k.threads && Owns(k.threads[t], l);
      assert Owners(k, l) == {t};
    } else {
      assert Owners(k, l) == {};
    }
  }

  /** The points inside lock_acquire and lock_release of l between the writes to its fields. */
  predicate Between(pc: Pc, l: LockId) {
    pc == Acquire(l, SetRepeat) || pc == Release(l, ClearRepeat) || pc == Release(l, Up)
  }

  /** But between those writes, a thread is the recorded holder just when it has acquires outstanding, and
      holder_repeat_nr is their number; between them, the fields are what has been written so far. */
  lemma HolderDepth(k: Kernel, l: LockId, t: Tid)
    requires Inv(k) && l in k.locks && t in k.threads
    ensures var th, lock := k.threads[t], k.locks[l];
      && (!Between(th.pc, l) ==> (lock.holder == Some(t) <==> Depth(th, l) >= 1))
      && (!Between(th.pc, l) && lock.holder == Some(t) ==> lock.repeat == Depth(th, l))
      && (th.pc == Acquire(l, SetRepeat) ==> lock.holder == Some(t) && lock.repeat == 0 && Depth(th, l) == 0)
      && (th.pc == Release(l, ClearRepeat) ==> lock.holder == None && lock.repeat == 1 && Depth(th, l) == 1)
      && (th.pc == Release(l, Up) ==> lock.holder == None && lock.repeat == 0 && Depth(th, l) == 1)
    ensures k.locks[l].holder == Some(t) || Depth(k.threads[t], l) >= 1 ==>
      forall u :: u in k.threads && u != t ==> Depth(k.threads[u], l) == 0
  {
    assert LockOk(k.threads, l, k.locks[l]);
    KnowThread(k, t);
    if k.locks[l].holder == Some(t) {
      HolderOwns(k.threads, l, k.locks[l], t);
    }
    if Owns(k.threads[t], l) {
      assert Holds(k.threads[t], t, l, k.locks[l]);
      forall u | u in k.threads && u != t
        ensures Depth(k.threads[u], l) == 0
      {
        assert Owns(k.threads[u], l) ==> t == u;
      }
    }
  }

  /** How many times a thread's general_tag occurs in the ready list and a waiters list together is
      at most one, and which list it is in is what its status says. */
  lemma QueueOwnership(k: Kernel, t: Tid, l: LockId, m: LockId)
    requires Inv(k) && t in k.threads && l in k.locks && m in k.locks
    ensures k.threads[t].status == Running <==> t == k.current
    ensures t in k.ready <==> k.threads[t].status == Ready
    ensures t in k.locks[l].waiters <==> WaitsFor(k.threads[t], l)
    ensures !(t in k.ready && t in k.locks[l].waiters)
    ensures t in k.locks[l].waiters && t in k.locks[m].waiters ==> l == m
    ensures t == k.current ==> t !in k.ready && t !in k.locks[l].waiters
    ensures multiset(k.ready)[t] <= 1 && multiset(k.locks[l].waiters)[t] <= 1
  {
    assert WaitersExact(k.threads, l, k.locks[l].waiters) && WaitersExact(k.threads, m, k.locks[m].waiters);
    NoDupOnce(k.ready, t);
    NoDupOnce(k.locks[l].waiters, t);
  }

  /** At most one thread sleeps in ioq_wait; it is BLOCKED, holds the ring's lock once, and is in no queue. */
  lemma RingSleepers(k: Kernel, t: Tid, l: LockId)
    requires Inv(k) && l in k.locks
    requires k.ring.producer == Some(t) || k.ring.consumer == Some(t)
    ensures k.ring.producer == None || k.ring.consumer == None
    ensures t in k.threads && k.threads[t].status == Blocked
    ensures k.locks[RING].holder == Some(t) && k.locks[RING].repeat == 1
    ensures t !in k.ready && t !in k.locks[l].waiters
  {
    hide Core;
    KnowSleepers(k);
    KnowThread(k, t);
    QueueOwnership(k, t, l, RING);
    HolderDepth(k, RING, t);
    if k.ring.producer.Some? && k.ring.consumer.Some? {
      ProducerAsleep(k);
      ConsumerAsleep(k);
      KnowThread(k, if k.ring.producer == Some(t) then k.ring.consumer.value else k.ring.producer.value);
    }
  }

  lemma RingBounds(r: Ring)
    requires RingOk(r)
    ensures |r.got| <= |r.put| && r.got == r.put[..|r.got|] && Contents(r) == r.put[|r.got|..]
    ensures |Contents(r)| <= 63
    ensures Full(r) <==> |Contents(r)| == 63
    ensures Empty(r) <==> Contents(r) == []
  {
    assert NextPos(r.head) == if r.head + 1 == BUFSIZE then 0 else r.head + 1;
    assert |Contents(r)| == Occupancy(r);
  }

  /** The bytes fetched are, in order, the first of the bytes stored; the rest is the buffer from tail to head. */
  lemma RingFifo(k: Kernel)
    requires Inv(k)
    ensures RingOk(k.ring)
    ensures k.ring.got <= k.ring.put && Contents(k.ring) == k.ring.put[|k.ring.got|..]
    ensures |Contents(k.ring)| <= 63
    ensures Full(k.ring) <==> |Contents(k.ring)| == 63
    ensures Empty(k.ring) <==> Contents(k.ring) == []
  {
    hide Core, RingOk, Contents;
    KnowRing(k);
    RingBounds(k.ring);
  }

  /** In every state any run from boot reaches: one owner or a free semaphore, and the bytes in order. */
  lemma {:induction false} EveryRun(main: Tid, locks: set<LockId>, acts: seq<Action>, l: LockId)
    requires Legal(Boot(main, locks), acts) && Run(Boot(main, locks), acts).Next?
    ensures var k := Run(Boot(main, locks), acts).k;
      && (l in k.locks ==> |Owners(k, l)| + k.locks[l].value == 1)
      && k.ring.got <= k.ring.put && |k.ring.put| - |k.ring.got| <= 63
  {
    hide Boot, Run, Legal, Inv, Owners, RingOk;
    BootInv(main, locks);
    RunSafe(Boot(main, locks), acts);
    var k := Run(Boot(main, locks), acts).k;
    if l in k.locks { MutualExclusion(k, l); }
    RingFifo(k);
  }
}
