/**
  The ring buffer's steps, the clock, thread_start, and with them every step of the kernel.
*/
module KernelRing {
  import opened Common
  import opened KernelModel
  import opened KernelInv
  import opened KernelSteps

  // ---------------------------------------------------------------- the buffer itself

  lemma StoreOk(r: Ring, b: Byte)
    requires RingOk(r) && !Full(r)
    ensures RingOk(Store(r, b)) && Contents(Store(r, b)) == Contents(r) + [b]
  {
    var r' := Store(r, b);
    assert NextPos(r.head) == if r.head + 1 == BUFSIZE then 0 else r.head + 1;
    assert Occupancy(r') == Occupancy(r) + 1;
    assert Contents(r') == Contents(r) + [b];
  }

  lemma FetchOk(r: Ring)
    requires RingOk(r) && !Empty(r)
    ensures RingOk(Fetch(r)) && Contents(r) == [r.buf[r.tail]] + Contents(Fetch(r))
  {
    var r' := Fetch(r);
    assert NextPos(r.tail) == if r.tail + 1 == BUFSIZE then 0 else r.tail + 1;
    assert Occupancy(r') == Occupancy(r) - 1;
    assert Contents(r) == [r.buf[r.tail]] + Contents(r');
    assert r.got + ([r.buf[r.tail]] + Contents(r')) == r.got + [r.buf[r.tail]] + Contents(r');
  }

  // ---------------------------------------------------------------- moves between plain positions

  /** Positions at which owning a lock means having acquired it, and the owner is recorded. */
  predicate Plain(pc: Pc) {
    (pc.Acquire? ==> pc.acquire == Test) && (pc.Release? ==> pc.release == Check)
  }

  lemma PlainSame(a: Thread, b: Thread, locks: set<LockId>)
    requires Plain(a.pc) && Plain(b.pc) && a.depth == b.depth
    ensures forall m :: m in locks ==> SameView(a, b, m) && !WaitsFor(b, m)
  {
  }

  lemma KnowThread(k: Kernel, t: Tid)
    requires Core(k) && t in k.threads
    ensures ThreadOk(k.threads[t], k.locks.Keys)
  {
  }

  /** The running thread moves between plain positions and the ring changes with it. */
  ghost predicate GoodPlain(k: Kernel, b: Thread, ring': Ring)
    requires k.current in k.threads
  {
    && Plain(Cur(k).pc) && Plain(b.pc) && Cur(k).depth == b.depth
    && b.status != Ready && ThreadOk(b, k.locks.Keys) && RingOk(ring')
    && (if SleepsAsProducer(b) then k.ring.producer == None && ring'.producer == Some(k.current)
        else ring'.producer == k.ring.producer)
    && (if SleepsAsConsumer(b) then k.ring.consumer == None && ring'.consumer == Some(k.current)
        else ring'.consumer == k.ring.consumer)
  }

  lemma PlainGood(k: Kernel, b: Thread, ring': Ring)
    requires Inv(k) && GoodPlain(k, b, ring')
    ensures RING in k.locks && GoodMove(k, b, RING, k.locks[RING], ring')
  {
    hide Core, ThreadOk, SameView, RingOk, LockMove, SleepsAsProducer, SleepsAsConsumer, WaitsFor;
    KnowRing(k);
    PlainSame(Cur(k), b, k.locks.Keys);
    LockMoveSame(k, b, RING);
  }

  lemma PlainMove(k: Kernel, b: Thread, ring': Ring)
    requires Inv(k) && GoodPlain(k, b, ring')
    ensures Core(SetCur(k, b).(ring := ring'))
  {
    hide Core, GoodMove;
    KnowRing(k);
    PlainGood(k, b, ring');
    hide GoodPlain;
    MoveCore(k, b, RING, k.locks[RING], ring');
    assert k.locks[RING := k.locks[RING]] == k.locks;
  }

  /** A step between plain positions that leaves the ring alone. */
  lemma PlainStep(k: Kernel, b: Thread)
    requires Inv(k) && Plain(Cur(k).pc) && Plain(b.pc) && b.depth == Cur(k).depth
    requires b.status == Running && ThreadOk(b, k.locks.Keys)
    ensures Inv(SetCur(k, b))
  {
    hide Core, ThreadOk, RingOk;
    KnowRing(k);
    assert GoodPlain(k, b, k.ring);
    hide GoodPlain;
    PlainMove(k, b, k.ring);
    assert SetCur(k, b).(ring := k.ring) == SetCur(k, b);
  }

  // ---------------------------------------------------------------- ioqueue.c

  lemma ConsumerAsleep(k: Kernel)
    requires Core(k) && k.ring.consumer.Some?
    ensures k.ring.consumer.value in k.threads && SleepsAsConsumer(k.threads[k.ring.consumer.value])
  {
  }

  lemma ProducerAsleep(k: Kernel)
    requires Core(k) && k.ring.producer.Some?
    ensures k.ring.producer.value in k.threads && SleepsAsProducer(k.threads[k.ring.producer.value])
  {
  }

  lemma WakeConsumerSafe(k: Kernel)
    requires Inv(k)
    ensures k.ring.consumer.Some? ==> k.ring.consumer.value in k.threads
    ensures WakeConsumer(k).Next? && Safe(WakeConsumer(k))
  {
    hide Core;
    if k.ring.consumer.Some? {
      ConsumerAsleep(k);
      WakeFree(k, k.ring.consumer.value, k.ring.(consumer := None));
    }
  }

  lemma WakeProducerSafe(k: Kernel)
    requires Inv(k)
    ensures k.ring.producer.Some? ==> k.ring.producer.value in k.threads
    ensures WakeProducer(k).Next? && Safe(WakeProducer(k))
  {
    hide Core;
    if k.ring.producer.Some? {
      ProducerAsleep(k);
      WakeFree(k, k.ring.producer.value, k.ring.(producer := None));
    }
  }

  /** The thread once its ring operation is done. */
  function Done(t: Thread): Thread {
    t.(pc := User, ring := NoRing)
  }

  lemma DoneOk(t: Thread, locks: set<LockId>)
    requires ThreadOk(t, locks) && t.status == Running && t.pc == RingTest
    ensures ThreadOk(Done(t), locks) && !t.intr && t.ring != NoRing
    ensures RING in locks ==> ThreadOk(t.(pc := Acquire(RING, Test)), locks)
  {
  }

  lemma TransferSafe(k: Kernel, ring': Ring)
    requires Inv(k) && Cur(k).pc == RingTest && RingOk(ring')
    requires ring'.producer == k.ring.producer && ring'.consumer == k.ring.consumer
    ensures Inv(SetCur(k, Done(Cur(k))).(ring := ring'))
  {
    hide Core, ThreadOk, RingOk;
    KnowRing(k);
    KnowThread(k, k.current);
    DoneOk(Cur(k), k.locks.Keys);
    assert GoodPlain(k, Done(Cur(k)), ring');
    hide GoodPlain;
    PlainMove(k, Done(Cur(k)), ring');
  }

  lemma MustWait(k: Kernel)
    requires Inv(k) && Cur(k).pc == RingTest
    ensures Inv(SetCur(k, Cur(k).(pc := Acquire(RING, Test))))
  {
    hide Core, ThreadOk;
    KnowRing(k);
    KnowThread(k, k.current);
    DoneOk(Cur(k), k.locks.Keys);
    PlainStep(k, Cur(k).(pc := Acquire(RING, Test)));
  }

  lemma RingTestSafe(k: Kernel)
    requires Inv(k) && Wf(k) && Cur(k).pc == RingTest
    ensures Safe(RingTestStep(k))
  {
    hide Core, Wf, ThreadOk, RingOk, WakeConsumer, WakeProducer;
    KnowRing(k);
    KnowThread(k, k.current);
    DoneOk(Cur(k), k.locks.Keys);
    match Cur(k).ring
    case Put(b) =>
      if Full(k.ring) {
        MustWait(k);
      } else {
        StoreOk(k.ring, b);
        TransferSafe(k, Store(k.ring, b));
        WakeConsumerSafe(SetCur(k, Done(Cur(k))).(ring := Store(k.ring, b)));
      }
    case Get =>
      if Empty(k.ring) {
        MustWait(k);
      } else {
        FetchOk(k.ring);
        TransferSafe(k, Fetch(k.ring));
        WakeProducerSafe(SetCur(k, Done(Cur(k))).(ring := Fetch(k.ring)));
      }
    case NoRing => assert false;
  }

  lemma KnowSleepers(k: Kernel)
    requires Core(k)
    ensures RING in k.locks && LockOk(k.threads, RING, k.locks[RING])
    ensures Sleepers(k.threads, k.ring.producer, k.ring.consumer)
  {
  }

  lemma SoleOwner(k: Kernel, l: LockId, t: Tid, u: Tid)
    requires Core(k) && l in k.locks && t in k.threads && u in k.threads
    requires Owns(k.threads[t], l) && Owns(k.threads[u], l)
    ensures t == u
  {
    assert LockOk(k.threads, l, k.locks[l]);
  }

  /** Whoever sleeps in ioq_wait owns the ring's lock, so nobody else can be at ioq_wait. */
  lemma NobodyWaits(k: Kernel)
    requires Inv(k) && Cur(k).pc == RingWait
    ensures k.ring.producer == None && k.ring.consumer == None
  {
    hide Core, Holds;
    KnowRing(k);
    KnowSleepers(k);
    KnowThread(k, k.current);
    if k.ring.producer.Some? {
      ProducerAsleep(k);
      KnowThread(k, k.ring.producer.value);
      SoleOwner(k, RING, k.ring.producer.value, k.current);
    }
    if k.ring.consumer.Some? {
      ConsumerAsleep(k);
      KnowThread(k, k.ring.consumer.value);
      SoleOwner(k, RING, k.ring.consumer.value, k.current);
    }
  }

  /** ioq_wait just before it gives up the processor. */
  function RingWaiting(k: Kernel): Kernel
    requires k.current in k.threads
  {
    var b := Cur(k).(pc := RingSleep, status := Blocked);
    SetCur(k, b).(ring := if b.ring.Put? then k.ring.(producer := Some(k.current)) else k.ring.(consumer := Some(k.current)))
  }

  lemma SleepOk(t: Thread, locks: set<LockId>)
    requires ThreadOk(t, locks) && t.status == Running && t.pc == RingWait
    ensures ThreadOk(t.(pc := RingSleep, status := Blocked), locks)
    ensures t.ring.Put? || t.ring.Get?
  {
  }

  lemma RingWaitEq(k: Kernel)
    requires Wf(k) && k.ring.producer == None && k.ring.consumer == None
    ensures (forall t :: t in k.ready ==> t in k.threads) && RingWaitStep(k) == Schedule(RingWaiting(k))
  {
    var t := Cur(k);
    var k1 := SetCur(k, t.(pc := RingSleep));
    var b := t.(pc := RingSleep, status := Blocked);
    assert k1.threads[k.current := b] == k.threads[k.current := b];
  }

  lemma RingWaitSafe(k: Kernel)
    requires Inv(k) && Wf(k) && Cur(k).pc == RingWait
    ensures Safe(RingWaitStep(k))
  {
    hide Core, Wf, ThreadOk, RingOk;
    KnowRing(k);
    KnowThread(k, k.current);
    NobodyWaits(k);
    RingWaitEq(k);
    hide RingWaitStep;
    SleepOk(Cur(k), k.locks.Keys);
    var w := RingWaiting(k);
    RingOkWaiters(k.ring, w.ring);
    assert GoodPlain(k, Cur(w), w.ring);
    hide GoodPlain;
    PlainMove(k, Cur(w), w.ring);
    assert SetCur(k, Cur(w)).(ring := w.ring) == w;
    ScheduleSafe(w);
  }

  lemma RingOnly(k: Kernel, ring': Ring)
    requires Inv(k) && RingOk(ring') && ring'.producer == k.ring.producer && ring'.consumer == k.ring.consumer
    ensures Inv(k.(ring := ring'))
  {
  }

  lemma KeySafe(k: Kernel, b: Byte)
    requires Inv(k) && Wf(k)
    ensures KeyInterrupt(k, b).Next? && Safe(KeyInterrupt(k, b))
  {
    hide Core, Wf, RingOk, WakeConsumer;
    KnowRing(k);
    if !Full(k.ring) {
      StoreOk(k.ring, b);
      RingOnly(k, Store(k.ring, b));
      WakeConsumerSafe(k.(ring := Store(k.ring, b)));
    }
  }

  // ---------------------------------------------------------------- thread.c, timer.c

  lemma SleepEq(k: Kernel, stat: Status)
    requires Wf(k) && Sleeping(stat)
    ensures var b := Cur(k).(pc := Asleep, status := stat);
      ThreadBlock(SetCur(k, Cur(k).(pc := Asleep)), stat) == Schedule(SetCur(k, b))
  {
    var b := Cur(k).(pc := Asleep, status := stat);
    var k1 := SetCur(k, Cur(k).(pc := Asleep));
    assert k1.threads[k.current := b] == k.threads[k.current := b];
    assert SetCur(k1, Cur(k1).(status := stat)) == SetCur(k, b);
  }

  lemma AsleepOk(t: Thread, stat: Status, locks: set<LockId>)
    requires ThreadOk(t, locks) && t.pc == User && Sleeping(stat)
    ensures ThreadOk(t.(pc := Asleep, status := stat), locks)
  {
  }

  lemma SleepMove(k: Kernel, stat: Status)
    requires Inv(k) && Cur(k).pc == User && Sleeping(stat)
    ensures Core(SetCur(k, Cur(k).(pc := Asleep, status := stat)))
  {
    var b := Cur(k).(pc := Asleep, status := stat);
    hide Core, RingOk, ThreadOk;
    KnowRing(k);
    KnowThread(k, k.current);
    AsleepOk(Cur(k), stat, k.locks.Keys);
    assert GoodPlain(k, b, k.ring);
    hide GoodPlain;
    PlainMove(k, b, k.ring);
    assert SetCur(k, b).(ring := k.ring) == SetCur(k, b);
  }

  lemma SleepSafe(k: Kernel, stat: Status)
    requires Inv(k) && Wf(k) && Cur(k).pc == User && Sleeping(stat)
    ensures Safe(ThreadBlock(SetCur(k, Cur(k).(pc := Asleep)), stat))
  {
    hide Core, Wf, ThreadBlock, Schedule;
    KnowRing(k);
    SleepMove(k, stat);
    SleepEq(k, stat);
    ScheduleSafe(SetCur(k, Cur(k).(pc := Asleep, status := stat)));
  }

  lemma WakeSafe(k: Kernel, w: Tid)
    requires Inv(k) && w in k.threads && k.threads[w].pc == Asleep && Sleeping(k.threads[w].status)
    ensures ThreadUnblock(k, w).Next? && Safe(ThreadUnblock(k, w))
  {
    hide Core;
    WakeFree(k, w, k.ring);
  }

  /** The clock's accounting on the running thread. */
  lemma AccountInv(k: Kernel, b: Thread, n: nat)
    requires Inv(k) && SameButScheduling(Cur(k), b) && b.status == Running
    ensures Inv(SetCur(k, b).(ticks := n))
  {
    hide Threads, Locks, Sleepers, RingOk, WaitersExact, Rescheduled, NoDup, ReadyExact, SameButScheduling;
    RescheduledOne(k.threads, k.current, b);
    CoreRescheduled(k, SetCur(k, b).(ticks := n));
    ReadyMove(k.threads, k.ready, k.current, b);
  }

  /** The state the clock handler has reached when it looks at the time slice. */
  function Counted(k: Kernel): Kernel
    requires k.current in k.threads
  {
    SetCur(k, Cur(k).(elapsed := Cur(k).elapsed + 1)).(ticks := k.ticks + 1)
  }

  lemma CountedInv(k: Kernel)
    requires Inv(k)
    ensures Inv(Counted(k)) && Cur(Counted(k)) == Cur(k).(elapsed := Cur(k).elapsed + 1)
  {
    hide Core;
    KnowRing(k);
    AccountInv(k, Cur(k).(elapsed := Cur(k).elapsed + 1), k.ticks + 1);
  }

  lemma SliceInv(k: Kernel)
    requires Inv(k) && Cur(k).ticks > 0
    ensures Inv(SetCur(k, Cur(k).(ticks := Cur(k).ticks - 1)))
  {
    hide Core;
    KnowRing(k);
    AccountInv(k, Cur(k).(ticks := Cur(k).ticks - 1), k.ticks);
  }

  lemma ClockSafe(k: Kernel)
    requires Inv(k) && Wf(k)
    ensures ClockInterrupt(k).Next? && Inv(ClockInterrupt(k).k)
  {
    hide Core, Wf, Schedule;
    KnowRing(k);
    CountedInv(k);
    if Cur(k).ticks == 0 {
      ScheduleSafe(Counted(k));
    } else {
      SliceInv(Counted(k));
    }
  }

  function Fresh(prio: nat): Thread {
    Thread(Ready, prio, prio, 0, true, User, NoRing, map[])
  }

  function Started(k: Kernel, n: Tid, prio: nat): Kernel {
    k.(ready := k.ready + [n], all := k.all + [n], threads := k.threads[n := Fresh(prio)])
  }

  lemma StartLocks(k: Kernel, n: Tid, prio: nat, l: LockId)
    requires n !in k.threads && l in k.locks
    requires LockOk(k.threads, l, k.locks[l]) && WaitersExact(k.threads, l, k.locks[l].waiters)
    ensures LockOk(Started(k, n, prio).threads, l, k.locks[l])
    ensures WaitersExact(Started(k, n, prio).threads, l, k.locks[l].waiters)
  {
    var threads' := Started(k, n, prio).threads;
    if k.locks[l].value == 0 {
      var t :| t in k.threads && Owns(k.threads[t], l);
      assert t in threads' && Owns(threads'[t], l);
    }
  }

  lemma StartReady(threads: map<Tid, Thread>, ready: seq<Tid>, n: Tid, prio: nat)
    requires ReadyExact(threads, ready) && n !in threads
    ensures n !in ready && ReadyExact(threads[n := Fresh(prio)], ready + [n])
  {
    ReadyJoins(threads, ready, n, Fresh(prio));
  }

  lemma StartRest(k: Kernel, n: Tid, prio: nat)
    requires Threads(k) && Sleepers(k.threads, k.ring.producer, k.ring.consumer) && n !in k.threads
    ensures Threads(Started(k, n, prio))
    ensures Sleepers(Started(k, n, prio).threads, k.ring.producer, k.ring.consumer)
  {
    var k' := Started(k, n, prio);
    forall t | t in k'.threads
      ensures ThreadOk(k'.threads[t], k'.locks.Keys)
    {
      assert t != n ==> ThreadOk(k.threads[t], k.locks.Keys);
    }
  }

  lemma StartQueues(k: Kernel, n: Tid, prio: nat)
    requires Queues(k) && n !in k.threads
    ensures n !in k.ready && n !in k.all
    ensures (forall l :: l in k.locks ==> WaitersExact(Started(k, n, prio).threads, l, k.locks[l].waiters)) ==>
      Queues(Started(k, n, prio))
  {
    hide ReadyExact, WaitersExact, NoDup;
    StartReady(k.threads, k.ready, n, prio);
    NoDupAdd(k.all, n);
  }

  lemma StartSafe(k: Kernel, n: Tid, prio: nat)
    requires Inv(k) && n !in k.threads
    ensures ThreadStart(k, n, prio).Next? && Safe(ThreadStart(k, n, prio))
  {
    hide Threads, Sleepers, RingOk, ReadyExact, LockOk, WaitersExact, NoDup;
    StartRest(k, n, prio);
    StartQueues(k, n, prio);
    forall l | l in k.locks
      ensures LockOk(Started(k, n, prio).threads, l, k.locks[l])
      ensures WaitersExact(Started(k, n, prio).threads, l, k.locks[l].waiters)
    {
      StartLocks(k, n, prio, l);
    }
  }
}
