/**
  The invariant of the kernel state machine, in four parts, and its preservation by every step.
*/
module KernelInv {
  import opened Common
  import opened KernelModel

  // ---------------------------------------------------------------- queues

  /** Asleep in the waiters list of lock l. */
  predicate WaitsFor(t: Thread, l: LockId) {
    t.status == Blocked && t.pc == Acquire(l, Retry)
  }

  /** Only the current thread can be RUNNING, the ready list holds exactly the READY threads,
      each waiters list exactly the threads blocked in that lock, no list has a repeat. */
  ghost predicate Queues(k: Kernel) {
    && k.current in k.threads
    && (forall t {:trigger k.threads[t]} :: t in k.threads && k.threads[t].status == Running ==> t == k.current)
    && ReadyExact(k.threads, k.ready)
    && NoDup(k.all)
    && (forall t :: t in k.all <==> t in k.threads)
    && (forall l {:trigger WaitersExact(k.threads, l, k.locks[l].waiters)} :: l in k.locks ==> WaitersExact(k.threads, l, k.locks[l].waiters))
  }

  ghost predicate ReadyExact(threads: map<Tid, Thread>, ready: seq<Tid>) {
    && NoDup(ready)
    && (forall t {:trigger t in ready} :: t in ready ==> t in threads && threads[t].status == Ready)
    && (forall t {:trigger threads[t]} :: t in threads && threads[t].status == Ready ==> t in ready)
  }

  ghost predicate WaitersExact(threads: map<Tid, Thread>, l: LockId, waiters: seq<Tid>) {
    && NoDup(waiters)
    && (forall t {:trigger t in waiters} :: t in waiters ==> t in threads && WaitsFor(threads[t], l))
    && (forall t {:trigger threads[t]} :: t in threads && WaitsFor(threads[t], l) ==> t in waiters)
  }

  // ---------------------------------------------------------------- each thread on its own

  /** The program counter, the ring operation, the nesting depths and the status agree. */
  predicate ThreadOk(t: Thread, locks: set<LockId>) {
    && t.status != Died
    && (t.pc.Acquire? ==> t.pc.lock in locks && (t.pc.lock == RING <==> t.ring != NoRing))
    && (t.pc.Release? ==> t.pc.lock in locks && (t.pc.lock == RING <==> t.ring != NoRing))
    && (t.pc == User || t.pc == Asleep ==> t.ring == NoRing)
    && (t.pc == RingTest || t.pc == RingWait || t.pc == RingSleep ==> t.ring != NoRing)
    && (t.ring != NoRing ==> !t.intr)
    && (t.pc.Acquire? && t.pc.acquire != Test ==> (Depth(t, t.pc.lock) == 0 <==> t.pc.acquire != Again))
    && (t.pc.Release? ==> ReleaseDepthOk(Depth(t, t.pc.lock), t.pc.release))
    && Depth(t, RING) == (if t.pc == RingWait || t.pc == RingSleep || (t.pc.Release? && t.pc.lock == RING) then 1 else 0)
    && (Sleeping(t.status) ==> t.pc == Asleep || t.pc == RingSleep || (t.pc.Acquire? && t.pc.acquire == Retry))
    && (t.status == Waiting || t.status == Hanging ==> t.pc == Asleep)
  }

  predicate ReleaseDepthOk(d: nat, phase: ReleasePhase) {
    match phase
    case Check => d >= 1
    case Dec => d >= 2
    case _ => d == 1
  }

  ghost predicate Threads(k: Kernel) {
    forall t {:trigger ThreadOk(k.threads[t], k.locks.Keys)} :: t in k.threads ==> ThreadOk(k.threads[t], k.locks.Keys)
  }

  // ---------------------------------------------------------------- locks

  /** Past sema_down and not yet through sema_up. */
  predicate Owns(t: Thread, l: LockId) {
    Depth(t, l) >= 1 || t.pc == Acquire(l, SetHolder) || t.pc == Acquire(l, SetRepeat)
  }

  /** The windows in which the owner is not, or no longer, the recorded holder. */
  predicate Unrecorded(t: Thread, l: LockId) {
    t.pc == Acquire(l, SetHolder) || t.pc == Release(l, ClearRepeat) || t.pc == Release(l, Up)
  }

  /** holder_repeat_nr as the owner's position dictates it. */
  function RepeatOf(t: Thread, l: LockId): nat {
    if t.pc == Acquire(l, SetHolder) || t.pc == Acquire(l, SetRepeat) || t.pc == Release(l, Up) then 0 else Depth(t, l)
  }

  predicate Holds(t: Thread, id: Tid, l: LockId, lock: Lock) {
    && lock.value == 0
    && lock.holder == (if Unrecorded(t, l) then None else Some(id))
    && lock.repeat == RepeatOf(t, l)
  }

  ghost predicate LockOk(threads: map<Tid, Thread>, l: LockId, lock: Lock) {
    && lock.value <= 1
    && (lock.value == 1 ==> lock.holder == None && lock.repeat == 0)
    && (lock.value == 0 ==> exists t :: t in threads && Owns(threads[t], l))
    && (forall t {:trigger threads[t]} :: t in threads && Owns(threads[t], l) ==> Holds(threads[t], t, l, lock))
    && (forall t, u {:trigger threads[t], threads[u]} ::
          t in threads && u in threads && Owns(threads[t], l) && Owns(threads[u], l) ==> t == u)
  }

  ghost predicate Locks(k: Kernel) {
    RING in k.locks && forall l {:trigger LockOk(k.threads, l, k.locks[l])} :: l in k.locks ==> LockOk(k.threads, l, k.locks[l])
  }

  // ---------------------------------------------------------------- ring

  function Occupancy(r: Ring): nat
    requires r.head < BUFSIZE && r.tail < BUFSIZE
  {
    if r.head >= r.tail then r.head - r.tail else r.head + BUFSIZE - r.tail
  }

  /** The bytes between tail and head, oldest first. */
  function Contents(r: Ring): seq<Byte>
    requires |r.buf| == BUFSIZE && r.head < BUFSIZE && r.tail < BUFSIZE
  {
    seq(Occupancy(r), i requires 0 <= i < Occupancy(r) =>
      if r.tail + i < BUFSIZE then r.buf[r.tail + i] else r.buf[r.tail + i - BUFSIZE])
  }

  ghost predicate RingOk(r: Ring) {
    && |r.buf| == BUFSIZE && r.head < BUFSIZE && r.tail < BUFSIZE
    && r.put == r.got + Contents(r)
  }

  predicate SleepsAsProducer(t: Thread) {
    t.status == Blocked && t.pc == RingSleep && t.ring.Put?
  }

  predicate SleepsAsConsumer(t: Thread) {
    t.status == Blocked && t.pc == RingSleep && t.ring.Get?
  }

  /** The two waiter fields name exactly the threads asleep in ioq_wait. */
  ghost predicate Sleepers(threads: map<Tid, Thread>, producer: Option<Tid>, consumer: Option<Tid>) {
    && (producer.Some? ==> producer.value in threads && SleepsAsProducer(threads[producer.value]))
    && (consumer.Some? ==> consumer.value in threads && SleepsAsConsumer(threads[consumer.value]))
    && (forall t {:trigger threads[t]} :: t in threads && SleepsAsProducer(threads[t]) ==> producer == Some(t))
    && (forall t {:trigger threads[t]} :: t in threads && SleepsAsConsumer(threads[t]) ==> consumer == Some(t))
  }

  /** Everything but the demand that the current thread is RUNNING. */
  ghost predicate Core(k: Kernel) {
    Queues(k) && Threads(k) && Locks(k) && RingOk(k.ring) && Sleepers(k.threads, k.ring.producer, k.ring.consumer)
  }

  ghost predicate Inv(k: Kernel) {
    Core(k) && k.threads[k.current].status == Running
  }

  lemma InvWf(k: Kernel)
    requires Core(k)
    ensures Wf(k)
  {
    forall l, t | l in k.locks && t in k.locks[l].waiters
      ensures t in k.threads
    {
      assert WaitersExact(k.threads, l, k.locks[l].waiters);
    }
    forall t | t in k.threads
      ensures ThreadOk(k.threads[t], k.locks.Keys)
    {
    }
  }

  lemma FreeLock(main: Tid, t: Thread, l: LockId)
    requires t.pc == User && t.depth == map[]
    ensures LockOk(map[main := t], l, Lock(None, 0, 1, [])) && WaitersExact(map[main := t], l, [])
  {
  }

  lemma BootLocks(main: Tid, locks: set<LockId>, l: LockId)
    requires l in locks + {RING}
    ensures var k := Boot(main, locks);
      l in k.locks && LockOk(k.threads, l, k.locks[l]) && WaitersExact(k.threads, l, k.locks[l].waiters)
  {
    hide LockOk, WaitersExact;
    var k := Boot(main, locks);
    FreeLock(main, k.threads[main], l);
  }

  lemma BootQueues(main: Tid, locks: set<LockId>)
    ensures var k := Boot(main, locks);
      && k.threads.Keys == {main} && k.locks.Keys == locks + {RING} && k.all == [main] && k.current == main
      && k.threads[main].status == Running && ReadyExact(k.threads, k.ready) && NoDup(k.all)
      && ThreadOk(k.threads[main], k.locks.Keys)
  {
  }

  lemma BootRing(main: Tid, locks: set<LockId>)
    ensures var k := Boot(main, locks); RingOk(k.ring) && Sleepers(k.threads, k.ring.producer, k.ring.consumer)
  {
    assert Contents(Boot(main, locks).ring) == [];
  }

  /** make_main_thread's ASSERT holds, and so does the invariant from then on. */
  lemma BootInv(main: Tid, locks: set<LockId>)
    ensures ListMain(Initialised(main, locks)) == Next(Boot(main, locks))
    ensures Inv(Boot(main, locks))
  {
    assert ListMain(Initialised(main, locks)) == Next(Boot(main, locks));
    hide Boot, Initialised, LockOk, WaitersExact, Contents, ThreadOk, ReadyExact, RingOk, Sleepers, NoDup;
    var k := Boot(main, locks);
    BootQueues(main, locks);
    BootRing(main, locks);
    forall l | l in k.locks
      ensures LockOk(k.threads, l, k.locks[l]) && WaitersExact(k.threads, l, k.locks[l].waiters)
    {
      BootLocks(main, locks, l);
    }
  }

  // ---------------------------------------------------------------- the scheduler's moves

  /** Threads as the locks, the ring's waiter fields and ThreadOk see them: all but the accounting,
      and RUNNING, READY told apart only from sleeping. */
  predicate SameButScheduling(a: Thread, b: Thread) {
    && a.pc == b.pc && a.ring == b.ring && a.depth == b.depth && a.intr == b.intr
    && (a.status == b.status || (a.status in {Running, Ready} && b.status in {Running, Ready}))
  }

  ghost predicate Rescheduled(a: map<Tid, Thread>, b: map<Tid, Thread>) {
    a.Keys == b.Keys && forall t {:trigger b[t]} {:trigger a[t]} :: t in a ==> SameButScheduling(a[t], b[t])
  }

  lemma RescheduledOne(threads: map<Tid, Thread>, t: Tid, th: Thread)
    requires t in threads && SameButScheduling(threads[t], th)
    ensures Rescheduled(threads, threads[t := th])
  {
  }

  lemma LockOkRescheduled(a: map<Tid, Thread>, b: map<Tid, Thread>, l: LockId, lock: Lock)
    requires Rescheduled(a, b) && LockOk(a, l, lock)
    ensures LockOk(b, l, lock)
  {
    forall t | t in b
      ensures Owns(b[t], l) == Owns(a[t], l) && Holds(b[t], t, l, lock) == Holds(a[t], t, l, lock)
    {
      assert SameButScheduling(a[t], b[t]);
    }
    if lock.value == 0 {
      var t :| t in a && Owns(a[t], l);
      assert t in b && Owns(b[t], l);
    }
  }

  lemma WaitersRescheduled(a: map<Tid, Thread>, b: map<Tid, Thread>, l: LockId, waiters: seq<Tid>)
    requires Rescheduled(a, b) && WaitersExact(a, l, waiters)
    ensures WaitersExact(b, l, waiters)
  {
    forall t | t in b
      ensures WaitsFor(b[t], l) == WaitsFor(a[t], l)
    {
      assert SameButScheduling(a[t], b[t]);
    }
  }

  lemma SleepersRescheduled(a: map<Tid, Thread>, b: map<Tid, Thread>, producer: Option<Tid>, consumer: Option<Tid>)
    requires Rescheduled(a, b) && Sleepers(a, producer, consumer)
    ensures Sleepers(b, producer, consumer)
  {
    forall t | t in b
      ensures SleepsAsProducer(b[t]) == SleepsAsProducer(a[t]) && SleepsAsConsumer(b[t]) == SleepsAsConsumer(a[t])
    {
      assert SameButScheduling(a[t], b[t]);
    }
  }

  lemma ThreadsRescheduled(k: Kernel, k': Kernel)
    requires Threads(k) && Rescheduled(k.threads, k'.threads) && k'.locks.Keys == k.locks.Keys
    ensures Threads(k')
  {
    forall t | t in k'.threads
      ensures ThreadOk(k'.threads[t], k'.locks.Keys)
    {
      assert SameButScheduling(k.threads[t], k'.threads[t]);
      assert ThreadOk(k.threads[t], k.locks.Keys);
    }
  }

  /** Moving threads between RUNNING and READY leaves all but the queues alone. */
  lemma CoreRescheduled(k: Kernel, k': Kernel)
    requires Core(k) && Rescheduled(k.threads, k'.threads)
    requires k'.locks == k.locks && k'.ring == k.ring
    ensures Threads(k') && Locks(k') && RingOk(k'.ring) && Sleepers(k'.threads, k'.ring.producer, k'.ring.consumer)
    ensures forall l :: l in k'.locks ==> WaitersExact(k'.threads, l, k'.locks[l].waiters)
  {
    ThreadsRescheduled(k, k');
    SleepersRescheduled(k.threads, k'.threads, k.ring.producer, k.ring.consumer);
    hide Threads, Sleepers, RingOk, LockOk, WaitersExact, Rescheduled;
    forall l | l in k'.locks
      ensures LockOk(k'.threads, l, k'.locks[l]) && WaitersExact(k'.threads, l, k'.locks[l].waiters)
    {
      LockOkRescheduled(k.threads, k'.threads, l, k.locks[l]);
      WaitersRescheduled(k.threads, k'.threads, l, k.locks[l].waiters);
    }
  }

  lemma ReadyJoins(threads: map<Tid, Thread>, ready: seq<Tid>, t: Tid, th: Thread)
    requires ReadyExact(threads, ready) && t !in ready && th.status == Ready
    ensures ReadyExact(threads[t := th], ready + [t])
    ensures ReadyExact(threads[t := th], [t] + ready)
  {
    NoDupAdd(ready, t);
  }

  lemma ReadyLeaves(threads: map<Tid, Thread>, ready: seq<Tid>, th: Thread)
    requires ReadyExact(threads, ready) && ready != [] && th.status != Ready
    ensures ready[0] in threads && ReadyExact(threads[ready[0] := th], ready[1..])
  {
    NoDupSplit(ready);
  }

  lemma EnqueueCore(k: Kernel)
    requires Core(k) && Cur(k).status == Running
    ensures k.current !in k.ready
    ensures Core(Enqueue(k)) && Enqueue(k).ready == k.ready + [k.current] && Cur(Enqueue(k)).status == Ready
  {
    hide Threads, Locks, Sleepers, RingOk, WaitersExact, Rescheduled, NoDup;
    var k' := Enqueue(k);
    assert k.current !in k.ready;
    hide ReadyExact;
    ReadyJoins(k.threads, k.ready, k.current, k'.threads[k.current]);
    RescheduledOne(k.threads, k.current, k'.threads[k.current]);
    CoreRescheduled(k, k');
  }

  lemma DispatchCore(k: Kernel)
    requires Core(k) && Cur(k).status != Running && k.ready != [] && k.ready[0] in k.threads
    ensures Inv(Dispatch(k))
  {
    hide Threads, Locks, Sleepers, RingOk, WaitersExact, Rescheduled, NoDup;
    var k' := Dispatch(k);
    var next := k.ready[0];
    assert next in k.ready && k.threads[next].status == Ready;
    hide ReadyExact;
    ReadyLeaves(k.threads, k.ready, k'.threads[next]);
    RescheduledOne(k.threads, next, k'.threads[next]);
    CoreRescheduled(k, k');
  }

  /** schedule() keeps the invariant, and cannot fail except by finding nobody to run. */
  lemma ScheduleSafe(k: Kernel)
    requires Core(k) && Cur(k).status != Ready
    ensures Wf(k)
    ensures match Schedule(k)
      case Next(k') => Inv(k')
      case Failed(a) => a == ReadyListEmpty && k.ready == [] && Cur(k).status != Running
  {
    InvWf(k);
    hide Threads, Locks, Sleepers, RingOk;
    if Cur(k).status == Running {
      EnqueueCore(k);
      assert Enqueue(k).ready[0] in Enqueue(k).ready;
      DispatchCore(Enqueue(k));
    } else if k.ready != [] {
      assert k.ready[0] in k.ready;
      DispatchCore(k);
    }
  }
}
