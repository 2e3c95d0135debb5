/**
  Every enabled step of the kernel keeps the invariant and passes every ASSERT on its way.
*/
module KernelSteps {
  import opened Common
  import opened KernelModel
  import opened KernelInv

  // ---------------------------------------------------------------- one thread moves

  /** How a thread's move from a to b may relate to a lock going from lock to lock'. */
  predicate LockMove(a: Thread, b: Thread, id: Tid, l: LockId, lock: Lock, lock': Lock) {
    if Owns(a, l) then
      if Owns(b, l) then Holds(b, id, l, lock')
      else lock'.value == 1 && lock'.holder == None && lock'.repeat == 0
    else if Owns(b, l) then lock.value == 1 && Holds(b, id, l, lock')
    else lock' == lock.(waiters := lock'.waiters)
  }

  lemma LockOkMove(threads: map<Tid, Thread>, id: Tid, b: Thread, l: LockId, lock: Lock, lock': Lock)
    requires LockOk(threads, l, lock) && id in threads && LockMove(threads[id], b, id, l, lock, lock')
    ensures LockOk(threads[id := b], l, lock')
  {
    var threads' := threads[id := b];
    if Owns(b, l) || Owns(threads[id], l) {
      assert threads'[id] == b;
      assert forall t {:trigger threads[t]} :: t in threads && t != id ==> !Owns(threads[t], l);
    } else if lock.value == 0 {
      var t :| t in threads && Owns(threads[t], l);
      assert t in threads' && Owns(threads'[t], l);
    }
  }

  /** A lock the move does not concern. */
  predicate SameView(a: Thread, b: Thread, l: LockId) {
    Owns(a, l) == Owns(b, l) && (Owns(a, l) ==> Unrecorded(a, l) == Unrecorded(b, l) && RepeatOf(a, l) == RepeatOf(b, l))
  }

  lemma LockOkSameView(threads: map<Tid, Thread>, id: Tid, b: Thread, l: LockId, lock: Lock)
    requires LockOk(threads, l, lock) && id in threads && SameView(threads[id], b, l)
    ensures LockOk(threads[id := b], l, lock)
  {
    assert Owns(threads[id], l) ==> Holds(threads[id], id, l, lock);
    LockOkMove(threads, id, b, l, lock, lock);
  }

  lemma WaitersMove(threads: map<Tid, Thread>, id: Tid, b: Thread, l: LockId, waiters: seq<Tid>)
    requires WaitersExact(threads, l, waiters) && id in threads && !WaitsFor(threads[id], l)
    ensures WaitersExact(threads[id := b], l, if WaitsFor(b, l) then waiters + [id] else waiters)
  {
    assert id !in waiters;
    NoDupAdd(waiters, id);
  }

  lemma SleepersMove(threads: map<Tid, Thread>, id: Tid, b: Thread, producer: Option<Tid>, consumer: Option<Tid>)
    requires Sleepers(threads, producer, consumer) && id in threads
    requires !SleepsAsProducer(threads[id]) && !SleepsAsConsumer(threads[id])
    requires SleepsAsProducer(b) ==> producer == None
    requires SleepsAsConsumer(b) ==> consumer == None
    ensures Sleepers(threads[id := b], if SleepsAsProducer(b) then Some(id) else producer,
                     if SleepsAsConsumer(b) then Some(id) else consumer)
  {
  }

  lemma ReadyMove(threads: map<Tid, Thread>, ready: seq<Tid>, id: Tid, b: Thread)
    requires ReadyExact(threads, ready) && id in threads && threads[id].status != Ready && b.status != Ready
    ensures ReadyExact(threads[id := b], ready)
  {
  }

  /** The running thread's next state, with the one lock and the ring it touches. */
  function Moved(k: Kernel, b: Thread, l: LockId, lock': Lock, ring': Ring): Kernel {
    k.(threads := k.threads[k.current := b], locks := k.locks[l := lock'], ring := ring')
  }

  ghost predicate GoodMove(k: Kernel, b: Thread, l: LockId, lock': Lock, ring': Ring)
    requires k.current in k.threads
  {
    && b.status != Ready && ThreadOk(b, k.locks.Keys)
    && l in k.locks && LockMove(Cur(k), b, k.current, l, k.locks[l], lock')
    && (forall m :: m in k.locks && m != l ==> SameView(Cur(k), b, m) && !WaitsFor(b, m))
    && lock'.waiters == (if WaitsFor(b, l) then k.locks[l].waiters + [k.current] else k.locks[l].waiters)
    && RingOk(ring')
    && (if SleepsAsProducer(b) then k.ring.producer == None && ring'.producer == Some(k.current)
        else ring'.producer == k.ring.producer)
    && (if SleepsAsConsumer(b) then k.ring.consumer == None && ring'.consumer == Some(k.current)
        else ring'.consumer == k.ring.consumer)
  }

  lemma MoveQueues(k: Kernel, b: Thread, l: LockId, lock': Lock, ring': Ring)
    requires Inv(k) && GoodMove(k, b, l, lock', ring')
    ensures Queues(Moved(k, b, l, lock', ring'))
  {
    hide Threads, Locks, Sleepers, RingOk, ThreadOk, LockMove, ReadyExact, WaitersExact, NoDup;
    var k' := Moved(k, b, l, lock', ring');
    ReadyMove(k.threads, k.ready, k.current, b);
    forall m | m in k'.locks
      ensures WaitersExact(k'.threads, m, k'.locks[m].waiters)
    {
      WaitersMove(k.threads, k.current, b, m, k.locks[m].waiters);
    }
  }

  lemma MoveLocks(k: Kernel, b: Thread, l: LockId, lock': Lock, ring': Ring)
    requires Inv(k) && GoodMove(k, b, l, lock', ring')
    ensures Locks(Moved(k, b, l, lock', ring'))
  {
    assert k.current in k.threads;
    hide Threads, Queues, Sleepers, RingOk, ThreadOk, LockOk, SameView;
    var k' := Moved(k, b, l, lock', ring');
    forall m | m in k'.locks
      ensures LockOk(k'.threads, m, k'.locks[m])
    {
      if m == l {
        LockOkMove(k.threads, k.current, b, l, k.locks[l], lock');
      } else {
        LockOkSameView(k.threads, k.current, b, m, k.locks[m]);
      }
    }
  }

  lemma MoveThreads(k: Kernel, b: Thread, l: LockId, lock': Lock, ring': Ring)
    requires Threads(k) && k.current in k.threads && l in k.locks && ThreadOk(b, k.locks.Keys)
    ensures Threads(Moved(k, b, l, lock', ring'))
  {
    var k' := Moved(k, b, l, lock', ring');
    assert k'.locks.Keys == k.locks.Keys;
    forall t | t in k'.threads
      ensures ThreadOk(k'.threads[t], k'.locks.Keys)
    {
      assert t != k.current ==> ThreadOk(k.threads[t], k.locks.Keys);
    }
  }

  lemma MoveCore(k: Kernel, b: Thread, l: LockId, lock': Lock, ring': Ring)
    requires Inv(k) && GoodMove(k, b, l, lock', ring')
    ensures Core(Moved(k, b, l, lock', ring'))
  {
    MoveQueues(k, b, l, lock', ring');
    MoveLocks(k, b, l, lock', ring');
    MoveThreads(k, b, l, lock', ring');
    SleepersMove(k.threads, k.current, b, k.ring.producer, k.ring.consumer);
    hide Threads, Locks, Queues, ThreadOk, LockMove, RingOk, Sleepers;
  }

  lemma LockMoveSame(k: Kernel, b: Thread, l: LockId)
    requires Core(k) && l in k.locks && SameView(Cur(k), b, l)
    ensures LockMove(Cur(k), b, k.current, l, k.locks[l], k.locks[l])
  {
    assert LockOk(k.threads, l, k.locks[l]);
    assert Owns(Cur(k), l) ==> Holds(Cur(k), k.current, l, k.locks[l]);
  }

  lemma KnowRing(k: Kernel)
    requires Core(k)
    ensures RingOk(k.ring) && RING in k.locks && k.current in k.threads
  {
  }

  // ---------------------------------------------------------------- sync.c

  /** The thread is not in the middle of acquiring or releasing any lock but l. */
  predicate About(t: Thread, l: LockId) {
    (t.pc.Acquire? ==> t.pc.lock == l) && (t.pc.Release? ==> t.pc.lock == l)
  }

  lemma OthersSame(a: Thread, b: Thread, l: LockId, locks: set<LockId>)
    requires About(a, l) && About(b, l)
    requires forall m :: m in locks && m != l ==> Depth(a, m) == Depth(b, m)
    ensures forall m :: m in locks && m != l ==> SameView(a, b, m) && !WaitsFor(b, m)
  {
  }

  lemma HolderOwns(threads: map<Tid, Thread>, l: LockId, lock: Lock, id: Tid)
    requires LockOk(threads, l, lock) && lock.holder == Some(id)
    ensures id in threads && Owns(threads[id], l) && !Unrecorded(threads[id], l)
  {
    var t :| t in threads && Owns(threads[t], l);
    assert Holds(threads[t], t, l, lock);
  }

  lemma OwnerHolds(k: Kernel, l: LockId)
    requires Core(k) && l in k.locks
    ensures Owns(Cur(k), l) ==> Holds(Cur(k), k.current, l, k.locks[l])
    ensures !Owns(Cur(k), l) ==> k.locks[l].holder != Some(k.current)
    ensures k.locks[l].value <= 1
    ensures k.locks[l].value == 1 ==> k.locks[l].holder == None && k.locks[l].repeat == 0
  {
    assert LockOk(k.threads, l, k.locks[l]);
    if k.locks[l].holder == Some(k.current) {
      HolderOwns(k.threads, l, k.locks[l], k.current);
    }
  }

  /** A move within an acquire or release of lock l. */
  lemma SyncMove(k: Kernel, b: Thread, l: LockId, lock': Lock)
    requires Inv(k) && l in k.locks && About(Cur(k), l) && About(b, l)
    requires forall m :: m in k.locks && m != l ==> Depth(Cur(k), m) == Depth(b, m)
    requires b.status == Running && ThreadOk(b, k.locks.Keys)
    requires LockMove(Cur(k), b, k.current, l, k.locks[l], lock') && lock'.waiters == k.locks[l].waiters
    ensures Inv(SetLock(SetCur(k, b), l, lock'))
  {
    hide Core, ThreadOk, LockMove, SameView, RingOk;
    KnowRing(k);
    OthersSame(Cur(k), b, l, k.locks.Keys);
    assert GoodMove(k, b, l, lock', k.ring);
    hide GoodMove;
    MoveCore(k, b, l, lock', k.ring);
  }

  /** What a step may come to: the invariant again, or nobody left to run. */
  ghost predicate Safe(o: Outcome) {
    match o
    case Next(k) => Inv(k)
    case Failed(a) => a == ReadyListEmpty
  }

  /** What the current thread knows of lock l. */
  predicate KnownLock(t: Thread, id: Tid, l: LockId, lock: Lock) {
    && (if Owns(t, l) then Holds(t, id, l, lock) else lock.holder != Some(id))
    && lock.value <= 1
    && (lock.value == 1 ==> lock.holder == None && lock.repeat == 0)
  }

  lemma KnowLock(k: Kernel, l: LockId)
    requires Core(k) && l in k.locks
    ensures KnownLock(Cur(k), k.current, l, k.locks[l]) && ThreadOk(Cur(k), k.locks.Keys)
    ensures k.locks[l].value == 0 || k.locks[l].value == 1
  {
    OwnerHolds(k, l);
    assert ThreadOk(Cur(k), k.locks.Keys);
  }

  /** The thread and the lock a move within lock_acquire or lock_release may leave behind. */
  ghost predicate GoodSync(t: Thread, id: Tid, l: LockId, lock: Lock, b: Thread, lock': Lock, locks: set<LockId>) {
    && ThreadOk(b, locks) && b.status == Running && About(t, l) && About(b, l)
    && LockMove(t, b, id, l, lock, lock') && lock'.waiters == lock.waiters
    && forall m :: m in locks && m != l ==> Depth(t, m) == Depth(b, m)
  }

  lemma SyncSafe(k: Kernel, b: Thread, l: LockId, lock': Lock)
    requires Inv(k) && l in k.locks && GoodSync(Cur(k), k.current, l, k.locks[l], b, lock', k.locks.Keys)
    ensures Inv(SetLock(SetCur(k, b), l, lock'))
  {
    hide Core, ThreadOk, LockMove;
    SyncMove(k, b, l, lock');
  }

  lemma SyncSafeSameLock(k: Kernel, b: Thread, l: LockId)
    requires Inv(k) && l in k.locks && GoodSync(Cur(k), k.current, l, k.locks[l], b, k.locks[l], k.locks.Keys)
    ensures Inv(SetCur(k, b))
  {
    hide Core, GoodSync;
    SyncSafe(k, b, l, k.locks[l]);
    assert k.locks[l := k.locks[l]] == k.locks;
  }

  // lock_acquire, as moves of the thread and the lock alone

  lemma AcquireTestMove(t: Thread, id: Tid, l: LockId, lock: Lock, locks: set<LockId>)
    requires ThreadOk(t, locks) && t.status == Running && KnownLock(t, id, l, lock) && t.pc == Acquire(l, Test)
    ensures GoodSync(t, id, l, lock, t.(pc := Acquire(l, if lock.holder != Some(id) then Down else Again)), lock, locks)
  {
  }

  lemma SemaDownMove(t: Thread, id: Tid, l: LockId, lock: Lock, locks: set<LockId>)
    requires ThreadOk(t, locks) && t.status == Running && KnownLock(t, id, l, lock) && lock.value == 1
    requires t.pc == Acquire(l, Down) || t.pc == Acquire(l, Retry)
    ensures GoodSync(t, id, l, lock, t.(pc := Acquire(l, SetHolder)), lock.(value := 0), locks)
  {
  }

  lemma SetHolderMove(t: Thread, id: Tid, l: LockId, lock: Lock, locks: set<LockId>)
    requires ThreadOk(t, locks) && t.status == Running && KnownLock(t, id, l, lock) && t.pc == Acquire(l, SetHolder)
    ensures GoodSync(t, id, l, lock, t.(pc := Acquire(l, SetRepeat)), lock.(holder := Some(id)), locks)
  {
  }

  lemma AcquiredMove(t: Thread, id: Tid, l: LockId, lock: Lock, locks: set<LockId>)
    requires ThreadOk(t, locks) && t.status == Running && KnownLock(t, id, l, lock)
    requires t.pc == Acquire(l, SetRepeat) || t.pc == Acquire(l, Again)
    ensures t.pc == Acquire(l, SetRepeat) ==> lock.repeat == 0
    ensures GoodSync(t, id, l, lock, t.(pc := AfterAcquire(t), depth := t.depth[l := Depth(t, l) + 1]),
                     lock.(repeat := lock.repeat + 1), locks)
  {
  }

  lemma AcquireSafe(k: Kernel, l: LockId, phase: AcquirePhase)
    requires Inv(k) && Wf(k) && Cur(k).pc == Acquire(l, phase)
    ensures Safe(AcquireStep(k, l, phase))
  {
    assert l in k.locks;
    hide Core, Wf, SemaDown;
    match phase
    case Test => AcquireTestSafe(k, l);
    case Down => DownSafe(k, l);
    case Retry => DownSafe(k, l);
    case SetHolder => SetHolderSafe(k, l);
    case SetRepeat => AcquiredSafe(k, l);
    case Again => AcquiredSafe(k, l);
  }

  lemma AcquireTestSafe(k: Kernel, l: LockId)
    requires Inv(k) && Wf(k) && l in k.locks && Cur(k).pc == Acquire(l, Test)
    ensures Safe(AcquireStep(k, l, Test))
  {
    hide Core, Wf, ThreadOk, KnownLock, GoodSync, SemaDown;
    KnowRing(k);
    KnowLock(k, l);
    AcquireTestMove(Cur(k), k.current, l, k.locks[l], k.locks.Keys);
    SyncSafeSameLock(k, Cur(k).(pc := Acquire(l, if k.locks[l].holder != Some(k.current) then Down else Again)), l);
  }

  lemma SetHolderSafe(k: Kernel, l: LockId)
    requires Inv(k) && Wf(k) && l in k.locks && Cur(k).pc == Acquire(l, SetHolder)
    ensures Safe(AcquireStep(k, l, SetHolder))
  {
    hide Core, Wf, ThreadOk, KnownLock, GoodSync, SemaDown;
    KnowRing(k);
    KnowLock(k, l);
    SetHolderMove(Cur(k), k.current, l, k.locks[l], k.locks.Keys);
    SyncSafe(k, Cur(k).(pc := Acquire(l, SetRepeat)), l, k.locks[l].(holder := Some(k.current)));
  }

  lemma AcquiredSafe(k: Kernel, l: LockId)
    requires Inv(k) && Wf(k) && l in k.locks && (Cur(k).pc == Acquire(l, SetRepeat) || Cur(k).pc == Acquire(l, Again))
    ensures Safe(AcquireStep(k, l, Cur(k).pc.acquire))
  {
    hide Core, Wf, ThreadOk, KnownLock, GoodSync, SemaDown, AfterAcquire, Depth;
    KnowRing(k);
    KnowLock(k, l);
    AcquiredMove(Cur(k), k.current, l, k.locks[l], k.locks.Keys);
    SyncSafe(k, Cur(k).(pc := AfterAcquire(Cur(k)), depth := Cur(k).depth[l := Depth(Cur(k), l) + 1]), l,
             k.locks[l].(repeat := k.locks[l].repeat + 1));
  }

  lemma DownSafe(k: Kernel, l: LockId)
    requires Inv(k) && Wf(k) && l in k.locks && (Cur(k).pc == Acquire(l, Down) || Cur(k).pc == Acquire(l, Retry))
    ensures Safe(SemaDown(k, l))
  {
    hide Core, Wf, ThreadOk, KnownLock, GoodSync;
    KnowRing(k);
    KnowLock(k, l);
    if k.locks[l].value == 0 {
      hide SemaDown;
      BlockOnLock(k, l);
    } else {
      SemaDownMove(Cur(k), k.current, l, k.locks[l], k.locks.Keys);
      SyncSafe(k, Cur(k).(pc := Acquire(l, SetHolder)), l, k.locks[l].(value := 0));
    }
  }

  /** The thread at the point where sema_down has put it to sleep. */
  function BlockedOn(t: Thread, l: LockId): Thread {
    t.(pc := Acquire(l, Retry), status := Blocked)
  }

  lemma BlockedOnOk(t: Thread, id: Tid, l: LockId, lock: Lock, locks: set<LockId>)
    requires ThreadOk(t, locks) && KnownLock(t, id, l, lock) && lock.value == 0
    requires t.pc == Acquire(l, Down) || t.pc == Acquire(l, Retry)
    ensures ThreadOk(BlockedOn(t, l), locks)
    ensures LockMove(t, BlockedOn(t, l), id, l, lock, lock.(waiters := lock.waiters + [id]))
    ensures About(t, l) && About(BlockedOn(t, l), l)
  {
  }

  lemma BlockGood(k: Kernel, l: LockId)
    requires Inv(k) && l in k.locks && k.locks[l].value == 0
    requires Cur(k).pc == Acquire(l, Down) || Cur(k).pc == Acquire(l, Retry)
    ensures GoodMove(k, BlockedOn(Cur(k), l), l, k.locks[l].(waiters := k.locks[l].waiters + [k.current]), k.ring)
  {
    hide Core, ThreadOk, SameView, RingOk, LockMove, KnownLock;
    KnowLock(k, l);
    KnowRing(k);
    BlockedOnOk(Cur(k), k.current, l, k.locks[l], k.locks.Keys);
    OthersSame(Cur(k), BlockedOn(Cur(k), l), l, k.locks.Keys);
  }

  lemma BlockOnLock(k: Kernel, l: LockId)
    requires Inv(k) && Wf(k) && l in k.locks && k.locks[l].value == 0
    requires Cur(k).pc == Acquire(l, Down) || Cur(k).pc == Acquire(l, Retry)
    ensures k.current !in k.locks[l].waiters && Safe(SemaDown(k, l))
  {
    var lock' := k.locks[l].(waiters := k.locks[l].waiters + [k.current]);
    assert WaitersExact(k.threads, l, k.locks[l].waiters);
    assert k.current !in k.locks[l].waiters;
    hide Core, GoodMove, Wf, WaitersExact;
    BlockGood(k, l);
    MoveCore(k, BlockedOn(Cur(k), l), l, lock', k.ring);
    ScheduleSafe(Moved(k, BlockedOn(Cur(k), l), l, lock', k.ring));
    BlockOnLockEq(k, l);
  }

  lemma BlockOnLockEq(k: Kernel, l: LockId)
    requires Wf(k) && l in k.locks && k.locks[l].value == 0 && k.current !in k.locks[l].waiters
    ensures var m := Moved(k, BlockedOn(Cur(k), l), l, k.locks[l].(waiters := k.locks[l].waiters + [k.current]), k.ring);
      m.current in m.threads && (forall t :: t in m.ready ==> t in m.threads) && SemaDown(k, l) == Schedule(m)
  {
    var m := Moved(k, BlockedOn(Cur(k), l), l, k.locks[l].(waiters := k.locks[l].waiters + [k.current]), k.ring);
    var k1 := SetLock(SetCur(k, Cur(k).(pc := Acquire(l, Retry))), l, k.locks[l].(waiters := k.locks[l].waiters + [k.current]));
    assert SetCur(k1, Cur(k1).(status := Blocked)).threads == m.threads;
    assert SetCur(k1, Cur(k1).(status := Blocked)) == m;
  }

  // lock_release, as moves of the thread and the lock alone

  lemma CheckMove(t: Thread, id: Tid, l: LockId, lock: Lock, locks: set<LockId>)
    requires ThreadOk(t, locks) && t.status == Running && KnownLock(t, id, l, lock) && t.pc == Release(l, Check)
    ensures lock.holder == Some(id) && lock.repeat >= 1
    ensures GoodSync(t, id, l, lock, t.(pc := Release(l, if lock.repeat > 1 then Dec else ClearHolder)), lock, locks)
  {
  }

  lemma DecMove(t: Thread, id: Tid, l: LockId, lock: Lock, locks: set<LockId>)
    requires ThreadOk(t, locks) && t.status == Running && KnownLock(t, id, l, lock) && t.pc == Release(l, Dec)
    ensures lock.repeat >= 1
    ensures GoodSync(t, id, l, lock, Undone(t, l), lock.(repeat := lock.repeat - 1), locks)
  {
  }

  lemma ClearHolderMove(t: Thread, id: Tid, l: LockId, lock: Lock, locks: set<LockId>)
    requires ThreadOk(t, locks) && t.status == Running && KnownLock(t, id, l, lock) && t.pc == Release(l, ClearHolder)
    ensures GoodSync(t, id, l, lock, t.(pc := Release(l, ClearRepeat)), lock.(holder := None), locks)
  {
  }

  lemma ClearRepeatMove(t: Thread, id: Tid, l: LockId, lock: Lock, locks: set<LockId>)
    requires ThreadOk(t, locks) && t.status == Running && KnownLock(t, id, l, lock) && t.pc == Release(l, ClearRepeat)
    ensures GoodSync(t, id, l, lock, t.(pc := Release(l, Up)), lock.(repeat := 0), locks)
  {
  }

  lemma UpMove(t: Thread, id: Tid, l: LockId, lock: Lock, locks: set<LockId>)
    requires ThreadOk(t, locks) && t.status == Running && KnownLock(t, id, l, lock) && t.pc == Release(l, Up)
    ensures lock.value == 0
    ensures GoodSync(t, id, l, lock, Undone(t, l), lock.(value := lock.value + 1), locks)
  {
  }

  lemma CheckSafe(k: Kernel, l: LockId)
    requires Inv(k) && Wf(k) && l in k.locks && Cur(k).pc == Release(l, Check)
    ensures Safe(ReleaseStep(k, l, Check))
  {
    hide Core, Wf, ThreadOk, KnownLock, GoodSync, SemaUp;
    KnowRing(k);
    KnowLock(k, l);
    CheckMove(Cur(k), k.current, l, k.locks[l], k.locks.Keys);
    SyncSafeSameLock(k, Cur(k).(pc := Release(l, if k.locks[l].repeat > 1 then Dec else ClearHolder)), l);
  }

  lemma DecSafe(k: Kernel, l: LockId)
    requires Inv(k) && Wf(k) && l in k.locks && Cur(k).pc == Release(l, Dec)
    ensures Safe(ReleaseStep(k, l, Dec))
  {
    hide Core, Wf, ThreadOk, KnownLock, GoodSync, SemaUp, Undone;
    KnowRing(k);
    KnowLock(k, l);
    DecMove(Cur(k), k.current, l, k.locks[l], k.locks.Keys);
    SyncSafe(k, Undone(Cur(k), l), l, k.locks[l].(repeat := k.locks[l].repeat - 1));
  }

  lemma ClearHolderSafe(k: Kernel, l: LockId)
    requires Inv(k) && Wf(k) && l in k.locks && Cur(k).pc == Release(l, ClearHolder)
    ensures Safe(ReleaseStep(k, l, ClearHolder))
  {
    hide Core, Wf, ThreadOk, KnownLock, GoodSync, SemaUp;
    KnowRing(k);
    KnowLock(k, l);
    ClearHolderMove(Cur(k), k.current, l, k.locks[l], k.locks.Keys);
    SyncSafe(k, Cur(k).(pc := Release(l, ClearRepeat)), l, k.locks[l].(holder := None));
  }

  lemma ClearRepeatSafe(k: Kernel, l: LockId)
    requires Inv(k) && Wf(k) && l in k.locks && Cur(k).pc == Release(l, ClearRepeat)
    ensures Safe(ReleaseStep(k, l, ClearRepeat))
  {
    hide Core, Wf, ThreadOk, KnownLock, GoodSync, SemaUp;
    KnowRing(k);
    KnowLock(k, l);
    ClearRepeatMove(Cur(k), k.current, l, k.locks[l], k.locks.Keys);
    SyncSafe(k, Cur(k).(pc := Release(l, Up)), l, k.locks[l].(repeat := 0));
  }

  // ---------------------------------------------------------------- waking

  /** w leaves whatever it sleeps in for the front of the ready list. */
  function Woken(k: Kernel, w: Tid, locks': map<LockId, Lock>, ring': Ring): Kernel
    requires w in k.threads
  {
    k.(ready := [w] + k.ready, threads := k.threads[w := k.threads[w].(status := Ready)], locks := locks', ring := ring')
  }

  predicate Popped(t: Thread, w: Tid, l: LockId, lock: Lock, lock': Lock) {
    if WaitsFor(t, l) then lock.waiters != [] && lock.waiters[0] == w && lock' == lock.(waiters := lock.waiters[1..])
    else lock' == lock
  }

  ghost predicate GoodWake(k: Kernel, w: Tid, locks': map<LockId, Lock>, ring': Ring) {
    && w in k.threads && Sleeping(k.threads[w].status) && locks'.Keys == k.locks.Keys
    && (forall m :: m in k.locks ==> Popped(k.threads[w], w, m, k.locks[m], locks'[m]))
    && ring' == k.ring.(producer := if SleepsAsProducer(k.threads[w]) then None else k.ring.producer,
                        consumer := if SleepsAsConsumer(k.threads[w]) then None else k.ring.consumer)
  }

  lemma WaitersPop(threads: map<Tid, Thread>, w: Tid, l: LockId, lock: Lock, lock': Lock)
    requires WaitersExact(threads, l, lock.waiters) && w in threads && Popped(threads[w], w, l, lock, lock')
    ensures WaitersExact(threads[w := threads[w].(status := Ready)], l, lock'.waiters)
  {
    if WaitsFor(threads[w], l) {
      NoDupSplit(lock.waiters);
    }
  }

  lemma SleeperNotReady(threads: map<Tid, Thread>, ready: seq<Tid>, w: Tid)
    requires ReadyExact(threads, ready) && w in threads && Sleeping(threads[w].status)
    ensures w !in ready
  {
  }

  lemma WakeQueues(k: Kernel, w: Tid, locks': map<LockId, Lock>, ring': Ring)
    requires Core(k) && GoodWake(k, w, locks', ring')
    ensures w !in k.ready && Queues(Woken(k, w, locks', ring'))
  {
    hide Threads, Locks, Sleepers, RingOk, ReadyExact, WaitersExact, NoDup, Popped;
    SleeperNotReady(k.threads, k.ready, w);
    var k' := Woken(k, w, locks', ring');
    ReadyJoins(k.threads, k.ready, w, k'.threads[w]);
    forall m | m in k'.locks
      ensures WaitersExact(k'.threads, m, k'.locks[m].waiters)
    {
      WaitersPop(k.threads, w, m, k.locks[m], locks'[m]);
    }
  }

  lemma LockOkWaiters(threads: map<Tid, Thread>, l: LockId, lock: Lock, lock': Lock)
    requires LockOk(threads, l, lock) && lock' == lock.(waiters := lock'.waiters)
    ensures LockOk(threads, l, lock')
  {
  }

  lemma WakeLocks(k: Kernel, w: Tid, locks': map<LockId, Lock>, ring': Ring)
    requires Core(k) && GoodWake(k, w, locks', ring')
    ensures Locks(Woken(k, w, locks', ring'))
  {
    hide Threads, Queues, Sleepers, RingOk, LockOk;
    var k' := Woken(k, w, locks', ring');
    forall m | m in k'.locks
      ensures LockOk(k'.threads, m, k'.locks[m])
    {
      LockOkSameView(k.threads, w, k'.threads[w], m, k.locks[m]);
      assert Popped(k.threads[w], w, m, k.locks[m], locks'[m]);
      LockOkWaiters(k'.threads, m, k.locks[m], locks'[m]);
    }
  }

  lemma WakeSleepers(threads: map<Tid, Thread>, w: Tid, producer: Option<Tid>, consumer: Option<Tid>)
    requires Sleepers(threads, producer, consumer) && w in threads
    ensures Sleepers(threads[w := threads[w].(status := Ready)],
                     if SleepsAsProducer(threads[w]) then None else producer,
                     if SleepsAsConsumer(threads[w]) then None else consumer)
  {
  }

  lemma WakeThreads(k: Kernel, w: Tid, locks': map<LockId, Lock>, ring': Ring)
    requires Threads(k) && w in k.threads && locks'.Keys == k.locks.Keys
    ensures Threads(Woken(k, w, locks', ring'))
  {
    var k' := Woken(k, w, locks', ring');
    forall t | t in k'.threads
      ensures ThreadOk(k'.threads[t], k'.locks.Keys)
    {
      assert ThreadOk(k.threads[t], k.locks.Keys);
    }
  }

  lemma RingOkWaiters(r: Ring, r': Ring)
    requires RingOk(r) && r' == r.(producer := r'.producer, consumer := r'.consumer)
    ensures RingOk(r')
  {
    assert Contents(r') == Contents(r);
  }

  lemma WakeCore(k: Kernel, w: Tid, locks': map<LockId, Lock>, ring': Ring)
    requires Inv(k) && GoodWake(k, w, locks', ring')
    ensures w !in k.ready && Inv(Woken(k, w, locks', ring'))
  {
    hide Threads, Locks, Queues, Sleepers, RingOk, Popped;
    KnowRing(k);
    WakeQueues(k, w, locks', ring');
    WakeLocks(k, w, locks', ring');
    WakeThreads(k, w, locks', ring');
    WakeSleepers(k.threads, w, k.ring.producer, k.ring.consumer);
    RingOkWaiters(k.ring, ring');
  }

  /** Waking a thread that waits in no lock. */
  lemma WakeFree(k: Kernel, w: Tid, ring': Ring)
    requires Inv(k) && w in k.threads && Sleeping(k.threads[w].status) && !k.threads[w].pc.Acquire?
    requires ring' == k.ring.(producer := if SleepsAsProducer(k.threads[w]) then None else k.ring.producer,
                              consumer := if SleepsAsConsumer(k.threads[w]) then None else k.ring.consumer)
    ensures w !in k.ready && Inv(Woken(k, w, k.locks, ring'))
  {
    hide Core;
    WakeCore(k, w, k.locks, ring');
  }

  lemma UpReleased(k: Kernel, l: LockId)
    requires Inv(k) && l in k.locks && Cur(k).pc == Release(l, Up)
    ensures k.locks[l].value == 0
    ensures Inv(SetLock(SetCur(k, Undone(Cur(k), l)), l, k.locks[l].(value := k.locks[l].value + 1)))
  {
    hide Core, ThreadOk, KnownLock, GoodSync, Undone;
    KnowRing(k);
    KnowLock(k, l);
    UpMove(Cur(k), k.current, l, k.locks[l], k.locks.Keys);
    SyncSafe(k, Undone(Cur(k), l), l, k.locks[l].(value := k.locks[l].value + 1));
  }

  lemma FirstWaiter(k: Kernel, l: LockId)
    requires Core(k) && l in k.locks && k.locks[l].waiters != []
    ensures k.locks[l].waiters[0] in k.threads && WaitsFor(k.threads[k.locks[l].waiters[0]], l)
  {
    assert WaitersExact(k.threads, l, k.locks[l].waiters);
    assert k.locks[l].waiters[0] in k.locks[l].waiters;
  }

  lemma WakeFirst(k: Kernel, l: LockId)
    requires Inv(k) && l in k.locks && k.locks[l].waiters != [] && k.locks[l].waiters[0] in k.threads
    ensures Sleeping(k.threads[k.locks[l].waiters[0]].status) && k.locks[l].waiters[0] !in k.ready
    ensures Inv(Woken(k, k.locks[l].waiters[0],
                      k.locks[l := k.locks[l].(waiters := k.locks[l].waiters[1..])], k.ring))
  {
    hide Core;
    FirstWaiter(k, l);
    WakeCore(k, k.locks[l].waiters[0], k.locks[l := k.locks[l].(waiters := k.locks[l].waiters[1..])], k.ring);
  }

  /** The state sema_up leaves before it looks at the waiters. */
  function Upped(k: Kernel, l: LockId): Kernel
    requires k.current in k.threads && l in k.locks
  {
    SetLock(SetCur(k, Undone(Cur(k), l)), l, k.locks[l].(value := k.locks[l].value + 1))
  }

  lemma SemaUpEq(k: Kernel, l: LockId, w: Tid)
    requires Wf(k) && l in k.locks && k.locks[l].value == 0 && k.locks[l].waiters != [] && w == k.locks[l].waiters[0]
    requires w in Upped(k, l).threads && Sleeping(Upped(k, l).threads[w].status) && w !in k.ready
    ensures var k1 := Upped(k, l);
      SemaUp(k, l) == Next(Woken(k1, w, k1.locks[l := k1.locks[l].(waiters := k1.locks[l].waiters[1..])], k1.ring))
  {
    hide Undone;
    var k1 := Upped(k, l);
    var lock' := k.locks[l].(value := k.locks[l].value + 1, waiters := k.locks[l].waiters[1..]);
    assert k1.locks[l := lock'] == k.locks[l := lock'];
  }

  lemma SemaUpSafe(k: Kernel, l: LockId)
    requires Inv(k) && Wf(k) && l in k.locks && Cur(k).pc == Release(l, Up)
    ensures Safe(SemaUp(k, l))
  {
    hide Core, Wf, Undone;
    KnowRing(k);
    UpReleased(k, l);
    var k1 := Upped(k, l);
    if k.locks[l].waiters != [] {
      var w := k.locks[l].waiters[0];
      FirstWaiter(k1, l);
      WakeFirst(k1, l);
      SemaUpEq(k, l, w);
      hide SemaUp;
    }
  }

  lemma ReleaseSafe(k: Kernel, l: LockId, phase: ReleasePhase)
    requires Inv(k) && Wf(k) && Cur(k).pc == Release(l, phase)
    ensures Safe(ReleaseStep(k, l, phase))
  {
    assert l in k.locks;
    hide Core, Wf, SemaUp;
    match phase
    case Check => CheckSafe(k, l);
    case Dec => DecSafe(k, l);
    case ClearHolder => ClearHolderSafe(k, l);
    case ClearRepeat => ClearRepeatSafe(k, l);
    case Up => SemaUpSafe(k, l);
  }
}
