/**
  The teaching kernel's threads, recursive locks and blocking ring buffer as a state machine.

  A step is what the running thread does between two points at which an interrupt can
  be delivered: one read or write of a lock field when interrupts are on, or a whole
  segment with interrupts off. Blocking ends a step, because the processor goes to another thread.
  Every ASSERT of the code is a test whose failure is an outcome of its own.
*/
module KernelModel {
  import opened Common

  type Tid = nat
  type LockId = nat
  type Byte = b: int | 0 <= b < 256

  const BUFSIZE := 64
  /** The lock inside the ring buffer; only the ring operations use it. */
  const RING: LockId := 0

  datatype Status = Running | Ready | Blocked | Waiting | Hanging | Died

  /** Where a thread is inside lock_acquire. Retry: asleep in, or back at, sema_down's loop. */
  datatype AcquirePhase = Test | Down | Retry | SetHolder | SetRepeat | Again

  /** Where a thread is inside lock_release. */
  datatype ReleasePhase = Check | Dec | ClearHolder | ClearRepeat | Up

  datatype Pc =
    | User
    | Asleep
    | Acquire(lock: LockId, acquire: AcquirePhase)
    | Release(lock: LockId, release: ReleasePhase)
    | RingTest
    | RingWait
    | RingSleep

  /** The ring operation a thread is inside of, if any. */
  datatype RingOp = NoRing | Put(byte: Byte) | Get

  /** `intr` is the interrupt flag the thread runs its own code with; `depth` counts, per lock,
      the acquires completed and not yet released. */
  datatype Thread = Thread(status: Status, priority: nat, ticks: nat, elapsed: nat, intr: bool,
                           pc: Pc, ring: RingOp, depth: map<LockId, nat>)

  datatype Lock = Lock(holder: Option<Tid>, repeat: nat, value: nat, waiters: seq<Tid>)

  /** `put` and `got` record every byte stored and fetched so far. */
  datatype Ring = Ring(producer: Option<Tid>, consumer: Option<Tid>, buf: seq<Byte>, head: nat, tail: nat,
                       put: seq<Byte>, got: seq<Byte>)

  datatype Kernel = Kernel(threads: map<Tid, Thread>, current: Tid, ready: seq<Tid>, all: seq<Tid>,
                           locks: map<LockId, Lock>, ring: Ring, ticks: nat)

  datatype Assertion =
    | AlreadyReady | ReadyListEmpty | NotBlocked | AlreadyWaiting | ValueNotZero | ValueNotOne
    | RepeatNotZero | RepeatNotOne | NotHolder | InterruptsOn | WaiterTaken | NoWaiter | AlreadyListed

  datatype Outcome = Next(k: Kernel) | Failed(assertion: Assertion)

  function Depth(t: Thread, l: LockId): nat {
    if l in t.depth then t.depth[l] else 0
  }

  predicate Sleeping(s: Status) {
    s == Blocked || s == Waiting || s == Hanging
  }

  /** Whether an interrupt can reach the thread: not inside sema_down's loop, nor in thread_block. */
  predicate Interruptible(t: Thread) {
    t.intr && t.pc != Asleep && !(t.pc.Acquire? && t.pc.acquire == Retry)
  }

  predicate Wf(k: Kernel) {
    && k.current in k.threads
    && (forall t :: t in k.ready ==> t in k.threads)
    && RING in k.locks
    && (forall l, t :: l in k.locks && t in k.locks[l].waiters ==> t in k.threads)
    && (k.ring.producer.Some? ==> k.ring.producer.value in k.threads)
    && (k.ring.consumer.Some? ==> k.ring.consumer.value in k.threads)
    && |k.ring.buf| == BUFSIZE && k.ring.head < BUFSIZE && k.ring.tail < BUFSIZE
    && (forall t :: t in k.threads && k.threads[t].pc.Acquire? ==> k.threads[t].pc.lock in k.locks)
    && (forall t :: t in k.threads && k.threads[t].pc.Release? ==> k.threads[t].pc.lock in k.locks)
  }

  function Cur(k: Kernel): Thread
    requires k.current in k.threads
  {
    k.threads[k.current]
  }

  function SetCur(k: Kernel, t: Thread): Kernel {
    k.(threads := k.threads[k.current := t])
  }

  function SetLock(k: Kernel, l: LockId, lock: Lock): Kernel {
    k.(locks := k.locks[l := lock])
  }

  // ---------------------------------------------------------------- thread.c

  function Enqueue(k: Kernel): Kernel
    requires k.current in k.threads
  {
    SetCur(k.(ready := k.ready + [k.current]), Cur(k).(ticks := Cur(k).priority, status := Ready))
  }

  function Dispatch(k: Kernel): Kernel
    requires k.ready != [] && k.ready[0] in k.threads
  {
    var next := k.ready[0];
    k.(ready := k.ready[1..], current := next, threads := k.threads[next := k.threads[next].(status := Running)])
  }

  /** schedule(), with the processor's interrupt flag as its callers leave it: thread_block has switched it off,
      and the clock comes through an interrupt gate. */
  function Schedule(k: Kernel, flag: bool := false): Outcome
    requires k.current in k.threads && forall t :: t in k.ready ==> t in k.threads
  {
    if flag then Failed(InterruptsOn)
    else if Cur(k).status == Running then
      if k.current in k.ready then Failed(AlreadyReady) else Next(Dispatch(Enqueue(k)))
    else if k.ready == [] then Failed(ReadyListEmpty)
    else Next(Dispatch(k))
  }

  /** thread_block(stat), up to the switch away */
  function ThreadBlock(k: Kernel, stat: Status): Outcome
    requires k.current in k.threads && forall t :: t in k.ready ==> t in k.threads
  {
    if !Sleeping(stat) then Failed(NotBlocked)
    else Schedule(SetCur(k, Cur(k).(status := stat)))
  }

  /** thread_unblock(t) */
  function ThreadUnblock(k: Kernel, t: Tid): Outcome
    requires t in k.threads
  {
    if !Sleeping(k.threads[t].status) then Failed(NotBlocked)
    else if t in k.ready then Failed(AlreadyReady)
    else Next(k.(ready := [t] + k.ready, threads := k.threads[t := k.threads[t].(status := Ready)]))
  }

  /** thread_start: the fresh control block goes to the end of both lists. */
  function ThreadStart(k: Kernel, t: Tid, prio: nat): Outcome {
    if t in k.ready then Failed(AlreadyReady)
    else if t in k.all then Failed(AlreadyListed)
    else Next(k.(ready := k.ready + [t], all := k.all + [t],
                 threads := k.threads[t := Thread(Ready, prio, prio, 0, true, User, NoRing, map[])]))
  }

  /** intr_timer_handler */
  function ClockInterrupt(k: Kernel): Outcome
    requires k.current in k.threads && forall t :: t in k.ready ==> t in k.threads
  {
    var k1 := SetCur(k, Cur(k).(elapsed := Cur(k).elapsed + 1)).(ticks := k.ticks + 1);
    if Cur(k).ticks == 0 then Schedule(k1)
    else Next(SetCur(k1, Cur(k1).(ticks := Cur(k1).ticks - 1)))
  }

  // ---------------------------------------------------------------- sync.c

  function AfterAcquire(t: Thread): Pc {
    if t.ring.NoRing? then User else RingWait
  }

  function AfterRelease(t: Thread): Pc {
    if t.ring.NoRing? then User else RingTest
  }

  /** One round of sema_down's loop, and the decrement once it is left. */
  function SemaDown(k: Kernel, l: LockId): Outcome
    requires Wf(k) && l in k.locks
  {
    var lock := k.locks[l];
    if lock.value == 0 then
      if k.current in lock.waiters then Failed(AlreadyWaiting)
      else
        ThreadBlock(SetLock(SetCur(k, Cur(k).(pc := Acquire(l, Retry))), l, lock.(waiters := lock.waiters + [k.current])),
                    Blocked)
    else if lock.value - 1 != 0 then Failed(ValueNotZero)
    else Next(SetLock(SetCur(k, Cur(k).(pc := Acquire(l, SetHolder))), l, lock.(value := lock.value - 1)))
  }

  function AcquireStep(k: Kernel, l: LockId, phase: AcquirePhase): Outcome
    requires Wf(k) && l in k.locks
  {
    var lock := k.locks[l];
    var t := Cur(k);
    match phase
    case Test => Next(SetCur(k, t.(pc := Acquire(l, if lock.holder != Some(k.current) then Down else Again))))
    case Down => SemaDown(k, l)
    case Retry => SemaDown(k, l)
    case SetHolder => Next(SetLock(SetCur(k, t.(pc := Acquire(l, SetRepeat))), l, lock.(holder := Some(k.current))))
    case SetRepeat =>
      if lock.repeat != 0 then Failed(RepeatNotZero)
      else
        Next(SetLock(SetCur(k, t.(pc := AfterAcquire(t), depth := t.depth[l := Depth(t, l) + 1])), l, lock.(repeat := 1)))
    case Again =>
      Next(SetLock(SetCur(k, t.(pc := AfterAcquire(t), depth := t.depth[l := Depth(t, l) + 1])), l,
                   lock.(repeat := lock.repeat + 1)))
  }

  /** The count on the way back out of lock_release. */
  function Undone(t: Thread, l: LockId): Thread {
    t.(pc := AfterRelease(t), depth := t.depth[l := if Depth(t, l) == 0 then 0 else Depth(t, l) - 1])
  }

  /** sema_up */
  function SemaUp(k: Kernel, l: LockId): Outcome
    requires Wf(k) && l in k.locks
  {
    var lock := k.locks[l];
    if lock.value != 0 then Failed(ValueNotZero)
    else
      var k1 := SetCur(k, Undone(Cur(k), l));
      if lock.waiters == [] then Raise(k1, l)
      else
        match ThreadUnblock(SetLock(k1, l, lock.(waiters := lock.waiters[1..])), lock.waiters[0])
        case Next(k2) => Raise(k2, l)
        case Failed(a) => Failed(a)
  }

  /** value++ and the ASSERT after it */
  function Raise(k: Kernel, l: LockId): Outcome
    requires l in k.locks
  {
    var value := k.locks[l].value + 1;
    if value != 1 then Failed(ValueNotOne) else Next(SetLock(k, l, k.locks[l].(value := value)))
  }

  function ReleaseStep(k: Kernel, l: LockId, phase: ReleasePhase): Outcome
    requires Wf(k) && l in k.locks
  {
    var lock := k.locks[l];
    var t := Cur(k);
    match phase
    case Check =>
      if lock.holder != Some(k.current) then Failed(NotHolder)
      else if lock.repeat > 1 then Next(SetCur(k, t.(pc := Release(l, Dec))))
      else if lock.repeat != 1 then Failed(RepeatNotOne)
      else Next(SetCur(k, t.(pc := Release(l, ClearHolder))))
    case Dec => Next(SetLock(SetCur(k, Undone(t, l)), l, lock.(repeat := if lock.repeat == 0 then 0xffff_ffff else lock.repeat - 1)))
    case ClearHolder => Next(SetLock(SetCur(k, t.(pc := Release(l, ClearRepeat))), l, lock.(holder := None)))
    case ClearRepeat => Next(SetLock(SetCur(k, t.(pc := Release(l, Up))), l, lock.(repeat := 0)))
    case Up => SemaUp(k, l)
  }

  // ---------------------------------------------------------------- ioqueue.c

  function NextPos(pos: nat): (r: nat)
    ensures r < BUFSIZE
  {
    (pos + 1) % BUFSIZE
  }

  predicate Full(r: Ring) {
    NextPos(r.head) == r.tail
  }

  predicate Empty(r: Ring) {
    r.head == r.tail
  }

  function Store(r: Ring, b: Byte): Ring
    requires |r.buf| == BUFSIZE && r.head < BUFSIZE
  {
    r.(buf := r.buf[r.head := b], head := NextPos(r.head), put := r.put + [b])
  }

  function Fetch(r: Ring): Ring
    requires |r.buf| == BUFSIZE && r.tail < BUFSIZE
  {
    r.(tail := NextPos(r.tail), got := r.got + [r.buf[r.tail]])
  }

  /** wakeup(waiter), up to the point where it clears the field */
  function WakeUp(k: Kernel, waiter: Option<Tid>): Outcome
    requires waiter.Some? ==> waiter.value in k.threads
  {
    if waiter.None? then Failed(NoWaiter) else ThreadUnblock(k, waiter.value)
  }

  /** wakeup(&ioq->consumer), when there is one */
  function WakeConsumer(k: Kernel): Outcome
    requires k.ring.consumer.Some? ==> k.ring.consumer.value in k.threads
  {
    if k.ring.consumer.None? then Next(k)
    else
      match WakeUp(k, k.ring.consumer)
      case Next(k1) => Next(k1.(ring := k1.ring.(consumer := None)))
      case Failed(a) => Failed(a)
  }

  function WakeProducer(k: Kernel): Outcome
    requires k.ring.producer.Some? ==> k.ring.producer.value in k.threads
  {
    if k.ring.producer.None? then Next(k)
    else
      match WakeUp(k, k.ring.producer)
      case Next(k1) => Next(k1.(ring := k1.ring.(producer := None)))
      case Failed(a) => Failed(a)
  }

  /** The loop test of ioq_putchar / ioq_getchar; when it lets the thread through, the transfer too. */
  function RingTestStep(k: Kernel): Outcome
    requires Wf(k)
  {
    var t := Cur(k);
    var done := SetCur(k, t.(pc := User, ring := NoRing));
    if t.intr then Failed(InterruptsOn)
    else
      match t.ring
      case Put(b) =>
        if Full(k.ring) then Next(SetCur(k, t.(pc := Acquire(RING, Test))))
        else WakeConsumer(done.(ring := Store(k.ring, b)))
      case Get =>
        if Empty(k.ring) then Next(SetCur(k, t.(pc := Acquire(RING, Test))))
        else WakeProducer(done.(ring := Fetch(k.ring)))
      case NoRing => Next(done)
  }

  /** ioq_wait */
  function RingWaitStep(k: Kernel): Outcome
    requires Wf(k)
  {
    var t := Cur(k);
    var k1 := SetCur(k, t.(pc := RingSleep));
    if t.ring.Put? then
      if k.ring.producer.Some? then Failed(WaiterTaken)
      else ThreadBlock(k1.(ring := k.ring.(producer := Some(k.current))), Blocked)
    else
      if k.ring.consumer.Some? then Failed(WaiterTaken)
      else ThreadBlock(k1.(ring := k.ring.(consumer := Some(k.current))), Blocked)
  }

  /** The keyboard interrupt: drop the byte when the ring is full, else ioq_putchar without its wait. */
  function KeyInterrupt(k: Kernel, b: Byte): Outcome
    requires Wf(k)
  {
    if Full(k.ring) then Next(k) else WakeConsumer(k.(ring := Store(k.ring, b)))
  }

  // ---------------------------------------------------------------- steps and runs

  datatype Action =
    | Clock
    | Key(byte: Byte)
    | Exec
    | SetIntr(on: bool)
    | BeginAcquire(l: LockId)
    | BeginRelease(l: LockId)
    | BeginPut(b: Byte)
    | BeginGet
    | Sleep(stat: Status)
    | Wake(t: Tid)
    | Start(t: Tid, prio: nat)

  /** What may happen next, and what the code demands of its callers: only a holder releases,
      ring operations and thread_start are called with interrupts off, and a thread is woken
      by hand only if it put itself to sleep. */
  predicate Enabled(k: Kernel, a: Action)
    requires Wf(k)
  {
    var t := Cur(k);
    match a
    case Clock => Interruptible(t)
    case Key(_) => Interruptible(t)
    case Exec => t.pc != User
    case SetIntr(_) => t.pc == User
    case BeginAcquire(l) => t.pc == User && l in k.locks && l != RING
    case BeginRelease(l) => t.pc == User && l in k.locks && l != RING && Depth(t, l) >= 1
    case BeginPut(_) => t.pc == User && !t.intr
    case BeginGet => t.pc == User && !t.intr
    case Sleep(stat) => t.pc == User && Sleeping(stat)
    case Wake(w) => t.pc == User && w in k.threads && k.threads[w].pc == Asleep && Sleeping(k.threads[w].status)
    case Start(n, prio) => t.pc == User && !t.intr && n !in k.threads && prio < 256
  }

  function ExecStep(k: Kernel): Outcome
    requires Wf(k)
  {
    var t := Cur(k);
    match t.pc
    case User => Next(k)
    case Asleep => Next(SetCur(k, t.(pc := User)))
    case Acquire(l, phase) => AcquireStep(k, l, phase)
    case Release(l, phase) => ReleaseStep(k, l, phase)
    case RingTest => RingTestStep(k)
    case RingWait => RingWaitStep(k)
    case RingSleep => Next(SetCur(k, t.(pc := Release(RING, Check))))
  }

  function Step(k: Kernel, a: Action): Outcome
    requires Wf(k) && Enabled(k, a)
  {
    var t := Cur(k);
    match a
    case Clock => ClockInterrupt(k)
    case Key(b) => KeyInterrupt(k, b)
    case Exec => ExecStep(k)
    case SetIntr(on) => Next(SetCur(k, t.(intr := on)))
    case BeginAcquire(l) => Next(SetCur(k, t.(pc := Acquire(l, Test))))
    case BeginRelease(l) => Next(SetCur(k, t.(pc := Release(l, Check))))
    case BeginPut(b) => Next(SetCur(k, t.(pc := RingTest, ring := Put(b))))
    case BeginGet => Next(SetCur(k, t.(pc := RingTest, ring := Get)))
    case Sleep(stat) => ThreadBlock(SetCur(k, t.(pc := Asleep)), stat)
    case Wake(w) => ThreadUnblock(k, w)
    case Start(n, prio) => ThreadStart(k, n, prio)
  }

  /** The lists, the locks and the ring as initialised, main running with interrupts off; not yet in thread_all_list. */
  function Initialised(main: Tid, locks: set<LockId>): Kernel {
    Kernel(map[main := Thread(Running, 31, 31, 0, false, User, NoRing, map[])], main, [], [],
           map l | l in locks + {RING} :: Lock(None, 0, 1, []),
           Ring(None, None, seq(BUFSIZE, _ => 0), 0, 0, [], []), 0)
  }

  /** The end of make_main_thread */
  function ListMain(k: Kernel): Outcome {
    if k.current in k.all then Failed(AlreadyListed) else Next(k.(all := k.all + [k.current]))
  }

  /** After thread_init and the initialisation of the locks and the ring. */
  function Boot(main: Tid, locks: set<LockId>): Kernel {
    Initialised(main, locks).(all := [main])
  }
}
