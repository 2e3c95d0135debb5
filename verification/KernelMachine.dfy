/**
  The same segments of thread.c, timer.c, sync.c and ioqueue.c as updates of global state.
  A method returns the ASSERT it ran into, if any, and is tied to the transition of KernelModel; Perform and Execute
  put the segments together into steps and runs.
*/
module KernelMachine {
  import opened Common
  import opened KernelModel
  import opened KernelInv
  import opened KernelSteps
  import opened KernelRun

  class Machine {
    var threads: map<Tid, Thread>
    var current: Tid
    var ready: seq<Tid>
    var all: seq<Tid>
    var locks: map<LockId, Lock>
    var ring: Ring
    var ticks: nat

    function Model(): Kernel
      reads this
    {
      Kernel(threads, current, ready, all, locks, ring, ticks)
    }

    /** The method's outcome is o: the new state, or the ASSERT that failed. */
    ghost predicate Is(failed: Option<Assertion>, o: Outcome)
      reads this
    {
      match o
      case Next(k) => failed == None && Model() == k
      case Failed(a) => failed == Some(a)
    }

    constructor (main: Tid, lockIds: set<LockId>)
      ensures Model() == Boot(main, lockIds)
    {
      threads := map[main := Thread(Running, 31, 31, 0, false, User, NoRing, map[])];
      current := main;
      ready := [];
      all := [];
      locks := map l | l in lockIds + {RING} :: Lock(None, 0, 1, []);
      ring := Ring(None, None, seq(BUFSIZE, _ => 0), 0, 0, [], []);
      ticks := 0;
      new;
      assert main !in all;
      all := all + [main];
    }

    /** schedule(), given the interrupt flag */
    method Reschedule(flag: bool) returns (failed: Option<Assertion>)
      requires current in threads && forall t :: t in ready ==> t in threads
      modifies this
      ensures Is(failed, Schedule(old(Model()), flag))
    {
      if flag { return Some(InterruptsOn); }
      var cur := threads[current];
      if cur.status == Running {
        if current in ready { return Some(AlreadyReady); }
        ready := ready + [current];
        threads := threads[current := cur.(ticks := cur.priority, status := Ready)];
      }
      if ready == [] { return Some(ReadyListEmpty); }
      var next := ready[0];
      ready := ready[1..];
      threads := threads[next := threads[next].(status := Running)];
      current := next;
      return None;
    }

    /** thread_block(stat) */
    method Block(stat: Status) returns (failed: Option<Assertion>)
      requires current in threads && forall t :: t in ready ==> t in threads
      modifies this
      ensures Is(failed, ThreadBlock(old(Model()), stat))
    {
      if !(stat == Blocked || stat == Waiting || stat == Hanging) { return Some(NotBlocked); }
      threads := threads[current := threads[current].(status := stat)];
      failed := Reschedule(false);
    }

    /** thread_unblock(t) */
    method Unblock(t: Tid) returns (failed: Option<Assertion>)
      requires t in threads
      modifies this
      ensures Is(failed, ThreadUnblock(old(Model()), t))
    {
      var status := threads[t].status;
      if !(status == Blocked || status == Waiting || status == Hanging) { return Some(NotBlocked); }
      if status != Ready {
        if t in ready { return Some(AlreadyReady); }
        ready := [t] + ready;
        threads := threads[t := threads[t].(status := Ready)];
      }
      return None;
    }

    /** thread_start */
    method StartThread(t: Tid, prio: nat) returns (failed: Option<Assertion>)
      modifies this
      ensures Is(failed, ThreadStart(old(Model()), t, prio))
    {
      if t in ready { return Some(AlreadyReady); }
      ready := ready + [t];
      if t in all { return Some(AlreadyListed); }
      all := all + [t];
      threads := threads[t := Thread(Ready, prio, prio, 0, true, User, NoRing, map[])];
      return None;
    }

    /** intr_timer_handler */
    method ClockHandler() returns (failed: Option<Assertion>)
      requires current in threads && forall t :: t in ready ==> t in threads
      modifies this
      ensures Is(failed, ClockInterrupt(old(Model())))
    {
      threads := threads[current := threads[current].(elapsed := threads[current].elapsed + 1)];
      ticks := ticks + 1;
      if threads[current].ticks == 0 {
        failed := Reschedule(false);
      } else {
        threads := threads[current := threads[current].(ticks := threads[current].ticks - 1)];
        return None;
      }
    }

    /** One round of sema_down's loop */
    method SemaDownRound(l: LockId) returns (failed: Option<Assertion>)
      requires Wf(Model()) && l in locks
      modifies this
      ensures Is(failed, SemaDown(old(Model()), l))
    {
      if locks[l].value == 0 {
        if current in locks[l].waiters { return Some(AlreadyWaiting); }
        threads := threads[current := threads[current].(pc := Acquire(l, Retry))];
        locks := locks[l := locks[l].(waiters := locks[l].waiters + [current])];
        failed := Block(Blocked);
      } else {
        if locks[l].value - 1 != 0 { return Some(ValueNotZero); }
        locks := locks[l := locks[l].(value := locks[l].value - 1)];
        threads := threads[current := threads[current].(pc := Acquire(l, SetHolder))];
        return None;
      }
    }

    /** sema_up */
    method SemaUpSegment(l: LockId) returns (failed: Option<Assertion>)
      requires Wf(Model()) && l in locks
      modifies this
      ensures Is(failed, SemaUp(old(Model()), l))
    {
      if locks[l].value != 0 { return Some(ValueNotZero); }
      threads := threads[current := Undone(threads[current], l)];
      var waiters := locks[l].waiters;
      if waiters != [] {
        ghost var t := waiters[0];
        assert t in old(locks)[l].waiters;
        locks := locks[l := locks[l].(waiters := waiters[1..])];
        failed := Unblock(waiters[0]);
        if failed != None { return; }
      }
      locks := locks[l := locks[l].(value := locks[l].value + 1)];
      return if locks[l].value != 1 then Some(ValueNotOne) else None;
    }

    /** ioq_putchar past its wait */
    method PutByte(b: Byte) returns (failed: Option<Assertion>)
      requires Wf(Model())
      modifies this
      ensures Is(failed, WakeConsumer(old(Model()).(ring := Store(old(ring), b))))
    {
      ring := ring.(buf := ring.buf[ring.head := b], put := ring.put + [b]);
      ring := ring.(head := NextPos(ring.head));
      if ring.consumer.Some? {
        failed := Unblock(ring.consumer.value);
        if failed == None {
          ring := ring.(consumer := None);
        }
      } else {
        return None;
      }
    }

    /** ioq_getchar past its wait */
    method GetByte() returns (b: Byte, failed: Option<Assertion>)
      requires Wf(Model())
      modifies this
      ensures Is(failed, WakeProducer(old(Model()).(ring := Fetch(old(ring)))))
      ensures b == old(ring.buf[ring.tail])
    {
      b := ring.buf[ring.tail];
      ring := ring.(got := ring.got + [b]);
      ring := ring.(tail := NextPos(ring.tail));
      if ring.producer.Some? {
        failed := Unblock(ring.producer.value);
        if failed == None {
          ring := ring.(producer := None);
        }
      } else {
        failed := None;
      }
    }

    method At(pc: Pc)
      requires current in threads
      modifies this`threads
      ensures Model() == SetCur(old(Model()), old(threads[current]).(pc := pc))
    {
      threads := threads[current := threads[current].(pc := pc)];
    }

    /** The current thread is through lock_acquire once more. */
    method Acquired(l: LockId)
      requires current in threads
      modifies this`threads
      ensures var t := old(threads[current]);
        Model() == SetCur(old(Model()), t.(pc := AfterAcquire(t), depth := t.depth[l := Depth(t, l) + 1]))
    {
      var t := threads[current];
      threads := threads[current := t.(pc := AfterAcquire(t), depth := t.depth[l := Depth(t, l) + 1])];
    }

    /** lock_acquire, from one access of a lock field to the next */
    method AcquirePoint(l: LockId, phase: AcquirePhase) returns (failed: Option<Assertion>)
      requires Wf(Model()) && l in locks
      modifies this
      ensures Is(failed, AcquireStep(old(Model()), l, phase))
    {
      match phase {
        case Test =>
          At(Acquire(l, if locks[l].holder != Some(current) then Down else Again));
        case Down => failed := SemaDownRound(l); return;
        case Retry => failed := SemaDownRound(l); return;
        case SetHolder =>
          locks := locks[l := locks[l].(holder := Some(current))];
          At(Acquire(l, SetRepeat));
        case SetRepeat =>
          if locks[l].repeat != 0 { return Some(RepeatNotZero); }
          locks := locks[l := locks[l].(repeat := 1)];
          Acquired(l);
        case Again =>
          locks := locks[l := locks[l].(repeat := locks[l].repeat + 1)];
          Acquired(l);
      }
      return None;
    }

    /** lock_release, from one access of a lock field to the next */
    method ReleasePoint(l: LockId, phase: ReleasePhase) returns (failed: Option<Assertion>)
      requires Wf(Model()) && l in locks
      modifies this
      ensures Is(failed, ReleaseStep(old(Model()), l, phase))
    {
      match phase {
        case Check =>
          if locks[l].holder != Some(current) { return Some(NotHolder); }
          if locks[l].repeat > 1 {
            At(Release(l, Dec));
            return None;
          }
          if locks[l].repeat != 1 { return Some(RepeatNotOne); }
          At(Release(l, ClearHolder));
        case Dec =>
          locks := locks[l := locks[l].(repeat := if locks[l].repeat == 0 then 0xffff_ffff else locks[l].repeat - 1)];
          threads := threads[current := Undone(threads[current], l)];
        case ClearHolder =>
          locks := locks[l := locks[l].(holder := None)];
          At(Release(l, ClearRepeat));
        case ClearRepeat =>
          locks := locks[l := locks[l].(repeat := 0)];
          At(Release(l, Up));
        case Up => failed := SemaUpSegment(l); return;
      }
      return None;
    }

    /** ioq_wait */
    method RingWaitPoint() returns (failed: Option<Assertion>)
      requires Wf(Model())
      modifies this
      ensures Is(failed, RingWaitStep(old(Model())))
    {
      if threads[current].ring.Put? {
        if ring.producer.Some? { return Some(WaiterTaken); }
        ring := ring.(producer := Some(current));
      } else {
        if ring.consumer.Some? { return Some(WaiterTaken); }
        ring := ring.(consumer := Some(current));
      }
      At(RingSleep);
      failed := Block(Blocked);
    }

    /** The keyboard interrupt's guarded ioq_putchar */
    method KeyHandler(b: Byte) returns (failed: Option<Assertion>)
      requires Wf(Model())
      modifies this
      ensures Is(failed, KeyInterrupt(old(Model()), b))
    {
      if NextPos(ring.head) == ring.tail { return None; }
      failed := PutByte(b);
    }

    /** The loop test of ioq_putchar or ioq_getchar, and the transfer past it */
    method RingTestPoint() returns (failed: Option<Assertion>)
      requires Wf(Model())
      modifies this
      ensures Is(failed, RingTestStep(old(Model())))
    {
      var t := threads[current];
      if t.intr { return Some(InterruptsOn); }
      var waits := match t.ring case Put(_) => NextPos(ring.head) == ring.tail case Get => ring.head == ring.tail case NoRing => false;
      if waits {
        At(Acquire(RING, Test));
        return None;
      }
      threads := threads[current := t.(pc := User, ring := NoRing)];
      match t.ring {
        case Put(b) => failed := PutByte(b);
        case Get => var b; b, failed := GetByte();
        case NoRing => return None;
      }
    }

    /** The running thread's next segment */
    method ExecPoint() returns (failed: Option<Assertion>)
      requires Wf(Model())
      modifies this
      ensures Is(failed, ExecStep(old(Model())))
    {
      hide AcquireStep, ReleaseStep, RingTestStep, RingWaitStep;
      match threads[current].pc {
        case User => return None;
        case Asleep => At(User);
        case Acquire(l, phase) => failed := AcquirePoint(l, phase); return;
        case Release(l, phase) => failed := ReleasePoint(l, phase); return;
        case RingTest => failed := RingTestPoint(); return;
        case RingWait => failed := RingWaitPoint(); return;
        case RingSleep => At(Release(RING, Check));
      }
      return None;
    }

    /** One step of the kernel */
    method Perform(a: Action) returns (failed: Option<Assertion>)
      requires Wf(Model()) && Enabled(Model(), a)
      modifies this
      ensures Is(failed, Step(old(Model()), a))
    {
      hide ExecStep, ClockInterrupt, KeyInterrupt, ThreadBlock, ThreadUnblock, ThreadStart;
      match a {
        case Clock => failed := ClockHandler(); return;
        case Key(b) => failed := KeyHandler(b); return;
        case Exec => failed := ExecPoint(); return;
        case SetIntr(on) => threads := threads[current := threads[current].(intr := on)];
        case BeginAcquire(l) => At(Acquire(l, Test));
        case BeginRelease(l) => At(Release(l, Check));
        case BeginPut(b) => threads := threads[current := threads[current].(pc := RingTest, ring := Put(b))];
        case BeginGet => threads := threads[current := threads[current].(pc := RingTest, ring := Get)];
        case Sleep(stat) => At(Asleep); failed := Block(stat); return;
        case Wake(t) => failed := Unblock(t); return;
        case Start(t, prio) => failed := StartThread(t, prio); return;
      }
      return None;
    }

    /** A run: the machine does what the model does, keeps the invariant, and stops only with an empty ready list. */
    method Execute(acts: seq<Action>) returns (failed: Option<Assertion>)
      requires Inv(Model()) && Legal(Model(), acts)
      modifies this
      ensures Is(failed, Run(old(Model()), acts))
      ensures failed == None || failed == Some(ReadyListEmpty)
      ensures failed == Some(ReadyListEmpty) <==> Starves(old(Model()), acts)
      ensures failed == None ==> Inv(Model())
    {
      hide Step, Enabled, Inv, Wf, Starves;
      RunSafe(Model(), acts);
      var i := 0;
      while i < |acts|
        invariant 0 <= i <= |acts|
        invariant Legal(Model(), acts[i..]) && Run(Model(), acts[i..]) == Run(old(Model()), acts)
      {
        assert acts[i..][1..] == acts[i + 1..];
        failed := Perform(acts[i]);
        if failed != None { return; }
        i := i + 1;
      }
      return None;
    }
  }
}
