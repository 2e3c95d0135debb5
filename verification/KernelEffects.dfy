/** What one completed operation does: no byte lost or made up, and whom the processor goes to after a wake-up. */
module KernelEffects {
  import opened Common
  import opened KernelModel
  import opened KernelInv
  import opened KernelSteps
  import opened KernelRing
  import opened KernelRun

  /** Waking the consumer changes nothing in the buffer, and leaves nobody recorded. */
  lemma ConsumerWoken(k: Kernel)
    requires Inv(k)
    ensures k.ring.consumer.Some? ==> k.ring.consumer.value in k.threads
    ensures var r := WakeConsumer(k);
      && r.Next? && r.k.ring == k.ring.(consumer := None) && r.k.current == k.current
      && (k.ring.consumer != Some(k.current) ==> k.current in r.k.threads && r.k.threads[k.current] == Cur(k))
      && (k.ring.consumer.Some? ==> r.k.ready == [k.ring.consumer.value] + k.ready)
  {
    hide Core;
    InvWf(k);
    WakeConsumerSafe(k);
  }

  lemma ProducerWoken(k: Kernel)
    requires Inv(k)
    ensures k.ring.producer.Some? ==> k.ring.producer.value in k.threads
    ensures var r := WakeProducer(k);
      && r.Next? && r.k.ring == k.ring.(producer := None) && r.k.current == k.current
      && (k.ring.producer != Some(k.current) ==> k.current in r.k.threads && r.k.threads[k.current] == Cur(k))
      && (k.ring.producer.Some? ==> r.k.ready == [k.ring.producer.value] + k.ready)
  {
    hide Core;
    InvWf(k);
    WakeProducerSafe(k);
  }

  /** The running thread does not sleep in ioq_wait. */
  lemma Awake(k: Kernel)
    requires Inv(k)
    ensures k.ring.consumer != Some(k.current) && k.ring.producer != Some(k.current)
  {
    hide Core;
    if k.ring.consumer.Some? { ConsumerAsleep(k); }
    if k.ring.producer.Some? { ProducerAsleep(k); }
  }

  /** What a put does that the buffer has room for: one byte more at the end, the consumer no longer recorded. */
  ghost predicate Stored(k: Kernel, k': Kernel, b: Byte)
    requires RingOk(k.ring) && RingOk(k'.ring)
  {
    && Contents(k'.ring) == Contents(k.ring) + [b]
    && k'.ring.put == k.ring.put + [b] && k'.ring.got == k.ring.got
    && k'.ring.consumer == None && k'.ring.producer == k.ring.producer
    && (k.ring.consumer.Some? ==> k'.ready == [k.ring.consumer.value] + k.ready)
  }

  /** What a get does that finds a byte: the oldest one taken, the producer no longer recorded. */
  ghost predicate Taken(k: Kernel, k': Kernel)
    requires RingOk(k.ring) && RingOk(k'.ring)
  {
    && Contents(k.ring) != [] && Contents(k'.ring) == Contents(k.ring)[1..]
    && k'.ring.got == k.ring.got + [Contents(k.ring)[0]] && k'.ring.put == k.ring.put
    && k'.ring.producer == None && k'.ring.consumer == k.ring.consumer
    && (k.ring.producer.Some? ==> k'.ready == [k.ring.producer.value] + k.ready)
  }

  /** A put or a get that passes its test is done once and for all; one that does not has changed nothing yet. */
  lemma TransferExact(k: Kernel)
    requires Inv(k) && Wf(k) && Cur(k).pc == RingTest
    ensures RingOk(k.ring) && RingTestStep(k).Next? && RingOk(RingTestStep(k).k.ring)
    ensures var k' := RingTestStep(k).k;
      && k'.current == k.current && k.current in k'.threads
      && (match Cur(k).ring
          case Put(b) => if Full(k.ring) then k'.ring == k.ring && k'.threads[k.current].pc == Acquire(RING, Test)
                         else k'.threads[k.current].pc == User && Stored(k, k', b)
          case Get => if Empty(k.ring) then k'.ring == k.ring && k'.threads[k.current].pc == Acquire(RING, Test)
                      else k'.threads[k.current].pc == User && Taken(k, k')
          case NoRing => false)
  {
    hide Core, ThreadOk, RingOk, WakeConsumer, WakeProducer, Contents;
    KnowRing(k);
    KnowThread(k, k.current);
    DoneOk(Cur(k), k.locks.Keys);
    var done := SetCur(k, Done(Cur(k)));
    match Cur(k).ring
    case Put(b) =>
      if !Full(k.ring) {
        var k1 := done.(ring := Store(k.ring, b));
        StoreOk(k.ring, b);
        TransferSafe(k, Store(k.ring, b));
        Awake(k1);
        ConsumerWoken(k1);
        SameBuffer(k1.ring, k1.ring.(consumer := None));
      }
    case Get =>
      if !Empty(k.ring) {
        var k1 := done.(ring := Fetch(k.ring));
        FetchOk(k.ring);
        TransferSafe(k, Fetch(k.ring));
        Awake(k1);
        ProducerWoken(k1);
        SameBuffer(k1.ring, k1.ring.(producer := None));
      }
    case NoRing => assert false;
  }

  lemma SameBuffer(r: Ring, r': Ring)
    requires RingOk(r) && r' == r.(producer := r'.producer, consumer := r'.consumer)
    ensures RingOk(r') && Contents(r') == Contents(r)
  {
  }

  /** A key is stored like any byte, unless the buffer is full: then it is dropped and nothing changes. */
  lemma KeyExact(k: Kernel, b: Byte)
    requires Inv(k) && Wf(k)
    ensures RingOk(k.ring) && KeyInterrupt(k, b).Next? && RingOk(KeyInterrupt(k, b).k.ring)
    ensures if Full(k.ring) then KeyInterrupt(k, b).k == k else Stored(k, KeyInterrupt(k, b).k, b)
  {
    hide Core, Wf, RingOk, WakeConsumer, Contents;
    KnowRing(k);
    if !Full(k.ring) {
      var k1 := k.(ring := Store(k.ring, b));
      StoreOk(k.ring, b);
      RingOnly(k, Store(k.ring, b));
      ConsumerWoken(k1);
      SameBuffer(k1.ring, k1.ring.(consumer := None));
    }
  }

  lemma NotQueued(k: Kernel)
    requires Inv(k)
    ensures k.current !in k.ready
  {
  }

  // ---------------------------------------------------------------- who runs next

  /** The thread that a step wakes, if any. */
  function WokenBy(k: Kernel, a: Action): Option<Tid>
    requires Wf(k)
  {
    match a
    case Wake(w) => Some(w)
    case Key(_) => if Full(k.ring) then None else k.ring.consumer
    case Exec =>
      (match Cur(k).pc
       case Release(l, Up) => if k.locks[l].waiters == [] then None else Some(k.locks[l].waiters[0])
       case RingTest =>
         (match Cur(k).ring
          case Put(_) => if Full(k.ring) then None else k.ring.consumer
          case Get => if Empty(k.ring) then None else k.ring.producer
          case NoRing => None)
       case _ => None)
    case _ => None
  }

  /** What a step does to the front of the ready list. */
  ghost predicate Fronts(k: Kernel, k': Kernel, woken: Option<Tid>) {
    if k'.current != k.current then woken == None && k.ready != [] && k'.current == k.ready[0]
    else if woken.Some? then k'.ready == [woken.value] + k.ready
    else k.ready <= k'.ready
  }

  lemma SwitchFronts(k: Kernel, k1: Kernel)
    requires Inv(k) && k1.current == k.current && k1.ready == k.ready && k1.current in k1.threads
    requires (forall t :: t in k1.ready ==> t in k1.threads) && Schedule(k1).Next?
    ensures Fronts(k, Schedule(k1).k, None)
  {
    NotQueued(k);
    hide Core;
  }

  lemma ExecFronts(k: Kernel)
    requires Inv(k) && Wf(k) && ExecStep(k).Next?
    ensures Fronts(k, ExecStep(k).k, WokenBy(k, Exec))
  {
    hide Core, Schedule, Fronts, ThreadOk;
    NotQueued(k);
    match Cur(k).pc
    case Acquire(l, phase) => AcquireFronts(k, l, phase);
    case RingTest => TransferFronts(k);
    case RingWait =>
      NobodyWaits(k);
      RingWaitEq(k);
      SwitchFronts(k, RingWaiting(k));
    case _ => OtherFronts(k);
  }

  lemma AcquireFronts(k: Kernel, l: LockId, phase: AcquirePhase)
    requires Inv(k) && Wf(k) && Cur(k).pc == Acquire(l, phase) && ExecStep(k).Next?
    ensures Fronts(k, ExecStep(k).k, None)
  {
    hide Core, Schedule;
    if (phase == Down || phase == Retry) && k.locks[l].value == 0 {
      BlockOnLock(k, l);
      BlockOnLockEq(k, l);
      SwitchFronts(k, Moved(k, BlockedOn(Cur(k), l), l, k.locks[l].(waiters := k.locks[l].waiters + [k.current]), k.ring));
      hide SemaDown, Fronts;
    }
  }

  lemma TransferFronts(k: Kernel)
    requires Inv(k) && Wf(k) && Cur(k).pc == RingTest
    ensures RingTestStep(k).Next? && Fronts(k, RingTestStep(k).k, WokenBy(k, Exec))
  {
    hide Core, ThreadOk, RingOk, Contents, Inv;
    TransferExact(k);
    TransferReady(k);
  }

  lemma TransferReady(k: Kernel)
    requires Wf(k) && Cur(k).pc == RingTest && RingTestStep(k).Next?
    ensures WokenBy(k, Exec) == None ==> RingTestStep(k).k.ready == k.ready
    ensures WokenBy(k, Exec).Some? ==> RingTestStep(k).k.ready == [WokenBy(k, Exec).value] + k.ready
  {
  }

  lemma OtherFronts(k: Kernel)
    requires Wf(k) && !Cur(k).pc.Acquire? && Cur(k).pc != RingTest && Cur(k).pc != RingWait && ExecStep(k).Next?
    ensures Fronts(k, ExecStep(k).k, WokenBy(k, Exec))
  {
  }

  lemma StepFronts(k: Kernel, a: Action)
    requires Inv(k) && Wf(k) && Enabled(k, a) && Step(k, a).Next?
    ensures Fronts(k, Step(k, a).k, WokenBy(k, a))
  {
    hide Core, ExecStep, Schedule, ThreadBlock;
    match a
    case Exec => ExecFronts(k);
    case Sleep(stat) =>
      SleepEq(k, stat);
      SwitchFronts(k, SetCur(k, Cur(k).(pc := Asleep, status := stat)));
    case Clock => if Cur(k).ticks == 0 { SwitchFronts(k, Counted(k)); }
    case _ =>
  }

  /** The thread the processor goes to when it next changes hands along the run. */
  ghost function NextToRun(k: Kernel, acts: seq<Action>): Option<Tid>
    requires Legal(k, acts)
    decreases |acts|
  {
    if acts == [] || Step(k, acts[0]).Failed? then None
    else
      var k1 := Step(k, acts[0]).k;
      if k1.current != k.current then Some(k1.current) else NextToRun(k1, acts[1..])
  }

  /** The thread woken last before then; t if none has been. */
  ghost function LastWoken(k: Kernel, acts: seq<Action>, t: Tid): Tid
    requires Legal(k, acts)
    decreases |acts|
  {
    if acts == [] || Step(k, acts[0]).Failed? then t
    else
      var k1 := Step(k, acts[0]).k;
      var woken := WokenBy(k, acts[0]);
      if k1.current != k.current then t else LastWoken(k1, acts[1..], if woken.Some? then woken.value else t)
  }

  /** With t at the front of the ready list, the processor next goes to the thread woken last, t if none is. */
  lemma {:induction false} LastWokenRunsNext(k: Kernel, acts: seq<Action>, t: Tid)
    requires Inv(k) && Legal(k, acts) && k.ready != [] && k.ready[0] == t
    ensures NextToRun(k, acts) == None || NextToRun(k, acts) == Some(LastWoken(k, acts, t))
    decreases |acts|
  {
    hide Core, Wf, Step, Enabled, WokenBy;
    if acts != [] && Step(k, acts[0]).Next? {
      StepFronts(k, acts[0]);
      StepSafe(k, acts[0]);
      var k1 := Step(k, acts[0]).k;
      if k1.current == k.current {
        LastWokenRunsNext(k1, acts[1..], k1.ready[0]);
      }
    }
  }

  /**
    thread_unblock(t): whatever happens then, the processor next goes to the thread woken last, which is t unless
    another is woken before it changes hands.
  */
  lemma WokenRunsNext(k: Kernel, t: Tid, acts: seq<Action>)
    requires Inv(k) && t in k.threads && k.threads[t].pc == Asleep && Sleeping(k.threads[t].status)
    ensures ThreadUnblock(k, t).Next?
    ensures var k1 := ThreadUnblock(k, t).k;
      Legal(k1, acts) ==> NextToRun(k1, acts) == None || NextToRun(k1, acts) == Some(LastWoken(k1, acts, t))
  {
    hide Core, Step, Legal, NextToRun, LastWoken;
    WakeSafe(k, t);
    var k1 := ThreadUnblock(k, t).k;
    if Legal(k1, acts) { LastWokenRunsNext(k1, acts, t); }
  }

  /**
    sema_up with threads waiting: the one that has waited longest is woken, with value back at 1, and the processor
    next goes to it unless another is woken before it changes hands.
  */
  lemma LongestWaiterRunsNext(k: Kernel, l: LockId, acts: seq<Action>)
    requires Inv(k) && Wf(k) && Cur(k).pc == Release(l, Up) && k.locks[l].waiters != []
    ensures Enabled(k, Exec) && Step(k, Exec).Next?
    ensures var k1 := Step(k, Exec).k;
      && k1.current == k.current && l in k1.locks
      && k1.locks[l].waiters == k.locks[l].waiters[1..] && k1.locks[l].value == 1
      && (Legal(k1, acts) ==>
            NextToRun(k1, acts) == None || NextToRun(k1, acts) == Some(LastWoken(k1, acts, k.locks[l].waiters[0])))
  {
    hide Core, Legal, NextToRun, LastWoken;
    StepSafe(k, Exec);
    EmptyExactly(k, Exec);
    SemaUpEffect(k, l);
    var k1 := Step(k, Exec).k;
    hide Step;
    if Legal(k1, acts) { LastWokenRunsNext(k1, acts, k.locks[l].waiters[0]); }
  }

  lemma SemaUpEffect(k: Kernel, l: LockId)
    requires Wf(k) && l in k.locks && k.locks[l].waiters != [] && SemaUp(k, l).Next?
    ensures var k1 := SemaUp(k, l).k;
      && k1.ready == [k.locks[l].waiters[0]] + k.ready && k1.current == k.current && l in k1.locks
      && k1.locks[l].waiters == k.locks[l].waiters[1..] && k1.locks[l].value == 1
  {
  }
}
