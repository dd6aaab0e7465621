/**
 Bounded mutex queues with at most one thread that waits on a side: one that calls `wait_pop`, or one
 that calls `push`. Then one notification answers for everything that side waits for.
 */
module RingSoleWaiter {
  import opened Counting
  import opened RingQueue
  import opened RingGuarantees
  import opened Wrappers

  /**
   Which calls a program makes: `try_push` and `try_pop` at all, `wait_pop` by threads below
   `consumers`, and `push` by the next `producers` threads.
   */
  datatype Usage = Usage(tryPush: bool, tryPop: bool, consumers: nat, producers: nat)

  predicate IsConsumer(c: Usage, t: nat) { t < c.consumers }

  predicate IsProducer(c: Usage, t: nat) { c.consumers <= t < c.consumers + c.producers }

  ghost predicate Respects(e: Event, c: Usage) {
    Allowed(e, c.tryPush, c.tryPop) &&
    (e.action.Call? ==>
      (e.action.op.WaitPop? ==> IsConsumer(c, e.thread)) && (e.action.op.Push? ==> IsProducer(c, e.thread)))
  }

  ghost predicate AllRespect(es: seq<Event>, c: Usage) {
    forall i :: 0 <= i < |es| ==> Respects(es[i], c)
  }

  /** Only consumers wait for values and only producers for room. */
  ghost predicate Waiters(s: State, c: Usage) {
    forall u :: 0 <= u < |s.threads| ==>
      (InWaitC(s.threads[u]) ==> IsConsumer(c, u)) && (InWaitP(s.threads[u]) ==> IsProducer(c, u))
  }

  /** A thread enters a wait only by calling `wait_pop` or `push`. */
  lemma WaitersCalled<T>(s: State<T>, e: Event<T>, u: nat)
    requires Enabled(s, e) && u < |s.threads|
    ensures |Next(s, e).threads| == |s.threads|
    ensures InWaitC(Next(s, e).threads[u]) ==> InWaitC(s.threads[u]) || e == Event(u, Call(WaitPop))
    ensures InWaitP(Next(s, e).threads[u]) ==>
      InWaitP(s.threads[u]) || (e.thread == u && e.action.Call? && e.action.op.Push?)
  {
    hide CallStep, RelockStep;
    match e.action
    case Call(op) => CallEnters(s, e.thread, op, u);
    case Relock => RelockEnters(s, e.thread, u);
    case _ =>
  }

  lemma CallEnters<T>(s: State<T>, t: nat, op: Operation<T>, u: nat)
    requires t < |s.threads| && (op.TryPush? ==> op.sleeper < |s.threads|) && u < |s.threads|
    ensures var s' := CallStep(s, t, op);
      && |s'.threads| == |s.threads|
      && (InWaitC(s'.threads[u]) ==> InWaitC(s.threads[u]) || (t == u && op.WaitPop?))
      && (InWaitP(s'.threads[u]) ==> InWaitP(s.threads[u]) || (t == u && op.Push?))
  {
  }

  lemma RelockEnters<T>(s: State<T>, t: nat, u: nat)
    requires t < |s.threads| && u < |s.threads|
    ensures var s' := RelockStep(s, t);
      && |s'.threads| == |s.threads|
      && (InWaitC(s'.threads[u]) ==> InWaitC(s.threads[u]))
      && (InWaitP(s'.threads[u]) ==> InWaitP(s.threads[u]))
  {
  }

  lemma NextWaiters<T>(s: State<T>, e: Event<T>, c: Usage)
    requires Waiters(s, c) && Enabled(s, e) && Respects(e, c)
    ensures Waiters(Next(s, e), c)
  {
    hide Next;
    NextShape(s, e);
    forall u | 0 <= u < |s.threads|
      ensures InWaitC(Next(s, e).threads[u]) ==> IsConsumer(c, u)
      ensures InWaitP(Next(s, e).threads[u]) ==> IsProducer(c, u)
    {
      WaitersCalled(s, e, u);
    }
  }

  /** A consumer asleep beside a value is about to be notified. */
  ghost predicate AnsweredC(s: State) {
    SleepersC(s) > 0 && s.queue != [] ==> DebtsC(s) > 0
  }

  /** While the queue is open, so is a producer asleep beside a free place. */
  ghost predicate AnsweredP(s: State) {
    !s.closed && SleepersP(s) > 0 && |s.queue| < s.capacity ==> DebtsP(s) > 0
  }

  /** Where a thread is inside the only wait of its side, nobody else sleeps on that side. */
  lemma SoleWaiter<T>(s: State<T>, c: Usage, t: nat)
    requires Waiters(s, c) && t < |s.threads|
    ensures c.consumers <= 1 && InWaitC(s.threads[t]) ==> SleepersC(s) == One(s.threads[t].AsleepConsumer?)
    ensures c.producers <= 1 && InWaitP(s.threads[t]) ==> SleepersP(s) == One(s.threads[t].AsleepProducer?)
  {
    SetCounts(s, t, Idle(Nothing));
    AsleepCounts(Set(s, t, Idle(Nothing)));
  }

  lemma PushAnswered<T>(s: State<T>, t: nat, v: T)
    requires t < |s.threads| && (s.threads[t].Idle? || s.threads[t].WokenProducer?)
    requires s.waitingConsumers == InsideC(s) && |s.queue| <= s.capacity
    ensures AnsweredC(s) ==> AnsweredC(PushStep(s, t, v))
    ensures AnsweredP(s) ==> AnsweredP(PushStep(s, t, v))
  {
    SetCounts(s, t, PushStep(s, t, v).threads[t]);
    SleepersInside(s);
  }

  lemma PopAnswered<T>(s: State<T>, t: nat)
    requires t < |s.threads| && (s.threads[t].Idle? || s.threads[t].WokenConsumer?)
    requires s.waitingProducers == InsideP(s) && |s.queue| <= s.capacity
    ensures AnsweredC(s) ==> AnsweredC(PopStep(s, t))
    ensures AnsweredP(s) ==> AnsweredP(PopStep(s, t))
  {
    SetCounts(s, t, PopStep(s, t).threads[t]);
    SleepersInside(s);
  }

  lemma TryPushAnswered<T>(s: State<T>, c: Usage, t: nat, v: T, w: nat)
    requires Enabled(s, Event(t, Call(TryPush(v, w)))) && Waiters(s, c)
    requires s.waitingConsumers == InsideC(s) && |s.queue| <= s.capacity
    ensures c.consumers <= 1 && AnsweredC(s) ==> AnsweredC(TryPushStep(s, t, v, w))
    ensures AnsweredP(s) ==> AnsweredP(TryPushStep(s, t, v, w))
  {
    hide WakeConsumer;
    SleepersInside(s);
    if NotifiesUnderLock(s) {
      WakeFrame(s, w, t);
      WakeAnswersC(s, c, w);
      SetCounts(WakeConsumer(s, w), t, Idle(PushResult(true)));
    } else {
      SetCounts(s, t, TryPushStep(s, t, v, w).threads[t]);
    }
  }

  /** A notification leaves no consumer asleep if there is only one. */
  lemma WakeAnswersC<T>(s: State<T>, c: Usage, w: nat)
    requires Waiters(s, c) && w < |s.threads| && (s.threads[w].AsleepConsumer? || NoConsumerAsleep(s))
    ensures var s' := WakeConsumer(s, w);
      && (c.consumers <= 1 ==> SleepersC(s') == 0) && DebtsC(s') == DebtsC(s)
      && SleepersP(s') == SleepersP(s) && DebtsP(s') == DebtsP(s)
  {
    WakeCoversC(s, w);
    SoleWaiter(s, c, w);
    if s.threads[w].AsleepConsumer? { SetCounts(s, w, WokenConsumer); } else { AsleepCounts(s); }
  }

  lemma WakeAnswersP<T>(s: State<T>, c: Usage, w: nat)
    requires Waiters(s, c) && w < |s.threads| && (s.threads[w].AsleepProducer? || NoProducerAsleep(s))
    ensures var s' := WakeProducer(s, w);
      && (c.producers <= 1 ==> SleepersP(s') == 0) && DebtsP(s') == DebtsP(s)
      && SleepersC(s') == SleepersC(s) && DebtsC(s') == DebtsC(s)
  {
    WakeCoversP(s, w);
    SoleWaiter(s, c, w);
    if s.threads[w].AsleepProducer? { SetCounts(s, w, WokenProducer(s.threads[w].value)); } else { AsleepCounts(s); }
  }

  lemma NotifyOneAnswered<T>(s: State<T>, c: Usage, t: nat, w: nat)
    requires Enabled(s, Event(t, NotifyOne(w))) && Waiters(s, c)
    ensures c.consumers <= 1 && AnsweredC(s) ==> AnsweredC(NotifyOneStep(s, t, w))
    ensures c.producers <= 1 && AnsweredP(s) ==> AnsweredP(NotifyOneStep(s, t, w))
  {
    hide WakeConsumer, WakeProducer;
    WakeFrame(s, w, t);
    if s.threads[t].OwesConsumer? {
      WakeAnswersC(s, c, w);
      SetCounts(WakeConsumer(s, w), t, Idle(PushResult(true)));
    } else {
      WakeAnswersP(s, c, w);
      SetCounts(WakeProducer(s, w), t, Idle(PopResult(Some(s.threads[t].out))));
    }
  }

  lemma NotifyAllAnswered<T>(s: State<T>, t: nat)
    requires Enabled(s, Event(t, NotifyAll))
    ensures AnsweredC(s) ==> AnsweredC(NotifyAllStep(s, t))
    ensures AnsweredP(s) ==> AnsweredP(NotifyAllStep(s, t))
  {
    if s.threads[t].ClosingConsumers? {
      RouseCCounts(s.threads);
      SetCounts(s.(threads := RousedC(s.threads)), t, ClosingProducers);
    } else {
      RousePCounts(s.threads);
      SetCounts(s.(threads := RousedP(s.threads)), t, Idle(CloseResult));
    }
  }

  /** A step that puts nobody to sleep, sends no notification and leaves the queue as it is. */
  lemma QuietAnswered<T>(s: State<T>, t: nat, th: Thread<T>, closed: bool)
    requires t < |s.threads| && !s.threads[t].OwesConsumer? && !s.threads[t].OwesProducer?
    requires !th.AsleepConsumer? && !th.AsleepProducer? && (s.closed ==> closed)
    ensures var s' := Set(s.(closed := closed), t, th);
      (AnsweredC(s) ==> AnsweredC(s')) && (AnsweredP(s) ==> AnsweredP(s'))
  {
    SetCounts(s, t, th);
    assert Set(s.(closed := closed), t, th).threads == Set(s, t, th).threads;
  }

  lemma TryPopAnsweredC<T>(s: State<T>, t: nat)
    requires t < |s.threads| && s.threads[t].Idle?
    ensures AnsweredC(s) ==> AnsweredC(TryPopStep(s, t))
  {
    SetCounts(s, t, TryPopStep(s, t).threads[t]);
  }

  lemma RelockAnswered<T>(s: State<T>, t: nat)
    requires Enabled(s, Event(t, Relock)) && Inv(s)
    ensures AnsweredC(s) ==> AnsweredC(RelockStep(s, t))
    ensures AnsweredP(s) ==> AnsweredP(RelockStep(s, t))
  {
    hide Inv, PushStep, PopStep;
    SleepersWait(s);
    if s.threads[t].WokenConsumer? {
      PopAnswered(s.(waitingConsumers := Less(s.waitingConsumers)), t);
    } else {
      PushAnswered(s.(waitingProducers := Less(s.waitingProducers)), t, s.threads[t].value);
    }
  }

  lemma NextAnswered<T>(s: State<T>, e: Event<T>, c: Usage)
    requires Inv(s) && Waiters(s, c) && Enabled(s, e) && Respects(e, c)
    ensures c.consumers <= 1 && AnsweredC(s) ==> AnsweredC(Next(s, e))
    ensures c.producers <= 1 && !c.tryPop && AnsweredP(s) ==> AnsweredP(Next(s, e))
  {
    hide Inv, PushStep, PopStep, TryPushStep, TryPopStep, NotifyOneStep, NotifyAllStep, RelockStep;
    hide Waiters, AnsweredC, AnsweredP;
    var t := e.thread;
    SleepersWait(s);
    match e.action
    case Call(Push(v)) => PushAnswered(s, t, v);
    case Call(WaitPop) => PopAnswered(s, t);
    case Call(TryPush(v, w)) => TryPushAnswered(s, c, t, v, w);
    case Call(TryPop) => TryPopAnsweredC(s, t);
    case Call(Close) => QuietAnswered(s, t, ClosingConsumers, true);
    case NotifyOne(w) => NotifyOneAnswered(s, c, t, w);
    case NotifyAll => NotifyAllAnswered(s, t);
    case WakeSpuriously =>
      QuietAnswered(s, t, WakeStep(s, t).threads[t], s.closed);
      assert WakeStep(s, t) == Set(s.(closed := s.closed), t, WakeStep(s, t).threads[t]);
    case Relock => RelockAnswered(s, t);
  }

  // Programs in which nobody pushes, or nobody pops.

  /** Nobody pushes, or nobody pops, so nothing that anybody sleeps for ever comes. */
  ghost predicate OneSided(s: State, c: Usage) {
    && (c.producers == 0 && !c.tryPush ==> s.queue == [])
    && (c.consumers == 0 && !c.tryPop && !s.closed && SleepersP(s) > 0 ==> |s.queue| >= s.capacity)
  }

  lemma PushOneSided<T>(s: State<T>, c: Usage, t: nat, v: T)
    requires OneSided(s, c) && t < |s.threads| && IsProducer(c, t)
    requires s.threads[t].Idle? || s.threads[t].WokenProducer?
    ensures OneSided(PushStep(s, t, v), c)
  {
    SetCounts(s, t, PushStep(s, t, v).threads[t]);
  }

  lemma PopOneSided<T>(s: State<T>, c: Usage, t: nat)
    requires OneSided(s, c) && t < |s.threads| && IsConsumer(c, t)
    ensures OneSided(PopStep(s, t), c)
  {
  }

  /** Steps that add no sleeping producer and do not change the queue. */
  lemma QuietOneSided<T>(s: State<T>, s': State<T>, c: Usage)
    requires OneSided(s, c) && s'.queue == s.queue && s'.capacity == s.capacity && (s.closed ==> s'.closed)
    requires SleepersP(s') <= SleepersP(s)
    ensures OneSided(s', c)
  {
  }

  lemma TryOneSided<T>(s: State<T>, e: Event<T>, c: Usage)
    requires Enabled(s, e) && Respects(e, c) && OneSided(s, c)
    requires e.action.Call? && (e.action.op.TryPush? || e.action.op.TryPop?)
    ensures OneSided(Next(s, e), c)
  {
    var t := e.thread;
    match e.action.op
    case TryPush(v, w) =>
      if NotifiesUnderLock(s) {
        WakeFrame(s, w, t);
        WakeCoversC(s, w);
        SetCounts(WakeConsumer(s, w), t, Idle(PushResult(true)));
      } else {
        SetCounts(s, t, TryPushStep(s, t, v, w).threads[t]);
      }
    case TryPop => SetCounts(s, t, TryPopStep(s, t).threads[t]);
    case _ =>
  }

  lemma WakeOneSided<T>(s: State<T>, e: Event<T>, c: Usage)
    requires Enabled(s, e) && OneSided(s, c) && (e.action.NotifyOne? || e.action.NotifyAll? || e.action.WakeSpuriously?)
    ensures OneSided(Next(s, e), c)
  {
    hide OneSided;
    var t := e.thread;
    if e.action.NotifyOne? {
      NotifyOneSleepers(s, t, e.action.sleeper);
    } else if e.action.NotifyAll? {
      NotifyAllSleepers(s, t);
    } else {
      SetCounts(s, t, WakeStep(s, t).threads[t]);
    }
    QuietOneSided(s, Next(s, e), c);
  }

  lemma NotifyOneSleepers<T>(s: State<T>, t: nat, w: nat)
    requires Enabled(s, Event(t, NotifyOne(w)))
    ensures var s' := NotifyOneStep(s, t, w);
      SleepersP(s') <= SleepersP(s) && s' == s.(threads := s'.threads)
  {
    hide WakeConsumer, WakeProducer;
    WakeFrame(s, w, t);
    if s.threads[t].OwesConsumer? {
      WakeCoversC(s, w);
      SetCounts(WakeConsumer(s, w), t, Idle(PushResult(true)));
    } else {
      WakeCoversP(s, w);
      SetCounts(WakeProducer(s, w), t, Idle(PopResult(Some(s.threads[t].out))));
    }
  }

  lemma NotifyAllSleepers<T>(s: State<T>, t: nat)
    requires Enabled(s, Event(t, NotifyAll))
    ensures SleepersP(NotifyAllStep(s, t)) <= SleepersP(s)
  {
    if s.threads[t].ClosingConsumers? {
      RouseCCounts(s.threads);
      SetCounts(s.(threads := RousedC(s.threads)), t, ClosingProducers);
    } else {
      RousePCounts(s.threads);
      SetCounts(s.(threads := RousedP(s.threads)), t, Idle(CloseResult));
    }
  }

  lemma NextOneSided<T>(s: State<T>, e: Event<T>, c: Usage)
    requires Enabled(s, e) && Respects(e, c) && Waiters(s, c) && OneSided(s, c)
    ensures OneSided(Next(s, e), c)
  {
    hide OneSided, PushStep, PopStep, TryPushStep, TryPopStep;
    var t := e.thread;
    match e.action
    case Call(Push(v)) => PushOneSided(s, c, t, v);
    case Call(WaitPop) => PopOneSided(s, c, t);
    case Call(Close) =>
      SetCounts(s, t, ClosingConsumers);
      QuietOneSided(s, Next(s, e), c);
    case Relock =>
      if s.threads[t].WokenConsumer? {
        SameOneSided(s, s.(waitingConsumers := Less(s.waitingConsumers)), c);
        PopOneSided(s.(waitingConsumers := Less(s.waitingConsumers)), c, t);
      } else {
        SameOneSided(s, s.(waitingProducers := Less(s.waitingProducers)), c);
        PushOneSided(s.(waitingProducers := Less(s.waitingProducers)), c, t, s.threads[t].value);
      }
    case Call(_) => TryOneSided(s, e, c);
    case _ => WakeOneSided(s, e, c);
  }

  lemma SameOneSided<T>(s: State<T>, s': State<T>, c: Usage)
    requires OneSided(s, c) && s'.queue == s.queue && s'.capacity == s.capacity && s'.closed == s.closed
    requires s'.threads == s.threads
    ensures OneSided(s', c)
  {
  }

  lemma {:induction false} RunsAnswered<T>(s: State<T>, es: seq<Event<T>>, c: Usage)
    requires Inv(s) && Waiters(s, c) && OneSided(s, c) && ValidRun(s, es) && AllRespect(es, c)
    ensures Waiters(Exec(s, es), c) && OneSided(Exec(s, es), c)
    ensures c.consumers <= 1 && AnsweredC(s) ==> AnsweredC(Exec(s, es))
    ensures c.producers <= 1 && !c.tryPop && AnsweredP(s) ==> AnsweredP(Exec(s, es))
    decreases |es|
  {
    hide Next, Inv, Enabled, Waiters, OneSided, AnsweredC, AnsweredP, Respects;
    if es != [] {
      NextInv(s, es[0]);
      NextWaiters(s, es[0], c);
      NextOneSided(s, es[0], c);
      NextAnswered(s, es[0], c);
      RunsAnswered(Next(s, es[0]), es[1..], c);
    }
  }
}
