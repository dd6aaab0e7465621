/** What the bounded mutex queues guarantee to threads asleep in `push` and `wait_pop`. */
module RingGuarantees {
  import opened RingQueue
  import opened Wrappers

  /** While a consumer sleeps, every queued value has a pending notification or an awake waiter. */
  ghost predicate CoveredC(s: State) {
    SleepersC(s) > 0 ==> |s.queue| <= DebtsC(s) + WakersC(s)
  }

  /** While the queue is open and a producer sleeps, so has every free place. */
  ghost predicate CoveredP(s: State) {
    !s.closed && SleepersP(s) > 0 ==> s.capacity - |s.queue| <= DebtsP(s) + WakersP(s)
  }

  /** When consumers are covered however many they are, by version, capacity and use of `try_push`. */
  predicate CoversConsumers(version: Version, capacity: nat, tryPush: bool) {
    capacity <= 1 || (version.V2? && !tryPush)
  }

  /** When producers are, by version, capacity and use of `try_pop`. */
  predicate CoversProducers(version: Version, capacity: nat, tryPop: bool) {
    !tryPop && (version.V2? || capacity <= 1)
  }

  lemma PushCoveredC<T>(s: State<T>, t: nat, v: T)
    requires t < |s.threads| && (s.threads[t].Idle? || s.threads[t].WokenProducer?)
    requires s.waitingConsumers == InsideC(s) && CoveredC(s) && (s.version.V2? || s.capacity <= 1)
    ensures CoveredC(PushStep(s, t, v))
  {
    SetCounts(s, t, PushStep(s, t, v).threads[t]);
    SleepersInside(s);
  }

  lemma PopCoveredC<T>(s: State<T>, t: nat)
    requires t < |s.threads| && (s.threads[t].Idle? || s.threads[t].WokenConsumer?) && CoveredC(s)
    ensures CoveredC(PopStep(s, t))
  {
    SetCounts(s, t, PopStep(s, t).threads[t]);
  }

  lemma PushCoveredP<T>(s: State<T>, t: nat, v: T)
    requires t < |s.threads| && (s.threads[t].Idle? || s.threads[t].WokenProducer?) && CoveredP(s)
    requires |s.queue| <= s.capacity
    ensures CoveredP(PushStep(s, t, v))
  {
    SetCounts(s, t, PushStep(s, t, v).threads[t]);
  }

  lemma PopCoveredP<T>(s: State<T>, t: nat)
    requires t < |s.threads| && (s.threads[t].Idle? || s.threads[t].WokenConsumer?)
    requires s.waitingProducers == InsideP(s) && |s.queue| <= s.capacity && CoveredP(s)
    requires s.version.V2? || s.capacity <= 1
    ensures CoveredP(PopStep(s, t))
  {
    SetCounts(s, t, PopStep(s, t).threads[t]);
    SleepersInside(s);
  }

  /** Waking a consumer, or finding none asleep, pays for one more value. */
  lemma WakeCoversC<T>(s: State<T>, w: nat)
    requires w < |s.threads| && (s.threads[w].AsleepConsumer? || NoConsumerAsleep(s))
    ensures var s' := WakeConsumer(s, w);
      && SleepersC(s') <= SleepersC(s) && DebtsC(s') == DebtsC(s)
      && (SleepersC(s') > 0 ==> WakersC(s') == WakersC(s) + 1)
      && SleepersP(s') == SleepersP(s) && DebtsP(s') == DebtsP(s) && WakersP(s') == WakersP(s)
  {
    if s.threads[w].AsleepConsumer? { SetCounts(s, w, WokenConsumer); }
    AsleepCounts(s);
  }

  lemma WakeCoversP<T>(s: State<T>, w: nat)
    requires w < |s.threads| && (s.threads[w].AsleepProducer? || NoProducerAsleep(s))
    ensures var s' := WakeProducer(s, w);
      && SleepersP(s') <= SleepersP(s) && DebtsP(s') == DebtsP(s)
      && (SleepersP(s') > 0 ==> WakersP(s') == WakersP(s) + 1)
      && SleepersC(s') == SleepersC(s) && DebtsC(s') == DebtsC(s) && WakersC(s') == WakersC(s)
  {
    if s.threads[w].AsleepProducer? { SetCounts(s, w, WokenProducer(s.threads[w].value)); }
    AsleepCounts(s);
  }

  lemma NotifyOneCovered<T>(s: State<T>, t: nat, w: nat)
    requires Enabled(s, Event(t, NotifyOne(w)))
    ensures CoveredC(s) ==> CoveredC(NotifyOneStep(s, t, w))
    ensures CoveredP(s) ==> CoveredP(NotifyOneStep(s, t, w))
  {
    hide WakeConsumer, WakeProducer;
    WakeFrame(s, w, t);
    if s.threads[t].OwesConsumer? {
      WakeCoversC(s, w);
      SetCounts(WakeConsumer(s, w), t, Idle(PushResult(true)));
    } else {
      WakeCoversP(s, w);
      SetCounts(WakeProducer(s, w), t, Idle(PopResult(Some(s.threads[t].out))));
    }
  }

  lemma TryPushCovered<T>(s: State<T>, t: nat, v: T, w: nat)
    requires Enabled(s, Event(t, Call(TryPush(v, w)))) && Inv(s)
    ensures s.capacity <= 1 && CoveredC(s) ==> CoveredC(TryPushStep(s, t, v, w))
    ensures CoveredP(s) ==> CoveredP(TryPushStep(s, t, v, w))
  {
    hide WakeConsumer, Inv;
    assert s.waitingConsumers == InsideC(s) by { SleepersWait(s); }
    SleepersInside(s);
    if NotifiesUnderLock(s) {
      WakeFrame(s, w, t);
      WakeCoversC(s, w);
      SetCounts(WakeConsumer(s, w), t, Idle(PushResult(true)));
    } else {
      SetCounts(s, t, TryPushStep(s, t, v, w).threads[t]);
    }
  }

  lemma SleepersWait<T>(s: State<T>)
    requires Inv(s)
    ensures s.waitingConsumers == InsideC(s) && s.waitingProducers == InsideP(s) && |s.queue| <= s.capacity
  {
  }

  lemma TryPopCoveredC<T>(s: State<T>, t: nat)
    requires t < |s.threads| && s.threads[t].Idle? && CoveredC(s)
    ensures CoveredC(TryPopStep(s, t))
  {
    SetCounts(s, t, TryPopStep(s, t).threads[t]);
  }

  lemma NotifyAllCovered<T>(s: State<T>, t: nat)
    requires Enabled(s, Event(t, NotifyAll))
    ensures CoveredC(s) ==> CoveredC(NotifyAllStep(s, t))
    ensures CoveredP(s) ==> CoveredP(NotifyAllStep(s, t))
  {
    if s.threads[t].ClosingConsumers? {
      RouseCCounts(s.threads);
      SetCounts(s.(threads := RousedC(s.threads)), t, ClosingProducers);
    } else {
      RousePCounts(s.threads);
      SetCounts(s.(threads := RousedP(s.threads)), t, Idle(CloseResult));
    }
  }

  lemma WakeCovered<T>(s: State<T>, t: nat)
    requires Enabled(s, Event(t, WakeSpuriously))
    ensures CoveredC(s) ==> CoveredC(WakeStep(s, t))
    ensures CoveredP(s) ==> CoveredP(WakeStep(s, t))
  {
    SetCounts(s, t, WakeStep(s, t).threads[t]);
  }

  lemma RelockCovered<T>(s: State<T>, t: nat)
    requires Enabled(s, Event(t, Relock)) && Inv(s)
    ensures CoveredC(s) && (s.version.V2? || s.capacity <= 1) ==> CoveredC(RelockStep(s, t))
    ensures CoveredP(s) && (s.version.V2? || s.capacity <= 1) ==> CoveredP(RelockStep(s, t))
  {
    hide Inv, PushStep, PopStep;
    SleepersWait(s);
    var s1 := if s.threads[t].WokenConsumer? then s.(waitingConsumers := Less(s.waitingConsumers))
              else s.(waitingProducers := Less(s.waitingProducers));
    if s.threads[t].WokenConsumer? {
      if CoveredC(s) { PopCoveredC(s1, t); }
      if CoveredP(s) && (s.version.V2? || s.capacity <= 1) { PopCoveredP(s1, t); }
    } else {
      if CoveredC(s) && (s.version.V2? || s.capacity <= 1) { PushCoveredC(s1, t, s.threads[t].value); }
      if CoveredP(s) { PushCoveredP(s1, t, s.threads[t].value); }
    }
  }

  /** Nobody calls `try_push` unless `tryPush`, nor `try_pop` unless `tryPop`. */
  ghost predicate Allowed(e: Event, tryPush: bool, tryPop: bool) {
    e.action.Call? ==> (e.action.op.TryPush? ==> tryPush) && (e.action.op.TryPop? ==> tryPop)
  }

  ghost predicate AllAllowed(es: seq<Event>, tryPush: bool, tryPop: bool) {
    forall i :: 0 <= i < |es| ==> Allowed(es[i], tryPush, tryPop)
  }

  lemma NextCoveredC<T>(s: State<T>, e: Event<T>, tryPush: bool)
    requires Inv(s) && CoveredC(s) && Enabled(s, e) && Allowed(e, tryPush, true)
    requires CoversConsumers(s.version, s.capacity, tryPush)
    ensures CoveredC(Next(s, e))
  {
    hide Inv, PushStep, PopStep, TryPushStep, TryPopStep, NotifyOneStep, NotifyAllStep, RelockStep, CoveredP;
    var t := e.thread;
    SleepersWait(s);
    match e.action
    case Call(Push(v)) => PushCoveredC(s, t, v);
    case Call(WaitPop) => PopCoveredC(s, t);
    case Call(TryPush(v, w)) => TryPushCovered(s, t, v, w);
    case Call(TryPop) => TryPopCoveredC(s, t);
    case Call(Close) => SetCounts(s, t, ClosingConsumers);
    case NotifyOne(w) => NotifyOneCovered(s, t, w);
    case NotifyAll => NotifyAllCovered(s, t);
    case WakeSpuriously => WakeCovered(s, t);
    case Relock => RelockCovered(s, t);
  }

  lemma NextCoveredP<T>(s: State<T>, e: Event<T>, tryPop: bool)
    requires Inv(s) && CoveredP(s) && Enabled(s, e) && Allowed(e, true, tryPop)
    requires CoversProducers(s.version, s.capacity, tryPop)
    ensures CoveredP(Next(s, e))
  {
    hide Inv, PushStep, PopStep, TryPushStep, TryPopStep, NotifyOneStep, NotifyAllStep, RelockStep, CoveredC;
    var t := e.thread;
    SleepersWait(s);
    match e.action
    case Call(Push(v)) => PushCoveredP(s, t, v);
    case Call(WaitPop) => PopCoveredP(s, t);
    case Call(TryPush(v, w)) => TryPushCovered(s, t, v, w);
    case Call(Close) => SetCounts(s, t, ClosingConsumers);
    case NotifyOne(w) => NotifyOneCovered(s, t, w);
    case NotifyAll => NotifyAllCovered(s, t);
    case WakeSpuriously => WakeCovered(s, t);
    case Relock => RelockCovered(s, t);
  }

  lemma {:induction false} RunsCoveredC<T>(s: State<T>, es: seq<Event<T>>, tryPush: bool)
    requires Inv(s) && CoveredC(s) && ValidRun(s, es) && AllAllowed(es, tryPush, true)
    requires CoversConsumers(s.version, s.capacity, tryPush)
    ensures CoveredC(Exec(s, es))
    decreases |es|
  {
    hide Next, Inv, CoveredC, Enabled;
    if es != [] {
      NextInv(s, es[0]);
      NextShape(s, es[0]);
      NextCoveredC(s, es[0], tryPush);
      RunsCoveredC(Next(s, es[0]), es[1..], tryPush);
    }
  }

  lemma {:induction false} RunsCoveredP<T>(s: State<T>, es: seq<Event<T>>, tryPop: bool)
    requires Inv(s) && CoveredP(s) && ValidRun(s, es) && AllAllowed(es, true, tryPop)
    requires CoversProducers(s.version, s.capacity, tryPop)
    ensures CoveredP(Exec(s, es))
    decreases |es|
  {
    hide Next, Inv, CoveredP, Enabled;
    if es != [] {
      NextInv(s, es[0]);
      NextShape(s, es[0]);
      NextCoveredP(s, es[0], tryPop);
      RunsCoveredP(Next(s, es[0]), es[1..], tryPop);
    }
  }

  /**
   Version 2 under blocking clients, any number of threads and spurious wakeups: a sleeping consumer
   implies at most one value per pending notification or woken consumer, while the queue is open a
   sleeping producer implies at most one free place per pending notification or woken producer, and
   after `close` every sleeper still has a `notify_all` to come.
   */
  lemma {:induction false} TwoSidedNoStranding<T>(capacity: nat, n: nat, es: seq<Event<T>>)
    requires ValidRun(Init(V2, capacity, n), es) && AllAllowed(es, false, false)
    ensures var s := Exec(Init(V2, capacity, n), es);
      && (SleepersC(s) > 0 ==> |s.queue| <= DebtsC(s) + WakersC(s))
      && (!s.closed && SleepersP(s) > 0 ==> s.capacity - |s.queue| <= DebtsP(s) + WakersP(s))
      && (s.closed && SleepersC(s) > 0 ==> CloseDebtsC(s) > 0)
      && (s.closed && SleepersP(s) > 0 ==> CloseDebtsP(s) > 0)
  {
    var s0 := Init<T>(V2, capacity, n);
    InitInv<T>(V2, capacity, n);
    RunsKeepInv(s0, es);
    RunsCoveredC(s0, es, false);
    RunsCoveredP(s0, es, false);
  }
}
