/**
 Bounded mutex queues whose clients keep calling: consumers `wait_pop` and producers `push` until
 the queue is closed. However sparingly version 3 notifies, they cannot all be asleep.
 */
module RingDeadlock {
  import opened RingQueue
  import opened RingGuarantees

  /** Threads below `k` only call `wait_pop`, the next `m` only `push`, the others only `close`. */
  ghost predicate LoopingCall(e: Event, k: nat, m: nat) {
    e.action.Call? ==>
      if e.thread < k then e.action.op.WaitPop?
      else if e.thread < k + m then e.action.op.Push?
      else e.action.op.Close?
  }

  ghost predicate Looping(es: seq<Event>, k: nat, m: nat) {
    forall i :: 0 <= i < |es| ==> LoopingCall(es[i], k, m)
  }

  ghost predicate Role(th: Thread, u: nat, k: nat, m: nat) {
    if u < k then th.Idle? || InWaitC(th) || th.OwesProducer?
    else if u < k + m then th.Idle? || InWaitP(th) || th.OwesConsumer?
    else th.Idle? || ClosesP(th)
  }

  ghost predicate ConsumerAwake(s: State, k: nat) {
    exists u :: 0 <= u < k && u < |s.threads| && !s.threads[u].AsleepConsumer?
  }

  ghost predicate ProducerAwake(s: State, k: nat, m: nat) {
    exists u :: k <= u < k + m && u < |s.threads| && !s.threads[u].AsleepProducer?
  }

  ghost predicate Served(s: State, k: nat, m: nat) {
    && (s.queue != [] && !s.closed ==> DebtsC(s) > 0 || ConsumerAwake(s, k))
    && (|s.queue| < s.capacity && !s.closed ==> DebtsP(s) > 0 || ProducerAwake(s, k, m))
  }

  ghost predicate Roles(s: State, k: nat, m: nat) {
    forall u :: 0 <= u < |s.threads| ==> Role(s.threads[u], u, k, m)
  }

  lemma NextRoles<T>(s: State<T>, e: Event<T>, k: nat, m: nat)
    requires Enabled(s, e) && Roles(s, k, m) && LoopingCall(e, k, m)
    ensures Roles(Next(s, e), k, m)
  {
    assert Role(s.threads[e.thread], e.thread, k, m);
    if e.action.NotifyOne? { assert Role(s.threads[e.action.sleeper], e.action.sleeper, k, m); }
  }

  lemma ConsumersUp<T>(s: State<T>, k: nat)
    requires 0 < k <= |s.threads| && SleepersC(s) == 0
    ensures ConsumerAwake(s, k)
  {
    AsleepCounts(s);
    assert !s.threads[0].AsleepConsumer?;
  }

  lemma ProducersUp<T>(s: State<T>, k: nat, m: nat)
    requires 0 < m && k + m <= |s.threads| && SleepersP(s) == 0
    ensures ProducerAwake(s, k, m)
  {
    AsleepCounts(s);
    assert !s.threads[k].AsleepProducer?;
  }

  /** A change of a producer to a state that is not asleep, or of any thread that is no consumer. */
  lemma AwakeFrame<T>(s: State<T>, s': State<T>, t: nat, k: nat, m: nat)
    requires t < |s.threads| == |s'.threads| && s'.threads == s.threads[t := s'.threads[t]]
    ensures ConsumerAwake(s, k) && !s'.threads[t].AsleepConsumer? ==> ConsumerAwake(s', k)
    ensures ProducerAwake(s, k, m) && !s'.threads[t].AsleepProducer? ==> ProducerAwake(s', k, m)
    ensures t < k && !s'.threads[t].AsleepConsumer? ==> ConsumerAwake(s', k)
    ensures k <= t < k + m && !s'.threads[t].AsleepProducer? ==> ProducerAwake(s', k, m)
  {
    if ConsumerAwake(s, k) && !s'.threads[t].AsleepConsumer? {
      var u :| 0 <= u < k && u < |s.threads| && !s.threads[u].AsleepConsumer?;
      assert !s'.threads[u].AsleepConsumer?;
    }
    if ProducerAwake(s, k, m) && !s'.threads[t].AsleepProducer? {
      var u :| k <= u < k + m && u < |s.threads| && !s.threads[u].AsleepProducer?;
      assert !s'.threads[u].AsleepProducer?;
    }
  }

  lemma PushServed<T>(s: State<T>, t: nat, v: T, k: nat, m: nat)
    requires t < |s.threads| && (s.threads[t].Idle? || s.threads[t].WokenProducer?)
    requires k <= t < k + m <= |s.threads| && 0 < k
    requires s.waitingConsumers == InsideC(s) && Served(s, k, m)
    ensures Served(PushStep(s, t, v), k, m)
  {
    var s' := PushStep(s, t, v);
    SetCounts(s, t, s'.threads[t]);
    AwakeFrame(s, s', t, k, m);
    if s'.queue != s.queue && s.queue == [] {
      SleepersInside(s);
      if SleepersC(s) == 0 { ConsumersUp(s', k); }
    }
  }

  lemma PopServed<T>(s: State<T>, t: nat, k: nat, m: nat)
    requires t < |s.threads| && (s.threads[t].Idle? || s.threads[t].WokenConsumer?)
    requires t < k && k + m <= |s.threads| && 0 < m
    requires s.waitingProducers == InsideP(s) && |s.queue| <= s.capacity && Served(s, k, m)
    ensures Served(PopStep(s, t), k, m)
  {
    var s' := PopStep(s, t);
    SetCounts(s, t, s'.threads[t]);
    AwakeFrame(s, s', t, k, m);
    if s'.queue != s.queue && |s.queue| == s.capacity {
      SleepersInside(s);
      if SleepersP(s) == 0 { ProducersUp(s', k, m); }
    }
  }

  lemma NotifyOneServed<T>(s: State<T>, t: nat, w: nat, k: nat, m: nat)
    requires Enabled(s, Event(t, NotifyOne(w))) && Roles(s, k, m) && Served(s, k, m)
    requires 0 < k && 0 < m && k + m <= |s.threads|
    ensures Served(NotifyOneStep(s, t, w), k, m)
  {
    assert Role(s.threads[t], t, k, m) && Role(s.threads[w], w, k, m);
    if s.threads[t].OwesConsumer? {
      NotifyConsumerServed(s, t, w, k, m);
    } else {
      NotifyProducerServed(s, t, w, k, m);
    }
  }

  lemma NotifyConsumerServed<T>(s: State<T>, t: nat, w: nat, k: nat, m: nat)
    requires Enabled(s, Event(t, NotifyOne(w))) && s.threads[t].OwesConsumer? && Served(s, k, m)
    requires s.threads[w].AsleepConsumer? ==> w < k
    requires 0 < k && 0 < m && k + m <= |s.threads|
    ensures Served(NotifyOneStep(s, t, w), k, m)
  {
    hide Served;
    var s1 := WakeConsumer(s, w);
    var s' := NotifyOneStep(s, t, w);
    if s.threads[w].AsleepConsumer? { SetCounts(s, w, WokenConsumer); }
    SetCounts(s1, t, s'.threads[t]);
    AwakeFrame(s, s1, w, k, m);
    AwakeFrame(s1, s', t, k, m);
    if !s.threads[w].AsleepConsumer? { AsleepCounts(s); ConsumersUp(s', k); }
    ServedFrom(s, s', k, m);
  }

  lemma NotifyProducerServed<T>(s: State<T>, t: nat, w: nat, k: nat, m: nat)
    requires Enabled(s, Event(t, NotifyOne(w))) && s.threads[t].OwesProducer? && Served(s, k, m)
    requires s.threads[w].AsleepProducer? ==> k <= w < k + m
    requires 0 < k && 0 < m && k + m <= |s.threads|
    ensures Served(NotifyOneStep(s, t, w), k, m)
  {
    hide Served;
    var s1 := WakeProducer(s, w);
    var s' := NotifyOneStep(s, t, w);
    if s.threads[w].AsleepProducer? { SetCounts(s, w, s1.threads[w]); }
    SetCounts(s1, t, s'.threads[t]);
    AwakeFrame(s, s1, w, k, m);
    AwakeFrame(s1, s', t, k, m);
    if !s.threads[w].AsleepProducer? { AsleepCounts(s); ProducersUp(s', k, m); }
    ServedFrom(s, s', k, m);
  }

  lemma ServedFrom<T>(s: State<T>, s': State<T>, k: nat, m: nat)
    requires Served(s, k, m) && s'.queue == s.queue && s'.capacity == s.capacity && (s.closed ==> s'.closed)
    requires ConsumerAwake(s', k) || (DebtsC(s) <= DebtsC(s') && (ConsumerAwake(s, k) ==> ConsumerAwake(s', k)))
    requires ProducerAwake(s', k, m) ||
      (DebtsP(s) <= DebtsP(s') && (ProducerAwake(s, k, m) ==> ProducerAwake(s', k, m)))
    ensures Served(s', k, m)
  {
  }

  lemma NotifyAllServed<T>(s: State<T>, t: nat, k: nat, m: nat)
    requires Enabled(s, Event(t, NotifyAll)) && Served(s, k, m) && Roles(s, k, m)
    requires 0 < k && 0 < m && k + m <= |s.threads|
    ensures Served(NotifyAllStep(s, t), k, m)
  {
    var s' := NotifyAllStep(s, t);
    assert Role(s.threads[t], t, k, m);
    NotifyAllQuiets(s, t);
    if s.threads[t].ClosingConsumers? {
      ConsumersUp(s', k);
      if ProducerAwake(s, k, m) {
        var u :| k <= u < k + m && u < |s.threads| && !s.threads[u].AsleepProducer?;
        assert !s'.threads[u].AsleepProducer?;
      }
    } else {
      ProducersUp(s', k, m);
      if ConsumerAwake(s, k) {
        var u :| 0 <= u < k && u < |s.threads| && !s.threads[u].AsleepConsumer?;
        assert !s'.threads[u].AsleepConsumer?;
      }
    }
  }

  lemma NotifyAllQuiets<T>(s: State<T>, t: nat)
    requires Enabled(s, Event(t, NotifyAll))
    ensures var s' := NotifyAllStep(s, t); DebtsC(s') == DebtsC(s) && DebtsP(s') == DebtsP(s)
    ensures s.threads[t].ClosingConsumers? ==> SleepersC(NotifyAllStep(s, t)) == 0
    ensures s.threads[t].ClosingProducers? ==> SleepersP(NotifyAllStep(s, t)) == 0
  {
    if s.threads[t].ClosingConsumers? {
      RouseCCounts(s.threads);
      SetCounts(s.(threads := RousedC(s.threads)), t, ClosingProducers);
    } else {
      RousePCounts(s.threads);
      SetCounts(s.(threads := RousedP(s.threads)), t, Idle(CloseResult));
    }
  }

  /** `close` and spurious wakeups put nobody to sleep. */
  lemma QuietServed<T>(s: State<T>, t: nat, th: Thread<T>, closed: bool, k: nat, m: nat)
    requires t < |s.threads| && Served(s, k, m) && (s.closed ==> closed)
    requires !th.AsleepConsumer? && !th.AsleepProducer?
    requires !s.threads[t].OwesConsumer? && !s.threads[t].OwesProducer?
    ensures Served(Set(s.(closed := closed), t, th), k, m)
  {
    hide Served;
    var s' := Set(s.(closed := closed), t, th);
    SetCounts(s, t, th);
    AwakeFrame(s, s', t, k, m);
    ServedFrom(s, s', k, m);
  }

  lemma RelockServed<T>(s: State<T>, t: nat, k: nat, m: nat)
    requires Enabled(s, Event(t, Relock)) && Inv(s) && Served(s, k, m) && Role(s.threads[t], t, k, m)
    requires 0 < k && 0 < m && k + m <= |s.threads|
    ensures Served(RelockStep(s, t), k, m)
  {
    hide Inv, PushStep, PopStep;
    SleepersWait(s);
    if s.threads[t].WokenConsumer? {
      var s1 := s.(waitingConsumers := Less(s.waitingConsumers));
      assert Served(s1, k, m) by { SameThreads(s, s1, k, m); }
      PopServed(s1, t, k, m);
    } else {
      var s1 := s.(waitingProducers := Less(s.waitingProducers));
      assert Served(s1, k, m) by { SameThreads(s, s1, k, m); }
      PushServed(s1, t, s.threads[t].value, k, m);
    }
  }

  lemma SameThreads<T>(s: State<T>, s': State<T>, k: nat, m: nat)
    requires Served(s, k, m) && s'.threads == s.threads
    requires s'.queue == s.queue && s'.capacity == s.capacity && s'.closed == s.closed
    ensures Served(s', k, m)
  {
    assert ConsumerAwake(s, k) ==> ConsumerAwake(s', k);
    assert ProducerAwake(s, k, m) ==> ProducerAwake(s', k, m);
  }

  lemma NextServed<T>(s: State<T>, e: Event<T>, k: nat, m: nat)
    requires Inv(s) && Enabled(s, e) && Roles(s, k, m) && Served(s, k, m) && LoopingCall(e, k, m)
    requires 0 < k && 0 < m && k + m <= |s.threads|
    ensures Served(Next(s, e), k, m)
  {
    hide Inv, PushStep, PopStep, TryPushStep, TryPopStep, NotifyOneStep, NotifyAllStep, RelockStep, Served;
    var t := e.thread;
    SleepersWait(s);
    assert Role(s.threads[t], t, k, m);
    match e.action
    case Call(op) =>
      if t < k {
        PopServed(s, t, k, m);
      } else if t < k + m {
        PushServed(s, t, op.value, k, m);
      } else {
        QuietServed(s, t, ClosingConsumers, true, k, m);
      }
    case NotifyOne(w) => NotifyOneServed(s, t, w, k, m);
    case NotifyAll => NotifyAllServed(s, t, k, m);
    case WakeSpuriously =>
      QuietServed(s, t, WakeStep(s, t).threads[t], s.closed, k, m);
      assert WakeStep(s, t) == Set(s.(closed := s.closed), t, WakeStep(s, t).threads[t]);
    case Relock => RelockServed(s, t, k, m);
  }

  lemma {:induction false} RunsServed<T>(s: State<T>, es: seq<Event<T>>, k: nat, m: nat)
    requires Inv(s) && Roles(s, k, m) && Served(s, k, m) && ValidRun(s, es) && Looping(es, k, m)
    requires 0 < k && 0 < m && k + m <= |s.threads|
    ensures Inv(Exec(s, es)) && Served(Exec(s, es), k, m) && |Exec(s, es).threads| == |s.threads|
    decreases |es|
  {
    hide Next, Inv, Enabled, Roles, Served;
    if es != [] {
      NextInv(s, es[0]);
      NextShape(s, es[0]);
      NextRoles(s, es[0], k, m);
      NextServed(s, es[0], k, m);
      RunsServed(Next(s, es[0]), es[1..], k, m);
    }
  }

  /**
   Deadlock freedom of versions 2 and 3 for any capacity, with at least one looping consumer and one
   looping producer: while the queue is open, a queued value implies a consumer awake or about to be
   notified, a free place implies the same of a producer, and so they are never all asleep with no
   notification pending.
   */
  lemma {:induction false} LoopingClientsNeverDeadlock<T>(version: Version, capacity: nat, n: nat, k: nat, m: nat,
      es: seq<Event<T>>)
    requires 0 < k && 0 < m && k + m <= n
    requires ValidRun(Init(version, capacity, n), es) && Looping(es, k, m)
    ensures |Exec(Init(version, capacity, n), es).threads| == n
    ensures var s := Exec(Init(version, capacity, n), es);
      !s.closed ==>
        && (s.queue != [] ==> DebtsC(s) > 0 || exists u :: 0 <= u < k && !s.threads[u].AsleepConsumer?)
        && (|s.queue| < s.capacity ==> DebtsP(s) > 0 || exists u :: k <= u < k + m && !s.threads[u].AsleepProducer?)
        && !((forall u :: 0 <= u < k ==> s.threads[u].AsleepConsumer?) &&
             (forall u :: k <= u < k + m ==> s.threads[u].AsleepProducer?) &&
             DebtsC(s) == DebtsP(s) == 0)
  {
    var s0 := Init<T>(version, capacity, n);
    InitInv<T>(version, capacity, n);
    ProducersUp(s0, k, m);
    RunsServed(s0, es, k, m);
  }
}
