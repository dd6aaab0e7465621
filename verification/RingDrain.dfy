/**
 The bounded mutex queues with two condition variables: finitely many calls make finitely many steps,
 and where everybody has come to rest.
 */
module RingDrain {
  import opened Counting
  import opened RingQueue
  import opened RingSoleWaiter
  import opened RingExact

  function CallCount(es: seq<Event>): nat {
    if es == [] then 0 else One(es[0].action.Call?) + CallCount(es[1..])
  }

  function SpuriousCount(es: seq<Event>): nat {
    if es == [] then 0 else One(es[0].action.WakeSpuriously?) + SpuriousCount(es[1..])
  }

  /** The steps a thread may still cause without a further call, among `n` threads. */
  function Load<T>(th: Thread<T>, n: nat): nat {
    match th
    case Idle(_) => 0
    case AsleepConsumer => 3
    case AsleepProducer(_) => 3
    case WokenConsumer => 4
    case WokenProducer(_) => 4
    case OwesConsumer => 2
    case OwesProducer(_) => 2
    case ClosingConsumers => 2 * n + 2
    case ClosingProducers => n + 1
  }

  function Loads<T>(ths: seq<Thread<T>>, n: nat): seq<int> {
    seq(|ths|, u requires 0 <= u < |ths| => Load(ths[u], n))
  }

  function Total<T>(s: State<T>): int { Sum(Loads(s.threads, |s.threads|)) }

  lemma LoadSet<T>(s: State<T>, t: nat, th: Thread<T>)
    requires t < |s.threads|
    ensures Total(Set(s, t, th)) == Total(s) - Load(s.threads[t], |s.threads|) + Load(th, |s.threads|)
  {
    var n := |s.threads|;
    SumUpdate(Loads(s.threads, n), t, Load(th, n));
    assert Loads(s.threads[t := th], n) == Loads(s.threads, n)[t := Load(th, n)];
  }

  lemma SameTotal<T>(s: State<T>, s': State<T>)
    requires s'.threads == s.threads
    ensures Total(s') == Total(s)
  {
  }

  lemma WakeLoad<T>(s: State<T>, w: nat)
    requires w < |s.threads|
    ensures Total(WakeConsumer(s, w)) <= Total(s) + 1 && |WakeConsumer(s, w).threads| == |s.threads|
    ensures Total(WakeProducer(s, w)) <= Total(s) + 1 && |WakeProducer(s, w).threads| == |s.threads|
  {
    hide Total;
    if s.threads[w].AsleepConsumer? { LoadSet(s, w, WokenConsumer); }
    if s.threads[w].AsleepProducer? { LoadSet(s, w, WokenProducer(s.threads[w].value)); }
  }

  lemma NotifyOneLoad<T>(s: State<T>, t: nat, w: nat)
    requires Enabled(s, Event(t, NotifyOne(w)))
    ensures 1 + Total(NotifyOneStep(s, t, w)) <= Total(s)
  {
    hide Total, WakeConsumer, WakeProducer;
    WakeLoad(s, w);
    WakeFrame(s, w, t);
    if s.threads[t].OwesConsumer? {
      LoadSet(WakeConsumer(s, w), t, Idle(PushResult(true)));
    } else {
      LoadSet(WakeProducer(s, w), t, Idle(PopResult(Wrappers.Some(s.threads[t].out))));
    }
  }

  /** Waking threads costs one step each. */
  lemma RousedLoad<T>(s: State<T>, s': State<T>)
    requires |s'.threads| == |s.threads|
    requires forall u :: 0 <= u < |s.threads| ==>
      Load(s'.threads[u], |s.threads|) <= Load(s.threads[u], |s.threads|) + 1
    ensures Total(s') <= Total(s) + |s.threads|
  {
    SumAll(Loads(s.threads, |s.threads|), Loads(s'.threads, |s.threads|), 1);
  }

  lemma NotifyAllLoad<T>(s: State<T>, t: nat)
    requires Enabled(s, Event(t, NotifyAll))
    ensures 1 + Total(NotifyAllStep(s, t)) <= Total(s)
  {
    hide Total;
    var roused := if s.threads[t].ClosingConsumers? then s.(threads := RousedC(s.threads))
                  else s.(threads := RousedP(s.threads));
    RousedLoad(s, roused);
    LoadSet(roused, t, if s.threads[t].ClosingConsumers? then ClosingProducers else Idle(CloseResult));
  }

  lemma CallLoad<T>(s: State<T>, t: nat, op: Operation<T>)
    requires t < |s.threads| && (op.TryPush? ==> op.sleeper < |s.threads|) && s.threads[t].Idle?
    ensures 1 + Total(CallStep(s, t, op)) <= Total(s) + 2 * |s.threads| + 5
  {
    hide Total;
    match op
    case TryPush(v, w) => TryPushLoad(s, t, v, w);
    case _ =>
      var s' := CallStep(s, t, op);
      LoadSet(s, t, s'.threads[t]);
      SameTotal(Set(s, t, s'.threads[t]), s');
  }

  lemma TryPushLoad<T>(s: State<T>, t: nat, v: T, w: nat)
    requires t < |s.threads| && w < |s.threads| && s.threads[t].Idle?
    ensures Total(TryPushStep(s, t, v, w)) <= Total(s) + 3
  {
    hide Total, WakeConsumer;
    var s', s1 := TryPushStep(s, t, v, w), WakeConsumer(s, w);
    WakeLoad(s, w);
    WakeFrame(s, w, t);
    LoadSet(s, t, s'.threads[t]);
    LoadSet(s1, t, s'.threads[t]);
    if s'.threads == Set(s, t, s'.threads[t]).threads {
      SameTotal(Set(s, t, s'.threads[t]), s');
    } else {
      SameTotal(Set(s1, t, s'.threads[t]), s');
    }
  }

  lemma RelockLoad<T>(s: State<T>, t: nat)
    requires Enabled(s, Event(t, Relock))
    ensures 1 + Total(RelockStep(s, t)) <= Total(s)
  {
    hide Total;
    var s' := RelockStep(s, t);
    LoadSet(s, t, s'.threads[t]);
    SameTotal(Set(s, t, s'.threads[t]), s');
  }

  lemma StepLoad<T>(s: State<T>, e: Event<T>)
    requires Enabled(s, e)
    ensures 1 + Total(Next(s, e))
         <= Total(s) + (2 * |s.threads| + 5) * One(e.action.Call?) + 2 * One(e.action.WakeSpuriously?)
  {
    hide Total, CallStep, NotifyOneStep, NotifyAllStep, RelockStep;
    match e.action
    case Call(op) => CallLoad(s, e.thread, op);
    case NotifyOne(w) => NotifyOneLoad(s, e.thread, w);
    case NotifyAll => NotifyAllLoad(s, e.thread);
    case WakeSpuriously =>
      LoadSet(s, e.thread, WakeStep(s, e.thread).threads[e.thread]);
      SameTotal(Set(s, e.thread, WakeStep(s, e.thread).threads[e.thread]), WakeStep(s, e.thread));
    case Relock => RelockLoad(s, e.thread);
  }

  lemma Distribute(k: nat, a: nat, b: nat)
    ensures k * (a + b) == k * a + k * b
  {
  }

  lemma {:induction false} StepsPaid<T>(s: State<T>, es: seq<Event<T>>)
    requires ValidRun(s, es)
    ensures |es| <= Total(s) + (2 * |s.threads| + 5) * CallCount(es) + 2 * SpuriousCount(es)
    decreases |es|
  {
    if es == [] {
      SumNonNegative(Loads(s.threads, |s.threads|));
    } else {
      hide Next, Enabled, Total;
      StepLoad(s, es[0]);
      NextShape(s, es[0]);
      StepsPaid(Next(s, es[0]), es[1..]);
      Distribute(2 * |s.threads| + 5, One(es[0].action.Call?), CallCount(es[1..]));
    }
  }

  lemma NewQueue<T>(s: State<T>, n: nat)
    requires |s.threads| == n && forall u :: 0 <= u < n ==> s.threads[u].Idle?
    ensures Total(s) == 0
  {
    SumZero(Loads(s.threads, n));
  }

  /**
   Versions 2 and 3 at any capacity: among `n` threads, `c` calls and `f` spurious wakeups make at most
   `(2n + 5) * c + 2 * f` steps, so finite programs come to an end.
   */
  lemma {:induction false} FiniteCallsFiniteRun<T>(version: Version, capacity: nat, n: nat, es: seq<Event<T>>)
    requires ValidRun(Init(version, capacity, n), es)
    ensures |es| <= (2 * n + 5) * CallCount(es) + 2 * SpuriousCount(es)
  {
    hide Total, CallCount, SpuriousCount, ValidRun, Load;
    NewQueue(Init<T>(version, capacity, n), n);
    StepsPaid(Init<T>(version, capacity, n), es);
  }

  /** Nothing can happen but calls and spurious wakeups. */
  ghost predicate AtRest(s: State) {
    forall u :: 0 <= u < |s.threads| ==>
      s.threads[u].Idle? || s.threads[u].AsleepConsumer? || s.threads[u].AsleepProducer?
  }

  lemma RestCounts<T>(s: State<T>)
    requires AtRest(s)
    ensures DebtsC(s) == DebtsP(s) == WakersC(s) == WakersP(s) == CloseDebtsC(s) == CloseDebtsP(s) == 0
    ensures (exists u :: 0 <= u < |s.threads| && s.threads[u].AsleepConsumer?) ==> SleepersC(s) > 0
    ensures (exists u :: 0 <= u < |s.threads| && s.threads[u].AsleepProducer?) ==> SleepersP(s) > 0
  {
    CountZero(s.threads, OwesC);
    CountZero(s.threads, OwesP);
    CountZero(s.threads, WokeC);
    CountZero(s.threads, WokeP);
    CountZero(s.threads, ClosesC);
    CountZero(s.threads, ClosesP);
    AsleepCounts(s);
  }

  /**
   How finite programs end: where consumers cannot be stranded, one still in `wait_pop` sleeps on an
   empty open queue; where producers cannot be, one still in `push` sleeps on a full open queue; and
   nobody sleeps on a closed queue.
   */
  lemma {:induction false} EndsWell(version: Version, capacity: nat, c: Usage, n: nat, es: seq<Event<int>>)
    requires ValidRun(Init(version, capacity, n), es) && AllRespect(es, c)
    requires AtRest(Exec(Init<int>(version, capacity, n), es))
    ensures var s := Exec(Init<int>(version, capacity, n), es);
      && (forall u :: 0 <= u < |s.threads| && !s.threads[u].Idle? ==> !s.closed)
      && (ConsumersSafe(version, capacity, c) ==>
          forall u :: 0 <= u < |s.threads| && s.threads[u].AsleepConsumer? ==> s.queue == [])
      && (ProducersSafe(version, capacity, c) ==>
          forall u :: 0 <= u < |s.threads| && s.threads[u].AsleepProducer? ==> |s.queue| == s.capacity)
  {
    var s := Exec(Init<int>(version, capacity, n), es);
    InitInv<int>(version, capacity, n);
    RunsKeepInv(Init(version, capacity, n), es);
    SafeRun(version, capacity, c, n, es);
    RestCounts(s);
  }
}
