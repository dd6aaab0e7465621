/**
 The first bounded mutex queue: one condition variable for both directions, so every notification is
 a `notify_all`. Critical sections are single steps; a notification sent after unlocking is a step of
 its own, the one of `try_push` is sent with the lock held, and `try_pop` sends none.
 */
module RingOneCv {
  import opened Wrappers

  datatype Result<+T> = Nothing | PushResult(ok: bool) | PopResult(out: Option<T>) | CloseResult

  /** `OwesAll` has unlocked and is about to call `notify_all`, after which it returns `result`. */
  datatype Thread<+T> =
    | Idle(last: Result<T>)
    | AsleepConsumer
    | WokenConsumer
    | AsleepProducer(value: T)
    | WokenProducer(value: T)
    | OwesAll(result: Result<T>)

  datatype State<+T> = State(
    capacity: nat,
    queue: seq<T>,
    closed: bool,
    threads: seq<Thread<T>>,
    pushed: seq<T>,
    popped: seq<T>)

  datatype Operation<+T> = Push(value: T) | WaitPop | TryPush(value: T) | TryPop | Close

  datatype Action<+T> = Call(op: Operation<T>) | NotifyAll | WakeSpuriously | Relock

  datatype Event<+T> = Event(thread: nat, action: Action<T>)

  function Init<T>(capacity: nat, n: nat): State<T> {
    State(if capacity == 0 then 1 else capacity, [], false, seq(n, t => Idle(Nothing)), [], [])
  }

  function Set<T>(s: State<T>, t: nat, th: Thread<T>): State<T>
    requires t < |s.threads|
  {
    s.(threads := s.threads[t := th])
  }

  predicate Enabled(s: State, e: Event) {
    e.thread < |s.threads| &&
    var th := s.threads[e.thread];
    match e.action
    case Call(_) => th.Idle?
    case NotifyAll => th.OwesAll?
    case WakeSpuriously => th.AsleepConsumer? || th.AsleepProducer?
    case Relock => th.WokenConsumer? || th.WokenProducer?
  }

  function Enqueued<T>(s: State<T>, v: T): State<T> {
    s.(queue := s.queue + [v], pushed := s.pushed + [v])
  }

  function Dequeued<T>(s: State<T>): State<T>
    requires s.queue != []
  {
    s.(queue := s.queue[1..], popped := s.popped + [s.queue[0]])
  }

  /** `emplace` from the test of its wait on. */
  function PushStep<T>(s: State<T>, t: nat, v: T): State<T>
    requires t < |s.threads|
  {
    if s.closed then Set(s, t, Idle(PushResult(false)))
    else if |s.queue| >= s.capacity then Set(s, t, AsleepProducer(v))
    else Set(Enqueued(s, v), t, OwesAll(PushResult(true)))
  }

  /** `wait_pop` from the test of its wait on. */
  function PopStep<T>(s: State<T>, t: nat): State<T>
    requires t < |s.threads|
  {
    if s.queue == [] && !s.closed then Set(s, t, AsleepConsumer)
    else if s.queue == [] then Set(s, t, Idle(PopResult(None)))
    else Set(Dequeued(s), t, OwesAll(PopResult(Some(s.queue[0]))))
  }

  function Rouse<T>(th: Thread<T>): Thread<T> {
    match th
    case AsleepConsumer => WokenConsumer
    case AsleepProducer(v) => WokenProducer(v)
    case _ => th
  }

  function Roused<T>(s: State<T>): State<T> {
    s.(threads := seq(|s.threads|, u requires 0 <= u < |s.threads| => Rouse(s.threads[u])))
  }

  function TryPushStep<T>(s: State<T>, t: nat, v: T): State<T>
    requires t < |s.threads|
  {
    if s.closed || |s.queue| >= s.capacity then Set(s, t, Idle(PushResult(false)))
    else Set(Roused(Enqueued(s, v)), t, Idle(PushResult(true)))
  }

  function TryPopStep<T>(s: State<T>, t: nat): State<T>
    requires t < |s.threads|
  {
    if s.queue == [] then Set(s, t, Idle(PopResult(None)))
    else Set(Dequeued(s), t, Idle(PopResult(Some(s.queue[0]))))
  }

  function CloseStep<T>(s: State<T>, t: nat): State<T>
    requires t < |s.threads|
  {
    Set(s.(closed := true), t, OwesAll(CloseResult))
  }

  function RelockStep<T>(s: State<T>, t: nat): State<T>
    requires t < |s.threads|
  {
    match s.threads[t]
    case WokenConsumer => PopStep(s, t)
    case WokenProducer(v) => PushStep(s, t, v)
    case _ => s
  }

  function CallStep<T>(s: State<T>, t: nat, op: Operation<T>): State<T>
    requires t < |s.threads|
  {
    match op
    case Push(v) => PushStep(s, t, v)
    case WaitPop => PopStep(s, t)
    case TryPush(v) => TryPushStep(s, t, v)
    case TryPop => TryPopStep(s, t)
    case Close => CloseStep(s, t)
  }

  function Next<T>(s: State<T>, e: Event<T>): State<T>
    requires Enabled(s, e)
  {
    match e.action
    case Call(op) => CallStep(s, e.thread, op)
    case NotifyAll => Set(Roused(s), e.thread, Idle(s.threads[e.thread].result))
    case WakeSpuriously => Set(s, e.thread, Rouse(s.threads[e.thread]))
    case Relock => RelockStep(s, e.thread)
  }

  predicate ValidRun<T>(s: State<T>, es: seq<Event<T>>)
    decreases |es|
  {
    es == [] || (Enabled(s, es[0]) && ValidRun(Next(s, es[0]), es[1..]))
  }

  function Exec<T>(s: State<T>, es: seq<Event<T>>): State<T>
    requires ValidRun(s, es)
    decreases |es|
  {
    if es == [] then s else Exec(Next(s, es[0]), es[1..])
  }

  /** Some thread is about to call `notify_all`. */
  ghost predicate Pending(s: State) {
    exists u :: 0 <= u < |s.threads| && s.threads[u].OwesAll?
  }

  /** A thread sleeps although the condition it waits for holds. */
  ghost predicate ConsumerCouldRun(s: State, th: Thread) {
    th.AsleepConsumer? && (s.closed || s.queue != [])
  }

  ghost predicate ProducerCouldRun(s: State, th: Thread) {
    th.AsleepProducer? && (s.closed || |s.queue| < s.capacity)
  }

  /** What holds whatever the clients call. */
  ghost predicate Inv(s: State) {
    && 0 < s.capacity && |s.queue| <= s.capacity
    && s.pushed == s.popped + s.queue
    && (forall u :: 0 <= u < |s.threads| && ConsumerCouldRun(s, s.threads[u]) ==> Pending(s))
    && (forall u :: 0 <= u < |s.threads| && s.closed && s.threads[u].AsleepProducer? ==> Pending(s))
  }

  /** What holds besides while nobody calls `try_pop`. */
  ghost predicate ProducersCovered(s: State) {
    forall u :: 0 <= u < |s.threads| && ProducerCouldRun(s, s.threads[u]) ==> Pending(s)
  }

  /** Thread `t` changed and every other debt is still owed. */
  lemma PendingStays<T>(s: State<T>, s': State<T>, t: nat)
    requires Pending(s) && t < |s.threads| == |s'.threads|
    requires s.threads[t].OwesAll? ==> s'.threads[t].OwesAll?
    requires forall u :: 0 <= u < |s.threads| && u != t ==> s'.threads[u] == s.threads[u]
    ensures Pending(s')
  {
    var u :| 0 <= u < |s.threads| && s.threads[u].OwesAll?;
    assert s'.threads[u].OwesAll?;
  }

  lemma DequeuedInOrder<T>(s: State<T>)
    requires s.queue != [] && s.pushed == s.popped + s.queue
    ensures Dequeued(s).pushed == Dequeued(s).popped + Dequeued(s).queue
  {
    assert s.pushed == s.popped + [s.queue[0]] + s.queue[1..];
  }

  lemma PushKeeps<T>(s: State<T>, t: nat, v: T)
    requires t < |s.threads| && !s.threads[t].OwesAll? && Inv(s)
    ensures Inv(PushStep(s, t, v))
    ensures ProducersCovered(s) ==> ProducersCovered(PushStep(s, t, v))
  {
    var s' := PushStep(s, t, v);
    if s'.threads[t].OwesAll? {
      assert Pending(s');
    } else if Pending(s) {
      PendingStays(s, s', t);
    }
  }

  lemma PopKeeps<T>(s: State<T>, t: nat)
    requires t < |s.threads| && !s.threads[t].OwesAll? && Inv(s)
    ensures Inv(PopStep(s, t))
    ensures ProducersCovered(s) ==> ProducersCovered(PopStep(s, t))
  {
    var s' := PopStep(s, t);
    if s.queue != [] { DequeuedInOrder(s); }
    if s'.threads[t].OwesAll? {
      assert Pending(s');
    } else if Pending(s) {
      PendingStays(s, s', t);
    }
  }

  lemma TryPushKeeps<T>(s: State<T>, t: nat, v: T)
    requires t < |s.threads| && s.threads[t].Idle? && Inv(s)
    ensures Inv(TryPushStep(s, t, v))
    ensures ProducersCovered(s) ==> ProducersCovered(TryPushStep(s, t, v))
  {
    if (s.closed || |s.queue| >= s.capacity) && Pending(s) {
      PendingStays(s, TryPushStep(s, t, v), t);
    }
  }

  lemma TryPopKeeps<T>(s: State<T>, t: nat)
    requires t < |s.threads| && s.threads[t].Idle? && Inv(s)
    ensures Inv(TryPopStep(s, t))
  {
    if s.queue != [] { DequeuedInOrder(s); }
    if Pending(s) { PendingStays(s, TryPopStep(s, t), t); }
  }

  lemma CloseKeeps<T>(s: State<T>, t: nat)
    requires t < |s.threads| && s.threads[t].Idle? && Inv(s)
    ensures Inv(CloseStep(s, t)) && ProducersCovered(CloseStep(s, t))
  {
    assert CloseStep(s, t).threads[t].OwesAll?;
  }

  lemma WakeKeeps<T>(s: State<T>, e: Event<T>)
    requires Enabled(s, e) && (e.action.NotifyAll? || e.action.WakeSpuriously?) && Inv(s)
    ensures Inv(Next(s, e)) && (ProducersCovered(s) ==> ProducersCovered(Next(s, e)))
  {
    if e.action.WakeSpuriously? && Pending(s) { PendingStays(s, Next(s, e), e.thread); }
  }

  lemma NextKeeps<T>(s: State<T>, e: Event<T>)
    requires Inv(s) && Enabled(s, e)
    ensures Inv(Next(s, e))
    ensures ProducersCovered(s) && e.action != Call(TryPop) ==> ProducersCovered(Next(s, e))
  {
    hide Inv, ProducersCovered, PushStep, PopStep, TryPushStep, TryPopStep, CloseStep;
    var t := e.thread;
    match e.action
    case Call(Push(v)) => PushKeeps(s, t, v);
    case Call(WaitPop) => PopKeeps(s, t);
    case Call(TryPush(v)) => TryPushKeeps(s, t, v);
    case Call(TryPop) => TryPopKeeps(s, t);
    case Call(Close) => CloseKeeps(s, t);
    case Relock =>
      if s.threads[t].WokenConsumer? { PopKeeps(s, t); } else { PushKeeps(s, t, s.threads[t].value); }
    case _ => WakeKeeps(s, e);
  }

  lemma NextShape<T>(s: State<T>, e: Event<T>)
    requires Enabled(s, e)
    ensures |Next(s, e).threads| == |s.threads| && Next(s, e).capacity == s.capacity
  {
  }

  ghost predicate NoTryPop(es: seq<Event>) {
    forall i :: 0 <= i < |es| ==> es[i].action != Call(TryPop)
  }

  lemma {:induction false} RunsKeep<T>(s: State<T>, es: seq<Event<T>>)
    requires Inv(s) && ValidRun(s, es)
    ensures Inv(Exec(s, es))
    ensures |Exec(s, es).threads| == |s.threads| && Exec(s, es).capacity == s.capacity
    ensures ProducersCovered(s) && NoTryPop(es) ==> ProducersCovered(Exec(s, es))
    decreases |es|
  {
    hide Next, Enabled, Inv, ProducersCovered;
    if es != [] {
      NextKeeps(s, es[0]);
      NextShape(s, es[0]);
      RunsKeep(Next(s, es[0]), es[1..]);
    }
  }

  /**
   One condition variable with `notify_all` strands nobody, whoever finishes when: in every state that
   blocking calls, `try_push` and `close` reach, a thread asleep although it could run implies a
   pending `notify_all`. So with none pending, consumers sleep only on an empty open queue, producers
   only on a full open one, and never both.
   */
  lemma {:induction false} NobodyMissesTheBroadcast<T>(capacity: nat, n: nat, es: seq<Event<T>>)
    requires ValidRun(Init(capacity, n), es) && NoTryPop(es)
    ensures var s := Exec(Init(capacity, n), es);
      && |s.threads| == n && s.capacity > 0
      && s.pushed == s.popped + s.queue && |s.queue| <= s.capacity
      && (Pending(s) ||
          ((forall u :: 0 <= u < n && s.threads[u].AsleepConsumer? ==> s.queue == [] && !s.closed) &&
           (forall u :: 0 <= u < n && s.threads[u].AsleepProducer? ==> |s.queue| == s.capacity && !s.closed) &&
           (forall u, v :: 0 <= u < n && 0 <= v < n && s.threads[u].AsleepConsumer? ==> !s.threads[v].AsleepProducer?)))
  {
    RunsKeep(Init(capacity, n), es);
    var s := Exec(Init(capacity, n), es);
    assert !Pending(s) ==>
      forall u :: 0 <= u < n ==> !ConsumerCouldRun(s, s.threads[u]) && !ProducerCouldRun(s, s.threads[u]);
  }

  // `try_pop` makes room without telling anybody.

  /** A producer sleeps beside free space, with no notification pending and nobody awake in a wait. */
  ghost predicate StrandedProducer(s: State) {
    && !s.closed && !Pending(s)
    && (forall u :: 0 <= u < |s.threads| ==> !s.threads[u].WokenProducer? && !s.threads[u].WokenConsumer?)
    && (exists u :: 0 <= u < |s.threads| && ProducerCouldRun(s, s.threads[u]))
  }

  ghost predicate Reaches<T>(s: State<T>, es: seq<Event<T>>, s': State<T>) {
    ValidRun(s, es) && Exec(s, es) == s'
  }

  lemma {:induction false} Extend<T>(s: State<T>, es: seq<Event<T>>, s': State<T>, e: Event<T>)
    requires Reaches(s, es, s') && Enabled(s', e)
    ensures Reaches(s, es + [e], Next(s', e))
    decreases |es|
  {
    if es == [] {
      assert (es + [e])[1..] == [];
    } else {
      Extend(Next(s, es[0]), es[1..], s', e);
      assert (es + [e])[1..] == es[1..] + [e];
    }
  }

  /** Thread 1 fills the queue with `k` values by `try_push`. */
  lemma {:induction false} Fill(capacity: nat, k: nat) returns (es: seq<Event<int>>, s: State<int>)
    requires k <= Init<int>(capacity, 2).capacity
    ensures Reaches(Init(capacity, 2), es, s) && |s.queue| == k
    ensures |s.threads| == 2 && s.threads[0].Idle? && s.threads[1].Idle?
    ensures !s.closed && s.capacity == Init<int>(capacity, 2).capacity
  {
    if k == 0 {
      es, s := [], Init(capacity, 2);
    } else {
      es, s := Fill(capacity, k - 1);
      Extend(Init(capacity, 2), es, s, Event(1, Call(TryPush(k))));
      es, s := es + [Event(1, Call(TryPush(k)))], TryPushStep(s, 1, k);
    }
  }

  lemma TryPopStrands(capacity: nat) returns (es: seq<Event<int>>)
    ensures ValidRun(Init(capacity, 2), es) && StrandedProducer(Exec(Init(capacity, 2), es))
  {
    var s0 := Init<int>(capacity, 2);
    var s;
    es, s := Fill(capacity, s0.capacity);
    Extend(s0, es, s, Event(0, Call(Push(8))));
    es, s := es + [Event(0, Call(Push(8)))], PushStep(s, 0, 8);
    Extend(s0, es, s, Event(1, Call(TryPop)));
    es, s := es + [Event(1, Call(TryPop))], TryPopStep(s, 1);
    assert ProducerCouldRun(s, s.threads[0]);
  }

  ghost predicate Permitted(es: seq<Event>, tryPop: bool) {
    tryPop || NoTryPop(es)
  }

  ghost predicate ProducersNeverStrand(capacity: nat, tryPop: bool) {
    forall n: nat, es: seq<Event<int>> ::
      ValidRun(Init(capacity, n), es) && Permitted(es, tryPop) ==> !StrandedProducer(Exec(Init<int>(capacity, n), es))
  }

  /** Producers are never stranded exactly when `try_pop` is not used, for every capacity. */
  lemma ProducersNeverStrandIff(capacity: nat, tryPop: bool)
    ensures ProducersNeverStrand(capacity, tryPop) <==> !tryPop
  {
    if tryPop {
      var es := TryPopStrands(capacity);
      assert Permitted(es, tryPop);
    } else {
      forall n: nat, es: seq<Event<int>> | ValidRun(Init(capacity, n), es) && Permitted(es, tryPop)
        ensures !StrandedProducer(Exec(Init<int>(capacity, n), es))
      {
        RunsKeep(Init(capacity, n), es);
      }
    }
  }

  /** Consumers are never stranded, whatever is called. */
  lemma {:induction false} ConsumersNeverStrand<T>(capacity: nat, n: nat, es: seq<Event<T>>, u: nat)
    requires ValidRun(Init(capacity, n), es) && u < n
    ensures var s := Exec(Init(capacity, n), es);
      |s.threads| == n && (ConsumerCouldRun(s, s.threads[u]) ==> Pending(s))
  {
    RunsKeep(Init(capacity, n), es);
  }
}
