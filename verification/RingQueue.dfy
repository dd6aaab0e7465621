/**
 The bounded mutex queues with two condition variables (versions 2 and 3) as a step machine.

 Critical sections are single steps; a notification sent after unlocking is a step of its own, one
 sent with the lock held (`try_push` of version 2) is part of the critical section. `close` notifies
 `not_empty` and then `not_full`.
 */
module RingQueue {
  import opened Counting
  import opened Wrappers

  /** V2 notifies after every blocking operation; V3 only on leaving empty or full, if somebody waits. */
  datatype Version = V2 | V3

  datatype Result<+T> =
    | Nothing
    | PushResult(ok: bool)
    | PopResult(out: Option<T>)
    | CloseResult

  datatype Thread<+T> =
    | Idle(last: Result<T>)
    | AsleepConsumer
    | WokenConsumer
    | AsleepProducer(value: T)
    | WokenProducer(value: T)
    | OwesConsumer
    | OwesProducer(out: T)
    | ClosingConsumers
    | ClosingProducers

  datatype State<+T> = State(
    version: Version,
    capacity: nat,
    queue: seq<T>,
    waitingConsumers: nat,
    waitingProducers: nat,
    closed: bool,
    threads: seq<Thread<T>>,
    pushed: seq<T>,
    popped: seq<T>)

  /** `sleeper` is the consumer that a notification sent by `try_push` under the lock wakes. */
  datatype Operation<+T> = Push(value: T) | WaitPop | TryPush(value: T, sleeper: nat) | TryPop | Close

  datatype Action<+T> = Call(op: Operation<T>) | NotifyOne(sleeper: nat) | NotifyAll | WakeSpuriously | Relock

  datatype Event<+T> = Event(thread: nat, action: Action<T>)

  function Init<T>(version: Version, capacity: nat, n: nat): State<T> {
    State(version, if capacity == 0 then 1 else capacity, [], 0, 0, false, seq(n, t => Idle(Nothing)), [], [])
  }

  predicate SleepsC<T>(th: Thread<T>) { th.AsleepConsumer? }
  predicate SleepsP<T>(th: Thread<T>) { th.AsleepProducer? }
  predicate WokeC<T>(th: Thread<T>) { th.WokenConsumer? }
  predicate WokeP<T>(th: Thread<T>) { th.WokenProducer? }
  predicate InWaitC<T>(th: Thread<T>) { th.AsleepConsumer? || th.WokenConsumer? }
  predicate InWaitP<T>(th: Thread<T>) { th.AsleepProducer? || th.WokenProducer? }
  predicate OwesC<T>(th: Thread<T>) { th.OwesConsumer? }
  predicate OwesP<T>(th: Thread<T>) { th.OwesProducer? }
  predicate ClosesC<T>(th: Thread<T>) { th.ClosingConsumers? }
  predicate ClosesP<T>(th: Thread<T>) { th.ClosingConsumers? || th.ClosingProducers? }

  function Set<T>(s: State<T>, t: nat, th: Thread<T>): State<T>
    requires t < |s.threads|
  {
    s.(threads := s.threads[t := th])
  }

  predicate NoConsumerAsleep(s: State) {
    forall u :: 0 <= u < |s.threads| ==> !s.threads[u].AsleepConsumer?
  }

  predicate NoProducerAsleep(s: State) {
    forall u :: 0 <= u < |s.threads| ==> !s.threads[u].AsleepProducer?
  }

  /** `try_push` of version 2 notifies with the lock held. */
  predicate NotifiesUnderLock(s: State) {
    s.version.V2? && s.queue == [] && !s.closed && |s.queue| < s.capacity
  }

  predicate Enabled(s: State, e: Event) {
    e.thread < |s.threads| &&
    var th := s.threads[e.thread];
    match e.action
    case Call(TryPush(_, w)) =>
      th.Idle? && w < |s.threads| &&
      (NotifiesUnderLock(s) ==> s.threads[w].AsleepConsumer? || NoConsumerAsleep(s))
    case Call(_) => th.Idle?
    case NotifyOne(w) =>
      w < |s.threads| &&
      ((th.OwesConsumer? && (s.threads[w].AsleepConsumer? || NoConsumerAsleep(s))) ||
       (th.OwesProducer? && (s.threads[w].AsleepProducer? || NoProducerAsleep(s))))
    case NotifyAll => th.ClosingConsumers? || th.ClosingProducers?
    case WakeSpuriously => th.AsleepConsumer? || th.AsleepProducer?
    case Relock => th.WokenConsumer? || th.WokenProducer?
  }

  function Enqueued<T>(s: State<T>, v: T): State<T> {
    s.(queue := s.queue + [v], pushed := s.pushed + [v])
  }

  function Dequeued<T>(s: State<T>): State<T>
    requires s.queue != []
  {
    s.(queue := s.queue[1..], popped := s.popped + [s.queue[0]])
  }

  /** `emplace` from the test of its wait on. */
  function PushStep<T>(s: State<T>, t: nat, v: T): State<T>
    requires t < |s.threads|
  {
    if s.closed then Set(s, t, Idle(PushResult(false)))
    else if |s.queue| >= s.capacity then
      Set(s, t, AsleepProducer(v)).(waitingProducers := s.waitingProducers + 1)
    else
      var notify := s.version.V2? || (s.queue == [] && s.waitingConsumers > 0);
      Set(Enqueued(s, v), t, if notify then OwesConsumer else Idle(PushResult(true)))
  }

  /** `wait_pop` from the test of its wait on. */
  function PopStep<T>(s: State<T>, t: nat): State<T>
    requires t < |s.threads|
  {
    if s.queue == [] && !s.closed then
      Set(s, t, AsleepConsumer).(waitingConsumers := s.waitingConsumers + 1)
    else if s.queue == [] then Set(s, t, Idle(PopResult(None)))
    else
      var notify := s.version.V2? || (|s.queue| == s.capacity && s.waitingProducers > 0);
      Set(Dequeued(s), t, if notify then OwesProducer(s.queue[0]) else Idle(PopResult(Some(s.queue[0]))))
  }

  function WakeConsumer<T>(s: State<T>, w: nat): State<T>
    requires w < |s.threads|
  {
    if s.threads[w].AsleepConsumer? then Set(s, w, WokenConsumer) else s
  }

  function WakeProducer<T>(s: State<T>, w: nat): State<T>
    requires w < |s.threads|
  {
    if s.threads[w].AsleepProducer? then Set(s, w, WokenProducer(s.threads[w].value)) else s
  }

  function TryPushStep<T>(s: State<T>, t: nat, v: T, w: nat): State<T>
    requires t < |s.threads| && w < |s.threads|
  {
    if s.closed || |s.queue| >= s.capacity then Set(s, t, Idle(PushResult(false)))
    else if s.version.V2? then
      Set(Enqueued(if s.queue == [] then WakeConsumer(s, w) else s, v), t, Idle(PushResult(true)))
    else
      Set(Enqueued(s, v), t,
          if s.queue == [] && s.waitingConsumers > 0 then OwesConsumer else Idle(PushResult(true)))
  }

  function TryPopStep<T>(s: State<T>, t: nat): State<T>
    requires t < |s.threads|
  {
    if s.queue == [] then Set(s, t, Idle(PopResult(None)))
    else Set(Dequeued(s), t, Idle(PopResult(Some(s.queue[0]))))
  }

  function NotifyOneStep<T>(s: State<T>, t: nat, w: nat): State<T>
    requires t < |s.threads| && w < |s.threads|
  {
    match s.threads[t]
    case OwesConsumer => Set(WakeConsumer(s, w), t, Idle(PushResult(true)))
    case OwesProducer(out) => Set(WakeProducer(s, w), t, Idle(PopResult(Some(out))))
    case _ => s
  }

  function RouseC<T>(th: Thread<T>): Thread<T> { if th.AsleepConsumer? then WokenConsumer else th }
  function RouseP<T>(th: Thread<T>): Thread<T> { if th.AsleepProducer? then WokenProducer(th.value) else th }

  function RousedC<T>(ths: seq<Thread<T>>): seq<Thread<T>> {
    seq(|ths|, u requires 0 <= u < |ths| => RouseC(ths[u]))
  }

  function RousedP<T>(ths: seq<Thread<T>>): seq<Thread<T>> {
    seq(|ths|, u requires 0 <= u < |ths| => RouseP(ths[u]))
  }

  function NotifyAllStep<T>(s: State<T>, t: nat): State<T>
    requires t < |s.threads|
  {
    if s.threads[t].ClosingConsumers? then Set(s.(threads := RousedC(s.threads)), t, ClosingProducers)
    else Set(s.(threads := RousedP(s.threads)), t, Idle(CloseResult))
  }

  function Less(k: nat): nat { if k > 0 then k - 1 else 0 }

  function RelockStep<T>(s: State<T>, t: nat): State<T>
    requires t < |s.threads|
  {
    match s.threads[t]
    case WokenConsumer => PopStep(s.(waitingConsumers := Less(s.waitingConsumers)), t)
    case WokenProducer(v) => PushStep(s.(waitingProducers := Less(s.waitingProducers)), t, v)
    case _ => s
  }

  function WakeStep<T>(s: State<T>, t: nat): State<T>
    requires t < |s.threads|
  {
    WakeProducer(WakeConsumer(s, t), t)
  }

  function CallStep<T>(s: State<T>, t: nat, op: Operation<T>): State<T>
    requires t < |s.threads| && (op.TryPush? ==> op.sleeper < |s.threads|)
  {
    match op
    case Push(v) => PushStep(s, t, v)
    case WaitPop => PopStep(s, t)
    case TryPush(v, w) => TryPushStep(s, t, v, w)
    case TryPop => TryPopStep(s, t)
    case Close => Set(s.(closed := true), t, ClosingConsumers)
  }

  function Next<T>(s: State<T>, e: Event<T>): State<T>
    requires Enabled(s, e)
  {
    match e.action
    case Call(op) => CallStep(s, e.thread, op)
    case NotifyOne(w) => NotifyOneStep(s, e.thread, w)
    case NotifyAll => NotifyAllStep(s, e.thread)
    case WakeSpuriously => WakeStep(s, e.thread)
    case Relock => RelockStep(s, e.thread)
  }

  predicate ValidRun<T>(s: State<T>, es: seq<Event<T>>)
    decreases |es|
  {
    es == [] || (Enabled(s, es[0]) && ValidRun(Next(s, es[0]), es[1..]))
  }

  function Exec<T>(s: State<T>, es: seq<Event<T>>): State<T>
    requires ValidRun(s, es)
    decreases |es|
  {
    if es == [] then s else Exec(Next(s, es[0]), es[1..])
  }

  // Counts.

  function SleepersC(s: State): nat { Count(s.threads, SleepsC) }
  function SleepersP(s: State): nat { Count(s.threads, SleepsP) }
  function WakersC(s: State): nat { Count(s.threads, WokeC) }
  function WakersP(s: State): nat { Count(s.threads, WokeP) }
  function InsideC(s: State): nat { Count(s.threads, InWaitC) }
  function InsideP(s: State): nat { Count(s.threads, InWaitP) }
  function DebtsC(s: State): nat { Count(s.threads, OwesC) }
  function DebtsP(s: State): nat { Count(s.threads, OwesP) }
  function CloseDebtsC(s: State): nat { Count(s.threads, ClosesC) }
  function CloseDebtsP(s: State): nat { Count(s.threads, ClosesP) }

  lemma SetCounts<T>(s: State<T>, t: nat, th: Thread<T>)
    requires t < |s.threads|
    ensures var s', was := Set(s, t, th), s.threads[t];
      && SleepersC(s') + One(SleepsC(was)) == SleepersC(s) + One(SleepsC(th))
      && WakersC(s') + One(WokeC(was)) == WakersC(s) + One(WokeC(th))
      && InsideC(s') + One(InWaitC(was)) == InsideC(s) + One(InWaitC(th))
      && DebtsC(s') + One(OwesC(was)) == DebtsC(s) + One(OwesC(th))
      && CloseDebtsC(s') + One(ClosesC(was)) == CloseDebtsC(s) + One(ClosesC(th))
    ensures var s', was := Set(s, t, th), s.threads[t];
      && SleepersP(s') + One(SleepsP(was)) == SleepersP(s) + One(SleepsP(th))
      && WakersP(s') + One(WokeP(was)) == WakersP(s) + One(WokeP(th))
      && InsideP(s') + One(InWaitP(was)) == InsideP(s) + One(InWaitP(th))
      && DebtsP(s') + One(OwesP(was)) == DebtsP(s) + One(OwesP(th))
      && CloseDebtsP(s') + One(ClosesP(was)) == CloseDebtsP(s) + One(ClosesP(th))
  {
    CountUpdate(s.threads, t, th, SleepsC);
    CountUpdate(s.threads, t, th, WokeC);
    CountUpdate(s.threads, t, th, InWaitC);
    CountUpdate(s.threads, t, th, OwesC);
    CountUpdate(s.threads, t, th, ClosesC);
    CountUpdate(s.threads, t, th, SleepsP);
    CountUpdate(s.threads, t, th, WokeP);
    CountUpdate(s.threads, t, th, InWaitP);
    CountUpdate(s.threads, t, th, OwesP);
    CountUpdate(s.threads, t, th, ClosesP);
  }

  lemma {:induction false} RouseCCounts<T>(ths: seq<Thread<T>>)
    ensures Count(RousedC(ths), SleepsC) == 0
    ensures Count(RousedC(ths), WokeC) == Count(ths, WokeC) + Count(ths, SleepsC)
    ensures Count(RousedC(ths), InWaitC) == Count(ths, InWaitC)
    ensures Count(RousedC(ths), OwesC) == Count(ths, OwesC)
    ensures Count(RousedC(ths), ClosesC) == Count(ths, ClosesC)
    ensures Count(RousedC(ths), SleepsP) == Count(ths, SleepsP)
    ensures Count(RousedC(ths), WokeP) == Count(ths, WokeP)
    ensures Count(RousedC(ths), InWaitP) == Count(ths, InWaitP)
    ensures Count(RousedC(ths), OwesP) == Count(ths, OwesP)
    ensures Count(RousedC(ths), ClosesP) == Count(ths, ClosesP)
  {
    if ths != [] {
      RouseCCounts(ths[1..]);
      assert RousedC(ths)[1..] == RousedC(ths[1..]);
    }
  }

  lemma {:induction false} RousePCounts<T>(ths: seq<Thread<T>>)
    ensures Count(RousedP(ths), SleepsC) == Count(ths, SleepsC)
    ensures Count(RousedP(ths), WokeC) == Count(ths, WokeC)
    ensures Count(RousedP(ths), InWaitC) == Count(ths, InWaitC)
    ensures Count(RousedP(ths), OwesC) == Count(ths, OwesC)
    ensures Count(RousedP(ths), ClosesC) == Count(ths, ClosesC)
    ensures Count(RousedP(ths), SleepsP) == 0
    ensures Count(RousedP(ths), WokeP) == Count(ths, WokeP) + Count(ths, SleepsP)
    ensures Count(RousedP(ths), InWaitP) == Count(ths, InWaitP)
    ensures Count(RousedP(ths), OwesP) == Count(ths, OwesP)
    ensures Count(RousedP(ths), ClosesP) == Count(ths, ClosesP)
  {
    if ths != [] {
      RousePCounts(ths[1..]);
      assert RousedP(ths)[1..] == RousedP(ths[1..]);
    }
  }

  lemma AsleepCounts<T>(s: State<T>)
    ensures SleepersC(s) == 0 <==> NoConsumerAsleep(s)
    ensures SleepersP(s) == 0 <==> NoProducerAsleep(s)
  {
    CountZero(s.threads, SleepsC);
    CountZero(s.threads, SleepsP);
  }

  lemma SleepersInside<T>(s: State<T>)
    ensures SleepersC(s) <= InsideC(s) && SleepersP(s) <= InsideP(s)
  {
    CountMonotone(s.threads, SleepsC, InWaitC);
    CountMonotone(s.threads, SleepsP, InWaitP);
  }

  // What both versions keep, whatever the clients call.

  ghost predicate Inv(s: State) {
    && s.capacity > 0
    && |s.queue| <= s.capacity
    && s.waitingConsumers == InsideC(s)
    && s.waitingProducers == InsideP(s)
    && s.pushed == s.popped + s.queue
    && (s.closed && SleepersC(s) > 0 ==> CloseDebtsC(s) > 0)
    && (s.closed && SleepersP(s) > 0 ==> CloseDebtsP(s) > 0)
  }

  lemma InitInv<T>(version: Version, capacity: nat, n: nat)
    ensures var s := Init<T>(version, capacity, n);
      Inv(s) && SleepersC(s) == SleepersP(s) == 0 && DebtsC(s) == DebtsP(s) == WakersC(s) == WakersP(s) == 0
  {
    var s := Init<T>(version, capacity, n);
    CountZero(s.threads, SleepsC);
    CountZero(s.threads, SleepsP);
    CountZero(s.threads, InWaitC);
    CountZero(s.threads, InWaitP);
    CountZero(s.threads, OwesC);
    CountZero(s.threads, OwesP);
    CountZero(s.threads, WokeC);
    CountZero(s.threads, WokeP);
  }

  lemma DequeuedInv<T>(s: State<T>)
    requires s.queue != [] && s.pushed == s.popped + s.queue
    ensures var s' := Dequeued(s); s'.pushed == s'.popped + s'.queue
  {
    assert s.pushed == s.popped + [s.queue[0]] + s.queue[1..];
  }

  lemma PushInv<T>(s: State<T>, t: nat, v: T)
    requires t < |s.threads| && s.threads[t].Idle? && Inv(s)
    ensures Inv(PushStep(s, t, v))
  {
    SetCounts(s, t, PushStep(s, t, v).threads[t]);
  }

  lemma PopInv<T>(s: State<T>, t: nat)
    requires t < |s.threads| && s.threads[t].Idle? && Inv(s)
    ensures Inv(PopStep(s, t))
  {
    SetCounts(s, t, PopStep(s, t).threads[t]);
    if s.queue != [] { DequeuedInv(s); }
  }

  lemma TryPopInv<T>(s: State<T>, t: nat)
    requires t < |s.threads| && s.threads[t].Idle? && Inv(s)
    ensures Inv(TryPopStep(s, t))
  {
    SetCounts(s, t, TryPopStep(s, t).threads[t]);
    if s.queue != [] { DequeuedInv(s); }
  }

  lemma WakeInv<T>(s: State<T>, w: nat)
    requires w < |s.threads| && Inv(s)
    ensures Inv(WakeConsumer(s, w)) && Inv(WakeProducer(s, w))
  {
    if s.threads[w].AsleepConsumer? { SetCounts(s, w, WokenConsumer); }
    if s.threads[w].AsleepProducer? { SetCounts(s, w, WokenProducer(s.threads[w].value)); }
  }

  /** Waking changes nothing but the thread woken. */
  lemma WakeFrame<T>(s: State<T>, w: nat, t: nat)
    requires w < |s.threads| && t < |s.threads|
    ensures var c := WakeConsumer(s, w); c == s.(threads := c.threads) && |c.threads| == |s.threads|
    ensures var p := WakeProducer(s, w); p == s.(threads := p.threads) && |p.threads| == |s.threads|
    ensures !s.threads[t].AsleepConsumer? ==> WakeConsumer(s, w).threads[t] == s.threads[t]
    ensures !s.threads[t].AsleepProducer? ==> WakeProducer(s, w).threads[t] == s.threads[t]
  {
  }

  lemma EnqueueInv<T>(s: State<T>, t: nat, v: T, th: Thread<T>)
    requires t < |s.threads| && s.threads[t].Idle? && Inv(s) && |s.queue| < s.capacity
    requires th.Idle? || th.OwesConsumer?
    ensures Inv(Set(Enqueued(s, v), t, th))
  {
    SetCounts(s, t, th);
  }

  lemma SettleInv<T>(s: State<T>, t: nat, r: Result<T>)
    requires t < |s.threads| && Inv(s)
    requires s.threads[t].Idle? || s.threads[t].OwesConsumer? || s.threads[t].OwesProducer?
    ensures Inv(Set(s, t, Idle(r)))
  {
    SetCounts(s, t, Idle(r));
  }

  lemma TryPushInv<T>(s: State<T>, t: nat, v: T, w: nat)
    requires t < |s.threads| && w < |s.threads| && s.threads[t].Idle? && Inv(s)
    ensures Inv(TryPushStep(s, t, v, w))
  {
    hide Inv, WakeConsumer, Set, Enqueued;
    if s.closed || |s.queue| >= s.capacity {
      SettleInv(s, t, PushResult(false));
    } else if s.version.V2? && s.queue == [] {
      WakeInv(s, w);
      WakeFrame(s, w, t);
      EnqueueInv(WakeConsumer(s, w), t, v, Idle(PushResult(true)));
    } else {
      EnqueueInv(s, t, v, Idle(PushResult(true)));
      EnqueueInv(s, t, v, OwesConsumer);
    }
  }

  lemma NotifyOneInv<T>(s: State<T>, t: nat, w: nat)
    requires Enabled(s, Event(t, NotifyOne(w))) && Inv(s)
    ensures Inv(NotifyOneStep(s, t, w))
  {
    hide Inv, WakeConsumer, WakeProducer, Set;
    WakeInv(s, w);
    WakeFrame(s, w, t);
    if s.threads[t].OwesConsumer? {
      SettleInv(WakeConsumer(s, w), t, PushResult(true));
    } else {
      SettleInv(WakeProducer(s, w), t, PopResult(Some(s.threads[t].out)));
    }
  }

  lemma NotifyAllInv<T>(s: State<T>, t: nat)
    requires Enabled(s, Event(t, NotifyAll)) && Inv(s)
    ensures Inv(NotifyAllStep(s, t))
    ensures s.threads[t].ClosingConsumers? ==> SleepersC(NotifyAllStep(s, t)) == 0
    ensures s.threads[t].ClosingProducers? ==> SleepersP(NotifyAllStep(s, t)) == 0
  {
    if s.threads[t].ClosingConsumers? {
      RouseCCounts(s.threads);
      SetCounts(s.(threads := RousedC(s.threads)), t, ClosingProducers);
    } else {
      RousePCounts(s.threads);
      SetCounts(s.(threads := RousedP(s.threads)), t, Idle(CloseResult));
    }
  }

  /** Relocking behaves as leaving the wait and testing again. */
  lemma RelockConsumerInv<T>(s: State<T>, t: nat)
    requires t < |s.threads| && s.threads[t].WokenConsumer? && Inv(s)
    ensures Inv(RelockStep(s, t))
  {
    SetCounts(s, t, Idle(Nothing));
    var s1 := Set(s, t, Idle(Nothing)).(waitingConsumers := s.waitingConsumers - 1);
    var th := RelockStep(s, t).threads[t];
    PopInv(s1, t);
    assert s1.threads[t := th] == s.threads[t := th];
    assert PopStep(s1, t) == RelockStep(s, t);
  }

  lemma RelockProducerInv<T>(s: State<T>, t: nat)
    requires t < |s.threads| && s.threads[t].WokenProducer? && Inv(s)
    ensures Inv(RelockStep(s, t))
  {
    SetCounts(s, t, Idle(Nothing));
    var s1 := Set(s, t, Idle(Nothing)).(waitingProducers := s.waitingProducers - 1);
    var th := RelockStep(s, t).threads[t];
    PushInv(s1, t, s.threads[t].value);
    assert s1.threads[t := th] == s.threads[t := th];
    assert PushStep(s1, t, s.threads[t].value) == RelockStep(s, t);
  }

  lemma RelockInv<T>(s: State<T>, t: nat)
    requires Enabled(s, Event(t, Relock)) && Inv(s)
    ensures Inv(RelockStep(s, t))
  {
    if s.threads[t].WokenConsumer? {
      RelockConsumerInv(s, t);
    } else {
      RelockProducerInv(s, t);
    }
  }

  lemma CloseInv<T>(s: State<T>, t: nat)
    requires t < |s.threads| && s.threads[t].Idle? && Inv(s)
    ensures Inv(Set(s.(closed := true), t, ClosingConsumers))
  {
    SetCounts(s, t, ClosingConsumers);
  }

  lemma NextInv<T>(s: State<T>, e: Event<T>)
    requires Inv(s) && Enabled(s, e)
    ensures Inv(Next(s, e))
  {
    hide Inv, PushStep, PopStep, TryPushStep, TryPopStep, NotifyOneStep, NotifyAllStep;
    var t := e.thread;
    match e.action
    case Call(Push(v)) => PushInv(s, t, v);
    case Call(WaitPop) => PopInv(s, t);
    case Call(TryPush(v, w)) => TryPushInv(s, t, v, w);
    case Call(TryPop) => TryPopInv(s, t);
    case Call(Close) => CloseInv(s, t);
    case NotifyOne(w) => NotifyOneInv(s, t, w);
    case NotifyAll => NotifyAllInv(s, t);
    case WakeSpuriously =>
      WakeInv(s, t);
      WakeInv(WakeConsumer(s, t), t);
    case Relock => RelockInv(s, t);
  }

  ghost predicate ConsumerWaits(s: State) {
    exists u :: 0 <= u < |s.threads| && InWaitC(s.threads[u])
  }

  ghost predicate ProducerWaits(s: State) {
    exists u :: 0 <= u < |s.threads| && InWaitP(s.threads[u])
  }

  /** When an accepted push owes a notification, with real waiters in place of the counter. */
  lemma PushNotifiesIff<T>(s: State<T>, t: nat, v: T)
    requires Inv(s) && t < |s.threads|
    ensures PushStep(s, t, v).threads[t].OwesConsumer? <==>
      !s.closed && |s.queue| < s.capacity && (s.version.V3? ==> s.queue == [] && ConsumerWaits(s))
  {
    CountZero(s.threads, InWaitC);
  }

  lemma PopNotifiesIff<T>(s: State<T>, t: nat)
    requires Inv(s) && t < |s.threads|
    ensures PopStep(s, t).threads[t].OwesProducer? <==>
      s.queue != [] && (s.version.V3? ==> |s.queue| == s.capacity && ProducerWaits(s))
  {
    CountZero(s.threads, InWaitP);
  }

  lemma NextShape<T>(s: State<T>, e: Event<T>)
    requires Enabled(s, e)
    ensures |Next(s, e).threads| == |s.threads|
    ensures Next(s, e).version == s.version && Next(s, e).capacity == s.capacity
  {
  }

  lemma {:induction false} RunsKeepInv<T>(s: State<T>, es: seq<Event<T>>)
    requires Inv(s) && ValidRun(s, es)
    ensures Inv(Exec(s, es)) && |Exec(s, es).threads| == |s.threads|
    ensures Exec(s, es).version == s.version && Exec(s, es).capacity == s.capacity
    decreases |es|
  {
    hide Next, Inv, Enabled;
    if es != [] {
      NextInv(s, es[0]);
      NextShape(s, es[0]);
      RunsKeepInv(Next(s, es[0]), es[1..]);
    }
  }

  // Building runs.

  ghost predicate Reaches<T>(s: State<T>, es: seq<Event<T>>, s': State<T>) {
    ValidRun(s, es) && Exec(s, es) == s'
  }

  lemma {:induction false} Extend<T>(s: State<T>, es: seq<Event<T>>, s': State<T>, e: Event<T>)
    requires Reaches(s, es, s') && Enabled(s', e)
    ensures Reaches(s, es + [e], Next(s', e))
    decreases |es|
  {
    if es == [] {
      assert (es + [e])[1..] == [];
    } else {
      Extend(Next(s, es[0]), es[1..], s', e);
      assert (es + [e])[1..] == es[1..] + [e];
    }
  }
}
