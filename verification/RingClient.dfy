/** Closing and draining the bounded mutex queues with two condition variables. */
module RingClient {
  import opened Counting
  import opened RingQueue
  import opened RingReturns
  import opened Wrappers

  /** A call of `wait_pop` fails exactly at an instant when the queue is closed and empty. */
  lemma FailedWaitPopSawTheEnd<T>(s: State<T>, e: Event<T>)
    requires Enabled(s, e)
    requires e.action == Call(WaitPop) || (e.action.Relock? && s.threads[e.thread].WokenConsumer?)
    ensures Next(s, e).threads[e.thread] == Idle(PopResult(None)) <==> s.closed && s.queue == []
  {
  }

  lemma ClosedStep<T>(s: State<T>, e: Event<T>)
    requires Enabled(s, e) && s.closed
    ensures Next(s, e).closed && Next(s, e).pushed == s.pushed
    ensures s.queue == [] ==> Next(s, e).queue == [] && Next(s, e).popped == s.popped
  {
  }

  /** A closed queue accepts nothing, also not from producers that were waiting, and once empty it stays so. */
  lemma {:induction false} ClosedForever<T>(s: State<T>, es: seq<Event<T>>)
    requires ValidRun(s, es) && s.closed
    ensures Exec(s, es).closed && Exec(s, es).pushed == s.pushed
    ensures s.queue == [] ==> Exec(s, es).queue == [] && Exec(s, es).popped == s.popped
    decreases |es|
  {
    hide Next, Enabled;
    if es != [] {
      ClosedStep(s, es[0]);
      ClosedForever(Next(s, es[0]), es[1..]);
    }
  }

  // Every value handed to `push` is accepted or its producer waits, while the queue is open.

  function PushArguments<T>(es: seq<Event<T>>): seq<T> {
    if es == [] then []
    else (if es[0].action.Call? && es[0].action.op.Push? then [es[0].action.op.value] else []) + PushArguments(es[1..])
  }

  function HeldWeight<T>(th: Thread<T>, w: T -> int): int {
    if th.AsleepProducer? || th.WokenProducer? then w(th.value) else 0
  }

  /** What waiting producers hold. */
  function Held<T>(ths: seq<Thread<T>>, w: T -> int): seq<int> {
    seq(|ths|, u requires 0 <= u < |ths| => HeldWeight(ths[u], w))
  }

  function Handed<T>(s: State<T>, w: T -> int): int {
    Weight(s.pushed, w) + Sum(Held(s.threads, w))
  }

  lemma HeldSet<T>(s: State<T>, t: nat, th: Thread<T>, w: T -> int)
    requires t < |s.threads|
    ensures Sum(Held(Set(s, t, th).threads, w))
         == Sum(Held(s.threads, w)) - HeldWeight(s.threads[t], w) + HeldWeight(th, w)
  {
    SumUpdate(Held(s.threads, w), t, HeldWeight(th, w));
    assert Held(s.threads[t := th], w) == Held(s.threads, w)[t := HeldWeight(th, w)];
  }

  lemma PushHands<T>(s: State<T>, t: nat, v: T, w: T -> int)
    requires t < |s.threads| && !s.closed && (s.threads[t].Idle? || s.threads[t] == WokenProducer(v))
    ensures Handed(PushStep(s, t, v), w) == Handed(s, w) + (if s.threads[t].Idle? then w(v) else 0)
  {
    var s' := PushStep(s, t, v);
    HeldSet(s, t, s'.threads[t], w);
    assert s'.threads == Set(s, t, s'.threads[t]).threads;
    WeightSnoc(s.pushed, v, w);
  }

  lemma PopHands<T>(s: State<T>, t: nat, w: T -> int)
    requires t < |s.threads| && HeldWeight(s.threads[t], w) == 0
    ensures Handed(PopStep(s, t), w) == Handed(s, w)
  {
    var s' := PopStep(s, t);
    HeldSet(s, t, s'.threads[t], w);
    assert s'.threads == Set(s, t, s'.threads[t]).threads;
  }

  lemma TryPopHands<T>(s: State<T>, t: nat, w: T -> int)
    requires t < |s.threads| && s.threads[t].Idle?
    ensures Handed(TryPopStep(s, t), w) == Handed(s, w)
  {
    var s' := TryPopStep(s, t);
    HeldSet(s, t, s'.threads[t], w);
    assert s'.threads == Set(s, t, s'.threads[t]).threads;
  }

  /** Waking changes nobody's value. */
  lemma WakeHands<T>(s: State<T>, e: Event<T>, w: T -> int)
    requires Enabled(s, e) && (e.action.NotifyOne? || e.action.NotifyAll? || e.action.WakeSpuriously?)
    ensures Handed(Next(s, e), w) == Handed(s, w)
  {
    assert Held(Next(s, e).threads, w) == Held(s.threads, w);
  }

  lemma OpenStep<T>(s: State<T>, e: Event<T>, w: T -> int)
    requires Enabled(s, e) && !s.closed
    requires e.action.Call? ==> !e.action.op.Close? && !e.action.op.TryPush?
    ensures !Next(s, e).closed && Handed(Next(s, e), w) == Handed(s, w) + Weight(PushArguments([e]), w)
  {
    var t := e.thread;
    Singleton(e, w);
    hide PushArguments;
    match e.action
    case Call(Push(v)) => PushHands(s, t, v, w);
    case Call(WaitPop) => PopHands(s, t, w);
    case Call(TryPop) => TryPopHands(s, t, w);
    case Relock => RelockHands(s, t, w);
    case _ => WakeHands(s, e, w); WakeStaysOpen(s, e);
  }

  lemma Singleton<T>(e: Event<T>, w: T -> int)
    ensures Weight(PushArguments([e]), w) == if e.action.Call? && e.action.op.Push? then w(e.action.op.value) else 0
  {
    assert PushArguments([e]) == (if e.action.Call? && e.action.op.Push? then [e.action.op.value] else []) + [];
  }

  lemma WakeStaysOpen<T>(s: State<T>, e: Event<T>)
    requires Enabled(s, e) && (e.action.NotifyOne? || e.action.NotifyAll? || e.action.WakeSpuriously?)
    ensures Next(s, e).closed == s.closed
  {
  }

  lemma RelockHands<T>(s: State<T>, t: nat, w: T -> int)
    requires Enabled(s, Event(t, Relock)) && !s.closed
    ensures !RelockStep(s, t).closed && Handed(RelockStep(s, t), w) == Handed(s, w)
  {
    if s.threads[t].WokenConsumer? {
      PopHands(s.(waitingConsumers := Less(s.waitingConsumers)), t, w);
    } else {
      PushHands(s.(waitingProducers := Less(s.waitingProducers)), t, s.threads[t].value, w);
    }
  }

  ghost predicate OpenCalls(es: seq<Event>) {
    forall i :: 0 <= i < |es| && es[i].action.Call? ==> !es[i].action.op.Close? && !es[i].action.op.TryPush?
  }

  lemma NoArguments<T>(w: T -> int)
    ensures Weight(PushArguments<T>([]), w) == 0
  {
  }

  lemma ArgumentsSplit<T>(es: seq<Event<T>>, w: T -> int)
    requires es != []
    ensures Weight(PushArguments(es), w) == Weight(PushArguments([es[0]]), w) + Weight(PushArguments(es[1..]), w)
  {
    assert PushArguments(es) == PushArguments([es[0]]) + PushArguments(es[1..]);
    WeightConcat(PushArguments([es[0]]), PushArguments(es[1..]), w);
  }

  lemma {:induction false} OpenRun<T>(s: State<T>, es: seq<Event<T>>, w: T -> int)
    requires ValidRun(s, es) && !s.closed && OpenCalls(es)
    ensures !Exec(s, es).closed && Handed(Exec(s, es), w) == Handed(s, w) + Weight(PushArguments(es), w)
    decreases |es|
  {
    hide Next, Enabled, Handed, PushArguments, Weight;
    if es == [] {
      NoArguments(w);
    } else {
      OpenStep(s, es[0], w);
      OpenRun(Next(s, es[0]), es[1..], w);
      ArgumentsSplit(es, w);
    }
  }

  ghost predicate NobodyInPush(s: State) {
    forall u :: 0 <= u < |s.threads| ==> !InWaitP(s.threads[u])
  }

  lemma NothingHeld<T>(s: State<T>, w: T -> int)
    requires NobodyInPush(s)
    ensures Handed(s, w) == Weight(s.pushed, w)
  {
    SumZero(Held(s.threads, w));
  }

  /** If all pushes have returned when the queue is closed, everything handed to them has been accepted. */
  lemma {:induction false} AllAccepted<T>(version: Version, capacity: nat, n: nat, before: seq<Event<T>>, w: T -> int)
    requires ValidRun(Init(version, capacity, n), before) && OpenCalls(before)
    requires NobodyInPush(Exec(Init(version, capacity, n), before))
    ensures Weight(Exec(Init(version, capacity, n), before).pushed, w) == Weight(PushArguments(before), w)
  {
    var s0 := Init<T>(version, capacity, n);
    OpenRun(s0, before, w);
    NothingHeld(s0, w);
    NothingHeld(Exec(s0, before), w);
  }

  /** The event makes a `wait_pop` fail. */
  ghost predicate WaitPopFails<T>(s: State<T>, e: Event<T>)
    requires Enabled(s, e)
  {
    (e.action == Call(WaitPop) || (e.action.Relock? && s.threads[e.thread].WokenConsumer?)) &&
    Next(s, e).threads[e.thread] == Idle(PopResult(None))
  }

  /**
   Whatever was called before, `try_push` included: when a `wait_pop` fails the queue is closed and all
   values ever accepted have been returned, in order.
   */
  lemma {:induction false} FailedWaitPopReturnedAll<T>(version: Version, capacity: nat, n: nat,
      es: seq<Event<T>>, e: Event<T>)
    requires ValidRun(Init(version, capacity, n), es) && Enabled(Exec(Init(version, capacity, n), es), e)
    requires WaitPopFails(Exec(Init(version, capacity, n), es), e)
    ensures Exec(Init(version, capacity, n), es).closed
    ensures ReturnedValues(Init(version, capacity, n), es) == AcceptedValues(Init(version, capacity, n), es)
  {
    FailedWaitPopSawTheEnd(Exec(Init(version, capacity, n), es), e);
    ReturnedInOrder(version, capacity, n, es);
  }

  lemma DrainedByThen<T>(s: State<T>, e: Event<T>)
    requires Inv(s) && Enabled(s, e) && WaitPopFails(s, e)
    ensures s.closed && s.queue == [] && s.popped == s.pushed
  {
    FailedWaitPopSawTheEnd(s, e);
  }

  lemma CloseCloses<T>(s: State<T>, e: Event<T>)
    requires Enabled(s, e) && e.action == Call(Close)
    ensures Next(s, e).closed && Next(s, e).pushed == s.pushed
  {
  }

  /** The parts of the run in one, and what its calls have returned. */
  lemma {:induction false} WholeRun<T>(version: Version, capacity: nat, n: nat, before: seq<Event<T>>,
      close: Event<T>, after: seq<Event<T>>, rest: seq<Event<T>>)
    requires var s0 := Init(version, capacity, n);
      && ValidRun(s0, before) && Enabled(Exec(s0, before), close) && ValidRun(Next(Exec(s0, before), close), after)
      && ValidRun(Exec(Next(Exec(s0, before), close), after), rest)
    ensures var s0, all := Init(version, capacity, n), before + ([close] + after);
      && var s2 := Exec(Next(Exec(s0, before), close), after);
      && ValidRun(s0, all) && ValidRun(s0, all + rest)
      && Exec(s0, all) == s2 && Exec(s0, all + rest) == Exec(s2, rest)
      && ReturnedValues(s0, all) == s2.popped && ReturnedValues(s0, all + rest) == Exec(s2, rest).popped
  {
    var s0, tail := Init(version, capacity, n), [close] + after;
    assert tail[1..] == after && tail[0] == close;
    hide Next, Enabled;
    RunsJoin(s0, before, tail);
    RunsJoin(s0, before + tail, rest);
    RecordsAreReports(version, capacity, n, before + tail);
    RecordsAreReports(version, capacity, n, before + tail + rest);
  }

  /**
   Close-then-drain, both versions at any capacity: if all pushes have returned when the queue is first
   closed, then whenever a `wait_pop` fails the values that calls have returned are exactly the
   values pushed, each exactly as often, and it stays so.
   */
  lemma {:induction false} CloseThenDrain<T(!new)>(version: Version, capacity: nat, n: nat, before: seq<Event<T>>,
      close: Event<T>, after: seq<Event<T>>, e: Event<T>, rest: seq<Event<T>>)
    requires ValidRun(Init(version, capacity, n), before) && OpenCalls(before)
    requires var s1 := Exec(Init(version, capacity, n), before);
      && NobodyInPush(s1) && close.action == Call(Close) && Enabled(s1, close)
      && ValidRun(Next(s1, close), after)
    requires var s2 := Exec(Next(Exec(Init(version, capacity, n), before), close), after);
      Enabled(s2, e) && WaitPopFails(s2, e) && ValidRun(s2, rest)
    ensures var s0, all := Init(version, capacity, n), before + ([close] + after);
      && ValidRun(s0, all) && ValidRun(s0, all + rest)
      && multiset(ReturnedValues(s0, all)) == multiset(PushArguments(before))
      && ReturnedValues(s0, all + rest) == ReturnedValues(s0, all)
      && Exec(s0, all + rest).closed && Exec(s0, all + rest).queue == []
  {
    var s1 := Exec(Init(version, capacity, n), before);
    var s2 := Exec(Next(s1, close), after);
    CloseCloses(s1, close);
    hide Next, Enabled, Inv, OpenCalls, NobodyInPush, WaitPopFails;
    InitInv<T>(version, capacity, n);
    RunsKeepInv(Init(version, capacity, n), before);
    NextInv(s1, close);
    RunsKeepInv(Next(s1, close), after);
    ClosedForever(Next(s1, close), after);
    DrainedByThen(s2, e);
    ClosedForever(s2, rest);
    WholeRun(version, capacity, n, before, close, after, rest);
    forall v: T ensures multiset(s2.popped)[v] == multiset(PushArguments(before))[v] {
      Multiplicity(s2.popped, v);
      Multiplicity(PushArguments(before), v);
      AllAccepted(version, capacity, n, before, Indicator(v));
    }
  }
}
