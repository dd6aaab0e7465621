/** Finite programs, closing and draining on the first bounded mutex queue. */
module RingOneCvClient {
  import opened Counting
  import opened RingOneCv
  import opened RingOneCvReturns
  import opened Wrappers

  /** A call of `wait_pop` fails exactly at an instant when the queue is closed and empty. */
  lemma FailedWaitPopSawTheEnd<T>(s: State<T>, e: Event<T>)
    requires Enabled(s, e)
    requires e.action == Call(WaitPop) || (e.action.Relock? && s.threads[e.thread].WokenConsumer?)
    ensures Next(s, e).threads[e.thread] == Idle(PopResult(None)) <==> s.closed && s.queue == []
  {
  }

  lemma ClosedStep<T>(s: State<T>, e: Event<T>)
    requires Enabled(s, e) && s.closed
    ensures Next(s, e).closed && Next(s, e).pushed == s.pushed
    ensures s.queue == [] ==> Next(s, e).queue == [] && Next(s, e).popped == s.popped
  {
  }

  /** A closed queue accepts nothing, also not from producers that were waiting, and once empty it stays so. */
  lemma {:induction false} ClosedForever<T>(s: State<T>, es: seq<Event<T>>)
    requires ValidRun(s, es) && s.closed
    ensures Exec(s, es).closed && Exec(s, es).pushed == s.pushed
    ensures s.queue == [] ==> Exec(s, es).queue == [] && Exec(s, es).popped == s.popped
    decreases |es|
  {
    hide Next, Enabled;
    if es != [] {
      ClosedStep(s, es[0]);
      ClosedForever(Next(s, es[0]), es[1..]);
    }
  }

  // Every value handed to `push` is accepted or its producer waits, while the queue is open.

  function PushArguments<T>(es: seq<Event<T>>): seq<T> {
    if es == [] then []
    else (if es[0].action.Call? && es[0].action.op.Push? then [es[0].action.op.value] else []) + PushArguments(es[1..])
  }

  function HeldWeight<T>(th: Thread<T>, w: T -> int): int {
    if th.AsleepProducer? || th.WokenProducer? then w(th.value) else 0
  }

  /** What waiting producers hold. */
  function Held<T>(ths: seq<Thread<T>>, w: T -> int): seq<int> {
    seq(|ths|, u requires 0 <= u < |ths| => HeldWeight(ths[u], w))
  }

  function Handed<T>(s: State<T>, w: T -> int): int {
    Weight(s.pushed, w) + Sum(Held(s.threads, w))
  }

  lemma HeldSet<T>(s: State<T>, t: nat, th: Thread<T>, w: T -> int)
    requires t < |s.threads|
    ensures Sum(Held(Set(s, t, th).threads, w))
         == Sum(Held(s.threads, w)) - HeldWeight(s.threads[t], w) + HeldWeight(th, w)
  {
    SumUpdate(Held(s.threads, w), t, HeldWeight(th, w));
    assert Held(s.threads[t := th], w) == Held(s.threads, w)[t := HeldWeight(th, w)];
  }

  lemma PushHands<T>(s: State<T>, t: nat, v: T, w: T -> int)
    requires t < |s.threads| && !s.closed && (s.threads[t].Idle? || s.threads[t] == WokenProducer(v))
    ensures Handed(PushStep(s, t, v), w) == Handed(s, w) + (if s.threads[t].Idle? then w(v) else 0)
  {
    var s' := PushStep(s, t, v);
    HeldSet(s, t, s'.threads[t], w);
    assert s'.threads == Set(s, t, s'.threads[t]).threads;
    WeightSnoc(s.pushed, v, w);
  }

  lemma PopHands<T>(s: State<T>, t: nat, w: T -> int)
    requires t < |s.threads| && HeldWeight(s.threads[t], w) == 0
    ensures Handed(PopStep(s, t), w) == Handed(s, w)
  {
    var s' := PopStep(s, t);
    HeldSet(s, t, s'.threads[t], w);
    assert s'.threads == Set(s, t, s'.threads[t]).threads;
  }

  lemma TryPopHands<T>(s: State<T>, t: nat, w: T -> int)
    requires t < |s.threads| && s.threads[t].Idle?
    ensures Handed(TryPopStep(s, t), w) == Handed(s, w)
  {
    var s' := TryPopStep(s, t);
    HeldSet(s, t, s'.threads[t], w);
    assert s'.threads == Set(s, t, s'.threads[t]).threads;
  }

  /** Waking changes nobody's value. */
  lemma WakeHands<T>(s: State<T>, e: Event<T>, w: T -> int)
    requires Enabled(s, e) && (e.action.NotifyAll? || e.action.WakeSpuriously?)
    ensures Handed(Next(s, e), w) == Handed(s, w)
  {
    assert Held(Next(s, e).threads, w) == Held(s.threads, w);
  }

  lemma OpenStep<T>(s: State<T>, e: Event<T>, w: T -> int)
    requires Enabled(s, e) && !s.closed
    requires e.action.Call? ==> !e.action.op.Close? && !e.action.op.TryPush?
    ensures !Next(s, e).closed && Handed(Next(s, e), w) == Handed(s, w) + Weight(PushArguments([e]), w)
  {
    var t := e.thread;
    Singleton(e, w);
    hide PushArguments;
    match e.action
    case Call(Push(v)) => PushHands(s, t, v, w);
    case Call(WaitPop) => PopHands(s, t, w);
    case Call(TryPop) => TryPopHands(s, t, w);
    case Relock => RelockHands(s, t, w);
    case _ => WakeHands(s, e, w); WakeStaysOpen(s, e);
  }

  lemma Singleton<T>(e: Event<T>, w: T -> int)
    ensures Weight(PushArguments([e]), w) == if e.action.Call? && e.action.op.Push? then w(e.action.op.value) else 0
  {
    assert PushArguments([e]) == (if e.action.Call? && e.action.op.Push? then [e.action.op.value] else []) + [];
  }

  lemma WakeStaysOpen<T>(s: State<T>, e: Event<T>)
    requires Enabled(s, e) && (e.action.NotifyAll? || e.action.WakeSpuriously?)
    ensures Next(s, e).closed == s.closed
  {
  }

  lemma RelockHands<T>(s: State<T>, t: nat, w: T -> int)
    requires Enabled(s, Event(t, Relock)) && !s.closed
    ensures !RelockStep(s, t).closed && Handed(RelockStep(s, t), w) == Handed(s, w)
  {
    if s.threads[t].WokenConsumer? { PopHands(s, t, w); } else { PushHands(s, t, s.threads[t].value, w); }
  }

  ghost predicate OpenCalls(es: seq<Event>) {
    forall i :: 0 <= i < |es| && es[i].action.Call? ==> !es[i].action.op.Close? && !es[i].action.op.TryPush?
  }

  lemma NoArguments<T>(w: T -> int)
    ensures Weight(PushArguments<T>([]), w) == 0
  {
  }

  lemma ArgumentsSplit<T>(es: seq<Event<T>>, w: T -> int)
    requires es != []
    ensures Weight(PushArguments(es), w) == Weight(PushArguments([es[0]]), w) + Weight(PushArguments(es[1..]), w)
  {
    assert PushArguments(es) == PushArguments([es[0]]) + PushArguments(es[1..]);
    WeightConcat(PushArguments([es[0]]), PushArguments(es[1..]), w);
  }

  lemma {:induction false} OpenRun<T>(s: State<T>, es: seq<Event<T>>, w: T -> int)
    requires ValidRun(s, es) && !s.closed && OpenCalls(es)
    ensures !Exec(s, es).closed && Handed(Exec(s, es), w) == Handed(s, w) + Weight(PushArguments(es), w)
    decreases |es|
  {
    hide Next, Enabled, Handed, PushArguments, Weight;
    if es == [] {
      NoArguments(w);
    } else {
      OpenStep(s, es[0], w);
      OpenRun(Next(s, es[0]), es[1..], w);
      ArgumentsSplit(es, w);
    }
  }

  ghost predicate NobodyInPush(s: State) {
    forall u :: 0 <= u < |s.threads| ==> !s.threads[u].AsleepProducer? && !s.threads[u].WokenProducer?
  }

  lemma NothingHeld<T>(s: State<T>, w: T -> int)
    requires NobodyInPush(s)
    ensures Handed(s, w) == Weight(s.pushed, w)
  {
    SumZero(Held(s.threads, w));
  }

  /** If all pushes have returned when the queue is closed, everything handed to them has been accepted. */
  lemma {:induction false} AllAccepted<T>(capacity: nat, n: nat, before: seq<Event<T>>, w: T -> int)
    requires ValidRun(Init(capacity, n), before) && OpenCalls(before)
    requires NobodyInPush(Exec(Init(capacity, n), before))
    ensures Weight(Exec(Init(capacity, n), before).pushed, w) == Weight(PushArguments(before), w)
  {
    var s0 := Init<T>(capacity, n);
    OpenRun(s0, before, w);
    NothingHeld(s0, w);
    NothingHeld(Exec(s0, before), w);
  }

  /** The event makes a `wait_pop` fail. */
  ghost predicate WaitPopFails<T>(s: State<T>, e: Event<T>)
    requires Enabled(s, e)
  {
    (e.action == Call(WaitPop) || (e.action.Relock? && s.threads[e.thread].WokenConsumer?)) &&
    Next(s, e).threads[e.thread] == Idle(PopResult(None))
  }

  /**
   Whatever was called before, `try_push` included: when a `wait_pop` fails the queue is closed and all
   values ever accepted have been returned, in order.
   */
  lemma {:induction false} FailedWaitPopReturnedAll<T>(capacity: nat, n: nat, es: seq<Event<T>>, e: Event<T>)
    requires ValidRun(Init(capacity, n), es) && Enabled(Exec(Init(capacity, n), es), e)
    requires WaitPopFails(Exec(Init(capacity, n), es), e)
    ensures Exec(Init(capacity, n), es).closed
    ensures ReturnedValues(Init(capacity, n), es) == AcceptedValues(Init(capacity, n), es)
  {
    FailedWaitPopSawTheEnd(Exec(Init(capacity, n), es), e);
    ReturnedInOrder(capacity, n, es);
  }

  lemma DrainedByThen<T>(s: State<T>, e: Event<T>)
    requires Inv(s) && Enabled(s, e) && WaitPopFails(s, e)
    ensures s.closed && s.queue == [] && s.popped == s.pushed
  {
    FailedWaitPopSawTheEnd(s, e);
  }

  lemma CloseCloses<T>(s: State<T>, e: Event<T>)
    requires Enabled(s, e) && e.action == Call(Close)
    ensures Next(s, e).closed && Next(s, e).pushed == s.pushed
  {
  }

  /** The parts of the run in one, and what its calls have returned. */
  lemma {:induction false} WholeRun<T>(capacity: nat, n: nat, before: seq<Event<T>>,
      close: Event<T>, after: seq<Event<T>>, rest: seq<Event<T>>)
    requires var s0 := Init(capacity, n);
      && ValidRun(s0, before) && Enabled(Exec(s0, before), close) && ValidRun(Next(Exec(s0, before), close), after)
      && ValidRun(Exec(Next(Exec(s0, before), close), after), rest)
    ensures var s0, all := Init(capacity, n), before + ([close] + after);
      && var s2 := Exec(Next(Exec(s0, before), close), after);
      && ValidRun(s0, all) && ValidRun(s0, all + rest)
      && Exec(s0, all) == s2 && Exec(s0, all + rest) == Exec(s2, rest)
      && ReturnedValues(s0, all) == s2.popped && ReturnedValues(s0, all + rest) == Exec(s2, rest).popped
  {
    var s0, tail := Init(capacity, n), [close] + after;
    assert tail[1..] == after && tail[0] == close;
    hide Next, Enabled;
    RunsJoin(s0, before, tail);
    RunsJoin(s0, before + tail, rest);
    RecordsAreReports(capacity, n, before + tail);
    RecordsAreReports(capacity, n, before + tail + rest);
  }

  /**
   Close-then-drain at any capacity: if all pushes have returned when the queue is first
   closed, then whenever a `wait_pop` fails the values that calls have returned are exactly the
   values pushed, each exactly as often, and it stays so.
   */
  lemma {:induction false} CloseThenDrain<T(!new)>(capacity: nat, n: nat, before: seq<Event<T>>, close: Event<T>,
                                after: seq<Event<T>>, e: Event<T>, rest: seq<Event<T>>)
    requires ValidRun(Init(capacity, n), before) && OpenCalls(before)
    requires var s1 := Exec(Init(capacity, n), before);
      && NobodyInPush(s1) && close.action == Call(Close) && Enabled(s1, close)
      && ValidRun(Next(s1, close), after)
    requires var s2 := Exec(Next(Exec(Init(capacity, n), before), close), after);
      Enabled(s2, e) && WaitPopFails(s2, e) && ValidRun(s2, rest)
    ensures var s0, all := Init(capacity, n), before + ([close] + after);
      && ValidRun(s0, all) && ValidRun(s0, all + rest)
      && multiset(ReturnedValues(s0, all)) == multiset(PushArguments(before))
      && ReturnedValues(s0, all + rest) == ReturnedValues(s0, all)
      && Exec(s0, all + rest).closed && Exec(s0, all + rest).queue == []
  {
    var s1 := Exec(Init(capacity, n), before);
    var s2 := Exec(Next(s1, close), after);
    CloseCloses(s1, close);
    hide Next, Enabled, Inv, OpenCalls, NobodyInPush, WaitPopFails;
    RunsKeep(Init(capacity, n), before);
    NextKeeps(s1, close);
    RunsKeep(Next(s1, close), after);
    ClosedForever(Next(s1, close), after);
    DrainedByThen(s2, e);
    ClosedForever(s2, rest);
    WholeRun(capacity, n, before, close, after, rest);
    forall v: T ensures multiset(s2.popped)[v] == multiset(PushArguments(before))[v] {
      Multiplicity(s2.popped, v);
      Multiplicity(PushArguments(before), v);
      AllAccepted(capacity, n, before, Indicator(v));
    }
  }

  // Finite calls make finite runs.

  function CallCount(es: seq<Event>): nat {
    if es == [] then 0 else One(es[0].action.Call?) + CallCount(es[1..])
  }

  function SpuriousCount(es: seq<Event>): nat {
    if es == [] then 0 else One(es[0].action.WakeSpuriously?) + SpuriousCount(es[1..])
  }

  /** The steps a thread may still cause without a further call, among `n` threads. */
  function Load<T>(th: Thread<T>, n: nat): nat {
    match th
    case Idle(_) => 0
    case AsleepConsumer => n + 1
    case AsleepProducer(_) => n + 1
    case WokenConsumer => n + 2
    case WokenProducer(_) => n + 2
    case OwesAll(_) => n + 1
  }

  function Loads<T>(ths: seq<Thread<T>>, n: nat): seq<int> {
    seq(|ths|, u requires 0 <= u < |ths| => Load(ths[u], n))
  }

  function Total<T>(s: State<T>): int { Sum(Loads(s.threads, |s.threads|)) }

  lemma LoadSet<T>(s: State<T>, t: nat, th: Thread<T>)
    requires t < |s.threads|
    ensures Total(Set(s, t, th)) == Total(s) - Load(s.threads[t], |s.threads|) + Load(th, |s.threads|)
  {
    var n := |s.threads|;
    SumUpdate(Loads(s.threads, n), t, Load(th, n));
    assert Loads(s.threads[t := th], n) == Loads(s.threads, n)[t := Load(th, n)];
  }

  lemma SameTotal<T>(s: State<T>, s': State<T>)
    requires s'.threads == s.threads
    ensures Total(s') == Total(s)
  {
  }

  /** A broadcast costs one step for each thread it wakes. */
  lemma RousedLoad<T>(s: State<T>)
    ensures Total(Roused(s)) <= Total(s) + |s.threads| && |Roused(s).threads| == |s.threads|
  {
    var n := |s.threads|;
    SumAll(Loads(s.threads, n), Loads(Roused(s).threads, n), 1);
  }

  lemma CallLoad<T>(s: State<T>, t: nat, op: Operation<T>)
    requires t < |s.threads| && s.threads[t].Idle?
    ensures 1 + Total(CallStep(s, t, op)) <= Total(s) + |s.threads| + 4
  {
    hide Total, Roused;
    var s' := CallStep(s, t, op);
    if op.TryPush? && !s.closed && |s.queue| < s.capacity {
      var s1 := Enqueued(s, op.value);
      SameTotal(s, s1);
      RousedLoad(s1);
      LoadSet(Roused(s1), t, Idle(PushResult(true)));
    } else {
      LoadSet(s, t, s'.threads[t]);
      SameTotal(Set(s, t, s'.threads[t]), s');
    }
  }

  lemma NotifyAllLoad<T>(s: State<T>, t: nat)
    requires Enabled(s, Event(t, NotifyAll))
    ensures 1 + Total(Next(s, Event(t, NotifyAll))) <= Total(s)
  {
    RousedLoad(s);
    LoadSet(Roused(s), t, Idle(s.threads[t].result));
  }

  lemma OwnLoad<T>(s: State<T>, e: Event<T>)
    requires Enabled(s, e) && (e.action.WakeSpuriously? || e.action.Relock?)
    ensures 1 + Total(Next(s, e)) <= Total(s) + 2 * One(e.action.WakeSpuriously?)
  {
    hide Total;
    var s', t := Next(s, e), e.thread;
    LoadSet(s, t, s'.threads[t]);
    SameTotal(Set(s, t, s'.threads[t]), s');
  }

  lemma StepLoad<T>(s: State<T>, e: Event<T>)
    requires Enabled(s, e)
    ensures 1 + Total(Next(s, e))
         <= Total(s) + (|s.threads| + 4) * One(e.action.Call?) + 2 * One(e.action.WakeSpuriously?)
  {
    hide Total, CallStep, RelockStep, Roused;
    match e.action
    case Call(op) => CallLoad(s, e.thread, op);
    case NotifyAll => NotifyAllLoad(s, e.thread);
    case _ => OwnLoad(s, e);
  }

  lemma Distribute(k: nat, a: nat, b: nat)
    ensures k * (a + b) == k * a + k * b
  {
  }

  lemma {:induction false} StepsPaid<T>(s: State<T>, es: seq<Event<T>>)
    requires ValidRun(s, es)
    ensures |es| <= Total(s) + (|s.threads| + 4) * CallCount(es) + 2 * SpuriousCount(es)
    decreases |es|
  {
    if es == [] {
      SumNonNegative(Loads(s.threads, |s.threads|));
    } else {
      hide Next, Enabled, Total;
      StepLoad(s, es[0]);
      NextShape(s, es[0]);
      StepsPaid(Next(s, es[0]), es[1..]);
      Distribute(|s.threads| + 4, One(es[0].action.Call?), CallCount(es[1..]));
    }
  }

  lemma NewQueue<T>(s: State<T>, n: nat)
    requires |s.threads| == n && forall u :: 0 <= u < n ==> s.threads[u].Idle?
    ensures Total(s) == 0
  {
    SumZero(Loads(s.threads, n));
  }

  /**
   Among `n` threads, `c` calls and `f` spurious wakeups make at most `(n + 4) * c + 2 * f` steps, so
   finite programs come to an end; NobodyMissesTheBroadcast says who then still sleeps.
   */
  lemma {:induction false} FiniteCallsFiniteRun<T>(capacity: nat, n: nat, es: seq<Event<T>>)
    requires ValidRun(Init(capacity, n), es)
    ensures |es| <= (n + 4) * CallCount(es) + 2 * SpuriousCount(es)
  {
    hide Total, CallCount, SpuriousCount, ValidRun, Load;
    NewQueue(Init<T>(capacity, n), n);
    StepsPaid(Init<T>(capacity, n), es);
  }
}
