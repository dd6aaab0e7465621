/** What the calls of the bounded mutex queues with two condition variables return. */
module RingReturns {
  import opened Counting
  import opened Wrappers
  import opened RingQueue
  import Fifo = BlockingFifo

  function OpOf<T>(op: Operation<T>): Fifo.Operation<T> {
    match op
    case Push(v) => Fifo.Push(v)
    case WaitPop => Fifo.WaitPop
    case TryPush(v, _) => Fifo.TryPush(v)
    case TryPop => Fifo.TryPop
    case Close => Fifo.Close
  }

  function ResultOf<T>(r: Result<T>): Fifo.Result<T>
    requires !r.Nothing?
  {
    match r
    case PushResult(ok) => Fifo.PushResult(ok)
    case PopResult(out) => Fifo.PopResult(out)
    case CloseResult => Fifo.CloseResult
  }

  /** Where a thread is in its call. */
  function StatusOf<T>(th: Thread<T>): Fifo.Status<T> {
    match th
    case Idle(last) => if last.Nothing? then Fifo.Resting else Fifo.Returned(ResultOf(last))
    case AsleepConsumer => Fifo.Waiting(Fifo.WaitPop)
    case WokenConsumer => Fifo.Waiting(Fifo.WaitPop)
    case AsleepProducer(v) => Fifo.Waiting(Fifo.Push(v))
    case WokenProducer(v) => Fifo.Waiting(Fifo.Push(v))
    case OwesConsumer => Fifo.Decided(Fifo.PushResult(true))
    case OwesProducer(out) => Fifo.Decided(Fifo.PopResult(Some(out)))
    case ClosingConsumers => Fifo.Decided(Fifo.CloseResult)
    case ClosingProducers => Fifo.Decided(Fifo.CloseResult)
  }

  function Abstract<T>(s: State<T>): Fifo.Object<T> {
    Fifo.Object(s.queue, s.closed,
                seq(|s.threads|, u requires 0 <= u < |s.threads| => StatusOf(s.threads[u])))
  }

  /** The bound of the specification. */
  function Bound(s: State): Option<nat> { Some(s.capacity) }

  function ActOf<T>(s: State<T>, e: Event<T>): Fifo.Act<T>
    requires Enabled(s, e)
  {
    match e.action
    case Call(op) => Fifo.Calls(OpOf(op))
    case Relock => Fifo.TestsAgain
    case NotifyOne(_) => Fifo.Finishes
    case NotifyAll => if s.threads[e.thread].ClosingConsumers? then Fifo.Quiet else Fifo.Finishes
    case WakeSpuriously => Fifo.Quiet
  }

  // One step is one step of the specification, and the records are what the calls report.

  /** Only the acting thread's call is touched. */
  lemma OthersKeep<T>(s: State<T>, e: Event<T>, u: nat)
    requires Enabled(s, e) && u < |s.threads| && u != e.thread && u < |Next(s, e).threads|
    ensures StatusOf(Next(s, e).threads[u]) == StatusOf(s.threads[u])
  {
  }

  /** The records of the machine grow by exactly what the step's call reports. */
  ghost predicate Recorded<T>(s: State<T>, s': State<T>, t: nat, a: Fifo.Act<T>)
    requires t < |s.threads| == |s'.threads|
  {
    && s'.pushed == s.pushed + Fifo.AcceptedBy(Abstract(s), Abstract(s'), t, a)
    && s'.popped == s.popped + Fifo.DeliveredBy(Abstract(s), Abstract(s'), t, a)
  }

  ghost predicate OnlyActs<T>(s: State<T>, e: Event<T>)
    requires Enabled(s, e)
  {
    |Next(s, e).threads| == |s.threads| &&
    forall u :: 0 <= u < |s.threads| && u != e.thread ==> StatusOf(Next(s, e).threads[u]) == StatusOf(s.threads[u])
  }

  lemma PushRefines<T>(s: State<T>, e: Event<T>)
    requires Enabled(s, e) && OnlyActs(s, e)
    requires e.action.Call? && (e.action.op.Push? || e.action.op.TryPush?)
    ensures Fifo.Step(Bound(s), Abstract(s), Abstract(Next(s, e)), e.thread, ActOf(s, e))
    ensures Recorded(s, Next(s, e), e.thread, ActOf(s, e))
  {
  }

  lemma PopRefines<T>(s: State<T>, e: Event<T>)
    requires Enabled(s, e) && OnlyActs(s, e)
    requires e.action.Call? && (e.action.op.WaitPop? || e.action.op.TryPop? || e.action.op.Close?)
    ensures Fifo.Step(Bound(s), Abstract(s), Abstract(Next(s, e)), e.thread, ActOf(s, e))
    ensures Recorded(s, Next(s, e), e.thread, ActOf(s, e))
  {
  }

  lemma RelockRefines<T>(s: State<T>, e: Event<T>)
    requires Enabled(s, e) && OnlyActs(s, e)
    requires e.action.Relock?
    ensures Fifo.Step(Bound(s), Abstract(s), Abstract(Next(s, e)), e.thread, ActOf(s, e))
    ensures Recorded(s, Next(s, e), e.thread, ActOf(s, e))
  {
  }

  lemma WakeRefines<T>(s: State<T>, e: Event<T>)
    requires Enabled(s, e) && OnlyActs(s, e)
    requires e.action.NotifyOne? || e.action.NotifyAll? || e.action.WakeSpuriously?
    ensures Fifo.Step(Bound(s), Abstract(s), Abstract(Next(s, e)), e.thread, ActOf(s, e))
    ensures Recorded(s, Next(s, e), e.thread, ActOf(s, e))
  {
  }

  /** One step of the machine is one step of the specification. */
  lemma NextRefines<T>(s: State<T>, e: Event<T>)
    requires Enabled(s, e)
    ensures |Next(s, e).threads| == |s.threads|
    ensures Fifo.Step(Bound(s), Abstract(s), Abstract(Next(s, e)), e.thread, ActOf(s, e))
    ensures Recorded(s, Next(s, e), e.thread, ActOf(s, e))
  {
    hide Next, Fifo.Step, Recorded;
    NextShape(s, e);
    forall u | 0 <= u < |s.threads| && u != e.thread
      ensures StatusOf(Next(s, e).threads[u]) == StatusOf(s.threads[u])
    {
      OthersKeep(s, e, u);
    }
    match e.action
    case Call(Push(_)) => PushRefines(s, e);
    case Call(TryPush(_, _)) => PushRefines(s, e);
    case Call(_) => PopRefines(s, e);
    case Relock => RelockRefines(s, e);
    case _ => WakeRefines(s, e);
  }

  // Runs.

  ghost function Observed<T>(s: State<T>, es: seq<Event<T>>): (os: seq<Fifo.Object<T>>)
    requires ValidRun(s, es)
    ensures |os| == |es| + 1 && os[0] == Abstract(s)
    decreases |es|
  {
    if es == [] then [Abstract(s)] else [Abstract(s)] + Observed(Next(s, es[0]), es[1..])
  }

  ghost function Moves<T>(s: State<T>, es: seq<Event<T>>): (ms: seq<Fifo.Move<T>>)
    requires ValidRun(s, es)
    ensures |ms| == |es|
    decreases |es|
  {
    if es == [] then [] else [Fifo.Move(es[0].thread, ActOf(s, es[0]))] + Moves(Next(s, es[0]), es[1..])
  }

  lemma Unfold<T>(s: State<T>, es: seq<Event<T>>)
    requires ValidRun(s, es) && es != []
    ensures Enabled(s, es[0]) && ValidRun(Next(s, es[0]), es[1..]) && Exec(s, es) == Exec(Next(s, es[0]), es[1..])
    ensures Observed(s, es) == [Abstract(s)] + Observed(Next(s, es[0]), es[1..])
    ensures Moves(s, es) == [Fifo.Move(es[0].thread, ActOf(s, es[0]))] + Moves(Next(s, es[0]), es[1..])
  {
    hide Next, Enabled, Abstract, ActOf;
  }

  /** Every run is a run of the specification. */
  lemma {:induction false} RunsAreRuns<T>(s: State<T>, es: seq<Event<T>>)
    requires ValidRun(s, es)
    ensures Fifo.IsRun(Bound(s), Observed(s, es), Moves(s, es))
    ensures Observed(s, es)[|es|] == Abstract(Exec(s, es))
    decreases |es|
  {
    if es != [] {
      Unfold(s, es);
      hide Next, Enabled, Abstract, ActOf, ValidRun, Exec, Observed, Moves, Fifo.IsRun, Fifo.Step;
      NextRefines(s, es[0]);
      NextShape(s, es[0]);
      var s', m := Next(s, es[0]), Fifo.Move(es[0].thread, ActOf(s, es[0]));
      RunsAreRuns(s', es[1..]);
      Fifo.RunPrepend(Bound(s), Abstract(s), Observed(s', es[1..]), m, Moves(s', es[1..]));
    }
  }

  /**
   Every run is a run of the specification, in which the values recorded as pushed are those of the
   calls that returned true and the values recorded as popped are those the calls returned.
   */
  lemma {:induction false} RunsRefine<T>(s: State<T>, es: seq<Event<T>>)
    requires ValidRun(s, es)
    ensures Fifo.IsRun(Bound(s), Observed(s, es), Moves(s, es))
    ensures Observed(s, es)[|es|] == Abstract(Exec(s, es))
    ensures Exec(s, es).pushed == s.pushed + Fifo.Accepted(Bound(s), Observed(s, es), Moves(s, es))
    ensures Exec(s, es).popped == s.popped + Fifo.Delivered(Bound(s), Observed(s, es), Moves(s, es))
    decreases |es|
  {
    RunsAreRuns(s, es);
    if es != [] {
      Unfold(s, es);
      hide Next, Enabled, Abstract, ActOf, ValidRun, Exec, Observed, Moves, Fifo.IsRun, Fifo.Step,
        Fifo.Accepted, Fifo.Delivered, Fifo.AcceptedBy, Fifo.DeliveredBy;
      NextShape(s, es[0]);
      NextRefines(s, es[0]);
      var s', m := Next(s, es[0]), Fifo.Move(es[0].thread, ActOf(s, es[0]));
      RunsRefine(s', es[1..]);
      Fifo.Prepends(Bound(s), Abstract(s), Abstract(s'), Observed(s', es[1..]), m, Moves(s', es[1..]));
      Fifo.Associates(s.pushed, Fifo.AcceptedBy(Abstract(s), Abstract(s'), m.thread, m.act),
                 Fifo.Accepted(Bound(s), Observed(s', es[1..]), Moves(s', es[1..])));
      Fifo.Associates(s.popped, Fifo.DeliveredBy(Abstract(s), Abstract(s'), m.thread, m.act),
                 Fifo.Delivered(Bound(s), Observed(s', es[1..]), Moves(s', es[1..])));
    }
  }

  lemma {:induction false} RunsJoin<T>(s: State<T>, a: seq<Event<T>>, b: seq<Event<T>>)
    requires ValidRun(s, a) && ValidRun(Exec(s, a), b)
    ensures ValidRun(s, a + b) && Exec(s, a + b) == Exec(Exec(s, a), b)
    decreases |a|
  {
    hide Next, Enabled;
    if a == [] {
      assert a + b == b;
    } else {
      RunsJoin(Next(s, a[0]), a[1..], b);
      assert (a + b)[1..] == a[1..] + b;
    }
  }

  /** What all calls of a run return, and what all accepted pushes were given, in the order of their effects. */
  ghost function ReturnedValues<T>(s: State<T>, es: seq<Event<T>>): seq<T>
    requires ValidRun(s, es)
  {
    RunsRefine(s, es);
    Fifo.Delivered(Bound(s), Observed(s, es), Moves(s, es))
  }

  ghost function AcceptedValues<T>(s: State<T>, es: seq<Event<T>>): seq<T>
    requires ValidRun(s, es)
  {
    RunsRefine(s, es);
    Fifo.Accepted(Bound(s), Observed(s, es), Moves(s, es))
  }

  /** What the calls of each thread have returned, weighed. */
  ghost function Shares<T>(s: State<T>, es: seq<Event<T>>, w: T -> int): seq<int>
    requires ValidRun(s, es)
  {
    RunsRefine(s, es);
    Fifo.Shares(Bound(s), Observed(s, es), Moves(s, es), |s.threads|, w)
  }

  lemma {:induction false} SharesAddUp<T>(s: State<T>, es: seq<Event<T>>, w: T -> int)
    requires ValidRun(s, es)
    ensures Sum(Shares(s, es, w)) == Weight(ReturnedValues(s, es), w)
  {
    RunsRefine(s, es);
    Fifo.SharesAddUp(Bound(s), Observed(s, es), Moves(s, es), |s.threads|, w);
  }

  /** From a new queue on, the machine's records are what the calls report. */
  lemma {:induction false} RecordsAreReports<T>(version: Version, capacity: nat, n: nat, es: seq<Event<T>>)
    requires ValidRun(Init(version, capacity, n), es)
    ensures Exec(Init(version, capacity, n), es).pushed == AcceptedValues(Init(version, capacity, n), es)
    ensures Exec(Init(version, capacity, n), es).popped == ReturnedValues(Init(version, capacity, n), es)
  {
    RunsRefine(Init(version, capacity, n), es);
  }

  /** First in, first out, by what the calls return. */
  lemma {:induction false} ReturnedInOrder<T>(version: Version, capacity: nat, n: nat, es: seq<Event<T>>)
    requires ValidRun(Init(version, capacity, n), es)
    ensures AcceptedValues(Init(version, capacity, n), es)
         == ReturnedValues(Init(version, capacity, n), es) + Exec(Init(version, capacity, n), es).queue
  {
    var s := Init<T>(version, capacity, n);
    RunsRefine(s, es);
    Fifo.ReturnedInOrder(Bound(s), Observed(s, es), Moves(s, es));
  }

  /**
   One call, over any run from its start on while its thread calls nothing else: it is still waiting
   without effect, or it has settled; a push has pushed its value exactly if it returns true, and once;
   a pop has taken exactly the value it returns; a blocking push returns false only on a closed queue.
   */
  lemma {:induction false} CallOutcome<T>(s: State<T>, t: nat, op: Operation<T>, es: seq<Event<T>>)
    requires ValidRun(s, es) && es != [] && es[0].thread == t && es[0].action.Call? && es[0].action.op == op
    requires forall i :: 0 < i < |es| && es[i].thread == t ==> !es[i].action.Call?
    ensures Fifo.IsRun(Bound(s), Observed(s, es), Moves(s, es)) && t < |Exec(s, es).threads|
    ensures Fifo.Outcome(OpOf(op), StatusOf(Exec(s, es).threads[t]),
                         Fifo.AcceptedOf(Bound(s), Observed(s, es), Moves(s, es), t),
                         Fifo.DeliveredOf(Bound(s), Observed(s, es), Moves(s, es), t), Exec(s, es).closed)
  {
    RunsRefine(s, es);
    MovesAre(s, es);
    hide Next, Enabled, Fifo.IsRun, Fifo.Outcome;
    Fifo.CallOutcome(Bound(s), Observed(s, es), Moves(s, es), OpOf(op));
  }

  lemma {:induction false} MovesAre<T>(s: State<T>, es: seq<Event<T>>)
    requires ValidRun(s, es)
    ensures forall i :: 0 <= i < |es| ==> Moves(s, es)[i].thread == es[i].thread
    ensures forall i :: 0 <= i < |es| ==> (Moves(s, es)[i].act.Calls? <==> es[i].action.Call?)
    ensures es != [] && es[0].action.Call? ==> Moves(s, es)[0].act == Fifo.Calls(OpOf(es[0].action.op))
    decreases |es|
  {
    if es != [] {
      MovesAre(Next(s, es[0]), es[1..]);
    }
  }
}
