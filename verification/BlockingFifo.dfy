/**
 The specification the mutex queues are compared with: a FIFO, bounded or not, on which a push may have
 to wait for room and `wait_pop` for a value. It says what each call returns.
 */
module BlockingFifo {
  import opened Counting
  import opened Wrappers

  datatype Operation<+T> = Push(value: T) | WaitPop | TryPush(value: T) | TryPop | Close

  datatype Result<+T> = PushResult(ok: bool) | PopResult(out: Option<T>) | CloseResult

  /** A `Waiting` call has had no effect yet, a `Decided` one has and will return this result. */
  datatype Status<+T> =
    | Resting
    | Waiting(op: Operation<T>)
    | Decided(result: Result<T>)
    | Returned(result: Result<T>)

  datatype Object<+T> = Object(queue: seq<T>, closed: bool, status: seq<Status<T>>)

  /** What a step is for the calling thread: a call, a renewed test after waking, the end of a call, or nothing. */
  datatype Act<+T> = Calls(op: Operation<T>) | TestsAgain | Finishes | Quiet

  /** No room in a queue with this bound; `None` is unbounded. */
  predicate Full<T>(bound: Option<nat>, queue: seq<T>) { bound.Some? && |queue| >= bound.value }

  /** The call has to wait. */
  predicate Blocked<T>(bound: Option<nat>, o: Object<T>, op: Operation<T>) {
    !o.closed && ((op.Push? && Full(bound, o.queue)) || (op.WaitPop? && o.queue == []))
  }

  /** What a call that need not wait returns. */
  function Answer<T>(bound: Option<nat>, o: Object<T>, op: Operation<T>): Result<T> {
    match op
    case Push(_) => PushResult(!o.closed)
    case TryPush(_) => PushResult(!o.closed && !Full(bound, o.queue))
    case WaitPop => PopResult(if o.queue == [] then None else Some(o.queue[0]))
    case TryPop => PopResult(if o.queue == [] then None else Some(o.queue[0]))
    case Close => CloseResult
  }

  /** ... and what it leaves: a push that returns true has appended, a pop that returns a value removed it. */
  ghost predicate Effect<T>(o: Object<T>, op: Operation<T>, r: Result<T>, o': Object<T>) {
    && o'.closed == (o.closed || op.Close?)
    && o'.queue == (if r == PushResult(true) && (op.Push? || op.TryPush?) then o.queue + [op.value]
                    else if r.PopResult? && r.out.Some? && o.queue != [] then o.queue[1..]
                    else o.queue)
  }

  ghost predicate Same<T>(o: Object<T>, o': Object<T>) { o'.queue == o.queue && o'.closed == o.closed }

  /** Thread `t` tests whether its call can go on: it waits exactly if it is blocked, else the call is decided. */
  ghost predicate Tests<T>(bound: Option<nat>, o: Object<T>, o': Object<T>, t: nat, op: Operation<T>)
    requires t < |o.status| == |o'.status|
  {
    if Blocked(bound, o, op) then Same(o, o') && o'.status[t] == Waiting(op)
    else Effect(o, op, Answer(bound, o, op), o') &&
         (o'.status[t] == Decided(Answer(bound, o, op)) || o'.status[t] == Returned(Answer(bound, o, op)))
  }

  /** One step of thread `t`; the others' calls are untouched. */
  ghost predicate Step<T>(bound: Option<nat>, o: Object<T>, o': Object<T>, t: nat, a: Act<T>) {
    && t < |o.status| == |o'.status|
    && (forall u :: 0 <= u < |o.status| && u != t ==> o'.status[u] == o.status[u])
    && match a
       case Calls(op) => (o.status[t].Resting? || o.status[t].Returned?) && Tests(bound, o, o', t, op)
       case TestsAgain => o.status[t].Waiting? && Tests(bound, o, o', t, o.status[t].op)
       case Finishes => o.status[t].Decided? && Same(o, o') && o'.status[t] == Returned(o.status[t].result)
       case Quiet => Same(o, o') && o'.status[t] == o.status[t]
  }

  /** The operation that thread `t`'s step decides, if it decides one. */
  ghost function Deciding<T>(o: Object<T>, o': Object<T>, t: nat, a: Act<T>): Option<Operation<T>>
    requires t < |o.status| == |o'.status|
  {
    if !(o'.status[t].Decided? || o'.status[t].Returned?) then None
    else if a.Calls? then Some(a.op)
    else if a.TestsAgain? && o.status[t].Waiting? then Some(o.status[t].op)
    else None
  }

  /** The value of a push that the step makes return true. */
  ghost function AcceptedBy<T>(o: Object<T>, o': Object<T>, t: nat, a: Act<T>): seq<T>
    requires t < |o.status| == |o'.status|
  {
    var d := Deciding(o, o', t, a);
    if d.Some? && (d.value.Push? || d.value.TryPush?) && o'.status[t].result == PushResult(true) then [d.value.value]
    else []
  }

  /** The value that the step makes a pop return. */
  ghost function DeliveredBy<T>(o: Object<T>, o': Object<T>, t: nat, a: Act<T>): seq<T>
    requires t < |o.status| == |o'.status|
  {
    var d := Deciding(o, o', t, a);
    if d.Some? && o'.status[t].result.PopResult? && o'.status[t].result.out.Some? then [o'.status[t].result.out.value]
    else []
  }

  lemma TestDelivers<T>(bound: Option<nat>, o: Object<T>, o': Object<T>, t: nat, a: Act<T>, op: Operation<T>)
    requires t < |o.status| == |o'.status| && Tests(bound, o, o', t, op)
    requires a == Calls(op) || (a.TestsAgain? && o.status[t] == Waiting(op))
    ensures o.queue + AcceptedBy(o, o', t, a) == DeliveredBy(o, o', t, a) + o'.queue
    ensures bound.Some? && |o.queue| <= bound.value ==> |o'.queue| <= bound.value
  {
    if o.queue != [] {
      assert o.queue == [o.queue[0]] + o.queue[1..];
    }
  }

  /** Exactly what calls report as pushed enters, at the back, and exactly what they return leaves, from the front. */
  lemma StepDelivers<T>(bound: Option<nat>, o: Object<T>, o': Object<T>, t: nat, a: Act<T>)
    requires Step(bound, o, o', t, a)
    ensures o.queue + AcceptedBy(o, o', t, a) == DeliveredBy(o, o', t, a) + o'.queue
    ensures bound.Some? && |o.queue| <= bound.value ==> |o'.queue| <= bound.value
  {
    if a.Calls? {
      hide Tests;
      TestDelivers(bound, o, o', t, a, a.op);
    } else if a.TestsAgain? {
      hide Tests;
      TestDelivers(bound, o, o', t, a, o.status[t].op);
    }
  }

  // Runs.

  datatype Move<+T> = Move(thread: nat, act: Act<T>)

  ghost predicate IsRun<T>(bound: Option<nat>, os: seq<Object<T>>, ms: seq<Move<T>>) {
    |os| == |ms| + 1 &&
    forall k :: 0 <= k < |ms| ==> Step(bound, os[k], os[k + 1], ms[k].thread, ms[k].act)
  }

  lemma RunTail<T>(bound: Option<nat>, os: seq<Object<T>>, ms: seq<Move<T>>)
    requires IsRun(bound, os, ms) && ms != []
    ensures Step(bound, os[0], os[1], ms[0].thread, ms[0].act) && IsRun(bound, os[1..], ms[1..])
  {
    hide Step;
    assert Step(bound, os[0], os[0 + 1], ms[0].thread, ms[0].act);
    forall k | 0 <= k < |ms| - 1 ensures Step(bound, os[1..][k], os[1..][k + 1], ms[1..][k].thread, ms[1..][k].act) {
      assert Step(bound, os[k + 1], os[k + 1 + 1], ms[k + 1].thread, ms[k + 1].act);
    }
  }

  lemma RunPrepend<T>(bound: Option<nat>, o: Object<T>, os: seq<Object<T>>, m: Move<T>, ms: seq<Move<T>>)
    requires IsRun(bound, os, ms) && Step(bound, o, os[0], m.thread, m.act)
    ensures IsRun(bound, [o] + os, [m] + ms)
  {
    hide Step;
    var all, moves := [o] + os, [m] + ms;
    forall k | 0 <= k < |moves| ensures Step(bound, all[k], all[k + 1], moves[k].thread, moves[k].act) {
      if k > 0 {
        assert Step(bound, os[k - 1], os[k - 1 + 1], ms[k - 1].thread, ms[k - 1].act);
      }
    }
  }

  /** The values of all pushes that return true, and all values that pops return, in the order of their effects. */
  ghost function Accepted<T>(bound: Option<nat>, os: seq<Object<T>>, ms: seq<Move<T>>): seq<T>
    requires IsRun(bound, os, ms)
    decreases |ms|
  {
    if ms == [] then []
    else RunTail(bound, os, ms); AcceptedBy(os[0], os[1], ms[0].thread, ms[0].act) + Accepted(bound, os[1..], ms[1..])
  }

  ghost function Delivered<T>(bound: Option<nat>, os: seq<Object<T>>, ms: seq<Move<T>>): seq<T>
    requires IsRun(bound, os, ms)
    decreases |ms|
  {
    if ms == [] then []
    else RunTail(bound, os, ms); DeliveredBy(os[0], os[1], ms[0].thread, ms[0].act) + Delivered(bound, os[1..], ms[1..])
  }

  /** The reports of a run with one more step in front. */
  lemma Prepends<T>(bound: Option<nat>, o: Object<T>, o': Object<T>, os: seq<Object<T>>, m: Move<T>, ms: seq<Move<T>>)
    requires IsRun(bound, os, ms) && os[0] == o' && m.thread < |o.status| == |o'.status|
    requires IsRun(bound, [o] + os, [m] + ms)
    ensures Accepted(bound, [o] + os, [m] + ms)
         == AcceptedBy(o, o', m.thread, m.act) + Accepted(bound, os, ms)
    ensures Delivered(bound, [o] + os, [m] + ms)
         == DeliveredBy(o, o', m.thread, m.act) + Delivered(bound, os, ms)
  {
    var all, moves := [o] + os, [m] + ms;
    assert all[1..] == os && moves[1..] == ms && all[1] == os[0];
  }

  lemma Associates<T>(a: seq<T>, b: seq<T>, c: seq<T>)
    ensures (a + b) + c == a + (b + c)
  {
  }

  lemma Rotate<T>(a: seq<T>, b: seq<T>, c: seq<T>, x: seq<T>, y: seq<T>, z: seq<T>, w: seq<T>)
    requires a + b == x + y && y + c == z + w
    ensures a + (b + c) == (x + z) + w
  {
    assert a + (b + c) == (a + b) + c;
    assert (x + y) + c == x + (y + c);
    assert x + (z + w) == (x + z) + w;
  }

  /** First in, first out, by what the calls return: over any run the values returned are those accepted, in order. */
  lemma {:induction false} ReturnedInOrder<T>(bound: Option<nat>, os: seq<Object<T>>, ms: seq<Move<T>>)
    requires IsRun(bound, os, ms)
    ensures os[0].queue + Accepted(bound, os, ms) == Delivered(bound, os, ms) + os[|ms|].queue
    ensures bound.Some? && |os[0].queue| <= bound.value ==> |os[|ms|].queue| <= bound.value
    decreases |ms|
  {
    if ms != [] {
      RunTail(bound, os, ms);
      hide Step, IsRun, AcceptedBy, DeliveredBy;
      StepDelivers(bound, os[0], os[1], ms[0].thread, ms[0].act);
      ReturnedInOrder(bound, os[1..], ms[1..]);
      Rotate(os[0].queue, AcceptedBy(os[0], os[1], ms[0].thread, ms[0].act), Accepted(bound, os[1..], ms[1..]),
             DeliveredBy(os[0], os[1], ms[0].thread, ms[0].act), os[1].queue, Delivered(bound, os[1..], ms[1..]),
             os[|ms|].queue);
    }
  }

  // One call, from its start to its end.

  /** What thread `t`'s own steps push, and what they return. */
  ghost function AcceptedOf<T>(bound: Option<nat>, os: seq<Object<T>>, ms: seq<Move<T>>, t: nat): seq<T>
    requires IsRun(bound, os, ms)
    decreases |ms|
  {
    if ms == [] then []
    else RunTail(bound, os, ms);
         (if ms[0].thread == t then AcceptedBy(os[0], os[1], t, ms[0].act) else []) +
         AcceptedOf(bound, os[1..], ms[1..], t)
  }

  ghost function DeliveredOf<T>(bound: Option<nat>, os: seq<Object<T>>, ms: seq<Move<T>>, t: nat): seq<T>
    requires IsRun(bound, os, ms)
    decreases |ms|
  {
    if ms == [] then []
    else RunTail(bound, os, ms);
         (if ms[0].thread == t then DeliveredBy(os[0], os[1], t, ms[0].act) else []) +
         DeliveredOf(bound, os[1..], ms[1..], t)
  }

  ghost function Shares<T>(bound: Option<nat>, os: seq<Object<T>>, ms: seq<Move<T>>, n: nat, w: T -> int): seq<int>
    requires IsRun(bound, os, ms)
  {
    seq(n, t requires 0 <= t < n => Weight(DeliveredOf(bound, os, ms, t), w))
  }

  lemma ShareTail<T>(bound: Option<nat>, os: seq<Object<T>>, ms: seq<Move<T>>, t: nat, w: T -> int)
    requires IsRun(bound, os, ms) && ms != [] && IsRun(bound, os[1..], ms[1..])
    requires |os| == |ms| + 1 && ms[0].thread < |os[0].status| == |os[1].status|
    ensures Weight(DeliveredOf(bound, os, ms, t), w) == Weight(DeliveredOf(bound, os[1..], ms[1..], t), w)
         + (if ms[0].thread == t then Weight(DeliveredBy(os[0], os[1], ms[0].thread, ms[0].act), w) else 0)
  {
    hide IsRun, DeliveredBy;
    var d := DeliveredBy(os[0], os[1], ms[0].thread, ms[0].act);
    WeightConcat(if ms[0].thread == t then d else [], DeliveredOf(bound, os[1..], ms[1..], t), w);
  }

  lemma SharesTail<T>(bound: Option<nat>, os: seq<Object<T>>, ms: seq<Move<T>>, n: nat, w: T -> int)
    requires IsRun(bound, os, ms) && ms != [] && IsRun(bound, os[1..], ms[1..])
    requires |os| == |ms| + 1 && ms[0].thread < |os[0].status| == |os[1].status| == n
    ensures var u, rest := ms[0].thread, Shares(bound, os[1..], ms[1..], n, w);
      Shares(bound, os, ms, n, w)
      == rest[u := rest[u] + Weight(DeliveredBy(os[0], os[1], u, ms[0].act), w)]
  {
    hide IsRun, DeliveredBy, DeliveredOf, Weight;
    forall t: nat | t < n {
      ShareTail(bound, os, ms, t, w);
    }
  }

  /** The total of the shares with one more step in front. */
  lemma SharesStep<T>(bound: Option<nat>, os: seq<Object<T>>, ms: seq<Move<T>>, n: nat, w: T -> int)
    requires IsRun(bound, os, ms) && ms != [] && IsRun(bound, os[1..], ms[1..])
    requires |os| == |ms| + 1 && ms[0].thread < |os[0].status| == |os[1].status| == n
    ensures Sum(Shares(bound, os, ms, n, w))
         == Sum(Shares(bound, os[1..], ms[1..], n, w))
            + Weight(DeliveredBy(os[0], os[1], ms[0].thread, ms[0].act), w)
  {
    hide IsRun, DeliveredBy, DeliveredOf, Weight, Sum;
    var u, rest := ms[0].thread, Shares(bound, os[1..], ms[1..], n, w);
    SharesTail(bound, os, ms, n, w);
    SumUpdate(rest, u, rest[u] + Weight(DeliveredBy(os[0], os[1], u, ms[0].act), w));
  }

  /** By any weighing of items, what the threads' pops have returned adds up to all that was returned. */
  lemma {:induction false} SharesAddUp<T>(bound: Option<nat>, os: seq<Object<T>>, ms: seq<Move<T>>, n: nat, w: T -> int)
    requires IsRun(bound, os, ms) && |os[0].status| == n
    ensures Sum(Shares(bound, os, ms, n, w)) == Weight(Delivered(bound, os, ms), w)
    decreases |ms|
  {
    if ms == [] {
      SumZero(Shares(bound, os, ms, n, w));
    } else {
      RunTail(bound, os, ms);
      StepLength(bound, os[0], os[1], ms[0]);
      SharesStep(bound, os, ms, n, w);
      hide Step, IsRun, DeliveredBy, DeliveredOf, Sum, Shares, Weight;
      SharesAddUp(bound, os[1..], ms[1..], n, w);
      WeightConcat(DeliveredBy(os[0], os[1], ms[0].thread, ms[0].act), Delivered(bound, os[1..], ms[1..]), w);
    }
  }

  predicate IsSettled<T>(st: Status<T>) { st.Decided? || st.Returned? }

  ghost function PushedIf<T>(op: Operation<T>, st: Status<T>): seq<T> {
    if (op.Push? || op.TryPush?) && IsSettled(st) && st.result == PushResult(true) then [op.value] else []
  }

  ghost function PoppedIf<T>(st: Status<T>): seq<T> {
    if IsSettled(st) && st.result.PopResult? && st.result.out.Some? then [st.result.out.value] else []
  }

  /** The result is one that the operation can have. */
  ghost predicate Fits<T>(op: Operation<T>, r: Result<T>) {
    match op
    case Push(_) => r.PushResult?
    case TryPush(_) => r.PushResult?
    case WaitPop => r.PopResult?
    case TryPop => r.PopResult?
    case Close => r.CloseResult?
  }

  ghost predicate NoCallBy<T>(ms: seq<Move<T>>, t: nat) {
    forall k :: 0 <= k < |ms| && ms[k].thread == t ==> !ms[k].act.Calls?
  }

  /** A step of thread `t` that is no call keeps a settled call as it is and pushes and pops nothing for it. */
  lemma SettledStep<T>(bound: Option<nat>, o: Object<T>, o': Object<T>, m: Move<T>, t: nat)
    requires Step(bound, o, o', m.thread, m.act) && t < |o.status| && IsSettled(o.status[t])
    requires m.thread == t ==> !m.act.Calls?
    ensures IsSettled(o'.status[t]) && o'.status[t].result == o.status[t].result
    ensures o.closed ==> o'.closed
    ensures m.thread == t ==> AcceptedBy(o, o', t, m.act) == [] && DeliveredBy(o, o', t, m.act) == []
  {
  }

  lemma {:induction false} SettledRun<T>(bound: Option<nat>, os: seq<Object<T>>, ms: seq<Move<T>>, t: nat)
    requires IsRun(bound, os, ms) && t < |os[0].status| && IsSettled(os[0].status[t]) && NoCallBy(ms, t)
    ensures |os[|ms|].status| == |os[0].status| && IsSettled(os[|ms|].status[t])
    ensures os[|ms|].status[t].result == os[0].status[t].result && (os[0].closed ==> os[|ms|].closed)
    ensures AcceptedOf(bound, os, ms, t) == DeliveredOf(bound, os, ms, t) == []
    decreases |ms|
  {
    if ms != [] {
      RunTail(bound, os, ms);
      SettledStep(bound, os[0], os[1], ms[0], t);
      hide Step, AcceptedBy, DeliveredBy, IsSettled;
      StepLength(bound, os[0], os[1], ms[0]);
      SettledRun(bound, os[1..], ms[1..], t);
    }
  }

  lemma StepLength<T>(bound: Option<nat>, o: Object<T>, o': Object<T>, m: Move<T>)
    requires Step(bound, o, o', m.thread, m.act)
    ensures |o'.status| == |o.status| && (o.closed ==> o'.closed) && m.thread < |o.status|
  {
  }

  /** Where a call stands, and that its own steps have pushed and popped exactly what it reports. */
  ghost predicate Outcome<T>(op: Operation<T>, st: Status<T>, accepted: seq<T>, delivered: seq<T>, closed: bool) {
    && (st == Waiting(op) || (IsSettled(st) && Fits(op, st.result)))
    && accepted == PushedIf(op, st) && delivered == PoppedIf(st)
    && (op.Push? && IsSettled(st) && st.result == PushResult(false) ==> closed)
  }

  /** A test leaves the call waiting with no effect, or settles it with the effect its result says. */
  lemma TestSettles<T>(bound: Option<nat>, o: Object<T>, o': Object<T>, m: Move<T>, op: Operation<T>)
    requires Step(bound, o, o', m.thread, m.act)
    requires m.act == Calls(op) || (m.act.TestsAgain? && o.status[m.thread] == Waiting(op))
    ensures Outcome(op, o'.status[m.thread], AcceptedBy(o, o', m.thread, m.act),
                    DeliveredBy(o, o', m.thread, m.act), o'.closed)
  {
  }

  lemma {:induction false} WaitingRun<T>(bound: Option<nat>, os: seq<Object<T>>, ms: seq<Move<T>>,
      t: nat, op: Operation<T>)
    requires IsRun(bound, os, ms) && t < |os[0].status| && os[0].status[t] == Waiting(op) && NoCallBy(ms, t)
    ensures |os[|ms|].status| == |os[0].status|
    ensures Outcome(op, os[|ms|].status[t], AcceptedOf(bound, os, ms, t), DeliveredOf(bound, os, ms, t),
                    os[|ms|].closed)
    decreases |ms|
  {
    if ms != [] {
      RunTail(bound, os, ms);
      StepLength(bound, os[0], os[1], ms[0]);
      assert |os| == |ms| + 1;
      if ms[0].thread == t && ms[0].act.TestsAgain? {
        TestSettles(bound, os[0], os[1], ms[0], op);
        hide Step, AcceptedBy, DeliveredBy, Outcome, IsRun, AcceptedOf, DeliveredOf;
        AfterTest(bound, os, ms, t, op);
      } else {
        StillWaiting(bound, os[0], os[1], ms[0], t, op);
        OwnTail(bound, os, ms, t);
        hide Step, AcceptedBy, DeliveredBy, Outcome, IsRun, AcceptedOf, DeliveredOf;
        WaitingRun(bound, os[1..], ms[1..], t, op);
      }
    }
  }

  lemma OwnTail<T>(bound: Option<nat>, os: seq<Object<T>>, ms: seq<Move<T>>, t: nat)
    requires IsRun(bound, os, ms) && ms != [] && IsRun(bound, os[1..], ms[1..])
    requires |os| == |ms| + 1 && ms[0].thread < |os[0].status| == |os[1].status|
    ensures AcceptedOf(bound, os, ms, t)
         == (if ms[0].thread == t then AcceptedBy(os[0], os[1], t, ms[0].act) else [])
            + AcceptedOf(bound, os[1..], ms[1..], t)
    ensures DeliveredOf(bound, os, ms, t)
         == (if ms[0].thread == t then DeliveredBy(os[0], os[1], t, ms[0].act) else [])
            + DeliveredOf(bound, os[1..], ms[1..], t)
  {
    hide Step, IsRun, AcceptedBy, DeliveredBy;
  }

  lemma StillWaiting<T>(bound: Option<nat>, o: Object<T>, o': Object<T>, m: Move<T>, t: nat, op: Operation<T>)
    requires Step(bound, o, o', m.thread, m.act) && t < |o.status| && o.status[t] == Waiting(op)
    requires m.thread == t ==> !m.act.Calls? && !m.act.TestsAgain?
    ensures o'.status[t] == Waiting(op)
    ensures m.thread == t ==> AcceptedBy(o, o', t, m.act) == [] && DeliveredBy(o, o', t, m.act) == []
  {
  }

  /** The rest of a run after a test of thread `t`'s call. */
  lemma {:induction false} AfterTest<T>(bound: Option<nat>, os: seq<Object<T>>, ms: seq<Move<T>>,
      t: nat, op: Operation<T>)
    requires IsRun(bound, os, ms) && ms != [] && ms[0].thread == t && t < |os[0].status| == |os[1].status|
    requires NoCallBy(ms[1..], t)
    requires Outcome(op, os[1].status[t], AcceptedBy(os[0], os[1], t, ms[0].act),
                     DeliveredBy(os[0], os[1], t, ms[0].act), os[1].closed)
    ensures |os[|ms|].status| == |os[0].status|
    ensures Outcome(op, os[|ms|].status[t], AcceptedOf(bound, os, ms, t), DeliveredOf(bound, os, ms, t),
                    os[|ms|].closed)
    decreases |ms|, 0
  {
    RunTail(bound, os, ms);
    OwnTail(bound, os, ms, t);
    assert |os| == |ms| + 1;
    hide Step, IsRun, AcceptedBy, DeliveredBy, AcceptedOf, DeliveredOf, Fits;
    if IsSettled(os[1].status[t]) {
      SettledRun(bound, os[1..], ms[1..], t);
    } else {
      WaitingRun(bound, os[1..], ms[1..], t, op);
    }
  }

  /**
   One call: over any run from its start on, while its thread calls nothing else, it waits without
   effect or has settled; a push has pushed its value exactly if it returns true, once; a pop has taken
   exactly the value it returns; and a blocking push returns false only on a closed queue.
   */
  lemma {:induction false} CallOutcome<T>(bound: Option<nat>, os: seq<Object<T>>, ms: seq<Move<T>>, op: Operation<T>)
    requires IsRun(bound, os, ms) && ms != [] && ms[0].act == Calls(op) && NoCallBy(ms[1..], ms[0].thread)
    ensures ms[0].thread < |os[0].status| == |os[|ms|].status|
    ensures var t := ms[0].thread;
      Outcome(op, os[|ms|].status[t], AcceptedOf(bound, os, ms, t), DeliveredOf(bound, os, ms, t), os[|ms|].closed)
  {
    RunTail(bound, os, ms);
    StepLength(bound, os[0], os[1], ms[0]);
    TestSettles(bound, os[0], os[1], ms[0], op);
    AfterTest(bound, os, ms, ms[0].thread, op);
  }
}
