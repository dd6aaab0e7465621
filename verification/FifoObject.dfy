/**
 The specification the atomic queue is compared with: a bounded FIFO whose operations each take
 effect at one instant between their call and their return.
 */
module FifoObject {
  import opened AtomicQueue
  import opened Wrappers

  datatype Result<+T> = PushResult(ok: bool) | PopResult(out: Option<T>) | CloseResult(first: bool)

  /**
   Where a thread is in its current operation. `Decided` operations have taken effect on the value with
   this number, counted from the first that ever entered.
   */
  datatype Status<+T> =
    | Resting
    | Called(op: Operation<T>)
    | Admitted(value: T)
    | Decided(result: Result<T>, number: nat)
    | Returned(result: Result<T>)

  /** `left` values have been inside before those in `queue`. */
  datatype Object<+T> = Object(queue: seq<T>, left: nat, closed: bool, status: seq<Status<T>>)

  ghost predicate SetsStatus<T>(o: Object<T>, o': Object<T>, t: nat, st: Status<T>)
    requires t < |o.status|
  {
    o' == o.(status := o.status[t := st])
  }

  /** The pop of value `number` has taken effect and has not returned. */
  ghost predicate PopUnderWay(o: Object, number: int) {
    exists u :: 0 <= u < |o.status| && o.status[u].Decided? && o.status[u].result.PopResult? &&
                o.status[u].number == number
  }

  /** The push of value `number` has taken effect and has not returned. */
  ghost predicate PushUnderWay(o: Object, number: int) {
    exists u :: 0 <= u < |o.status| && o.status[u].Decided? && o.status[u].result.PushResult? &&
                o.status[u].number == number
  }

  ghost predicate CallStep<T(!new)>(o: Object<T>, o': Object<T>, t: nat)
    requires t < |o.status|
  {
    (o.status[t].Resting? || o.status[t].Returned?) && exists op :: SetsStatus(o, o', t, Called(op))
  }

  /** A push passes the closed check only while the queue is open, and fails once it is closed. */
  ghost predicate AdmitStep<T>(o: Object<T>, o': Object<T>, t: nat)
    requires t < |o.status|
  {
    o.status[t].Called? && o.status[t].op.Push? &&
    SetsStatus(o, o', t, if o.closed then Returned(PushResult(false)) else Admitted(o.status[t].op.value))
  }

  /**
   A push enters while there is room. It may fail when there is none, or while the pop of the value one
   lap before its own is under way.
   */
  ghost predicate PushStep<T>(cap: nat, o: Object<T>, o': Object<T>, t: nat)
    requires t < |o.status|
  {
    var number := o.left + |o.queue|;
    o.status[t].Admitted? &&
    ((|o.queue| < cap &&
      SetsStatus(o.(queue := o.queue + [o.status[t].value]), o', t, Decided(PushResult(true), number))) ||
     ((|o.queue| == cap || PopUnderWay(o, number - cap)) && SetsStatus(o, o', t, Returned(PushResult(false)))))
  }

  /** A pop takes the oldest value. It may fail when there is none, or while that value's own push is under way. */
  ghost predicate PopStep<T>(o: Object<T>, o': Object<T>, t: nat)
    requires t < |o.status|
  {
    o.status[t] == Called(Pop) &&
    ((o.queue != [] &&
      SetsStatus(o.(queue := o.queue[1..], left := o.left + 1), o', t,
                 Decided(PopResult(Some(o.queue[0])), o.left))) ||
     ((o.queue == [] || PushUnderWay(o, o.left)) && SetsStatus(o, o', t, Returned(PopResult(None)))))
  }

  ghost predicate CloseStep<T>(o: Object<T>, o': Object<T>, t: nat)
    requires t < |o.status|
  {
    o.status[t] == Called(Close) && SetsStatus(o.(closed := true), o', t, Returned(CloseResult(!o.closed)))
  }

  ghost predicate ReturnStep<T>(o: Object<T>, o': Object<T>, t: nat)
    requires t < |o.status|
  {
    o.status[t].Decided? && SetsStatus(o, o', t, Returned(o.status[t].result))
  }

  /** Thread `t` makes one step of the specification, or none that shows. */
  ghost predicate Step<T(!new)>(cap: nat, o: Object<T>, o': Object<T>, t: nat) {
    t < |o.status| &&
    (o' == o || CallStep(o, o', t) || AdmitStep(o, o', t) || PushStep(cap, o, o', t) ||
     PopStep(o, o', t) || CloseStep(o, o', t) || ReturnStep(o, o', t))
  }

  /** `os` is a run of the specification in which `es[k].thread` makes the k-th step. */
  ghost predicate IsRun<T(!new)>(cap: nat, os: seq<Object<T>>, es: seq<Event<T>>) {
    |os| == |es| + 1 &&
    forall k :: 0 <= k < |es| ==> Step(cap, os[k], os[k + 1], es[k].thread)
  }

  lemma {:induction false} RunPrepend<T(!new)>(cap: nat, o: Object<T>, os: seq<Object<T>>, es: seq<Event<T>>)
    requires es != [] && IsRun(cap, os, es[1..]) && Step(cap, o, os[0], es[0].thread)
    ensures IsRun(cap, [o] + os, es)
  {
    forall k | 0 <= k < |es| ensures Step(cap, ([o] + os)[k], ([o] + os)[k + 1], es[k].thread) {
      if k > 0 {
        assert Step(cap, os[k - 1], os[k], es[1..][k - 1].thread);
      }
    }
  }

  /** The value that enters, or leaves, the queue between two states of a run. */
  ghost function Entering<T>(o: Object<T>, o': Object<T>): seq<T> {
    if |o'.queue| > |o.queue| then [o'.queue[|o'.queue| - 1]] else []
  }

  ghost function Leaving<T>(o: Object<T>, o': Object<T>): seq<T> {
    if |o'.queue| < |o.queue| then [o.queue[0]] else []
  }

  ghost function Entered<T>(os: seq<Object<T>>): seq<T> {
    if |os| < 2 then [] else Entering(os[0], os[1]) + Entered(os[1..])
  }

  ghost function Left<T>(os: seq<Object<T>>): seq<T> {
    if |os| < 2 then [] else Leaving(os[0], os[1]) + Left(os[1..])
  }

  lemma StepOrder<T(!new)>(cap: nat, o: Object<T>, o': Object<T>, t: nat)
    requires Step(cap, o, o', t) && |o.queue| <= cap
    ensures |o'.queue| <= cap && o.queue + Entering(o, o') == Leaving(o, o') + o'.queue
    ensures Leaving(o, o') != [] ==> o'.status[t] == Decided(PopResult(Some(Leaving(o, o')[0])), o.left)
    ensures o'.left == o.left + |Leaving(o, o')|
    ensures Entering(o, o') != [] ==> o.status[t] == Admitted(Entering(o, o')[0]) &&
                                      o'.status[t] == Decided(PushResult(true), o.left + |o.queue|)
  {
  }

  lemma {:induction false} RunTail<T(!new)>(cap: nat, os: seq<Object<T>>, es: seq<Event<T>>)
    requires IsRun(cap, os, es) && es != []
    ensures |os| >= 2 && Step(cap, os[0], os[1], es[0].thread) && IsRun(cap, os[1..], es[1..])
  {
    hide Step;
    assert Step(cap, os[0], os[0 + 1], es[0].thread);
    forall k | 0 <= k < |es| - 1 ensures Step(cap, os[1..][k], os[1..][k + 1], es[1..][k].thread) {
      assert Step(cap, os[k + 1], os[k + 1 + 1], es[k + 1].thread);
    }
  }

  /**
   What the specification means: over any run the values leave in the order they entered, each at
   most once, and never more than `cap` are inside.
   */
  lemma {:induction false} FirstInFirstOut<T(!new)>(cap: nat, os: seq<Object<T>>, es: seq<Event<T>>)
    requires IsRun(cap, os, es) && |os[0].queue| <= cap
    ensures os[0].queue + Entered(os) == Left(os) + os[|es|].queue
    ensures |os[|es|].queue| <= cap
    decreases |es|
  {
    assert |os| == |es| + 1;
    if es != [] {
      hide Step, IsRun, Entering, Leaving;
      RunTail(cap, os, es);
      StepOrder(cap, os[0], os[1], es[0].thread);
      FirstInFirstOut(cap, os[1..], es[1..]);
      Rotate(os[0].queue, Entering(os[0], os[1]), Entered(os[1..]),
             Leaving(os[0], os[1]), os[1].queue, Left(os[1..]), os[|es|].queue);
    }
  }

  lemma Rotate<T>(a: seq<T>, b: seq<T>, c: seq<T>, x: seq<T>, y: seq<T>, z: seq<T>, w: seq<T>)
    requires a + b == x + y && y + c == z + w
    ensures a + (b + c) == (x + z) + w
  {
    assert a + (b + c) == (a + b) + c;
    assert (x + y) + c == x + (y + c);
    assert x + (z + w) == (x + z) + w;
  }
}
