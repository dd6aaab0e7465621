/**
 The calls of the single-producer single-consumer queue from start to end: each returns after a few
 accesses of its own thread, whatever the other thread does, and what it returns.
 */
module SpscWaitFree {
  import opened Counting
  import opened Spsc
  import opened Wrappers

  /** The accesses the producer's call may still make. */
  function ProducerLeft<T>(pc: ProducerPc<T>): nat {
    match pc
    case ProducerIdle(_) => 0
    case PushTest(_) => 4
    case PushReload(_) => 3
    case PushConstruct(_) => 2
    case PushStore(_) => 1
  }

  function ConsumerLeft<T>(pc: ConsumerPc<T>): nat {
    match pc
    case ConsumerIdle(_) => 0
    case PopTest => 5
    case PopReload => 4
    case PopTake => 3
    case PopDestroy(_) => 2
    case PopStore(_) => 1
  }

  function ProducerSteps(es: seq<Event>): nat {
    if es == [] then 0 else One(es[0].ProducerStep?) + ProducerSteps(es[1..])
  }

  function ConsumerSteps(es: seq<Event>): nat {
    if es == [] then 0 else One(es[0].ConsumerStep?) + ConsumerSteps(es[1..])
  }

  /** An access brings its own call nearer to its end and does not touch the other thread's. */
  lemma StepsAreSpent<T>(s: State<T>, e: Event<T>)
    requires Inv(s) && Enabled(s, e)
    ensures e.ProducerStep? ==> ProducerLeft(Next(s, e).producer) < ProducerLeft(s.producer)
    ensures e.ConsumerStep? ==> ConsumerLeft(Next(s, e).consumer) < ConsumerLeft(s.consumer)
    ensures !e.ProducerStep? && !e.CallPush? ==> Next(s, e).producer == s.producer
    ensures !e.ConsumerStep? && !e.CallPop? ==> Next(s, e).consumer == s.consumer
  {
    assert SlotHolds(s, s.head);
  }

  /** No new push is called. */
  ghost predicate NoPushCalled(es: seq<Event>) {
    forall i :: 0 <= i < |es| ==> !es[i].CallPush?
  }

  ghost predicate NoPopCalled(es: seq<Event>) {
    forall i :: 0 <= i < |es| ==> !es[i].CallPop?
  }

  lemma {:induction false} PushStepsPaid<T>(s: State<T>, es: seq<Event<T>>)
    requires Inv(s) && ValidRun(s, es) && NoPushCalled(es)
    ensures ProducerSteps(es) + ProducerLeft(Exec(s, es).producer) <= ProducerLeft(s.producer)
    decreases |es|
  {
    hide Next, Enabled, Inv;
    if es != [] {
      StepsAreSpent(s, es[0]);
      NextInv(s, es[0]);
      PushStepsPaid(Next(s, es[0]), es[1..]);
    }
  }

  lemma {:induction false} PopStepsPaid<T>(s: State<T>, es: seq<Event<T>>)
    requires Inv(s) && ValidRun(s, es) && NoPopCalled(es)
    ensures ConsumerSteps(es) + ConsumerLeft(Exec(s, es).consumer) <= ConsumerLeft(s.consumer)
    decreases |es|
  {
    hide Next, Enabled, Inv;
    if es != [] {
      StepsAreSpent(s, es[0]);
      NextInv(s, es[0]);
      PopStepsPaid(Next(s, es[0]), es[1..]);
    }
  }

  /**
   Wait-freedom: from any reachable state, whatever the two threads do next, an unfinished push makes at
   most four more accesses before it returns and an unfinished pop at most five, and until then the
   next one can always be made.
   */
  lemma {:induction false} WaitFree<T>(cap: nat, before: seq<Event<T>>, es: seq<Event<T>>)
    requires cap > 0 && ValidRun(Init(cap), before) && ValidRun(Exec(Init(cap), before), es)
    ensures var s := Exec(Exec(Init(cap), before), es);
      && (!s.producer.ProducerIdle? ==> Enabled(s, ProducerStep))
      && (!s.consumer.ConsumerIdle? ==> Enabled(s, ConsumerStep))
      && (NoPushCalled(es) && ProducerSteps(es) >= 4 ==> s.producer.ProducerIdle?)
      && (NoPopCalled(es) && ConsumerSteps(es) >= 5 ==> s.consumer.ConsumerIdle?)
  {
    InitInv<T>(cap);
    RunKeepsInv(Init(cap), before);
    var s := Exec(Init(cap), before);
    RunKeepsInv(s, es);
    if NoPushCalled(es) { PushStepsPaid(s, es); }
    if NoPopCalled(es) { PopStepsPaid(s, es); }
  }

  // What a call returns.

  /** The event is a push that reloads `head_` while the queue is exactly full. */
  ghost predicate FindsFull<T>(s: State<T>, e: Event<T>) {
    e.ProducerStep? && s.producer.PushReload? && s.tail == s.head + |s.storage|
  }

  /** The event is a pop that reloads `tail_` while the queue is empty. */
  ghost predicate FindsEmpty<T>(s: State<T>, e: Event<T>) {
    e.ConsumerStep? && s.consumer.PopReload? && s.tail == s.head
  }

  ghost predicate FullFound<T>(s: State<T>, es: seq<Event<T>>)
    requires ValidRun(s, es)
    decreases |es|
  {
    es != [] && (FindsFull(s, es[0]) || FullFound(Next(s, es[0]), es[1..]))
  }

  ghost predicate EmptyFound<T>(s: State<T>, es: seq<Event<T>>)
    requires ValidRun(s, es)
    decreases |es|
  {
    es != [] && (FindsEmpty(s, es[0]) || EmptyFound(Next(s, es[0]), es[1..]))
  }

  /** Where a push of `v` is that began when `was` had been produced, and whether it has found the queue full. */
  ghost predicate PushStands<T>(s: State<T>, was: seq<T>, v: T, full: bool) {
    match s.producer
    case ProducerIdle(ok) => ok == !full && s.produced == (if ok then was + [v] else was)
    case PushTest(u) => u == v && s.produced == was && !full
    case PushReload(u) => u == v && s.produced == was && !full
    case PushConstruct(u) => u == v && s.produced == was && !full
    case PushStore(u) => u == v && s.produced == was && !full
  }

  /** Where a pop is that began when `was` had been consumed, and whether it has found the queue empty. */
  ghost predicate PopStands<T>(s: State<T>, was: seq<T>, empty: bool) {
    match s.consumer
    case ConsumerIdle(result) =>
      empty == result.None? && s.consumed == was + (if result.Some? then [result.value] else [])
    case _ => s.consumed == was && !empty
  }

  lemma PushStandsStep<T>(s: State<T>, e: Event<T>, was: seq<T>, v: T, full: bool)
    requires Inv(s) && Enabled(s, e) && !e.CallPush? && PushStands(s, was, v, full)
    ensures PushStands(Next(s, e), was, v, full || FindsFull(s, e))
  {
    if e.ConsumerStep? { assert SlotHolds(s, s.head); }
  }

  lemma PopStandsStep<T>(s: State<T>, e: Event<T>, was: seq<T>, empty: bool)
    requires Inv(s) && Enabled(s, e) && !e.CallPop? && PopStands(s, was, empty)
    ensures PopStands(Next(s, e), was, empty || FindsEmpty(s, e))
  {
    assert SlotHolds(s, s.head);
  }

  lemma {:induction false} PushStandsRun<T>(s: State<T>, es: seq<Event<T>>, was: seq<T>, v: T, full: bool)
    requires Inv(s) && ValidRun(s, es) && NoPushCalled(es) && PushStands(s, was, v, full)
    ensures PushStands(Exec(s, es), was, v, full || FullFound(s, es))
    decreases |es|
  {
    hide Next, Enabled, Inv, PushStands, FindsFull;
    if es != [] {
      PushStandsStep(s, es[0], was, v, full);
      NextInv(s, es[0]);
      PushStandsRun(Next(s, es[0]), es[1..], was, v, full || FindsFull(s, es[0]));
    }
  }

  lemma {:induction false} PopStandsRun<T>(s: State<T>, es: seq<Event<T>>, was: seq<T>, empty: bool)
    requires Inv(s) && ValidRun(s, es) && NoPopCalled(es) && PopStands(s, was, empty)
    ensures PopStands(Exec(s, es), was, empty || EmptyFound(s, es))
    decreases |es|
  {
    hide Next, Enabled, Inv, PopStands, FindsEmpty;
    if es != [] {
      PopStandsStep(s, es[0], was, empty);
      NextInv(s, es[0]);
      PopStandsRun(Next(s, es[0]), es[1..], was, empty || FindsEmpty(s, es[0]));
    }
  }

  /**
   A push, over any run from its call on: once its thread has made four accesses it has returned; it
   returns false if and only if the queue was exactly full when it reloaded `head_`; and it has
   appended its value exactly if it has returned true.
   */
  lemma {:induction false} PushReturns<T>(cap: nat, before: seq<Event<T>>, v: T, es: seq<Event<T>>)
    requires cap > 0 && ValidRun(Init(cap), before) && Enabled(Exec(Init(cap), before), CallPush(v))
    requires ValidRun(Next(Exec(Init(cap), before), CallPush(v)), es) && NoPushCalled(es)
    ensures var s := Exec(Init(cap), before);
      var s1 := Next(s, CallPush(v));
      var s' := Exec(s1, es);
      && (ProducerSteps(es) >= 4 ==> s'.producer.ProducerIdle?)
      && (s'.producer == ProducerIdle(false) <==> FullFound(s1, es))
      && s'.produced == (if s'.producer == ProducerIdle(true) then s.produced + [v] else s.produced)
  {
    InitInv<T>(cap);
    RunKeepsInv(Init(cap), before);
    var s := Exec(Init(cap), before);
    NextInv(s, CallPush(v));
    var s1 := Next(s, CallPush(v));
    hide Inv;
    PushStepsPaid(s1, es);
    PushStandsRun(s1, es, s.produced, v, false);
  }

  /**
   A pop, over any run from its call on: once its thread has made five accesses it has returned; it
   returns nothing if and only if the queue was empty when it reloaded `tail_`; and it has removed the
   oldest value exactly if it returns it.
   */
  lemma {:induction false} PopReturns<T>(cap: nat, before: seq<Event<T>>, es: seq<Event<T>>)
    requires cap > 0 && ValidRun(Init<T>(cap), before) && Enabled(Exec(Init<T>(cap), before), CallPop)
    requires ValidRun(Next(Exec(Init<T>(cap), before), CallPop), es) && NoPopCalled(es)
    ensures var s := Exec(Init(cap), before);
      var s1 := Next(s, CallPop);
      var s' := Exec(s1, es);
      && (ConsumerSteps(es) >= 5 ==> s'.consumer.ConsumerIdle?)
      && (s'.consumer == ConsumerIdle(None) <==> EmptyFound(s1, es))
      && (s'.consumer.ConsumerIdle? && s'.consumer.result.Some? ==>
            |s.consumed| < |s'.produced| && s'.consumer.result == Some(s'.produced[|s.consumed|])
            && s'.consumed == s.consumed + [s'.produced[|s.consumed|]])
      && (!(s'.consumer.ConsumerIdle? && s'.consumer.result.Some?) ==> s'.consumed == s.consumed)
  {
    InitInv<T>(cap);
    RunKeepsInv(Init<T>(cap), before);
    var s := Exec(Init<T>(cap), before);
    NextInv(s, CallPop);
    var s1 := Next(s, CallPop);
    RunKeepsInv(s1, es);
    var s' := Exec(s1, es);
    assert s'.consumed == s'.produced[..s'.head];
    hide Inv;
    PopStepsPaid(s1, es);
    PopStandsRun(s1, es, s.consumed, false);
  }
}
