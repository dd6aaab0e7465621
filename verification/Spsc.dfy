/**
 The single-producer single-consumer queue with cached indices as a step machine over unbounded
 counters. Each step is one shared access or a test on the thread's own data.
 */
module Spsc {
  import opened Tickets
  import opened Wrappers

  datatype Place<+T> = Empty | Live(value: T)

  datatype ProducerPc<+T> =
    | ProducerIdle(ok: bool)
    | PushTest(value: T)
    | PushReload(value: T)
    | PushConstruct(value: T)
    | PushStore(value: T)

  datatype ConsumerPc<+T> =
    | ConsumerIdle(result: Option<T>)
    | PopTest
    | PopReload
    | PopTake
    | PopDestroy(out: T)
    | PopStore(out: T)

  /** `produced` and `consumed` record what the two counters have published. `fault` is undefined behaviour. */
  datatype State<+T> = State(
    head: nat,
    tail: nat,
    headCache: nat,
    tailCache: nat,
    storage: seq<Place<T>>,
    producer: ProducerPc<T>,
    consumer: ConsumerPc<T>,
    produced: seq<T>,
    consumed: seq<T>,
    fault: bool)

  datatype Event<+T> = CallPush(value: T) | CallPop | ProducerStep | ConsumerStep

  function Init<T>(cap: nat): State<T> {
    State(0, 0, 0, 0, seq(cap, i => Empty), ProducerIdle(true), ConsumerIdle(None), [], [], false)
  }

  predicate Enabled(s: State, e: Event) {
    |s.storage| > 0 &&
    match e
    case CallPush(_) => s.producer.ProducerIdle?
    case CallPop => s.consumer.ConsumerIdle?
    case ProducerStep => !s.producer.ProducerIdle?
    case ConsumerStep => !s.consumer.ConsumerIdle?
  }

  /** The cached full test: would the next tail be more than a lap ahead of the cached head? */
  predicate LooksFull(s: State) {
    s.tail + 1 - s.headCache > |s.storage|
  }

  function ProducerNext<T>(s: State<T>): State<T>
    requires |s.storage| > 0
  {
    match s.producer
    case PushTest(v) => s.(producer := if LooksFull(s) then PushReload(v) else PushConstruct(v))
    case PushReload(v) =>
      var s' := s.(headCache := s.head);
      s'.(producer := if LooksFull(s') then ProducerIdle(false) else PushConstruct(v))
    case PushConstruct(v) =>
      var i := Slot(s.tail, |s.storage|);
      s.(storage := s.storage[i := Live(v)], producer := PushStore(v), fault := s.fault || s.storage[i].Live?)
    case PushStore(v) => s.(tail := s.tail + 1, produced := s.produced + [v], producer := ProducerIdle(true))
    case ProducerIdle(_) => s
  }

  function ConsumerNext<T>(s: State<T>): State<T>
    requires |s.storage| > 0
  {
    var i := Slot(s.head, |s.storage|);
    match s.consumer
    case PopTest => s.(consumer := if s.tailCache == s.head then PopReload else PopTake)
    case PopReload =>
      s.(tailCache := s.tail, consumer := if s.tail == s.head then ConsumerIdle(None) else PopTake)
    case PopTake =>
      (match s.storage[i]
       case Live(v) => s.(consumer := PopDestroy(v))
       case Empty => s.(fault := true))
    case PopDestroy(v) =>
      s.(storage := s.storage[i := Empty], consumer := PopStore(v), fault := s.fault || s.storage[i].Empty?)
    case PopStore(v) =>
      s.(head := s.head + 1, consumed := s.consumed + [v], consumer := ConsumerIdle(Some(v)))
    case ConsumerIdle(_) => s
  }

  function Next<T>(s: State<T>, e: Event<T>): State<T>
    requires Enabled(s, e)
  {
    match e
    case CallPush(v) => s.(producer := PushTest(v))
    case CallPop => s.(consumer := PopTest)
    case ProducerStep => ProducerNext(s)
    case ConsumerStep => ConsumerNext(s)
  }

  predicate ValidRun<T>(s: State<T>, es: seq<Event<T>>)
    decreases |es|
  {
    es == [] || (Enabled(s, es[0]) && ValidRun(Next(s, es[0]), es[1..]))
  }

  function Exec<T>(s: State<T>, es: seq<Event<T>>): State<T>
    requires ValidRun(s, es)
    decreases |es|
  {
    if es == [] then s else Exec(Next(s, es[0]), es[1..])
  }

  // The invariant.

  ghost predicate Ordered(s: State) {
    |s.storage| > 0 &&
    s.headCache <= s.head <= s.tailCache <= s.tail <= s.headCache + |s.storage| &&
    |s.produced| == s.tail && s.consumed == s.produced[..s.head] && !s.fault
  }

  /** A thread past its test has room, or a value, whatever the other thread does. */
  ghost predicate Claims(s: State)
    requires Ordered(s)
  {
    && (s.producer.PushConstruct? || s.producer.PushStore? ==> s.tail < s.headCache + |s.storage|)
    && (s.consumer.PopTake? || s.consumer.PopDestroy? || s.consumer.PopStore? ==> s.head < s.tailCache)
    && (s.consumer.PopDestroy? || s.consumer.PopStore? ==> s.consumer.out == s.produced[s.head])
  }

  /** What the slot of ticket `k` holds. */
  ghost predicate SlotHolds(s: State, k: nat)
    requires Ordered(s) && s.head <= k < s.head + |s.storage|
  {
    var c := s.storage[Slot(k, |s.storage|)];
    if k == s.head && s.consumer.PopStore? then c.Empty?
    else if k < s.tail then c == Live(s.produced[k])
    else if k == s.tail && s.producer.PushStore? then c == Live(s.producer.value)
    else c.Empty?
  }

  ghost predicate Inv(s: State) {
    Ordered(s) && Claims(s) && forall k: nat :: s.head <= k < s.head + |s.storage| ==> SlotHolds(s, k)
  }

  lemma InitInv<T>(cap: nat)
    requires cap > 0
    ensures Inv(Init<T>(cap))
  {
    var s := Init<T>(cap);
    forall k: nat | s.head <= k < s.head + cap ensures SlotHolds(s, k) {
    }
  }

  /** Writing the slot of ticket `k` leaves the other tickets of the lap alone. */
  lemma OtherSlots(j: nat, k: nat, base: nat, cap: nat)
    requires cap > 0 && base <= j < base + cap && base <= k < base + cap && j != k
    ensures Slot(j, cap) != Slot(k, cap)
  {
    if Slot(j, cap) == Slot(k, cap) {
      if j < k { SlotInjective(j, k, cap); } else { SlotInjective(k, j, cap); }
    }
  }

  lemma ProducerInv<T>(s: State<T>)
    requires Inv(s) && !s.producer.ProducerIdle?
    ensures Inv(ProducerNext(s))
  {
    hide Slot;
    var s', cap := ProducerNext(s), |s.storage|;
    if s.producer.PushConstruct? {
      assert SlotHolds(s, s.tail);
    }
    forall k: nat | s'.head <= k < s'.head + cap ensures SlotHolds(s', k) {
      assert SlotHolds(s, k);
      if s.producer.PushConstruct? && k != s.tail { OtherSlots(k, s.tail, s.head, cap); }
    }
  }

  lemma ConsumerInv<T>(s: State<T>)
    requires Inv(s) && !s.consumer.ConsumerIdle?
    ensures Inv(ConsumerNext(s))
  {
    hide Slot;
    var s', cap := ConsumerNext(s), |s.storage|;
    assert SlotHolds(s, s.head);
    if s.consumer.PopStore? {
      assert s.produced[..s.head + 1] == s.produced[..s.head] + [s.produced[s.head]];
      SlotPeriodic(s.head, cap);
    }
    forall k: nat | s'.head <= k < s'.head + cap ensures SlotHolds(s', k) {
      if k < s.head + cap { assert SlotHolds(s, k); }
      if s.consumer.PopDestroy? && k != s.head { OtherSlots(k, s.head, s.head, cap); }
    }
  }

  lemma NextInv<T>(s: State<T>, e: Event<T>)
    requires Inv(s) && Enabled(s, e)
    ensures Inv(Next(s, e)) && |Next(s, e).storage| == |s.storage|
  {
    match e
    case ProducerStep => ProducerInv(s);
    case ConsumerStep => ConsumerInv(s);
    case _ =>
      forall k: nat | s.head <= k < s.head + |s.storage| ensures SlotHolds(Next(s, e), k) {
        assert SlotHolds(s, k);
      }
  }

  lemma {:induction false} RunKeepsInv<T>(s: State<T>, es: seq<Event<T>>)
    requires Inv(s) && ValidRun(s, es)
    ensures Inv(Exec(s, es)) && |Exec(s, es).storage| == |s.storage|
    decreases |es|
  {
    hide Next, Enabled, Inv;
    if es != [] {
      NextInv(s, es[0]);
      RunKeepsInv(Next(s, es[0]), es[1..]);
    }
  }

  // Refinement of an uncached bounded FIFO.

  ghost function Contents<T>(s: State<T>): seq<T>
    requires Ordered(s)
  {
    s.produced[s.head..s.tail]
  }

  /**
   One step as the bounded FIFO sees it: a push that returns true appends, one that returns false
   finds it full; a pop that returns a value removes the front, one that returns none finds it
   empty; nothing else changes it.
   */
  ghost predicate FifoStep<T>(cap: nat, q: seq<T>, q': seq<T>, s: State<T>, s': State<T>) {
    if s'.producer == ProducerIdle(true) && s.producer.PushStore? then
      |q| < cap && q' == q + [s.producer.value]
    else if s'.producer == ProducerIdle(false) && s.producer.PushReload? then
      |q| == cap && q' == q
    else if s'.consumer == ConsumerIdle(None) && s.consumer.PopReload? then
      q == [] && q' == q
    else if s'.consumer.ConsumerIdle? && s.consumer.PopStore? then
      q != [] && s'.consumer == ConsumerIdle(Some(q[0])) && q' == q[1..]
    else
      q' == q && (s'.producer.ProducerIdle? ==> s.producer == s'.producer)
              && (s'.consumer.ConsumerIdle? ==> s.consumer == s'.consumer)
  }

  lemma NextRefines<T>(s: State<T>, e: Event<T>)
    requires Inv(s) && Enabled(s, e)
    ensures Inv(Next(s, e))
    ensures FifoStep(|s.storage|, Contents(s), Contents(Next(s, e)), s, Next(s, e))
  {
    NextInv(s, e);
    var s' := Next(s, e);
    assert SlotHolds(s, s.head);
    if e.ProducerStep? && s.producer.PushStore? {
      assert s'.produced[s.head..s.tail + 1] == s.produced[s.head..s.tail] + [s.producer.value];
    }
    if e.ConsumerStep? && s.consumer.PopStore? {
      assert s.produced[s.head..s.tail][1..] == s.produced[s.head + 1..s.tail];
    }
  }

  /** The states of a run, first to last. */
  function Trace<T>(s: State<T>, es: seq<Event<T>>): (ss: seq<State<T>>)
    requires ValidRun(s, es)
    ensures |ss| == |es| + 1 && ss[0] == s
    decreases |es|
  {
    if es == [] then [s] else [s] + Trace(Next(s, es[0]), es[1..])
  }

  /** The two states keep the invariant and the bounded FIFO can step from one to the other. */
  ghost predicate Refines<T>(cap: nat, s: State<T>, s': State<T>) {
    && Inv(s) && Inv(s') && |s.storage| == |s'.storage| == cap
    && FifoStep(cap, Contents(s), Contents(s'), s, s')
  }

  ghost predicate RefinesFifo<T>(cap: nat, ss: seq<State<T>>) {
    forall k :: 0 <= k < |ss| - 1 ==> Refines(cap, ss[k], ss[k + 1])
  }

  lemma TracePrepend<T>(cap: nat, s: State<T>, ss: seq<State<T>>)
    requires ss != [] && RefinesFifo(cap, ss) && Refines(cap, s, ss[0])
    ensures RefinesFifo(cap, [s] + ss)
  {
    hide Refines;
    var all := [s] + ss;
    forall k | 0 <= k < |all| - 1 ensures Refines(cap, all[k], all[k + 1]) {
      if k > 0 {
        assert Refines(cap, ss[k - 1], ss[k - 1 + 1]);
      }
    }
  }

  lemma {:induction false} RunsRefine<T>(s: State<T>, es: seq<Event<T>>)
    requires Inv(s) && ValidRun(s, es)
    ensures RefinesFifo(|s.storage|, Trace(s, es))
    ensures forall k :: 0 <= k <= |es| ==> Lagging(Trace(s, es)[k], |s.storage|)
    decreases |es|
  {
    hide Next, Enabled, FifoStep;
    if es != [] {
      NextRefines(s, es[0]);
      NextInv(s, es[0]);
      RunsRefine(Next(s, es[0]), es[1..]);
      TracePrepend(|s.storage|, s, Trace(Next(s, es[0]), es[1..]));
    }
  }

  /** The caches lag the counters by at most a lap, and values come out in the order they went in. */
  ghost predicate Lagging(s: State, cap: nat) {
    s.headCache <= s.head <= s.tailCache <= s.tail <= s.headCache + cap &&
    s.consumed <= s.produced && !s.fault
  }

  /**
   Under every interleaving of the two threads the cached queue is an uncached bounded FIFO: in every
   state the caches lag the counters as `head_cache_ <= head_ <= tail_cache_ <= tail_ <=
   head_cache_ + capacity_`, what was consumed is a prefix of what was produced, no slot is
   overwritten while live or read while empty, and a false result means exactly full or empty.
   */
  lemma {:induction false} CachedQueueRefinesFifo<T>(cap: nat, es: seq<Event<T>>)
    requires cap > 0 && ValidRun(Init(cap), es)
    ensures RefinesFifo(cap, Trace(Init(cap), es))
    ensures forall k :: 0 <= k <= |es| ==> Lagging(Trace(Init<T>(cap), es)[k], cap)
  {
    InitInv<T>(cap);
    RunsRefine(Init(cap), es);
  }
}
