/**
 The single-producer single-consumer queue as an object with wrapping 64-bit counters, and why the
 wrapping never shows.
 */
module SpscObject {
  import opened Tickets
  import opened Words
  import opened Spsc
  import opened Wrappers

  /** `tail + 1 - head_cache > capacity` on 64-bit words. */
  predicate WordLooksFull(tail: nat, headCache: nat, capacity: nat) {
    Wrap(Wrap(tail + 1) - headCache) > capacity
  }

  lemma WrapShift(x: int, laps: int)
    ensures Wrap(x + laps * TWO_64) == Wrap(x)
  {
  }

  /** The distance of two counters less than 2^64 apart survives wrapping. */
  lemma WrapDistance(a: nat, b: nat)
    requires 0 <= a - b < TWO_64
    ensures Wrap(Wrap(a) - Wrap(b)) == a - b
  {
    var qa, qb := a / TWO_64, b / TWO_64;
    assert Wrap(a) == a - qa * TWO_64 && Wrap(b) == b - qb * TWO_64;
    WrapShift(a - b, qb - qa);
    assert Wrap(a) - Wrap(b) == (a - b) + (qb - qa) * TWO_64;
  }

  lemma WrapNext(a: nat)
    ensures Wrap(Wrap(a) + 1) == Wrap(a + 1)
  {
    WrapShift(Wrap(a) + 1, a / TWO_64);
  }

  /** The full test on words is the full test on counters. */
  lemma FullTestExact(tail: nat, headCache: nat, capacity: nat)
    requires headCache <= tail <= headCache + capacity && capacity <= TWO_63
    ensures WordLooksFull(Wrap(tail), Wrap(headCache), capacity) <==> tail + 1 - headCache > capacity
  {
    WrapNext(tail);
    WrapDistance(tail + 1, headCache);
  }

  /** So is the empty test. */
  lemma EmptyTestExact(head: nat, tailCache: nat, capacity: nat)
    requires head <= tailCache <= head + capacity && capacity <= TWO_63
    ensures Wrap(tailCache) == Wrap(head) <==> tailCache == head
  {
    WrapDistance(tailCache, head);
  }

  /** Every power of two up to 2^63 divides 2^64. */
  lemma {:induction false} Pow2Divides(k: nat, j: nat)
    requires k <= j
    ensures exists d: nat :: Pow2(j) == d * Pow2(k)
    decreases j
  {
    if k == j {
      assert Pow2(j) == 1 * Pow2(k);
    } else {
      Pow2Divides(k, j - 1);
      var d: nat :| Pow2(j - 1) == d * Pow2(k);
      assert Pow2(j) == (2 * d) * Pow2(k);
    }
  }

  lemma SlotLaps(x: nat, laps: nat, d: nat, cap: nat)
    requires cap > 0
    ensures Slot(x + laps * (d * cap), cap) == Slot(x, cap)
  {
    var y := x + laps * (d * cap);
    assert y == (x / cap + laps * d) * cap + x % cap by {
      assert laps * (d * cap) == (laps * d) * cap;
      assert x == x / cap * cap + x % cap;
    }
    DivisionUnique(y / cap, y % cap, x / cap + laps * d, x % cap, cap);
  }

  /** Masking a wrapped counter gives the slot of the counter. */
  lemma SlotExact(k: nat, capacity: nat)
    requires IsPow2(capacity) && capacity <= TWO_63
    ensures And(Wrap(k), capacity - 1) == Slot(k, capacity) < capacity
  {
    var e: nat :| capacity == Pow2(e);
    Pow2Of63();
    if e > 63 { Pow2Monotone(63, e); }
    Pow2Divides(e, 64);
    var d: nat :| Pow2(64) == d * Pow2(e);
    MaskIsSlot(Wrap(k), capacity);
    SlotLaps(Wrap(k), k / TWO_64, d, capacity);
    assert k == Wrap(k) + k / TWO_64 * TWO_64;
  }

  /**
   Wraparound: in every reachable state and for every power-of-two capacity up to 2^63, both full
   tests, both empty tests and both slot indices computed on 64-bit words agree with the unbounded
   counters, however often those have passed 2^64.
   */
  lemma {:induction false} WraparoundExact<T>(cap: nat, es: seq<Event<T>>)
    requires IsPow2(cap) && cap <= TWO_63 && ValidRun(Init(cap), es)
    ensures var s := Exec(Init(cap), es);
      && (WordLooksFull(Wrap(s.tail), Wrap(s.headCache), cap) <==> s.tail + 1 - s.headCache > cap)
      && (WordLooksFull(Wrap(s.tail), Wrap(s.head), cap) <==> s.tail + 1 - s.head > cap)
      && (Wrap(s.tailCache) == Wrap(s.head) <==> s.tailCache == s.head)
      && (Wrap(s.tail) == Wrap(s.head) <==> s.tail == s.head)
      && And(Wrap(s.tail), cap - 1) == Slot(s.tail, cap)
      && And(Wrap(s.head), cap - 1) == Slot(s.head, cap)
  {
    InitInv<T>(cap);
    RunKeepsInv(Init(cap), es);
    var s := Exec(Init<T>(cap), es);
    FullTestExact(s.tail, s.headCache, cap);
    FullTestExact(s.tail, s.head, cap);
    EmptyTestExact(s.head, s.tailCache, cap);
    EmptyTestExact(s.head, s.tail, cap);
    SlotExact(s.tail, cap);
    SlotExact(s.head, cap);
  }

  // `size()`, which loads the tail and then the head.

  function WordSize(tail: nat, head: nat): nat { Wrap(Wrap(tail) - Wrap(head)) }

  lemma CountersAdvance<T>(s: State<T>, e: Event<T>)
    requires Enabled(s, e)
    ensures Next(s, e).head >= s.head && Next(s, e).tail >= s.tail
    ensures !e.ProducerStep? ==> Next(s, e).tail == s.tail
    ensures !e.ConsumerStep? ==> Next(s, e).head == s.head
  {
  }

  lemma {:induction false} RunAdvances<T>(s: State<T>, es: seq<Event<T>>)
    requires Inv(s) && ValidRun(s, es)
    ensures Inv(Exec(s, es)) && Exec(s, es).head >= s.head && Exec(s, es).tail >= s.tail
    ensures (forall i :: 0 <= i < |es| ==> !es[i].ProducerStep?) ==> Exec(s, es).tail == s.tail
    ensures (forall i :: 0 <= i < |es| ==> !es[i].ConsumerStep?) ==> Exec(s, es).head == s.head
    decreases |es|
  {
    hide Next, Enabled, Inv;
    if es != [] {
      NextInv(s, es[0]);
      CountersAdvance(s, es[0]);
      RunAdvances(Next(s, es[0]), es[1..]);
    }
  }

  /**
   `size()` with a run `es` between its two loads: while one of the two owning threads stands still,
   the head it loads has not passed the tail it loaded, and the result is at most the capacity.
   */
  lemma {:induction false} SizeBetweenLoads<T>(s: State<T>, es: seq<Event<T>>)
    requires Inv(s) && ValidRun(s, es) && |s.storage| <= TWO_63
    ensures WordSize(s.tail, Exec(s, es).head) == s.tail - Exec(s, es).head <==> Exec(s, es).head <= s.tail
    ensures (forall i :: 0 <= i < |es| ==> !es[i].ProducerStep?) ||
            (forall i :: 0 <= i < |es| ==> !es[i].ConsumerStep?) ==>
            Exec(s, es).head <= s.tail && WordSize(s.tail, Exec(s, es).head) <= |s.storage|
  {
    hide Wrap, ValidRun, Exec, Claims, SlotHolds;
    RunAdvances(s, es);
    var head := Exec(s, es).head;
    if head <= s.tail { WrapDistance(s.tail, head); }
  }

  /** A whole push and a whole pop between the two loads of a third party. */
  lemma SizeCanUnderflow(cap: nat) returns (es: seq<Event<int>>)
    requires cap > 0
    ensures ValidRun(Init(cap), es)
    ensures WordSize(Init<int>(cap).tail, Exec(Init<int>(cap), es).head) == TWO_64 - 1
  {
    var push: seq<Event<int>> := [Event.CallPush(7), ProducerStep, ProducerStep, ProducerStep];
    var pop: seq<Event<int>> := [Event.CallPop, ConsumerStep, ConsumerStep, ConsumerStep, ConsumerStep, ConsumerStep];
    var s1 := FourSteps(cap, Init(cap), push);
    var s2 := SixSteps(s1, pop);
    RunJoin(Init(cap), push, pop);
    es := push + pop;
  }

  lemma FourSteps(cap: nat, s: State<int>, es: seq<Event<int>>) returns (s': State<int>)
    requires cap > 0 && s == Init(cap) && es == [Event.CallPush(7), ProducerStep, ProducerStep, ProducerStep]
    ensures ValidRun(s, es) && s' == Exec(s, es)
    ensures s'.head == s'.tailCache == 0 && s'.tail == 1 && s'.consumer.ConsumerIdle?
    ensures |s'.storage| == cap && s'.storage[0] == Live(7)
  {
    SlotSmall(0, cap);
    var s1 := Next(s, es[0]);
    var s2 := Next(s1, es[1]);
    var s3 := Next(s2, es[2]);
    s' := Next(s3, es[3]);
    assert es[1..][1..] == es[2..] && es[2..][1..] == es[3..] && es[3..][1..] == [];
    assert ValidRun(s3, es[3..]) && Exec(s3, es[3..]) == s';
    assert ValidRun(s2, es[2..]) && Exec(s2, es[2..]) == s';
    assert ValidRun(s1, es[1..]) && Exec(s1, es[1..]) == s';
  }

  lemma SixSteps(s: State<int>, es: seq<Event<int>>) returns (s': State<int>)
    requires s.head == s.tailCache == 0 && s.tail == 1 && s.consumer.ConsumerIdle?
    requires |s.storage| > 0 && s.storage[0] == Live(7)
    requires es == [Event.CallPop, ConsumerStep, ConsumerStep, ConsumerStep, ConsumerStep, ConsumerStep]
    ensures ValidRun(s, es) && s' == Exec(s, es) && s'.head == 1
  {
    SlotSmall(0, |s.storage|);
    var s1 := Next(s, es[0]);
    var s2 := Next(s1, es[1]);
    var s3 := Next(s2, es[2]);
    var s4 := Next(s3, es[3]);
    var s5 := Next(s4, es[4]);
    s' := Next(s5, es[5]);
    assert es[1..][1..] == es[2..] && es[2..][1..] == es[3..] && es[3..][1..] == es[4..];
    assert es[4..][1..] == es[5..] && es[5..][1..] == [];
    assert ValidRun(s5, es[5..]) && Exec(s5, es[5..]) == s';
    assert ValidRun(s4, es[4..]) && Exec(s4, es[4..]) == s';
    assert ValidRun(s3, es[3..]) && Exec(s3, es[3..]) == s';
    assert ValidRun(s2, es[2..]) && Exec(s2, es[2..]) == s';
    assert ValidRun(s1, es[1..]) && Exec(s1, es[1..]) == s';
  }

  lemma {:induction false} RunJoin<T>(s: State<T>, a: seq<Event<T>>, b: seq<Event<T>>)
    requires ValidRun(s, a) && ValidRun(Exec(s, a), b)
    ensures ValidRun(s, a + b) && Exec(s, a + b) == Exec(Exec(s, a), b)
    decreases |a|
  {
    hide Next, Enabled;
    if a == [] {
      assert a + b == b;
    } else {
      assert (a + b)[1..] == a[1..] + b;
      RunJoin(Next(s, a[0]), a[1..], b);
    }
  }

  /** The producer makes steps only if `producer`, the consumer only if `consumer`. */
  ghost predicate MayRun(es: seq<Event>, producer: bool, consumer: bool) {
    forall i :: 0 <= i < |es| ==> (es[i].ProducerStep? ==> producer) && (es[i].ConsumerStep? ==> consumer)
  }

  /** From any reachable state, with any such run between its loads, `size()` is the difference of what it loads. */
  ghost predicate SizeAlwaysTrue(cap: nat, producer: bool, consumer: bool) {
    forall before: seq<Event<int>>, es: seq<Event<int>> ::
      ValidRun(Init(cap), before) && ValidRun(Exec(Init(cap), before), es) && MayRun(es, producer, consumer) ==>
      SizeTrue(Exec(Init(cap), before), es)
  }

  ghost predicate SizeTrue(s: State<int>, es: seq<Event<int>>)
    requires ValidRun(s, es)
  {
    WordSize(s.tail, Exec(s, es).head) == s.tail - Exec(s, es).head
  }

  /**
   `size()` is always true if and only if not both of the owning threads run between its two loads:
   so for either owner, which makes no step of its own meanwhile, and not for a third thread.
   */
  lemma SizeExactIff(cap: nat, producer: bool, consumer: bool)
    requires 0 < cap <= TWO_63
    ensures SizeAlwaysTrue(cap, producer, consumer) <==> !(producer && consumer)
  {
    InitInv<int>(cap);
    if producer && consumer {
      var es := SizeCanUnderflow(cap);
      var before: seq<Event<int>> := [];
      assert Exec(Init<int>(cap), before) == Init(cap) && ValidRun(Exec(Init<int>(cap), before), es);
      assert MayRun(es, producer, consumer) && !SizeTrue(Exec(Init(cap), before), es);
    } else {
      forall before: seq<Event<int>>, es: seq<Event<int>>
        | ValidRun(Init(cap), before) && ValidRun(Exec(Init(cap), before), es) && MayRun(es, producer, consumer)
        ensures SizeTrue(Exec(Init(cap), before), es)
      {
        RunKeepsInv(Init(cap), before);
        SizeBetweenLoads(Exec(Init(cap), before), es);
      }
    }
  }

  class SpscBoundedQueue<T> {
    const capacity: nat
    const mask: nat
    const storage: array<Place<T>>
    var head: nat
    var tail: nat
    var headCache: nat
    var tailCache: nat
    var producer: ProducerPc<T>
    var consumer: ConsumerPc<T>
    /** The unbounded-counter state this object stands for. */
    ghost var model: State<T>

    ghost predicate Valid()
      reads this, storage
    {
      && IsPow2(capacity) && capacity <= TWO_63 && mask == capacity - 1 && storage.Length == capacity
      && Inv(model) && model.storage == storage[..]
      && model.producer == producer && model.consumer == consumer
      && head == Wrap(model.head) && tail == Wrap(model.tail)
      && headCache == Wrap(model.headCache) && tailCache == Wrap(model.tailCache)
    }

    constructor (requested: nat)
      requires requested <= TWO_63
      ensures Valid() && model == Init(capacity) && fresh(storage)
      ensures capacity >= requested && capacity >= 2
      ensures forall p: nat :: IsPow2(p) && p >= 2 && p >= requested ==> capacity <= p
    {
      var c := NormalizeCapacity(requested);
      capacity, mask := c, c - 1;
      storage := new Place<T>[c](i => Empty);
      head, tail, headCache, tailCache := 0, 0, 0, 0;
      producer, consumer := ProducerIdle(true), ConsumerIdle(None);
      model := Init(c);
      new;
      InitInv<T>(c);
      Pow2Of63();
      assert IsPow2(TWO_63) by { assert TWO_63 == Pow2(63); }
    }

    method CallPush(v: T)
      requires Valid() && producer.ProducerIdle?
      modifies this`producer, this`model
      ensures Valid() && model == Next(old(model), Event.CallPush(v))
    {
      NextInv(model, Event.CallPush(v));
      model := Next(model, Event.CallPush(v));
      producer := PushTest(v);
    }

    /** The first full test, against the cached head. */
    method TestCachedHead()
      requires Valid() && producer.PushTest?
      modifies this`producer, this`model
      ensures Valid() && model == ProducerNext(old(model))
      ensures producer == if old(LooksFull(model)) then PushReload(old(producer.value))
                          else PushConstruct(old(producer.value))
    {
      ProducerInv(model);
      FullTestExact(model.tail, model.headCache, capacity);
      hide Inv;
      model := ProducerNext(model);
      producer := if WordLooksFull(tail, headCache, capacity) then PushReload(producer.value)
                  else PushConstruct(producer.value);
    }

    /** Reloading the head, and the second test. */
    method ReloadHead()
      requires Valid() && producer.PushReload?
      modifies this`producer, this`headCache, this`model
      ensures Valid() && model == ProducerNext(old(model))
      ensures producer == if old(|Contents(model)|) == capacity then ProducerIdle(false)
                          else PushConstruct(old(producer.value))
      ensures headCache == head && Contents(model) == old(Contents(model))
    {
      ProducerInv(model);
      FullTestExact(model.tail, model.head, capacity);
      hide Inv;
      model := ProducerNext(model);
      headCache := head;
      producer := if WordLooksFull(tail, headCache, capacity) then ProducerIdle(false)
                  else PushConstruct(producer.value);
    }

    method Construct()
      requires Valid() && producer.PushConstruct?
      modifies this`producer, this`model, storage
      ensures Valid() && model == ProducerNext(old(model))
      ensures producer == PushStore(old(producer.value)) && Contents(model) == old(Contents(model))
    {
      ProducerInv(model);
      SlotExact(model.tail, capacity);
      hide Inv, Slot, And, Wrap;
      model := ProducerNext(model);
      storage[And(tail, mask)] := Live(producer.value);
      producer := PushStore(producer.value);
    }

    method StoreTail()
      requires Valid() && producer.PushStore?
      modifies this`producer, this`tail, this`model
      ensures Valid() && model == ProducerNext(old(model))
      ensures producer == ProducerIdle(true)
      ensures Contents(model) == old(Contents(model)) + [old(producer.value)] && |Contents(model)| <= capacity
    {
      ProducerInv(model);
      WrapNext(model.tail);
      hide Inv, Wrap;
      model := ProducerNext(model);
      tail := Wrap(tail + 1);
      producer := ProducerIdle(true);
    }

    method CallPop()
      requires Valid() && consumer.ConsumerIdle?
      modifies this`consumer, this`model
      ensures Valid() && model == Next(old(model), Event.CallPop)
    {
      NextInv(model, Event.CallPop);
      model := Next(model, Event.CallPop);
      consumer := PopTest;
    }

    method TestCachedTail()
      requires Valid() && consumer.PopTest?
      modifies this`consumer, this`model
      ensures Valid() && model == ConsumerNext(old(model))
      ensures consumer == if old(model.tailCache == model.head) then PopReload else PopTake
    {
      ConsumerInv(model);
      EmptyTestExact(model.head, model.tailCache, capacity);
      hide Inv;
      model := ConsumerNext(model);
      consumer := if tailCache == head then PopReload else PopTake;
    }

    method ReloadTail()
      requires Valid() && consumer.PopReload?
      modifies this`consumer, this`tailCache, this`model
      ensures Valid() && model == ConsumerNext(old(model))
      ensures consumer == if old(Contents(model)) == [] then ConsumerIdle(None) else PopTake
      ensures tailCache == tail && Contents(model) == old(Contents(model))
    {
      ConsumerInv(model);
      EmptyTestExact(model.head, model.tail, capacity);
      hide Inv;
      model := ConsumerNext(model);
      tailCache := tail;
      consumer := if tailCache == head then ConsumerIdle(None) else PopTake;
    }

    method Take()
      requires Valid() && consumer.PopTake?
      modifies this`consumer, this`model
      ensures Valid() && model == ConsumerNext(old(model))
      ensures old(Contents(model)) != [] && consumer == PopDestroy(old(Contents(model))[0])
    {
      ConsumerInv(model);
      SlotExact(model.head, capacity);
      assert SlotHolds(model, model.head);
      hide Inv, Slot, And, Wrap;
      model := ConsumerNext(model);
      consumer := PopDestroy(storage[And(head, mask)].value);
    }

    method Destroy()
      requires Valid() && consumer.PopDestroy?
      modifies this`consumer, this`model, storage
      ensures Valid() && model == ConsumerNext(old(model))
      ensures consumer == PopStore(old(consumer.out)) && Contents(model) == old(Contents(model))
    {
      ConsumerInv(model);
      SlotExact(model.head, capacity);
      hide Inv, Slot, And, Wrap;
      model := ConsumerNext(model);
      storage[And(head, mask)] := Empty;
      consumer := PopStore(consumer.out);
    }

    method StoreHead()
      requires Valid() && consumer.PopStore?
      modifies this`consumer, this`head, this`model
      ensures Valid() && model == ConsumerNext(old(model))
      ensures consumer == ConsumerIdle(Some(old(consumer.out)))
      ensures old(Contents(model)) == [old(consumer.out)] + Contents(model)
    {
      ConsumerInv(model);
      WrapNext(model.head);
      hide Inv, Wrap;
      model := ConsumerNext(model);
      head := Wrap(head + 1);
      consumer := ConsumerIdle(Some(consumer.out));
    }

    /** The destructor's loop: it destroys exactly the values left, oldest first, and empties every slot. */
    method Drain() returns (destroyed: seq<T>)
      requires Valid() && producer.ProducerIdle? && consumer.ConsumerIdle?
      modifies storage
      ensures destroyed == Contents(model)
      ensures forall i :: 0 <= i < capacity ==> storage[i].Empty?
    {
      var h := head;
      ghost var k := model.head;
      assert |model.produced| == model.tail <= model.head + capacity;
      destroyed := [];
      while h != tail
        invariant model.head <= k <= model.tail && h == Wrap(k) && destroyed == model.produced[model.head..k]
        invariant HoldsFrom(model, storage[..], k)
        decreases model.tail - k
      {
        hide Inv, Slot, And, Wrap, HoldsFrom, IsPow2;
        EmptyTestExact(k, model.tail, capacity);
        SlotExact(k, capacity);
        WrapNext(k);
        EmptiesSlot(model, storage[..], k);
        var i := And(h, mask);
        ghost var before := storage[..];
        destroyed := destroyed + [storage[i].value];
        storage[i] := Empty;
        assert storage[..] == before[i := Empty];
        h := Wrap(h + 1);
        k := k + 1;
      }
      hide Inv, Slot, And, Wrap, HoldsFrom, IsPow2;
      EmptyTestExact(k, model.tail, capacity);
      AllEmpty(model, storage[..]);
    }
  }

  /** The slots hold what the model's do from ticket `k` on, and nothing for the tickets before. */
  ghost predicate HoldsFrom<T>(s: State<T>, storage: seq<Place<T>>, k: nat) {
    |storage| == |s.storage| > 0 &&
    forall j: nat :: s.head <= j < s.head + |storage| ==>
      storage[Slot(j, |storage|)] == if j < k then Empty else s.storage[Slot(j, |storage|)]
  }

  lemma EmptiesSlot<T>(s: State<T>, storage: seq<Place<T>>, k: nat)
    requires Inv(s) && s.producer.ProducerIdle? && s.consumer.ConsumerIdle?
    requires HoldsFrom(s, storage, k) && s.head <= k < s.tail
    ensures storage[Slot(k, |storage|)] == Live(s.produced[k])
    ensures HoldsFrom(s, storage[Slot(k, |storage|) := Empty], k + 1)
    ensures s.produced[s.head..k + 1] == s.produced[s.head..k] + [s.produced[k]]
  {
    hide Slot;
    assert SlotHolds(s, k);
    forall j: nat | s.head <= j < s.head + |storage| && j != k ensures Slot(j, |storage|) != Slot(k, |storage|) {
      OtherSlots(j, k, s.head, |storage|);
    }
  }

  lemma AllEmpty<T>(s: State<T>, storage: seq<Place<T>>)
    requires Inv(s) && s.producer.ProducerIdle? && s.consumer.ConsumerIdle? && HoldsFrom(s, storage, s.tail)
    ensures forall i :: 0 <= i < |storage| ==> storage[i].Empty?
  {
    hide Slot;
    forall i: nat | i < |storage| ensures storage[i].Empty? {
      var j := TicketAt(s.head, i, |storage|);
      TicketOfSlot(s.head, i, |storage|);
      assert SlotHolds(s, j);
    }
  }

  /** The ticket of the lap from `head` on that uses slot `i`. */
  function TicketAt(head: nat, i: nat, cap: nat): nat
    requires cap > 0
  {
    var base := head / cap * cap;
    if base + i >= head then base + i else base + i + cap
  }

  lemma TicketOfSlot(head: nat, i: nat, cap: nat)
    requires i < cap
    ensures head <= TicketAt(head, i, cap) < head + cap
    ensures Slot(TicketAt(head, i, cap), cap) == i
  {
    var q, k := head / cap, TicketAt(head, i, cap);
    assert head == q * cap + head % cap;
    assert (q + 1) * cap == q * cap + cap;
    DivisionUnique(k / cap, k % cap, if q * cap + i >= head then q else q + 1, i, cap);
  }
}
