/**
 The third version of the atomic queue: the same protocol with a bounded spin counter. A call that
 goes around its loop again backs off before its next access.
 */
module AtomicBackoff {
  import opened AtomicProperties
  import opened AtomicQueue
  import opened Counting
  import opened Tickets

  const SPIN_LIMIT: nat := 64

  /** `due[t]` says that thread `t` is about to call `backoff`; `spins[t]` is its `fail_spins`. */
  datatype SpinState<+T> = SpinState(base: State<T>, spins: seq<nat>, due: seq<bool>)

  datatype SpinEvent<+T> = Protocol(event: Event<T>) | Backoff(thread: nat)

  /** The access leads back to the head of the retry loop. */
  predicate LoopsBack(s: State, e: Event)
    requires Enabled(s, e)
  {
    var pc := s.threads[e.thread];
    e.action.SpuriousFailure? ||
    (e.action.Run? &&
     (pc.PushReload? || pc.PopReload? ||
      (pc.PushCas? && pc.pos != s.enqueuePos) || (pc.PopCas? && pc.pos != s.dequeuePos)))
  }

  /** The access that declares a fresh spin counter. */
  predicate StartsLoop(s: State, e: Event)
    requires Enabled(s, e)
  {
    e.action.Run? && (s.threads[e.thread].PushLoadPos? || s.threads[e.thread].PopLoadPos?)
  }

  predicate WellSized(z: SpinState) {
    |z.spins| == |z.due| == |z.base.threads|
  }

  predicate SpinEnabled(z: SpinState, e: SpinEvent) {
    WellSized(z) &&
    match e
    case Protocol(p) => Enabled(z.base, p) && !z.due[p.thread]
    case Backoff(t) => t < |z.due| && z.due[t]
  }

  function Backed(spins: nat): nat {
    if spins + 1 > SPIN_LIMIT then 0 else spins + 1
  }

  function SpinNext<T>(z: SpinState<T>, e: SpinEvent<T>): SpinState<T>
    requires SpinEnabled(z, e)
  {
    match e
    case Protocol(p) =>
      SpinState(Next(z.base, p),
                if StartsLoop(z.base, p) then z.spins[p.thread := 0] else z.spins,
                z.due[p.thread := LoopsBack(z.base, p)])
    case Backoff(t) => z.(spins := z.spins[t := Backed(z.spins[t])], due := z.due[t := false])
  }

  predicate ValidSpinRun<T>(z: SpinState<T>, es: seq<SpinEvent<T>>)
    decreases |es|
  {
    es == [] || (SpinEnabled(z, es[0]) && ValidSpinRun(SpinNext(z, es[0]), es[1..]))
  }

  function SpinExec<T>(z: SpinState<T>, es: seq<SpinEvent<T>>): SpinState<T>
    requires ValidSpinRun(z, es)
    decreases |es|
  {
    if es == [] then z else SpinExec(SpinNext(z, es[0]), es[1..])
  }

  function SpinInit<T>(cap: nat, n: nat): SpinState<T> {
    SpinState(Init(cap, n), seq(n, t => 0), seq(n, t => false))
  }

  /** The run without its backoff steps. */
  function Erase<T>(es: seq<SpinEvent<T>>): seq<Event<T>> {
    if es == [] then []
    else (if es[0].Protocol? then [es[0].event] else []) + Erase(es[1..])
  }

  ghost predicate SpinsBounded(z: SpinState) {
    forall t :: 0 <= t < |z.spins| ==> z.spins[t] <= SPIN_LIMIT
  }

  /** How often thread `t` backs off in the run. */
  function Backoffs<T>(es: seq<SpinEvent<T>>, t: nat): nat {
    if es == [] then 0 else (if es[0] == Backoff(t) then 1 else 0) + Backoffs(es[1..], t)
  }

  /** No access of the run gives thread `t` a fresh counter. */
  ghost predicate SameLoop<T>(z: SpinState<T>, es: seq<SpinEvent<T>>, t: nat)
    requires ValidSpinRun(z, es)
    decreases |es|
  {
    es == [] ||
    ((es[0].Protocol? && es[0].event.thread == t ==> !StartsLoop(z.base, es[0].event)) &&
     SameLoop(SpinNext(z, es[0]), es[1..], t))
  }

  /** One more backoff, counted modulo one more than the limit. */
  lemma BackedCounts(spins: nat, more: nat)
    requires spins <= SPIN_LIMIT
    ensures Backed(spins) <= SPIN_LIMIT
    ensures (Backed(spins) + more) % (SPIN_LIMIT + 1) == (spins + 1 + more) % (SPIN_LIMIT + 1)
  {
  }

  /** Within one retry loop the counter counts the backoffs, starting over after every 65th. */
  lemma {:induction false} SpinsCountBackoffs<T>(z: SpinState<T>, es: seq<SpinEvent<T>>, t: nat)
    requires WellSized(z) && ValidSpinRun(z, es) && SameLoop(z, es, t)
    requires t < |z.spins| && z.spins[t] <= SPIN_LIMIT
    ensures |SpinExec(z, es).spins| == |z.spins|
    ensures SpinExec(z, es).spins[t] == (z.spins[t] + Backoffs(es, t)) % (SPIN_LIMIT + 1)
    decreases |es|
  {
    hide RunStep, SpuriousStep, Backed;
    if es != [] {
      if es[0].Protocol? { SameShape(z.base, es[0].event); }
      BackedCounts(z.spins[t], Backoffs(es[1..], t));
      SpinsCountBackoffs(SpinNext(z, es[0]), es[1..], t);
    }
  }

  // The backoffs of a call are its retries.

  /** Thread `t` fails an attempt and will go around its loop again. */
  ghost predicate Retries<T>(z: SpinState<T>, e: SpinEvent<T>, t: nat)
    requires SpinEnabled(z, e)
  {
    e.Protocol? && e.event.thread == t &&
    (PushRetry(z.base, e.event) || PopRetry(z.base, e.event) || e.event.action.SpuriousFailure?)
  }

  ghost function RetryCount<T>(z: SpinState<T>, es: seq<SpinEvent<T>>, t: nat): nat
    requires ValidSpinRun(z, es)
    decreases |es|
  {
    if es == [] then 0 else One(Retries(z, es[0], t)) + RetryCount(SpinNext(z, es[0]), es[1..], t)
  }

  /** A failed attempt of thread `t` has not been backed off for yet. */
  function Outstanding<T>(z: SpinState<T>, t: nat): nat
    requires WellSized(z) && t < |z.due|
  {
    One(z.due[t]) + One(z.base.threads[t].PushReload? || z.base.threads[t].PopReload?)
  }

  /** Thread `t` is at the head of its loop when a backoff is due. */
  ghost predicate DueAtHead<T>(z: SpinState<T>, t: nat)
    requires WellSized(z) && t < |z.due|
  {
    z.due[t] ==> z.base.threads[t].PushLoadSeq? || z.base.threads[t].PopLoadSeq?
  }

  lemma SpinShape<T>(z: SpinState<T>, e: SpinEvent<T>)
    requires SpinEnabled(z, e)
    ensures WellSized(SpinNext(z, e)) && |SpinNext(z, e).due| == |z.due|
  {
    hide RunStep, SpuriousStep;
    if e.Protocol? { SameShape(z.base, e.event); }
  }

  /** Each retry makes one backoff due, and nothing else does. */
  lemma OwnRetry<T>(z: SpinState<T>, e: Event<T>)
    requires SpinEnabled(z, Protocol(e)) && WellSized(SpinNext(z, Protocol(e))) && DueAtHead(z, e.thread)
    ensures var z' := SpinNext(z, Protocol(e));
      && Outstanding(z', e.thread) == Outstanding(z, e.thread) + One(Retries(z, Protocol(e), e.thread))
      && DueAtHead(z', e.thread)
  {
    hide Slot;
  }

  lemma RetryStep<T>(z: SpinState<T>, e: SpinEvent<T>, t: nat)
    requires SpinEnabled(z, e) && t < |z.due| && DueAtHead(z, t)
    ensures var z' := SpinNext(z, e);
      && WellSized(z') && t < |z'.due| && DueAtHead(z', t)
      && (if e == Backoff(t) then 1 else 0) + Outstanding(z', t) == Outstanding(z, t) + One(Retries(z, e, t))
  {
    hide RunStep, SpuriousStep, PushRetry, PopRetry, LoopsBack, StartsLoop;
    SpinShape(z, e);
    if e.Protocol? {
      SameShape(z.base, e.event);
      if e.event.thread == t { OwnRetry(z, e.event); }
    }
  }

  lemma {:induction false} RetriesBackOff<T>(z: SpinState<T>, es: seq<SpinEvent<T>>, t: nat)
    requires WellSized(z) && ValidSpinRun(z, es) && t < |z.due| && DueAtHead(z, t)
    ensures var z' := SpinExec(z, es);
      && WellSized(z') && t < |z'.due| && DueAtHead(z', t)
      && Backoffs(es, t) + Outstanding(z', t) == Outstanding(z, t) + RetryCount(z, es, t)
    decreases |es|
  {
    hide SpinNext, SpinEnabled, Retries, Outstanding, DueAtHead;
    if es != [] {
      RetryStep(z, es[0], t);
      RetriesBackOff(SpinNext(z, es[0]), es[1..], t);
    }
  }

  // Each call starts with a fresh counter.

  /** Past the declaration of the spin counter. */
  predicate InLoop<T>(pc: Pc<T>) {
    !AtRest(pc) && !pc.Fault? &&
    !pc.PushCheckClosed? && !pc.PushLoadPos? && !pc.PopLoadPos? && !pc.CloseExchange?
  }

  ghost predicate NoCallBy(es: seq<SpinEvent>, t: nat) {
    forall i :: 0 <= i < |es| && es[i].Protocol? && es[i].event.thread == t ==> !es[i].event.action.Call?
  }

  /** A thread past its declaration meets it again only in another call; one before it meets it once. */
  lemma LoopStep<T>(z: SpinState<T>, e: SpinEvent<T>, t: nat)
    requires SpinEnabled(z, e) && t < |z.due| && (e.Protocol? && e.event.thread == t ==> !e.event.action.Call?)
    ensures var z', pc := SpinNext(z, e), z.base.threads[t];
      && WellSized(z') && |z'.due| == |z.due|
      && (InLoop(pc) || AtRest(pc) || pc.Fault? ==>
            InLoop(z'.base.threads[t]) || AtRest(z'.base.threads[t]) || z'.base.threads[t].Fault?)
      && (!InLoop(pc) && !z.due[t] && InLoop(z'.base.threads[t]) ==>
            z'.spins[t] == 0 && !z'.due[t] && e.Protocol? && e.event.thread == t)
      && (!InLoop(pc) && !z.due[t] && !InLoop(z'.base.threads[t]) ==> !z'.due[t] && e != Backoff(t))
  {
    SpinShape(z, e);
    if e.Protocol? {
      SameShape(z.base, e.event);
    }
    hide Slot;
  }

  lemma {:induction false} LoopStays<T>(z: SpinState<T>, es: seq<SpinEvent<T>>, t: nat)
    requires WellSized(z) && ValidSpinRun(z, es) && t < |z.due| && NoCallBy(es, t)
    requires var pc := z.base.threads[t]; InLoop(pc) || AtRest(pc) || pc.Fault?
    ensures SameLoop(z, es, t)
    decreases |es|
  {
    hide SpinNext, SpinEnabled;
    if es != [] {
      LoopStep(z, es[0], t);
      LoopStays(SpinNext(z, es[0]), es[1..], t);
    }
  }

  lemma {:induction false} FreshCounts<T>(z: SpinState<T>, es: seq<SpinEvent<T>>, t: nat)
    requires WellSized(z) && ValidSpinRun(z, es) && t < |z.due| && NoCallBy(es, t)
    requires !InLoop(z.base.threads[t]) && !z.due[t]
    ensures var z' := SpinExec(z, es);
      && WellSized(z') && t < |z'.due|
      && (InLoop(z'.base.threads[t]) ==> z'.spins[t] == Backoffs(es, t) % (SPIN_LIMIT + 1))
    decreases |es|
  {
    hide SpinNext, SpinEnabled, InLoop;
    if es != [] {
      var z1 := SpinNext(z, es[0]);
      LoopStep(z, es[0], t);
      if InLoop(z1.base.threads[t]) {
        LoopStays(z1, es[1..], t);
        SpinsCountBackoffs(z1, es[1..], t);
        SpinRunShape(z1, es[1..]);
      } else {
        FreshCounts(z1, es[1..], t);
      }
    }
  }

  lemma {:induction false} SpinRunShape<T>(z: SpinState<T>, es: seq<SpinEvent<T>>)
    requires WellSized(z) && ValidSpinRun(z, es)
    ensures WellSized(SpinExec(z, es)) && |SpinExec(z, es).due| == |z.due|
    decreases |es|
  {
    hide SpinNext, SpinEnabled;
    if es != [] {
      SpinShape(z, es[0]);
      SpinRunShape(SpinNext(z, es[0]), es[1..]);
    }
  }

  /**
   The backoffs of a call are exactly its retries: at every moment of a call, under any schedule, its
   thread has backed off once for each failed attempt, except that the last backoff may still be due;
   once it has returned none is due; and its spin counter, whatever earlier calls have left there, is
   the number of its backoffs modulo 65.
     */
  lemma {:induction false} BackoffsAreRetries<T>(cap: nat, n: nat, before: seq<SpinEvent<T>>, t: nat, op: Operation<T>,
      es: seq<SpinEvent<T>>)
    requires ValidSpinRun(SpinInit(cap, n), before)
    requires SpinEnabled(SpinExec(SpinInit(cap, n), before), Protocol(Event(t, Call(op))))
    requires ValidSpinRun(SpinNext(SpinExec(SpinInit(cap, n), before), Protocol(Event(t, Call(op)))), es)
    requires NoCallBy(es, t)
    ensures var z := SpinNext(SpinExec(SpinInit(cap, n), before), Protocol(Event(t, Call(op))));
      var z' := SpinExec(z, es);
      && WellSized(z') && t < |z'.due|
      && Backoffs(es, t) + Outstanding(z', t) == RetryCount(z, es, t) && Outstanding(z', t) <= 1
      && (AtRest(z'.base.threads[t]) ==> Backoffs(es, t) == RetryCount(z, es, t))
      && (InLoop(z'.base.threads[t]) ==> z'.spins[t] == Backoffs(es, t) % (SPIN_LIMIT + 1))
  {
    var z0 := SpinInit<T>(cap, n);
    SpinRunShape(z0, before);
    RetriesBackOff(z0, before, t);
    var s := SpinExec(z0, before);
    var e := Protocol(Event(t, Call(op)));
    RetryStep(s, e, t);
    var z := SpinNext(s, e);
    assert Outstanding(z, t) == 0 && !z.due[t] && !InLoop(z.base.threads[t]);
    hide SpinNext, SpinEnabled;
    RetriesBackOff(z, es, t);
    FreshCounts(z, es, t);
  }

  /** Every run with backoff is, without its backoff steps, a run of the plain protocol. */
  lemma {:induction false} BackoffRunsAreProtocolRuns<T>(z: SpinState<T>, es: seq<SpinEvent<T>>)
    requires WellSized(z) && ValidSpinRun(z, es) && SpinsBounded(z)
    ensures ValidRun(z.base, Erase(es)) && SpinExec(z, es).base == Exec(z.base, Erase(es))
    ensures SpinsBounded(SpinExec(z, es))
    decreases |es|
  {
    hide RunStep, SpuriousStep;
    if es != [] {
      var z' := SpinNext(z, es[0]);
      if es[0].Protocol? { SameShape(z.base, es[0].event); }
      BackoffRunsAreProtocolRuns(z', es[1..]);
      if es[0].Protocol? {
        assert Erase(es)[0] == es[0].event && Erase(es)[1..] == Erase(es[1..]);
      } else {
        assert Erase(es) == Erase(es[1..]);
      }
    }
  }

  /** Every run of the plain protocol is the erasure of a run with backoff. */
  lemma {:induction false} ProtocolRunsHaveBackoffRuns<T>(z: SpinState<T>, es: seq<Event<T>>)
    returns (zs: seq<SpinEvent<T>>)
    requires WellSized(z) && ValidRun(z.base, es)
    ensures ValidSpinRun(z, zs) && Erase(zs) == es
    decreases |es|
  {
    hide RunStep, SpuriousStep;
    if es == [] {
      zs := [];
    } else {
      var t := es[0].thread;
      var z1 := if z.due[t] then SpinNext(z, Backoff(t)) else z;
      var z2 := SpinNext(z1, Protocol(es[0]));
      SameShape(z.base, es[0]);
      var rest := ProtocolRunsHaveBackoffRuns(z2, es[1..]);
      zs := [Protocol(es[0])] + rest;
      assert zs[1..] == rest && ValidSpinRun(z1, zs);
      assert Erase(zs) == [es[0]] + Erase(rest);
      if z.due[t] {
        var tail := zs;
        zs := [Backoff(t)] + tail;
        assert zs[1..] == tail;
        assert Erase(zs) == [] + Erase(tail);
      }
    }
  }

  /**
   From a new queue, the version with backoff reaches exactly the protocol states and results of
   the version without, and its spin counters stay at most 64.
   */
  lemma BackoffRefinesProtocol<T>(cap: nat, n: nat, es: seq<Event<T>>, zs: seq<SpinEvent<T>>)
    ensures ValidSpinRun(SpinInit(cap, n), zs) ==>
      ValidRun(Init(cap, n), Erase(zs)) &&
      SpinExec(SpinInit(cap, n), zs).base == Exec(Init(cap, n), Erase(zs)) &&
      SpinsBounded(SpinExec(SpinInit(cap, n), zs))
    ensures ValidRun(Init(cap, n), es) ==>
      exists ys :: ValidSpinRun(SpinInit(cap, n), ys) && Erase(ys) == es
  {
    if ValidSpinRun(SpinInit(cap, n), zs) {
      BackoffRunsAreProtocolRuns(SpinInit(cap, n), zs);
    }
    if ValidRun(Init(cap, n), es) {
      var ys := ProtocolRunsHaveBackoffRuns(SpinInit(cap, n), es);
    }
  }
}
