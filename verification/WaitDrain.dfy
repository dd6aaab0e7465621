/**
 The deque queues under client programs: each thread has a finite list of calls to make. Without
 spurious wakeups every run ends, and the final states are those the counting guarantee allows.
 */
module WaitDrain {
  import opened Counting
  import opened WaitQueue
  import opened WaitGuarantees

  /** `todo[t]` lists the calls thread `t` has yet to make. */
  datatype Clients<+T> = Clients(state: State<T>, todo: seq<seq<Operation<T>>>)

  datatype ClientStep =
    | Begin(thread: nat)
    | Notify(thread: nat, sleeper: nat)
    | Broadcast(thread: nat)
    | Return(thread: nat)

  predicate WellSized(z: Clients) { |z.todo| == |z.state.threads| }

  predicate MayBegin(z: Clients, t: nat) {
    t < |z.todo| == |z.state.threads| && z.todo[t] != [] && z.state.threads[t].Idle?
  }

  /** The machine event behind a step that is not the start of a call. */
  function Inner<T>(e: ClientStep): Event<T>
    requires !e.Begin?
  {
    match e
    case Notify(t, w) => Event(t, NotifyOne(w))
    case Broadcast(t) => Event(t, NotifyAll)
    case Return(t) => Event(t, Relock)
  }

  predicate CanStep(z: Clients, e: ClientStep) {
    if e.Begin? then MayBegin(z, e.thread) else WellSized(z) && Enabled(z.state, Inner(e))
  }

  function AfterStep<T>(z: Clients<T>, e: ClientStep): Clients<T>
    requires CanStep(z, e)
  {
    if e.Begin? then
      Clients(Next(z.state, Event(e.thread, Call(z.todo[e.thread][0]))),
              z.todo[e.thread := z.todo[e.thread][1..]])
    else
      z.(state := Next(z.state, Inner(e)))
  }

  ghost predicate ValidSteps<T>(z: Clients<T>, es: seq<ClientStep>)
    decreases |es|
  {
    es == [] || (CanStep(z, es[0]) && ValidSteps(AfterStep(z, es[0]), es[1..]))
  }

  ghost function AfterAll<T>(z: Clients<T>, es: seq<ClientStep>): Clients<T>
    requires ValidSteps(z, es)
    decreases |es|
  {
    if es == [] then z else AfterAll(AfterStep(z, es[0]), es[1..])
  }

  // The measure.

  function Load<T>(th: Thread<T>, n: nat): (l: int)
    ensures l >= 0
  {
    match th
    case Idle(_) => 0
    case Asleep => 1
    case Woken => 2
    case OwesOne => 3
    case OwesAll => n + 3
  }

  function Loads<T>(ths: seq<Thread<T>>, n: nat): seq<int> {
    seq(|ths|, u requires 0 <= u < |ths| => Load(ths[u], n))
  }

  function Lengths<T>(todo: seq<seq<T>>): seq<int> {
    seq(|todo|, u requires 0 <= u < |todo| => |todo[u]|)
  }

  /** How many calls are still to be made. */
  function CallsLeft<T>(todo: seq<seq<T>>): int { Sum(Lengths(todo)) }

  function Measure<T>(z: Clients<T>): int {
    var n := |z.state.threads|;
    Sum(Loads(z.state.threads, n)) + (n + 4) * CallsLeft(z.todo)
  }

  lemma MeasureNonNegative<T>(z: Clients<T>)
    ensures Measure(z) >= 0
  {
    SumNonNegative(Loads(z.state.threads, |z.state.threads|));
    SumNonNegative(Lengths(z.todo));
  }

  lemma LoadSet<T>(s: State<T>, t: nat, th: Thread<T>, n: nat)
    requires t < |s.threads|
    ensures Sum(Loads(s.threads[t := th], n)) == Sum(Loads(s.threads, n)) - Load(s.threads[t], n) + Load(th, n)
  {
    SumUpdate(Loads(s.threads, n), t, Load(th, n));
    assert Loads(s.threads[t := th], n) == Loads(s.threads, n)[t := Load(th, n)];
  }

  lemma NotifyAllLoad<T>(s: State<T>, t: nat)
    requires t < |s.threads| && s.threads[t].OwesAll?
    ensures var n := |s.threads|; Sum(Loads(NotifyAllStep(s, t).threads, n)) < Sum(Loads(s.threads, n))
  {
    var n := |s.threads|;
    var roused := s.(threads := Roused(s.threads));
    SumAll(Loads(s.threads, n), Loads(roused.threads, n), 1);
    LoadSet(roused, t, Idle(CloseResult), n);
  }

  lemma NotifyOneLoad<T>(s: State<T>, t: nat, w: nat)
    requires Enabled(s, Event(t, NotifyOne(w)))
    ensures var n := |s.threads|; Sum(Loads(NotifyOneStep(s, t, w).threads, n)) < Sum(Loads(s.threads, n))
  {
    var n := |s.threads|;
    var s' := if s.threads[w].Asleep? then Set(s, w, Woken) else s;
    if s.threads[w].Asleep? { LoadSet(s, w, Woken, n); }
    LoadSet(s', t, Idle(PushResult(true)), n);
  }

  lemma CallLoad<T>(s: State<T>, t: nat, op: Operation<T>)
    requires t < |s.threads| && s.threads[t].Idle?
    ensures var n := |s.threads|;
      Sum(Loads(CallStep(s, t, op).threads, n)) <= Sum(Loads(s.threads, n)) + n + 3
  {
    LoadSet(s, t, CallStep(s, t, op).threads[t], |s.threads|);
    assert CallStep(s, t, op).threads == s.threads[t := CallStep(s, t, op).threads[t]];
  }

  lemma RelockLoad<T>(s: State<T>, t: nat)
    requires t < |s.threads| && s.threads[t].Woken?
    ensures var n := |s.threads|; Sum(Loads(RelockStep(s, t).threads, n)) < Sum(Loads(s.threads, n))
  {
    LoadSet(s, t, RelockStep(s, t).threads[t], |s.threads|);
    assert RelockStep(s, t).threads == s.threads[t := RelockStep(s, t).threads[t]];
  }

  lemma FewerCalls<T>(z: Clients<T>, t: nat)
    requires MayBegin(z, t)
    ensures CallsLeft(z.todo[t := z.todo[t][1..]]) == CallsLeft(z.todo) - 1
  {
    var todo' := z.todo[t := z.todo[t][1..]];
    SumUpdate(Lengths(z.todo), t, |z.todo[t]| - 1);
    assert Lengths(todo') == Lengths(z.todo)[t := |z.todo[t]| - 1];
  }

  lemma TimesLess(a: int, k: int)
    ensures a * (k - 1) == a * k - a
  {
  }

  lemma StepDecreases<T>(z: Clients<T>, e: ClientStep)
    requires Inv(z.state) && WellSized(z) && CanStep(z, e)
    ensures WellSized(AfterStep(z, e)) && |AfterStep(z, e).todo| == |z.todo|
    ensures Measure(AfterStep(z, e)) < Measure(z)
  {
    hide Inv, CallStep, RelockStep, NotifyOneStep, NotifyAllStep;
    var s := z.state;
    match e
    case Begin(t) =>
      var op := z.todo[t][0];
      NextInv(s, Event(t, Call(op)));
      CallLoad(s, t, op);
      FewerCalls(z, t);
      TimesLess(|s.threads| + 4, CallsLeft(z.todo));
    case Notify(t, w) => NextInv(s, Inner(e)); NotifyOneLoad(s, t, w);
    case Broadcast(t) => NextInv(s, Inner(e)); NotifyAllLoad(s, t);
    case Return(t) => NextInv(s, Inner(e)); RelockLoad(s, t);
  }

  lemma StepKeeps<T>(z: Clients<T>, e: ClientStep)
    requires Inv(z.state) && CanStep(z, e)
    ensures Inv(AfterStep(z, e).state) && AfterStep(z, e).state.policy == z.state.policy
    ensures Covered(z.state) && NotifiesEveryWaiter(z.state.policy) ==> Covered(AfterStep(z, e).state)
  {
    hide Next, Inv, Covered;
    var ev := if e.Begin? then Event(e.thread, Call(z.todo[e.thread][0])) else Inner(e);
    NextInv(z.state, ev);
    if Covered(z.state) && NotifiesEveryWaiter(z.state.policy) { NextCovered(z.state, ev); }
  }

  lemma {:induction false} StepsDecrease<T>(z: Clients<T>, es: seq<ClientStep>)
    requires Inv(z.state) && WellSized(z) && ValidSteps(z, es)
    ensures Inv(AfterAll(z, es).state) && WellSized(AfterAll(z, es))
    ensures AfterAll(z, es).state.policy == z.state.policy
    ensures Covered(z.state) && NotifiesEveryWaiter(z.state.policy) ==> Covered(AfterAll(z, es).state)
    ensures |es| + Measure(AfterAll(z, es)) <= Measure(z)
    decreases |es|
  {
    hide Inv, Covered, CanStep, AfterStep, Measure;
    if es != [] {
      StepKeeps(z, es[0]);
      StepDecreases(z, es[0]);
      StepsDecrease(AfterStep(z, es[0]), es[1..]);
    }
  }

  ghost predicate Final(z: Clients) {
    forall e: ClientStep :: !CanStep(z, e)
  }

  ghost predicate Finished(z: Clients, t: nat)
    requires t < |z.todo| == |z.state.threads|
  {
    z.state.threads[t].Idle? && z.todo[t] == []
  }

  /** A pending `notify_one` can always be sent. */
  lemma CanNotify<T>(z: Clients<T>, t: nat)
    requires WellSized(z) && t < |z.todo| && z.state.threads[t].OwesOne?
    ensures exists e: ClientStep :: CanStep(z, e)
  {
    var s := z.state;
    if NobodyAsleep(s) {
      assert CanStep(z, Notify(t, t));
    } else {
      var w :| 0 <= w < |s.threads| && s.threads[w].Asleep?;
      assert CanStep(z, Notify(t, w));
    }
  }

  /** In a final state a thread has finished or sleeps, and nothing is pending. */
  lemma FinalThreads<T>(z: Clients<T>)
    requires Final(z) && WellSized(z)
    ensures forall t :: 0 <= t < |z.todo| ==> Finished(z, t) || z.state.threads[t].Asleep?
    ensures Debts(z.state) == Wakers(z.state) == CloseDebts(z.state) == 0
  {
    var s := z.state;
    forall t | 0 <= t < |z.todo| ensures Finished(z, t) || s.threads[t].Asleep? {
      assert !CanStep(z, Begin(t)) && !CanStep(z, Broadcast(t)) && !CanStep(z, Return(t));
      if s.threads[t].OwesOne? { CanNotify(z, t); }
    }
    CountZero(s.threads, IsOwingOne);
    CountZero(s.threads, IsOwingAll);
    CountZero(s.threads, IsWoken);
  }

  function Launch<T>(p: Policy, programs: seq<seq<Operation<T>>>): Clients<T> {
    Clients(Init(p, |programs|), programs)
  }

  /**
   Every run of finite client programs ends, under every policy: it has at most `threads + 4` steps
   per call. In a final state of MPMC versions 1 and 3, a thread that has not finished is asleep in
   `wait_pop` on a queue that is empty and not closed.
   */
  lemma {:induction false} DrainsOut<T>(p: Policy, programs: seq<seq<Operation<T>>>, es: seq<ClientStep>)
    requires ValidSteps(Launch(p, programs), es)
    ensures |es| <= (|programs| + 4) * CallsLeft(programs)
    ensures var z := AfterAll(Launch(p, programs), es);
      WellSized(z) &&
      (Final(z) && NotifiesEveryWaiter(p) ==>
        forall t :: 0 <= t < |z.todo| && !Finished(z, t) ==>
          z.state.threads[t].Asleep? && z.state.queue == [] && !z.state.closed)
  {
    var z0 := Launch(p, programs);
    InitInv<T>(p, |programs|);
    StepsDecrease(z0, es);
    var z := AfterAll(z0, es);
    MeasureNonNegative(z);
    assert Sum(Loads(z0.state.threads, |programs|)) == 0 by {
      NoLoad(z0.state.threads, |programs|);
    }
    if Final(z) && NotifiesEveryWaiter(p) {
      FinalThreads(z);
      forall t | 0 <= t < |z.todo| && !Finished(z, t)
        ensures z.state.threads[t].Asleep? && z.state.queue == [] && !z.state.closed
      {
        SomebodyAsleep(z.state);
      }
    }
  }

  lemma {:induction false} NoLoad<T>(ths: seq<Thread<T>>, n: nat)
    requires forall u :: 0 <= u < |ths| ==> ths[u].Idle?
    ensures Sum(Loads(ths, n)) == 0
  {
    if ths != [] {
      NoLoad(ths[1..], n);
      assert Loads(ths, n)[1..] == Loads(ths[1..], n);
    }
  }
}
