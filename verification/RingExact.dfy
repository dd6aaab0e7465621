/**
 Exactly when the bounded mutex queues with two condition variables leave a thread asleep for good: by
 version, capacity, and which calls how many threads make.
 */
module RingExact {
  import opened Counting
  import opened RingQueue
  import opened RingGuarantees
  import opened RingSoleWaiter
  import opened Wrappers

  /** An open queue holds a value, a consumer sleeps, and nothing under way will wake one. */
  ghost predicate StrandedC(s: State) {
    !s.closed && s.queue != [] && SleepersC(s) > 0 && DebtsC(s) == 0 && WakersC(s) == 0
  }

  /** An open queue has room, a producer sleeps, and nothing under way will wake one. */
  ghost predicate StrandedP(s: State) {
    !s.closed && |s.queue| < s.capacity && SleepersP(s) > 0 && DebtsP(s) == 0 && WakersP(s) == 0
  }

  /** Threads sleep on both sides and no wakeup is under way. */
  ghost predicate Deadlocked(s: State) {
    !s.closed && SleepersC(s) > 0 && SleepersP(s) > 0 &&
    DebtsC(s) == WakersC(s) == DebtsP(s) == WakersP(s) == 0
  }

  /** One place, one waiting consumer, or no value that arrives unannounced. */
  predicate ConsumersSafe(version: Version, capacity: nat, c: Usage) {
    capacity <= 1 || c.consumers <= 1 || (!c.tryPush && (version.V2? || c.producers == 0))
  }

  /** No waiting producer, or no place that comes free unannounced. */
  predicate ProducersSafe(version: Version, capacity: nat, c: Usage) {
    c.producers == 0 ||
    (!c.tryPop && (version.V2? || capacity <= 1 || c.producers <= 1 || c.consumers == 0))
  }

  ghost predicate ConsumersNeverStrand(version: Version, capacity: nat, c: Usage) {
    forall n: nat, es: seq<Event<int>> ::
      ValidRun(Init(version, capacity, n), es) && AllRespect(es, c) ==>
      !StrandedC(Exec(Init<int>(version, capacity, n), es))
  }

  ghost predicate ProducersNeverStrand(version: Version, capacity: nat, c: Usage) {
    forall n: nat, es: seq<Event<int>> ::
      ValidRun(Init(version, capacity, n), es) && AllRespect(es, c) ==>
      !StrandedP(Exec(Init<int>(version, capacity, n), es))
  }

  ghost predicate NeverDeadlocks(version: Version, capacity: nat, c: Usage) {
    forall n: nat, es: seq<Event<int>> ::
      ValidRun(Init(version, capacity, n), es) && AllRespect(es, c) ==>
      !Deadlocked(Exec(Init<int>(version, capacity, n), es))
  }

  // What the safe settings keep.

  lemma AllowedBy<T>(es: seq<Event<T>>, c: Usage)
    requires AllRespect(es, c)
    ensures AllAllowed(es, c.tryPush, true) && AllAllowed(es, true, c.tryPop)
  {
    assert forall i :: 0 <= i < |es| ==> Respects(es[i], c);
  }

  lemma NoWaiters<T>(s: State<T>, c: Usage)
    requires Waiters(s, c)
    ensures c.consumers == 0 ==> SleepersC(s) == 0
    ensures c.producers == 0 ==> SleepersP(s) == 0
  {
    AsleepCounts(s);
  }

  lemma {:induction false} SafeRun(version: Version, capacity: nat, c: Usage, n: nat, es: seq<Event<int>>)
    requires ValidRun(Init(version, capacity, n), es) && AllRespect(es, c)
    ensures ConsumersSafe(version, capacity, c) ==> !StrandedC(Exec(Init<int>(version, capacity, n), es))
    ensures ProducersSafe(version, capacity, c) ==> !StrandedP(Exec(Init<int>(version, capacity, n), es))
  {
    hide CoveredC, CoveredP, Inv, Waiters, OneSided;
    var s0 := Init<int>(version, capacity, n);
    InitInv<int>(version, capacity, n);
    StartState(version, capacity, c, n);
    AllowedBy(es, c);
    RunsAnswered(s0, es, c);
    RunsKeepInv(s0, es);
    var s := Exec(s0, es);
    NoWaiters(s, c);
    if CoversConsumers(version, capacity, c.tryPush) { RunsCoveredC(s0, es, c.tryPush); }
    if CoversProducers(version, capacity, c.tryPop) { RunsCoveredP(s0, es, c.tryPop); }
    Unstranded(s, c);
  }

  lemma StartState(version: Version, capacity: nat, c: Usage, n: nat)
    ensures var s := Init<int>(version, capacity, n);
      Waiters(s, c) && OneSided(s, c) && CoveredC(s) && CoveredP(s)
  {
    InitInv<int>(version, capacity, n);
  }

  lemma Unstranded(s: State<int>, c: Usage)
    requires Inv(s) && OneSided(s, c)
    ensures CoveredC(s) || AnsweredC(s) || (c.producers == 0 && !c.tryPush) ==> !StrandedC(s)
    ensures CoveredP(s) || AnsweredP(s) || (c.consumers == 0 && !c.tryPop) ==> !StrandedP(s)
  {
  }

  /** Both sides asleep with nothing pending strands a consumer or a producer. */
  lemma {:induction false} DeadlockStrands(version: Version, capacity: nat, c: Usage, n: nat, es: seq<Event<int>>)
    requires ValidRun(Init(version, capacity, n), es) && AllRespect(es, c)
    ensures var s := Exec(Init<int>(version, capacity, n), es);
      Deadlocked(s) ==> (StrandedC(s) || StrandedP(s)) && c.consumers > 0 && c.producers > 0
  {
    hide Inv, Waiters, OneSided;
    var s0 := Init<int>(version, capacity, n);
    InitInv<int>(version, capacity, n);
    StartState(version, capacity, c, n);
    RunsAnswered(s0, es, c);
    RunsKeepInv(s0, es);
    NoWaiters(Exec(s0, es), c);
    assert s0.capacity > 0;
  }

  // Building the runs of the unsafe settings.

  ghost predicate Reachable(c: Usage, s0: State<int>, s: State<int>) {
    exists es :: Reaches(s0, es, s) && AllRespect(es, c)
  }

  lemma ReachNext(c: Usage, s0: State<int>, s: State<int>, e: Event<int>)
    requires Reachable(c, s0, s) && Enabled(s, e) && Respects(e, c)
    ensures Reachable(c, s0, Next(s, e))
  {
    hide Enabled, Next, Respects;
    var es :| Reaches(s0, es, s) && AllRespect(es, c);
    Extend(s0, es, s, e);
    assert AllRespect(es + [e], c);
  }

  /** How many consumers and producers sleep, were woken, or are owed a notification. */
  datatype Tally = Tally(sleepC: nat, wokeC: nat, oweC: nat, sleepP: nat, wokeP: nat, oweP: nat)

  ghost function TallyOf(s: State): Tally {
    Tally(SleepersC(s), WakersC(s), DebtsC(s), SleepersP(s), WakersP(s), DebtsP(s))
  }

  ghost function Share(th: Thread): Tally {
    Tally(One(SleepsC(th)), One(WokeC(th)), One(OwesC(th)), One(SleepsP(th)), One(WokeP(th)), One(OwesP(th)))
  }

  /** `y` with a thread that counted as `a` now counting as `b`. */
  ghost predicate Shifted(y: Tally, a: Tally, b: Tally, y': Tally) {
    && y'.sleepC + a.sleepC == y.sleepC + b.sleepC && y'.sleepP + a.sleepP == y.sleepP + b.sleepP
    && y'.wokeC + a.wokeC == y.wokeC + b.wokeC && y'.wokeP + a.wokeP == y.wokeP + b.wokeP
    && y'.oweC + a.oweC == y.oweC + b.oweC && y'.oweP + a.oweP == y.oweP + b.oweP
  }

  /** A reachable open queue of `size` values with exact waiting counters. */
  ghost predicate Stage(c: Usage, s0: State<int>, s: State<int>, size: nat, y: Tally) {
    && Reachable(c, s0, s) && s.version == s0.version && s.capacity == s0.capacity
    && !s.closed && |s.queue| == size && TallyOf(s) == y
    && s.waitingConsumers == y.sleepC + y.wokeC && s.waitingProducers == y.sleepP + y.wokeP
  }

  lemma Recount(s: State<int>, t: nat, th: Thread<int>, s': State<int>)
    requires t < |s.threads| && s'.threads == s.threads[t := th]
    ensures Shifted(TallyOf(s), Share(s.threads[t]), Share(th), TallyOf(s'))
  {
    SetCounts(s, t, th);
    assert s'.threads == Set(s, t, th).threads;
  }

  /** An event that changes thread `t` alone leads to the next stage. */
  lemma Moves(c: Usage, s0: State<int>, s: State<int>, e: Event<int>, t: nat,
              size: nat, y: Tally, size': nat, y': Tally)
    requires Stage(c, s0, s, size, y) && Enabled(s, e) && Respects(e, c) && t < |s.threads|
    requires var s' := Next(s, e);
      && s'.threads == s.threads[t := s'.threads[t]]
      && !s'.closed && |s'.queue| == size' && Shifted(y, Share(s.threads[t]), Share(s'.threads[t]), y')
      && s'.waitingConsumers == y'.sleepC + y'.wokeC && s'.waitingProducers == y'.sleepP + y'.wokeP
    ensures Stage(c, s0, Next(s, e), size', y')
  {
    hide Enabled, Next, Respects, Reachable, TallyOf, Share;
    ReachNext(c, s0, s, e);
    NextShape(s, e);
    Recount(s, t, Next(s, e).threads[t], Next(s, e));
    SameTally(TallyOf(s), Share(s.threads[t]), Share(Next(s, e).threads[t]), y', TallyOf(Next(s, e)));
  }

  lemma SameTally(y: Tally, a: Tally, b: Tally, y': Tally, y'': Tally)
    requires Shifted(y, a, b, y') && Shifted(y, a, b, y'')
    ensures y' == y''
  {
  }

  /** `push` on a full queue, or `wait_pop` on an empty one. */
  lemma FallsAsleep(c: Usage, s0: State<int>, s: State<int>, t: nat, size: nat, y: Tally) returns (s': State<int>)
    requires Stage(c, s0, s, size, y) && (size == 0 || size == s.capacity) && s.capacity > 0
    requires t < |s.threads| && s.threads[t].Idle? && (if size == 0 then IsConsumer(c, t) else IsProducer(c, t))
    ensures Stage(c, s0, s', size, if size == 0 then y.(sleepC := y.sleepC + 1) else y.(sleepP := y.sleepP + 1))
    ensures s'.threads == s.threads[t := if size == 0 then AsleepConsumer else AsleepProducer(9)]
  {
    hide Reachable, TallyOf;
    var e: Event<int> := Event(t, Call(if size == 0 then WaitPop else Push(9)));
    s' := Next(s, e);
    Moves(c, s0, s, e, t, size, y, size, if size == 0 then y.(sleepC := y.sleepC + 1) else y.(sleepP := y.sleepP + 1));
  }

  /** `push` with room. */
  lemma PushEnters(c: Usage, s0: State<int>, s: State<int>, t: nat, size: nat, y: Tally) returns (s': State<int>)
    requires Stage(c, s0, s, size, y) && size < s.capacity
    requires t < |s.threads| && s.threads[t].Idle? && IsProducer(c, t)
    ensures var owes := s.version.V2? || (size == 0 && y.sleepC + y.wokeC > 0);
      && Stage(c, s0, s', size + 1, y.(oweC := y.oweC + One(owes)))
      && s'.threads == s.threads[t := if owes then OwesConsumer else Idle(PushResult(true))]
  {
    hide Reachable, TallyOf;
    var e: Event<int> := Event(t, Call(Push(7)));
    var owes := s.version.V2? || (size == 0 && y.sleepC + y.wokeC > 0);
    s' := Next(s, e);
    Moves(c, s0, s, e, t, size, y, size + 1, y.(oweC := y.oweC + One(owes)));
  }

  /** `try_push` of version 3 on an empty queue with somebody waiting. */
  lemma TryPushAnnounces(c: Usage, s0: State<int>, s: State<int>, t: nat, y: Tally) returns (s': State<int>)
    requires Stage(c, s0, s, 0, y) && 0 < s.capacity && s.version.V3? && y.sleepC + y.wokeC > 0
    requires t < |s.threads| && s.threads[t].Idle? && c.tryPush
    ensures Stage(c, s0, s', 1, y.(oweC := y.oweC + 1)) && s'.threads == s.threads[t := OwesConsumer]
  {
    hide Reachable, TallyOf;
    var e: Event<int> := Event(t, Call(TryPush(7, t)));
    s' := Next(s, e);
    Moves(c, s0, s, e, t, 0, y, 1, y.(oweC := y.oweC + 1));
  }

  /** A value joins others without a notification: `try_push`, or `push` of version 3. */
  lemma Joins(c: Usage, s0: State<int>, s: State<int>, t: nat, size: nat, y: Tally) returns (s': State<int>)
    requires Stage(c, s0, s, size, y) && 0 < size < s.capacity && t < |s.threads| && s.threads[t].Idle?
    requires c.tryPush || (s.version.V3? && IsProducer(c, t))
    ensures Stage(c, s0, s', size + 1, y) && s'.threads == s.threads[t := Idle(PushResult(true))]
  {
    hide Reachable, TallyOf;
    var e: Event<int> := Event(t, Call(if c.tryPush then TryPush(7, t) else Push(7)));
    s' := Next(s, e);
    Moves(c, s0, s, e, t, size, y, size + 1, y);
  }

  lemma {:induction false} JoinUntilFull(c: Usage, s0: State<int>, s: State<int>, t: nat, size: nat, y: Tally)
    returns (s': State<int>)
    requires Stage(c, s0, s, size, y) && 0 < size <= s.capacity && t < |s.threads| && s.threads[t].Idle?
    requires c.tryPush || (s.version.V3? && IsProducer(c, t))
    ensures Stage(c, s0, s', s.capacity, y) && |s'.threads| == |s.threads| && s'.threads[t].Idle?
    ensures forall u :: 0 <= u < |s.threads| && u != t ==> s'.threads[u] == s.threads[u]
    decreases s.capacity - size
  {
    hide Reachable, TallyOf;
    if size == s.capacity {
      s' := s;
    } else {
      s' := Joins(c, s0, s, t, size, y);
      s' := JoinUntilFull(c, s0, s', t, size + 1, y);
    }
  }

  /** `wait_pop` with a value, called or after waking. */
  lemma PopLeaves(c: Usage, s0: State<int>, s: State<int>, t: nat, size: nat, y: Tally)
    returns (s': State<int>, th: Thread<int>)
    requires Stage(c, s0, s, size, y) && 0 < size && t < |s.threads|
    requires (s.threads[t].Idle? && IsConsumer(c, t)) || (s.threads[t].WokenConsumer? && y.wokeC > 0)
    ensures var owes := s.version.V2? || (size == s.capacity && y.sleepP + y.wokeP > 0);
      && Stage(c, s0, s', size - 1,
               y.(wokeC := y.wokeC - One(s.threads[t].WokenConsumer?), oweP := y.oweP + One(owes)))
      && (if owes then th.OwesProducer? else th.Idle?) && s'.threads == s.threads[t := th]
  {
    hide Reachable, TallyOf;
    var e: Event<int> := Event(t, if s.threads[t].Idle? then Call(WaitPop) else Relock);
    var owes := s.version.V2? || (size == s.capacity && y.sleepP + y.wokeP > 0);
    s' := Next(s, e);
    th := s'.threads[t];
    Moves(c, s0, s, e, t, size, y, size - 1,
          y.(wokeC := y.wokeC - One(s.threads[t].WokenConsumer?), oweP := y.oweP + One(owes)));
  }

  /** A value leaves a queue that is not full without a notification: `try_pop`, or `wait_pop` of version 3. */
  lemma LeavesQuietly(c: Usage, s0: State<int>, s: State<int>, t: nat, size: nat, y: Tally) returns (s': State<int>)
    requires Stage(c, s0, s, size, y) && 0 < size && t < |s.threads| && s.threads[t].Idle?
    requires c.tryPop || (s.version.V3? && size < s.capacity && IsConsumer(c, t))
    ensures Stage(c, s0, s', size - 1, y) && |s'.threads| == |s.threads| && s'.threads[t].Idle?
    ensures forall u :: 0 <= u < |s.threads| && u != t ==> s'.threads[u] == s.threads[u]
  {
    hide Reachable, TallyOf;
    var e: Event<int> := Event(t, Call(if c.tryPop then TryPop else WaitPop));
    s' := Next(s, e);
    Moves(c, s0, s, e, t, size, y, size - 1, y);
  }

  lemma {:induction false} DrainQuietly(c: Usage, s0: State<int>, s: State<int>, t: nat, size: nat, y: Tally)
    returns (s': State<int>)
    requires Stage(c, s0, s, size, y) && size < s.capacity && t < |s.threads| && s.threads[t].Idle?
    requires c.tryPop || (s.version.V3? && IsConsumer(c, t))
    ensures Stage(c, s0, s', 0, y) && |s'.threads| == |s.threads| && s'.threads[t].Idle?
    decreases size
  {
    hide Reachable, TallyOf;
    if size == 0 {
      s' := s;
    } else {
      s' := LeavesQuietly(c, s0, s, t, size, y);
      s' := DrainQuietly(c, s0, s', t, size - 1, y);
    }
  }

  /** A notification sent while no consumer sleeps. */
  lemma NotifiesNobody(c: Usage, s0: State<int>, s: State<int>, t: nat, size: nat, y: Tally) returns (s': State<int>)
    requires Stage(c, s0, s, size, y) && t < |s.threads| && s.threads[t].OwesConsumer? && y.sleepC == 0 < y.oweC
    ensures Stage(c, s0, s', size, y.(oweC := y.oweC - 1)) && s'.threads == s.threads[t := Idle(PushResult(true))]
  {
    AsleepCounts(s);
    assert NoConsumerAsleep(s);
    hide Reachable, TallyOf;
    var e: Event<int> := Event(t, NotifyOne(t));
    s' := Next(s, e);
    Moves(c, s0, s, e, t, size, y, size, y.(oweC := y.oweC - 1));
  }

  /** A notification that wakes consumer `w`. */
  lemma NotifiesConsumer(c: Usage, s0: State<int>, s: State<int>, t: nat, w: nat, size: nat, y: Tally)
    returns (s': State<int>)
    requires Stage(c, s0, s, size, y) && t < |s.threads| && w < |s.threads|
    requires s.threads[t].OwesConsumer? && s.threads[w].AsleepConsumer? && y.sleepC > 0 && y.oweC > 0
    ensures Stage(c, s0, s', size, y.(sleepC := y.sleepC - 1, wokeC := y.wokeC + 1, oweC := y.oweC - 1))
    ensures s'.threads == s.threads[w := WokenConsumer][t := Idle(PushResult(true))]
  {
    hide Reachable;
    s' := Next(s, Event(t, NotifyOne(w)));
    ReachNext(c, s0, s, Event(t, NotifyOne(w)));
    SetCounts(s, w, WokenConsumer);
    SetCounts(Set(s, w, WokenConsumer), t, Idle(PushResult(true)));
  }

  /** A notification that wakes producer `w`. */
  lemma NotifiesProducer(c: Usage, s0: State<int>, s: State<int>, t: nat, w: nat, size: nat, y: Tally)
    returns (s': State<int>)
    requires Stage(c, s0, s, size, y) && t < |s.threads| && w < |s.threads|
    requires s.threads[t].OwesProducer? && s.threads[w].AsleepProducer? && y.sleepP > 0 && y.oweP > 0
    ensures Stage(c, s0, s', size, y.(sleepP := y.sleepP - 1, wokeP := y.wokeP + 1, oweP := y.oweP - 1))
    ensures |s'.threads| == |s.threads| && s'.threads[t].Idle? && s'.threads[w].WokenProducer?
    ensures forall u :: 0 <= u < |s.threads| && u != t && u != w ==> s'.threads[u] == s.threads[u]
  {
    hide Reachable;
    var th := WokenProducer(s.threads[w].value);
    s' := Next(s, Event(t, NotifyOne(w)));
    ReachNext(c, s0, s, Event(t, NotifyOne(w)));
    SetCounts(s, w, th);
    SetCounts(Set(s, w, th), t, Idle(PopResult(Some(s.threads[t].out))));
  }

  /** `try_push` of version 2 on an empty queue wakes consumer `w` under the lock. */
  lemma TryPushWakes(c: Usage, s0: State<int>, s: State<int>, t: nat, w: nat, y: Tally) returns (s': State<int>)
    requires Stage(c, s0, s, 0, y) && s.version.V2? && s.capacity > 0 && c.tryPush && y.sleepC > 0
    requires t < |s.threads| && w < |s.threads| && s.threads[t].Idle? && s.threads[w].AsleepConsumer?
    ensures Stage(c, s0, s', 1, y.(sleepC := y.sleepC - 1, wokeC := y.wokeC + 1))
    ensures s'.threads == s.threads[w := WokenConsumer][t := Idle(PushResult(true))]
  {
    hide Reachable;
    s' := Next(s, Event(t, Call(TryPush(7, w))));
    ReachNext(c, s0, s, Event(t, Call(TryPush(7, w))));
    SetCounts(s, w, WokenConsumer);
    SetCounts(Set(s, w, WokenConsumer), t, Idle(PushResult(true)));
  }

  /** A woken producer of version 3 finds room and tells nobody: values are there, or nobody waits. */
  lemma ProducerReturns(c: Usage, s0: State<int>, s: State<int>, t: nat, size: nat, y: Tally) returns (s': State<int>)
    requires Stage(c, s0, s, size, y) && size < s.capacity && s.version.V3? && y.wokeP > 0
    requires t < |s.threads| && s.threads[t].WokenProducer? && (size > 0 || y.sleepC + y.wokeC == 0)
    ensures Stage(c, s0, s', size + 1, y.(wokeP := y.wokeP - 1))
    ensures s'.threads == s.threads[t := Idle(PushResult(true))]
  {
    hide Reachable, TallyOf;
    s' := Next(s, Event(t, Relock));
    Moves(c, s0, s, Event(t, Relock), t, size, y, size + 1, y.(wokeP := y.wokeP - 1));
  }

  /** A woken producer finds the queue full again. */
  lemma ProducerSleepsAgain(c: Usage, s0: State<int>, s: State<int>, t: nat, y: Tally) returns (s': State<int>)
    requires Stage(c, s0, s, s.capacity, y) && y.wokeP > 0 && t < |s.threads| && s.threads[t].WokenProducer?
    ensures Stage(c, s0, s', s.capacity, y.(wokeP := y.wokeP - 1, sleepP := y.sleepP + 1))
  {
    hide Reachable, TallyOf;
    s' := Next(s, Event(t, Relock));
    Moves(c, s0, s, Event(t, Relock), t, s.capacity, y, s.capacity, y.(wokeP := y.wokeP - 1, sleepP := y.sleepP + 1));
  }

  const NOBODY := Tally(0, 0, 0, 0, 0, 0)

  lemma Opens(c: Usage, version: Version, capacity: nat, n: nat)
    ensures var s := Init<int>(version, capacity, n); Stage(c, s, s, 0, NOBODY)
  {
    var s := Init<int>(version, capacity, n);
    InitInv<int>(version, capacity, n);
    var es: seq<Event<int>> := [];
    assert Reaches(s, es, s) && AllRespect(es, c);
  }

  /** Pushes by thread `t` alone fill the queue to `k` values and leave nobody waiting. */
  lemma {:induction false} Fill(c: Usage, version: Version, capacity: nat, n: nat, t: nat, k: nat)
    returns (s: State<int>)
    requires t < n && IsProducer(c, t) && k <= Init<int>(version, capacity, n).capacity
    ensures Stage(c, Init(version, capacity, n), s, k, NOBODY) && |s.threads| == n
    ensures forall u :: 0 <= u < n ==> s.threads[u].Idle?
  {
    hide Stage;
    var s0 := Init<int>(version, capacity, n);
    if k == 0 {
      Opens(c, version, capacity, n);
      s := s0;
    } else {
      s := Fill(c, version, capacity, n, t, k - 1);
      StageKeeps(c, s0, s, k - 1, NOBODY);
      s := PushEnters(c, s0, s, t, k - 1, NOBODY);
      if version.V2? {
        s := NotifiesNobody(c, s0, s, t, k, NOBODY.(oweC := 1));
      }
    }
  }

  lemma StageKeeps(c: Usage, s0: State<int>, s: State<int>, size: nat, y: Tally)
    requires Stage(c, s0, s, size, y)
    ensures s.version == s0.version && s.capacity == s0.capacity
  {
  }

  // A place comes free and a producer is left beside it.

  /** With `try_pop`: the only producer sleeps on a full queue and another thread takes a value. */
  lemma StrandByTryPop(c: Usage, version: Version, capacity: nat) returns (s: State<int>)
    requires c.tryPop && c.producers > 0
    ensures var s0 := Init<int>(version, capacity, c.consumers + 2);
      && Stage(c, s0, s, s0.capacity - 1, NOBODY.(sleepP := 1)) && |s.threads| == c.consumers + 2
    ensures forall u :: 0 <= u < c.consumers ==> s.threads[u].Idle?
  {
    hide Stage;
    var s0, p := Init<int>(version, capacity, c.consumers + 2), c.consumers;
    s := Fill(c, version, capacity, p + 2, p, s0.capacity);
    StageKeeps(c, s0, s, s0.capacity, NOBODY);
    s := FallsAsleep(c, s0, s, p, s0.capacity, NOBODY);
    s := LeavesQuietly(c, s0, s, p + 1, s0.capacity, NOBODY.(sleepP := 1));
  }

  /** Two producers of version 3 sleep; a pop wakes one, a second pop tells nobody, and the woken one leaves. */
  lemma StrandByLeaving(c: Usage, capacity: nat) returns (s: State<int>)
    requires capacity >= 2 && c.consumers > 0 && c.producers >= 2 && !c.tryPop
    ensures var s0 := Init<int>(V3, capacity, c.consumers + 2);
      && Stage(c, s0, s, s0.capacity - 1, NOBODY.(sleepP := 1)) && |s.threads| == c.consumers + 2
    ensures forall u :: 0 <= u < c.consumers ==> s.threads[u].Idle?
  {
    hide Stage;
    var s0, p := Init<int>(V3, capacity, c.consumers + 2), c.consumers;
    s := Fill(c, V3, capacity, p + 2, p, capacity);
    StageKeeps(c, s0, s, capacity, NOBODY);
    s := FallsAsleep(c, s0, s, p, capacity, NOBODY);
    StageKeeps(c, s0, s, capacity, NOBODY.(sleepP := 1));
    s := FallsAsleep(c, s0, s, p + 1, capacity, NOBODY.(sleepP := 1));
    StageKeeps(c, s0, s, capacity, NOBODY.(sleepP := 2));
    var th;
    s, th := PopLeaves(c, s0, s, 0, capacity, NOBODY.(sleepP := 2));
    s := NotifiesProducer(c, s0, s, 0, p, capacity - 1, NOBODY.(sleepP := 2, oweP := 1));
    StageKeeps(c, s0, s, capacity - 1, NOBODY.(sleepP := 1, wokeP := 1));
    s := LeavesQuietly(c, s0, s, 0, capacity - 1, NOBODY.(sleepP := 1, wokeP := 1));
    StageKeeps(c, s0, s, capacity - 2, NOBODY.(sleepP := 1, wokeP := 1));
    s := ProducerReturns(c, s0, s, p, capacity - 2, NOBODY.(sleepP := 1, wokeP := 1));
  }

  lemma StrandProducer(version: Version, capacity: nat, c: Usage) returns (s: State<int>)
    requires !ProducersSafe(version, capacity, c)
    ensures var s0 := Init<int>(version, capacity, c.consumers + 2);
      && Stage(c, s0, s, s0.capacity - 1, NOBODY.(sleepP := 1)) && |s.threads| == c.consumers + 2
    ensures forall u :: 0 <= u < c.consumers ==> s.threads[u].Idle?
  {
    if c.tryPop { s := StrandByTryPop(c, version, capacity); } else { s := StrandByLeaving(c, capacity); }
  }

  /** From there a consumer empties the queue, telling nobody, and goes to sleep as well. */
  lemma DeadlockAfterProducer(version: Version, capacity: nat, c: Usage) returns (s: State<int>)
    requires !ProducersSafe(version, capacity, c) && c.consumers > 0
    ensures Stage(c, Init(version, capacity, c.consumers + 2), s, 0, NOBODY.(sleepP := 1, sleepC := 1))
  {
    hide Stage;
    var s0 := Init<int>(version, capacity, c.consumers + 2);
    s := StrandProducer(version, capacity, c);
    StageKeeps(c, s0, s, s0.capacity - 1, NOBODY.(sleepP := 1));
    s := DrainQuietly(c, s0, s, 0, s0.capacity - 1, NOBODY.(sleepP := 1));
    StageKeeps(c, s0, s, 0, NOBODY.(sleepP := 1));
    s := FallsAsleep(c, s0, s, 0, 0, NOBODY.(sleepP := 1));
  }

  // A value comes unannounced and a consumer is left beside it.

  /** Two consumers sleep and the first value wakes one of them. */
  lemma OneConsumerWoken(version: Version, capacity: nat, c: Usage) returns (s: State<int>)
    requires !ConsumersSafe(version, capacity, c)
    ensures Stage(c, Init(version, capacity, c.consumers + 1), s, 1, NOBODY.(sleepC := 1, wokeC := 1))
    ensures |s.threads| == c.consumers + 1 && s.threads[0].WokenConsumer? && s.threads[c.consumers].Idle?
  {
    hide Stage;
    var s0, p := Init<int>(version, capacity, c.consumers + 1), c.consumers;
    Opens(c, version, capacity, p + 1);
    s := FallsAsleep(c, s0, s0, 0, 0, NOBODY);
    StageKeeps(c, s0, s, 0, NOBODY.(sleepC := 1));
    s := FallsAsleep(c, s0, s, 1, 0, NOBODY.(sleepC := 1));
    StageKeeps(c, s0, s, 0, NOBODY.(sleepC := 2));
    if version.V2? {
      s := TryPushWakes(c, s0, s, p, 0, NOBODY.(sleepC := 2));
    } else {
      if c.tryPush {
        s := TryPushAnnounces(c, s0, s, p, NOBODY.(sleepC := 2));
      } else {
        s := PushEnters(c, s0, s, p, 0, NOBODY.(sleepC := 2));
      }
      s := NotifiesConsumer(c, s0, s, p, 0, 1, NOBODY.(sleepC := 2, oweC := 1));
    }
  }

  /** A second value joins, and the woken consumer leaves with the first. */
  lemma StrandConsumer(version: Version, capacity: nat, c: Usage) returns (s: State<int>, owed: nat)
    requires !ConsumersSafe(version, capacity, c)
    ensures Stage(c, Init(version, capacity, c.consumers + 1), s, 1, NOBODY.(sleepC := 1, oweP := owed))
  {
    hide Stage;
    var s0 := Init<int>(version, capacity, c.consumers + 1);
    s := OneConsumerWoken(version, capacity, c);
    StageKeeps(c, s0, s, 1, NOBODY.(sleepC := 1, wokeC := 1));
    s := Joins(c, s0, s, c.consumers, 1, NOBODY.(sleepC := 1, wokeC := 1));
    StageKeeps(c, s0, s, 2, NOBODY.(sleepC := 1, wokeC := 1));
    var th;
    s, th := PopLeaves(c, s0, s, 0, 2, NOBODY.(sleepC := 1, wokeC := 1));
    owed := One(version.V2?);
  }

  /** The queue fills up behind the woken consumer, the producer sleeps, and the consumer wakes it and leaves. */
  lemma ProducerWoken(version: Version, capacity: nat, c: Usage) returns (s: State<int>)
    requires !ConsumersSafe(version, capacity, c) && c.producers > 0
    ensures Stage(c, Init(version, capacity, c.consumers + 1), s, capacity - 1, NOBODY.(sleepC := 1, wokeP := 1))
    ensures |s.threads| == c.consumers + 1 && s.threads[0].Idle? && s.threads[c.consumers].WokenProducer?
  {
    hide Stage;
    var s0, p := Init<int>(version, capacity, c.consumers + 1), c.consumers;
    s := OneConsumerWoken(version, capacity, c);
    StageKeeps(c, s0, s, 1, NOBODY.(sleepC := 1, wokeC := 1));
    s := JoinUntilFull(c, s0, s, p, 1, NOBODY.(sleepC := 1, wokeC := 1));
    StageKeeps(c, s0, s, capacity, NOBODY.(sleepC := 1, wokeC := 1));
    s := FallsAsleep(c, s0, s, p, capacity, NOBODY.(sleepC := 1, wokeC := 1));
    StageKeeps(c, s0, s, capacity, NOBODY.(sleepC := 1, wokeC := 1, sleepP := 1));
    var th;
    s, th := PopLeaves(c, s0, s, 0, capacity, NOBODY.(sleepC := 1, wokeC := 1, sleepP := 1));
    s := NotifiesProducer(c, s0, s, 0, p, capacity - 1, NOBODY.(sleepC := 1, sleepP := 1, oweP := 1));
  }

  /** The queue fills up again unannounced and the producer goes back to sleep. */
  lemma DeadlockAfterConsumer(version: Version, capacity: nat, c: Usage) returns (s: State<int>)
    requires !ConsumersSafe(version, capacity, c) && c.producers > 0
    ensures Stage(c, Init(version, capacity, c.consumers + 1), s, capacity, NOBODY.(sleepC := 1, sleepP := 1))
  {
    hide Stage;
    var s0, p := Init<int>(version, capacity, c.consumers + 1), c.consumers;
    s := ProducerWoken(version, capacity, c);
    StageKeeps(c, s0, s, capacity - 1, NOBODY.(sleepC := 1, wokeP := 1));
    if c.tryPush {
      s := Joins(c, s0, s, 0, capacity - 1, NOBODY.(sleepC := 1, wokeP := 1));
      StageKeeps(c, s0, s, capacity, NOBODY.(sleepC := 1, wokeP := 1));
      s := ProducerSleepsAgain(c, s0, s, p, NOBODY.(sleepC := 1, wokeP := 1));
    } else {
      s := ProducerReturns(c, s0, s, p, capacity - 1, NOBODY.(sleepC := 1, wokeP := 1));
      StageKeeps(c, s0, s, capacity, NOBODY.(sleepC := 1));
      s := FallsAsleep(c, s0, s, p, capacity, NOBODY.(sleepC := 1));
    }
  }

  /** The run that leads to a stage. */
  lemma RunTo(c: Usage, s0: State<int>, s: State<int>, size: nat, y: Tally) returns (es: seq<Event<int>>)
    requires Stage(c, s0, s, size, y)
    ensures ValidRun(s0, es) && AllRespect(es, c) && Exec(s0, es) == s
    ensures y.sleepC > 0 && y.wokeC == y.oweC == 0 && size > 0 ==> StrandedC(s)
    ensures y.sleepP > 0 && y.wokeP == y.oweP == 0 && size < s0.capacity ==> StrandedP(s)
    ensures y.sleepC > 0 && y.sleepP > 0 && y.wokeC == y.oweC == y.wokeP == y.oweP == 0 ==> Deadlocked(s)
  {
    es :| Reaches(s0, es, s) && AllRespect(es, c);
  }

  // The runs, with as few threads as they need.

  /** `try_pop` makes room for a sleeping producer and tells nobody, in both versions at any capacity. */
  lemma TryPopStrands(version: Version, capacity: nat) returns (es: seq<Event<int>>)
    ensures ValidRun(Init(version, capacity, 2), es) && AllRespect(es, Usage(false, true, 0, 1))
    ensures StrandedP(Exec(Init(version, capacity, 2), es))
  {
    var c, s0 := Usage(false, true, 0, 1), Init<int>(version, capacity, 2);
    var s := StrandByTryPop(c, version, capacity);
    es := RunTo(c, s0, s, s0.capacity - 1, NOBODY.(sleepP := 1));
  }

  /**
   A woken consumer leaves with one of two values while another sleeps, by `push` in version 3 and by
   `try_push` in version 2.
   */
  lemma LeavingConsumerStrands(version: Version, capacity: nat) returns (es: seq<Event<int>>)
    requires capacity >= 2
    ensures ValidRun(Init(version, capacity, 3), es) && AllRespect(es, Usage(version.V2?, false, 2, 1))
    ensures StrandedC(Exec(Init(version, capacity, 3), es))
  {
    var c := Usage(version.V2?, false, 2, 1);
    var s, owed := StrandConsumer(version, capacity, c);
    es := RunTo(c, Init(version, capacity, 3), s, 1, NOBODY.(sleepC := 1, oweP := owed));
  }

  /**
   With producers that finish, version 3 can stop for good at any capacity of two or more: one
   producer has pushed its last value, the other sleeps on `not_full`, and the consumer has emptied
   the queue and sleeps on `not_empty`.
   */
  lemma FinishingProducersDeadlock(capacity: nat) returns (es: seq<Event<int>>)
    requires capacity >= 2
    ensures ValidRun(Init(V3, capacity, 3), es) && AllRespect(es, Usage(false, false, 1, 2))
    ensures Deadlocked(Exec(Init(V3, capacity, 3), es))
  {
    var c := Usage(false, false, 1, 2);
    var s := DeadlockAfterProducer(V3, capacity, c);
    es := RunTo(c, Init(V3, capacity, 3), s, 0, NOBODY.(sleepP := 1, sleepC := 1));
  }

  /** The mirror image: one consumer has finished, the other sleeps, and the producer sleeps on a full queue. */
  lemma FinishingConsumersDeadlock(capacity: nat) returns (es: seq<Event<int>>)
    requires capacity >= 2
    ensures ValidRun(Init(V3, capacity, 3), es) && AllRespect(es, Usage(false, false, 2, 1))
    ensures Deadlocked(Exec(Init(V3, capacity, 3), es))
  {
    var c := Usage(false, false, 2, 1);
    var s := DeadlockAfterConsumer(V3, capacity, c);
    es := RunTo(c, Init(V3, capacity, 3), s, capacity, NOBODY.(sleepC := 1, sleepP := 1));
  }

  // The results.

  /**
   A consumer can be left asleep on a non-empty open queue with no wakeup under way exactly when the
   queue holds two or more, at least two threads call `wait_pop`, and values arrive unannounced: by
   `try_push`, or by a `push` of version 3.
   */
  lemma ConsumersNeverStrandIff(version: Version, capacity: nat, c: Usage)
    ensures ConsumersNeverStrand(version, capacity, c) <==> ConsumersSafe(version, capacity, c)
  {
    if ConsumersSafe(version, capacity, c) {
      forall n: nat, es: seq<Event<int>> | ValidRun(Init(version, capacity, n), es) && AllRespect(es, c)
        ensures !StrandedC(Exec(Init<int>(version, capacity, n), es))
      {
        SafeRun(version, capacity, c, n, es);
      }
    } else {
      var s, owed := StrandConsumer(version, capacity, c);
      var es := RunTo(c, Init(version, capacity, c.consumers + 1), s, 1, NOBODY.(sleepC := 1, oweP := owed));
    }
  }

  /**
   A producer can be left asleep beside free space with no wakeup under way exactly when some thread
   calls `push` and either `try_pop` is used, or version 3 runs with two or more places, at least two
   threads that call `push` and one that calls `wait_pop`.
   */
  lemma ProducersNeverStrandIff(version: Version, capacity: nat, c: Usage)
    ensures ProducersNeverStrand(version, capacity, c) <==> ProducersSafe(version, capacity, c)
  {
    if ProducersSafe(version, capacity, c) {
      forall n: nat, es: seq<Event<int>> | ValidRun(Init(version, capacity, n), es) && AllRespect(es, c)
        ensures !StrandedP(Exec(Init<int>(version, capacity, n), es))
      {
        SafeRun(version, capacity, c, n, es);
      }
    } else {
      var s0 := Init<int>(version, capacity, c.consumers + 2);
      var s := StrandProducer(version, capacity, c);
      var es := RunTo(c, s0, s, s0.capacity - 1, NOBODY.(sleepP := 1));
    }
  }

  /**
   Deadlock, with threads asleep on both sides of an open queue and no wakeup under way, is possible
   exactly when there are threads on both sides and one of the sides can be stranded.
   */
  lemma NeverDeadlocksIff(version: Version, capacity: nat, c: Usage)
    ensures NeverDeadlocks(version, capacity, c) <==>
      c.consumers == 0 || c.producers == 0 ||
      (ConsumersSafe(version, capacity, c) && ProducersSafe(version, capacity, c))
  {
    if c.consumers == 0 || c.producers == 0 ||
       (ConsumersSafe(version, capacity, c) && ProducersSafe(version, capacity, c)) {
      forall n: nat, es: seq<Event<int>> | ValidRun(Init(version, capacity, n), es) && AllRespect(es, c)
        ensures !Deadlocked(Exec(Init<int>(version, capacity, n), es))
      {
        SafeRun(version, capacity, c, n, es);
        DeadlockStrands(version, capacity, c, n, es);
      }
    } else if !ProducersSafe(version, capacity, c) {
      var s := DeadlockAfterProducer(version, capacity, c);
      var es := RunTo(c, Init(version, capacity, c.consumers + 2), s, 0, NOBODY.(sleepP := 1, sleepC := 1));
    } else {
      var s := DeadlockAfterConsumer(version, capacity, c);
      var es := RunTo(c, Init(version, capacity, c.consumers + 1), s, capacity, NOBODY.(sleepC := 1, sleepP := 1));
    }
  }

  /**
   With `push`, `wait_pop` and `close` only, and threads that call each of the first two: no deadlock
   if and only if it is version 2, there is a single place, or one thread pushes and one pops.
   */
  lemma BlockingCallsNeverDeadlockIff(version: Version, capacity: nat, consumers: nat, producers: nat)
    requires consumers > 0 && producers > 0
    ensures NeverDeadlocks(version, capacity, Usage(false, false, consumers, producers)) <==>
      version.V2? || capacity <= 1 || (consumers == 1 && producers == 1)
  {
    NeverDeadlocksIff(version, capacity, Usage(false, false, consumers, producers));
  }
}
