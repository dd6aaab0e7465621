/** What each notification policy of the deque queues guarantees to threads asleep in `wait_pop`. */
module WaitGuarantees {
  import opened Counting
  import opened WaitQueue

  // The counting guarantee: notify on every push, or whenever somebody waits.

  /** While anybody sleeps, every queued value has a pending notification or an awake waiter of its own. */
  ghost predicate Covered(s: State) {
    Sleepers(s) > 0 ==> |s.queue| <= Debts(s) + Wakers(s)
  }

  predicate NotifiesEveryWaiter(p: Policy) { p.Always? || p.OnWaiters? }

  lemma WaitPopCovered<T>(s: State<T>, t: nat)
    requires t < |s.threads| && (s.threads[t].Idle? || s.threads[t].Woken?) && Covered(s)
    ensures Covered(WaitPopStep(s, t))
  {
    SetCounts(s, t, WaitPopStep(s, t).threads[t]);
  }

  lemma NotifyOneCovered<T>(s: State<T>, t: nat, w: nat)
    requires Enabled(s, Event(t, NotifyOne(w))) && Covered(s)
    ensures Covered(NotifyOneStep(s, t, w))
  {
    var s' := if s.threads[w].Asleep? then Set(s, w, Woken) else s;
    if s.threads[w].Asleep? { SetCounts(s, w, Woken); }
    SetCounts(s', t, Idle(PushResult(true)));
    SomebodyAsleep(s);
  }

  lemma PushCovered<T>(s: State<T>, t: nat, v: T)
    requires t < |s.threads| && s.threads[t].Idle? && Inv(s) && Covered(s) && NotifiesEveryWaiter(s.policy)
    ensures Covered(PushStep(s, t, v))
  {
    SetCounts(s, t, PushStep(s, t, v).threads[t]);
    SleepersInside(s);
  }

  lemma SleepersInside<T>(s: State<T>)
    ensures Sleepers(s) <= Inside(s)
  {
    CountMonotone(s.threads, IsAsleep, InWait);
  }

  lemma NextCovered<T>(s: State<T>, e: Event<T>)
    requires Inv(s) && Covered(s) && Enabled(s, e) && NotifiesEveryWaiter(s.policy)
    ensures Covered(Next(s, e))
  {
    hide Inv, WaitPopStep, PushStep;
    var t := e.thread;
    match e.action
    case Call(Push(v)) => PushCovered(s, t, v);
    case Call(WaitPop) => WaitPopCovered(s, t);
    case Call(TryPop) => SetCounts(s, t, TryPopStep(s, t).threads[t]);
    case Call(Close) => SetCounts(s, t, OwesAll);
    case NotifyOne(w) => NotifyOneCovered(s, t, w);
    case NotifyAll => NotifyAllQuiets(s, t);
    case WakeSpuriously => SetCounts(s, t, Woken);
    case Relock => WaitPopCovered(s.(waiting := if s.waiting > 0 then s.waiting - 1 else 0), t);
  }

  lemma NotifyAllQuiets<T>(s: State<T>, t: nat)
    requires t < |s.threads| && s.threads[t].OwesAll?
    ensures Sleepers(NotifyAllStep(s, t)) == 0
  {
    RouseCounts(s.threads);
    SetCounts(s.(threads := Roused(s.threads)), t, Idle(CloseResult));
  }

  lemma {:induction false} RunsCovered<T>(s: State<T>, es: seq<Event<T>>)
    requires Inv(s) && Covered(s) && NotifiesEveryWaiter(s.policy) && ValidRun(s, es)
    ensures Inv(Exec(s, es)) && Covered(Exec(s, es))
    decreases |es|
  {
    hide Next, Inv, Covered;
    if es != [] {
      NextInv(s, es[0]);
      NextCovered(s, es[0]);
      RunsCovered(Next(s, es[0]), es[1..]);
    }
  }

  /**
   No stranded consumer, versions 1 and 3 of the MPMC queue: in every reachable state, with any
   threads making any calls and waking spuriously, `waiting_consumers_` is the number of threads
   inside the wait, a sleeper implies at most one queued value per pending notification or awake
   waiter, and with none of those pending a sleeper implies an empty queue that is not closed.
   */
  lemma {:induction false} NoStrandedConsumer<T>(p: Policy, n: nat, es: seq<Event<T>>)
    requires NotifiesEveryWaiter(p) && ValidRun(Init(p, n), es)
    ensures var s := Exec(Init(p, n), es);
      && s.waiting == Inside(s)
      && (Sleepers(s) > 0 ==> |s.queue| <= Debts(s) + Wakers(s))
      && (Sleepers(s) > 0 && Debts(s) == Wakers(s) == CloseDebts(s) == 0 ==> s.queue == [] && !s.closed)
  {
    InitInv<T>(p, n);
    RunsCovered(Init(p, n), es);
  }

  // Policies that notify only when the queue was empty.

  /** A value is queued, a consumer sleeps, and nothing that is under way will ever wake it. */
  ghost predicate Stranded(s: State) {
    s.queue != [] && !s.closed && Sleepers(s) > 0 && Debts(s) == 0 && Wakers(s) == 0
  }

  /** Only threads below `k` call `wait_pop`. */
  ghost predicate OnlyWaiters(es: seq<Event>, k: nat) {
    forall i :: 0 <= i < |es| && es[i].action == Call(WaitPop) ==> es[i].thread < k
  }

  /** Threads from `k` on are never inside the wait. */
  ghost predicate WaitersBelow(s: State, k: nat) {
    forall u :: k <= u < |s.threads| ==> !InWait(s.threads[u])
  }

  ghost predicate Answered(s: State) {
    Sleepers(s) > 0 && s.queue != [] ==> Debts(s) + Wakers(s) > 0
  }

  lemma OnlySleeper<T>(s: State<T>, t: nat)
    requires WaitersBelow(s, 1) && t < |s.threads|
    ensures InWait(s.threads[t]) && !s.threads[t].Asleep? ==> Sleepers(s) == 0
    ensures s.threads[t].Asleep? ==> Sleepers(Set(s, t, Woken)) == 0
  {
    if InWait(s.threads[t]) {
      SomebodyAsleep(s);
      SomebodyAsleep(Set(s, t, Woken));
    }
  }

  lemma NextWaitersBelow<T>(s: State<T>, e: Event<T>, k: nat)
    requires WaitersBelow(s, k) && Enabled(s, e) && (e.action == Call(WaitPop) ==> e.thread < k)
    ensures WaitersBelow(Next(s, e), k)
  {
  }

  lemma RelockAnswered<T>(s: State<T>, t: nat)
    requires t < |s.threads| && s.threads[t].Woken? && WaitersBelow(s, 1) && Answered(s)
    ensures Answered(RelockStep(s, t))
  {
    OnlySleeper(s, t);
    SetCounts(s, t, RelockStep(s, t).threads[t]);
  }

  lemma NotifyOneAnswered<T>(s: State<T>, t: nat, w: nat)
    requires Enabled(s, Event(t, NotifyOne(w))) && WaitersBelow(s, 1) && Answered(s)
    ensures Answered(NotifyOneStep(s, t, w))
  {
    OnlySleeper(s, w);
    SomebodyAsleep(s);
    var s' := if s.threads[w].Asleep? then Set(s, w, Woken) else s;
    SetCounts(s', t, Idle(PushResult(true)));
  }

  lemma PushAnswered<T>(s: State<T>, t: nat, v: T)
    requires t < |s.threads| && s.threads[t].Idle? && Inv(s) && Answered(s)
    ensures Answered(PushStep(s, t, v))
  {
    SetCounts(s, t, PushStep(s, t, v).threads[t]);
    SleepersInside(s);
  }

  lemma WaitPopAnswered<T>(s: State<T>, t: nat)
    requires t < |s.threads| && s.threads[t].Idle? && Answered(s)
    ensures Answered(WaitPopStep(s, t))
  {
    SetCounts(s, t, WaitPopStep(s, t).threads[t]);
  }

  lemma NextAnswered<T>(s: State<T>, e: Event<T>)
    requires Inv(s) && WaitersBelow(s, 1) && Answered(s) && Enabled(s, e)
    requires e.action == Call(WaitPop) ==> e.thread < 1
    ensures Answered(Next(s, e))
  {
    hide Inv, WaitPopStep, PushStep;
    var t := e.thread;
    match e.action
    case Call(Push(v)) => PushAnswered(s, t, v);
    case Call(WaitPop) => WaitPopAnswered(s, t);
    case Call(TryPop) => SetCounts(s, t, TryPopStep(s, t).threads[t]);
    case Call(Close) => SetCounts(s, t, OwesAll);
    case NotifyOne(w) => NotifyOneAnswered(s, t, w);
    case NotifyAll => NotifyAllQuiets(s, t);
    case WakeSpuriously => SetCounts(s, t, Woken);
    case Relock => RelockAnswered(s, t);
  }

  lemma {:induction false} RunsAnswered<T>(s: State<T>, es: seq<Event<T>>)
    requires Inv(s) && WaitersBelow(s, 1) && Answered(s) && ValidRun(s, es) && OnlyWaiters(es, 1)
    ensures Answered(Exec(s, es))
    decreases |es|
  {
    hide Next, Inv, Answered, WaitersBelow;
    if es != [] {
      NextInv(s, es[0]);
      NextAnswered(s, es[0]);
      NextWaitersBelow(s, es[0], 1);
      RunsAnswered(Next(s, es[0]), es[1..]);
    }
  }

  /**
   One consumer, under every policy, in particular the one that notifies only if the queue was empty
   and somebody waits: in every reachable state in which it sleeps on a non-empty queue a wakeup is
   under way, and with nothing under way it sleeps only on an empty queue that is not closed.
   */
  lemma {:induction false} SoleConsumerIsServed<T>(p: Policy, n: nat, es: seq<Event<T>>)
    requires ValidRun(Init(p, n), es) && OnlyWaiters(es, 1)
    ensures var s := Exec(Init(p, n), es);
      && s.waiting == Inside(s)
      && (Sleepers(s) > 0 && s.queue != [] ==> Debts(s) + Wakers(s) > 0)
      && (Sleepers(s) > 0 && Debts(s) == Wakers(s) == CloseDebts(s) == 0 ==> s.queue == [] && !s.closed)
  {
    InitInv<T>(p, n);
    RunsAnswered(Init(p, n), es);
    RunsKeepInv(Init(p, n), es);
  }

  /** Two consumers go to sleep. */
  lemma TwoSleep(p: Policy, k: nat) returns (es: seq<Event<int>>, s: State<int>)
    requires k >= 2
    ensures Reaches(Init(p, k + 1), es, s) && OnlyWaiters(es, k)
    ensures s.policy == p && s.queue == [] && !s.closed && s.waiting == 2 && |s.threads| == k + 1
    ensures s.threads[0].Asleep? && s.threads[1].Asleep? && s.threads[k].Idle?
    ensures Sleepers(s) == 2 && Debts(s) == Wakers(s) == 0
  {
    var s0 := Init<int>(p, k + 1);
    InitInv<int>(p, k + 1);
    var s1 := WaitPopStep(s0, 0);
    SetCounts(s0, 0, Asleep);
    Extend(s0, [], s0, Event(0, Call(WaitPop)));
    es := [] + [Event(0, Call(WaitPop))];
    s := WaitPopStep(s1, 1);
    SetCounts(s1, 1, Asleep);
    Extend(s0, es, s1, Event(1, Call(WaitPop)));
    es := es + [Event(1, Call(WaitPop))];
  }

  /** A push onto the empty queue wakes the first of them. */
  lemma FirstWoken(p: Policy, k: nat) returns (es: seq<Event<int>>, s: State<int>)
    requires k >= 2 && !NotifiesEveryWaiter(p)
    ensures Reaches(Init(p, k + 1), es, s) && OnlyWaiters(es, k)
    ensures s.policy == p && s.queue == [7] && !s.closed && |s.threads| == k + 1
    ensures s.threads[0].Woken? && s.threads[k].Idle?
    ensures Sleepers(s) == 1 && Debts(s) == 0 && Wakers(s) == 1
  {
    var s2;
    es, s2 := TwoSleep(p, k);
    var s3 := PushStep(s2, k, 7);
    SetCounts(s2, k, OwesOne);
    Extend(Init(p, k + 1), es, s2, Event(k, Call(Push(7))));
    es := es + [Event(k, Call(Push(7)))];
    s := NotifyOneStep(s3, k, 0);
    SetCounts(s3, 0, Woken);
    SetCounts(Set(s3, 0, Woken), k, Idle(PushResult(true)));
    Extend(Init(p, k + 1), es, s3, Event(k, NotifyOne(0)));
    es := es + [Event(k, NotifyOne(0))];
  }

  /** A second push notifies nobody, and the first consumer leaves with one value. */
  lemma StrandingRun(p: Policy, k: nat) returns (es: seq<Event<int>>)
    requires k >= 2 && !NotifiesEveryWaiter(p)
    ensures ValidRun(Init(p, k + 1), es) && OnlyWaiters(es, k) && Stranded(Exec(Init(p, k + 1), es))
  {
    var s4;
    es, s4 := FirstWoken(p, k);
    var s5 := PushStep(s4, k, 8);
    SetCounts(s4, k, Idle(PushResult(true)));
    Extend(Init(p, k + 1), es, s4, Event(k, Call(Push(8))));
    es := es + [Event(k, Call(Push(8)))];
    SetCounts(s5, 0, RelockStep(s5, 0).threads[0]);
    Extend(Init(p, k + 1), es, s5, Event(0, Relock));
    es := es + [Event(0, Relock)];
  }

  ghost predicate NeverStrands(p: Policy, k: nat) {
    forall n: nat, es: seq<Event<int>> ::
      ValidRun(Init(p, n), es) && OnlyWaiters(es, k) ==> !Stranded(Exec(Init<int>(p, n), es))
  }

  /**
   Exactly when a queued value can be left with a sleeping consumer: the policies of MPMC versions 1
   and 3 never strand anyone; those that wait for an empty queue never do if and only if at most one
   thread calls `wait_pop`.
   */
  lemma NeverStrandsIff(p: Policy, k: nat)
    ensures NeverStrands(p, k) <==> NotifiesEveryWaiter(p) || k <= 1
  {
    if NotifiesEveryWaiter(p) || k <= 1 {
      forall n: nat, es: seq<Event<int>> | ValidRun(Init(p, n), es) && OnlyWaiters(es, k)
        ensures !Stranded(Exec(Init<int>(p, n), es))
      {
        InitInv<int>(p, n);
        if NotifiesEveryWaiter(p) {
          RunsCovered(Init(p, n), es);
        } else {
          RunsAnswered(Init(p, n), es);
        }
      }
    } else {
      var es := StrandingRun(p, k);
    }
  }

  // Consumers that call `wait_pop` again until it fails.

  /** Threads below `k` call nothing but `wait_pop`, and no other thread calls it. */
  ghost predicate Loopers(es: seq<Event>, k: nat) {
    forall i :: 0 <= i < |es| && es[i].action.Call? ==> (es[i].thread < k <==> es[i].action.op.WaitPop?)
  }

  ghost predicate Role(th: Thread, u: nat, k: nat) {
    if u < k then !th.OwesOne? && !th.OwesAll? else !InWait(th)
  }

  ghost predicate ConsumerAwake(s: State, k: nat) {
    exists u :: 0 <= u < k && u < |s.threads| && !s.threads[u].Asleep?
  }

  ghost predicate LoopInv(s: State, k: nat) {
    && (forall u :: 0 <= u < |s.threads| ==> Role(s.threads[u], u, k))
    && (s.queue != [] && !s.closed ==> Debts(s) > 0 || ConsumerAwake(s, k))
  }

  lemma FirstAwake<T>(s: State<T>, k: nat)
    requires 0 < k <= |s.threads| && Sleepers(s) == 0
    ensures ConsumerAwake(s, k)
  {
    SomebodyAsleep(s);
    assert !s.threads[0].Asleep?;
  }

  lemma PushLoopInv<T>(s: State<T>, t: nat, v: T, k: nat)
    requires t < |s.threads| && s.threads[t].Idle? && Inv(s) && LoopInv(s, k) && 0 < k <= t
    ensures LoopInv(PushStep(s, t, v), k)
  {
    var s' := PushStep(s, t, v);
    SetCounts(s, t, s'.threads[t]);
    if s'.queue != [] && !s'.closed && Debts(s') == 0 {
      if s.queue == [] {
        SleepersInside(s);
        FirstAwake(s, k);
      }
      var u :| 0 <= u < k && u < |s.threads| && !s.threads[u].Asleep?;
      assert s'.threads[u] == s.threads[u];
    }
  }

  lemma WaitPopLoopInv<T>(s: State<T>, t: nat, k: nat)
    requires t < |s.threads| && (s.threads[t].Idle? || s.threads[t].Woken?) && LoopInv(s, k) && t < k
    ensures LoopInv(WaitPopStep(s, t), k)
  {
    var s' := WaitPopStep(s, t);
    if s'.queue != [] {
      assert !s'.threads[t].Asleep?;
    }
  }

  lemma NotifyOneLoopInv<T>(s: State<T>, t: nat, w: nat, k: nat)
    requires Enabled(s, Event(t, NotifyOne(w))) && LoopInv(s, k) && 0 < k <= |s.threads|
    ensures LoopInv(NotifyOneStep(s, t, w), k)
  {
    var s' := NotifyOneStep(s, t, w);
    assert Role(s.threads[t], t, k) && Role(s.threads[w], w, k);
    if s.threads[w].Asleep? {
      assert !s'.threads[w].Asleep?;
    } else {
      assert !s'.threads[0].Asleep?;
    }
  }

  /** Steps that leave the queue no longer than it was and put nobody to sleep. */
  lemma OtherLoopInv<T>(s: State<T>, e: Event<T>, k: nat)
    requires Enabled(s, e) && LoopInv(s, k) && 0 < k <= |s.threads|
    requires e.action.NotifyAll? || e.action.WakeSpuriously? || e.action == Call(TryPop) || e.action == Call(Close)
    requires e.action.Call? ==> e.thread >= k
    ensures LoopInv(Next(s, e), k)
  {
    var s', t := Next(s, e), e.thread;
    assert Role(s.threads[t], t, k);
    if e.action.NotifyAll? {
      NotifyAllQuiets(s, t);
      FirstAwake(s', k);
    } else {
      SetCounts(s, t, s'.threads[t]);
      if s'.queue != [] && !s'.closed && Debts(s') == 0 {
        var u :| 0 <= u < k && u < |s.threads| && !s.threads[u].Asleep?;
        assert !s'.threads[u].Asleep?;
      }
    }
  }

  lemma NextLoopInv<T>(s: State<T>, e: Event<T>, k: nat)
    requires Inv(s) && LoopInv(s, k) && Enabled(s, e) && 0 < k <= |s.threads|
    requires e.action.Call? ==> (e.thread < k <==> e.action.op.WaitPop?)
    ensures LoopInv(Next(s, e), k)
  {
    hide Inv, WaitPopStep, PushStep;
    assert Role(s.threads[e.thread], e.thread, k);
    match e.action
    case Call(Push(v)) => PushLoopInv(s, e.thread, v, k);
    case Call(WaitPop) => WaitPopLoopInv(s, e.thread, k);
    case NotifyOne(w) => NotifyOneLoopInv(s, e.thread, w, k);
    case Relock => WaitPopLoopInv(s.(waiting := if s.waiting > 0 then s.waiting - 1 else 0), e.thread, k);
    case _ => OtherLoopInv(s, e, k);
  }

  lemma {:induction false} RunsLoopInv<T>(s: State<T>, es: seq<Event<T>>, k: nat)
    requires Inv(s) && LoopInv(s, k) && 0 < k <= |s.threads| && ValidRun(s, es) && Loopers(es, k)
    ensures Inv(Exec(s, es)) && LoopInv(Exec(s, es), k) && |Exec(s, es).threads| == |s.threads|
    decreases |es|
  {
    hide Next, Inv, LoopInv;
    if es != [] {
      NextInv(s, es[0]);
      NextLoopInv(s, es[0], k);
      RunsLoopInv(Next(s, es[0]), es[1..], k);
    }
  }

  /**
   Consumers that loop until `wait_pop` fails are safe under every policy, however many they are:
   they are all asleep with no notification pending only while the queue is empty and open.
   */
  lemma {:induction false} LoopingConsumersNeverDeadlock<T>(p: Policy, n: nat, k: nat, es: seq<Event<T>>)
    requires 0 < k <= n && ValidRun(Init(p, n), es) && Loopers(es, k)
    ensures |Exec(Init(p, n), es).threads| == n
    ensures var s := Exec(Init(p, n), es);
      ((forall u :: 0 <= u < k ==> s.threads[u].Asleep?) && Debts(s) == CloseDebts(s) == 0 ==>
        s.queue == [] && !s.closed)
  {
    InitInv<T>(p, n);
    RunsLoopInv(Init(p, n), es, k);
    var s := Exec(Init(p, n), es);
    if s.threads[0].Asleep? { SomebodyAsleep(s); }
  }
}
