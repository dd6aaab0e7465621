/**
 The mutex-and-deque queues and their notification policies as a step machine.

 A critical section is one step. A thread inside `wait` is asleep until it is notified or wakes
 spuriously, and then relocks and tests again. Notifications are sent after unlocking, as steps of
 their own; `notify_one` wakes some sleeper if there is one.
 */
module WaitQueue {
  import opened Counting
  import opened Wrappers

  /** When a successful push notifies: versions 1, 2 and 3 of the MPMC queue, and the SPSC version 3. */
  datatype Policy = Always | OnEmpty | OnWaiters | OnEmptyWithWaiters

  datatype Result<+T> =
    | Nothing
    | PushResult(ok: bool)
    | WaitPopResult(out: Option<T>)
    | TryPopResult(out: Option<T>)
    | CloseResult

  datatype Thread<+T> =
    | Idle(last: Result<T>)
    | Asleep
    | Woken
    | OwesOne
    | OwesAll

  /**
   `waiting` is `waiting_consumers_`, which only some versions keep. `pushed` and `popped`
   record every value accepted and every value taken.
   */
  datatype State<+T> = State(
    policy: Policy,
    queue: seq<T>,
    waiting: nat,
    closed: bool,
    threads: seq<Thread<T>>,
    pushed: seq<T>,
    popped: seq<T>)

  datatype Operation<+T> = Push(value: T) | WaitPop | TryPop | Close

  datatype Action<+T> =
    | Call(op: Operation<T>)
    | NotifyOne(sleeper: nat)
    | NotifyAll
    | WakeSpuriously
    | Relock

  datatype Event<+T> = Event(thread: nat, action: Action<T>)

  function Init<T>(policy: Policy, n: nat): State<T> {
    State(policy, [], 0, false, seq(n, t => Idle(Nothing)), [], [])
  }

  predicate IsAsleep<T>(t: Thread<T>) { t.Asleep? }
  predicate IsWoken<T>(t: Thread<T>) { t.Woken? }
  predicate InWait<T>(t: Thread<T>) { t.Asleep? || t.Woken? }
  predicate IsOwingOne<T>(t: Thread<T>) { t.OwesOne? }
  predicate IsOwingAll<T>(t: Thread<T>) { t.OwesAll? }

  function Set<T>(s: State<T>, t: nat, th: Thread<T>): State<T>
    requires t < |s.threads|
  {
    s.(threads := s.threads[t := th])
  }

  predicate NobodyAsleep(s: State) {
    forall u :: 0 <= u < |s.threads| ==> !s.threads[u].Asleep?
  }

  predicate Enabled(s: State, e: Event) {
    e.thread < |s.threads| &&
    var th := s.threads[e.thread];
    match e.action
    case Call(_) => th.Idle?
    case NotifyOne(w) => th.OwesOne? && w < |s.threads| && (s.threads[w].Asleep? || NobodyAsleep(s))
    case NotifyAll => th.OwesAll?
    case WakeSpuriously => th.Asleep?
    case Relock => th.Woken?
  }

  predicate ShouldNotify(policy: Policy, wasEmpty: bool, waiting: nat) {
    match policy
    case Always => true
    case OnEmpty => wasEmpty
    case OnWaiters => waiting > 0
    case OnEmptyWithWaiters => wasEmpty && waiting > 0
  }

  function PushStep<T>(s: State<T>, t: nat, v: T): State<T>
    requires t < |s.threads|
  {
    if s.closed then Set(s, t, Idle(PushResult(false)))
    else
      var notify := ShouldNotify(s.policy, s.queue == [], s.waiting);
      Set(s.(queue := s.queue + [v], pushed := s.pushed + [v]), t,
          if notify then OwesOne else Idle(PushResult(true)))
  }

  function Taken<T>(s: State<T>): State<T>
    requires s.queue != []
  {
    s.(queue := s.queue[1..], popped := s.popped + [s.queue[0]])
  }

  /** The test of `wait_pop` with the lock held: take a value, give up, or go to sleep. */
  function WaitPopStep<T>(s: State<T>, t: nat): State<T>
    requires t < |s.threads|
  {
    if s.queue == [] && !s.closed then Set(s, t, Asleep).(waiting := s.waiting + 1)
    else if s.queue == [] then Set(s, t, Idle(WaitPopResult(None)))
    else Set(Taken(s), t, Idle(WaitPopResult(Some(s.queue[0]))))
  }

  function TryPopStep<T>(s: State<T>, t: nat): State<T>
    requires t < |s.threads|
  {
    if s.queue == [] then Set(s, t, Idle(TryPopResult(None)))
    else Set(Taken(s), t, Idle(TryPopResult(Some(s.queue[0]))))
  }

  function RelockStep<T>(s: State<T>, t: nat): State<T>
    requires t < |s.threads|
  {
    WaitPopStep(s.(waiting := if s.waiting > 0 then s.waiting - 1 else 0), t)
  }

  function NotifyOneStep<T>(s: State<T>, t: nat, w: nat): State<T>
    requires t < |s.threads| && w < |s.threads|
  {
    var s' := if s.threads[w].Asleep? then Set(s, w, Woken) else s;
    Set(s', t, Idle(PushResult(true)))
  }

  function Rouse<T>(th: Thread<T>): Thread<T> {
    if th.Asleep? then Woken else th
  }

  function Roused<T>(ths: seq<Thread<T>>): (r: seq<Thread<T>>) {
    seq(|ths|, u requires 0 <= u < |ths| => Rouse(ths[u]))
  }

  function NotifyAllStep<T>(s: State<T>, t: nat): State<T>
    requires t < |s.threads|
  {
    Set(s.(threads := Roused(s.threads)), t, Idle(CloseResult))
  }

  function CallStep<T>(s: State<T>, t: nat, op: Operation<T>): State<T>
    requires t < |s.threads|
  {
    match op
    case Push(v) => PushStep(s, t, v)
    case WaitPop => WaitPopStep(s, t)
    case TryPop => TryPopStep(s, t)
    case Close => Set(s.(closed := true), t, OwesAll)
  }

  function Next<T>(s: State<T>, e: Event<T>): State<T>
    requires Enabled(s, e)
  {
    match e.action
    case Call(op) => CallStep(s, e.thread, op)
    case NotifyOne(w) => NotifyOneStep(s, e.thread, w)
    case NotifyAll => NotifyAllStep(s, e.thread)
    case WakeSpuriously => Set(s, e.thread, Woken)
    case Relock => RelockStep(s, e.thread)
  }

  predicate ValidRun<T>(s: State<T>, es: seq<Event<T>>)
    decreases |es|
  {
    es == [] || (Enabled(s, es[0]) && ValidRun(Next(s, es[0]), es[1..]))
  }

  function Exec<T>(s: State<T>, es: seq<Event<T>>): State<T>
    requires ValidRun(s, es)
    decreases |es|
  {
    if es == [] then s else Exec(Next(s, es[0]), es[1..])
  }

  // How steps change the counts.

  function Sleepers(s: State): nat { Count(s.threads, IsAsleep) }
  function Wakers(s: State): nat { Count(s.threads, IsWoken) }
  function Debts(s: State): nat { Count(s.threads, IsOwingOne) }
  function CloseDebts(s: State): nat { Count(s.threads, IsOwingAll) }
  function Inside(s: State): nat { Count(s.threads, InWait) }

  lemma SetCounts<T>(s: State<T>, t: nat, th: Thread<T>)
    requires t < |s.threads|
    ensures var s', was := Set(s, t, th), s.threads[t];
      && Sleepers(s') + One(was.Asleep?) == Sleepers(s) + One(th.Asleep?)
      && Wakers(s') + One(was.Woken?) == Wakers(s) + One(th.Woken?)
      && Debts(s') + One(was.OwesOne?) == Debts(s) + One(th.OwesOne?)
      && CloseDebts(s') + One(was.OwesAll?) == CloseDebts(s) + One(th.OwesAll?)
      && Inside(s') + One(InWait(was)) == Inside(s) + One(InWait(th))
  {
    CountUpdate(s.threads, t, th, IsAsleep);
    CountUpdate(s.threads, t, th, IsWoken);
    CountUpdate(s.threads, t, th, IsOwingOne);
    CountUpdate(s.threads, t, th, IsOwingAll);
    CountUpdate(s.threads, t, th, InWait);
  }

  lemma {:induction false} RouseCounts<T>(ths: seq<Thread<T>>)
    ensures Count(Roused(ths), IsAsleep) == 0
    ensures Count(Roused(ths), IsWoken) == Count(ths, IsWoken) + Count(ths, IsAsleep)
    ensures Count(Roused(ths), IsOwingOne) == Count(ths, IsOwingOne)
    ensures Count(Roused(ths), IsOwingAll) == Count(ths, IsOwingAll)
    ensures Count(Roused(ths), InWait) == Count(ths, InWait)
  {
    if ths != [] {
      RouseCounts(ths[1..]);
      assert Roused(ths)[1..] == Roused(ths[1..]);
    }
  }

  lemma SomebodyAsleep<T>(s: State<T>)
    ensures Sleepers(s) == 0 <==> NobodyAsleep(s)
  {
    CountZero(s.threads, IsAsleep);
  }

  // What every policy keeps.

  ghost predicate ResultsTrue(s: State) {
    forall t :: 0 <= t < |s.threads| && s.threads[t] == Idle(WaitPopResult(None)) ==> s.closed && s.queue == []
  }

  /** The counter is exact, values are conserved in order, and a closed queue never forgets a sleeper. */
  ghost predicate Inv(s: State) {
    && s.waiting == Inside(s)
    && s.pushed == s.popped + s.queue
    && (s.closed && Sleepers(s) > 0 ==> CloseDebts(s) > 0)
    && ResultsTrue(s)
  }

  lemma InitInv<T>(policy: Policy, n: nat)
    ensures Inv(Init<T>(policy, n))
    ensures Sleepers(Init<T>(policy, n)) == Debts(Init<T>(policy, n)) == Wakers(Init<T>(policy, n)) == 0
  {
    var s := Init<T>(policy, n);
    CountZero(s.threads, IsAsleep);
    CountZero(s.threads, IsOwingOne);
    CountZero(s.threads, IsWoken);
    CountZero(s.threads, InWait);
  }

  lemma WaitPopInv<T>(s: State<T>, t: nat)
    requires t < |s.threads| && !InWait(s.threads[t]) && !s.threads[t].OwesOne? && !s.threads[t].OwesAll?
    requires Inv(s)
    ensures Inv(WaitPopStep(s, t))
  {
    SetCounts(s, t, WaitPopStep(s, t).threads[t]);
    if s.queue != [] { assert s.pushed == s.popped + [s.queue[0]] + s.queue[1..]; }
  }

  /** Relocking behaves as leaving the wait and calling `wait_pop` again. */
  lemma RelockInv<T>(s: State<T>, t: nat)
    requires t < |s.threads| && s.threads[t].Woken? && Inv(s)
    ensures Inv(RelockStep(s, t))
  {
    SetCounts(s, t, Idle(Nothing));
    var s1 := Set(s, t, Idle(Nothing)).(waiting := s.waiting - 1);
    assert Inv(s1);
    WaitPopInv(s1, t);
    var th := WaitPopStep(s1, t).threads[t];
    assert s1.threads[t := th] == s.threads[t := th];
    assert WaitPopStep(s1, t) == RelockStep(s, t);
  }

  lemma PushInv<T>(s: State<T>, t: nat, v: T)
    requires t < |s.threads| && s.threads[t].Idle? && Inv(s)
    ensures Inv(PushStep(s, t, v))
  {
    SetCounts(s, t, PushStep(s, t, v).threads[t]);
  }

  lemma TryPopInv<T>(s: State<T>, t: nat)
    requires t < |s.threads| && s.threads[t].Idle? && Inv(s)
    ensures Inv(TryPopStep(s, t))
  {
    SetCounts(s, t, TryPopStep(s, t).threads[t]);
    if s.queue != [] { assert s.pushed == s.popped + [s.queue[0]] + s.queue[1..]; }
  }

  lemma NotifyOneInv<T>(s: State<T>, t: nat, w: nat)
    requires Enabled(s, Event(t, NotifyOne(w))) && Inv(s)
    ensures Inv(NotifyOneStep(s, t, w))
  {
    var s' := if s.threads[w].Asleep? then Set(s, w, Woken) else s;
    if s.threads[w].Asleep? { SetCounts(s, w, Woken); }
    SetCounts(s', t, Idle(PushResult(true)));
  }

  lemma NotifyAllInv<T>(s: State<T>, t: nat)
    requires t < |s.threads| && s.threads[t].OwesAll? && Inv(s)
    ensures Inv(NotifyAllStep(s, t)) && Sleepers(NotifyAllStep(s, t)) == 0
  {
    RouseCounts(s.threads);
    SetCounts(s.(threads := Roused(s.threads)), t, Idle(CloseResult));
  }

  lemma NextInv<T>(s: State<T>, e: Event<T>)
    requires Inv(s) && Enabled(s, e)
    ensures Inv(Next(s, e)) && |Next(s, e).threads| == |s.threads| && Next(s, e).policy == s.policy
  {
    hide Inv, WaitPopStep, PushStep, TryPopStep;
    var t := e.thread;
    match e.action
    case Call(Push(v)) => PushInv(s, t, v); PushShape(s, t, v);
    case Call(WaitPop) => WaitPopInv(s, t); WaitPopShape(s, t);
    case Call(TryPop) => TryPopInv(s, t); TryPopShape(s, t);
    case Call(Close) => CloseInv(s, t);
    case NotifyOne(w) => NotifyOneInv(s, t, w);
    case NotifyAll => NotifyAllInv(s, t);
    case WakeSpuriously => WakeInv(s, t);
    case Relock =>
      RelockInv(s, t);
      WaitPopShape(s.(waiting := if s.waiting > 0 then s.waiting - 1 else 0), t);
  }

  lemma CloseInv<T>(s: State<T>, t: nat)
    requires t < |s.threads| && s.threads[t].Idle? && Inv(s)
    ensures Inv(Set(s.(closed := true), t, OwesAll))
  {
    SetCounts(s, t, OwesAll);
  }

  lemma WakeInv<T>(s: State<T>, t: nat)
    requires t < |s.threads| && s.threads[t].Asleep? && Inv(s)
    ensures Inv(Set(s, t, Woken))
  {
    SetCounts(s, t, Woken);
  }

  lemma PushShape<T>(s: State<T>, t: nat, v: T)
    requires t < |s.threads|
    ensures |PushStep(s, t, v).threads| == |s.threads| && PushStep(s, t, v).policy == s.policy
  {
  }

  lemma TryPopShape<T>(s: State<T>, t: nat)
    requires t < |s.threads|
    ensures |TryPopStep(s, t).threads| == |s.threads| && TryPopStep(s, t).policy == s.policy
  {
  }

  lemma WaitPopShape<T>(s: State<T>, t: nat)
    requires t < |s.threads|
    ensures |WaitPopStep(s, t).threads| == |s.threads| && WaitPopStep(s, t).policy == s.policy
  {
  }

  ghost predicate SomebodyWaits(s: State) {
    exists u :: 0 <= u < |s.threads| && InWait(s.threads[u])
  }

  /** When a push owes a notification, with real waiters in place of the counter. */
  lemma PushNotifiesIff<T>(s: State<T>, t: nat, v: T)
    requires Inv(s) && t < |s.threads|
    ensures PushStep(s, t, v).threads[t].OwesOne? <==>
      !s.closed && (s.policy.OnEmpty? || s.policy.OnEmptyWithWaiters? ==> s.queue == []) &&
      (s.policy.OnWaiters? || s.policy.OnEmptyWithWaiters? ==> SomebodyWaits(s))
  {
    CountZero(s.threads, InWait);
  }

  lemma NextShape<T>(s: State<T>, e: Event<T>)
    requires Enabled(s, e)
    ensures |Next(s, e).threads| == |s.threads| && Next(s, e).policy == s.policy
  {
  }

  lemma {:induction false} RunsKeepInv<T>(s: State<T>, es: seq<Event<T>>)
    requires Inv(s) && ValidRun(s, es)
    ensures Inv(Exec(s, es)) && |Exec(s, es).threads| == |s.threads| && Exec(s, es).policy == s.policy
    decreases |es|
  {
    hide Next, Inv;
    if es != [] {
      NextInv(s, es[0]);
      RunsKeepInv(Next(s, es[0]), es[1..]);
    }
  }

  // Building runs.

  ghost predicate Reaches<T>(s: State<T>, es: seq<Event<T>>, s': State<T>) {
    ValidRun(s, es) && Exec(s, es) == s'
  }

  lemma {:induction false} Extend<T>(s: State<T>, es: seq<Event<T>>, s': State<T>, e: Event<T>)
    requires Reaches(s, es, s') && Enabled(s', e)
    ensures Reaches(s, es + [e], Next(s', e))
    decreases |es|
  {
    if es == [] {
      assert (es + [e])[1..] == [];
    } else {
      Extend(Next(s, es[0]), es[1..], s', e);
      assert (es + [e])[1..] == es[1..] + [e];
    }
  }
}
