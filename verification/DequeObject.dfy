/**
 The mutex-and-deque queues as an object: one method per critical section, with the wait loop written
 out. The versions differ only in when a push notifies; those that keep no waiting counter are
 modelled with one they never read.
 */
module DequeObject {
  import opened WaitQueue
  import opened Wrappers

  class MutexDequeQueue<T> {
    const policy: Policy
    var queue: seq<T>
    var waitingConsumers: nat
    var closed: bool
    /** Where each thread is. */
    var threads: seq<Thread<T>>
    ghost var pushed: seq<T>
    ghost var popped: seq<T>

    ghost function Abs(): State<T>
      reads this
    {
      State(policy, queue, waitingConsumers, closed, threads, pushed, popped)
    }

    ghost predicate Valid()
      reads this
    {
      Inv(Abs())
    }

    constructor (policy: Policy, threadCount: nat)
      ensures Valid() && Abs() == Init(policy, threadCount)
    {
      this.policy := policy;
      queue, waitingConsumers, closed := [], 0, false;
      threads := seq(threadCount, t => Idle(Nothing));
      pushed, popped := [], [];
      new;
      InitInv<T>(policy, threadCount);
    }

    method Emplace(t: nat, v: T)
      requires Valid() && t < |threads| && threads[t].Idle?
      modifies this`queue, this`threads, this`pushed
      ensures Valid() && Abs() == PushStep(old(Abs()), t, v)
      ensures old(closed) ==> queue == old(queue) && pushed == old(pushed) && threads[t] == Idle(PushResult(false))
      ensures !old(closed) ==> queue == old(queue) + [v] && pushed == old(pushed) + [v]
      ensures !old(closed) && ShouldNotify(policy, old(queue) == [], old(waitingConsumers)) ==> threads[t].OwesOne?
      ensures !old(closed) && !ShouldNotify(policy, old(queue) == [], old(waitingConsumers)) ==>
        threads[t] == Idle(PushResult(true))
    {
      PushInv(Abs(), t, v);
      if closed {
        threads := threads[t := Idle(PushResult(false))];
        return;
      }
      var shouldNotify := ShouldNotify(policy, |queue| == 0, waitingConsumers);
      queue := queue + [v];
      pushed := pushed + [v];
      threads := threads[t := if shouldNotify then OwesOne else Idle(PushResult(true))];
    }

    /** `wait_pop` from taking the lock to releasing it or going to sleep. */
    method WaitPop(t: nat)
      requires Valid() && t < |threads| && threads[t].Idle?
      modifies this`queue, this`waitingConsumers, this`threads, this`popped
      ensures Valid() && Abs() == WaitPopStep(old(Abs()), t)
      ensures old(queue) == [] && !old(closed) ==>
        threads[t].Asleep? && queue == [] && waitingConsumers == old(waitingConsumers) + 1
      ensures old(queue) == [] && old(closed) ==> threads[t] == Idle(WaitPopResult(None)) && queue == []
      ensures old(queue) != [] ==>
        threads[t] == Idle(WaitPopResult(Some(old(queue)[0]))) && queue == old(queue)[1..] &&
        popped == old(popped) + [old(queue)[0]]
    {
      WaitPopInv(Abs(), t);
      WaitOrTake(t);
    }

    /** The loop test: sleep on an empty open queue, else give up or take the front. */
    method WaitOrTake(t: nat)
      requires t < |threads|
      modifies this`queue, this`waitingConsumers, this`threads, this`popped
      ensures Abs() == WaitPopStep(old(Abs()), t)
    {
      if |queue| == 0 && !closed {
        waitingConsumers := waitingConsumers + 1;
        threads := threads[t := Asleep];
      } else if |queue| == 0 {
        threads := threads[t := Idle(WaitPopResult(None))];
      } else {
        var out := PopFront();
        threads := threads[t := Idle(WaitPopResult(Some(out)))];
      }
    }

    /** Back from `wait` with the lock held: count out, and test again. */
    method Relock(t: nat)
      requires Valid() && t < |threads| && threads[t].Woken?
      modifies this`queue, this`waitingConsumers, this`threads, this`popped
      ensures Valid() && Abs() == RelockStep(old(Abs()), t)
      ensures old(queue) == [] && !old(closed) ==>
        threads[t].Asleep? && queue == [] && waitingConsumers == old(waitingConsumers)
      ensures old(queue) == [] && old(closed) ==> threads[t] == Idle(WaitPopResult(None)) && queue == []
      ensures old(queue) != [] ==>
        threads[t] == Idle(WaitPopResult(Some(old(queue)[0]))) && queue == old(queue)[1..] &&
        popped == old(popped) + [old(queue)[0]]
      ensures old(closed) || old(queue) != [] ==> waitingConsumers == old(waitingConsumers) - 1
    {
      RelockInv(Abs(), t);
      SetCounts(Abs(), t, Idle(Nothing));
      hide Inv;
      waitingConsumers := waitingConsumers - 1;
      WaitOrTake(t);
    }

    method PopFront() returns (out: T)
      requires |queue| > 0
      modifies this`queue, this`popped
      ensures out == old(queue)[0] && Abs() == Taken(old(Abs()))
    {
      out := queue[0];
      queue := queue[1..];
      popped := popped + [out];
    }

    method TryPop(t: nat)
      requires Valid() && t < |threads| && threads[t].Idle?
      modifies this`queue, this`threads, this`popped
      ensures Valid() && Abs() == TryPopStep(old(Abs()), t)
      ensures old(queue) == [] ==> threads[t] == Idle(TryPopResult(None)) && queue == [] && popped == old(popped)
      ensures old(queue) != [] ==>
        threads[t] == Idle(TryPopResult(Some(old(queue)[0]))) && queue == old(queue)[1..] &&
        popped == old(popped) + [old(queue)[0]]
    {
      TryPopInv(Abs(), t);
      if |queue| == 0 {
        threads := threads[t := Idle(TryPopResult(None))];
      } else {
        var out := PopFront();
        threads := threads[t := Idle(TryPopResult(Some(out)))];
      }
    }

    method Close(t: nat)
      requires Valid() && t < |threads| && threads[t].Idle?
      modifies this`closed, this`threads
      ensures Valid() && Abs() == CallStep(old(Abs()), t, Operation.Close)
      ensures closed && threads[t].OwesAll?
    {
      CloseInv(Abs(), t);
      closed := true;
      threads := threads[t := OwesAll];
    }

    /** The end of a push that notifies: it wakes `w`, if anybody sleeps, and returns true. */
    method NotifyOne(t: nat, w: nat)
      requires Valid() && Enabled(Abs(), Event(t, Action.NotifyOne(w)))
      modifies this`threads
      ensures Valid() && Abs() == NotifyOneStep(old(Abs()), t, w)
      ensures |threads| == |old(threads)| && threads[t] == Idle(PushResult(true))
      ensures old(threads[w]).Asleep? ==> threads[w].Woken?
      ensures forall u :: 0 <= u < |threads| && u != t && u != w ==> threads[u] == old(threads[u])
    {
      NotifyOneInv(Abs(), t, w);
      if threads[w].Asleep? {
        threads := threads[w := Woken];
      }
      threads := threads[t := Idle(PushResult(true))];
    }

    /** The end of `close`: everybody who sleeps is woken. */
    method NotifyAll(t: nat)
      requires Valid() && t < |threads| && threads[t].OwesAll?
      modifies this`threads
      ensures Valid() && Abs() == NotifyAllStep(old(Abs()), t)
      ensures |threads| == |old(threads)| && threads[t] == Idle(CloseResult)
      ensures forall u :: 0 <= u < |threads| ==> !threads[u].Asleep?
      ensures forall u :: 0 <= u < |threads| && old(threads[u]).Asleep? ==> threads[u].Woken?
    {
      NotifyAllInv(Abs(), t);
      var ths := threads;
      threads := seq(|ths|, u requires 0 <= u < |ths| => Rouse(ths[u]));
      threads := threads[t := Idle(CloseResult)];
    }
  }
}
