/**
 The bounded mutex queue as an object: a circular buffer changed in place, one method per critical
 section or notification. Version 2 keeps no waiting counters; here both versions count.
 */
module RingObject {
  import opened Counting
  import opened RingQueue
  import opened RingBuffer
  import opened Wrappers

  class RingMutexMpmcQueue<T(0)> {
    const version: Version
    const ring: CircularBuffer<T>
    var waitingConsumers: nat
    var waitingProducers: nat
    var closed: bool
    /** Where each thread is. */
    var threads: seq<Thread<T>>
    ghost var pushed: seq<T>
    ghost var popped: seq<T>

    ghost function Abs(): State<T>
      reads this, ring, ring.buffer
      requires ring.Shape()
    {
      State(version, ring.capacity, ring.Contents(), waitingConsumers, waitingProducers, closed, threads,
            pushed, popped)
    }

    ghost predicate Valid()
      reads this, ring, ring.buffer
    {
      ring.Shape() && Inv(Abs())
    }

    constructor (version: Version, requested: nat, threadCount: nat)
      ensures Valid() && Abs() == Init(version, requested, threadCount) && fresh(ring) && fresh(ring.buffer)
    {
      this.version := version;
      ring := new CircularBuffer<T>(requested);
      waitingConsumers, waitingProducers, closed := 0, 0, false;
      threads := seq(threadCount, t => Idle(Nothing));
      pushed, popped := [], [];
      new;
      InitInv<T>(version, requested, threadCount);
    }

    /** `emplace`, from taking the lock to releasing it or going to sleep. */
    method Emplace(t: nat, v: T)
      requires Valid() && t < |threads| && threads[t].Idle?
      modifies ring`tail, ring`size, this`waitingProducers, this`threads, this`pushed, ring.buffer
      ensures Valid() && Abs() == PushStep(old(Abs()), t, v)
      ensures old(closed) ==> threads[t] == Idle(PushResult(false)) && SameContents(old(Abs()), Abs())
      ensures !old(closed) && old(ring.size) == ring.capacity ==>
        threads[t] == AsleepProducer(v) && SameContents(old(Abs()), Abs())
      ensures !old(closed) && old(ring.size) < ring.capacity ==>
        Appended(old(Abs()), Abs(), v) && (threads[t].OwesConsumer? || threads[t] == Idle(PushResult(true)))
    {
      PushInv(Abs(), t, v);
      waitingProducers := waitingProducers + 1;
      if !closed && ring.size >= ring.capacity {
        threads := threads[t := AsleepProducer(v)];
      } else {
        waitingProducers := waitingProducers - 1;
        EmplaceTail(t, v);
      }
    }

    /** `emplace` once its wait is over. */
    method EmplaceTail(t: nat, v: T)
      requires ring.Shape() && t < |threads| && (closed || ring.size < ring.capacity)
      modifies ring`tail, ring`size, this`threads, this`pushed, ring.buffer
      ensures ring.Shape() && Abs() == PushStep(old(Abs()), t, v)
    {
      if closed {
        threads := threads[t := Idle(PushResult(false))];
      } else {
        var wasEmpty := ring.size == 0;
        ring.Enqueue(v);
        pushed := pushed + [v];
        var notifyConsumer := version.V2? || (wasEmpty && waitingConsumers > 0);
        threads := threads[t := if notifyConsumer then OwesConsumer else Idle(PushResult(true))];
      }
    }

    /** `wait_pop`, from taking the lock to releasing it or going to sleep. */
    method WaitPop(t: nat)
      requires Valid() && t < |threads| && threads[t].Idle?
      modifies ring`head, ring`size, this`waitingConsumers, this`threads, this`popped
      ensures Valid() && Abs() == PopStep(old(Abs()), t)
      ensures old(ring.size) == 0 && old(closed) ==>
        threads[t] == Idle(PopResult(None)) && SameContents(old(Abs()), Abs())
      ensures old(ring.size) == 0 && !old(closed) ==> threads[t] == AsleepConsumer && SameContents(old(Abs()), Abs())
      ensures old(ring.size) > 0 ==>
        var v := old(ring.Contents())[0];
        TookFront(old(Abs()), Abs()) && (threads[t] == OwesProducer(v) || threads[t] == Idle(PopResult(Some(v))))
    {
      PopInv(Abs(), t);
      waitingConsumers := waitingConsumers + 1;
      if !closed && ring.size == 0 {
        threads := threads[t := AsleepConsumer];
      } else {
        waitingConsumers := waitingConsumers - 1;
        WaitPopTail(t);
      }
    }

    method WaitPopTail(t: nat)
      requires ring.Shape() && t < |threads| && (closed || ring.size > 0)
      modifies ring`head, ring`size, this`threads, this`popped
      ensures ring.Shape() && Abs() == PopStep(old(Abs()), t)
    {
      if ring.size == 0 {
        threads := threads[t := Idle(PopResult(None))];
      } else {
        var wasFull := ring.size == ring.capacity;
        var out := ring.Dequeue();
        popped := popped + [out];
        var notifyProducer := version.V2? || (wasFull && waitingProducers > 0);
        threads := threads[t := if notifyProducer then OwesProducer(out) else Idle(PopResult(Some(out)))];
      }
    }

    /** Waking from `wait` with the lock held again: the predicate is tested and may send it back. */
    method RelockConsumer(t: nat)
      requires Valid() && t < |threads| && threads[t].WokenConsumer?
      modifies ring`head, ring`size, this`waitingConsumers, this`threads, this`popped
      ensures Valid() && Abs() == RelockStep(old(Abs()), t)
      ensures old(ring.size) == 0 && old(closed) ==>
        threads[t] == Idle(PopResult(None)) && SameContents(old(Abs()), Abs())
      ensures old(ring.size) == 0 && !old(closed) ==> threads[t] == AsleepConsumer && SameContents(old(Abs()), Abs())
      ensures old(ring.size) > 0 ==>
        var v := old(ring.Contents())[0];
        TookFront(old(Abs()), Abs()) && (threads[t] == OwesProducer(v) || threads[t] == Idle(PopResult(Some(v))))
    {
      RelockInv(Abs(), t);
      WokenAreCounted(Abs(), t);
      hide Inv;
      if !closed && ring.size == 0 {
        threads := threads[t := AsleepConsumer];
      } else {
        waitingConsumers := waitingConsumers - 1;
        WaitPopTail(t);
      }
    }

    method RelockProducer(t: nat)
      requires Valid() && t < |threads| && threads[t].WokenProducer?
      modifies ring`tail, ring`size, this`waitingProducers, this`threads, this`pushed, ring.buffer
      ensures Valid() && Abs() == RelockStep(old(Abs()), t)
      ensures old(closed) ==> threads[t] == Idle(PushResult(false)) && SameContents(old(Abs()), Abs())
      ensures !old(closed) && old(ring.size) == ring.capacity ==>
        threads[t] == AsleepProducer(old(threads[t]).value) && SameContents(old(Abs()), Abs())
      ensures !old(closed) && old(ring.size) < ring.capacity ==>
        Appended(old(Abs()), Abs(), old(threads[t]).value) &&
        (threads[t].OwesConsumer? || threads[t] == Idle(PushResult(true)))
    {
      RelockInv(Abs(), t);
      WokenAreCounted(Abs(), t);
      hide Inv;
      var v := threads[t].value;
      if !closed && ring.size >= ring.capacity {
        threads := threads[t := AsleepProducer(v)];
      } else {
        waitingProducers := waitingProducers - 1;
        EmplaceTail(t, v);
      }
    }

    /** `try_emplace`; version 2 wakes consumer `w` while it still holds the lock. */
    method TryEmplace(t: nat, v: T, w: nat)
      requires Valid() && Enabled(Abs(), Event(t, Call(TryPush(v, w))))
      modifies ring`tail, ring`size, this`threads, this`pushed, ring.buffer
      ensures Valid() && Abs() == TryPushStep(old(Abs()), t, v, w)
      ensures old(closed) || old(ring.size) == ring.capacity ==>
        threads[t] == Idle(PushResult(false)) && SameContents(old(Abs()), Abs())
      ensures !old(closed) && old(ring.size) < ring.capacity ==>
        Appended(old(Abs()), Abs(), v) && (threads[t].OwesConsumer? || threads[t] == Idle(PushResult(true)))
    {
      TryPushInv(Abs(), t, v, w);
      if closed || ring.size >= ring.capacity {
        threads := threads[t := Idle(PushResult(false))];
        return;
      }
      var wasEmpty := ring.size == 0;
      ring.Enqueue(v);
      pushed := pushed + [v];
      if version.V2? {
        if wasEmpty && threads[w].AsleepConsumer? {
          threads := threads[w := WokenConsumer];
        }
        threads := threads[t := Idle(PushResult(true))];
      } else {
        var notifyConsumer := wasEmpty && waitingConsumers > 0;
        threads := threads[t := if notifyConsumer then OwesConsumer else Idle(PushResult(true))];
      }
    }

    method TryPop(t: nat)
      requires Valid() && t < |threads| && threads[t].Idle?
      modifies ring`head, ring`size, this`threads, this`popped
      ensures Valid() && Abs() == TryPopStep(old(Abs()), t)
      ensures old(ring.size) == 0 ==> threads[t] == Idle(PopResult(None)) && SameContents(old(Abs()), Abs())
      ensures old(ring.size) > 0 ==>
        threads[t] == Idle(PopResult(Some(old(ring.Contents())[0]))) && TookFront(old(Abs()), Abs())
    {
      TryPopInv(Abs(), t);
      if ring.size == 0 {
        threads := threads[t := Idle(PopResult(None))];
      } else {
        var out := ring.Dequeue();
        popped := popped + [out];
        threads := threads[t := Idle(PopResult(Some(out)))];
      }
    }

    method Close(t: nat)
      requires Valid() && t < |threads| && threads[t].Idle?
      modifies this`closed, this`threads
      ensures Valid() && Abs() == CallStep(old(Abs()), t, Operation.Close)
      ensures closed && threads[t] == ClosingConsumers && SameContents(old(Abs()), Abs())
    {
      CloseInv(Abs(), t);
      closed := true;
      threads := threads[t := ClosingConsumers];
    }

    /** The end of a call that owes a notification: it wakes `w`, if anybody sleeps there, and returns. */
    method NotifyOne(t: nat, w: nat)
      requires Valid() && Enabled(Abs(), Event(t, Action.NotifyOne(w)))
      modifies this`threads
      ensures Valid() && Abs() == NotifyOneStep(old(Abs()), t, w)
      ensures |threads| == |old(threads)|
      ensures old(threads[t]).OwesConsumer? ==> threads[t] == Idle(PushResult(true))
      ensures old(threads[t]).OwesConsumer? && old(threads[w]).AsleepConsumer? ==> threads[w] == WokenConsumer
      ensures old(threads[t]).OwesProducer? ==> threads[t] == Idle(PopResult(Some(old(threads[t]).out)))
      ensures old(threads[t]).OwesProducer? && old(threads[w]).AsleepProducer? ==>
        threads[w] == WokenProducer(old(threads[w]).value)
    {
      NextInv(Abs(), Event(t, Action.NotifyOne(w)));
      hide Inv;
      if threads[t].OwesConsumer? {
        if threads[w].AsleepConsumer? {
          threads := threads[w := WokenConsumer];
        }
        threads := threads[t := Idle(PushResult(true))];
      } else {
        var out := threads[t].out;
        if threads[w].AsleepProducer? {
          threads := threads[w := WokenProducer(threads[w].value)];
        }
        threads := threads[t := Idle(PopResult(Some(out)))];
      }
    }

    /** The two broadcasts of `close`, to the consumers and then to the producers. */
    method NotifyAll(t: nat)
      requires Valid() && t < |threads| && ClosesP(threads[t])
      modifies this`threads
      ensures Valid() && Abs() == NotifyAllStep(old(Abs()), t)
      ensures |threads| == |old(threads)|
      ensures old(threads[t]).ClosingConsumers? ==>
        threads[t] == ClosingProducers && forall u :: 0 <= u < |threads| ==> !threads[u].AsleepConsumer?
      ensures old(threads[t]).ClosingProducers? ==>
        threads[t] == Idle(CloseResult) && forall u :: 0 <= u < |threads| ==> !threads[u].AsleepProducer?
    {
      NextInv(Abs(), Event(t, Action.NotifyAll));
      hide Inv;
      var ths := threads;
      if threads[t].ClosingConsumers? {
        threads := seq(|ths|, u requires 0 <= u < |ths| => RouseC(ths[u]));
        threads := threads[t := ClosingProducers];
      } else {
        threads := seq(|ths|, u requires 0 <= u < |ths| => RouseP(ths[u]));
        threads := threads[t := Idle(CloseResult)];
      }
    }
  }

  ghost predicate SameContents<T>(s: State<T>, s': State<T>) {
    s'.queue == s.queue && s'.pushed == s.pushed && s'.popped == s.popped
  }

  ghost predicate Appended<T>(s: State<T>, s': State<T>, v: T) {
    s'.queue == s.queue + [v] && s'.pushed == s.pushed + [v] && s'.popped == s.popped
  }

  ghost predicate TookFront<T>(s: State<T>, s': State<T>) {
    s.queue != [] && s'.queue == s.queue[1..] && s'.popped == s.popped + [s.queue[0]] && s'.pushed == s.pushed
  }

  /** A woken thread is still counted as waiting. */
  lemma WokenAreCounted<T>(s: State<T>, t: nat)
    requires Inv(s) && t < |s.threads|
    ensures s.threads[t].WokenConsumer? ==> s.waitingConsumers > 0
    ensures s.threads[t].WokenProducer? ==> s.waitingProducers > 0
  {
    CountZero(s.threads, InWaitC);
    CountZero(s.threads, InWaitP);
  }
}
