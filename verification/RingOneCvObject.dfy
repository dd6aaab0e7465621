/** The first bounded mutex queue as an object: the circular buffer and one method per critical section. */
module RingOneCvObject {
  import opened RingBuffer
  import opened RingOneCv
  import opened Wrappers

  ghost predicate SameContents<T>(s: State<T>, s': State<T>) {
    s'.queue == s.queue && s'.pushed == s.pushed && s'.popped == s.popped
  }

  ghost predicate Appended<T>(s: State<T>, s': State<T>, v: T) {
    s'.queue == s.queue + [v] && s'.pushed == s.pushed + [v] && s'.popped == s.popped
  }

  ghost predicate TookFront<T>(s: State<T>, s': State<T>) {
    s.queue != [] && s'.queue == s.queue[1..] && s'.popped == s.popped + [s.queue[0]] && s'.pushed == s.pushed
  }

  class RingMutexMpmcQueueV1<T(0)> {
    const ring: CircularBuffer<T>
    var closed: bool
    /** Where each thread is. */
    var threads: seq<Thread<T>>
    ghost var pushed: seq<T>
    ghost var popped: seq<T>

    ghost function Abs(): State<T>
      reads this, ring, ring.buffer
      requires ring.Shape()
    {
      State(ring.capacity, ring.Contents(), closed, threads, pushed, popped)
    }

    ghost predicate Valid()
      reads this, ring, ring.buffer
    {
      ring.Shape() && Inv(Abs())
    }

    constructor (requested: nat, threadCount: nat)
      ensures Valid() && Abs() == Init(requested, threadCount) && fresh(ring) && fresh(ring.buffer)
    {
      ring := new CircularBuffer<T>(requested);
      closed := false;
      threads := seq(threadCount, t => Idle(Nothing));
      pushed, popped := [], [];
    }

    /** `emplace` from the test of its wait on: entered by a call, or again after waking. */
    method Emplace(t: nat, v: T)
      requires Valid() && t < |threads| && (threads[t].Idle? || threads[t] == WokenProducer(v))
      modifies ring`tail, ring`size, ring.buffer, this`threads, this`pushed
      ensures Valid() && Abs() == PushStep(old(Abs()), t, v)
      ensures old(closed) ==> threads[t] == Idle(PushResult(false)) && SameContents(old(Abs()), Abs())
      ensures !old(closed) && old(ring.size) == ring.capacity ==>
        threads[t] == AsleepProducer(v) && SameContents(old(Abs()), Abs())
      ensures !old(closed) && old(ring.size) < ring.capacity ==>
        threads[t] == OwesAll(PushResult(true)) && Appended(old(Abs()), Abs(), v)
    {
      PushKeeps(Abs(), t, v);
      hide Inv;
      if !closed && ring.size >= ring.capacity {
        threads := threads[t := AsleepProducer(v)];
      } else if closed {
        threads := threads[t := Idle(PushResult(false))];
      } else {
        ring.Enqueue(v);
        pushed := pushed + [v];
        threads := threads[t := OwesAll(PushResult(true))];
      }
    }

    /** `wait_pop` from the test of its wait on: entered by a call, or again after waking. */
    method WaitPop(t: nat)
      requires Valid() && t < |threads| && (threads[t].Idle? || threads[t].WokenConsumer?)
      modifies ring`head, ring`size, this`threads, this`popped
      ensures Valid() && Abs() == PopStep(old(Abs()), t)
      ensures old(ring.size) == 0 && old(closed) ==>
        threads[t] == Idle(PopResult(None)) && SameContents(old(Abs()), Abs())
      ensures old(ring.size) == 0 && !old(closed) ==> threads[t] == AsleepConsumer && SameContents(old(Abs()), Abs())
      ensures old(ring.size) > 0 ==>
        threads[t] == OwesAll(PopResult(Some(old(ring.Contents())[0]))) && TookFront(old(Abs()), Abs())
    {
      PopKeeps(Abs(), t);
      hide Inv;
      if !closed && ring.size == 0 {
        threads := threads[t := AsleepConsumer];
      } else if ring.size == 0 {
        threads := threads[t := Idle(PopResult(None))];
      } else {
        var out := ring.Dequeue();
        popped := popped + [out];
        threads := threads[t := OwesAll(PopResult(Some(out)))];
      }
    }

    method TryEmplace(t: nat, v: T)
      requires Valid() && t < |threads| && threads[t].Idle?
      modifies ring`tail, ring`size, ring.buffer, this`threads, this`pushed
      ensures Valid() && Abs() == TryPushStep(old(Abs()), t, v)
      ensures old(closed) || old(ring.size) == ring.capacity ==>
        threads[t] == Idle(PushResult(false)) && SameContents(old(Abs()), Abs())
      ensures !old(closed) && old(ring.size) < ring.capacity ==>
        threads[t] == Idle(PushResult(true)) && Appended(old(Abs()), Abs(), v)
    {
      TryPushKeeps(Abs(), t, v);
      hide Inv;
      if closed || ring.size >= ring.capacity {
        threads := threads[t := Idle(PushResult(false))];
        return;
      }
      ring.Enqueue(v);
      pushed := pushed + [v];
      NotifyEverybody();
      threads := threads[t := Idle(PushResult(true))];
    }

    method TryPop(t: nat)
      requires Valid() && t < |threads| && threads[t].Idle?
      modifies ring`head, ring`size, this`threads, this`popped
      ensures Valid() && Abs() == TryPopStep(old(Abs()), t)
      ensures old(ring.size) == 0 ==> threads[t] == Idle(PopResult(None)) && SameContents(old(Abs()), Abs())
      ensures old(ring.size) > 0 ==>
        threads[t] == Idle(PopResult(Some(old(ring.Contents())[0]))) && TookFront(old(Abs()), Abs())
    {
      TryPopKeeps(Abs(), t);
      hide Inv;
      if ring.size == 0 {
        threads := threads[t := Idle(PopResult(None))];
      } else {
        var out := ring.Dequeue();
        popped := popped + [out];
        threads := threads[t := Idle(PopResult(Some(out)))];
      }
    }

    method Close(t: nat)
      requires Valid() && t < |threads| && threads[t].Idle?
      modifies this`closed, this`threads
      ensures Valid() && Abs() == CloseStep(old(Abs()), t)
      ensures closed && threads[t] == OwesAll(CloseResult) && SameContents(old(Abs()), Abs())
    {
      CloseKeeps(Abs(), t);
      closed := true;
      threads := threads[t := OwesAll(CloseResult)];
    }

    /** The end of a call: it wakes everybody and returns what it owed. */
    method NotifyAll(t: nat)
      requires Valid() && t < |threads| && threads[t].OwesAll?
      modifies this`threads
      ensures Valid() && Abs() == Next(old(Abs()), Event(t, Action.NotifyAll))
      ensures |threads| == |old(threads)| && threads[t] == Idle(old(threads[t]).result)
      ensures forall u :: 0 <= u < |threads| ==> !threads[u].AsleepConsumer? && !threads[u].AsleepProducer?
    {
      NextKeeps(Abs(), Event(t, Action.NotifyAll));
      hide Inv;
      var result := threads[t].result;
      NotifyEverybody();
      threads := threads[t := Idle(result)];
    }

    /** `cv_.notify_all()`: every sleeper, of either kind, has to relock. */
    method NotifyEverybody()
      requires ring.Shape()
      modifies this`threads
      ensures ring.Shape() && Abs() == Roused(old(Abs()))
    {
      var ths := threads;
      threads := seq(|ths|, u requires 0 <= u < |ths| => Rouse(ths[u]));
    }
  }
}
