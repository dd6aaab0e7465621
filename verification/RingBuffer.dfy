/** The circular buffer that all versions of the bounded mutex queue keep under their lock. */
module RingBuffer {
  import opened Tickets

  /** The buffer index `i` places after `head`. */
  function Index(head: nat, i: nat, cap: nat): (r: nat)
    requires cap > 0
    ensures r < cap
  {
    Slot(head + i, cap)
  }

  /** The `size` values of a circular buffer from `head` on, oldest first. */
  function Circular<T>(buffer: seq<T>, head: nat, size: nat): (q: seq<T>)
    requires |buffer| > 0
    ensures |q| == size
  {
    seq(size, i requires 0 <= i < size => buffer[Index(head, i, |buffer|)])
  }

  /** The index after the tail, and the tail seen from the next head. */
  lemma IndexSteps(head: nat, size: nat, cap: nat)
    requires cap > 0
    ensures Slot(Index(head, size, cap) + 1, cap) == Index(head, size + 1, cap)
    ensures size > 0 ==> Index(Index(head, 1, cap), size - 1, cap) == Index(head, size, cap)
  {
    hide Slot;
    SlotShift(head + size, 1, cap);
    if size > 0 { SlotShift(head + 1, size - 1, cap); }
  }

  /** Writing at the tail index appends, for any capacity. */
  lemma CircularPush<T>(buffer: seq<T>, head: nat, size: nat, v: T)
    requires size < |buffer|
    ensures Circular(buffer[Index(head, size, |buffer|) := v], head, size + 1) == Circular(buffer, head, size) + [v]
  {
    hide Slot;
    var cap := |buffer|;
    forall i: nat | i < size ensures Index(head, i, cap) != Index(head, size, cap) {
      if Index(head, i, cap) == Index(head, size, cap) { SlotInjective(head + i, head + size, cap); }
    }
  }

  /** Advancing the head index drops the oldest value. */
  lemma CircularPop<T>(buffer: seq<T>, head: nat, size: nat)
    requires 0 < size && head < |buffer|
    ensures Circular(buffer, head, size)[0] == buffer[head]
    ensures Circular(buffer, Index(head, 1, |buffer|), size - 1) == Circular(buffer, head, size)[1..]
  {
    hide Slot;
    var cap := |buffer|;
    SlotSmall(head, cap);
    forall i: nat | i < size - 1 ensures Index(Index(head, 1, cap), i, cap) == Index(head, i + 1, cap) {
      SlotShift(head + 1, i, cap);
    }
  }

  class CircularBuffer<T(0)> {
    const capacity: nat
    const buffer: array<T>
    var head: nat
    var tail: nat
    var size: nat

    /** The indices fit the buffer, for any capacity. */
    ghost predicate Shape()
      reads this
    {
      capacity == buffer.Length > 0 && head < capacity && size <= capacity &&
      tail == Index(head, size, capacity)
    }

    /** The circular slice that holds the values, oldest first. */
    ghost function Contents(): (q: seq<T>)
      reads this, buffer
      requires Shape()
      ensures |q| == size
    {
      Circular(buffer[..], head, size)
    }

    constructor (requested: nat)
      ensures Shape() && Contents() == [] && fresh(buffer)
      ensures capacity == if requested == 0 then 1 else requested
    {
      capacity := if requested == 0 then 1 else requested;
      buffer := new T[if requested == 0 then 1 else requested];
      head, tail, size := 0, 0, 0;
      new;
      SlotSmall(0, capacity);
    }

    function NextIndex(index: nat): nat
      requires capacity > 0
    {
      Slot(index + 1, capacity)
    }

    /** Puts a value behind the newest one. */
    method Enqueue(v: T)
      requires Shape() && size < capacity
      modifies this`tail, this`size, buffer
      ensures Shape() && Contents() == old(Contents()) + [v]
    {
      CircularPush(buffer[..], head, size, v);
      IndexSteps(head, size, capacity);
      hide Index, Circular, Slot;
      buffer[tail] := v;
      tail := NextIndex(tail);
      size := size + 1;
    }

    /** Takes the oldest value. */
    method Dequeue() returns (out: T)
      requires Shape() && size > 0
      modifies this`head, this`size
      ensures Shape() && out == old(Contents())[0] && Contents() == old(Contents())[1..]
    {
      CircularPop(buffer[..], head, size);
      IndexSteps(head, size, capacity);
      hide Index, Circular, Slot;
      out := buffer[head];
      head := NextIndex(head);
      size := size - 1;
    }
  }
}
