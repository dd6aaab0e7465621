/** Ticket and slot arithmetic shared by the slot-sequence queue. */
module Tickets {

  /** The cell that ticket `pos` uses in an array of `cap` cells. */
  function Slot(pos: nat, cap: nat): (i: nat)
    requires cap > 0
    ensures i < cap
  {
    pos % cap
  }

  lemma MulGap(q: int, q': int, cap: nat)
    requires q < q'
    ensures q * cap + cap <= q' * cap
  {
    var d := q' - q - 1;
    assert q' * cap == q * cap + cap + d * cap;
    assert d * cap >= 0;
  }

  /** Euclidean division is unique: quotient and remainder are determined. */
  lemma DivisionUnique(q: int, r: nat, q': int, r': nat, cap: nat)
    requires r < cap && r' < cap
    requires q * cap + r == q' * cap + r'
    ensures q == q' && r == r'
  {
    if q < q' {
      MulGap(q, q', cap);
    } else if q' < q {
      MulGap(q', q, cap);
    }
  }

  /** Within one lap, two tickets that share a cell are the same ticket. */
  lemma SlotInjective(a: nat, b: nat, cap: nat)
    requires cap > 0 && a <= b < a + cap
    requires Slot(a, cap) == Slot(b, cap)
    ensures a == b
  {
    if a / cap < b / cap {
      MulGap(a / cap, b / cap, cap);
    } else if b / cap < a / cap {
      MulGap(b / cap, a / cap, cap);
    }
  }

  /** A ticket one lap later uses the same cell. */
  lemma SlotPeriodic(a: nat, cap: nat)
    requires cap > 0
    ensures Slot(a + cap, cap) == Slot(a, cap)
  {
    DivisionUnique((a + cap) / cap, (a + cap) % cap, a / cap + 1, a % cap, cap);
  }

  /** A ticket below the capacity is its own slot. */
  lemma SlotSmall(a: nat, cap: nat)
    requires a < cap
    ensures Slot(a, cap) == a
  {
    DivisionUnique(a / cap, a % cap, 0, a, cap);
  }

  /** With at least two cells, consecutive tickets use different cells. */
  lemma SlotAdjacent(a: nat, cap: nat)
    requires cap >= 2
    ensures Slot(a, cap) != Slot(a + 1, cap)
  {
    if Slot(a, cap) == Slot(a + 1, cap) {
      SlotInjective(a, a + 1, cap);
    }
  }

  /** Advancing a slot is advancing its ticket. */
  lemma SlotShift(a: nat, b: nat, cap: nat)
    requires cap > 0
    ensures Slot(Slot(a, cap) + b, cap) == Slot(a + b, cap)
  {
    var x := Slot(a, cap) + b;
    assert a + b == a / cap * cap + x;
    DivisionUnique((a + b) / cap, (a + b) % cap, a / cap + x / cap, x % cap, cap);
  }
}
