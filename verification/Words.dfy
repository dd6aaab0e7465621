/** 64-bit unsigned words: masking, signed reinterpretation, and the capacity rounding loop. */
module Words {
  import opened Tickets

  const TWO_63: nat := 0x8000_0000_0000_0000
  const TWO_64: nat := 0x1_0000_0000_0000_0000

  function Pow2(k: nat): (p: nat)
    ensures p >= 1
  {
    if k == 0 then 1 else 2 * Pow2(k - 1)
  }

  ghost predicate IsPow2(n: nat) { exists k: nat :: n == Pow2(k) }

  lemma {:induction false} Pow2Monotone(j: nat, k: nat)
    requires j <= k
    ensures Pow2(j) <= Pow2(k)
    ensures j < k ==> 2 * Pow2(j) <= Pow2(k)
  {
    if j < k { Pow2Monotone(j, k - 1); }
  }

  lemma Pow2Of63()
    ensures Pow2(63) == TWO_63 && Pow2(64) == TWO_64
  {
    assert Pow2(8) == 0x100;
    assert Pow2(16) == 0x1_0000 by { assert Pow2(12) == 0x1000; }
    assert Pow2(24) == 0x100_0000 by { assert Pow2(20) == 0x10_0000; }
    assert Pow2(32) == 0x1_0000_0000 by { assert Pow2(28) == 0x1000_0000; }
    assert Pow2(40) == 0x100_0000_0000 by { assert Pow2(36) == 0x10_0000_0000; }
    assert Pow2(48) == 0x1_0000_0000_0000 by { assert Pow2(44) == 0x1000_0000_0000; }
    assert Pow2(56) == 0x100_0000_0000_0000 by { assert Pow2(52) == 0x10_0000_0000_0000; }
    assert Pow2(63) == TWO_63 by { assert Pow2(60) == 0x1000_0000_0000_0000; }
  }

  /** Bitwise conjunction, one binary digit at a time. */
  function And(a: nat, b: nat): nat {
    if a == 0 || b == 0 then 0 else 2 * And(a / 2, b / 2) + (a % 2) * (b % 2)
  }

  lemma ModDouble(x: nat, p: nat)
    requires p > 0
    ensures x % (2 * p) == 2 * ((x / 2) % p) + x % 2
  {
    var q, r := (x / 2) / p, (x / 2) % p;
    assert x == q * (2 * p) + (2 * r + x % 2);
    DivisionUnique(x / (2 * p), x % (2 * p), q, 2 * r + x % 2, 2 * p);
  }

  /** Masking with `2^k - 1` is the remainder by `2^k`. */
  lemma {:induction false} AndMask(x: nat, k: nat)
    ensures And(x, Pow2(k) - 1) == x % Pow2(k)
    decreases k
  {
    if k > 0 {
      var p := Pow2(k - 1);
      AndMask(x / 2, k - 1);
      ModDouble(x, p);
      assert (2 * p - 1) / 2 == p - 1 && (2 * p - 1) % 2 == 1;
      if x > 0 && p == 1 { assert And(x / 2, 0) == 0; }
    }
  }

  /** `pos & mask` is the slot of `pos` for every power-of-two capacity. */
  lemma MaskIsSlot(pos: nat, cap: nat)
    requires IsPow2(cap) && cap > 0
    ensures And(pos, cap - 1) == Slot(pos, cap)
  {
    var k: nat :| cap == Pow2(k);
    AndMask(pos, k);
  }

  function Wrap(x: int): (w: nat)
    ensures w < TWO_64
  {
    x % TWO_64
  }

  lemma WrapSmall(x: nat)
    requires x < TWO_64
    ensures Wrap(x) == x
  {
  }

  /** The two's-complement reading of a word. */
  function Signed(w: nat): (i: int)
    requires w < TWO_64
  {
    if w < TWO_63 then w else w - TWO_64
  }

  /** The signed difference of two words that the queue branches on. */
  function Dif(sequence: nat, pos: nat): int
    requires sequence < TWO_64 && pos < TWO_64
  {
    Signed(sequence) - Signed(pos)
  }

  /** Both words have the same top bit. */
  predicate SameSide(a: nat, b: nat) { a < TWO_63 <==> b < TWO_63 }

  /** The signed difference is the true one exactly when both words have the same top bit. */
  lemma DifExactIff(sequence: nat, pos: nat)
    requires sequence < TWO_64 && pos < TWO_64
    ensures Dif(sequence, pos) == sequence - pos <==> SameSide(sequence, pos)
    ensures Dif(sequence, pos) == 0 <==> sequence == pos
    ensures !SameSide(sequence, pos) ==> (Dif(sequence, pos) < 0 <==> sequence > pos)
  {
  }

  /**
   Where two nearby words straddle 2^63, the subtraction leaves the signed 64-bit range, on the side
   opposite to the true difference.
   */
  lemma DifStraddlingOverflows(sequence: nat, pos: nat)
    requires sequence < TWO_64 && pos < TWO_64 && !SameSide(sequence, pos)
    requires pos < sequence + TWO_63 && sequence < pos + TWO_63
    ensures if sequence > pos then Dif(sequence, pos) + TWO_63 < 0 else Dif(sequence, pos) > TWO_63
  {
  }

  /** The capacity the constructors use, by doubling until the request fits. */
  method NormalizeCapacity(capacity: nat) returns (r: nat)
    requires capacity <= TWO_63
    ensures IsPow2(r) && r >= 2 && r >= capacity && r < TWO_64
    ensures forall p: nat :: IsPow2(p) && p >= 2 && p >= capacity ==> r <= p
  {
    var normalized := 1;
    ghost var k: nat := 0;
    Pow2Of63();
    while normalized < capacity
      invariant normalized == Pow2(k) && k <= 63
      invariant k > 0 ==> Pow2(k - 1) < capacity
      decreases 63 - k
    {
      if k == 63 { assert false; }
      Pow2Monotone(k + 1, 63);
      normalized := Wrap(normalized * 2);
      k := k + 1;
    }
    r := if normalized < 2 then 2 else normalized;
    assert IsPow2(2) by { assert Pow2(1) == 2; }
    Pow2Monotone(k, 63);
    forall p: nat | IsPow2(p) && p >= 2 && p >= capacity ensures r <= p {
      var j: nat :| p == Pow2(j);
      if j < k { Pow2Monotone(j, k - 1); } else { Pow2Monotone(k, j); }
    }
  }

  /** The loop variable of the rounding loop after `k` shifts of a 64-bit word. */
  function Shifted(k: nat): nat {
    if k == 0 then 1 else Wrap(Shifted(k - 1) * 2)
  }

  /** Powers below the 64th fit a word with room for one more doubling up to 2^64. */
  lemma Pow2InWord(k: nat)
    requires 0 < k <= 64
    ensures Pow2(k) == 2 * Pow2(k - 1)
    ensures if k < 64 then Pow2(k) <= TWO_63 else Pow2(k) == TWO_64
  {
    Pow2Of63();
    if k < 64 { Pow2Monotone(k, 63); }
  }

  lemma {:induction false} ShiftedIs(k: nat)
    ensures Shifted(k) == if k < 64 then Pow2(k) else 0
  {
    if 0 < k {
      hide Pow2, Wrap;
      ShiftedIs(k - 1);
      if k <= 64 {
        Pow2InWord(k);
        if k < 64 { WrapSmall(Pow2(k)); }
      }
      WrapMultiple();
    }
  }

  lemma WrapMultiple()
    ensures Wrap(0) == 0 && Wrap(TWO_64) == 0
  {
  }

  /** The rounding loop stops exactly for requests up to 2^63. */
  lemma RoundingStopsIff(capacity: nat)
    requires capacity < TWO_64
    ensures (exists k: nat :: Shifted(k) >= capacity) <==> capacity <= TWO_63
  {
    Pow2Of63();
    if capacity <= TWO_63 {
      ShiftedIs(63);
    } else {
      forall k: nat ensures Shifted(k) < capacity {
        ShiftedIs(k);
        if k < 64 { Pow2Monotone(k, 63); }
      }
    }
  }
}
