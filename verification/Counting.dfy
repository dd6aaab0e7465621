/** Counting and summing over the threads of a system. */
module Counting {

  /** How many elements of `s` satisfy `p`. */
  function Count<T>(s: seq<T>, p: T -> bool): (n: nat)
    ensures n <= |s|
  {
    if s == [] then 0 else (if p(s[0]) then 1 else 0) + Count(s[1..], p)
  }

  function One(b: bool): nat { if b then 1 else 0 }

  /** Replacing one element changes the count by that element only. */
  lemma {:induction false} CountUpdate<T>(s: seq<T>, i: nat, x: T, p: T -> bool)
    requires i < |s|
    ensures Count(s[i := x], p) + One(p(s[i])) == Count(s, p) + One(p(x))
  {
    if i == 0 {
      assert s[i := x][1..] == s[1..];
    } else {
      CountUpdate(s[1..], i - 1, x, p);
      assert s[i := x][1..] == s[1..][i - 1 := x];
    }
  }

  lemma {:induction false} CountZero<T>(s: seq<T>, p: T -> bool)
    ensures Count(s, p) == 0 <==> forall i :: 0 <= i < |s| ==> !p(s[i])
  {
    if s != [] {
      CountZero(s[1..], p);
      assert forall i :: 1 <= i < |s| ==> s[i] == s[1..][i - 1];
      assert forall i :: 0 <= i < |s| - 1 ==> s[1..][i] == s[i + 1];
    }
  }

  /** A weaker property is satisfied at least as often. */
  lemma {:induction false} CountMonotone<T>(s: seq<T>, p: T -> bool, q: T -> bool)
    requires forall i :: 0 <= i < |s| && p(s[i]) ==> q(s[i])
    ensures Count(s, p) <= Count(s, q)
  {
    if s != [] {
      assert p(s[0]) ==> q(s[0]);
      assert forall i :: 0 <= i < |s| - 1 ==> s[1..][i] == s[i + 1];
      CountMonotone(s[1..], p, q);
    }
  }

  function Sum(s: seq<int>): int {
    if s == [] then 0 else s[0] + Sum(s[1..])
  }

  lemma {:induction false} SumUpdate(s: seq<int>, i: nat, x: int)
    requires i < |s|
    ensures Sum(s[i := x]) == Sum(s) - s[i] + x
  {
    if i == 0 {
      assert s[i := x][1..] == s[1..];
    } else {
      SumUpdate(s[1..], i - 1, x);
      assert s[i := x][1..] == s[1..][i - 1 := x];
    }
  }

  lemma {:induction false} SumZero(s: seq<int>)
    requires forall i :: 0 <= i < |s| ==> s[i] == 0
    ensures Sum(s) == 0
  {
    if s != [] { SumZero(s[1..]); }
  }

  lemma {:induction false} SumNonNegative(s: seq<int>)
    requires forall i :: 0 <= i < |s| ==> s[i] >= 0
    ensures Sum(s) >= 0
  {
    if s != [] { SumNonNegative(s[1..]); }
  }

  lemma OneTimeMore(d: nat, n: int)
    ensures d * (n - 1) + d == d * n
  {
  }

  /** If every element grows by at most `d`, the sum grows by at most `d` times their number. */
  lemma {:induction false} SumAll(a: seq<int>, b: seq<int>, d: nat)
    requires |a| == |b| && forall u :: 0 <= u < |a| ==> b[u] <= a[u] + d
    ensures Sum(b) <= Sum(a) + d * |a|
  {
    if a != [] {
      SumAll(a[1..], b[1..], d);
      OneTimeMore(d, |a|);
    }
  }

  /** The total of `w` over the items of `s`. */
  function Weight<T>(s: seq<T>, w: T -> int): int {
    if s == [] then 0 else w(s[0]) + Weight(s[1..], w)
  }

  lemma {:induction false} WeightConcat<T>(a: seq<T>, b: seq<T>, w: T -> int)
    ensures Weight(a + b, w) == Weight(a, w) + Weight(b, w)
  {
    if a == [] {
      assert a + b == b;
    } else {
      WeightConcat(a[1..], b, w);
      assert (a + b)[1..] == a[1..] + b;
    }
  }

  lemma WeightSnoc<T>(a: seq<T>, x: T, w: T -> int)
    ensures Weight(a + [x], w) == Weight(a, w) + w(x)
  {
    WeightConcat(a, [x], w);
  }

  /** The weight that counts the occurrences of `v`. */
  function Indicator<T(==)>(v: T): T -> int { x => if x == v then 1 else 0 }

  lemma {:induction false} Multiplicity<T>(s: seq<T>, v: T)
    ensures multiset(s)[v] == Weight(s, Indicator(v))
  {
    if s != [] {
      assert s == [s[0]] + s[1..];
      Multiplicity(s[1..], v);
    }
  }
}
