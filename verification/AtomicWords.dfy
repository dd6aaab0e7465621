/** How many tickets the 64-bit words of the slot-sequence queue can tell apart by their signed difference. */
module AtomicWords {
  import opened Tickets
  import opened Words
  import opened AtomicQueue
  import opened AtomicInvariant
  import opened AtomicProperties
  import opened AtomicRuns

  /** The signed difference that thread `t`'s sequence load is about to compute on words is the true one. */
  ghost predicate LoadExact(s: State, t: nat) {
    t < |s.threads| && |s.cells| > 0 ==>
      match s.threads[t]
      case PushLoadSeq(_, pos) =>
        Dif(Wrap(CellOf(s, pos).sequence), Wrap(pos)) == CellOf(s, pos).sequence - pos
      case PopLoadSeq(pos) =>
        Dif(Wrap(CellOf(s, pos).sequence), Wrap(pos + 1)) == CellOf(s, pos).sequence - (pos + 1)
      case _ => true
  }

  /** With `n` threads, every load is exact in every reachable state with at most `tickets` pushed. */
  ghost predicate ExactUpTo(cap: nat, n: nat, tickets: nat) {
    forall es: seq<Event<int>>, t: nat ::
      ValidRun(Init(cap, n), es) && Exec(Init<int>(cap, n), es).enqueuePos <= tickets ==>
      LoadExact(Exec(Init<int>(cap, n), es), t)
  }

  lemma BelowIsExact(sequence: nat, pos: nat)
    requires sequence < TWO_63 && pos < TWO_63
    ensures Dif(Wrap(sequence), Wrap(pos)) == sequence - pos
  {
    WrapSmall(sequence);
    WrapSmall(pos);
    DifExactIff(sequence, pos);
  }

  lemma StraddlingIsNot(sequence: nat, pos: nat)
    requires sequence < TWO_64 && pos < TWO_64 && !SameSide(sequence, pos)
    ensures Dif(Wrap(sequence), Wrap(pos)) != sequence - pos
  {
    WrapSmall(sequence);
    WrapSmall(pos);
    DifExactIff(sequence, pos);
  }

  /** A cell's sequence is less than a lap ahead of the pushed tickets. */
  lemma SequenceBound(s: State<int>, pos: nat)
    requires Inv(s)
    ensures CellOf(s, pos).sequence < s.enqueuePos + |s.cells|
  {
    assert CellInv(s, Slot(pos, |s.cells|));
  }

  lemma FewTicketsExact(s: State<int>, t: nat)
    requires Inv(s) && s.enqueuePos + |s.cells| <= TWO_63
    ensures LoadExact(s, t)
  {
    hide Slot, Dif, Wrap;
    if t < |s.threads| {
      assert ThreadInv(s, t);
      match s.threads[t]
      case PushLoadSeq(_, pos) =>
        SequenceBound(s, pos);
        BelowIsExact(CellOf(s, pos).sequence, pos);
      case PopLoadSeq(pos) =>
        SequenceBound(s, pos);
        BelowIsExact(CellOf(s, pos).sequence, pos + 1);
      case _ =>
    }
  }

  // A single thread is never behind the counters.

  ghost predicate PushUpToDate(s: State, pc: Pc) { pc.PushLoadSeq? || pc.PushCas? ==> pc.pos == s.enqueuePos }

  ghost predicate PopUpToDate(s: State, pc: Pc) { pc.PopLoadSeq? || pc.PopCas? ==> pc.pos == s.dequeuePos }

  ghost predicate UpToDate(s: State) {
    |s.threads| == 1 && PushUpToDate(s, s.threads[0]) && PopUpToDate(s, s.threads[0])
  }

  lemma RunPushUpToDate(s: State<int>, t: nat)
    requires Enabled(s, Event(t, Run)) && |RunStep(s, t).threads| == |s.threads| && PushUpToDate(s, s.threads[t])
    ensures PushUpToDate(RunStep(s, t), RunStep(s, t).threads[t])
  {
    hide Slot, CellOf;
  }

  lemma RunPopUpToDate(s: State<int>, t: nat)
    requires Enabled(s, Event(t, Run)) && |RunStep(s, t).threads| == |s.threads| && PopUpToDate(s, s.threads[t])
    ensures PopUpToDate(RunStep(s, t), RunStep(s, t).threads[t])
  {
    hide Slot, CellOf;
  }

  lemma NextUpToDate(s: State<int>, e: Event<int>)
    requires Enabled(s, e) && UpToDate(s)
    ensures UpToDate(Next(s, e))
  {
    hide RunStep;
    SameShape(s, e);
    if e.action.Run? {
      RunPushUpToDate(s, e.thread);
      RunPopUpToDate(s, e.thread);
    }
  }

  lemma {:induction false} RunsUpToDate(s: State<int>, es: seq<Event<int>>)
    requires ValidRun(s, es) && UpToDate(s)
    ensures UpToDate(Exec(s, es))
    decreases |es|
  {
    hide Next, Enabled, UpToDate;
    if es != [] {
      NextUpToDate(s, es[0]);
      RunsUpToDate(Next(s, es[0]), es[1..]);
    }
  }

  /** The cell of a counter's own position is never ahead of it by more than its publication. */
  lemma CurrentSequence(s: State<int>, pos: nat)
    requires Inv(s) && s.dequeuePos <= pos <= s.enqueuePos
    ensures CellOf(s, pos).sequence <= pos + 1
    ensures pos == s.enqueuePos ==> CellOf(s, pos).sequence <= pos
  {
    var i, cap := Slot(pos, |s.cells|), |s.cells|;
    assert CellInv(s, i);
    var k := s.hist.tickets[i];
    if pos < k < pos + cap { SlotInjective(pos, k, cap); }
  }

  lemma LoneThreadExact(s: State<int>, t: nat)
    requires Inv(s) && UpToDate(s) && s.enqueuePos + 2 <= TWO_63
    ensures LoadExact(s, t)
  {
    hide Slot, Dif, Wrap;
    if t == 0 {
      match s.threads[0]
      case PushLoadSeq(_, pos) =>
        CurrentSequence(s, pos);
        BelowIsExact(CellOf(s, pos).sequence, pos);
      case PopLoadSeq(pos) =>
        CurrentSequence(s, pos);
        BelowIsExact(CellOf(s, pos).sequence, pos + 1);
      case _ =>
    }
  }

  // The first load that is not exact.

  /**
   A single thread: after 2^63 - 1 values have gone in and out, a pop of the empty queue subtracts 2^63
   from the sequence 2^63 - 1, and the difference of -1 comes out as 2^64 - 1.
   */
  lemma QuietQueueMisjudged(cap: nat) returns (es: seq<Event<int>>, s: State<int>)
    requires cap >= 2
    ensures ValidRun(Init(cap, 1), es) && Exec(Init(cap, 1), es) == s
    ensures s.enqueuePos == s.dequeuePos == TWO_63 - 1 && s.threads == [PopLoadSeq(TWO_63 - 1)]
    ensures |s.cells| == cap && CellOf(s, TWO_63 - 1).sequence == TWO_63 - 1
    ensures Dif(TWO_63 - 1, TWO_63) == TWO_64 - 1
  {
    var c := Usage(1, 1);
    s := Cycle(c, cap, 1, 0, TWO_63 - 1);
    hide Reachable, Slot;
    assert CellOf(s, TWO_63 - 1) == Cell(TWO_63 - 1, Empty);
    s := BeginsPop(c, Init(cap, 1), s, 0);
    es := RunTo(c, Init(cap, 1), s);
  }

  /**
   Two or more threads: a push that loaded its position one lap before 2^63 finds its cell already released for
   ticket 2^63.
   */
  lemma StalePushMisjudged(cap: nat, n: nat) returns (es: seq<Event<int>>, s: State<int>)
    requires 2 <= cap <= TWO_63 && n >= 2
    ensures ValidRun(Init(cap, n), es) && Exec(Init(cap, n), es) == s && |s.threads| == n && |s.cells| == cap
    ensures s.threads[1] == PushLoadSeq(8, TWO_63 - cap) && s.enqueuePos == TWO_63 - cap + 1
    ensures CellOf(s, TWO_63 - cap).sequence == TWO_63
  {
    var c, s0, p := Usage(2, 2), Init<int>(cap, n), TWO_63 - cap;
    s := Cycle(c, cap, n, 0, p);
    hide Reachable, Slot;
    assert CellOf(s, p) == Cell(p, Empty);
    s := BeginsPush(c, s0, s, 1, 8);
    s := Pushes(c, s0, s, 0, 7);
    s := WinsPop(c, s0, s, 0);
    s := CompletesPop(c, s0, s, 0);
    es := RunTo(c, s0, s);
  }

  /**
   For every capacity up to 2^63: all loads are exact up to 2^63 - capacity tickets, and no further once
   there are two threads; a single thread gets to 2^63 - 2.
   */
  lemma ExactUpToIff(cap: nat, n: nat, tickets: nat)
    requires 2 <= cap <= TWO_63
    ensures ExactUpTo(cap, n, tickets) <==>
      n == 0 || tickets + cap <= TWO_63 || (n == 1 && tickets + 2 <= TWO_63)
  {
    if n == 0 || tickets + cap <= TWO_63 || (n == 1 && tickets + 2 <= TWO_63) {
      forall es: seq<Event<int>>, t: nat
        | ValidRun(Init(cap, n), es) && Exec(Init<int>(cap, n), es).enqueuePos <= tickets
        ensures LoadExact(Exec(Init<int>(cap, n), es), t)
      {
        ExactRun(cap, n, tickets, es, t);
      }
    } else {
      InexactRun(cap, n, tickets);
    }
  }

  lemma {:induction false} ExactRun(cap: nat, n: nat, tickets: nat, es: seq<Event<int>>, t: nat)
    requires 2 <= cap <= TWO_63 && ValidRun(Init(cap, n), es) && Exec(Init<int>(cap, n), es).enqueuePos <= tickets
    requires n == 0 || tickets + cap <= TWO_63 || (n == 1 && tickets + 2 <= TWO_63)
    ensures LoadExact(Exec(Init<int>(cap, n), es), t)
  {
    var s := Exec(Init<int>(cap, n), es);
    InitInv<int>(cap, n);
    assert n == 1 ==> UpToDate(Init<int>(cap, n));
    hide UpToDate, Inv, LoadExact;
    RunsKeepInv(Init(cap, n), es);
    RunShape(Init(cap, n), es);
    if tickets + cap <= TWO_63 {
      FewTicketsExact(s, t);
    } else if n == 1 {
      RunsUpToDate(Init(cap, n), es);
      LoneThreadExact(s, t);
    } else {
      NoLoads(s, t);
    }
  }

  lemma NoLoads(s: State<int>, t: nat)
    requires |s.threads| == 0
    ensures LoadExact(s, t)
  {
  }

  lemma InexactRun(cap: nat, n: nat, tickets: nat)
    requires 2 <= cap <= TWO_63 && n >= 1 && tickets + cap > TWO_63 && (n == 1 ==> tickets + 2 > TWO_63)
    ensures !ExactUpTo(cap, n, tickets)
  {
    var es, s;
    if n == 1 {
      es, s := QuietQueueMisjudged(cap);
      StraddlingIsNot(TWO_63 - 1, TWO_63);
      assert !LoadExact(s, 0);
    } else {
      es, s := StalePushMisjudged(cap, n);
      StraddlingIsNot(TWO_63, TWO_63 - cap);
      assert !LoadExact(s, 1);
    }
  }
}
