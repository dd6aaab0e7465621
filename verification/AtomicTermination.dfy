/**
 Lock-freedom of the whole system: calls of the slot-sequence queue that are finitely many, with
 finitely many spurious failures, make finitely many accesses, however their threads are scheduled.
 */
module AtomicTermination {
  import opened Counting
  import opened AtomicQueue
  import opened AtomicInvariant
  import opened AtomicProperties
  import opened AtomicProgress

  ghost predicate Wins(s: State, e: Event)
    requires Enabled(s, e)
  {
    PushWin(s, e) || PopWin(s, e)
  }

  function CallCount(es: seq<Event>): nat {
    if es == [] then 0 else One(es[0].action.Call?) + CallCount(es[1..])
  }

  function SpuriousCount(es: seq<Event>): nat {
    if es == [] then 0 else One(es[0].action.SpuriousFailure?) + SpuriousCount(es[1..])
  }

  /** How many compare-and-swaps the run wins. */
  ghost function WinCount<T>(s: State<T>, es: seq<Event<T>>): nat
    requires ValidRun(s, es)
    decreases |es|
  {
    if es == [] then 0 else One(Wins(s, es[0])) + WinCount(Next(s, es[0]), es[1..])
  }

  ghost function Budgets(s: State): seq<int> {
    seq(|s.threads|, t requires 0 <= t < |s.threads| => Budget(s, t))
  }

  // A win makes the others' positions stale and costs each at most two accesses.

  lemma OwnBudget<T>(s: State<T>, e: Event<T>)
    requires Inv(s) && Enabled(s, e) && |Next(s, e).threads| == |s.threads|
    ensures 1 + Budget(Next(s, e), e.thread)
         <= Budget(s, e.thread) + 7 * One(e.action.Call?) + 2 * One(e.action.SpuriousFailure?)
  {
    if e.action.Run? {
      hide Inv, Next, Budget;
      AccessSpendsBudget(s, e.thread);
    } else {
      hide RunStep, Inv;
    }
  }

  lemma OtherBudget<T>(s: State<T>, e: Event<T>, u: nat)
    requires Enabled(s, e) && u < |s.threads| && u != e.thread && u < |Next(s, e).threads|
    requires Next(s, e).threads[u] == s.threads[u]
    ensures Budget(Next(s, e), u) <= Budget(s, u) + 2 * One(Wins(s, e))
  {
    hide Next;
    CountersMove(s, e);
  }

  lemma {:induction false} SumOthers(a: seq<int>, b: seq<int>, i: nat, d: nat)
    requires |a| == |b| && i < |a|
    requires forall u :: 0 <= u < |a| && u != i ==> b[u] <= a[u] + d
    ensures Sum(b) <= Sum(a) - a[i] + b[i] + d * (|a| - 1)
  {
    if i == 0 {
      SumAll(a[1..], b[1..], d);
    } else {
      SumOthers(a[1..], b[1..], i - 1, d);
      OneTimeMore(d, |a| - 1);
    }
  }

  lemma StepBudget<T>(s: State<T>, e: Event<T>)
    requires Inv(s) && Enabled(s, e)
    ensures |Next(s, e).threads| == |s.threads| && e.thread < |s.threads|
    ensures 1 + Sum(Budgets(Next(s, e)))
         <= Sum(Budgets(s)) + 7 * One(e.action.Call?) + 2 * One(e.action.SpuriousFailure?)
            + 2 * One(Wins(s, e)) * (|s.threads| - 1)
  {
    hide Next, Inv, Budget, Wins, Sum;
    SameShape(s, e);
    OwnBudget(s, e);
    forall u | 0 <= u < |s.threads| && u != e.thread
      ensures Budgets(Next(s, e))[u] <= Budgets(s)[u] + 2 * One(Wins(s, e))
    {
      OtherBudget(s, e, u);
    }
    SumOthers(Budgets(s), Budgets(Next(s, e)), e.thread, 2 * One(Wins(s, e)));
  }

  lemma TimesSum(a: nat, b: nat, m: nat)
    ensures 2 * (a + b) * m == 2 * a * m + 2 * b * m
  {
  }

  /** Every access is paid for by the budgets at the start, a call, a spurious failure or another thread's win. */
  lemma {:induction false} AccessesPaid<T>(s: State<T>, es: seq<Event<T>>)
    requires Inv(s) && ValidRun(s, es) && |s.threads| > 0
    ensures |es| <= Sum(Budgets(s)) + 7 * CallCount(es) + 2 * SpuriousCount(es)
                    + 2 * WinCount(s, es) * (|s.threads| - 1)
    decreases |es|
  {
    if es == [] {
      SumNonNegative(Budgets(s));
    } else {
      hide Next, Inv, Enabled, Budgets, Wins, Sum;
      NextInv(s, es[0]);
      StepBudget(s, es[0]);
      AccessesPaid(Next(s, es[0]), es[1..]);
      TimesSum(One(Wins(s, es[0])), WinCount(Next(s, es[0]), es[1..]), |s.threads| - 1);
    }
  }

  // Each call wins at most once.

  predicate BeforeWin<T>(pc: Pc<T>) {
    pc.PushCheckClosed? || pc.PushLoadPos? || pc.PushLoadSeq? || pc.PushCas? || pc.PushReload? ||
    pc.PopLoadPos? || pc.PopLoadSeq? || pc.PopCas? || pc.PopReload?
  }

  lemma WinSpendsCall<T>(s: State<T>, e: Event<T>)
    requires Enabled(s, e) && |Next(s, e).threads| == |s.threads|
    ensures One(Wins(s, e)) + One(BeforeWin(Next(s, e).threads[e.thread]))
         <= One(BeforeWin(s.threads[e.thread])) + One(e.action.Call?)
  {
    if e.action.Run? { RunSpendsCall(s, e.thread); } else { hide RunStep; }
  }

  lemma RunSpendsCall<T>(s: State<T>, t: nat)
    requires Enabled(s, Event(t, Run)) && |RunStep(s, t).threads| == |s.threads|
    ensures BeforeWin(RunStep(s, t).threads[t]) ==> BeforeWin(s.threads[t]) && !Wins(s, Event(t, Run))
    ensures Wins(s, Event(t, Run)) ==> BeforeWin(s.threads[t])
  {
    hide CellOf;
  }

  lemma {:induction false} WinsPaid<T>(s: State<T>, es: seq<Event<T>>)
    requires Inv(s) && ValidRun(s, es)
    ensures WinCount(s, es) <= CallCount(es) + Count(s.threads, BeforeWin)
    decreases |es|
  {
    if es != [] {
      hide Next, Inv, Wins, BeforeWin;
      NextInv(s, es[0]);
      SameShape(s, es[0]);
      WinSpendsCall(s, es[0]);
      var t := es[0].thread;
      CountUpdate(s.threads, t, Next(s, es[0]).threads[t], BeforeWin);
      WinsPaid(Next(s, es[0]), es[1..]);
    }
  }

  /**
   System-wide lock-freedom: from a new queue with `n` threads, a run of `c` calls and `f` spurious
   failures makes at most `(2n + 5) * c + 2 * f` steps, under any schedule. So no schedule of finitely
   many calls goes around for ever.
   */
  lemma {:induction false} FiniteCallsFiniteRun<T>(cap: nat, n: nat, es: seq<Event<T>>)
    requires cap >= 2 && ValidRun(Init(cap, n), es)
    ensures |es| <= (2 * n + 5) * CallCount(es) + 2 * SpuriousCount(es)
  {
    hide Inv, Budgets, Sum, Count, CallCount, SpuriousCount, WinCount;
    if n == 0 {
      assert es == [];
    } else {
      var s := Init<T>(cap, n);
      NewQueue<T>(cap, n);
      AccessesPaid(s, es);
      WinsPaid(s, es);
      Bound(|es|, CallCount(es), SpuriousCount(es), WinCount(s, es), n - 1);
    }
  }

  lemma NewQueue<T>(cap: nat, n: nat)
    requires cap >= 2
    ensures var s := Init<T>(cap, n);
      Inv(s) && |s.threads| == n && Sum(Budgets(s)) == 0 && Count(s.threads, BeforeWin) == 0
  {
    InitInv<T>(cap, n);
    SumZero(Budgets(Init<T>(cap, n)));
    CountZero(Init<T>(cap, n).threads, BeforeWin);
  }

  lemma Bound(steps: nat, calls: nat, failures: nat, wins: nat, others: nat)
    requires wins <= calls && steps <= 7 * calls + 2 * failures + 2 * wins * others
    ensures steps <= (2 * (others + 1) + 5) * calls + 2 * failures
  {
    assert 2 * wins * others <= 2 * calls * others;
  }
}
