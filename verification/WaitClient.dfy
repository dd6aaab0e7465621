/** The close-then-drain protocol of the mutex queue tests: nothing pushed before `close` is lost. */
module WaitClient {
  import opened Counting
  import opened WaitQueue
  import opened WaitReturns
  import opened Wrappers

  /** The values handed to `push`, in the order the calls took effect. */
  function PushArguments<T>(es: seq<Event<T>>): seq<T> {
    if es == [] then []
    else (if es[0].action.Call? && es[0].action.op.Push? then [es[0].action.op.value] else []) + PushArguments(es[1..])
  }

  ghost predicate Avoids(es: seq<Event>, close: bool) {
    forall i :: 0 <= i < |es| && es[i].action.Call? ==>
      if close then !es[i].action.op.Close? else !es[i].action.op.Push?
  }

  lemma OpenStep<T>(s: State<T>, e: Event<T>)
    requires Enabled(s, e) && !s.closed && !(e.action == Call(Close))
    ensures !Next(s, e).closed && Next(s, e).pushed == s.pushed + PushArguments([e])
  {
    assert PushArguments([e]) == (if e.action.Call? && e.action.op.Push? then [e.action.op.value] else []) + [];
  }

  /** While nobody closes, every push is accepted. */
  lemma {:induction false} OpenRunAcceptsAll<T>(s: State<T>, es: seq<Event<T>>)
    requires ValidRun(s, es) && !s.closed && Avoids(es, true)
    ensures !Exec(s, es).closed && Exec(s, es).pushed == s.pushed + PushArguments(es)
    decreases |es|
  {
    hide Next, Enabled;
    if es != [] {
      OpenStep(s, es[0]);
      OpenRunAcceptsAll(Next(s, es[0]), es[1..]);
      assert PushArguments(es) == PushArguments([es[0]]) + PushArguments(es[1..]);
    }
  }

  lemma ClosedStep<T>(s: State<T>, e: Event<T>)
    requires Enabled(s, e) && s.closed
    ensures Next(s, e).closed && Next(s, e).pushed == s.pushed
    ensures s.queue == [] ==> Next(s, e).queue == [] && Next(s, e).popped == s.popped
  {
  }

  /** A closed queue accepts nothing, and once it is also empty it stays so for ever. */
  lemma {:induction false} ClosedForever<T>(s: State<T>, es: seq<Event<T>>)
    requires ValidRun(s, es) && s.closed
    ensures Exec(s, es).closed && Exec(s, es).pushed == s.pushed
    ensures s.queue == [] ==> Exec(s, es).queue == [] && Exec(s, es).popped == s.popped
    decreases |es|
  {
    hide Next, Enabled;
    if es != [] {
      ClosedStep(s, es[0]);
      ClosedForever(Next(s, es[0]), es[1..]);
    }
  }

  /** A call of `wait_pop` that fails does so at an instant when the queue is closed and empty. */
  lemma FailedWaitPopSawTheEnd<T>(s: State<T>, e: Event<T>)
    requires Inv(s) && Enabled(s, e) && (e.action == Call(WaitPop) || e.action == Relock)
    ensures Next(s, e).threads[e.thread] == Idle(WaitPopResult(None)) <==> s.closed && s.queue == []
  {
  }

  lemma {:induction false} RunSplit<T>(s: State<T>, a: seq<Event<T>>, b: seq<Event<T>>)
    requires ValidRun(s, a + b)
    ensures ValidRun(s, a) && ValidRun(Exec(s, a), b) && Exec(s, a + b) == Exec(Exec(s, a), b)
    decreases |a|
  {
    hide Next, Enabled;
    if a == [] {
      assert a + b == b;
    } else {
      assert (a + b)[1..] == a[1..] + b;
      RunSplit(Next(s, a[0]), a[1..], b);
    }
  }

  /**
   Close-then-drain, for every policy: if all pushes come before the first `close`, then as soon as
   any `wait_pop` has failed the values that calls have returned are exactly the values pushed, in order; and by any
   weighing of items what the calls of the single threads have returned adds up to what was pushed.
   */
  lemma {:induction false} CloseThenDrain<T>(p: Policy, n: nat, before: seq<Event<T>>, closer: nat,
      after: seq<Event<T>>, t: nat, w: T -> int)
    requires ValidRun(Init(p, n), before + ([Event(closer, Call(Close))] + after))
    requires Avoids(before, true) && Avoids(after, false)
    requires var s := Exec(Init(p, n), before + ([Event(closer, Call(Close))] + after));
      t < |s.threads| && s.threads[t] == Idle(WaitPopResult(None))
    ensures var s := Exec(Init(p, n), before + ([Event(closer, Call(Close))] + after));
      && s.closed && s.queue == []
      && ReturnedValues(Init(p, n), before + ([Event(closer, Call(Close))] + after)) == PushArguments(before)
      && Sum(Shares(Init(p, n), before + ([Event(closer, Call(Close))] + after), w)) == Weight(PushArguments(before), w)
  {
    var s0 := Init<T>(p, n);
    var tail := [Event(closer, Call(Close))] + after;
    var s := Exec(s0, before + tail);
    InitInv<T>(p, n);
    RunsKeepInv(s0, before + tail);
    RunSplit(s0, before, tail);
    OpenRunAcceptsAll(s0, before);
    var s1 := Exec(s0, before);
    assert tail[1..] == after && tail[0] == Event(closer, Call(Close));
    ClosedForever(Next(s1, tail[0]), after);
    assert s.pushed == PushArguments(before);
    RecordsAreReports(p, n, before + tail);
    SharesAddUp(s0, before + tail, w);
  }
}
