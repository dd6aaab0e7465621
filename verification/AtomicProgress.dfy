/**
 Calls of the slot-sequence queue that run without interference: they return within seven accesses,
 and what that makes of the pushes still in flight when the queue is closed.
 */
module AtomicProgress {
  import opened Tickets
  import opened Counting
  import opened AtomicQueue
  import opened AtomicInvariant
  import opened AtomicLinearizable
  import opened AtomicProperties
  import opened AtomicRuns

  // Obstruction freedom.

  /** How many accesses thread `t` still needs if nobody interferes: two more where its position is stale. */
  ghost function Budget(s: State, t: nat): (b: nat)
    requires t < |s.threads|
    ensures b <= 7
  {
    match s.threads[t]
    case PushCheckClosed(_) => 6
    case PushLoadPos(_) => 5
    case PushLoadSeq(_, pos) => if pos == s.enqueuePos then 4 else 6
    case PushCas(_, pos) => if pos == s.enqueuePos then 3 else 5
    case PushReload(_) => 5
    case PushConstruct(_, _) => 2
    case PushPublish(_, _) => 1
    case PopLoadPos => 6
    case PopLoadSeq(pos) => if pos == s.dequeuePos then 5 else 7
    case PopCas(pos) => if pos == s.dequeuePos then 4 else 6
    case PopReload => 6
    case PopTake(_) => 3
    case PopDestroy(_, _) => 2
    case PopRelease(_, _) => 1
    case CloseExchange => 1
    case _ => 0
  }

  /** A thread's own access uses up part of its budget: with a current position there is no retry. */
  lemma AccessSpendsBudget<T>(s: State<T>, t: nat)
    requires Inv(s) && Enabled(s, Event(t, Run))
    ensures |Next(s, Event(t, Run)).threads| == |s.threads|
    ensures Budget(Next(s, Event(t, Run)), t) < Budget(s, t)
  {
    hide Inv, RunStep, Budget, InPush;
    SameShape(s, Event(t, Run));
    RetryLags(s, Event(t, Run));
    if InPush(s.threads[t]) { SpendsInPush(s, t); } else { SpendsOtherwise(s, t); }
  }

  lemma SpendsInPush<T>(s: State<T>, t: nat)
    requires Enabled(s, Event(t, Run)) && |RunStep(s, t).threads| == |s.threads| && InPush(s.threads[t])
    requires PushLag(s, t) >= One(PushRetry(s, Event(t, Run)))
    ensures Budget(RunStep(s, t), t) < Budget(s, t)
  {
    hide Slot;
  }

  lemma SpendsOtherwise<T>(s: State<T>, t: nat)
    requires Enabled(s, Event(t, Run)) && |RunStep(s, t).threads| == |s.threads| && !InPush(s.threads[t])
    requires PopLag(s, t) >= One(PopRetry(s, Event(t, Run)))
    ensures Budget(RunStep(s, t), t) < Budget(s, t)
  {
    hide Slot;
  }

  /** Only accesses of thread `t`, none of them a call or a spurious failure. */
  ghost predicate Solo(es: seq<Event>, t: nat) {
    forall i :: 0 <= i < |es| ==> es[i] == Event(t, Run)
  }

  lemma {:induction false} SoloSpendsBudget<T>(s: State<T>, es: seq<Event<T>>, t: nat)
    requires Inv(s) && ValidRun(s, es) && t < |s.threads| && Solo(es, t)
    ensures Inv(Exec(s, es)) && |Exec(s, es).threads| == |s.threads| && |Exec(s, es).cells| == |s.cells|
    ensures |es| + Budget(Exec(s, es), t) <= Budget(s, t)
    decreases |es|
  {
    hide Next, Inv, Budget;
    if es != [] {
      NextInv(s, es[0]);
      SameShape(s, es[0]);
      AccessSpendsBudget(s, t);
      SoloSpendsBudget(Next(s, es[0]), es[1..], t);
    }
  }

  /**
   Obstruction freedom: in every state that any threads and schedule can reach, a thread that is left
   to run alone makes at most seven accesses, and can make one until its call has returned.
   */
  lemma {:induction false} AloneReturns<T>(cap: nat, n: nat, before: seq<Event<T>>, t: nat, es: seq<Event<T>>)
    requires cap >= 2 && ValidRun(Init(cap, n), before) && t < n
    requires ValidRun(Exec(Init(cap, n), before), es) && Solo(es, t)
    ensures |es| <= 7
    ensures var s := Exec(Exec(Init(cap, n), before), es);
      |s.threads| == n && (AtRest(s.threads[t]) || Enabled(s, Event(t, Run)))
  {
    InitInv<T>(cap, n);
    RunsKeepInv(Init(cap, n), before);
    RunShape(Init(cap, n), before);
    SoloSpendsBudget(Exec(Init(cap, n), before), es, t);
    assert ThreadInv(Exec(Exec(Init(cap, n), before), es), t);
  }

  // A push called on a closed queue.

  /** Thread `t` makes no further call in the run. */
  ghost predicate NoCallBy(es: seq<Event>, t: nat) {
    forall i :: 0 <= i < |es| && es[i].thread == t ==> !es[i].action.Call?
  }

  lemma DoomedStep<T>(s: State<T>, e: Event<T>, t: nat)
    requires Enabled(s, e) && s.closed && t < |s.threads| && (e.thread == t ==> !e.action.Call?)
    requires s.threads[t].PushCheckClosed? || s.threads[t] == PushReturned(false)
    ensures Next(s, e).closed && |Next(s, e).threads| == |s.threads|
    ensures e.thread != t ==> Next(s, e).threads[t] == s.threads[t]
    ensures e.thread == t ==> Next(s, e).threads[t] == PushReturned(false)
  {
    hide Slot;
    SameShape(s, e);
  }

  lemma {:induction false} DoomedRun<T>(s: State<T>, es: seq<Event<T>>, t: nat)
    requires ValidRun(s, es) && s.closed && t < |s.threads| && NoCallBy(es, t)
    requires s.threads[t].PushCheckClosed? || s.threads[t] == PushReturned(false)
    ensures |Exec(s, es).threads| == |s.threads|
    ensures AtRest(Exec(s, es).threads[t]) ==> Exec(s, es).threads[t] == PushReturned(false)
    ensures Exec(s, es).threads[t].PushCheckClosed? || Exec(s, es).threads[t] == PushReturned(false)
    decreases |es|
  {
    hide Next, Enabled;
    if es != [] {
      DoomedStep(s, es[0], t);
      DoomedRun(Next(s, es[0]), es[1..], t);
    }
  }

  /** A push called once the queue is closed returns false, whatever the other threads do. */
  lemma {:induction false} PushAfterCloseFails<T>(s: State<T>, t: nat, v: T, es: seq<Event<T>>)
    requires s.closed && Enabled(s, Event(t, Call(Push(v)))) && ValidRun(Next(s, Event(t, Call(Push(v)))), es)
    requires NoCallBy(es, t)
    ensures var s' := Exec(Next(s, Event(t, Call(Push(v)))), es);
      t < |s'.threads| && (AtRest(s'.threads[t]) ==> s'.threads[t] == PushReturned(false))
  {
    DoomedRun(Next(s, Event(t, Call(Push(v)))), es, t);
  }

  // The pushes in flight when the queue is closed.

  /** Outside any call, or a push past the closed check without a ticket: it holds up nobody. */
  predicate Settled<T>(pc: Pc<T>) { AtRest(pc) || PastCheck(pc) }

  ghost predicate AllSettledBut(s: State, v: nat) {
    forall u :: 0 <= u < |s.threads| && u != v ==> Settled(s.threads[u])
  }

  ghost predicate SomebodyElse(s: State) {
    exists v :: 0 <= v < |s.threads| && !PastCheck(s.threads[v])
  }

  ghost predicate LateState(s: State) {
    Inv(s) && s.closed && SomebodyElse(s)
  }

  /** On a closed queue a thread that is not past the check never gets there. */
  lemma ClosedAccess<T>(s: State<T>, t: nat)
    requires Inv(s) && s.closed && Enabled(s, Event(t, Run))
    ensures var s' := Next(s, Event(t, Run));
      && Inv(s') && s'.closed && |s'.cells| == |s.cells| && |s'.threads| == |s.threads|
      && s'.threads == s.threads[t := s'.threads[t]]
      && Budget(s', t) < Budget(s, t)
      && (!PastCheck(s.threads[t]) ==> !PastCheck(s'.threads[t]) && !PushWin(s, Event(t, Run)))
      && (PushWin(s, Event(t, Run)) ==> !PastCheck(s'.threads[t]))
  {
    hide Slot, Budget, Inv;
    NextInv(s, Event(t, Run));
    SameShape(s, Event(t, Run));
    AccessSpendsBudget(s, t);
  }

  /** So somebody stays outside that group, and the group shrinks by each win and by nothing else. */
  lemma LateAccess<T>(s: State<T>, t: nat)
    requires LateState(s) && Enabled(s, Event(t, Run))
    requires !PastCheck(s.threads[t]) || PastCheck(Next(s, Event(t, Run)).threads[t]) || PushWin(s, Event(t, Run))
    ensures var s' := Next(s, Event(t, Run));
      && LateState(s') && |s'.threads| == |s.threads|
      && s'.threads == s.threads[t := s'.threads[t]]
      && Budget(s', t) < Budget(s, t)
      && Count(s'.threads, PastCheck) + One(PushWin(s, Event(t, Run))) == Count(s.threads, PastCheck)
  {
    hide Next, Budget, Inv, PastCheck;
    var s' := Next(s, Event(t, Run));
    ClosedAccess(s, t);
    CountUpdate(s.threads, t, s'.threads[t], PastCheck);
    PushWinPastCheck(s, t);
    var v :| 0 <= v < |s.threads| && !PastCheck(s.threads[v]);
    assert !PastCheck(s'.threads[v]);
  }

  lemma PushWinPastCheck<T>(s: State<T>, t: nat)
    requires Enabled(s, Event(t, Run))
    ensures PushWin(s, Event(t, Run)) ==> PastCheck(s.threads[t])
  {
  }

  /** With nobody between claiming and releasing, a push below capacity does not fail. */
  lemma PushDoesNotFail<T>(s: State<T>, u: nat)
    requires Inv(s) && u < |s.threads| && PastCheck(s.threads[u])
    requires forall v :: 0 <= v < |s.threads| ==> Settled(s.threads[v])
    requires s.enqueuePos < s.dequeuePos + |s.cells|
    ensures PastCheck(RunStep(s, u).threads[u]) || PushWin(s, Event(u, Run))
  {
    hide Slot;
    match s.threads[u]
    case PushLoadSeq(v, pos) =>
      PushFailsExactlyWhenUnreleased(s, u, v, pos);
    case _ =>
  }

  /** Likewise, a pop of a non-empty queue does not fail. */
  lemma PopDoesNotFail<T>(s: State<T>, v: nat)
    requires Inv(s) && v < |s.threads| && s.threads[v] == PopLoadSeq(s.dequeuePos)
    requires AllSettledBut(s, v) && s.dequeuePos < s.enqueuePos
    ensures PopLoadSeqStep(s, v, s.dequeuePos).threads[v] == PopCas(s.dequeuePos)
  {
    hide Slot;
    var pos := s.dequeuePos;
    PopFailsExactlyWhenUnpublished(s, v, pos);
    if PopRetry(s, Event(v, Run)) { PopRetryMeansOvertaken(s, Event(v, Run)); }
  }

  /** Thread `v` is popping the oldest value, or has claimed it. */
  ghost predicate MakesRoom(s: State, v: nat)
    requires v < |s.threads|
  {
    var pc := s.threads[v];
    if pc.PopLoadPos? then s.dequeuePos < s.enqueuePos
    else if pc.PopLoadSeq? || pc.PopCas? then pc.pos == s.dequeuePos < s.enqueuePos
    else (pc.PopTake? || pc.PopDestroy? || pc.PopRelease? || AtRest(pc)) &&
         s.enqueuePos < s.dequeuePos + |s.cells|
  }

  lemma MakesRoomStep<T>(s: State<T>, v: nat)
    requires Inv(s) && s.closed && v < |s.threads| && MakesRoom(s, v) && AllSettledBut(s, v) && !AtRest(s.threads[v])
    requires |RunStep(s, v).threads| == |s.threads|
    ensures MakesRoom(RunStep(s, v), v) && !PastCheck(RunStep(s, v).threads[v])
  {
    hide Slot;
    assert ThreadInv(s, v);
    if s.threads[v].PopLoadSeq? { PopDoesNotFail(s, v); }
  }

  ghost predicate WinsAll<T>(s: State<T>, es: seq<Event<T>>) {
    ValidRun(s, es) && PushWins(s, es) == Count(s.threads, PastCheck)
  }

  lemma WinsAllPrepend<T>(s: State<T>, t: nat, rest: seq<Event<T>>) returns (es: seq<Event<T>>)
    requires LateState(s) && Enabled(s, Event(t, Run)) && WinsAll(Next(s, Event(t, Run)), rest)
    requires Count(Next(s, Event(t, Run)).threads, PastCheck) + One(PushWin(s, Event(t, Run)))
          == Count(s.threads, PastCheck)
    ensures WinsAll(s, es)
  {
    es := [Event(t, Run)] + rest;
    assert es[1..] == rest;
  }

  /** From a closed queue where the threads below `t` have settled, all pushes past the check can win. */
  lemma {:induction false} WinFrom<T>(s: State<T>, t: nat) returns (es: seq<Event<T>>)
    requires LateState(s) && t <= |s.threads|
    requires forall u :: 0 <= u < t ==> Settled(s.threads[u])
    ensures WinsAll(s, es)
    decreases Count(s.threads, PastCheck), 2, |s.threads| - t, if t < |s.threads| then Budget(s, t) else 0
  {
    hide Next, Inv, Budget, PastCheck, MakesRoom;
    if t == |s.threads| {
      es := WinSettled(s);
    } else if Settled(s.threads[t]) {
      es := WinFrom(s, t + 1);
    } else {
      CanRun(s, t);
      LateAccess(s, t);
      var rest := WinFrom(Next(s, Event(t, Run)), t);
      es := WinsAllPrepend(s, t, rest);
    }
  }

  lemma CanRun<T>(s: State<T>, t: nat)
    requires Inv(s) && t < |s.threads|
    ensures !AtRest(s.threads[t]) ==> Enabled(s, Event(t, Run))
    ensures PastCheck(s.threads[t]) ==> !AtRest(s.threads[t])
    ensures AtRest(s.threads[t]) ==> Enabled(s, Event(t, Call(Pop)))
  {
    assert ThreadInv(s, t);
  }

  /** All threads have settled: if the queue is full somebody pops first. */
  lemma WinSettled<T>(s: State<T>) returns (es: seq<Event<T>>)
    requires LateState(s) && forall u :: 0 <= u < |s.threads| ==> Settled(s.threads[u])
    ensures WinsAll(s, es)
    decreases Count(s.threads, PastCheck), 1, 8, 0
  {
    hide Inv, PastCheck;
    CountZero(s.threads, PastCheck);
    if Count(s.threads, PastCheck) == 0 {
      es := [];
    } else if s.enqueuePos < s.dequeuePos + |s.cells| {
      var u :| 0 <= u < |s.threads| && PastCheck(s.threads[u]);
      es := WinNext(s, u);
    } else {
      es := WinAfterPop(s);
    }
  }

  lemma WinAfterPop<T>(s: State<T>) returns (es: seq<Event<T>>)
    requires LateState(s) && forall u :: 0 <= u < |s.threads| ==> Settled(s.threads[u])
    requires s.enqueuePos >= s.dequeuePos + |s.cells|
    ensures WinsAll(s, es)
    decreases Count(s.threads, PastCheck), 1, 7, 8
  {
    hide PastCheck;
    var v :| 0 <= v < |s.threads| && !PastCheck(s.threads[v]);
    CanRun(s, v);
    var e: Event<T> := Event(v, Call(Pop));
    var s' := Next(s, e);
    NextInv(s, e);
    CountUpdate(s.threads, v, PopLoadPos, PastCheck);
    assert !PastCheck(s'.threads[v]) by { NotPastCheck(s'.threads[v]); }
    hide Inv;
    var rest := WinPopping(s', v);
    es := [e] + rest;
    assert es[1..] == rest;
  }

  lemma NotPastCheck<T>(pc: Pc<T>)
    ensures pc.PopLoadPos? ==> !PastCheck(pc)
  {
  }

  /** Thread `v` pops alone until it returns. */
  lemma {:induction false} WinPopping<T>(s: State<T>, v: nat) returns (es: seq<Event<T>>)
    requires LateState(s) && v < |s.threads| && AllSettledBut(s, v) && MakesRoom(s, v) && !PastCheck(s.threads[v])
    ensures WinsAll(s, es)
    decreases Count(s.threads, PastCheck), 1, 6, Budget(s, v)
  {
    hide Inv, Budget, PastCheck;
    if AtRest(s.threads[v]) {
      CountZero(s.threads, PastCheck);
      if Count(s.threads, PastCheck) == 0 {
        es := [];
      } else {
        var u :| 0 <= u < |s.threads| && PastCheck(s.threads[u]);
        es := WinNext(s, u);
      }
    } else {
      CanRun(s, v);
      LateAccess(s, v);
      MakesRoomStep(s, v);
      hide Next, MakesRoom;
      PushWinPastCheck(s, v);
      var rest := WinPopping(Next(s, Event(v, Run)), v);
      es := WinsAllPrepend(s, v, rest);
    }
  }

  /** Thread `u` runs alone until it wins its ticket. */
  lemma {:induction false} WinNext<T>(s: State<T>, u: nat) returns (es: seq<Event<T>>)
    requires LateState(s) && u < |s.threads| && PastCheck(s.threads[u])
    requires forall v :: 0 <= v < |s.threads| ==> Settled(s.threads[v])
    requires s.enqueuePos < s.dequeuePos + |s.cells|
    ensures WinsAll(s, es)
    decreases Count(s.threads, PastCheck), 0, 0, Budget(s, u)
  {
    hide Inv, Budget, PastCheck;
    CanRun(s, u);
    PushDoesNotFail(s, u);
    LateAccess(s, u);
    var rest;
    if PushWin(s, Event(u, Run)) {
      rest := WinFrom(Next(s, Event(u, Run)), 0);
    } else {
      QuietPushStep(s, u);
      rest := WinNext(Next(s, Event(u, Run)), u);
    }
    es := WinsAllPrepend(s, u, rest);
  }

  lemma QuietPushStep<T>(s: State<T>, u: nat)
    requires Enabled(s, Event(u, Run)) && PastCheck(s.threads[u]) && !PushWin(s, Event(u, Run))
    ensures var s' := Next(s, Event(u, Run));
      s'.enqueuePos == s.enqueuePos && s'.dequeuePos == s.dequeuePos && s'.cells == s.cells
  {
  }

  // The closing thread is never itself past the check.

  ghost predicate CloserKnown(s: State) {
    s.closed ==> SomebodyElse(s)
  }

  lemma CloserStep<T>(s: State<T>, e: Event<T>)
    requires Enabled(s, e) && CloserKnown(s)
    ensures CloserKnown(Next(s, e))
  {
    hide Next;
    var s' := Next(s, e);
    SameShape(s, e);
    NeverPastOnceClosed(s, e);
    if s.closed {
      var v :| 0 <= v < |s.threads| && !PastCheck(s.threads[v]);
      assert !PastCheck(s'.threads[v]);
    } else if s'.closed {
      assert !PastCheck(s'.threads[e.thread]);
    }
  }

  /** On a closed queue no thread gets past the check, and the thread that closes is not past it. */
  lemma NeverPastOnceClosed<T>(s: State<T>, e: Event<T>)
    requires Enabled(s, e) && |Next(s, e).threads| == |s.threads|
    ensures s.closed ==> Next(s, e).closed
    ensures Next(s, e).closed && (s.closed ==> !PastCheck(s.threads[e.thread])) ==>
      !PastCheck(Next(s, e).threads[e.thread])
  {
    hide RunStep;
    if e.action.Run? { CheckPassed(s, e.thread); }
  }

  /** Only the closed check of an open queue leads past it, and only the exchange closes. */
  lemma CheckPassed<T>(s: State<T>, t: nat)
    requires Enabled(s, Event(t, Run)) && |RunStep(s, t).threads| == |s.threads|
    ensures PastCheck(RunStep(s, t).threads[t]) ==>
      PastCheck(s.threads[t]) || (s.threads[t].PushCheckClosed? && !s.closed)
    ensures RunStep(s, t).closed == (s.closed || s.threads[t].CloseExchange?)
    ensures s.threads[t].CloseExchange? ==> !PastCheck(RunStep(s, t).threads[t])
  {
    hide Slot, CellOf;
  }

  lemma {:induction false} CloserRun<T>(s: State<T>, es: seq<Event<T>>)
    requires ValidRun(s, es) && CloserKnown(s)
    ensures CloserKnown(Exec(s, es))
    decreases |es|
  {
    hide Next, Enabled, CloserKnown;
    if es != [] {
      CloserStep(s, es[0]);
      CloserRun(Next(s, es[0]), es[1..]);
    }
  }

  /**
   How many pushes can succeed after `close`: in every closed state that can be reached, at most the
   pushes that have passed the closed check and not won a ticket, and some schedule lets all of them.
   So none can if and only if there are none.
   */
  lemma {:induction false} LatePushesExact<T(!new)>(cap: nat, n: nat, before: seq<Event<T>>)
    requires cap >= 2 && ValidRun(Init(cap, n), before) && Exec(Init(cap, n), before).closed
    ensures var s := Exec(Init(cap, n), before);
      && (forall es :: ValidRun(s, es) ==> PushWins(s, es) <= Count(s.threads, PastCheck))
      && (exists es :: ValidRun(s, es) && PushWins(s, es) == Count(s.threads, PastCheck))
      && ((forall es :: ValidRun(s, es) ==> PushWins(s, es) == 0) <==> Count(s.threads, PastCheck) == 0)
  {
    InitInv<T>(cap, n);
    RunsKeepInv(Init(cap, n), before);
    CloserRun(Init(cap, n), before);
    LatePushesFrom(Exec(Init(cap, n), before));
  }

  lemma LatePushesFrom<T(!new)>(s: State<T>)
    requires LateState(s)
    ensures forall es :: ValidRun(s, es) ==> PushWins(s, es) <= Count(s.threads, PastCheck)
    ensures exists es :: ValidRun(s, es) && PushWins(s, es) == Count(s.threads, PastCheck)
    ensures (forall es :: ValidRun(s, es) ==> PushWins(s, es) == 0) <==> Count(s.threads, PastCheck) == 0
  {
    var last := WinFrom(s, 0);
    hide LateState, Count, PastCheck, PushWins, ValidRun;
    forall es | ValidRun(s, es) ensures PushWins(s, es) <= Count(s.threads, PastCheck) {
      LatePushesHere(s, es);
    }
    var late := Count(s.threads, PastCheck);
    assert ValidRun(s, last) && PushWins(s, last) == late;
    if forall es :: ValidRun(s, es) ==> PushWins(s, es) == 0 {
      assert PushWins(s, last) == 0;
    } else {
      var es :| ValidRun(s, es) && PushWins(s, es) != 0;
      assert 0 < PushWins(s, es) <= late;
    }
  }

  lemma {:induction false} LatePushesHere<T>(s: State<T>, es: seq<Event<T>>)
    requires LateState(s) && ValidRun(s, es)
    ensures PushWins(s, es) <= Count(s.threads, PastCheck)
  {
    LatePushesBounded(s, es);
  }
}
