/** Runs of the slot-sequence queue built from calls that are left alone, and what they show. */
module AtomicRuns {
  import opened Tickets
  import opened AtomicQueue
  import opened AtomicInvariant
  import opened Wrappers

  /** Which threads call what: those below `pushers` may push, those below `poppers` may pop. */
  datatype Usage = Usage(pushers: nat, poppers: nat)

  predicate InPush(pc: Pc) {
    pc.PushCheckClosed? || pc.PushLoadPos? || pc.PushLoadSeq? || pc.PushCas? || pc.PushReload? ||
    pc.PushConstruct? || pc.PushPublish?
  }

  predicate InPop(pc: Pc) {
    pc.PopLoadPos? || pc.PopLoadSeq? || pc.PopCas? || pc.PopReload? || pc.PopTake? || pc.PopDestroy? || pc.PopRelease?
  }

  ghost predicate Respects(e: Event, c: Usage) {
    (e.action.Call? && e.action.op.Push? ==> e.thread < c.pushers) &&
    (e.action.Call? && e.action.op.Pop? ==> e.thread < c.poppers)
  }

  ghost predicate AllRespect(es: seq<Event>, c: Usage) {
    forall i :: 0 <= i < |es| ==> Respects(es[i], c)
  }

  ghost predicate Reachable(c: Usage, s0: State<int>, s: State<int>) {
    exists es :: ValidRun(s0, es) && AllRespect(es, c) && Exec(s0, es) == s
  }

  lemma {:induction false} Extend<T>(s: State<T>, es: seq<Event<T>>, e: Event<T>)
    requires ValidRun(s, es) && Enabled(Exec(s, es), e)
    ensures ValidRun(s, es + [e]) && Exec(s, es + [e]) == Next(Exec(s, es), e)
    decreases |es|
  {
    if es == [] {
      assert (es + [e])[1..] == [];
    } else {
      Extend(Next(s, es[0]), es[1..], e);
      assert (es + [e])[1..] == es[1..] + [e];
    }
  }

  lemma Start(c: Usage, s0: State<int>)
    ensures Reachable(c, s0, s0)
  {
    var es: seq<Event<int>> := [];
    assert ValidRun(s0, es) && AllRespect(es, c) && Exec(s0, es) == s0;
  }

  lemma ReachNext(c: Usage, s0: State<int>, s: State<int>, e: Event<int>)
    requires Reachable(c, s0, s) && Enabled(s, e) && Respects(e, c)
    ensures Reachable(c, s0, Next(s, e))
  {
    hide Enabled, Next, Respects;
    var es :| ValidRun(s0, es) && AllRespect(es, c) && Exec(s0, es) == s;
    Extend(s0, es, e);
    assert AllRespect(es + [e], c);
  }

  /** Thread `t` makes its next access. */
  lemma RunOn(c: Usage, s0: State<int>, s: State<int>, t: nat)
    requires Reachable(c, s0, s) && Enabled(s, Event(t, Run))
    ensures Reachable(c, s0, RunStep(s, t))
  {
    ReachNext(c, s0, s, Event(t, Run));
  }

  lemma CallOn(c: Usage, s0: State<int>, s: State<int>, t: nat, op: Operation<int>)
    requires Reachable(c, s0, s) && Enabled(s, Event(t, Call(op))) && Respects(Event(t, Call(op)), c)
    ensures Reachable(c, s0, At(s, t, Started(op)))
  {
    ReachNext(c, s0, s, Event(t, Call(op)));
  }

  /** A push called on an open queue passes the closed check. */
  lemma Admits(c: Usage, s0: State<int>, s: State<int>, t: nat, v: int) returns (s': State<int>)
    requires Reachable(c, s0, s) && t < |s.threads| && |s.cells| > 0 && AtRest(s.threads[t]) && !s.closed
    requires t < c.pushers
    ensures Reachable(c, s0, s') && s' == At(s, t, PushLoadPos(v))
  {
    hide Reachable;
    s' := At(s, t, PushCheckClosed(v));
    CallOn(c, s0, s, t, Push(v));
    RunOn(c, s0, s', t);
    s' := RunStep(s', t);
    assert s'.threads == s.threads[t := PushLoadPos(v)];
  }

  /** A push past the check, left alone before a free cell, wins its ticket. */
  lemma WinsPush(c: Usage, s0: State<int>, s: State<int>, t: nat, v: int) returns (s': State<int>)
    requires Reachable(c, s0, s) && t < |s.threads| && |s.cells| > 0 && s.threads[t] == PushLoadPos(v)
    requires CellOf(s, s.enqueuePos).sequence == s.enqueuePos
    ensures Reachable(c, s0, s') && s'.threads == s.threads[t := PushConstruct(v, s.enqueuePos)]
    ensures s'.cells == s.cells && s'.closed == s.closed
    ensures s'.enqueuePos == s.enqueuePos + 1 && s'.dequeuePos == s.dequeuePos
  {
    hide Reachable, Slot;
    RunOn(c, s0, s, t);
    s' := At(s, t, PushLoadSeq(v, s.enqueuePos));
    RunOn(c, s0, s', t);
    s' := At(s', t, PushCas(v, s.enqueuePos));
    RunOn(c, s0, s', t);
    s' := PushCasStep(s', t, v, s.enqueuePos);
  }

  /** A push that has won its ticket, left alone before an empty cell, completes. */
  lemma CompletesPush(c: Usage, s0: State<int>, s: State<int>, t: nat) returns (s': State<int>)
    requires Reachable(c, s0, s) && t < |s.threads| && |s.cells| > 0 && s.threads[t].PushConstruct?
    requires CellOf(s, s.threads[t].pos).storage.Empty?
    ensures Reachable(c, s0, s') && s'.threads == s.threads[t := PushReturned(true)]
    ensures var pos := s.threads[t].pos;
      s'.cells == s.cells[Slot(pos, |s.cells|) := Cell(pos + 1, Live(s.threads[t].value))]
    ensures s'.enqueuePos == s.enqueuePos && s'.dequeuePos == s.dequeuePos && s'.closed == s.closed
  {
    hide Reachable, Slot;
    var v, pos := s.threads[t].value, s.threads[t].pos;
    RunOn(c, s0, s, t);
    s' := PushConstructStep(s, t, v, pos);
    RunOn(c, s0, s', t);
    s' := PushPublishStep(s', t, pos);
  }

  /** A whole push left alone before a free and empty cell. */
  lemma Pushes(c: Usage, s0: State<int>, s: State<int>, t: nat, v: int) returns (s': State<int>)
    requires Reachable(c, s0, s) && t < |s.threads| && |s.cells| > 0 && AtRest(s.threads[t]) && !s.closed
    requires t < c.pushers && CellOf(s, s.enqueuePos) == Cell(s.enqueuePos, Empty)
    ensures Reachable(c, s0, s') && s'.threads == s.threads[t := PushReturned(true)] && !s'.closed
    ensures s'.cells == s.cells[Slot(s.enqueuePos, |s.cells|) := Cell(s.enqueuePos + 1, Live(v))]
    ensures s'.enqueuePos == s.enqueuePos + 1 && s'.dequeuePos == s.dequeuePos
  {
    hide Reachable, Slot;
    s' := Admits(c, s0, s, t, v);
    s' := WinsPush(c, s0, s', t, v);
    s' := CompletesPush(c, s0, s', t);
  }

  /** A pop left alone before a published cell wins its ticket. */
  lemma WinsPop(c: Usage, s0: State<int>, s: State<int>, t: nat) returns (s': State<int>)
    requires Reachable(c, s0, s) && t < |s.threads| && |s.cells| > 0 && AtRest(s.threads[t])
    requires t < c.poppers && CellOf(s, s.dequeuePos).sequence == s.dequeuePos + 1
    ensures Reachable(c, s0, s') && s'.threads == s.threads[t := PopTake(s.dequeuePos)]
    ensures s'.cells == s.cells && s'.closed == s.closed
    ensures s'.enqueuePos == s.enqueuePos && s'.dequeuePos == s.dequeuePos + 1
  {
    hide Reachable, Slot;
    CallOn(c, s0, s, t, Pop);
    s' := At(s, t, PopLoadPos);
    RunOn(c, s0, s', t);
    s' := At(s', t, PopLoadSeq(s.dequeuePos));
    RunOn(c, s0, s', t);
    s' := At(s', t, PopCas(s.dequeuePos));
    RunOn(c, s0, s', t);
    s' := PopCasStep(s', t, s.dequeuePos);
  }

  /** A pop that has won its ticket, left alone, completes and hands the cell to the next lap. */
  lemma CompletesPop(c: Usage, s0: State<int>, s: State<int>, t: nat) returns (s': State<int>)
    requires Reachable(c, s0, s) && t < |s.threads| && |s.cells| > 0 && s.threads[t].PopTake?
    requires CellOf(s, s.threads[t].pos).storage.Live?
    ensures Reachable(c, s0, s')
    ensures var pos, v := s.threads[t].pos, CellOf(s, s.threads[t].pos).storage.value;
      && s'.threads == s.threads[t := PopReturned(Some(v))]
      && s'.cells == s.cells[Slot(pos, |s.cells|) := Cell(pos + |s.cells|, Empty)]
    ensures s'.enqueuePos == s.enqueuePos && s'.dequeuePos == s.dequeuePos && s'.closed == s.closed
  {
    hide Reachable, Slot;
    var pos := s.threads[t].pos;
    var v := CellOf(s, pos).storage.value;
    RunOn(c, s0, s, t);
    s' := PopTakeStep(s, t, pos);
    RunOn(c, s0, s', t);
    s' := PopDestroyStep(s', t, pos, v);
    RunOn(c, s0, s', t);
    s' := PopReleaseStep(s', t, pos, v);
  }

  /** A pop loads its position. */
  lemma BeginsPop(c: Usage, s0: State<int>, s: State<int>, t: nat) returns (s': State<int>)
    requires Reachable(c, s0, s) && t < |s.threads| && |s.cells| > 0 && AtRest(s.threads[t]) && t < c.poppers
    ensures Reachable(c, s0, s') && s' == s.(threads := s.threads[t := PopLoadSeq(s.dequeuePos)])
  {
    hide Reachable;
    CallOn(c, s0, s, t, Pop);
    s' := At(s, t, PopLoadPos);
    RunOn(c, s0, s', t);
    s' := RunStep(s', t);
    assert s'.threads == s.threads[t := PopLoadSeq(s.dequeuePos)];
  }

  /** A push on an open queue passes the check and loads its position. */
  lemma BeginsPush(c: Usage, s0: State<int>, s: State<int>, t: nat, v: int) returns (s': State<int>)
    requires Reachable(c, s0, s) && t < |s.threads| && |s.cells| > 0 && AtRest(s.threads[t]) && !s.closed
    requires t < c.pushers
    ensures Reachable(c, s0, s') && s' == s.(threads := s.threads[t := PushLoadSeq(v, s.enqueuePos)])
  {
    hide Reachable;
    s' := Admits(c, s0, s, t, v);
    RunOn(c, s0, s', t);
    s' := RunStep(s', t);
    assert s'.threads == s.threads[t := PushLoadSeq(v, s.enqueuePos)];
  }

  /** A whole close of an open queue. */
  lemma Closes(c: Usage, s0: State<int>, s: State<int>, t: nat) returns (s': State<int>)
    requires Reachable(c, s0, s) && t < |s.threads| && |s.cells| > 0 && AtRest(s.threads[t]) && !s.closed
    ensures Reachable(c, s0, s') && s' == s.(closed := true, threads := s.threads[t := CloseReturned(true)])
  {
    hide Reachable;
    CallOn(c, s0, s, t, Close);
    s' := At(s, t, CloseExchange);
    RunOn(c, s0, s', t);
    s' := RunStep(s', t);
    assert s'.threads == s.threads[t := CloseReturned(true)];
  }

  /** The run that leads to a reachable state. */
  lemma RunTo(c: Usage, s0: State<int>, s: State<int>) returns (es: seq<Event<int>>)
    requires Reachable(c, s0, s)
    ensures ValidRun(s0, es) && AllRespect(es, c) && Exec(s0, es) == s
  {
    es :| ValidRun(s0, es) && AllRespect(es, c) && Exec(s0, es) == s;
  }

  /** Thread `t` has pushed `k` values on a new queue and nobody else has done anything. */
  ghost predicate Filled(s: State<int>, cap: nat, n: nat, t: nat, k: nat) {
    && |s.cells| == cap && |s.threads| == n && t < n && !s.closed
    && s.enqueuePos == k <= cap && s.dequeuePos == 0
    && (forall u :: 0 <= u < n ==> AtRest(s.threads[u]))
    && (forall i :: 0 <= i < k ==> s.cells[i].sequence == i + 1 && s.cells[i].storage.Live?)
    && (forall i :: k <= i < cap ==> s.cells[i] == Cell(i, Empty))
  }

  lemma {:induction false} Fill(c: Usage, cap: nat, n: nat, t: nat, k: nat) returns (s: State<int>)
    requires t < n && t < c.pushers && k <= cap
    ensures Reachable(c, Init(cap, n), s) && Filled(s, cap, n, t, k)
  {
    hide Reachable, Slot;
    if k == 0 {
      s := Init(cap, n);
      Start(c, s);
    } else {
      s := Fill(c, cap, n, t, k - 1);
      SlotSmall(k - 1, cap);
      s := Pushes(c, Init(cap, n), s, t, 7);
    }
  }

  /** Thread `t` has pushed and popped `k` values; every cell is free for its next ticket. */
  ghost predicate Cycled(s: State<int>, cap: nat, n: nat, t: nat, k: nat) {
    && |s.cells| == cap > 0 && |s.threads| == n && t < n && !s.closed
    && s.enqueuePos == k && s.dequeuePos == k
    && (forall u :: 0 <= u < n ==> AtRest(s.threads[u]))
    && (forall j: nat :: k <= j < k + cap ==> CellOf(s, j) == Cell(j, Empty))
  }

  /** One more value goes in and out. */
  lemma CycleOnce(c: Usage, s0: State<int>, s: State<int>, cap: nat, n: nat, t: nat, k: nat) returns (s': State<int>)
    requires Reachable(c, s0, s) && Cycled(s, cap, n, t, k) && t < c.pushers && t < c.poppers && cap > 0
    ensures Reachable(c, s0, s') && Cycled(s', cap, n, t, k + 1)
  {
    hide Reachable, Slot;
    s' := Pushes(c, s0, s, t, 7);
    s' := WinsPop(c, s0, s', t);
    s' := CompletesPop(c, s0, s', t);
    SlotPeriodic(k, cap);
    forall j: nat | k < j < k + cap ensures Slot(j, cap) != Slot(k, cap) {
      if Slot(j, cap) == Slot(k, cap) { SlotInjective(k, j, cap); }
    }
  }

  lemma {:induction false} Cycle(c: Usage, cap: nat, n: nat, t: nat, k: nat) returns (s: State<int>)
    requires t < n && t < c.pushers && t < c.poppers && cap > 0
    ensures Reachable(c, Init(cap, n), s) && Cycled(s, cap, n, t, k)
  {
    hide Reachable, Slot;
    if k == 0 {
      s := Init(cap, n);
      Start(c, s);
      forall j: nat | j < cap ensures CellOf(s, j) == Cell(j, Empty) {
        SlotSmall(j, cap);
      }
    } else {
      s := Cycle(c, cap, n, t, k - 1);
      s := CycleOnce(c, Init(cap, n), s, cap, n, t, k - 1);
    }
  }

  // What the runs show.

  /** A push that passed the closed check before `close` succeeds after it. */
  lemma PushCanSucceedAfterClose() returns (es: seq<Event<int>>, s: State<int>)
    ensures ValidRun(Init(2, 2), es) && Exec(Init(2, 2), es) == s && |s.threads| == 2 && s.closed
    ensures s.threads[0] == PushReturned(true) && s.threads[1] == CloseReturned(true)
  {
    var c, s0 := Usage(1, 0), Init<int>(2, 2);
    SlotSmall(0, 2);
    Start(c, s0);
    s := Admits(c, s0, s0, 0, 7);
    hide Reachable, Slot;
    s := Closes(c, s0, s, 1);
    s := WinsPush(c, s0, s, 0, 7);
    s := CompletesPush(c, s0, s, 0);
    es := RunTo(c, s0, s);
  }

  /** With one cell, "published" and "free for the next lap" read alike and a live slot is overwritten. */
  lemma OneCellOverwrites() returns (es: seq<Event<int>>, s: State<int>)
    ensures ValidRun(Init(1, 1), es) && Exec(Init(1, 1), es) == s && |s.threads| == 1 && s.threads[0].Fault?
  {
    var c, s0 := Usage(1, 0), Init<int>(1, 1);
    SlotSmall(0, 1);
    SlotPeriodic(0, 1);
    Start(c, s0);
    s := Pushes(c, s0, s0, 0, 7);
    hide Reachable, Slot;
    s := Admits(c, s0, s, 0, 8);
    s := WinsPush(c, s0, s, 0, 8);
    RunOn(c, s0, s, 0);
    s := PushConstructStep(s, 0, 8, 1);
    es := RunTo(c, s0, s);
  }

  ghost predicate NeverFaults(cap: nat) {
    forall n: nat, es: seq<Event<int>>, t: nat ::
      ValidRun(Init(cap, n), es) && t < |Exec(Init<int>(cap, n), es).threads| ==>
      !Exec(Init<int>(cap, n), es).threads[t].Fault?
  }

  /** The capacity floor of two is exactly what the protocol needs. */
  lemma TwoCellsAreExactlyEnough(cap: nat)
    requires cap > 0
    ensures NeverFaults(cap) <==> cap >= 2
  {
    if cap >= 2 {
      forall n: nat, es: seq<Event<int>>, t: nat
        | ValidRun(Init(cap, n), es) && t < |Exec(Init<int>(cap, n), es).threads|
        ensures !Exec(Init<int>(cap, n), es).threads[t].Fault?
      {
        InitInv<int>(cap, n);
        RunsKeepInv(Init(cap, n), es);
        assert ThreadInv(Exec(Init<int>(cap, n), es), t);
      }
    } else {
      var es, s := OneCellOverwrites();
      assert Exec(Init<int>(1, 1), es).threads[0].Fault?;
    }
  }
}
