/** When the failure of a push or a pop on the slot-sequence queue can be believed, by which threads call what. */
module AtomicFailures {
  import opened Tickets
  import opened AtomicQueue
  import opened AtomicInvariant
  import opened AtomicLinearizable
  import opened AtomicProperties
  import opened AtomicRuns
  import opened Wrappers

  /** Thread `t` is at the load that makes its pop return false. */
  ghost predicate PopFails(s: State, t: nat) {
    t < |s.threads| && |s.cells| > 0 && s.threads[t].PopLoadSeq? &&
    PopLoadSeqStep(s, t, s.threads[t].pos).threads[t] == PopReturned(None)
  }

  /** Thread `t` is at the load that makes its push return false. */
  ghost predicate PushFails(s: State, t: nat) {
    t < |s.threads| && |s.cells| > 0 && s.threads[t].PushLoadSeq? &&
    PushLoadSeqStep(s, t, s.threads[t].value, s.threads[t].pos).threads[t] == PushReturned(false)
  }

  /** A pop fails although a completely pushed value waits in some cell. */
  ghost predicate Misses(s: State, t: nat) {
    PopFails(s, t) && exists i, k: nat :: 0 <= i < |s.cells| && Waiting(s, i, k)
  }

  /** Cell `i` has been released for a ticket that nobody has claimed. */
  ghost predicate Released(s: State, i: nat, ticket: nat)
    requires i < |s.cells|
  {
    s.enqueuePos <= ticket && Slot(ticket, |s.cells|) == i && s.cells[i].sequence == ticket
  }

  /** A push fails although some cell is free. */
  ghost predicate Overlooks(s: State, t: nat) {
    PushFails(s, t) && exists i, k: nat :: 0 <= i < |s.cells| && Released(s, i, k)
  }

  ghost predicate NeverMisses(cap: nat, c: Usage) {
    forall n: nat, es: seq<Event<int>>, t: nat ::
      ValidRun(Init(cap, n), es) && AllRespect(es, c) ==> !Misses(Exec(Init<int>(cap, n), es), t)
  }

  ghost predicate NeverOverlooks(cap: nat, c: Usage) {
    forall n: nat, es: seq<Event<int>>, t: nat ::
      ValidRun(Init(cap, n), es) && AllRespect(es, c) ==> !Overlooks(Exec(Init<int>(cap, n), es), t)
  }

  /** Whenever a pop fails, every value that was ever claimed for pushing has been claimed by a pop. */
  ghost predicate FailedPopsSeeEmpty(cap: nat, c: Usage) {
    forall n: nat, es: seq<Event<int>>, t: nat ::
      ValidRun(Init(cap, n), es) && AllRespect(es, c) ==>
      var s := Exec(Init<int>(cap, n), es); PopFails(s, t) ==> s.enqueuePos == s.dequeuePos
  }

  /** Whenever a push fails, `cap` values have been claimed for pushing and not by a pop. */
  ghost predicate FailedPushesSeeFull(cap: nat, c: Usage) {
    forall n: nat, es: seq<Event<int>>, t: nat ::
      ValidRun(Init(cap, n), es) && AllRespect(es, c) ==>
      var s := Exec(Init<int>(cap, n), es); PushFails(s, t) ==> s.enqueuePos == s.dequeuePos + cap
  }

  // Who can be where.

  ghost predicate Roles(s: State, c: Usage) {
    forall u :: 0 <= u < |s.threads| ==>
      (InPush(s.threads[u]) ==> u < c.pushers) && (InPop(s.threads[u]) ==> u < c.poppers)
  }

  /** An access stays inside its operation or returns from it. */
  lemma AccessStays<T>(s: State<T>, t: nat)
    requires Enabled(s, Event(t, Run)) && |RunStep(s, t).threads| == |s.threads|
    ensures InPush(s.threads[t]) ==> !InPop(RunStep(s, t).threads[t])
    ensures InPop(s.threads[t]) ==> !InPush(RunStep(s, t).threads[t])
    ensures !InPush(s.threads[t]) && !InPop(s.threads[t]) ==>
      !InPush(RunStep(s, t).threads[t]) && !InPop(RunStep(s, t).threads[t])
  {
    hide Slot, CellOf;
  }

  /** An operation is entered only by its call. */
  lemma OperationsCalled<T>(s: State<T>, e: Event<T>)
    requires Enabled(s, e) && |Next(s, e).threads| == |s.threads|
    ensures InPush(Next(s, e).threads[e.thread]) ==>
      InPush(s.threads[e.thread]) || (e.action.Call? && e.action.op.Push?)
    ensures InPop(Next(s, e).threads[e.thread]) ==>
      InPop(s.threads[e.thread]) || (e.action.Call? && e.action.op.Pop?)
  {
    hide RunStep;
    if e.action.Run? { AccessStays(s, e.thread); }
  }

  lemma NextRoles<T>(s: State<T>, e: Event<T>, c: Usage)
    requires Enabled(s, e) && Roles(s, c) && Respects(e, c)
    ensures Roles(Next(s, e), c)
  {
    hide Next, InPush, InPop, Enabled;
    SameShape(s, e);
    OperationsCalled(s, e);
    InRange(s, e);
  }

  lemma InRange<T>(s: State<T>, e: Event<T>)
    requires Enabled(s, e)
    ensures e.thread < |s.threads| && |s.cells| > 0
  {
  }

  // One pushing thread, or one popping thread.

  /** A claimed and unpublished ticket is the newest one, if at most one thread pushes. */
  ghost predicate NewestUnpublished(s: State, c: Usage) {
    c.pushers <= 1 ==> forall u, pos: nat :: 0 <= u < |s.threads| && Pushing(s, u, pos) ==> pos + 1 == s.enqueuePos
  }

  /** A popped and unreleased ticket is the last one popped, if at most one thread pops. */
  ghost predicate LastUnreleased(s: State, c: Usage) {
    c.poppers <= 1 ==> forall u, pos: nat :: 0 <= u < |s.threads| && Popping(s, u, pos) ==> pos + 1 == s.dequeuePos
  }

  ghost predicate Claiming(pc: Pc) { pc.PushConstruct? || pc.PushPublish? }

  ghost predicate Holding(pc: Pc) { pc.PopTake? || pc.PopDestroy? || pc.PopRelease? }

  /** An access moves a counter only by winning its old value, and a claimed ticket stays the thread's own. */
  lemma PushClaimsMove<T>(s: State<T>, t: nat)
    requires Enabled(s, Event(t, Run)) && |RunStep(s, t).threads| == |s.threads|
    ensures var s', pc, pc' := RunStep(s, t), s.threads[t], RunStep(s, t).threads[t];
      && (s'.enqueuePos != s.enqueuePos ==> pc.PushCas?)
      && (Claiming(pc') ==> if Claiming(pc) then pc'.pos == pc.pos && s'.enqueuePos == s.enqueuePos
                            else pc'.pos + 1 == s'.enqueuePos)
  {
    hide Slot, CellOf;
  }

  lemma PopClaimsMove<T>(s: State<T>, t: nat)
    requires Enabled(s, Event(t, Run)) && |RunStep(s, t).threads| == |s.threads|
    ensures var s', pc, pc' := RunStep(s, t), s.threads[t], RunStep(s, t).threads[t];
      && (s'.dequeuePos != s.dequeuePos ==> pc.PopCas?)
      && (Holding(pc') ==> if Holding(pc) then pc'.pos == pc.pos && s'.dequeuePos == s.dequeuePos
                           else pc'.pos + 1 == s'.dequeuePos)
  {
    hide Slot, CellOf;
  }

  /** Calls and spurious failures claim nothing. */
  lemma ClaimsMove<T>(s: State<T>, e: Event<T>)
    requires Enabled(s, e) && |Next(s, e).threads| == |s.threads|
    ensures var s', pc, pc' := Next(s, e), s.threads[e.thread], Next(s, e).threads[e.thread];
      && (s'.enqueuePos != s.enqueuePos ==> InPush(pc)) && (s'.dequeuePos != s.dequeuePos ==> InPop(pc))
      && (Claiming(pc') ==> if Claiming(pc) then pc'.pos == pc.pos && s'.enqueuePos == s.enqueuePos
                            else pc'.pos + 1 == s'.enqueuePos)
      && (Holding(pc') ==> if Holding(pc) then pc'.pos == pc.pos && s'.dequeuePos == s.dequeuePos
                           else pc'.pos + 1 == s'.dequeuePos)
  {
    hide RunStep;
    if e.action.Run? {
      PushClaimsMove(s, e.thread);
      PopClaimsMove(s, e.thread);
    }
  }

  lemma NextSole<T>(s: State<T>, e: Event<T>, c: Usage)
    requires Enabled(s, e) && Roles(s, c) && NewestUnpublished(s, c) && LastUnreleased(s, c)
    ensures NewestUnpublished(Next(s, e), c) && LastUnreleased(Next(s, e), c)
  {
    hide Next, Enabled;
    var s' := Next(s, e);
    SameShape(s, e);
    InRange(s, e);
    ClaimsMove(s, e);
    forall u, pos: nat | c.pushers <= 1 && 0 <= u < |s'.threads| && Pushing(s', u, pos)
      ensures pos + 1 == s'.enqueuePos
    {
      if u != e.thread { assert Pushing(s, u, pos); } else { assert Claiming(s'.threads[u]); }
      if Claiming(s.threads[u]) { assert Pushing(s, u, s.threads[u].pos); }
    }
    forall u, pos: nat | c.poppers <= 1 && 0 <= u < |s'.threads| && Popping(s', u, pos)
      ensures pos + 1 == s'.dequeuePos
    {
      if u != e.thread { assert Popping(s, u, pos); } else { assert Holding(s'.threads[u]); }
      if Holding(s.threads[u]) { assert Popping(s, u, s.threads[u].pos); }
    }
  }

  lemma {:induction false} RunsSole<T>(s: State<T>, es: seq<Event<T>>, c: Usage)
    requires ValidRun(s, es) && AllRespect(es, c)
    requires Roles(s, c) && NewestUnpublished(s, c) && LastUnreleased(s, c)
    ensures Roles(Exec(s, es), c) && NewestUnpublished(Exec(s, es), c) && LastUnreleased(Exec(s, es), c)
    decreases |es|
  {
    hide Next, Enabled, Roles, NewestUnpublished, LastUnreleased, Respects;
    if es != [] {
      NextRoles(s, es[0], c);
      NextSole(s, es[0], c);
      RunsSole(Next(s, es[0]), es[1..], c);
    }
  }

  /** Everything the safe halves need of a reachable state. */
  lemma {:induction false} Reached(cap: nat, c: Usage, n: nat, es: seq<Event<int>>)
    requires cap >= 2 && ValidRun(Init(cap, n), es) && AllRespect(es, c)
    ensures var s := Exec(Init<int>(cap, n), es);
      Inv(s) && |s.cells| == cap && Roles(s, c) && NewestUnpublished(s, c) && LastUnreleased(s, c)
  {
    var s0 := Init<int>(cap, n);
    assert Roles(s0, c) && NewestUnpublished(s0, c) && LastUnreleased(s0, c);
    InitInv<int>(cap, n);
    hide Roles, NewestUnpublished, LastUnreleased;
    RunsKeepInv(s0, es);
    RunShape(s0, es);
    RunsSole(s0, es, c);
  }

  /** What a failing pop has seen. */
  lemma PopFailureMeans(s: State<int>, t: nat)
    requires Inv(s) && PopFails(s, t)
    ensures s.threads[t].pos == s.dequeuePos
    ensures s.dequeuePos == s.enqueuePos ||
      (s.dequeuePos < s.enqueuePos && Pushing(s, s.hist.pushers[s.dequeuePos], s.dequeuePos))
  {
    PopFailsExactlyWhenUnpublished(s, t, s.threads[t].pos);
  }

  lemma PushFailureMeans(s: State<int>, t: nat)
    requires Inv(s) && PushFails(s, t)
    ensures var pos, cap := s.threads[t].pos, |s.cells|;
      && pos == s.enqueuePos >= cap
      && (pos == s.dequeuePos + cap || (pos - cap < s.dequeuePos && Popping(s, s.hist.poppers[pos - cap], pos - cap)))
  {
    PushFailsExactlyWhenUnreleased(s, t, s.threads[t].value, s.threads[t].pos);
  }

  /** The cell of an unpublished ticket still reads free, that of an unreleased one published. */
  lemma ClaimedCellReads(s: State<int>, u: nat, pos: nat)
    requires Inv(s)
    ensures Pushing(s, u, pos) ==> Serves(s, pos, pos)
    ensures Popping(s, u, pos) ==> Serves(s, pos, pos + 1)
  {
    if u < |s.threads| { assert ThreadInv(s, u); }
  }

  lemma SolePusherMissesNothing(s: State<int>, c: Usage, t: nat)
    requires Inv(s) && Roles(s, c) && NewestUnpublished(s, c) && (c.pushers <= 1 || c.poppers == 0)
    ensures !Misses(s, t)
  {
    if PopFails(s, t) {
      PopFailureMeans(s, t);
      if s.dequeuePos < s.enqueuePos { ClaimedCellReads(s, s.hist.pushers[s.dequeuePos], s.dequeuePos); }
      forall i, k: nat | 0 <= i < |s.cells| ensures !Waiting(s, i, k) {
        OneTicket(s, i);
      }
    }
  }

  lemma SolePopperOverlooksNothing(s: State<int>, c: Usage, t: nat)
    requires Inv(s) && Roles(s, c) && LastUnreleased(s, c) && (c.poppers <= 1 || c.pushers == 0)
    ensures !Overlooks(s, t)
  {
    if PushFails(s, t) {
      PushFailureMeans(s, t);
      var pos, cap := s.threads[t].pos, |s.cells|;
      SlotPeriodic(pos - cap, cap);
      if pos != s.dequeuePos + cap { ClaimedCellReads(s, s.hist.poppers[pos - cap], pos - cap); }
      forall i, k: nat | 0 <= i < |s.cells| ensures !Released(s, i, k) {
        OneTicket(s, i);
        assert CellInv(s, i);
      }
    }
  }

  // The runs of the unsafe settings, with two threads.

  /** Thread 1 has claimed ticket 0 and stands still while thread 0 completes the push of ticket 1 and pops. */
  lemma MissingRun(cap: nat, c: Usage) returns (s: State<int>)
    requires cap >= 2 && c.pushers >= 2 && c.poppers >= 1
    ensures Reachable(c, Init(cap, 2), s) && Misses(s, 0)
    ensures s.enqueuePos == 2 && s.dequeuePos == 0
  {
    var s0 := Init<int>(cap, 2);
    SlotSmall(0, cap);
    SlotSmall(1, cap);
    Start(c, s0);
    hide Reachable, Slot;
    s := Admits(c, s0, s0, 1, 7);
    s := WinsPush(c, s0, s, 1, 7);
    s := Pushes(c, s0, s, 0, 8);
    s := BeginsPop(c, s0, s, 0);
    assert Waiting(s, 1, 1);
  }

  /** Thread 1 has claimed a ticket and stands still while thread 0 pops. */
  lemma UnpublishedRun(cap: nat, c: Usage, pusher: nat, popper: nat) returns (s: State<int>)
    requires cap >= 2 && pusher < c.pushers && popper < c.poppers && pusher != popper
    ensures Reachable(c, Init(cap, pusher + popper + 1), s) && PopFails(s, popper)
    ensures s.enqueuePos == 1 && s.dequeuePos == 0
  {
    var s0 := Init<int>(cap, pusher + popper + 1);
    SlotSmall(0, cap);
    Start(c, s0);
    hide Reachable, Slot;
    s := Admits(c, s0, s0, pusher, 7);
    s := WinsPush(c, s0, s, pusher, 7);
    s := BeginsPop(c, s0, s, popper);
  }

  /** On a full queue the popper has claimed the oldest value and stands still while the pusher pushes. */
  lemma UnreleasedRun(cap: nat, c: Usage, pusher: nat, popper: nat) returns (s: State<int>)
    requires cap >= 2 && pusher < c.pushers && popper < c.poppers && pusher != popper
    ensures Reachable(c, Init(cap, pusher + popper + 1), s) && PushFails(s, pusher)
    ensures s.enqueuePos == cap && s.dequeuePos == 1
  {
    var s0 := Init<int>(cap, pusher + popper + 1);
    SlotSmall(0, cap);
    SlotPeriodic(0, cap);
    s := Fill(c, cap, pusher + popper + 1, pusher, cap);
    hide Reachable, Slot;
    s := WinsPop(c, s0, s, popper);
    s := BeginsPush(c, s0, s, pusher, 8);
  }

  /** Thread 1 has popped ticket 0 and stands still while thread 0 completes the pop of ticket 1 and pushes. */
  lemma OverlookingRun(cap: nat, c: Usage) returns (s: State<int>)
    requires cap >= 2 && c.poppers >= 2 && c.pushers >= 1
    ensures Reachable(c, Init(cap, 2), s) && Overlooks(s, 0)
  {
    var s0 := Init<int>(cap, 2);
    SlotSmall(0, cap);
    SlotSmall(1, cap);
    SlotPeriodic(0, cap);
    SlotPeriodic(1, cap);
    s := Fill(c, cap, 2, 0, cap);
    hide Reachable, Slot;
    s := WinsPop(c, s0, s, 1);
    s := WinsPop(c, s0, s, 0);
    s := CompletesPop(c, s0, s, 0);
    s := BeginsPush(c, s0, s, 0, 8);
    assert Released(s, 1, 1 + cap);
  }

  /**
   A pop can fail although a push has completed and nothing was ever popped: the oldest ticket
   belongs to a push that has won its CAS and not yet published.
   */
  lemma PopCanMissCompletedPush(cap: nat) returns (es: seq<Event<int>>, s: State<int>)
    requires cap >= 2
    ensures ValidRun(Init(cap, 3), es) && Exec(Init(cap, 3), es) == s && s.dequeuePos == 0
    ensures s.threads == [PushConstruct(7, 0), PushReturned(true), PopReturned(None)]
  {
    var c, s0 := Usage(2, 3), Init<int>(cap, 3);
    SlotSmall(0, cap);
    SlotSmall(1, cap);
    Start(c, s0);
    hide Reachable, Slot;
    s := Admits(c, s0, s0, 0, 7);
    s := WinsPush(c, s0, s, 0, 7);
    s := Pushes(c, s0, s, 1, 8);
    s := BeginsPop(c, s0, s, 2);
    RunOn(c, s0, s, 2);
    s := PopLoadSeqStep(s, 2, 0);
    es := RunTo(c, s0, s);
  }

  /**
   A push can fail although no value is left unclaimed: both values have been claimed by pops that
   have not released their cells.
   */
  lemma PushCanFailOnEmptyFifo() returns (es: seq<Event<int>>, s: State<int>)
    ensures ValidRun(Init(2, 3), es) && Exec(Init(2, 3), es) == s
    ensures s.enqueuePos == s.dequeuePos == 2 && !s.closed
    ensures s.threads == [PopTake(0), PopTake(1), PushReturned(false)]
  {
    var c, s0 := Usage(3, 2), Init<int>(2, 3);
    SlotSmall(0, 2);
    SlotSmall(1, 2);
    SlotPeriodic(0, 2);
    s := Fill(c, 2, 3, 0, 2);
    hide Reachable, Slot;
    s := WinsPop(c, s0, s, 0);
    s := WinsPop(c, s0, s, 1);
    s := BeginsPush(c, s0, s, 2, 9);
    RunOn(c, s0, s, 2);
    s := PushLoadSeqStep(s, 2, 9, 2);
    es := RunTo(c, s0, s);
  }

  // The results.

  /**
   A pop can fail beside a completely pushed value exactly when two or more threads push (and some
   thread pops): the oldest ticket then may belong to a push that has not published it.
   */
  lemma NeverMissesIff(cap: nat, c: Usage)
    requires cap >= 2
    ensures NeverMisses(cap, c) <==> c.pushers <= 1 || c.poppers == 0
  {
    if c.pushers <= 1 || c.poppers == 0 {
      forall n: nat, es: seq<Event<int>>, t: nat | ValidRun(Init(cap, n), es) && AllRespect(es, c)
        ensures !Misses(Exec(Init<int>(cap, n), es), t)
      {
        Reached(cap, c, n, es);
        SolePusherMissesNothing(Exec(Init<int>(cap, n), es), c, t);
      }
    } else {
      var s := MissingRun(cap, c);
      var es := RunTo(c, Init(cap, 2), s);
    }
  }

  /**
   A push can fail beside a released cell exactly when two or more threads pop (and some thread
   pushes): the cell of the push's own ticket then may still be held by an older pop.
   */
  lemma NeverOverlooksIff(cap: nat, c: Usage)
    requires cap >= 2
    ensures NeverOverlooks(cap, c) <==> c.poppers <= 1 || c.pushers == 0
  {
    if c.poppers <= 1 || c.pushers == 0 {
      forall n: nat, es: seq<Event<int>>, t: nat | ValidRun(Init(cap, n), es) && AllRespect(es, c)
        ensures !Overlooks(Exec(Init<int>(cap, n), es), t)
      {
        Reached(cap, c, n, es);
        SolePopperOverlooksNothing(Exec(Init<int>(cap, n), es), c, t);
      }
    } else {
      var s := OverlookingRun(cap, c);
      var es := RunTo(c, Init(cap, 2), s);
    }
  }

  /** No two different threads of which one may push and the other may pop. */
  predicate OneThreadDoesAll(c: Usage) {
    c.pushers == 0 || c.poppers == 0 || (c.pushers == 1 && c.poppers == 1)
  }

  lemma TwoThreads(c: Usage) returns (pusher: nat, popper: nat)
    requires !OneThreadDoesAll(c)
    ensures pusher < c.pushers && popper < c.poppers && pusher != popper
  {
    if c.pushers >= 2 { pusher, popper := 1, 0; } else { pusher, popper := 0, 1; }
  }

  lemma AloneSeesTruly(s: State<int>, c: Usage, t: nat)
    requires Inv(s) && Roles(s, c) && OneThreadDoesAll(c)
    ensures PopFails(s, t) ==> s.enqueuePos == s.dequeuePos
    ensures PushFails(s, t) ==> s.enqueuePos == s.dequeuePos + |s.cells|
  {
    if PopFails(s, t) { PopFailureMeans(s, t); }
    if PushFails(s, t) { PushFailureMeans(s, t); }
  }

  /** A failing pop means an empty queue exactly when no thread pushes while another pops. */
  lemma FailedPopsSeeEmptyIff(cap: nat, c: Usage)
    requires cap >= 2
    ensures FailedPopsSeeEmpty(cap, c) <==> OneThreadDoesAll(c)
  {
    if OneThreadDoesAll(c) {
      forall n: nat, es: seq<Event<int>>, t: nat | ValidRun(Init(cap, n), es) && AllRespect(es, c)
        ensures var s := Exec(Init<int>(cap, n), es); PopFails(s, t) ==> s.enqueuePos == s.dequeuePos
      {
        Reached(cap, c, n, es);
        AloneSeesTruly(Exec(Init<int>(cap, n), es), c, t);
      }
    } else {
      var pusher, popper := TwoThreads(c);
      var s := UnpublishedRun(cap, c, pusher, popper);
      var es := RunTo(c, Init(cap, pusher + popper + 1), s);
      assert PopFails(Exec(Init<int>(cap, pusher + popper + 1), es), popper);
    }
  }

  /** A failing push means `capacity` unclaimed values exactly when no thread pops while another pushes. */
  lemma FailedPushesSeeFullIff(cap: nat, c: Usage)
    requires cap >= 2
    ensures FailedPushesSeeFull(cap, c) <==> OneThreadDoesAll(c)
  {
    if OneThreadDoesAll(c) {
      forall n: nat, es: seq<Event<int>>, t: nat | ValidRun(Init(cap, n), es) && AllRespect(es, c)
        ensures var s := Exec(Init<int>(cap, n), es); PushFails(s, t) ==> s.enqueuePos == s.dequeuePos + cap
      {
        Reached(cap, c, n, es);
        AloneSeesTruly(Exec(Init<int>(cap, n), es), c, t);
      }
    } else {
      var pusher, popper := TwoThreads(c);
      var s := UnreleasedRun(cap, c, pusher, popper);
      var es := RunTo(c, Init(cap, pusher + popper + 1), s);
      assert PushFails(Exec(Init<int>(cap, pusher + popper + 1), es), pusher);
    }
  }
}
