/**
 The producers and consumers of the versions test can always come to an end: from every state they can
 reach some schedule lets all of them finish, and once the producers are done and the queue is empty
 each consumer stops by itself.
 */
module AtomicClientProgress {
  import opened Counting
  import opened Tickets
  import opened AtomicClient
  import opened AtomicInvariant
  import opened AtomicProgress
  import opened AtomicProperties
  import opened AtomicQueue

  // One call that runs while all other threads are at rest.

  ghost predicate OthersRest(q: State, t: nat) {
    forall u :: 0 <= u < |q.threads| && u != t ==> AtRest(q.threads[u])
  }

  predicate HasRoom(q: State) { q.enqueuePos < q.dequeuePos + |q.cells| }

  /** A push that will succeed if nobody interferes. */
  ghost predicate PushOnTrack(q: State, t: nat)
    requires t < |q.threads|
  {
    var pc := q.threads[t];
    if pc.PushCheckClosed? || pc.PushLoadPos? then !q.closed && HasRoom(q)
    else if pc.PushLoadSeq? || pc.PushCas? then pc.pos == q.enqueuePos && HasRoom(q)
    else pc.PushConstruct? || pc.PushPublish? || pc == PushReturned(true)
  }

  predicate HasTaken<T>(pc: Pc<T>) {
    pc.PopTake? || pc.PopDestroy? || pc.PopRelease? || (pc.PopReturned? && pc.result.Some?)
  }

  /** A pop that will take a value if nobody interferes, or, with `mayFail`, find none. */
  ghost predicate PopOnTrack(q: State, t: nat, mayFail: bool)
    requires t < |q.threads|
  {
    var pc := q.threads[t];
    if pc.PopLoadPos? then q.dequeuePos < q.enqueuePos || mayFail
    else if pc.PopLoadSeq? || pc.PopCas? then pc.pos == q.dequeuePos && (q.dequeuePos < q.enqueuePos || mayFail)
    else HasTaken(pc) || (pc.PopReturned? && mayFail)
  }

  lemma PushStaysOnTrack<T>(q: State<T>, t: nat)
    requires Inv(q) && t < |q.threads| == |RunStep(q, t).threads| && OthersRest(q, t)
    requires PushOnTrack(q, t) && !AtRest(q.threads[t])
    ensures var q', won := RunStep(q, t), PushWin(q, Event(t, Run));
      && PushOnTrack(q', t) && q'.dequeuePos == q.dequeuePos && q'.enqueuePos == q.enqueuePos + One(won)
      && (HoldsPushed(q'.threads[t]) <==> HoldsPushed(q.threads[t]) || won)
  {
    hide Slot;
    assert ThreadInv(q, t);
    if q.threads[t].PushLoadSeq? {
      PushDoesNotFail(q, t);
      if PushRetry(q, Event(t, Run)) { PushRetryMeansOvertaken(q, Event(t, Run)); }
    }
  }

  lemma PopStaysOnTrack<T>(q: State<T>, t: nat, mayFail: bool)
    requires Inv(q) && t < |q.threads| == |RunStep(q, t).threads| && OthersRest(q, t)
    requires PopOnTrack(q, t, mayFail) && !AtRest(q.threads[t])
    ensures var q', won := RunStep(q, t), PopWin(q, Event(t, Run));
      && PopOnTrack(q', t, mayFail) && q'.enqueuePos == q.enqueuePos && q'.dequeuePos == q.dequeuePos + One(won)
      && (HasTaken(q'.threads[t]) <==> HasTaken(q.threads[t]) || won)
  {
    hide Slot;
    assert ThreadInv(q, t);
    if q.threads[t].PopLoadSeq? {
      if q.dequeuePos < q.enqueuePos { PopDoesNotFail(q, t); }
      if PopRetry(q, Event(t, Run)) { PopRetryMeansOvertaken(q, Event(t, Run)); }
    }
  }

  // What is left to do.

  /** The pushes a producer still owes, and its report that it is done. */
  function Owes<T>(c: Client<T>, pc: Pc<T>): nat {
    if c.Consumer? then 0
    else (if Claimed(c, pc) <= |c.items| then |c.items| - Claimed(c, pc) else 0) + One(IsUnfinished(c))
  }

  /** Falls with every move that neither pays a debt nor takes a value. */
  ghost function Rank<T>(y: System<T>, t: nat): (r: nat)
    requires t < |y.clients| == |y.queue.threads|
    ensures r <= 57
  {
    var c, pc, left := y.clients[t], y.queue.threads[t], Budget(y.queue, t);
    match c
    case Producer(_, _, Ready) => 8
    case Producer(_, _, InPush) => (if HoldsPushed(pc) then 9 else 1) + left
    case Producer(_, _, Done) => 0
    case Consumer(_, ReadyFirst) => 30
    case Consumer(_, InFirstPop) => (if HasTaken(pc) then 50 else 20) + left
    case Consumer(_, CheckDone) => if y.done == y.producers then 11 else 45
    case Consumer(_, ReadySecond) => 10
    case Consumer(_, InSecondPop) => (if HasTaken(pc) then 50 else 1) + left
    case Consumer(_, Stopped) => 0
  }

  ghost function Debts<T>(y: System<T>): seq<int>
    requires |y.clients| == |y.queue.threads|
  {
    seq(|y.clients|, t requires 0 <= t < |y.clients| => Owes(y.clients[t], y.queue.threads[t]))
  }

  ghost function Ranks<T>(y: System<T>): seq<int>
    requires |y.clients| == |y.queue.threads|
  {
    seq(|y.clients|, t requires 0 <= t < |y.clients| => Rank(y, t))
  }

  function Length(y: System): int { y.queue.enqueuePos - y.queue.dequeuePos }

  ghost predicate Closer<T>(y': System<T>, y: System<T>)
    requires |y.clients| == |y.queue.threads| && |y'.clients| == |y'.queue.threads|
  {
    || Sum(Debts(y')) < Sum(Debts(y))
    || (Sum(Debts(y')) == Sum(Debts(y)) && Length(y') < Length(y))
    || (Sum(Debts(y')) == Sum(Debts(y)) && Length(y') == Length(y) && Sum(Ranks(y')) < Sum(Ranks(y)))
  }

  /** All clients but `t` are outside the queue. */
  ghost predicate OthersOut(y: System, t: nat) {
    t < |y.clients| == |y.queue.threads| &&
    forall u :: 0 <= u < |y.clients| && u != t ==> !InCall(y.clients[u])
  }

  /** From `y` to `y'` only client `t` and its thread have changed. */
  ghost predicate OnlyMoved<T>(y: System<T>, y': System<T>, t: nat) {
    t < |y.clients| == |y.queue.threads| == |y'.clients| == |y'.queue.threads| &&
    y'.clients == y.clients[t := y'.clients[t]] && y'.queue.threads == y.queue.threads[t := y'.queue.threads[t]]
  }

  lemma StepCloser<T>(y: System<T>, y': System<T>, t: nat)
    requires OnlyMoved(y, y', t) && OthersOut(y, t)
    requires var owed, owes := Owes(y.clients[t], y.queue.threads[t]), Owes(y'.clients[t], y'.queue.threads[t]);
      owes < owed ||
      (owes == owed && (y'.done == y'.producers <==> y.done == y.producers) &&
       (Length(y') < Length(y) || (Length(y') == Length(y) && Rank(y', t) < Rank(y, t))))
    ensures Closer(y', y)
  {
    hide Budget, Sum, Owes;
    assert Debts(y') == Debts(y)[t := Owes(y'.clients[t], y'.queue.threads[t])];
    SumUpdate(Debts(y), t, Owes(y'.clients[t], y'.queue.threads[t]));
    if y'.done == y'.producers <==> y.done == y.producers {
      assert Ranks(y') == Ranks(y)[t := Rank(y', t)];
      SumUpdate(Ranks(y), t, Rank(y', t));
    }
  }

  // Every state that is not the end has a move that brings it closer.

  ghost predicate Going<T>(y: System<T>) {
    && SystemInv(y) && !y.queue.closed
    && exists t :: 0 <= t < |y.clients| && y.clients[t].Consumer?
  }

  ghost predicate OnTrack<T>(y: System<T>, t: nat)
    requires t < |y.clients| == |y.queue.threads|
  {
    InCall(y.clients[t]) ==>
      if y.clients[t].Producer? then PushOnTrack(y.queue, t) else PopOnTrack(y.queue, t, y.done == y.producers)
  }

  lemma OutMeansRest<T>(y: System<T>, t: nat)
    requires SystemInv(y) && OthersOut(y, t)
    ensures OthersRest(y.queue, t)
  {
    forall u | 0 <= u < |y.queue.threads| && u != t ensures AtRest(y.queue.threads[u]) {
      assert Coupled(y.clients[u], y.queue.threads[u]);
    }
  }

  /** No client closes the queue. */
  lemma StaysOpen<T>(y: System<T>, m: Turn)
    requires SystemInv(y) && CanMove(y, m)
    ensures After(y, m).queue.closed == y.queue.closed
    ensures OnlyMoved(y, After(y, m), m.thread)
  {
    var t := m.thread;
    assert Coupled(y.clients[t], y.queue.threads[t]);
    hide RunStep, SpuriousStep, Inv;
    if m.move.Act? {
      ActEffect(y, t);
      ActLeavesOpen(y, t);
    } else {
      var e := Event(t, if m.move.Access? then Run else SpuriousFailure);
      SameShape(y.queue, e);
      AccessLeavesOpen(y.queue, e);
      assert y.clients[t := y.clients[t]] == y.clients;
    }
  }

  lemma ActLeavesOpen<T>(y: System<T>, t: nat)
    requires CanMove(y, Turn(t, Act))
    ensures After(y, Turn(t, Act)).queue.closed == y.queue.closed
  {
    hide RunStep, SpuriousStep;
  }

  lemma AccessLeavesOpen<T>(q: State<T>, e: Event<T>)
    requires Enabled(q, e) && !e.action.Call? && !q.threads[e.thread].CloseExchange?
    ensures Next(q, e).closed == q.closed
  {
    hide Slot;
  }

  lemma MoveKeepsGoing<T>(y: System<T>, m: Turn)
    requires Going(y) && CanMove(y, m)
    ensures Going(After(y, m)) && OnlyMoved(y, After(y, m), m.thread)
  {
    StaysOpen(y, m);
    if m.move.Act? { ActKeepsInv(y, m.thread); } else { AccessKeepsInv(y, m); }
    RoleKept(y, m);
    hide After, SystemInv, CanMove;
    var c :| 0 <= c < |y.clients| && y.clients[c].Consumer?;
    assert After(y, m).clients[c].Consumer?;
  }

  lemma RoleKept<T>(y: System<T>, m: Turn)
    requires CanMove(y, m)
    ensures m.thread < |After(y, m).clients|
    ensures After(y, m).clients[m.thread].Consumer? == y.clients[m.thread].Consumer?
  {
    hide RunStep, SpuriousStep;
  }

  /** The running call makes an access. */
  lemma AccessCloser<T>(y: System<T>, t: nat)
    requires Going(y) && OthersOut(y, t) && OnTrack(y, t) && InCall(y.clients[t]) && !AtRest(y.queue.threads[t])
    ensures CanMove(y, Turn(t, Access))
    ensures var y' := After(y, Turn(t, Access)); Going(y') && OthersOut(y', t) && OnTrack(y', t) && Closer(y', y)
  {
    var y', q := After(y, Turn(t, Access)), y.queue;
    CanRun(q, t);
    MoveKeepsGoing(y, Turn(t, Access));
    OutMeansRest(y, t);
    AccessSpendsBudget(q, t);
    assert Coupled(y.clients[t], q.threads[t]);
    hide Inv, SystemInv, Budget, Coupled, PushOnTrack, PopOnTrack;
    if y.clients[t].Producer? {
      assert t < |q.threads| == |RunStep(q, t).threads|;
      PushStaysOnTrack(q, t);
    } else {
      PopStaysOnTrack(q, t, y.done == y.producers);
    }
    hide RunStep, Going, OthersRest;
    StepCloser(y, y', t);
  }

  /** In a call that has come to rest, the call has returned. */
  lemma RestIsReturn<T>(y: System<T>, t: nat)
    requires SystemInv(y) && t < |y.clients| && InCall(y.clients[t]) && AtRest(y.queue.threads[t])
    ensures CanMove(y, Turn(t, Act))
    ensures !InCall(After(y, Turn(t, Act)).clients[t])
  {
    assert Coupled(y.clients[t], y.queue.threads[t]);
    hide RunStep, SpuriousStep;
  }

  /** The client takes the result of its call. */
  lemma ReturnCloser<T>(y: System<T>, t: nat)
    requires Going(y) && OthersOut(y, t) && OnTrack(y, t) && InCall(y.clients[t]) && AtRest(y.queue.threads[t])
    ensures CanMove(y, Turn(t, Act))
    ensures var y' := After(y, Turn(t, Act)); Going(y') && OthersOut(y', t) && OnTrack(y', t) && Closer(y', y)
  {
    var y' := After(y, Turn(t, Act));
    RestIsReturn(y, t);
    MoveKeepsGoing(y, Turn(t, Act));
    assert Coupled(y.clients[t], y.queue.threads[t]);
    hide RunStep, SpuriousStep, Inv, SystemInv, Going, Coupled;
    if y.clients[t].Producer? {
      hide ConsumerActs, PopOnTrack;
      StepCloser(y, y', t);
    } else {
      hide ProducerActs, PushOnTrack;
      StepCloser(y, y', t);
    }
  }

  /** No client is inside the queue, and client `u` starts something. */
  ghost predicate Starts<T>(y: System<T>, u: nat) {
    && u < |y.clients| == |y.queue.threads| && CanMove(y, Turn(u, Act))
    && var y' := After(y, Turn(u, Act)); Going(y') && OthersOut(y', u) && OnTrack(y', u) && Closer(y', y)
  }

  lemma ProducerStarts<T>(y: System<T>, u: nat)
    requires Going(y) && OthersOut(y, u) && !InCall(y.clients[u]) && IsUnfinished(y.clients[u])
    requires HasRoom(y.queue) || y.clients[u].next == |y.clients[u].items|
    ensures Starts(y, u)
  {
    var y' := After(y, Turn(u, Act));
    assert Coupled(y.clients[u], y.queue.threads[u]);
    MoveKeepsGoing(y, Turn(u, Act));
    hide RunStep, SpuriousStep, Inv, SystemInv, Going;
    StepCloser(y, y', u);
  }

  lemma ConsumerStarts<T>(y: System<T>, u: nat)
    requires Going(y) && OthersOut(y, u) && !InCall(y.clients[u])
    requires y.clients[u].Consumer? && !y.clients[u].consuming.Stopped?
    requires y.queue.dequeuePos < y.queue.enqueuePos || y.done == y.producers
    ensures Starts(y, u)
  {
    var y' := After(y, Turn(u, Act));
    assert Coupled(y.clients[u], y.queue.threads[u]) && Informed(y, u);
    MoveKeepsGoing(y, Turn(u, Act));
    hide RunStep, SpuriousStep, Inv, SystemInv, Going;
    StepCloser(y, y', u);
  }

  lemma SomebodyStarts<T>(y: System<T>) returns (u: nat)
    requires Going(y) && !AllFinished(y) && forall v :: 0 <= v < |y.clients| ==> !InCall(y.clients[v])
    ensures Starts(y, u)
  {
    hide Inv, Starts, Coupled;
    CountZero(y.clients, IsUnfinished);
    var c :| 0 <= c < |y.clients| && y.clients[c].Consumer?;
    assert Informed(y, c);
    assert |y.queue.cells| > 0 by { HasCells(y); }
    if y.done == y.producers {
      u :| 0 <= u < |y.clients| && !IsFinished(y.clients[u]);
      assert !IsUnfinished(y.clients[u]);
      ConsumerStarts(y, u);
    } else {
      u :| 0 <= u < |y.clients| && IsUnfinished(y.clients[u]);
      if HasRoom(y.queue) || y.clients[u].next == |y.clients[u].items| {
        ProducerStarts(y, u);
      } else {
        u := c;
        ConsumerStarts(y, u);
      }
    }
  }

  lemma HasCells<T>(y: System<T>)
    requires SystemInv(y)
    ensures |y.queue.cells| > 0 && 0 <= Length(y)
  {
  }

  // The schedule that finishes.

  ghost predicate LeadsToEnd<T>(y: System<T>, ms: seq<Turn>) {
    Schedulable(y, ms) && AllFinished(Outcome(y, ms))
  }

  lemma EndPrepend<T>(y: System<T>, m: Turn, rest: seq<Turn>)
    requires CanMove(y, m) && LeadsToEnd(After(y, m), rest)
    ensures LeadsToEnd(y, [m] + rest)
  {
    hide CanMove, After;
    assert ([m] + rest)[1..] == rest;
  }

  lemma NonNegative<T>(y: System<T>)
    requires SystemInv(y)
    ensures 0 <= Sum(Debts(y)) && 0 <= Sum(Ranks(y)) && 0 <= Length(y)
  {
    HasCells(y);
    hide Inv, Owes, Rank;
    SumNonNegative(Debts(y));
    SumNonNegative(Ranks(y));
  }

  lemma {:induction false} Finish<T>(y: System<T>, t: nat) returns (ms: seq<Turn>)
    requires Going(y) && OthersOut(y, t) && OnTrack(y, t)
    ensures LeadsToEnd(y, ms)
    decreases Sum(Debts(y)), Length(y), Sum(Ranks(y))
  {
    hide After, CanMove, SystemInv, Debts, Ranks, OnTrack, Sum, Length, AllFinished;
    NonNegative(y);
    if InCall(y.clients[t]) {
      var m := Turn(t, if AtRest(y.queue.threads[t]) then Act else Access);
      if m.move.Act? { ReturnCloser(y, t); } else { AccessCloser(y, t); }
      ms := Finish(After(y, m), t);
      EndPrepend(y, m, ms);
      ms := [m] + ms;
    } else if AllFinished(y) {
      ms := [];
    } else {
      var u := SomebodyStarts(y);
      ms := Finish(After(y, Turn(u, Act)), u);
      EndPrepend(y, Turn(u, Act), ms);
      ms := [Turn(u, Act)] + ms;
    }
  }

  /** First the calls under way come to their ends, one thread after the other. */
  lemma {:induction false} Settle<T>(y: System<T>, t: nat) returns (ms: seq<Turn>)
    requires Going(y) && t <= |y.clients| && forall u :: 0 <= u < t ==> !InCall(y.clients[u])
    ensures LeadsToEnd(y, ms)
    decreases |y.clients| - t,
              if t < |y.clients| && InCall(y.clients[t]) && t < |y.queue.threads| then 1 + Budget(y.queue, t) else 0
  {
    hide After, SystemInv, Budget, Inv;
    assert |y.clients| == |y.queue.threads| by { Lengths(y); }
    if t == |y.clients| {
      var c :| 0 <= c < |y.clients| && y.clients[c].Consumer?;
      ms := Finish(y, c);
    } else if !InCall(y.clients[t]) {
      ms := Settle(y, t + 1);
    } else {
      var m := Turn(t, if AtRest(y.queue.threads[t]) then Act else Access);
      SettlingMove(y, t);
      ms := Settle(After(y, m), t);
      EndPrepend(y, m, ms);
      ms := [m] + ms;
    }
  }

  lemma Lengths<T>(y: System<T>)
    requires SystemInv(y)
    ensures |y.clients| == |y.queue.threads| && Inv(y.queue)
  {
  }

  lemma SettlingMove<T>(y: System<T>, t: nat)
    requires Going(y) && t < |y.clients| == |y.queue.threads| && InCall(y.clients[t])
    ensures var m := Turn(t, if AtRest(y.queue.threads[t]) then Act else Access);
      && CanMove(y, m) && Going(After(y, m)) && OnlyMoved(y, After(y, m), t)
      && (InCall(After(y, m).clients[t]) ==> Budget(After(y, m).queue, t) < Budget(y.queue, t))
  {
    hide Budget, Inv, RunStep;
    if AtRest(y.queue.threads[t]) {
      RestIsReturn(y, t);
      MoveKeepsGoing(y, Turn(t, Act));
    } else {
      CanRun(y.queue, t);
      MoveKeepsGoing(y, Turn(t, Access));
      AccessSpendsBudget(y.queue, t);
    }
  }

  // The theorems.

  lemma StartGoes<T>(cap: nat, work: seq<seq<T>>, consumers: nat)
    requires cap >= 2 && consumers > 0
    ensures Going(Start(cap, work, consumers))
  {
    StartBalanced(cap, work, consumers, x => 0);
    assert Start(cap, work, consumers).clients[|work|].Consumer?;
  }

  lemma {:induction false} ScheduleKeepsGoing<T>(y: System<T>, ms: seq<Turn>)
    requires Going(y) && Schedulable(y, ms)
    ensures Going(Outcome(y, ms)) && |Outcome(y, ms).clients| == |y.clients|
    decreases |ms|
  {
    hide After, CanMove, Going;
    if ms != [] {
      MoveKeepsGoing(y, ms[0]);
      ScheduleKeepsGoing(After(y, ms[0]), ms[1..]);
    }
  }

  /**
   The clients can always finish: for any capacity of at least two, any items and any positive number
   of consumers, from every state that any schedule can reach some schedule leads to the end.
   */
  lemma {:induction false} ClientsCanFinish<T>(cap: nat, work: seq<seq<T>>, consumers: nat, ms: seq<Turn>)
    requires cap >= 2 && consumers > 0 && Schedulable(Start(cap, work, consumers), ms)
    ensures exists rest :: LeadsToEnd(Outcome(Start(cap, work, consumers), ms), rest)
  {
    var y := Start(cap, work, consumers);
    StartGoes(cap, work, consumers);
    ScheduleKeepsGoing(y, ms);
    hide Going;
    var rest := Settle(Outcome(y, ms), 0);
  }

  /** Thread `t` moves alone, without spurious failures. */
  ghost predicate OnlyTurnsOf(ms: seq<Turn>, t: nat) {
    forall i :: 0 <= i < |ms| ==> ms[i].thread == t && !ms[i].move.AccessFailingSpuriously?
  }

  /** The producers are done and every value is claimed. */
  ghost predicate Drained(y: System) {
    y.done == y.producers && y.queue.enqueuePos == y.queue.dequeuePos
  }

  lemma TakenOnlyByWin<T>(q: State<T>, t: nat)
    requires Enabled(q, Event(t, Run)) && |RunStep(q, t).threads| == |q.threads|
    ensures HasTaken(RunStep(q, t).threads[t]) ==> HasTaken(q.threads[t]) || PopWin(q, Event(t, Run))
  {
    hide Slot;
  }

  lemma DrainedMove<T>(y: System<T>, m: Turn)
    requires Going(y) && Drained(y) && CanMove(y, m) && !m.move.AccessFailingSpuriously?
    requires y.clients[m.thread].Consumer?
    ensures var y' := After(y, m);
      && Going(y') && Drained(y') && OnlyMoved(y, y', m.thread) && y'.clients[m.thread].Consumer?
      && Rank(y', m.thread) < Rank(y, m.thread)
  {
    var t := m.thread;
    MoveKeepsGoing(y, m);
    RoleKept(y, m);
    assert Coupled(y.clients[t], y.queue.threads[t]) && Informed(y, t);
    if m.move.Act? {
      ActRanks(y, t);
    } else {
      AccessSpendsBudget(y.queue, t);
      CountersMove(y.queue, Event(t, Run));
      TakenOnlyByWin(y.queue, t);
      NobodyPushes(y, t);
      HasCells(After(y, m));
      hide Inv, SystemInv, RunStep, Budget;
    }
  }

  lemma ActRanks<T>(y: System<T>, t: nat)
    requires SystemInv(y) && Drained(y) && CanMove(y, Turn(t, Act)) && y.clients[t].Consumer?
    requires OnlyMoved(y, After(y, Turn(t, Act)), t)
    ensures Drained(After(y, Turn(t, Act))) && Rank(After(y, Turn(t, Act)), t) < Rank(y, t)
  {
    hide RunStep, SpuriousStep, Inv;
  }

  lemma {:induction false} DrainedRun<T>(y: System<T>, t: nat, ms: seq<Turn>)
    requires Going(y) && Drained(y) && Schedulable(y, ms) && OnlyTurnsOf(ms, t)
    requires t < |y.clients| == |y.queue.threads| && y.clients[t].Consumer?
    ensures var y' := Outcome(y, ms);
      && Going(y') && t < |y'.clients| == |y'.queue.threads| && y'.clients[t].Consumer?
      && |ms| + Rank(y', t) <= Rank(y, t)
    decreases |ms|
  {
    hide After, CanMove, Going, Rank, Drained;
    if ms != [] {
      DrainedMove(y, ms[0]);
      DrainedRun(After(y, ms[0]), t, ms[1..]);
    }
  }

  /**
   In every reachable state in which all producers are done and the queue is empty, a consumer left to
   run alone stops: it makes at most 57 moves, and can make one until it has stopped.
   */
  lemma {:induction false} ConsumerStopsAlone<T>(cap: nat, work: seq<seq<T>>, consumers: nat, before: seq<Turn>,
      t: nat, ms: seq<Turn>)
    requires cap >= 2 && consumers > 0 && Schedulable(Start(cap, work, consumers), before)
    requires var y := Outcome(Start(cap, work, consumers), before);
      Drained(y) && t < |y.clients| && y.clients[t].Consumer? && Schedulable(y, ms) && OnlyTurnsOf(ms, t)
    ensures |ms| <= 57
    ensures var y := Outcome(Outcome(Start(cap, work, consumers), before), ms);
      t < |y.clients| && y.clients[t].Consumer? &&
      (y.clients[t].consuming.Stopped? || CanMove(y, Turn(t, Access)) || CanMove(y, Turn(t, Act)))
  {
    var y0 := Start(cap, work, consumers);
    StartGoes(cap, work, consumers);
    ScheduleKeepsGoing(y0, before);
    var y := Outcome(y0, before);
    assert |y.clients| == |y.queue.threads| by { Lengths(y); }
    DrainedRun(y, t, ms);
    var y' := Outcome(y, ms);
    CanRun(y'.queue, t) by { Lengths(y'); }
    assert Coupled(y'.clients[t], y'.queue.threads[t]);
    hide Inv;
    if InCall(y'.clients[t]) && AtRest(y'.queue.threads[t]) { RestIsReturn(y', t); }
    HasCells(y');
  }
}
