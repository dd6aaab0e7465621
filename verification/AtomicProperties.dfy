/** What the invariant of the slot-sequence protocol means for cells, retries and closing. */
module AtomicProperties {
  import opened Tickets
  import opened Counting
  import opened AtomicQueue
  import opened AtomicInvariant

  /** The sequence of cell `i` names ticket `ticket`, as free (`ticket`) or published (`ticket + 1`). */
  ghost predicate Names(s: State, i: nat, ticket: nat)
    requires i < |s.cells|
  {
    Slot(ticket, |s.cells|) == i && (s.cells[i].sequence == ticket || s.cells[i].sequence == ticket + 1)
  }

  /** Thread `t` is between its winning CAS and its sequence store on cell `i`. */
  ghost predicate Owns(s: State, t: nat, i: nat)
    requires t < |s.threads| && |s.cells| > 0
  {
    var pc := s.threads[t];
    (pc.PushConstruct? || pc.PushPublish? || pc.PopTake? || pc.PopDestroy? || pc.PopRelease?) &&
    Slot(pc.pos, |s.cells|) == i
  }

  /** ... and at that point the cell is meant to hold a value. */
  ghost predicate OwnsLive(s: State, t: nat, i: nat)
    requires t < |s.threads| && |s.cells| > 0
  {
    Owns(s, t, i) && !s.threads[t].PushConstruct? && !s.threads[t].PopRelease?
  }

  /** A value published in cell `i` and not yet claimed. */
  ghost predicate Waiting(s: State, i: nat, ticket: nat)
    requires i < |s.cells|
  {
    s.dequeuePos <= ticket < s.enqueuePos && Names(s, i, ticket) && s.cells[i].sequence == ticket + 1
  }

  lemma {:induction false} RunShape<T>(s: State<T>, es: seq<Event<T>>)
    requires ValidRun(s, es)
    ensures |Exec(s, es).cells| == |s.cells| && |Exec(s, es).threads| == |s.threads|
    decreases |es|
  {
    if es != [] {
      SameShape(s, es[0]);
      RunShape(Next(s, es[0]), es[1..]);
    }
  }

  lemma OneTicket<T>(s: State<T>, i: nat)
    requires Inv(s) && i < |s.cells|
    ensures Names(s, i, s.hist.tickets[i])
    ensures forall k: nat :: Names(s, i, k) ==> k == s.hist.tickets[i]
  {
    assert CellInv(s, i);
    forall k: nat | Names(s, i, k) ensures k == s.hist.tickets[i] {
      if k == s.hist.tickets[i] + 1 { SlotAdjacent(s.hist.tickets[i], |s.cells|); }
      if k + 1 == s.hist.tickets[i] { SlotAdjacent(k, |s.cells|); }
    }
  }

  lemma OneOwner<T>(s: State<T>, t: nat, u: nat, i: nat)
    requires Inv(s) && t < |s.threads| && u < |s.threads| && i < |s.cells|
    requires Owns(s, t, i) && Owns(s, u, i)
    ensures t == u
  {
    assert ThreadInv(s, t) && ThreadInv(s, u);
  }

  lemma StorageLive<T>(s: State<T>, i: nat)
    requires Inv(s) && i < |s.cells|
    ensures s.cells[i].storage.Live? <==>
      (exists t :: 0 <= t < |s.threads| && OwnsLive(s, t, i)) ||
      (exists k: nat :: k < s.enqueuePos && Waiting(s, i, k))
  {
    assert CellInv(s, i);
    var k := s.hist.tickets[i];
    if s.cells[i].storage.Live? {
      if k < s.dequeuePos {
        assert OwnsLive(s, s.hist.poppers[k], i) by { assert ThreadInv(s, s.hist.poppers[k]); }
      } else if s.cells[i].sequence == k {
        assert OwnsLive(s, s.hist.pushers[k], i) by { assert ThreadInv(s, s.hist.pushers[k]); }
      } else {
        assert Waiting(s, i, k);
      }
    }
    forall t | 0 <= t < |s.threads| && OwnsLive(s, t, i) ensures s.cells[i].storage.Live? {
      assert ThreadInv(s, t);
    }
    forall j: nat | j < s.enqueuePos && Waiting(s, i, j) ensures s.cells[i].storage.Live? {
      OneTicket(s, i);
    }
  }

  /**
   Slot ownership, in every state any threads and schedule can reach: each sequence number names
   exactly one ticket, at most one thread works on a cell, storage is live exactly while a published
   value waits or its owner has constructed and not destroyed it, and no slot is ever overwritten
   while live nor read or destroyed while empty.
   */
  lemma {:induction false} SlotOwnership<T>(cap: nat, n: nat, es: seq<Event<T>>, i: nat)
    requires cap >= 2 && ValidRun(Init(cap, n), es) && i < cap
    ensures var s := Exec(Init(cap, n), es);
      && |s.cells| == cap && |s.threads| == n
      && s.dequeuePos <= s.enqueuePos <= s.dequeuePos + cap
      && (exists k: nat :: Names(s, i, k) && forall j: nat :: Names(s, i, j) ==> j == k)
      && (forall t, u :: 0 <= t < n && 0 <= u < n && Owns(s, t, i) && Owns(s, u, i) ==> t == u)
      && (forall t :: 0 <= t < n ==> !s.threads[t].Fault?)
      && (s.cells[i].storage.Live? <==>
          (exists t :: 0 <= t < n && OwnsLive(s, t, i)) ||
          (exists k: nat :: k < s.enqueuePos && Waiting(s, i, k)))
  {
    InitInv<T>(cap, n);
    RunsKeepInv(Init(cap, n), es);
    RunShape(Init(cap, n), es);
    var s := Exec(Init(cap, n), es);
    OneTicket(s, i);
    StorageLive(s, i);
    forall t, u | 0 <= t < n && 0 <= u < n && Owns(s, t, i) && Owns(s, u, i) ensures t == u {
      OneOwner(s, t, u, i);
    }
    forall t | 0 <= t < n ensures !s.threads[t].Fault? {
      assert ThreadInv(s, t);
    }
  }

  // Retries.

  /** The event wins the compare-and-swap on `enqueue_pos`. */
  ghost predicate PushWin(s: State, e: Event)
    requires Enabled(s, e)
  {
    e.action.Run? && s.threads[e.thread].PushCas? && s.threads[e.thread].pos == s.enqueuePos
  }

  ghost predicate PopWin(s: State, e: Event)
    requires Enabled(s, e)
  {
    e.action.Run? && s.threads[e.thread].PopCas? && s.threads[e.thread].pos == s.dequeuePos
  }

  /** The event sends a push back around its loop for a reason other than a spurious failure. */
  ghost predicate PushRetry(s: State, e: Event)
    requires Enabled(s, e)
  {
    var pc := s.threads[e.thread];
    e.action.Run? &&
    ((pc.PushLoadSeq? && CellOf(s, pc.pos).sequence > pc.pos) || (pc.PushCas? && pc.pos != s.enqueuePos))
  }

  ghost predicate PopRetry(s: State, e: Event)
    requires Enabled(s, e)
  {
    var pc := s.threads[e.thread];
    e.action.Run? &&
    ((pc.PopLoadSeq? && CellOf(s, pc.pos).sequence > pc.pos + 1) || (pc.PopCas? && pc.pos != s.dequeuePos))
  }

  ghost function PushRetries<T>(s: State<T>, es: seq<Event<T>>, t: nat): nat
    requires ValidRun(s, es)
    decreases |es|
  {
    if es == [] then 0
    else One(es[0].thread == t && PushRetry(s, es[0])) + PushRetries(Next(s, es[0]), es[1..], t)
  }

  /** Winning pushes by threads other than `t`. */
  ghost function RivalPushWins<T>(s: State<T>, es: seq<Event<T>>, t: nat): nat
    requires ValidRun(s, es)
    decreases |es|
  {
    if es == [] then 0
    else One(es[0].thread != t && PushWin(s, es[0])) + RivalPushWins(Next(s, es[0]), es[1..], t)
  }

  ghost function PopRetries<T>(s: State<T>, es: seq<Event<T>>, t: nat): nat
    requires ValidRun(s, es)
    decreases |es|
  {
    if es == [] then 0
    else One(es[0].thread == t && PopRetry(s, es[0])) + PopRetries(Next(s, es[0]), es[1..], t)
  }

  ghost function RivalPopWins<T>(s: State<T>, es: seq<Event<T>>, t: nat): nat
    requires ValidRun(s, es)
    decreases |es|
  {
    if es == [] then 0
    else One(es[0].thread != t && PopWin(s, es[0])) + RivalPopWins(Next(s, es[0]), es[1..], t)
  }

  /** How far the counter has moved past the position the thread is trying. */
  ghost function PushLag(s: State, t: nat): int
    requires t < |s.threads|
  {
    var pc := s.threads[t];
    if pc.PushLoadSeq? || pc.PushCas? then s.enqueuePos - pc.pos else 0
  }

  ghost function PopLag(s: State, t: nat): int
    requires t < |s.threads|
  {
    var pc := s.threads[t];
    if pc.PopLoadSeq? || pc.PopCas? then s.dequeuePos - pc.pos else 0
  }

  /** A push that goes around again has seen the counter already beyond its position. */
  lemma PushRetryMeansOvertaken<T>(s: State<T>, e: Event<T>)
    requires Inv(s) && Enabled(s, e) && PushRetry(s, e)
    ensures s.threads[e.thread].pos < s.enqueuePos
  {
    var pc := s.threads[e.thread];
    assert ThreadInv(s, e.thread);
    if pc.PushLoadSeq? {
      var i := Slot(pc.pos, |s.cells|);
      assert CellInv(s, i);
      var k := s.hist.tickets[i];
      if pc.pos == s.enqueuePos {
        if k <= pc.pos < k + |s.cells| { SlotInjective(k, pc.pos, |s.cells|); }
        if pc.pos < k < pc.pos + |s.cells| { SlotInjective(pc.pos, k, |s.cells|); }
      }
    }
  }

  lemma PopRetryMeansOvertaken<T>(s: State<T>, e: Event<T>)
    requires Inv(s) && Enabled(s, e) && PopRetry(s, e)
    ensures s.threads[e.thread].pos < s.dequeuePos
  {
    var pc := s.threads[e.thread];
    assert ThreadInv(s, e.thread);
    if pc.PopLoadSeq? {
      var i := Slot(pc.pos, |s.cells|);
      assert CellInv(s, i);
      var k := s.hist.tickets[i];
      if pc.pos == s.dequeuePos {
        if k <= pc.pos < k + |s.cells| { SlotInjective(k, pc.pos, |s.cells|); }
        if pc.pos < k < pc.pos + |s.cells| { SlotInjective(pc.pos, k, |s.cells|); }
      }
    }
  }

  /** A counter moves exactly when an event wins on it. */
  lemma CountersMove<T>(s: State<T>, e: Event<T>)
    requires Enabled(s, e)
    ensures Next(s, e).enqueuePos == s.enqueuePos + One(PushWin(s, e))
    ensures Next(s, e).dequeuePos == s.dequeuePos + One(PopWin(s, e))
  {
    hide Slot;
  }

  /** A thread's own step lowers its lag at each retry and never raises it. */
  lemma OwnPushLag<T>(s: State<T>, e: Event<T>)
    requires Enabled(s, e) && !e.action.Call? && |Next(s, e).threads| == |s.threads|
    requires PushLag(s, e.thread) >= One(PushRetry(s, e))
    ensures One(PushRetry(s, e)) + PushLag(Next(s, e), e.thread) <= PushLag(s, e.thread)
  {
    hide Slot;
  }

  lemma OwnPopLag<T>(s: State<T>, e: Event<T>)
    requires Enabled(s, e) && !e.action.Call? && |Next(s, e).threads| == |s.threads|
    requires PopLag(s, e.thread) >= One(PopRetry(s, e))
    ensures One(PopRetry(s, e)) + PopLag(Next(s, e), e.thread) <= PopLag(s, e.thread)
  {
    hide Slot;
  }

  /** A thread that goes around again lags. */
  lemma RetryLags<T>(s: State<T>, e: Event<T>)
    requires Inv(s) && Enabled(s, e)
    ensures PushLag(s, e.thread) >= One(PushRetry(s, e)) && PopLag(s, e.thread) >= One(PopRetry(s, e))
  {
    assert ThreadInv(s, e.thread);
    if PushRetry(s, e) { PushRetryMeansOvertaken(s, e); }
    if PopRetry(s, e) { PopRetryMeansOvertaken(s, e); }
  }

  lemma LagStep<T>(s: State<T>, e: Event<T>, t: nat)
    requires Inv(s) && Enabled(s, e) && t < |s.threads| && (e.thread == t ==> !e.action.Call?)
    ensures |Next(s, e).threads| == |s.threads|
    ensures One(e.thread == t && PushRetry(s, e)) + PushLag(Next(s, e), t)
         <= PushLag(s, t) + One(e.thread != t && PushWin(s, e))
    ensures One(e.thread == t && PopRetry(s, e)) + PopLag(Next(s, e), t)
         <= PopLag(s, t) + One(e.thread != t && PopWin(s, e))
  {
    hide Next, Inv, PushRetry, PopRetry, PushWin, PopWin;
    SameShape(s, e);
    if e.thread == t {
      RetryLags(s, e);
      OwnPushLag(s, e);
      OwnPopLag(s, e);
    } else {
      CountersMove(s, e);
    }
  }

  lemma {:induction false} PushRetryBound<T>(s: State<T>, es: seq<Event<T>>, t: nat)
    requires Inv(s) && ValidRun(s, es) && t < |s.threads|
    requires forall k :: 0 <= k < |es| && es[k].thread == t ==> !es[k].action.Call?
    ensures PushRetries(s, es, t) <= PushLag(s, t) + RivalPushWins(s, es, t)
    decreases |es|
  {
    if es == [] {
      assert ThreadInv(s, t);
    } else {
      NextInv(s, es[0]);
      LagStep(s, es[0], t);
      PushRetryBound(Next(s, es[0]), es[1..], t);
    }
  }

  lemma {:induction false} PopRetryBound<T>(s: State<T>, es: seq<Event<T>>, t: nat)
    requires Inv(s) && ValidRun(s, es) && t < |s.threads|
    requires forall k :: 0 <= k < |es| && es[k].thread == t ==> !es[k].action.Call?
    ensures PopRetries(s, es, t) <= PopLag(s, t) + RivalPopWins(s, es, t)
    decreases |es|
  {
    if es == [] {
      assert ThreadInv(s, t);
    } else {
      NextInv(s, es[0]);
      LagStep(s, es[0], t);
      PopRetryBound(Next(s, es[0]), es[1..], t);
    }
  }

  /**
   Lock-freedom: over any stretch of a run inside one call of thread `t`, each time the call goes
   around again (other than by a spurious CAS failure) is paid for by another thread's success.
   */
  lemma {:induction false} RetriesPaidByRivals<T>(s: State<T>, e: Event<T>, es: seq<Event<T>>)
    requires Inv(s) && Enabled(s, e) && e.action.Call? && ValidRun(Next(s, e), es)
    requires forall k :: 0 <= k < |es| && es[k].thread == e.thread ==> !es[k].action.Call?
    ensures PushRetries(Next(s, e), es, e.thread) <= RivalPushWins(Next(s, e), es, e.thread)
    ensures PopRetries(Next(s, e), es, e.thread) <= RivalPopWins(Next(s, e), es, e.thread)
  {
    NextInv(s, e);
    PushRetryBound(Next(s, e), es, e.thread);
    PopRetryBound(Next(s, e), es, e.thread);
  }

  // Closing.

  /** A push that has passed the closed check and not yet won its ticket. */
  predicate PastCheck<T>(pc: Pc<T>) {
    pc.PushLoadPos? || pc.PushLoadSeq? || pc.PushCas? || pc.PushReload?
  }

  ghost function PushWins<T>(s: State<T>, es: seq<Event<T>>): nat
    requires ValidRun(s, es)
    decreases |es|
  {
    if es == [] then 0 else One(PushWin(s, es[0])) + PushWins(Next(s, es[0]), es[1..])
  }

  lemma ClosedStep<T>(s: State<T>, e: Event<T>)
    requires Enabled(s, e) && s.closed
    ensures Next(s, e).closed
    ensures One(PushWin(s, e)) + Count(Next(s, e).threads, PastCheck) <= Count(s.threads, PastCheck)
  {
    var t := e.thread;
    SameShape(s, e);
    assert Next(s, e).threads == s.threads[t := Next(s, e).threads[t]];
    CountUpdate(s.threads, t, Next(s, e).threads[t], PastCheck);
  }

  /** After `close`, at most the pushes that had already passed the closed check can still succeed. */
  lemma {:induction false} LatePushesBounded<T>(s: State<T>, es: seq<Event<T>>)
    requires ValidRun(s, es) && s.closed
    ensures Exec(s, es).closed
    ensures PushWins(s, es) + Count(Exec(s, es).threads, PastCheck) <= Count(s.threads, PastCheck)
    decreases |es|
  {
    if es != [] {
      ClosedStep(s, es[0]);
      LatePushesBounded(Next(s, es[0]), es[1..]);
    }
  }
}
