/** The inductive invariant of the slot-sequence protocol, for any threads and any schedule. */
module AtomicInvariant {
  import opened Tickets
  import opened AtomicQueue

  ghost predicate Shape(s: State) {
    && |s.cells| >= 2
    && |s.hist.tickets| == |s.cells|
    && |s.hist.pushed| == |s.hist.pushers| == s.enqueuePos
    && |s.hist.poppers| == s.dequeuePos
    && s.dequeuePos <= s.enqueuePos <= s.dequeuePos + |s.cells|
  }

  /** Thread `t` has claimed ticket `pos` for pushing and not yet published it. */
  ghost predicate Pushing(s: State, t: nat, pos: nat) {
    t < |s.threads| &&
    (s.threads[t].PushConstruct? || s.threads[t].PushPublish?) && s.threads[t].pos == pos
  }

  /** Thread `t` has claimed ticket `pos` for popping and not yet released the cell. */
  ghost predicate Popping(s: State, t: nat, pos: nat) {
    t < |s.threads| &&
    (s.threads[t].PopTake? || s.threads[t].PopDestroy? || s.threads[t].PopRelease?) && s.threads[t].pos == pos
  }

  ghost predicate FreeCell<T>(s: State<T>, c: Cell<T>, ticket: nat)
    requires Shape(s)
  {
    && c.sequence == ticket
    && s.dequeuePos <= ticket
    && (if ticket < s.enqueuePos then Pushing(s, s.hist.pushers[ticket], ticket) else c.storage.Empty?)
  }

  ghost predicate FullCell<T>(s: State<T>, c: Cell<T>, ticket: nat)
    requires Shape(s)
  {
    && c.sequence == ticket + 1
    && ticket < s.enqueuePos
    && (if ticket < s.dequeuePos then Popping(s, s.hist.poppers[ticket], ticket)
        else c.storage == Live(s.hist.pushed[ticket]))
  }

  ghost predicate CellInv(s: State, i: nat)
    requires Shape(s) && i < |s.cells|
  {
    var ticket := s.hist.tickets[i];
    && Slot(ticket, |s.cells|) == i
    && s.enqueuePos <= ticket + |s.cells|
    && ticket < s.dequeuePos + |s.cells|
    && (FreeCell(s, s.cells[i], ticket) || FullCell(s, s.cells[i], ticket))
  }

  /** The cell of `pos` currently serves ticket `pos`, with this sequence number. */
  ghost predicate Serves(s: State, pos: nat, sequence: nat)
    requires Shape(s)
  {
    s.hist.tickets[Slot(pos, |s.cells|)] == pos && CellOf(s, pos).sequence == sequence
  }

  ghost predicate PushClaim<T>(s: State<T>, t: nat, v: T, pos: nat)
    requires Shape(s)
  {
    pos < s.enqueuePos && s.hist.pushers[pos] == t && s.hist.pushed[pos] == v && Serves(s, pos, pos)
  }

  ghost predicate PopClaim(s: State, t: nat, pos: nat)
    requires Shape(s)
  {
    pos < s.dequeuePos && s.hist.poppers[pos] == t && Serves(s, pos, pos + 1)
  }

  ghost predicate ThreadInv(s: State, t: nat)
    requires Shape(s) && t < |s.threads|
  {
    match s.threads[t]
    case PushLoadSeq(v, pos) => pos <= s.enqueuePos
    case PushCas(v, pos) => pos <= s.enqueuePos && (pos == s.enqueuePos ==> Serves(s, pos, pos))
    case PushConstruct(v, pos) => PushClaim(s, t, v, pos) && CellOf(s, pos).storage.Empty?
    case PushPublish(v, pos) => PushClaim(s, t, v, pos) && CellOf(s, pos).storage == Live(v)
    case PopLoadSeq(pos) => pos <= s.dequeuePos
    case PopCas(pos) => pos <= s.dequeuePos && (pos == s.dequeuePos ==> Serves(s, pos, pos + 1))
    case PopTake(pos) => PopClaim(s, t, pos) && CellOf(s, pos).storage == Live(s.hist.pushed[pos])
    case PopDestroy(pos, v) =>
      PopClaim(s, t, pos) && v == s.hist.pushed[pos] && CellOf(s, pos).storage.Live?
    case PopRelease(pos, v) =>
      PopClaim(s, t, pos) && v == s.hist.pushed[pos] && CellOf(s, pos).storage.Empty?
    case Fault => false
    case _ => true
  }

  ghost predicate Inv(s: State) {
    && Shape(s)
    && (forall i :: 0 <= i < |s.cells| ==> CellInv(s, i))
    && (forall t :: 0 <= t < |s.threads| ==> ThreadInv(s, t))
  }

  lemma InitInv<T>(cap: nat, n: nat)
    requires cap >= 2
    ensures Inv(Init<T>(cap, n))
  {
    var s := Init<T>(cap, n);
    forall i | 0 <= i < cap ensures CellInv(s, i) {
      SlotSmall(i, cap);
    }
  }

  /** If the cell of `pos` reads `pos`, it serves ticket `pos` and is free or under construction. */
  lemma ReadsOwnTicket<T>(s: State<T>, pos: nat)
    requires Inv(s) && CellOf(s, pos).sequence == pos
    ensures Serves(s, pos, pos)
  {
    var i := Slot(pos, |s.cells|);
    assert CellInv(s, i);
    SlotAdjacent(s.hist.tickets[i], |s.cells|);
  }

  /** If the cell of `pos` reads `pos + 1`, it serves ticket `pos` and is published. */
  lemma ReadsPublished<T>(s: State<T>, pos: nat)
    requires Inv(s) && CellOf(s, pos).sequence == pos + 1
    ensures Serves(s, pos, pos + 1)
  {
    var i := Slot(pos, |s.cells|);
    assert CellInv(s, i);
    SlotAdjacent(pos, |s.cells|);
  }

  /** Moving thread `t` between program counters that own nothing keeps the invariant. */
  lemma LocalStep<T>(s: State<T>, t: nat, pc: Pc<T>)
    requires Inv(s) && t < |s.threads|
    requires forall pos :: !Pushing(s, t, pos) && !Popping(s, t, pos)
    requires ThreadInv(At(s, t, pc), t)
    ensures Inv(At(s, t, pc))
  {
    var s' := At(s, t, pc);
    forall i | 0 <= i < |s'.cells| ensures CellInv(s', i) {
      assert CellInv(s, i);
      var k := s.hist.tickets[i];
      if k < s.enqueuePos { assert !Pushing(s, t, k); }
      assert !Popping(s, t, k);
    }
    forall u | 0 <= u < |s'.threads| ensures ThreadInv(s', u) {
      assert ThreadInv(s, u);
    }
  }

  lemma PushCasInv<T>(s: State<T>, t: nat, v: T, pos: nat)
    requires Inv(s) && t < |s.threads| && s.threads[t] == PushCas(v, pos) && s.enqueuePos == pos
    ensures Inv(PushCasStep(s, t, v, pos))
  {
    hide Slot;
    var s' := PushCasStep(s, t, v, pos);
    var c := Slot(pos, |s.cells|);
    assert ThreadInv(s, t);
    assert CellInv(s, c);
    forall i | 0 <= i < |s'.cells| ensures CellInv(s', i) {
      assert CellInv(s, i);
      if s.hist.tickets[i] + |s.cells| == pos {
        SlotPeriodic(s.hist.tickets[i], |s.cells|);
      }
    }
    forall u | 0 <= u < |s'.threads| ensures ThreadInv(s', u) {
      assert ThreadInv(s, u);
    }
  }

  lemma PopCasInv<T>(s: State<T>, t: nat, pos: nat)
    requires Inv(s) && t < |s.threads| && s.threads[t] == PopCas(pos) && s.dequeuePos == pos
    ensures Inv(PopCasStep(s, t, pos))
  {
    hide Slot;
    var s' := PopCasStep(s, t, pos);
    var c := Slot(pos, |s.cells|);
    assert ThreadInv(s, t);
    assert CellInv(s, c);
    forall i | 0 <= i < |s'.cells| ensures CellInv(s', i) {
      assert CellInv(s, i);
    }
    forall u | 0 <= u < |s'.threads| ensures ThreadInv(s', u) {
      assert ThreadInv(s, u);
    }
  }

  lemma PushConstructInv<T>(s: State<T>, t: nat, v: T, pos: nat)
    requires Inv(s) && t < |s.threads| && s.threads[t] == PushConstruct(v, pos)
    ensures Inv(PushConstructStep(s, t, v, pos))
  {
    hide Slot;
    var s' := PushConstructStep(s, t, v, pos);
    var c := Slot(pos, |s.cells|);
    assert ThreadInv(s, t);
    assert CellInv(s, c);
    forall i | 0 <= i < |s'.cells| ensures CellInv(s', i) {
      assert CellInv(s, i);
    }
    forall u | 0 <= u < |s'.threads| ensures ThreadInv(s', u) {
      assert ThreadInv(s, u);
    }
  }

  lemma PushPublishInv<T>(s: State<T>, t: nat, v: T, pos: nat)
    requires Inv(s) && t < |s.threads| && s.threads[t] == PushPublish(v, pos)
    ensures Inv(PushPublishStep(s, t, pos))
  {
    hide Slot;
    var s' := PushPublishStep(s, t, pos);
    var c := Slot(pos, |s.cells|);
    assert ThreadInv(s, t);
    assert CellInv(s, c);
    forall i | 0 <= i < |s'.cells| ensures CellInv(s', i) {
      assert CellInv(s, i);
    }
    forall u | 0 <= u < |s'.threads| ensures ThreadInv(s', u) {
      assert ThreadInv(s, u);
    }
  }

  lemma PopTakeInv<T>(s: State<T>, t: nat, pos: nat)
    requires Inv(s) && t < |s.threads| && s.threads[t] == PopTake(pos)
    ensures Inv(PopTakeStep(s, t, pos))
  {
    hide Slot;
    var s' := PopTakeStep(s, t, pos);
    assert ThreadInv(s, t);
    forall i | 0 <= i < |s'.cells| ensures CellInv(s', i) {
      assert CellInv(s, i);
    }
    forall u | 0 <= u < |s'.threads| ensures ThreadInv(s', u) {
      assert ThreadInv(s, u);
    }
  }

  lemma PopDestroyInv<T>(s: State<T>, t: nat, pos: nat, v: T)
    requires Inv(s) && t < |s.threads| && s.threads[t] == PopDestroy(pos, v)
    ensures Inv(PopDestroyStep(s, t, pos, v))
  {
    hide Slot;
    var s' := PopDestroyStep(s, t, pos, v);
    var c := Slot(pos, |s.cells|);
    assert ThreadInv(s, t);
    assert CellInv(s, c);
    forall i | 0 <= i < |s'.cells| ensures CellInv(s', i) {
      assert CellInv(s, i);
    }
    forall u | 0 <= u < |s'.threads| ensures ThreadInv(s', u) {
      assert ThreadInv(s, u);
    }
  }

  lemma PopReleaseInv<T>(s: State<T>, t: nat, pos: nat, v: T)
    requires Inv(s) && t < |s.threads| && s.threads[t] == PopRelease(pos, v)
    ensures Inv(PopReleaseStep(s, t, pos, v))
  {
    hide Slot;
    var s' := PopReleaseStep(s, t, pos, v);
    var c := Slot(pos, |s.cells|);
    assert ThreadInv(s, t);
    assert CellInv(s, c);
    SlotPeriodic(pos, |s.cells|);
    forall i | 0 <= i < |s'.cells| ensures CellInv(s', i) {
      assert CellInv(s, i);
    }
    forall u | 0 <= u < |s'.threads| ensures ThreadInv(s', u) {
      assert ThreadInv(s, u);
    }
  }

  lemma CloseInv<T>(s: State<T>, t: nat)
    requires Inv(s) && t < |s.threads| && s.threads[t].CloseExchange?
    ensures Inv(RunStep(s, t))
  {
    var s0 := s.(closed := true);
    assert Inv(s0) by {
      forall i | 0 <= i < |s.cells| ensures CellInv(s0, i) { assert CellInv(s, i); }
      forall u | 0 <= u < |s.threads| ensures ThreadInv(s0, u) { assert ThreadInv(s, u); }
    }
    LocalStep(s0, t, CloseReturned(!s.closed));
  }

  lemma PushLoadInv<T>(s: State<T>, t: nat, v: T, pos: nat)
    requires Inv(s) && t < |s.threads| && s.threads[t] == PushLoadSeq(v, pos)
    ensures Inv(PushLoadSeqStep(s, t, v, pos))
  {
    assert ThreadInv(s, t);
    if CellOf(s, pos).sequence == pos {
      ReadsOwnTicket(s, pos);
    }
    LocalStep(s, t, PushLoadSeqStep(s, t, v, pos).threads[t]);
  }

  lemma PopLoadInv<T>(s: State<T>, t: nat, pos: nat)
    requires Inv(s) && t < |s.threads| && s.threads[t] == PopLoadSeq(pos)
    ensures Inv(PopLoadSeqStep(s, t, pos))
  {
    assert ThreadInv(s, t);
    if CellOf(s, pos).sequence == pos + 1 {
      ReadsPublished(s, pos);
    }
    LocalStep(s, t, PopLoadSeqStep(s, t, pos).threads[t]);
  }

  /** Loads of `closed` and of the counters, and CASes that lost. */
  lemma CounterLoadInv<T>(s: State<T>, t: nat)
    requires Inv(s) && t < |s.threads|
    requires var pc := s.threads[t];
      pc.PushCheckClosed? || pc.PushLoadPos? || pc.PushReload? || pc.PopLoadPos? || pc.PopReload? ||
      (pc.PushCas? && pc.pos != s.enqueuePos) || (pc.PopCas? && pc.pos != s.dequeuePos)
    ensures Inv(RunStep(s, t))
  {
    LocalStep(s, t, RunStep(s, t).threads[t]);
  }

  lemma RunInv<T>(s: State<T>, t: nat)
    requires Inv(s) && t < |s.threads|
    ensures Inv(RunStep(s, t))
  {
    match s.threads[t]
    case PushLoadSeq(v, pos) => PushLoadInv(s, t, v, pos);
    case PushCas(v, pos) =>
      if s.enqueuePos == pos { PushCasInv(s, t, v, pos); } else { CounterLoadInv(s, t); }
    case PushConstruct(v, pos) => PushConstructInv(s, t, v, pos);
    case PushPublish(v, pos) => PushPublishInv(s, t, v, pos);
    case PopLoadSeq(pos) => PopLoadInv(s, t, pos);
    case PopCas(pos) =>
      if s.dequeuePos == pos { PopCasInv(s, t, pos); } else { CounterLoadInv(s, t); }
    case PopTake(pos) => PopTakeInv(s, t, pos);
    case PopDestroy(pos, v) => PopDestroyInv(s, t, pos, v);
    case PopRelease(pos, v) => PopReleaseInv(s, t, pos, v);
    case CloseExchange => CloseInv(s, t);
    case PushCheckClosed(_) => CounterLoadInv(s, t);
    case PushLoadPos(_) => CounterLoadInv(s, t);
    case PushReload(_) => CounterLoadInv(s, t);
    case PopLoadPos => CounterLoadInv(s, t);
    case PopReload => CounterLoadInv(s, t);
    case _ =>
  }

  /** Every step of every thread keeps the invariant. */
  lemma NextInv<T>(s: State<T>, e: Event<T>)
    requires Inv(s) && Enabled(s, e)
    ensures Inv(Next(s, e))
  {
    var t := e.thread;
    match e.action
    case Call(op) => LocalStep(s, t, Started(op));
    case Run => RunInv(s, t);
    case SpuriousFailure =>
      assert ThreadInv(s, t);
      LocalStep(s, t, Next(s, e).threads[t]);
  }

  lemma {:induction false} RunsKeepInv<T>(s: State<T>, es: seq<Event<T>>)
    requires Inv(s) && ValidRun(s, es)
    ensures Inv(Exec(s, es))
    decreases |es|
  {
    if es != [] {
      NextInv(s, es[0]);
      RunsKeepInv(Next(s, es[0]), es[1..]);
    }
  }
}
