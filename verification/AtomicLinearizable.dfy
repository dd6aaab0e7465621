/** Every run of the slot-sequence protocol is a run of the bounded FIFO object. */
module AtomicLinearizable {
  import opened Tickets
  import opened AtomicQueue
  import opened AtomicInvariant
  import opened FifoObject
  import opened Wrappers

  ghost function StatusOf<T>(s: State<T>, pc: Pc<T>): Status<T> {
    match pc
    case PushCheckClosed(v) => Called(Push(v))
    case PushLoadPos(v) => Admitted(v)
    case PushLoadSeq(v, _) => Admitted(v)
    case PushCas(v, _) => Admitted(v)
    case PushReload(v) => Admitted(v)
    case PushConstruct(_, pos) => Decided(PushResult(true), pos)
    case PushPublish(_, pos) => Decided(PushResult(true), pos)
    case PushReturned(ok) => Returned(PushResult(ok))
    case PopLoadPos => Called(Pop)
    case PopLoadSeq(_) => Called(Pop)
    case PopCas(_) => Called(Pop)
    case PopReload => Called(Pop)
    case PopTake(pos) =>
      if pos < |s.hist.pushed| then Decided(PopResult(Some(s.hist.pushed[pos])), pos) else Resting
    case PopDestroy(pos, v) => Decided(PopResult(Some(v)), pos)
    case PopRelease(pos, v) => Decided(PopResult(Some(v)), pos)
    case PopReturned(out) => Returned(PopResult(out))
    case CloseExchange => Called(Close)
    case CloseReturned(first) => Returned(CloseResult(first))
    case Idle => Resting
    case Fault => Resting
  }

  /** The FIFO holds the values of the tickets between the two counters, oldest first. */
  ghost function Abstract<T>(s: State<T>): Object<T>
    requires Shape(s)
  {
    Object(s.hist.pushed[s.dequeuePos..s.enqueuePos], s.dequeuePos, s.closed,
           seq(|s.threads|, t requires 0 <= t < |s.threads| => StatusOf(s, s.threads[t])))
  }

  /** Only thread `t` moved, and no claimed value changed. */
  lemma StatusFrame<T>(s: State<T>, s': State<T>, t: nat)
    requires Inv(s) && Inv(s') && t < |s.threads| == |s'.threads|
    requires s'.threads == s.threads[t := s'.threads[t]]
    requires s.hist.pushed <= s'.hist.pushed
    ensures Abstract(s').status == Abstract(s).status[t := StatusOf(s', s'.threads[t])]
  {
    forall u | 0 <= u < |s.threads|
      ensures u != t ==> StatusOf(s, s.threads[u]) == StatusOf(s', s'.threads[u])
    {
      assert ThreadInv(s, u);
    }
  }

  lemma PushCasRefines<T>(s: State<T>, t: nat, v: T, pos: nat)
    requires Inv(s) && t < |s.threads| && s.threads[t] == PushCas(v, pos) && s.enqueuePos == pos
    requires Inv(PushCasStep(s, t, v, pos))
    ensures PushStep(|s.cells|, Abstract(s), Abstract(PushCasStep(s, t, v, pos)), t)
  {
    var s' := PushCasStep(s, t, v, pos);
    StatusFrame(s, s', t);
    assert s'.hist.pushed[s.dequeuePos..pos + 1] == s.hist.pushed[s.dequeuePos..pos] + [v];
  }

  lemma PopCasRefines<T>(s: State<T>, t: nat, pos: nat)
    requires Inv(s) && t < |s.threads| && s.threads[t] == PopCas(pos) && s.dequeuePos == pos
    requires Inv(PopCasStep(s, t, pos))
    ensures PopStep(Abstract(s), Abstract(PopCasStep(s, t, pos)), t)
  {
    var s' := PopCasStep(s, t, pos);
    StatusFrame(s, s', t);
    assert ThreadInv(s', t);
    var q := s.hist.pushed[pos..s.enqueuePos];
    assert q[0] == s.hist.pushed[pos];
    assert q[1..] == s.hist.pushed[pos + 1..s.enqueuePos];
  }

  /**
   A load that makes a push fail sees the last ticket of its lap unreleased: `enqueue_pos` still
   equals `pos`, and ticket `pos - capacity` is waiting to be popped or its popper has not finished.
   */
  lemma PushFailsExactlyWhenUnreleased<T>(s: State<T>, t: nat, v: T, pos: nat)
    requires Inv(s) && t < |s.threads| && s.threads[t] == PushLoadSeq(v, pos)
    ensures PushLoadSeqStep(s, t, v, pos).threads[t] == PushReturned(false) <==>
            pos == s.enqueuePos && pos >= |s.cells| &&
            (pos == s.dequeuePos + |s.cells| ||
             Popping(s, s.hist.poppers[pos - |s.cells|], pos - |s.cells|))
  {
    var cap := |s.cells|;
    var i := Slot(pos, cap);
    var k := s.hist.tickets[i];
    assert ThreadInv(s, t) && CellInv(s, i);
    if k <= pos {
      if pos < k + cap { SlotInjective(k, pos, cap); }
    } else if k < pos + cap {
      SlotInjective(pos, k, cap);
    }
    if pos >= cap {
      SlotPeriodic(pos - cap, cap);
      if pos - cap < s.dequeuePos && Popping(s, s.hist.poppers[pos - cap], pos - cap) {
        assert ThreadInv(s, s.hist.poppers[pos - cap]);
      }
    }
  }

  /** A load that makes a pop fail sees its ticket unpublished: no value, or a pusher still writing it. */
  lemma PopFailsExactlyWhenUnpublished<T>(s: State<T>, t: nat, pos: nat)
    requires Inv(s) && t < |s.threads| && s.threads[t] == PopLoadSeq(pos)
    ensures pos <= s.dequeuePos <= s.enqueuePos
    ensures PopLoadSeqStep(s, t, pos).threads[t] == PopReturned(None) <==>
            pos == s.dequeuePos &&
            (pos == s.enqueuePos || Pushing(s, s.hist.pushers[pos], pos))
  {
    var cap := |s.cells|;
    var i := Slot(pos, cap);
    var k := s.hist.tickets[i];
    assert ThreadInv(s, t) && CellInv(s, i);
    if k <= pos {
      if pos < k + cap { SlotInjective(k, pos, cap); }
    } else if k < pos + cap {
      SlotInjective(pos, k, cap);
    }
    if pos < s.enqueuePos && Pushing(s, s.hist.pushers[pos], pos) {
      assert ThreadInv(s, s.hist.pushers[pos]);
    }
    if pos >= cap { SlotPeriodic(pos - cap, cap); }
  }

  lemma PushLoadRefines<T(!new)>(s: State<T>, t: nat, v: T, pos: nat)
    requires Inv(s) && t < |s.threads| && s.threads[t] == PushLoadSeq(v, pos)
    requires Inv(RunStep(s, t))
    ensures Step(|s.cells|, Abstract(s), Abstract(RunStep(s, t)), t)
  {
    StatusFrame(s, RunStep(s, t), t);
    PushFailsExactlyWhenUnreleased(s, t, v, pos);
    if RunStep(s, t).threads[t] == PushReturned(false) && pos != s.dequeuePos + |s.cells| {
      var u := s.hist.poppers[pos - |s.cells|];
      assert ThreadInv(s, u);
      assert Abstract(s).status[u].Decided?;
    }
  }

  lemma PopLoadRefines<T(!new)>(s: State<T>, t: nat, pos: nat)
    requires Inv(s) && t < |s.threads| && s.threads[t] == PopLoadSeq(pos)
    requires Inv(RunStep(s, t))
    ensures Step(|s.cells|, Abstract(s), Abstract(RunStep(s, t)), t)
  {
    StatusFrame(s, RunStep(s, t), t);
    PopFailsExactlyWhenUnpublished(s, t, pos);
    if RunStep(s, t).threads[t] == PopReturned(None) && pos != s.enqueuePos {
      var u := s.hist.pushers[pos];
      assert Abstract(s).status[u].Decided?;
    }
  }

  /** Accesses between the effect of an operation and its return. */
  lemma LateStepRefines<T(!new)>(s: State<T>, t: nat)
    requires Inv(s) && t < |s.threads| && Inv(RunStep(s, t))
    requires s.threads[t].PushConstruct? || s.threads[t].PushPublish? || s.threads[t].PopTake? ||
             s.threads[t].PopDestroy? || s.threads[t].PopRelease?
    ensures Abstract(RunStep(s, t)) == Abstract(s) || ReturnStep(Abstract(s), Abstract(RunStep(s, t)), t)
  {
    hide Slot;
    var s', o := RunStep(s, t), Abstract(s);
    assert ThreadInv(s, t) && ThreadInv(s', t);
    StatusFrame(s, s', t);
    assert o.status[t] == StatusOf(s, s.threads[t]);
    if !s.threads[t].PushPublish? && !s.threads[t].PopRelease? {
      assert StatusOf(s', s'.threads[t]) == o.status[t];
      assert o.status[t := o.status[t]] == o.status;
    }
  }

  /** Accesses before the effect, apart from the sequence loads and the winning CAS. */
  lemma EarlyStepRefines<T(!new)>(s: State<T>, t: nat)
    requires Inv(s) && t < |s.threads| && Inv(RunStep(s, t))
    requires var pc := s.threads[t];
      pc.PushCheckClosed? || pc.PushLoadPos? || pc.PushReload? || pc.PopLoadPos? || pc.PopReload? ||
      (pc.PushCas? && pc.pos != s.enqueuePos) || (pc.PopCas? && pc.pos != s.dequeuePos)
    ensures Abstract(RunStep(s, t)) == Abstract(s) || AdmitStep(Abstract(s), Abstract(RunStep(s, t)), t)
  {
    var s', o := RunStep(s, t), Abstract(s);
    StatusFrame(s, s', t);
    assert o.status[t] == StatusOf(s, s.threads[t]);
    if !s.threads[t].PushCheckClosed? {
      assert StatusOf(s', s'.threads[t]) == o.status[t];
      assert o.status[t := o.status[t]] == o.status;
    }
  }

  lemma RunRefines<T(!new)>(s: State<T>, t: nat)
    requires Inv(s) && t < |s.threads| && !AtRest(s.threads[t]) && Inv(RunStep(s, t))
    ensures Step(|s.cells|, Abstract(s), Abstract(RunStep(s, t)), t)
  {
    hide Slot;
    assert ThreadInv(s, t);
    match s.threads[t]
    case PushLoadSeq(v, pos) => PushLoadRefines(s, t, v, pos);
    case PopLoadSeq(pos) => PopLoadRefines(s, t, pos);
    case PushCas(v, pos) =>
      if pos == s.enqueuePos { PushCasRefines(s, t, v, pos); } else { EarlyStepRefines(s, t); }
    case PopCas(pos) =>
      if pos == s.dequeuePos { PopCasRefines(s, t, pos); } else { EarlyStepRefines(s, t); }
    case CloseExchange => StatusFrame(s, RunStep(s, t), t);
    case PushCheckClosed(_) => EarlyStepRefines(s, t);
    case PushLoadPos(_) => EarlyStepRefines(s, t);
    case PushReload(_) => EarlyStepRefines(s, t);
    case PopLoadPos => EarlyStepRefines(s, t);
    case PopReload => EarlyStepRefines(s, t);
    case _ => LateStepRefines(s, t);
  }

  /** One step of any thread is one step of the bounded FIFO object. */
  lemma NextRefines<T(!new)>(s: State<T>, e: Event<T>)
    requires Inv(s) && Enabled(s, e)
    ensures Inv(Next(s, e)) && Step(|s.cells|, Abstract(s), Abstract(Next(s, e)), e.thread)
  {
    var t, s' := e.thread, Next(s, e);
    NextInv(s, e);
    match e.action
    case Run => RunRefines(s, t);
    case Call(op) =>
      StatusFrame(s, s', t);
      assert SetsStatus(Abstract(s), Abstract(s'), t, Called(op));
    case SpuriousFailure =>
      StatusFrame(s, s', t);
      var o := Abstract(s);
      assert o.status[t := o.status[t]] == o.status;
  }

  /** The abstract objects along a run, first to last. */
  ghost function Observed<T>(s: State<T>, es: seq<Event<T>>): (os: seq<Object<T>>)
    requires Inv(s) && ValidRun(s, es)
    ensures |os| == |es| + 1 && os[0] == Abstract(s)
    decreases |es|
  {
    if es == [] then [Abstract(s)]
    else NextInv(s, es[0]); [Abstract(s)] + Observed(Next(s, es[0]), es[1..])
  }

  lemma {:induction false} RunsRefine<T(!new)>(s: State<T>, es: seq<Event<T>>)
    requires Inv(s) && ValidRun(s, es)
    ensures IsRun(|s.cells|, Observed(s, es), es)
    decreases |es|
  {
    hide Step, Next;
    if es != [] {
      NextRefines(s, es[0]);
      SameShape(s, es[0]);
      RunsRefine(Next(s, es[0]), es[1..]);
      RunPrepend(|s.cells|, Abstract(s), Observed(Next(s, es[0]), es[1..]), es);
    }
  }

  /**
   Linearizability: from a new queue, every interleaving of any number of threads is a run of a
   bounded FIFO that starts empty and open, in which each successful operation takes effect at its
   compare-and-swap and returns what the FIFO gave it.
   */
  lemma {:induction false} Linearizable<T(!new)>(cap: nat, n: nat, es: seq<Event<T>>)
    requires cap >= 2 && ValidRun(Init(cap, n), es)
    ensures Inv(Init<T>(cap, n))
    ensures IsRun(cap, Observed(Init(cap, n), es), es)
    ensures Observed(Init(cap, n), es)[0].queue == [] && !Observed(Init(cap, n), es)[0].closed
  {
    InitInv<T>(cap, n);
    RunsRefine(Init(cap, n), es);
  }

  lemma {:induction false} ObservedLast<T>(s: State<T>, es: seq<Event<T>>)
    requires Inv(s) && ValidRun(s, es)
    ensures Inv(Exec(s, es)) && Observed(s, es)[|es|] == Abstract(Exec(s, es))
    decreases |es|
  {
    hide Next, Enabled, Inv, Abstract;
    if es != [] {
      NextInv(s, es[0]);
      ObservedLast(Next(s, es[0]), es[1..]);
    }
  }

  /**
   First in, first out, exactly once: over any run from a new queue, the values of the winning pushes
   in order are those of the winning pops in order followed by what is still inside, which is at most
   the capacity.
   */
  lemma {:induction false} ValuesLeaveInOrder<T(!new)>(cap: nat, n: nat, es: seq<Event<T>>)
    requires cap >= 2 && ValidRun(Init(cap, n), es)
    ensures Inv(Init<T>(cap, n)) && Inv(Exec(Init(cap, n), es))
    ensures var os := Observed(Init(cap, n), es);
      && Entered(os) == Left(os) + Abstract(Exec(Init(cap, n), es)).queue
      && |Abstract(Exec(Init(cap, n), es)).queue| <= cap
  {
    Linearizable(cap, n, es);
    ObservedLast(Init(cap, n), es);
    FirstInFirstOut(cap, Observed(Init(cap, n), es), es);
  }
}
