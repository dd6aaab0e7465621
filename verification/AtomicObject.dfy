/**
 The bounded atomic queue as an object: cells in an array, counters in 64-bit words, one method per
 shared access, and the whole operations when nothing else runs.
 */
module AtomicObject {
  import opened Tickets
  import opened Words
  import opened AtomicQueue
  import opened AtomicInvariant
  import opened AtomicLinearizable
  import opened AtomicProperties
  import opened Wrappers

  class BoundedAtomicMpmcQueue<T> {
    const capacity: nat
    const mask: nat
    const cells: array<Cell<T>>
    var enqueuePos: nat
    var dequeuePos: nat
    var closed: bool
    /** Each thread's local variables and program counter. */
    var threads: seq<Pc<T>>
    ghost var hist: History<T>

    /** The protocol state this object is in. */
    ghost function Abs(): State<T>
      reads this, cells
    {
      State(cells[..], enqueuePos, dequeuePos, closed, threads, hist)
    }

    ghost predicate Valid()
      reads this, cells
    {
      cells.Length == capacity >= 2 && IsPow2(capacity) && mask == capacity - 1 && Inv(Abs())
    }

    /** Fewer than `2^64 - capacity` tickets have been issued, so no counter has wrapped. */
    ghost predicate InWords()
      reads this
    {
      enqueuePos + capacity < TWO_64
    }

    /** At most `2^63 - capacity` have, so no word has its top bit set. */
    ghost predicate InRange()
      reads this
    {
      enqueuePos + capacity <= TWO_63
    }

    ghost predicate Quiet()
      reads this
    {
      forall t :: 0 <= t < |threads| ==> AtRest(threads[t])
    }

    /** The FIFO the object implements. */
    ghost function Contents(): seq<T>
      reads this, cells
      requires Valid()
    {
      hist.pushed[dequeuePos..enqueuePos]
    }

    constructor (requested: nat, threadCount: nat)
      requires requested <= TWO_63
      ensures Valid() && Abs() == Init(capacity, threadCount) && fresh(cells)
      ensures capacity >= requested
      ensures forall p: nat :: IsPow2(p) && p >= 2 && p >= requested ==> capacity <= p
    {
      var c := NormalizeCapacity(requested);
      capacity := c;
      mask := c - 1;
      var fresh' := new Cell<T>[c];
      cells := fresh';
      enqueuePos, dequeuePos, closed := 0, 0, false;
      threads := seq(threadCount, i => Idle);
      hist := History([], [], [], seq(c, i requires 0 <= i < c => i));
      new;
      for i := 0 to capacity
        invariant forall j :: 0 <= j < i ==> cells[j] == Cell(j, Empty)
        invariant fresh(cells)
        modifies cells
      {
        cells[i] := Cell(i, Empty);
      }
      InitInv<T>(capacity, threadCount);
      assert Abs() == Init(capacity, threadCount);
    }

    /**
     For every position a thread can hold, masking gives the slot, and each signed difference is the
     true one exactly when its two words lie on the same side of 2^63.
     */
    lemma WordsExact(pos: nat)
      requires Valid() && InWords() && pos <= enqueuePos
      ensures And(pos, mask) == Slot(pos, capacity) && Wrap(pos + 1) == pos + 1 < TWO_64
      ensures cells[Slot(pos, capacity)].sequence < TWO_64
      ensures var sequence := cells[Slot(pos, capacity)].sequence;
        && (Dif(sequence, pos) == sequence - pos <==> SameSide(sequence, pos))
        && (Dif(sequence, pos + 1) == sequence - (pos + 1) <==> SameSide(sequence, pos + 1))
        && (Dif(sequence, pos) == 0 <==> sequence == pos)
        && (Dif(sequence, pos + 1) == 0 <==> sequence == pos + 1)
        && (!SameSide(sequence, pos) ==> (Dif(sequence, pos) < 0 <==> sequence > pos))
        && (!SameSide(sequence, pos + 1) ==> (Dif(sequence, pos + 1) < 0 <==> sequence > pos + 1))
      ensures InRange() ==>
        SameSide(cells[Slot(pos, capacity)].sequence, pos) && SameSide(cells[Slot(pos, capacity)].sequence, pos + 1)
    {
      MaskIsSlot(pos, capacity);
      assert CellInv(Abs(), Slot(pos, capacity));
      hide Slot, And, Wrap, Dif, Inv, ThreadInv;
      WrapSmall(pos + 1);
      DifExactIff(cells[Slot(pos, capacity)].sequence, pos);
      DifExactIff(cells[Slot(pos, capacity)].sequence, pos + 1);
    }

    // A call, and one method per access.

    method Call(t: nat, op: Operation<T>)
      requires Valid() && t < |threads| && AtRest(threads[t])
      modifies this`threads
      ensures Valid() && Abs() == Next(old(Abs()), Event(t, AtomicQueue.Call(op)))
    {
      NextInv(Abs(), Event(t, AtomicQueue.Call(op)));
      threads := threads[t := Started(op)];
    }

    method LoadClosed(t: nat)
      requires Valid() && t < |threads| && threads[t].PushCheckClosed?
      modifies this`threads
      ensures Valid() && Abs() == RunStep(old(Abs()), t)
      ensures threads == old(threads)[t := threads[t]]
      ensures if closed then threads[t] == PushReturned(false) else threads[t] == PushLoadPos(old(threads[t].value))
    {
      RunInv(Abs(), t);
      threads := threads[t := if closed then PushReturned(false) else PushLoadPos(threads[t].value)];
    }

    method ExchangeClosed(t: nat)
      requires Valid() && t < |threads| && threads[t].CloseExchange?
      modifies this`threads, this`closed
      ensures Valid() && Abs() == RunStep(old(Abs()), t)
    {
      RunInv(Abs(), t);
      var was := closed;
      closed := true;
      threads := threads[t := CloseReturned(!was)];
    }

    method LoadEnqueuePos(t: nat)
      requires Valid() && t < |threads| && (threads[t].PushLoadPos? || threads[t].PushReload?)
      modifies this`threads
      ensures Valid() && Abs() == RunStep(old(Abs()), t)
    {
      RunInv(Abs(), t);
      threads := threads[t := PushLoadSeq(threads[t].value, enqueuePos)];
    }

    /**
     The branch on the signed difference, read without overflow. Where the two words straddle 2^63 it
     goes the wrong way round: "full" for a cell already past the position, and "again" for one behind.
     */
    method LoadSequenceForPush(t: nat)
      requires Valid() && InWords() && t < |threads| && threads[t].PushLoadSeq?
      modifies this`threads
      ensures Valid()
      ensures SameSide(cells[Slot(old(threads[t].pos), capacity)].sequence, old(threads[t].pos)) ==>
        Abs() == RunStep(old(Abs()), t)
      ensures !SameSide(cells[Slot(old(threads[t].pos), capacity)].sequence, old(threads[t].pos)) ==>
        threads == old(threads)[t := if cells[Slot(old(threads[t].pos), capacity)].sequence > old(threads[t].pos)
                                     then PushReturned(false) else PushReload(old(threads[t].value))]
    {
      RunInv(Abs(), t);
      assert ThreadInv(Abs(), t);
      var v, pos := threads[t].value, threads[t].pos;
      WordsExact(pos);
      LocalStep(Abs(), t, PushReturned(false));
      LocalStep(Abs(), t, PushReload(v));
      hide Inv, ThreadInv, Dif, SameSide, Wrap, And, Slot;
      var sequence := cells[And(pos, mask)].sequence;
      var dif := Dif(sequence, pos);
      if dif == 0 {
        threads := threads[t := PushCas(v, pos)];
      } else if dif < 0 {
        threads := threads[t := PushReturned(false)];
      } else {
        threads := threads[t := PushReload(v)];
      }
    }

    /** `compare_exchange_weak`; `spurious` lets it fail although the counter matches. */
    method CasEnqueuePos(t: nat, spurious: bool)
      requires Valid() && InWords() && t < |threads| && threads[t].PushCas?
      requires spurious ==> threads[t].pos == enqueuePos
      modifies this`threads, this`enqueuePos, this`hist
      ensures Valid()
      ensures Abs() == if spurious then SpuriousStep(old(Abs()), t) else RunStep(old(Abs()), t)
    {
      NextInv(Abs(), Event(t, if spurious then SpuriousFailure else Run));
      var v, pos := threads[t].value, threads[t].pos;
      if enqueuePos == pos && !spurious {
        enqueuePos := Wrap(pos + 1);
        hist := hist.(pushed := hist.pushed + [v], pushers := hist.pushers + [t]);
        threads := threads[t := PushConstruct(v, pos)];
      } else {
        threads := threads[t := PushLoadSeq(v, enqueuePos)];
      }
    }

    method Construct(t: nat)
      requires Valid() && t < |threads| && threads[t].PushConstruct?
      modifies this`threads, cells
      ensures Valid() && Abs() == RunStep(old(Abs()), t)
    {
      RunInv(Abs(), t);
      assert ThreadInv(Abs(), t);
      var v, pos := threads[t].value, threads[t].pos;
      MaskIsSlot(pos, capacity);
      var i := And(pos, mask);
      cells[i] := cells[i].(storage := Live(v));
      threads := threads[t := PushPublish(v, pos)];
    }

    method PublishPush(t: nat)
      requires Valid() && InWords() && t < |threads| && threads[t].PushPublish?
      modifies this`threads, cells
      ensures Valid() && Abs() == RunStep(old(Abs()), t)
    {
      hide Wrap;
      ghost var s := Abs();
      RunInv(Abs(), t);
      assert ThreadInv(Abs(), t);
      var pos := threads[t].pos;
      MaskIsSlot(pos, capacity);
      WrapSmall(pos + 1);
      var i := And(pos, mask);
      cells[i] := cells[i].(sequence := Wrap(pos + 1));
      threads := threads[t := PushReturned(true)];
      assert Abs() == PushPublishStep(s, t, pos);
    }

    method LoadDequeuePos(t: nat)
      requires Valid() && t < |threads| && (threads[t].PopLoadPos? || threads[t].PopReload?)
      modifies this`threads
      ensures Valid() && Abs() == RunStep(old(Abs()), t)
    {
      RunInv(Abs(), t);
      threads := threads[t := PopLoadSeq(dequeuePos)];
    }

    method LoadSequenceForPop(t: nat)
      requires Valid() && InWords() && t < |threads| && threads[t].PopLoadSeq?
      modifies this`threads
      ensures Valid()
      ensures SameSide(cells[Slot(old(threads[t].pos), capacity)].sequence, old(threads[t].pos) + 1) ==>
        Abs() == RunStep(old(Abs()), t)
      ensures !SameSide(cells[Slot(old(threads[t].pos), capacity)].sequence, old(threads[t].pos) + 1) ==>
        threads == old(threads)[t := if cells[Slot(old(threads[t].pos), capacity)].sequence > old(threads[t].pos) + 1
                                     then PopReturned(None) else PopReload]
    {
      RunInv(Abs(), t);
      assert ThreadInv(Abs(), t);
      var pos := threads[t].pos;
      WordsExact(pos);
      LocalStep(Abs(), t, PopReturned(None));
      LocalStep(Abs(), t, PopReload);
      hide Inv, ThreadInv, Dif, SameSide, Wrap, And, Slot;
      var sequence := cells[And(pos, mask)].sequence;
      var dif := Dif(sequence, Wrap(pos + 1));
      if dif == 0 {
        threads := threads[t := PopCas(pos)];
      } else if dif < 0 {
        threads := threads[t := PopReturned(None)];
      } else {
        threads := threads[t := PopReload];
      }
    }

    method CasDequeuePos(t: nat, spurious: bool)
      requires Valid() && InWords() && t < |threads| && threads[t].PopCas?
      requires spurious ==> threads[t].pos == dequeuePos
      modifies this`threads, this`dequeuePos, this`hist
      ensures Valid()
      ensures Abs() == if spurious then SpuriousStep(old(Abs()), t) else RunStep(old(Abs()), t)
    {
      NextInv(Abs(), Event(t, if spurious then SpuriousFailure else Run));
      var pos := threads[t].pos;
      if dequeuePos == pos && !spurious {
        dequeuePos := Wrap(pos + 1);
        hist := hist.(poppers := hist.poppers + [t]);
        threads := threads[t := PopTake(pos)];
      } else {
        threads := threads[t := PopLoadSeq(dequeuePos)];
      }
    }

    method Take(t: nat)
      requires Valid() && t < |threads| && threads[t].PopTake?
      modifies this`threads
      ensures Valid() && Abs() == RunStep(old(Abs()), t)
    {
      RunInv(Abs(), t);
      assert ThreadInv(Abs(), t);
      var pos := threads[t].pos;
      MaskIsSlot(pos, capacity);
      threads := threads[t := PopDestroy(pos, cells[And(pos, mask)].storage.value)];
    }

    method Destroy(t: nat)
      requires Valid() && t < |threads| && threads[t].PopDestroy?
      modifies this`threads, cells
      ensures Valid() && Abs() == RunStep(old(Abs()), t)
    {
      RunInv(Abs(), t);
      assert ThreadInv(Abs(), t);
      var pos := threads[t].pos;
      MaskIsSlot(pos, capacity);
      var i := And(pos, mask);
      cells[i] := cells[i].(storage := Empty);
      threads := threads[t := PopRelease(pos, threads[t].out)];
    }

    method Release(t: nat)
      requires Valid() && InWords() && t < |threads| && threads[t].PopRelease?
      modifies this`threads, this`hist, cells
      ensures Valid() && Abs() == RunStep(old(Abs()), t)
    {
      hide Wrap;
      ghost var s := Abs();
      RunInv(Abs(), t);
      assert ThreadInv(Abs(), t);
      var pos, out := threads[t].pos, threads[t].out;
      MaskIsSlot(pos, capacity);
      WrapSmall(pos + capacity);
      var i := And(pos, mask);
      cells[i] := cells[i].(sequence := Wrap(pos + capacity));
      hist := hist.(tickets := hist.tickets[Slot(pos, capacity) := pos + capacity]);
      threads := threads[t := PopReturned(Some(out))];
      assert Abs() == PopReleaseStep(s, t, pos, out);
    }

    // Whole operations while no other thread runs. `spurious` bounds the failures of the weak CAS.

    ghost predicate Alone(t: nat)
      reads this
    {
      t < |threads| && forall u :: 0 <= u < |threads| && u != t ==> AtRest(threads[u])
    }

    /** From the call to the first sequence load. */
    method EnterPush(t: nat, v: T)
      requires Valid() && Quiet() && t < |threads|
      modifies this`threads
      ensures Valid() && Alone(t) && |threads| == old(|threads|)
      ensures threads[t] == if closed then PushReturned(false) else PushLoadSeq(v, enqueuePos)
    {
      hide Inv;
      Call(t, Push(v));
      LoadClosed(t);
      if !closed {
        LoadEnqueuePos(t);
      }
    }

    /** The retry loop up to the winning CAS, or to the load that finds the queue full. */
    method WinPush(t: nat, v: T, spurious: nat)
      requires Valid() && InRange() && Alone(t) && threads[t] == PushLoadSeq(v, enqueuePos)
      modifies this`threads, this`enqueuePos, this`hist
      ensures Valid() && Alone(t) && |threads| == old(|threads|)
      ensures var pos := old(enqueuePos);
        if pos == dequeuePos + capacity then
          threads[t] == PushReturned(false) && enqueuePos == pos && hist.pushed == old(hist.pushed)
        else
          threads[t] == PushConstruct(v, pos) && enqueuePos == pos + 1 && hist.pushed == old(hist.pushed) + [v]
    {
      hide Inv, PushLoadSeqStep;
      var failures := spurious;
      while true
        invariant Valid() && Alone(t) && |threads| == old(|threads|)
        invariant threads[t] == PushLoadSeq(v, enqueuePos)
        invariant hist == old(hist) && enqueuePos == old(enqueuePos)
        decreases failures
      {
        PushLoadAlone(Abs(), t, v);
        WordsExact(enqueuePos);
        LoadSequenceForPush(t);
        if threads[t].PushReturned? {
          return;
        }
        CasEnqueuePos(t, failures > 0);
        if failures == 0 {
          return;
        }
        failures := failures - 1;
      }
    }

    method FinishPush(t: nat)
      requires Valid() && InRange() && Alone(t) && threads[t].PushConstruct?
      modifies this`threads, cells
      ensures Valid() && Quiet() && |threads| == old(|threads|) && threads[t] == PushReturned(true)
    {
      assert ThreadInv(Abs(), t);
      Construct(t);
      hide Inv, ThreadInv;
      PublishPush(t);
    }

    method TryPush(t: nat, v: T, spurious: nat) returns (ok: bool)
      requires Valid() && enqueuePos + capacity < TWO_63 && Quiet() && t < |threads|
      modifies this`threads, this`enqueuePos, this`hist, cells
      ensures Valid() && Quiet() && |threads| == old(|threads|)
      ensures ok <==> !closed && old(|Contents()|) < capacity
      ensures Contents() == if ok then old(Contents()) + [v] else old(Contents())
    {
      EnterPush(t, v);
      if threads[t].PushReturned? {
        return false;
      }
      WinPush(t, v, spurious);
      if threads[t].PushReturned? {
        return false;
      }
      FinishPush(t);
      ok := true;
      assert hist.pushed[dequeuePos..enqueuePos] == old(hist.pushed[dequeuePos..enqueuePos]) + [v];
    }

    method EnterPop(t: nat)
      requires Valid() && Quiet() && t < |threads|
      modifies this`threads
      ensures Valid() && Alone(t) && |threads| == old(|threads|)
      ensures threads[t] == PopLoadSeq(dequeuePos)
    {
      hide Inv;
      Call(t, Pop);
      LoadDequeuePos(t);
    }

    method WinPop(t: nat, spurious: nat)
      requires Valid() && InRange() && Alone(t) && threads[t] == PopLoadSeq(dequeuePos)
      modifies this`threads, this`dequeuePos, this`hist
      ensures Valid() && Alone(t) && |threads| == old(|threads|) && hist.pushed == old(hist.pushed)
      ensures var pos := old(dequeuePos);
        if pos == enqueuePos then threads[t] == PopReturned(None) && dequeuePos == pos
        else threads[t] == PopTake(pos) && dequeuePos == pos + 1
    {
      assert dequeuePos <= enqueuePos;
      hide Inv, PopLoadSeqStep;
      var failures := spurious;
      while true
        invariant Valid() && Alone(t) && |threads| == old(|threads|)
        invariant threads[t] == PopLoadSeq(dequeuePos)
        invariant hist == old(hist) && dequeuePos == old(dequeuePos) <= enqueuePos
        decreases failures
      {
        PopLoadAlone(Abs(), t);
        WordsExact(dequeuePos);
        LoadSequenceForPop(t);
        if threads[t].PopReturned? {
          return;
        }
        CasDequeuePos(t, failures > 0);
        if failures == 0 {
          return;
        }
        failures := failures - 1;
      }
    }

    method FinishPop(t: nat)
      requires Valid() && InRange() && Alone(t) && threads[t].PopTake?
      modifies this`threads, this`hist, cells
      ensures Valid() && Quiet() && |threads| == old(|threads|) && hist.pushed == old(hist.pushed)
      ensures old(threads[t].pos) < |hist.pushed|
      ensures threads[t] == PopReturned(Some(hist.pushed[old(threads[t].pos)]))
    {
      assert ThreadInv(Abs(), t);
      Take(t);
      assert ThreadInv(Abs(), t);
      hide Inv;
      Destroy(t);
      Release(t);
    }

    method TryPop(t: nat, spurious: nat) returns (out: Option<T>)
      requires Valid() && InRange() && Quiet() && t < |threads|
      modifies this`threads, this`dequeuePos, this`hist, cells
      ensures Valid() && Quiet() && |threads| == old(|threads|)
      ensures old(Contents()) == [] ==> out == None && Contents() == [] && dequeuePos == old(dequeuePos)
      ensures old(Contents()) != [] ==>
        out == Some(old(Contents())[0]) && Contents() == old(Contents())[1..] && dequeuePos == old(dequeuePos) + 1
    {
      EnterPop(t);
      WinPop(t, spurious);
      if threads[t].PopReturned? {
        return None;
      }
      FinishPop(t);
      out := threads[t].result;
    }

    method Close(t: nat) returns (first: bool)
      requires Valid() && t < |threads| && AtRest(threads[t])
      modifies this`threads, this`closed
      ensures Valid() && closed && first == !old(closed) && Contents() == old(Contents())
      ensures threads == old(threads)[t := CloseReturned(first)]
    {
      Call(t, Operation.Close);
      ExchangeClosed(t);
      first := threads[t].first;
    }

    /**
     The destructor's loop: it pops exactly the remaining values, oldest first, and leaves no cell
     holding one.
     */
    method DrainRemaining(t: nat, spurious: nat) returns (drained: seq<T>)
      requires Valid() && InRange() && Quiet() && t < |threads|
      modifies this`threads, this`dequeuePos, this`hist, cells
      ensures Valid() && drained == old(Contents()) && Contents() == []
      ensures |drained| == old(enqueuePos - dequeuePos) && dequeuePos == enqueuePos
      ensures forall i :: 0 <= i < capacity ==> cells[i].storage.Empty?
    {
      drained := [];
      var out := TryPop(t, spurious);
      hide Inv;
      while out.Some?
        invariant Valid() && InRange() && Quiet() && t < |threads|
        invariant drained + (if out.Some? then [out.value] else []) + Contents() == old(Contents())
        invariant out.None? ==> Contents() == []
        decreases enqueuePos - dequeuePos, out.Some?
      {
        drained := drained + [out.value];
        out := TryPop(t, spurious);
      }
      QuietEmptyCells(Abs());
    }
  }

  /** With nothing else running, a push's load finds its cell free, or the queue full. */
  lemma PushLoadAlone<T>(s: State<T>, t: nat, v: T)
    requires Inv(s) && t < |s.threads| && s.threads[t] == PushLoadSeq(v, s.enqueuePos)
    requires forall u :: 0 <= u < |s.threads| && u != t ==> AtRest(s.threads[u])
    ensures RunStep(s, t) == At(s, t, if s.enqueuePos == s.dequeuePos + |s.cells| then PushReturned(false)
                                      else PushCas(v, s.enqueuePos))
  {
    PushFailsExactlyWhenUnreleased(s, t, v, s.enqueuePos);
    if PushRetry(s, Event(t, Run)) {
      PushRetryMeansOvertaken(s, Event(t, Run));
    }
  }

  lemma PopLoadAlone<T>(s: State<T>, t: nat)
    requires Inv(s) && t < |s.threads| && s.threads[t] == PopLoadSeq(s.dequeuePos)
    requires forall u :: 0 <= u < |s.threads| && u != t ==> AtRest(s.threads[u])
    ensures RunStep(s, t) == At(s, t, if s.enqueuePos == s.dequeuePos then PopReturned(None)
                                      else PopCas(s.dequeuePos))
  {
    PopFailsExactlyWhenUnpublished(s, t, s.dequeuePos);
    if PopRetry(s, Event(t, Run)) {
      PopRetryMeansOvertaken(s, Event(t, Run));
    }
  }

  /** With all threads at rest and the counters equal, no value is left in any cell. */
  lemma QuietEmptyCells<T>(s: State<T>)
    requires Inv(s) && s.enqueuePos == s.dequeuePos
    requires forall u :: 0 <= u < |s.threads| ==> AtRest(s.threads[u])
    ensures forall i :: 0 <= i < |s.cells| ==> s.cells[i].storage.Empty?
  {
    forall i | 0 <= i < |s.cells| ensures s.cells[i].storage.Empty? {
      StorageLive(s, i);
    }
  }
}
