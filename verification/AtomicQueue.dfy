/**
 The slot-sequence protocol of the bounded atomic queue as a step machine.

 Each step is one shared access: a load of `closed`, of a counter or of a cell's sequence, a
 compare-and-swap, the construction, move or destruction of a stored value, or a sequence store.
 Steps of different threads interleave freely (sequentially consistent memory).
 Tickets are unbounded here; AtomicObject runs the same steps on 64-bit words.
 */
module AtomicQueue {
  import opened Tickets
  import opened Wrappers

  datatype Storage<+T> = Empty | Live(value: T)

  datatype Cell<+T> = Cell(sequence: nat, storage: Storage<T>)

  /** What a thread does next. `Fault` is undefined behaviour in the C++ queue. */
  datatype Pc<+T> =
    | Idle
    | PushCheckClosed(value: T)
    | PushLoadPos(value: T)
    | PushLoadSeq(value: T, pos: nat)
    | PushCas(value: T, pos: nat)
    | PushReload(value: T)
    | PushConstruct(value: T, pos: nat)
    | PushPublish(value: T, pos: nat)
    | PushReturned(ok: bool)
    | PopLoadPos
    | PopLoadSeq(pos: nat)
    | PopCas(pos: nat)
    | PopReload
    | PopTake(pos: nat)
    | PopDestroy(pos: nat, out: T)
    | PopRelease(pos: nat, out: T)
    | PopReturned(result: Option<T>)
    | CloseExchange
    | CloseReturned(first: bool)
    | Fault

  /** Bookkeeping no step reads: who claimed each ticket, with which value, and each cell's ticket. */
  datatype History<+T> = History(pushed: seq<T>, pushers: seq<nat>, poppers: seq<nat>, tickets: seq<nat>)

  datatype State<+T> = State(
    cells: seq<Cell<T>>,
    enqueuePos: nat,
    dequeuePos: nat,
    closed: bool,
    threads: seq<Pc<T>>,
    hist: History<T>)

  datatype Operation<+T> = Push(value: T) | Pop | Close

  /** `Run` performs the thread's next access; `SpuriousFailure` is a weak CAS failing on equal values. */
  datatype Action<+T> = Call(op: Operation<T>) | Run | SpuriousFailure

  datatype Event<+T> = Event(thread: nat, action: Action<T>)

  function Init<T>(cap: nat, threads: nat): State<T> {
    State(seq(cap, i requires 0 <= i < cap => Cell(i, Empty)), 0, 0, false, seq(threads, i => Idle),
          History([], [], [], seq(cap, i requires 0 <= i < cap => i)))
  }

  predicate AtRest(pc: Pc) {
    pc.Idle? || pc.PushReturned? || pc.PopReturned? || pc.CloseReturned?
  }

  predicate Enabled(s: State, e: Event) {
    e.thread < |s.threads| && |s.cells| > 0 &&
    var pc := s.threads[e.thread];
    match e.action
    case Call(_) => AtRest(pc)
    case Run => !AtRest(pc) && !pc.Fault?
    case SpuriousFailure =>
      (pc.PushCas? && s.enqueuePos == pc.pos) || (pc.PopCas? && s.dequeuePos == pc.pos)
  }

  function At<T>(s: State<T>, t: nat, pc: Pc<T>): State<T>
    requires t < |s.threads|
  {
    s.(threads := s.threads[t := pc])
  }

  function Started<T>(op: Operation<T>): Pc<T> {
    match op
    case Push(v) => PushCheckClosed(v)
    case Pop => PopLoadPos
    case Close => CloseExchange
  }

  /** The cell that position `pos` maps to. */
  function CellOf<T>(s: State<T>, pos: nat): Cell<T>
    requires |s.cells| > 0
  {
    s.cells[Slot(pos, |s.cells|)]
  }

  function WithCell<T>(s: State<T>, pos: nat, c: Cell<T>): State<T>
    requires |s.cells| > 0
  {
    s.(cells := s.cells[Slot(pos, |s.cells|) := c])
  }

  // The push operation, one function per access.

  function PushLoadSeqStep<T>(s: State<T>, t: nat, v: T, pos: nat): State<T>
    requires t < |s.threads| && |s.cells| > 0
  {
    var dif := CellOf(s, pos).sequence - pos;
    if dif == 0 then At(s, t, PushCas(v, pos))
    else if dif < 0 then At(s, t, PushReturned(false))
    else At(s, t, PushReload(v))
  }

  function PushCasStep<T>(s: State<T>, t: nat, v: T, pos: nat): State<T>
    requires t < |s.threads|
  {
    if s.enqueuePos == pos then
      At(s.(enqueuePos := pos + 1,
            hist := s.hist.(pushed := s.hist.pushed + [v], pushers := s.hist.pushers + [t])),
         t, PushConstruct(v, pos))
    else
      At(s, t, PushLoadSeq(v, s.enqueuePos))
  }

  function PushConstructStep<T>(s: State<T>, t: nat, v: T, pos: nat): State<T>
    requires t < |s.threads| && |s.cells| > 0
  {
    var c := CellOf(s, pos);
    if c.storage.Live? then At(s, t, Fault)
    else At(WithCell(s, pos, c.(storage := Live(v))), t, PushPublish(v, pos))
  }

  function PushPublishStep<T>(s: State<T>, t: nat, pos: nat): State<T>
    requires t < |s.threads| && |s.cells| > 0
  {
    At(WithCell(s, pos, CellOf(s, pos).(sequence := pos + 1)), t, PushReturned(true))
  }

  // The pop operation.

  function PopLoadSeqStep<T>(s: State<T>, t: nat, pos: nat): State<T>
    requires t < |s.threads| && |s.cells| > 0
  {
    var dif := CellOf(s, pos).sequence - (pos + 1);
    if dif == 0 then At(s, t, PopCas(pos))
    else if dif < 0 then At(s, t, PopReturned(None))
    else At(s, t, PopReload)
  }

  function PopCasStep<T>(s: State<T>, t: nat, pos: nat): State<T>
    requires t < |s.threads|
  {
    if s.dequeuePos == pos then
      At(s.(dequeuePos := pos + 1, hist := s.hist.(poppers := s.hist.poppers + [t])), t, PopTake(pos))
    else
      At(s, t, PopLoadSeq(s.dequeuePos))
  }

  function PopTakeStep<T>(s: State<T>, t: nat, pos: nat): State<T>
    requires t < |s.threads| && |s.cells| > 0
  {
    match CellOf(s, pos).storage
    case Empty => At(s, t, Fault)
    case Live(v) => At(s, t, PopDestroy(pos, v))
  }

  function PopDestroyStep<T>(s: State<T>, t: nat, pos: nat, v: T): State<T>
    requires t < |s.threads| && |s.cells| > 0
  {
    var c := CellOf(s, pos);
    if c.storage.Empty? then At(s, t, Fault)
    else At(WithCell(s, pos, c.(storage := Empty)), t, PopRelease(pos, v))
  }

  function PopReleaseStep<T>(s: State<T>, t: nat, pos: nat, v: T): State<T>
    requires t < |s.threads| && |s.cells| > 0
  {
    var next := pos + |s.cells|;
    var i := Slot(pos, |s.cells|);
    var s' := WithCell(s, pos, CellOf(s, pos).(sequence := next));
    At(s'.(hist := if i < |s.hist.tickets| then s.hist.(tickets := s.hist.tickets[i := next]) else s.hist),
       t, PopReturned(Some(v)))
  }

  function RunStep<T>(s: State<T>, t: nat): State<T>
    requires t < |s.threads| && |s.cells| > 0
  {
    match s.threads[t]
    case PushCheckClosed(v) => At(s, t, if s.closed then PushReturned(false) else PushLoadPos(v))
    case PushLoadPos(v) => At(s, t, PushLoadSeq(v, s.enqueuePos))
    case PushLoadSeq(v, pos) => PushLoadSeqStep(s, t, v, pos)
    case PushCas(v, pos) => PushCasStep(s, t, v, pos)
    case PushReload(v) => At(s, t, PushLoadSeq(v, s.enqueuePos))
    case PushConstruct(v, pos) => PushConstructStep(s, t, v, pos)
    case PushPublish(v, pos) => PushPublishStep(s, t, pos)
    case PopLoadPos => At(s, t, PopLoadSeq(s.dequeuePos))
    case PopLoadSeq(pos) => PopLoadSeqStep(s, t, pos)
    case PopCas(pos) => PopCasStep(s, t, pos)
    case PopReload => At(s, t, PopLoadSeq(s.dequeuePos))
    case PopTake(pos) => PopTakeStep(s, t, pos)
    case PopDestroy(pos, v) => PopDestroyStep(s, t, pos, v)
    case PopRelease(pos, v) => PopReleaseStep(s, t, pos, v)
    case CloseExchange => At(s.(closed := true), t, CloseReturned(!s.closed))
    case _ => s
  }

  function SpuriousStep<T>(s: State<T>, t: nat): State<T>
    requires t < |s.threads|
  {
    match s.threads[t]
    case PushCas(v, pos) => At(s, t, PushLoadSeq(v, pos))
    case PopCas(pos) => At(s, t, PopLoadSeq(pos))
    case _ => s
  }

  function Next<T>(s: State<T>, e: Event<T>): State<T>
    requires Enabled(s, e)
  {
    match e.action
    case Call(op) => At(s, e.thread, Started(op))
    case Run => RunStep(s, e.thread)
    case SpuriousFailure => SpuriousStep(s, e.thread)
  }

  predicate ValidRun<T>(s: State<T>, es: seq<Event<T>>)
    decreases |es|
  {
    es == [] || (Enabled(s, es[0]) && ValidRun(Next(s, es[0]), es[1..]))
  }

  /** The state a run ends in. */
  function Exec<T>(s: State<T>, es: seq<Event<T>>): State<T>
    requires ValidRun(s, es)
    decreases |es|
  {
    if es == [] then s else Exec(Next(s, es[0]), es[1..])
  }

  /** A step changes one thread, and never the number of cells or threads. */
  lemma SameShape<T>(s: State<T>, e: Event<T>)
    requires Enabled(s, e)
    ensures |Next(s, e).cells| == |s.cells| && |Next(s, e).threads| == |s.threads|
    ensures Next(s, e).threads == s.threads[e.thread := Next(s, e).threads[e.thread]]
  {
    if e.action.Run? {
      hide SpuriousStep, Started, Slot;
    } else {
      hide RunStep;
    }
  }
}
