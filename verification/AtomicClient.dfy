/**
 The producers and consumers of the versions test on top of the slot-sequence queue: producers retry
 each item until it is pushed and then count themselves done; consumers pop until a pop fails, and
 stop when a second pop fails after every producer was seen done.
 */
module AtomicClient {
  import opened Counting
  import opened AtomicQueue
  import opened AtomicInvariant
  import opened AtomicLinearizable
  import opened AtomicProperties
  import opened Wrappers

  datatype ProducerPhase = Ready | InPush | Done

  datatype ConsumerPhase = ReadyFirst | InFirstPop | CheckDone | ReadySecond | InSecondPop | Stopped

  datatype Client<+T> =
    | Producer(items: seq<T>, next: nat, producing: ProducerPhase)
    | Consumer(got: seq<T>, consuming: ConsumerPhase)

  /** `done` is the shared counter of finished producers; `producers` is their number. */
  datatype System<+T> = System(queue: State<T>, clients: seq<Client<T>>, done: nat, producers: nat)

  /** A client either runs its queue call one access further or acts itself. */
  datatype Move = Access | AccessFailingSpuriously | Act

  datatype Turn = Turn(thread: nat, move: Move)

  predicate IsUnfinished<T>(c: Client<T>) { c.Producer? && !c.producing.Done? }

  predicate IsFinished<T>(c: Client<T>) {
    if c.Producer? then c.producing.Done? else c.consuming.Stopped?
  }

  predicate InCall(c: Client) {
    if c.Producer? then c.producing.InPush? else c.consuming.InFirstPop? || c.consuming.InSecondPop?
  }

  predicate CanMove(y: System, m: Turn) {
    m.thread < |y.clients| == |y.queue.threads| &&
    var c, pc := y.clients[m.thread], y.queue.threads[m.thread];
    match m.move
    case Access => InCall(c) && Enabled(y.queue, Event(m.thread, Run))
    case AccessFailingSpuriously => InCall(c) && Enabled(y.queue, Event(m.thread, SpuriousFailure))
    case Act =>
      |y.queue.cells| > 0 && !IsFinished(c) && AtRest(pc) &&
      (InCall(c) ==> if c.Producer? then pc.PushReturned? else pc.PopReturned?)
  }

  function SetClient<T>(y: System<T>, t: nat, c: Client<T>): System<T>
    requires t < |y.clients|
  {
    y.(clients := y.clients[t := c])
  }

  function Calls<T>(y: System<T>, t: nat, op: Operation<T>, c: Client<T>): System<T>
    requires t < |y.clients| == |y.queue.threads| && Enabled(y.queue, Event(t, Call(op)))
  {
    SetClient(y, t, c).(queue := Next(y.queue, Event(t, Call(op))))
  }

  function ProducerActs<T>(y: System<T>, t: nat): System<T>
    requires CanMove(y, Turn(t, Act)) && y.clients[t].Producer?
  {
    var c := y.clients[t];
    match c.producing
    case Ready =>
      if c.next < |c.items| then Calls(y, t, Push(c.items[c.next]), c.(producing := InPush))
      else SetClient(y, t, c.(producing := Done)).(done := y.done + 1)
    case InPush =>
      var next := if y.queue.threads[t].ok then c.next + 1 else c.next;
      SetClient(y, t, c.(next := next, producing := Ready))
    case Done => y
  }

  function ConsumerActs<T>(y: System<T>, t: nat): System<T>
    requires CanMove(y, Turn(t, Act)) && y.clients[t].Consumer?
  {
    var c := y.clients[t];
    match c.consuming
    case ReadyFirst => Calls(y, t, Pop, c.(consuming := InFirstPop))
    case InFirstPop =>
      (match y.queue.threads[t].result
       case Some(v) => SetClient(y, t, Consumer(c.got + [v], ReadyFirst))
       case None => SetClient(y, t, c.(consuming := CheckDone)))
    case CheckDone =>
      SetClient(y, t, c.(consuming := if y.done == y.producers then ReadySecond else ReadyFirst))
    case ReadySecond => Calls(y, t, Pop, c.(consuming := InSecondPop))
    case InSecondPop =>
      (match y.queue.threads[t].result
       case Some(v) => SetClient(y, t, Consumer(c.got + [v], ReadyFirst))
       case None => SetClient(y, t, c.(consuming := Stopped)))
    case Stopped => y
  }

  function After<T>(y: System<T>, m: Turn): System<T>
    requires CanMove(y, m)
  {
    match m.move
    case Access => y.(queue := Next(y.queue, Event(m.thread, Run)))
    case AccessFailingSpuriously => y.(queue := Next(y.queue, Event(m.thread, SpuriousFailure)))
    case Act => if y.clients[m.thread].Producer? then ProducerActs(y, m.thread) else ConsumerActs(y, m.thread)
  }

  ghost predicate Schedulable<T>(y: System<T>, ms: seq<Turn>)
    decreases |ms|
  {
    ms == [] || (CanMove(y, ms[0]) && Schedulable(After(y, ms[0]), ms[1..]))
  }

  ghost function Outcome<T>(y: System<T>, ms: seq<Turn>): System<T>
    requires Schedulable(y, ms)
    decreases |ms|
  {
    if ms == [] then y else Outcome(After(y, ms[0]), ms[1..])
  }

  /** A new queue, one producer per item list and `consumers` consumers. */
  function Start<T>(cap: nat, work: seq<seq<T>>, consumers: nat): System<T> {
    var n := |work| + consumers;
    System(Init(cap, n),
           seq(n, t requires 0 <= t < n =>
             if t < |work| then Producer(work[t], 0, Ready) else Consumer([], ReadyFirst)),
           0, |work|)
  }

  // The coupling of clients and queue.

  predicate PushingValue<T(==)>(pc: Pc<T>, v: T) {
    match pc
    case PushCheckClosed(x) => x == v
    case PushLoadPos(x) => x == v
    case PushLoadSeq(x, _) => x == v
    case PushCas(x, _) => x == v
    case PushReload(x) => x == v
    case PushConstruct(x, _) => x == v
    case PushPublish(x, _) => x == v
    case PushReturned(_) => true
    case _ => false
  }

  predicate IsPopping(pc: Pc) {
    pc.PopLoadPos? || pc.PopLoadSeq? || pc.PopCas? || pc.PopReload? || pc.PopTake? ||
    pc.PopDestroy? || pc.PopRelease? || pc.PopReturned?
  }

  ghost predicate Coupled<T>(c: Client<T>, pc: Pc<T>) {
    if InCall(c) then
      if c.Producer? then c.next < |c.items| && PushingValue(pc, c.items[c.next]) else IsPopping(pc)
    else
      AtRest(pc) && (c.Producer? ==> c.next <= |c.items| && (c.producing.Done? ==> c.next == |c.items|))
  }

  /** What a consumer past its done check knows. */
  ghost predicate Informed<T>(y: System<T>, t: nat)
    requires t < |y.clients| == |y.queue.threads|
  {
    var c, pc := y.clients[t], y.queue.threads[t];
    c.Consumer? ==>
      (c.consuming.ReadySecond? || c.consuming.InSecondPop? || c.consuming.Stopped? ==> y.done == y.producers) &&
      (c.consuming.Stopped? || (c.consuming.InSecondPop? && pc == PopReturned(None)) ==>
        y.queue.enqueuePos == y.queue.dequeuePos)
  }

  ghost predicate SystemInv<T>(y: System<T>) {
    && Inv(y.queue)
    && |y.clients| == |y.queue.threads|
    && Count(y.clients, IsUnfinished) + y.done == y.producers
    && (forall t :: 0 <= t < |y.clients| ==> Coupled(y.clients[t], y.queue.threads[t]))
    && (forall t :: 0 <= t < |y.clients| ==> Informed(y, t))
  }

  /** Once every producer is done, no thread is inside a push. */
  lemma NobodyPushes<T>(y: System<T>, t: nat)
    requires SystemInv(y) && y.done == y.producers && t < |y.clients|
    ensures !y.queue.threads[t].PushCas? && !y.queue.threads[t].PushConstruct? && !y.queue.threads[t].PushPublish?
  {
    CountZero(y.clients, IsUnfinished);
    assert Coupled(y.clients[t], y.queue.threads[t]);
  }

  /** An access of a push or pop keeps the call what it was. */
  lemma AccessStaysInCall<T>(q: State<T>, e: Event<T>)
    requires Shape(q) && Enabled(q, e) && ThreadInv(q, e.thread) && !e.action.Call?
    ensures var pc, pc' := q.threads[e.thread], Next(q, e).threads[e.thread];
      && (forall v :: PushingValue(pc, v) ==> PushingValue(pc', v))
      && (IsPopping(pc) ==> IsPopping(pc'))
      && (Next(q, e).enqueuePos != q.enqueuePos ==> pc.PushCas?)
      && q.dequeuePos <= Next(q, e).dequeuePos
  {
  }

  lemma AccessEffect<T>(q: State<T>, e: Event<T>)
    requires Inv(q) && Enabled(q, e) && !e.action.Call?
    ensures var q', pc, pc' := Next(q, e), q.threads[e.thread], Next(q, e).threads[e.thread];
      && Inv(q') && q'.threads == q.threads[e.thread := pc']
      && (forall v :: PushingValue(pc, v) ==> PushingValue(pc', v))
      && (IsPopping(pc) ==> IsPopping(pc'))
      && (q'.enqueuePos != q.enqueuePos ==> pc.PushCas?)
      && q.dequeuePos <= q'.dequeuePos <= q'.enqueuePos
  {
    hide Next, PushingValue, IsPopping;
    NextInv(q, e);
    SameShape(q, e);
    AccessStaysInCall(q, e);
  }

  /** A second pop that fails proves the queue is drained. */
  lemma SecondPopDrained<T>(y: System<T>, m: Turn)
    requires SystemInv(y) && CanMove(y, m) && !m.move.Act? && y.done == y.producers
    requires After(y, m).queue.threads[m.thread] == PopReturned(None)
    ensures After(y, m).queue.enqueuePos == After(y, m).queue.dequeuePos
  {
    var q, t := y.queue, m.thread;
    assert ThreadInv(q, t);
    var pos := q.threads[t].pos;
    PopFailsExactlyWhenUnpublished(q, t, pos);
    if pos != q.enqueuePos {
      NobodyPushes(y, q.hist.pushers[pos]);
    }
  }

  lemma AccessKeepsInv<T>(y: System<T>, m: Turn)
    requires SystemInv(y) && CanMove(y, m) && !m.move.Act?
    ensures SystemInv(After(y, m))
  {
    var y', t := After(y, m), m.thread;
    AccessEffect(y.queue, Event(t, if m.move.Access? then Run else SpuriousFailure));
    assert Coupled(y.clients[t], y.queue.threads[t]);
    if y.done == y.producers { NobodyPushes(y, t); }
    forall u | 0 <= u < |y.clients| ensures Coupled(y'.clients[u], y'.queue.threads[u]) {
      assert Coupled(y.clients[u], y.queue.threads[u]);
    }
    forall u | 0 <= u < |y.clients| ensures Informed(y', u) {
      assert Informed(y, u);
      if u == t && y.clients[u].Consumer? && y.clients[u].consuming.InSecondPop? &&
         y'.queue.threads[u] == PopReturned(None) {
        SecondPopDrained(y, m);
      }
    }
  }

  /** What a client's own action does to its pair of client and thread. */
  lemma ActEffect<T>(y: System<T>, t: nat)
    requires SystemInv(y) && CanMove(y, Turn(t, Act))
    ensures var y' := After(y, Turn(t, Act));
      && |y'.clients| == |y.clients| && |y'.queue.threads| == |y.queue.threads|
      && y'.clients == y.clients[t := y'.clients[t]]
      && (y'.queue == y.queue || exists op :: y'.queue == Next(y.queue, Event(t, Call(op))))
      && y'.queue.threads == y.queue.threads[t := y'.queue.threads[t]]
      && y'.queue.enqueuePos == y.queue.enqueuePos && y'.queue.dequeuePos == y.queue.dequeuePos
      && y'.queue.hist == y.queue.hist
      && y'.producers == y.producers && y'.done >= y.done
      && Coupled(y'.clients[t], y'.queue.threads[t])
      && y'.done + One(IsUnfinished(y'.clients[t])) == y.done + One(IsUnfinished(y.clients[t]))
  {
    hide RunStep, SpuriousStep, Inv;
    assert Coupled(y.clients[t], y.queue.threads[t]);
    assert y.queue.threads[t := y.queue.threads[t]] == y.queue.threads;
  }

  lemma ActInforms<T>(y: System<T>, t: nat)
    requires SystemInv(y) && CanMove(y, Turn(t, Act))
    requires var y' := After(y, Turn(t, Act)); |y'.clients| == |y'.queue.threads| == |y.clients|
    ensures Informed(After(y, Turn(t, Act)), t)
  {
    hide RunStep, SpuriousStep, Inv;
    assert Informed(y, t) && Coupled(y.clients[t], y.queue.threads[t]);
    if y.clients[t].Producer? { ProducerStays(y, t); }
  }

  lemma ProducerStays<T>(y: System<T>, t: nat)
    requires CanMove(y, Turn(t, Act)) && y.clients[t].Producer?
    ensures After(y, Turn(t, Act)).clients[t].Producer?
  {
  }

  lemma ActKeepsInv<T>(y: System<T>, t: nat)
    requires SystemInv(y) && CanMove(y, Turn(t, Act))
    ensures SystemInv(After(y, Turn(t, Act)))
  {
    hide After, Next;
    var y' := After(y, Turn(t, Act));
    ActEffect(y, t);
    ActInforms(y, t);
    CountUpdate(y.clients, t, y'.clients[t], IsUnfinished);
    if y'.queue != y.queue {
      var op :| y'.queue == Next(y.queue, Event(t, Call(op)));
      NextInv(y.queue, Event(t, Call(op)));
    }
    forall u | 0 <= u < |y.clients| ensures Coupled(y'.clients[u], y'.queue.threads[u]) {
      assert Coupled(y.clients[u], y.queue.threads[u]);
    }
    forall u | 0 <= u < |y.clients| ensures Informed(y', u) {
      assert Informed(y, u);
    }
  }

  // Conservation, for any weight on items.

  predicate HoldsPushed<T>(pc: Pc<T>) {
    match pc
    case PushConstruct(_, _) => true
    case PushPublish(_, _) => true
    case PushReturned(ok) => ok
    case _ => false
  }

  /** The weight of a value a call has claimed and not yet handed over. */
  function HandWeight<T>(q: State<T>, pc: Pc<T>, w: T -> int): int {
    match pc
    case PopTake(pos) => if pos < |q.hist.pushed| then w(q.hist.pushed[pos]) else 0
    case PopDestroy(_, v) => w(v)
    case PopRelease(_, v) => w(v)
    case PopReturned(Some(v)) => w(v)
    case _ => 0
  }

  function InHand<T>(q: State<T>, c: Client<T>, pc: Pc<T>, w: T -> int): int {
    if InCall(c) then HandWeight(q, pc, w) else 0
  }

  /** How many of its items a producer has pushed. */
  function Claimed<T>(c: Client<T>, pc: Pc<T>): nat
    requires c.Producer?
  {
    c.next + One(InCall(c) && HoldsPushed(pc))
  }

  function PushedBy<T>(c: Client<T>, pc: Pc<T>, w: T -> int): int {
    if c.Producer? && Claimed(c, pc) <= |c.items| then Weight(c.items[..Claimed(c, pc)], w) else 0
  }

  function TakenBy<T>(q: State<T>, c: Client<T>, pc: Pc<T>, w: T -> int): int {
    (if c.Consumer? then Weight(c.got, w) else 0) + InHand(q, c, pc, w)
  }

  ghost function AllPushed<T>(y: System<T>, w: T -> int): seq<int>
    requires |y.clients| == |y.queue.threads|
  {
    seq(|y.clients|, t requires 0 <= t < |y.clients| => PushedBy(y.clients[t], y.queue.threads[t], w))
  }

  ghost function AllTaken<T>(y: System<T>, w: T -> int): seq<int>
    requires |y.clients| == |y.queue.threads|
  {
    seq(|y.clients|, t requires 0 <= t < |y.clients| => TakenBy(y.queue, y.clients[t], y.queue.threads[t], w))
  }

  /** Claimed tickets weigh what producers pushed; popped tickets weigh what consumers hold. */
  ghost predicate Balanced<T>(y: System<T>, w: T -> int)
    requires SystemInv(y)
  {
    && Sum(AllPushed(y, w)) == Weight(y.queue.hist.pushed, w)
    && Sum(AllTaken(y, w)) == Weight(y.queue.hist.pushed[..y.queue.dequeuePos], w)
  }

  /** Only the moving thread's shares change. */
  lemma SharesFrame<T>(y: System<T>, y': System<T>, t: nat, w: T -> int)
    requires SystemInv(y) && SystemInv(y') && t < |y.clients| == |y'.clients|
    requires y'.clients == y.clients[t := y'.clients[t]]
    requires y'.queue.threads == y.queue.threads[t := y'.queue.threads[t]]
    requires y.queue.hist.pushed <= y'.queue.hist.pushed
    ensures AllPushed(y', w) == AllPushed(y, w)[t := PushedBy(y'.clients[t], y'.queue.threads[t], w)]
    ensures AllTaken(y', w) == AllTaken(y, w)[t := TakenBy(y'.queue, y'.clients[t], y'.queue.threads[t], w)]
  {
    forall u | 0 <= u < |y.clients| && u != t
      ensures TakenBy(y'.queue, y'.clients[u], y'.queue.threads[u], w)
           == TakenBy(y.queue, y.clients[u], y.queue.threads[u], w)
    {
      assert ThreadInv(y.queue, u);
    }
  }

  /** It suffices that the moving thread's shares change as the tickets do. */
  lemma BalancedStep<T>(y: System<T>, y': System<T>, t: nat, w: T -> int)
    requires SystemInv(y) && SystemInv(y') && Balanced(y, w) && t < |y.clients| == |y'.clients|
    requires y'.clients == y.clients[t := y'.clients[t]]
    requires y'.queue.threads == y.queue.threads[t := y'.queue.threads[t]]
    requires y.queue.hist.pushed <= y'.queue.hist.pushed
    requires PushedBy(y'.clients[t], y'.queue.threads[t], w) - PushedBy(y.clients[t], y.queue.threads[t], w)
          == Weight(y'.queue.hist.pushed, w) - Weight(y.queue.hist.pushed, w)
    requires TakenBy(y'.queue, y'.clients[t], y'.queue.threads[t], w)
           - TakenBy(y.queue, y.clients[t], y.queue.threads[t], w)
          == Weight(y'.queue.hist.pushed[..y'.queue.dequeuePos], w)
           - Weight(y.queue.hist.pushed[..y.queue.dequeuePos], w)
    ensures Balanced(y', w)
  {
    SharesFrame(y, y', t, w);
    SumUpdate(AllPushed(y, w), t, PushedBy(y'.clients[t], y'.queue.threads[t], w));
    SumUpdate(AllTaken(y, w), t, TakenBy(y'.queue, y'.clients[t], y'.queue.threads[t], w));
  }

  lemma PushWinBalances<T>(y: System<T>, m: Turn, w: T -> int)
    requires SystemInv(y) && Balanced(y, w) && CanMove(y, m) && SystemInv(After(y, m)) && m.move.Access?
    requires PushWin(y.queue, Event(m.thread, Run))
    ensures Balanced(After(y, m), w)
  {
    var y', t, q := After(y, m), m.thread, y.queue;
    var c, v := y.clients[t], q.threads[t].value;
    assert Coupled(c, q.threads[t]);
    SameShape(q, Event(t, Run));
    WeightSnoc(q.hist.pushed, v, w);
    assert c.items[..c.next + 1] == c.items[..c.next] + [v];
    WeightSnoc(c.items[..c.next], v, w);
    assert y'.queue.hist.pushed[..q.dequeuePos] == q.hist.pushed[..q.dequeuePos];
    assert y'.clients == y.clients[t := c];
    BalancedStep(y, y', t, w);
  }

  lemma PopWinBalances<T>(y: System<T>, m: Turn, w: T -> int)
    requires SystemInv(y) && Balanced(y, w) && CanMove(y, m) && SystemInv(After(y, m)) && m.move.Access?
    requires PopWin(y.queue, Event(m.thread, Run))
    ensures Balanced(After(y, m), w)
  {
    var y', t, q := After(y, m), m.thread, y.queue;
    var pos := q.threads[t].pos;
    assert Coupled(y.clients[t], q.threads[t]);
    SameShape(q, Event(t, Run));
    assert ThreadInv(y'.queue, t);
    assert q.hist.pushed[..pos + 1] == q.hist.pushed[..pos] + [q.hist.pushed[pos]];
    WeightSnoc(q.hist.pushed[..pos], q.hist.pushed[pos], w);
    assert y'.clients == y.clients[t := y.clients[t]];
    BalancedStep(y, y', t, w);
  }

  /** An access that wins no ticket changes no history ... */
  lemma QuietHistory<T>(q: State<T>, e: Event<T>)
    requires Shape(q) && Enabled(q, e) && ThreadInv(q, e.thread) && e.thread < |Next(q, e).threads|
    requires !e.action.Call? && !PushWin(q, e) && !PopWin(q, e)
    ensures var q', pc, pc' := Next(q, e), q.threads[e.thread], Next(q, e).threads[e.thread];
      q'.hist.pushed == q.hist.pushed && q'.dequeuePos == q.dequeuePos && HoldsPushed(pc') == HoldsPushed(pc)
  {
  }

  /** ... and moves no value between queue and caller. */
  lemma QuietHand<T>(q: State<T>, e: Event<T>, w: T -> int)
    requires Shape(q) && Enabled(q, e) && ThreadInv(q, e.thread) && e.thread < |Next(q, e).threads|
    requires !e.action.Call? && !PushWin(q, e) && !PopWin(q, e)
    ensures HandWeight(Next(q, e), Next(q, e).threads[e.thread], w) == HandWeight(q, q.threads[e.thread], w)
  {
  }

  lemma OtherAccessBalances<T>(y: System<T>, m: Turn, w: T -> int)
    requires SystemInv(y) && Balanced(y, w) && CanMove(y, m) && !m.move.Act? && SystemInv(After(y, m))
    requires m.move.Access? ==>
      !PushWin(y.queue, Event(m.thread, Run)) && !PopWin(y.queue, Event(m.thread, Run))
    ensures Balanced(After(y, m), w)
  {
    hide RunStep, SpuriousStep, HoldsPushed, HandWeight;
    var y', t := After(y, m), m.thread;
    var e := Event(t, if m.move.Access? then Run else SpuriousFailure);
    assert ThreadInv(y.queue, t);
    SameShape(y.queue, e);
    QuietHistory(y.queue, e);
    QuietHand(y.queue, e, w);
    assert y'.clients == y.clients[t := y.clients[t]];
    BalancedStep(y, y', t, w);
  }

  lemma ProducerActBalances<T>(y: System<T>, t: nat, w: T -> int)
    requires SystemInv(y) && CanMove(y, Turn(t, Act)) && SystemInv(After(y, Turn(t, Act))) && Balanced(y, w)
    requires y.clients[t].Producer?
    ensures Balanced(After(y, Turn(t, Act)), w)
  {
    hide RunStep, SpuriousStep, Inv, SystemInv;
    var y', pc := ProducerActs(y, t), y.queue.threads[t];
    assert y.queue.threads[t := pc] == y.queue.threads;
    BalancedStep(y, y', t, w);
  }

  lemma ConsumerActBalances<T>(y: System<T>, t: nat, w: T -> int)
    requires SystemInv(y) && CanMove(y, Turn(t, Act)) && SystemInv(After(y, Turn(t, Act))) && Balanced(y, w)
    requires y.clients[t].Consumer?
    ensures Balanced(After(y, Turn(t, Act)), w)
  {
    hide RunStep, SpuriousStep, Inv, SystemInv;
    var y', c, pc := ConsumerActs(y, t), y.clients[t], y.queue.threads[t];
    if InCall(c) && pc.result.Some? {
      WeightSnoc(c.got, pc.result.value, w);
    }
    assert y.queue.threads[t := pc] == y.queue.threads;
    BalancedStep(y, y', t, w);
  }

  lemma MoveKeeps<T>(y: System<T>, m: Turn, w: T -> int)
    requires SystemInv(y) && Balanced(y, w) && CanMove(y, m)
    ensures SystemInv(After(y, m)) && Balanced(After(y, m), w)
  {
    if m.move.Act? {
      ActKeepsInv(y, m.thread);
      if y.clients[m.thread].Producer? {
        ProducerActBalances(y, m.thread, w);
      } else {
        ConsumerActBalances(y, m.thread, w);
      }
    } else {
      AccessKeepsInv(y, m);
      if m.move.Access? && PushWin(y.queue, Event(m.thread, Run)) {
        PushWinBalances(y, m, w);
      } else if m.move.Access? && PopWin(y.queue, Event(m.thread, Run)) {
        PopWinBalances(y, m, w);
      } else {
        OtherAccessBalances(y, m, w);
      }
    }
  }

  lemma {:induction false} ScheduleKeeps<T>(y: System<T>, ms: seq<Turn>, w: T -> int)
    requires SystemInv(y) && Balanced(y, w) && Schedulable(y, ms)
    ensures SystemInv(Outcome(y, ms)) && Balanced(Outcome(y, ms), w)
    decreases |ms|
  {
    if ms != [] {
      MoveKeeps(y, ms[0], w);
      ScheduleKeeps(After(y, ms[0]), ms[1..], w);
    }
  }

  // The whole run.

  /** Everything the consumers popped, and everything the producers were given to push. */
  function Gathered<T>(cs: seq<Client<T>>): seq<T> {
    if cs == [] then [] else (if cs[0].Consumer? then cs[0].got else []) + Gathered(cs[1..])
  }

  function Flatten<T>(work: seq<seq<T>>): seq<T> {
    if work == [] then [] else work[0] + Flatten(work[1..])
  }

  function Assigned<T>(cs: seq<Client<T>>): seq<T> {
    if cs == [] then [] else (if cs[0].Producer? then cs[0].items else []) + Assigned(cs[1..])
  }

  function GotWeights<T>(cs: seq<Client<T>>, w: T -> int): seq<int> {
    seq(|cs|, t requires 0 <= t < |cs| => if cs[t].Consumer? then Weight(cs[t].got, w) else 0)
  }

  function ItemWeights<T>(cs: seq<Client<T>>, w: T -> int): seq<int> {
    seq(|cs|, t requires 0 <= t < |cs| => if cs[t].Producer? then Weight(cs[t].items, w) else 0)
  }

  lemma {:induction false} GatheredWeight<T>(cs: seq<Client<T>>, w: T -> int)
    ensures Weight(Gathered(cs), w) == Sum(GotWeights(cs, w))
  {
    if cs != [] {
      GatheredWeight(cs[1..], w);
      assert GotWeights(cs, w)[1..] == GotWeights(cs[1..], w);
      WeightConcat(if cs[0].Consumer? then cs[0].got else [], Gathered(cs[1..]), w);
    }
  }

  lemma {:induction false} AssignedWeight<T>(cs: seq<Client<T>>, w: T -> int)
    ensures Weight(Assigned(cs), w) == Sum(ItemWeights(cs, w))
  {
    if cs != [] {
      AssignedWeight(cs[1..], w);
      assert ItemWeights(cs, w)[1..] == ItemWeights(cs[1..], w);
      WeightConcat(if cs[0].Producer? then cs[0].items else [], Assigned(cs[1..]), w);
    }
  }

  ghost predicate AllFinished<T>(y: System<T>) {
    forall t :: 0 <= t < |y.clients| ==> IsFinished(y.clients[t])
  }

  lemma FinishedBalance<T>(y: System<T>, w: T -> int)
    requires SystemInv(y) && Balanced(y, w) && AllFinished(y)
    requires exists t :: 0 <= t < |y.clients| && y.clients[t].Consumer?
    ensures Weight(Gathered(y.clients), w) == Weight(Assigned(y.clients), w)
  {
    var t :| 0 <= t < |y.clients| && y.clients[t].Consumer?;
    assert Informed(y, t);
    assert y.queue.hist.pushed[..y.queue.dequeuePos] == y.queue.hist.pushed;
    forall u | 0 <= u < |y.clients|
      ensures AllPushed(y, w)[u] == ItemWeights(y.clients, w)[u] && AllTaken(y, w)[u] == GotWeights(y.clients, w)[u]
    {
      var c := y.clients[u];
      assert Coupled(c, y.queue.threads[u]);
      if c.Producer? { assert c.items[..c.next] == c.items; }
    }
    assert AllPushed(y, w) == ItemWeights(y.clients, w);
    assert AllTaken(y, w) == GotWeights(y.clients, w);
    GatheredWeight(y.clients, w);
    AssignedWeight(y.clients, w);
  }

  lemma {:induction false} CountSplit<T>(s: seq<T>, k: nat, p: T -> bool)
    requires k <= |s|
    requires forall i :: 0 <= i < |s| ==> (p(s[i]) <==> i < k)
    ensures Count(s, p) == k
  {
    if s != [] {
      if k == 0 { CountZero(s, p); } else { CountSplit(s[1..], k - 1, p); }
    }
  }

  lemma StartBalanced<T>(cap: nat, work: seq<seq<T>>, consumers: nat, w: T -> int)
    requires cap >= 2
    ensures SystemInv(Start(cap, work, consumers)) && Balanced(Start(cap, work, consumers), w)
  {
    var y := Start(cap, work, consumers);
    InitInv<T>(cap, |work| + consumers);
    CountSplit(y.clients, |work|, IsUnfinished);
    SumZero(AllPushed(y, w));
    SumZero(AllTaken(y, w));
  }

  /** Clients keep their role and producers their items. */
  ghost predicate SameRoles<T>(cs: seq<Client<T>>, cs': seq<Client<T>>) {
    |cs| == |cs'| && forall t :: 0 <= t < |cs| ==>
      (cs[t].Producer? <==> cs'[t].Producer?) && (cs[t].Producer? ==> cs[t].items == cs'[t].items)
  }

  lemma {:induction false} RolesKept<T>(y: System<T>, ms: seq<Turn>)
    requires Schedulable(y, ms)
    ensures SameRoles(y.clients, Outcome(y, ms).clients)
    decreases |ms|
  {
    if ms != [] {
      assert SameRoles(y.clients, After(y, ms[0]).clients);
      RolesKept(After(y, ms[0]), ms[1..]);
    }
  }

  lemma {:induction false} SameAssigned<T>(cs: seq<Client<T>>, cs': seq<Client<T>>)
    requires SameRoles(cs, cs')
    ensures Assigned(cs) == Assigned(cs')
  {
    if cs != [] { SameAssigned(cs[1..], cs'[1..]); }
  }

  lemma {:induction false} AssignedWork<T>(cs: seq<Client<T>>, work: seq<seq<T>>)
    requires |work| <= |cs|
    requires forall t :: 0 <= t < |cs| ==> (cs[t].Producer? <==> t < |work|)
    requires forall t :: 0 <= t < |work| ==> cs[t].items == work[t]
    ensures Assigned(cs) == Flatten(work)
  {
    if cs != [] {
      AssignedWork(cs[1..], if work == [] then [] else work[1..]);
    }
  }

  /** For every way of weighing items, the consumers together gathered what the producers were given. */
  lemma {:induction false} WeightConserved<T>(cap: nat, work: seq<seq<T>>, consumers: nat, ms: seq<Turn>, w: T -> int)
    requires cap >= 2 && consumers > 0 && Schedulable(Start(cap, work, consumers), ms)
    requires AllFinished(Outcome(Start(cap, work, consumers), ms))
    ensures Weight(Gathered(Outcome(Start(cap, work, consumers), ms).clients), w) == Weight(Flatten(work), w)
  {
    var y0 := Start(cap, work, consumers);
    var y := Outcome(y0, ms);
    StartBalanced(cap, work, consumers, w);
    ScheduleKeeps(y0, ms, w);
    RolesKept(y0, ms);
    assert y0.clients[|work|].Consumer? && y.clients[|work|].Consumer?;
    FinishedBalance(y, w);
    SameAssigned(y0.clients, y.clients);
    AssignedWork(y0.clients, work);
  }

  /**
   Conservation: for any capacity of at least two, any producers' items, any positive number of
   consumers and any schedule in which every client finishes, the consumers together hold exactly
   the items the producers were given, each exactly as often.
   */
  lemma {:induction false} ClientsConserve<T(!new)>(cap: nat, work: seq<seq<T>>, consumers: nat, ms: seq<Turn>)
    requires cap >= 2 && consumers > 0 && Schedulable(Start(cap, work, consumers), ms)
    requires AllFinished(Outcome(Start(cap, work, consumers), ms))
    ensures multiset(Gathered(Outcome(Start(cap, work, consumers), ms).clients)) == multiset(Flatten(work))
  {
    var got := Gathered(Outcome(Start(cap, work, consumers), ms).clients);
    forall v: T ensures multiset(got)[v] == multiset(Flatten(work))[v] {
      Multiplicity(got, v);
      Multiplicity(Flatten(work), v);
      WeightConserved(cap, work, consumers, ms, Indicator(v));
    }
  }

  // The figures the test checks.

  function UpTo(n: nat): seq<int> { seq(n, i => i + 1) }

  /** The `items` values after `base`. */
  function Range(base: nat, items: nat): seq<int> { seq(items, i => base + i + 1) }

  /** Producer `p` of the test pushes the `items` values after `p * items`. */
  function TestWork(producers: nat, items: nat): seq<seq<int>> {
    seq(producers, p requires 0 <= p => Range(p * items, items))
  }

  lemma {:induction false} FlattenSnoc<T>(work: seq<seq<T>>, l: seq<T>)
    ensures Flatten(work + [l]) == Flatten(work) + l
  {
    if work == [] {
      assert work + [l] == [l] && Flatten([l]) == l + Flatten<T>([]);
    } else {
      assert (work + [l])[1..] == work[1..] + [l];
      FlattenSnoc(work[1..], l);
    }
  }

  lemma LastProducer(p: nat, items: nat)
    ensures TestWork(p + 1, items) == TestWork(p, items) + [Range(p * items, items)]
  {
  }

  lemma UpToExtends(base: nat, items: nat)
    ensures UpTo(base + items) == UpTo(base) + Range(base, items)
  {
  }

  lemma OneMoreTime(p: nat, items: nat)
    ensures (p + 1) * items == p * items + items
  {
  }

  lemma {:induction false} TestWorkIsUpTo(producers: nat, items: nat)
    ensures Flatten(TestWork(producers, items)) == UpTo(producers * items)
  {
    if producers > 0 {
      hide UpTo, Range, TestWork, Flatten;
      var p := producers - 1;
      var base := p * items;
      TestWorkIsUpTo(p, items);
      LastProducer(p, items);
      FlattenSnoc(TestWork(p, items), Range(base, items));
      OneMoreTime(p, items);
      UpToExtends(base, items);
    }
  }

  lemma {:induction false} UpToFigures(n: nat)
    ensures Weight(UpTo(n), (x: int) => 1) == n
    ensures 2 * Weight(UpTo(n), (x: int) => x) == n * (n + 1)
  {
    if n > 0 {
      UpToFigures(n - 1);
      assert UpTo(n) == UpTo(n - 1) + [n];
      WeightSnoc(UpTo(n - 1), n, (x: int) => 1);
      WeightSnoc(UpTo(n - 1), n, (x: int) => x);
    }
  }

  lemma {:induction false} WeightOfOnes(s: seq<int>)
    ensures Weight(s, (x: int) => 1) == |s|
  {
    if s != [] { WeightOfOnes(s[1..]); }
  }

  /** The test's final assertions: N items consumed, adding up to N(N+1)/2, for any sizes. */
  lemma {:induction false} TestFigures(cap: nat, producers: nat, items: nat, consumers: nat, ms: seq<Turn>)
    requires cap >= 2 && consumers > 0
    requires Schedulable(Start(cap, TestWork(producers, items), consumers), ms)
    requires AllFinished(Outcome(Start(cap, TestWork(producers, items), consumers), ms))
    ensures var got := Gathered(Outcome(Start(cap, TestWork(producers, items), consumers), ms).clients);
      var n := producers * items;
      |got| == n && 2 * Weight(got, (x: int) => x) == n * (n + 1)
  {
    hide UpTo, TestWork, Gathered, Flatten, Weight, Schedulable, Outcome, AllFinished;
    var got := Gathered(Outcome(Start(cap, TestWork(producers, items), consumers), ms).clients);
    TestWorkIsUpTo(producers, items);
    UpToFigures(producers * items);
    WeightConserved(cap, TestWork(producers, items), consumers, ms, (x: int) => 1);
    WeightConserved(cap, TestWork(producers, items), consumers, ms, (x: int) => x);
    WeightOfOnes(got);
  }
}
