/**
 * The whole daemon: the Bluetooth thread receives packets into its one buffer and queues copies, the
 * LIRC thread dequeues them, handles keys, repeats and broadcasts, and the main thread accepts
 * clients. Module Monitor gives the queue, Sessions the clients, LircThr the key logic; here their
 * steps are interleaved in every possible way.
 */
module Daemon {
  import opened Prelude
  import opened RingQueue
  import opened KeyDef
  import opened LircLine
  import opened LircUtil
  import opened LircThr
  import opened KeyTrace
  import opened LircSrv
  import M = Monitor
  import S = Sessions

  /** Thread 0 of the queue is the Bluetooth thread, thread 1 the LIRC thread. */
  const KINDS: seq<M.Kind> := [M.Producer, M.TimedConsumer]

  /** Where the Bluetooth thread is in readFromSocket. */
  datatype Capture =
    | Polling     // waiting for data
    | Filled      // recv has filled the buffer
    | InDataInd   // queueing a copy of it

  /** Where the LIRC thread is in its loop. */
  datatype Turn =
    | AtHead
    | InQueue                                     // in queueRemNonBlock
    | InHandleKey(packet: bytes, sent: bool)      // `sent`: its line, if any, was given to broadcastToLirc
    | Freed(packet: bytes)                        // before initTime
    | Counting(dequeued: Option<bytes>, reset: Time)
    | Repeating                                   // the last event of the log is a repeat not yet broadcast
    | Dead                                        // indexed the key table out of range

  datatype State = State(
    queue: M.State,
    clients: S.State,
    buffer: bytes,           // what recv left in the buffer
    received: seq<bytes>,    // all that recv ever delivered
    capture: Capture,
    start: Time,
    iters: seq<Iter>,        // the completed iterations of the LIRC loop
    turn: Turn)

  datatype Action =
    | Recv(packet: bytes)
    | CallDataInd
    | ReturnDataInd
    | Queue(q: M.Action)
    | CallDequeue
    | GotPacket
    | GotNothing
    | SendKey
    | FreePacket
    | ResetTimer(now: Time)
    | CountTime(now: Time)
    | SendRepeat
    | Client(c: S.Action)

  /** The LIRC thread's state at its loop head. */
  function Base(cfg: Config, d: State): (m: Machine)
    ensures m.Ok()
  {
    Run(cfg, Start(cfg, d.start), d.iters)
  }

  /** The line that a call of handleKey or the repeat branch broadcasts, if any. */
  function LineOf(cfg: Config, e: KeyEvent): (r: Option<string>)
    ensures r.Some? ==> r.value != ""
  {
    var out := Render(cfg, e);
    if out != [] && out[0].Broadcast? && out[0].line != "" then Some(out[0].line) else None
  }

  function LineOpt(cfg: Config, e: Option<KeyEvent>): Option<string> {
    if e.Some? then LineOf(cfg, e.value) else None
  }

  /** What handleKey makes of the packet. */
  function KeyEventOf(m: Machine, packet: bytes): Option<KeyEvent>
    requires m.Ok()
  {
    HandleKeyStep(m.keys, packet).1
  }

  /** Give a line to broadcastToLirc; `turn` is where the thread goes on unless the assertion there fails. */
  function Send(d: State, line: Option<string>, turn: Turn): State
    requires line.Some? ==> S.Enabled(d.clients, S.Broadcast(line.value))
  {
    if line.None? then d.(turn := turn)
    else
      var c := S.Step(d.clients, S.Broadcast(line.value));
      d.(clients := c, turn := if c.aborted then d.turn else turn)
  }

  predicate CanSend(d: State, line: Option<string>) {
    line.Some? ==> S.Enabled(d.clients, S.Broadcast(line.value))
  }

  ghost predicate Enabled(cfg: Config, d: State, a: Action) {
    && !d.clients.aborted
    && |d.queue.threads| == 2
    && match a
       case Recv(packet) => d.capture.Polling? && packet != []
       case CallDataInd => d.capture.Filled? && M.Enabled(d.queue, M.Produce(0, d.buffer))
       case ReturnDataInd => d.capture.InDataInd? && d.queue.threads[0].phase.Idle?
       case Queue(q) => !q.Produce? && !q.Consume? && !q.Free? && M.Enabled(d.queue, q)
       case CallDequeue => d.turn.AtHead? && d.clients.lirc.Quiet? && M.Enabled(d.queue, M.Consume(1))
       case GotPacket =>
         && d.turn.InQueue? && d.queue.threads[1].phase.Using?
         && d.queue.threads[1].held.Some? && d.queue.threads[1].held.value < |d.queue.data|
       case GotNothing => d.turn.InQueue? && d.queue.threads[1].phase.Idle?
       case SendKey =>
         d.turn.InHandleKey? && !d.turn.sent && CanSend(d, LineOpt(cfg, KeyEventOf(Base(cfg, d), d.turn.packet)))
       case FreePacket =>
         d.turn.InHandleKey? && d.turn.sent && d.clients.lirc.Quiet? && M.Enabled(d.queue, M.Free(1))
       case ResetTimer(now) => d.turn.Freed? && NotBefore(now, ClockAt(d.start, d.iters))
       case CountTime(now) =>
         d.turn.Counting? &&
         NotBefore(now, if d.turn.dequeued.Some? then d.turn.reset else ClockAt(d.start, d.iters))
       case SendRepeat =>
         d.turn.Repeating? && Base(cfg, d).log != [] && CanSend(d, LineOf(cfg, LastEvent(cfg, d)))
       case Client(c) => !c.Broadcast? && S.Enabled(d.clients, c)
  }

  /** The repeat that an iteration ends with, if any. */
  function RepeatOf(cfg: Config, m: Machine, it: Iter): Option<KeyEvent>
    requires m.Ok()
  {
    RepeatStep(cfg, Counted(cfg, m, it).keys, it.update).1
  }

  /** The thread when an iteration comes to count time. */
  function Counted(cfg: Config, m: Machine, it: Iter): (m': Machine)
    requires m.Ok()
    ensures m'.Ok()
  {
    if it.packet.Some? then Dequeued(cfg, m, it.packet.value, it.reset) else m
  }

  /** The end of an iteration: at the loop head, about to broadcast a repeat, or out of the key table. */
  function EndIteration(cfg: Config, d: State, it: Iter): State {
    var d' := d.(iters := d.iters + [it]);
    d'.(turn := if Base(cfg, d').faulted then Dead
                else if RepeatOf(cfg, Base(cfg, d), it).Some? then Repeating else AtHead)
  }

  /** The repeat that the last iteration ended with. */
  function LastEvent(cfg: Config, d: State): KeyEvent
    requires Base(cfg, d).log != []
  {
    var log := Base(cfg, d).log;
    log[|log| - 1]
  }

  function Step(cfg: Config, d: State, a: Action): State
    requires Enabled(cfg, d, a)
  {
    match a
    case Recv(packet) => d.(buffer := packet, received := d.received + [packet], capture := Filled)
    case CallDataInd => d.(queue := M.Step(d.queue, M.Produce(0, d.buffer)), capture := InDataInd)
    case ReturnDataInd => d.(capture := Polling)
    case Queue(q) => d.(queue := M.Step(d.queue, q))
    case CallDequeue => d.(queue := M.Step(d.queue, M.Consume(1)), turn := InQueue)
    case GotPacket => d.(turn := InHandleKey(d.queue.data[d.queue.threads[1].held.value], false))
    case GotNothing => d.(turn := Counting(None, d.start))
    case SendKey =>
      Send(d, LineOpt(cfg, KeyEventOf(Base(cfg, d), d.turn.packet)), InHandleKey(d.turn.packet, true))
    case FreePacket => d.(queue := M.Step(d.queue, M.Free(1)), turn := Freed(d.turn.packet))
    case ResetTimer(now) => d.(turn := Counting(Some(d.turn.packet), now))
    case CountTime(now) => EndIteration(cfg, d, Iter(d.turn.dequeued, d.turn.reset, now))
    case SendRepeat => Send(d, LineOf(cfg, LastEvent(cfg, d)), AtHead)
    case Client(c) => d.(clients := S.Step(d.clients, c))
  }

  ghost predicate Init(d: State, capacity: nat) {
    && M.Init(d.queue, KINDS, capacity) && capacity > 0
    && d.clients == S.INIT && d.received == [] && d.capture.Polling? && d.iters == [] && d.turn.AtHead?
  }

  ghost predicate IsRun(cfg: Config, d: State, run: seq<Action>)
    decreases |run|
  {
    run == [] || (Enabled(cfg, d, run[0]) && IsRun(cfg, Step(cfg, d, run[0]), run[1..]))
  }

  ghost function Exec(cfg: Config, d: State, run: seq<Action>): State
    requires IsRun(cfg, d, run)
    decreases |run|
  {
    if run == [] then d else Exec(cfg, Step(cfg, d, run[0]), run[1..])
  }

  // ---- One producer, one consumer: packets go through the queue in the order of their numbers ------

  ghost predicate Ordered(q: M.State) {
    && |q.threads| == 2 && q.threads[0].kind.Producer? && q.threads[1].kind.TimedConsumer?
    && |q.added| + (if q.threads[0].held.Some? then 1 else 0) == |q.data|
    && (q.threads[0].held.Some? ==> q.threads[0].held.value == |q.data| - 1)
    && (forall i :: 0 <= i < |q.added| ==> q.added[i] == i)
    && |q.removed| <= |q.added|
    && (q.threads[1].held.Some? ==> |q.removed| > 0 && q.threads[1].held.value == |q.removed| - 1)
  }

  lemma RemovedIsNext(q: M.State)
    requires M.Inv(q, KINDS) && Ordered(q) && M.Enabled(q, M.Remove(1))
    ensures q.ring.buf[q.ring.head] == |q.removed| < |q.added|
  {
    TakeRefinesDequeue(q.ring);
    assert q.added == q.removed + q.ring.Contents();
    assert q.added[|q.removed|] == q.ring.Contents()[0];
  }

  lemma OrderedKept(q: M.State, a: M.Action)
    requires M.Inv(q, KINDS) && Ordered(q) && M.Enabled(q, a)
    ensures Ordered(M.Step(q, a))
  {
    hide M.NoLostSlot, M.NoLostItem, M.Owned, Ring.Contents, Ring.Count, M.SignalsSuffice;
    if a.Remove? {
      assert a.t == 1;
      RemovedIsNext(q);
    } else if a.Add? || a.Produce? {
      assert a.t == 0;
    }
  }

  /** The queue steps that are not tied to the rest of the daemon leave idle and using threads alone. */
  lemma QueueStep(q: M.State, a: M.Action)
    requires M.Inv(q, KINDS) && Ordered(q) && M.Enabled(q, a) && !a.Produce? && !a.Consume? && !a.Free?
    ensures var q' := M.Step(q, a);
            && q'.data == q.data && |q'.threads| == 2 && |q'.removed| <= |q'.data|
            && |q'.removed| - (if q'.threads[1].held.Some? then 1 else 0)
               == |q.removed| - (if q.threads[1].held.Some? then 1 else 0)
            && (forall t :: 0 <= t < 2 && (q.threads[t].phase.Idle? || q.threads[t].phase.Using?) ==>
                  q'.threads[t] == q.threads[t])
            && (q.threads[1].phase.Idle? || q.threads[1].phase.Using? ==> q'.removed == q.removed)
  {
    hide M.NoLostSlot, M.NoLostItem, M.Owned, M.Fifo, M.SignalsSuffice, Ring.Contents, Ring.Count;
    OrderedKept(q, a);
    if a.Remove? {
      assert a.t == 1;
    }
  }

  // ---- What every step of the daemon keeps --------------------------------------------------------

  /** Everything received went into the queue in order, in spite of the single buffer. */
  ghost predicate CaptureFlow(q: M.State, received: seq<bytes>, buffer: bytes, capture: Capture) {
    |q.threads| == 2 &&
    match capture
    case Polling => received == q.data && q.threads[0].phase.Idle?
    case Filled => received == q.data + [buffer] && q.threads[0].phase.Idle?
    case InDataInd => received == q.data
  }

  /** Of the packets removed from the queue, the LIRC thread has finished those of `done`. */
  ghost predicate LircFlow(q: M.State, done: seq<bytes>, turn: Turn) {
    && |q.threads| == 2 && |q.removed| <= |q.data|
    && var lirc, n := q.threads[1], |q.removed|;
       match turn
       case InQueue => if lirc.held.Some? then n > 0 && done == q.data[..n - 1] else done == q.data[..n]
       case InHandleKey(p, _) => lirc.phase.Using? && lirc.held.Some? && done + [p] == q.data[..n]
       case Freed(p) => lirc.phase.Idle? && done + [p] == q.data[..n]
       case Counting(dequeued, _) =>
         lirc.phase.Idle? && (if dequeued.Some? then done + [dequeued.value] else done) == q.data[..n]
       case _ => lirc.phase.Idle? && done == q.data[..n]
  }

  ghost predicate ClockFlow(cfg: Config, start: Time, iters: seq<Iter>, turn: Turn) {
    && ClockOk(start, iters)
    && FaultsAtMostLast(cfg, Start(cfg, start), iters)
    && var m := Run(cfg, Start(cfg, start), iters);
       && (turn.Dead? <==> m.faulted)
       && (turn.Counting? && turn.dequeued.Some? ==> NotBefore(turn.reset, ClockAt(start, iters)))
       && (turn.Repeating? ==> m.log != [] && m.log[|m.log| - 1].Repeat?)
  }

  /** The events of the LIRC thread whose lines, if they have one, were given to broadcastToLirc. */
  function Emitted(m: Machine, turn: Turn): seq<KeyEvent>
    requires m.Ok()
  {
    match turn
    case InHandleKey(p, sent) => if sent then m.log + Events(KeyEventOf(m, p)) else m.log
    case Freed(p) => m.log + Events(KeyEventOf(m, p))
    case Counting(dequeued, _) =>
      if dequeued.Some? then m.log + Events(KeyEventOf(m, dequeued.value)) else m.log
    case Repeating => if m.log != [] then m.log[..|m.log| - 1] else []
    case _ => m.log
  }

  /** The line that is past the assertion of broadcastToLirc but not begun. */
  function InFlight(c: S.State): seq<string> {
    if c.lirc.Waiting? then [c.lirc.line] else []
  }

  ghost predicate LineFlow(cfg: Config, log: seq<KeyEvent>, c: S.State) {
    LinesIn(RenderAll(cfg, log)) == c.lines + InFlight(c)
  }

  ghost predicate Inv(cfg: Config, capacity: nat, d: State) {
    && M.Reachable(d.queue, KINDS, capacity) && S.Reachable(d.clients) && Ordered(d.queue)
    && CaptureFlow(d.queue, d.received, d.buffer, d.capture)
    && LircFlow(d.queue, Packets(d.iters), d.turn)
    && ClockFlow(cfg, d.start, d.iters, d.turn)
    && LineFlow(cfg, Emitted(Base(cfg, d), d.turn), d.clients)
  }

  /** What is given to broadcastToLirc for an event is the line among its outputs. */
  lemma LineIsRendered(cfg: Config, e: KeyEvent)
    ensures LinesIn(Render(cfg, e)) == if LineOf(cfg, e).Some? then [LineOf(cfg, e).value] else []
  {
    hide Line, KeyAt, NameOf, LinesIn;
    var out := Render(cfg, e);
    NoOut();
    if |out| == 2 {
      assert out == [out[0], out[1]] && !out[1].Broadcast?;
      PairOut(out[0], out[1]);
    } else if |out| == 1 {
      assert out == [out[0]];
      OneOut(out[0]);
    } else {
      assert out == [];
    }
  }

  lemma LinesSnoc(cfg: Config, log: seq<KeyEvent>, e: KeyEvent)
    ensures LinesIn(RenderAll(cfg, log + [e]))
         == LinesIn(RenderAll(cfg, log)) + if LineOf(cfg, e).Some? then [LineOf(cfg, e).value] else []
  {
    hide LineOf, Render;
    RenderSnoc(cfg, log, e);
    LinesConcat(RenderAll(cfg, log), Render(cfg, e));
    LineIsRendered(cfg, e);
  }

  lemma LinesEvents(cfg: Config, log: seq<KeyEvent>, e: Option<KeyEvent>)
    ensures LinesIn(RenderAll(cfg, log + Events(e)))
         == LinesIn(RenderAll(cfg, log)) + if LineOpt(cfg, e).Some? then [LineOpt(cfg, e).value] else []
  {
    if e.Some? {
      LinesSnoc(cfg, log, e.value);
    } else {
      assert log + Events(e) == log;
    }
  }

  lemma PartsStart(q: M.State, capacity: nat)
    requires M.Init(q, KINDS, capacity)
    ensures M.Reachable(q, KINDS, capacity) && S.Reachable(S.INIT)
  {
    hide M.Init;
    assert M.IsRun(q, []) && M.Exec(q, []) == q;
    assert S.IsRun(S.INIT, []) && S.Exec(S.INIT, []) == S.INIT;
  }

  lemma InitInv(cfg: Config, capacity: nat, d: State)
    requires Init(d, capacity)
    ensures Inv(cfg, capacity, d)
  {
    PartsStart(d.queue, capacity);
    hide M.Reachable, S.Reachable, LineOf, Ring.Valid;
    LinesSnoc(cfg, [], Reset(d.start));
    assert [] + [Reset(d.start)] == [Reset(d.start)];
    NoLineForReset(cfg, d.start);
  }

  lemma NoLineForReset(cfg: Config, t: Time)
    ensures LineOf(cfg, Reset(t)) == None
  {
  }

  // The queue.

  /** One step of the queue by itself. */
  lemma QueueSteps(q: M.State, capacity: nat, a: M.Action)
    requires M.Reachable(q, KINDS, capacity) && Ordered(q) && M.Enabled(q, a)
    ensures M.Reachable(M.Step(q, a), KINDS, capacity) && Ordered(M.Step(q, a))
  {
    M.ReachableInv(q, KINDS, capacity);
    M.ReachableStep(q, KINDS, capacity, a);
    OrderedKept(q, a);
  }

  lemma RecvKept(cfg: Config, capacity: nat, d: State, packet: bytes)
    requires Inv(cfg, capacity, d) && Enabled(cfg, d, Recv(packet))
    ensures Inv(cfg, capacity, Step(cfg, d, Recv(packet)))
  {
    hide M.Reachable, S.Reachable, Ordered, LircFlow, ClockFlow, LineFlow, Emitted, Run, Packets;
  }

  lemma ReturnKept(cfg: Config, capacity: nat, d: State)
    requires Inv(cfg, capacity, d) && Enabled(cfg, d, ReturnDataInd)
    ensures Inv(cfg, capacity, Step(cfg, d, ReturnDataInd))
  {
    hide M.Reachable, S.Reachable, Ordered, LircFlow, ClockFlow, LineFlow, Emitted, Run, Packets;
  }

  /** More packets in the queue do not concern the LIRC thread. */
  lemma LircIgnoresAdds(q: M.State, q': M.State, done: seq<bytes>, turn: Turn)
    requires LircFlow(q, done, turn) && |q'.threads| == 2 && q'.threads[1] == q.threads[1]
    requires q'.removed == q.removed && q.data <= q'.data
    ensures LircFlow(q', done, turn)
  {
    var n := |q.removed|;
    assert q'.data[..n] == q.data[..n];
    assert n > 0 ==> q'.data[..n - 1] == q.data[..n - 1];
  }

  lemma DataIndKept(cfg: Config, capacity: nat, d: State)
    requires Inv(cfg, capacity, d) && Enabled(cfg, d, CallDataInd)
    ensures Inv(cfg, capacity, Step(cfg, d, CallDataInd))
  {
    hide M.Reachable, S.Reachable, Ordered, LircFlow, ClockFlow, LineFlow, Emitted, Run, Packets;
    QueueSteps(d.queue, capacity, M.Produce(0, d.buffer));
    LircIgnoresAdds(d.queue, M.Step(d.queue, M.Produce(0, d.buffer)), Packets(d.iters), d.turn);
  }

  lemma CaptureIgnoresRemoves(q: M.State, q': M.State, received: seq<bytes>, buffer: bytes, capture: Capture)
    requires CaptureFlow(q, received, buffer, capture) && |q'.threads| == 2 && q'.data == q.data
    requires q.threads[0].phase.Idle? ==> q'.threads[0] == q.threads[0]
    ensures CaptureFlow(q', received, buffer, capture)
  {
  }

  lemma LircAgrees(q: M.State, q': M.State, done: seq<bytes>, turn: Turn)
    requires LircFlow(q, done, turn) && |q'.threads| == 2 && q'.data == q.data && |q'.removed| <= |q'.data|
    requires |q'.removed| - (if q'.threads[1].held.Some? then 1 else 0)
          == |q.removed| - (if q.threads[1].held.Some? then 1 else 0)
    requires q.threads[1].phase.Idle? || q.threads[1].phase.Using? ==>
               q'.threads[1] == q.threads[1] && q'.removed == q.removed
    ensures LircFlow(q', done, turn)
  {
  }

  lemma QueueFlows(d: State, capacity: nat, a: M.Action)
    requires M.Reachable(d.queue, KINDS, capacity) && Ordered(d.queue) && M.Enabled(d.queue, a)
    requires !a.Produce? && !a.Consume? && !a.Free?
    requires CaptureFlow(d.queue, d.received, d.buffer, d.capture) && LircFlow(d.queue, Packets(d.iters), d.turn)
    ensures CaptureFlow(M.Step(d.queue, a), d.received, d.buffer, d.capture)
    ensures LircFlow(M.Step(d.queue, a), Packets(d.iters), d.turn)
  {
    hide M.Reachable, M.Inv, M.Step, M.Enabled, Packets, Ordered, CaptureFlow, LircFlow;
    M.ReachableInv(d.queue, KINDS, capacity);
    QueueStep(d.queue, a);
    CaptureIgnoresRemoves(d.queue, M.Step(d.queue, a), d.received, d.buffer, d.capture);
    LircAgrees(d.queue, M.Step(d.queue, a), Packets(d.iters), d.turn);
  }

  lemma QueueKept(cfg: Config, capacity: nat, d: State, a: M.Action)
    requires Inv(cfg, capacity, d) && Enabled(cfg, d, Queue(a))
    ensures Inv(cfg, capacity, Step(cfg, d, Queue(a)))
  {
    hide M.Reachable, S.Reachable, M.Step, M.Enabled, Ordered, CaptureFlow, LircFlow, ClockFlow, LineFlow, Emitted,
      Run, Packets;
    QueueSteps(d.queue, capacity, a);
    QueueFlows(d, capacity, a);
  }

  /** An idle consumer holds no packet, and a using one holds the last one removed. */
  lemma NotHolding(q: M.State, capacity: nat)
    requires M.Reachable(q, KINDS, capacity)
    ensures |q.threads| == 2
    ensures q.threads[1].phase.Idle? ==> q.threads[1].held.None?
    ensures q.threads[1].phase.Using? ==> q.threads[1].held.Some?
  {
    M.ReachableInv(q, KINDS, capacity);
    assert M.ThreadOk(q.owner, q.threads[1], 1);
  }

  lemma CallDequeueKept(cfg: Config, capacity: nat, d: State)
    requires Inv(cfg, capacity, d) && Enabled(cfg, d, CallDequeue)
    ensures Inv(cfg, capacity, Step(cfg, d, CallDequeue))
  {
    hide M.Reachable, S.Reachable, Ordered, ClockOk, LineFlow, Run, Packets, FaultsAtMostLast;
    QueueSteps(d.queue, capacity, M.Consume(1));
    NotHolding(d.queue, capacity);
  }

  lemma GotPacketKept(cfg: Config, capacity: nat, d: State)
    requires Inv(cfg, capacity, d) && Enabled(cfg, d, GotPacket)
    ensures Inv(cfg, capacity, Step(cfg, d, GotPacket))
  {
    hide M.Reachable, S.Reachable, CaptureFlow, ClockOk, LineFlow, Run, Packets;
    var q, n := d.queue, |d.queue.removed|;
    assert q.data[..n] == q.data[..n - 1] + [q.data[n - 1]];
  }

  lemma GotNothingKept(cfg: Config, capacity: nat, d: State)
    requires Inv(cfg, capacity, d) && Enabled(cfg, d, GotNothing)
    ensures Inv(cfg, capacity, Step(cfg, d, GotNothing))
  {
    hide M.Reachable, S.Reachable, Ordered, CaptureFlow, ClockOk, LineFlow, Run, Packets;
    NotHolding(d.queue, capacity);
  }

  lemma FreePacketKept(cfg: Config, capacity: nat, d: State)
    requires Inv(cfg, capacity, d) && Enabled(cfg, d, FreePacket)
    ensures Inv(cfg, capacity, Step(cfg, d, FreePacket))
  {
    hide M.Reachable, S.Reachable, Ordered, ClockOk, LineFlow, Run, Packets, KeyEventOf;
    QueueSteps(d.queue, capacity, M.Free(1));
  }

  // The clock.

  lemma ResetTimerKept(cfg: Config, capacity: nat, d: State, now: Time)
    requires Inv(cfg, capacity, d) && Enabled(cfg, d, ResetTimer(now))
    ensures Inv(cfg, capacity, Step(cfg, d, ResetTimer(now)))
  {
    hide M.Reachable, S.Reachable, Ordered, CaptureFlow, ClockOk, LineFlow, Run, Packets, KeyEventOf;
  }

  /** Timer restarts have no line. */
  lemma CountedLines(cfg: Config, m: Machine, it: Iter)
    requires m.Ok()
    ensures LinesIn(RenderAll(cfg, Counted(cfg, m, it).log))
         == LinesIn(RenderAll(cfg, Emitted(m, Counting(it.packet, it.reset))))
  {
    hide LinesIn, RenderAll, HandleKeyStep;
    if it.packet.Some? && cfg.repeatEnabled {
      var log := m.log + Events(KeyEventOf(m, it.packet.value));
      LinesSnoc(cfg, log, Reset(it.reset));
      assert LinesIn(RenderAll(cfg, log + [Reset(it.reset)])) == LinesIn(RenderAll(cfg, log));
    }
  }

  /** An iteration ends with at most one repeat, which is not broadcast yet. */
  lemma CountedEmits(cfg: Config, m: Machine, it: Iter, turn: Turn)
    requires m.Ok() && !m.faulted
    requires var m' := Iterate(cfg, m, it);
             turn == if m'.faulted then Dead else if RepeatOf(cfg, m, it).Some? then Repeating else AtHead
    ensures Emitted(Iterate(cfg, m, it), turn) == Counted(cfg, m, it).log
    ensures turn.Repeating? ==> var log := Iterate(cfg, m, it).log; log != [] && log[|log| - 1].Repeat?
  {
    hide Dequeued;
    var n := Counted(cfg, m, it);
    var e := RepeatOf(cfg, m, it);
    assert Iterate(cfg, m, it).log == if e.Some? then n.log + [e.value] else n.log;
    assert (RepeatStep(cfg, n.keys, it.update).2) ==> e.None?;
    assert e.Some? ==> (n.log + [e.value])[..|n.log|] == n.log;
  }

  lemma PacketsSnoc(iters: seq<Iter>, it: Iter)
    ensures Packets(iters + [it]) == if it.packet.Some? then Packets(iters) + [it.packet.value] else Packets(iters)
  {
    assert (iters + [it])[..|iters|] == iters;
  }

  lemma CountTimeKept(cfg: Config, capacity: nat, d: State, now: Time)
    requires Inv(cfg, capacity, d) && Enabled(cfg, d, CountTime(now))
    ensures Inv(cfg, capacity, Step(cfg, d, CountTime(now)))
  {
    hide M.Reachable, S.Reachable, Ordered, CaptureFlow, ClockOk, LinesIn, RenderAll, Run, Packets, Iterate,
      RepeatOf, Counted, Emitted;
    var it := Iter(d.turn.dequeued, d.turn.reset, now);
    var d' := Step(cfg, d, CountTime(now));
    assert d'.iters[..|d.iters|] == d.iters;
    RunSnoc(cfg, Start(cfg, d.start), d.start, d.iters, it);
    PacketsSnoc(d.iters, it);
    CountedLines(cfg, Base(cfg, d), it);
    CountedEmits(cfg, Base(cfg, d), it, d'.turn);
  }

  // The lines.

  /** Only the start of a broadcast adds a line, and it is the one that was waiting. */
  lemma ClientLines(c: S.State, a: S.Action)
    requires S.Enabled(c, a) && !a.Broadcast?
    ensures S.Step(c, a).lines + InFlight(S.Step(c, a)) == c.lines + InFlight(c)
  {
  }

  lemma ClientKept(cfg: Config, capacity: nat, d: State, a: S.Action)
    requires Inv(cfg, capacity, d) && Enabled(cfg, d, Client(a))
    ensures Inv(cfg, capacity, Step(cfg, d, Client(a)))
  {
    hide M.Reachable, S.Reachable, S.Step, S.Enabled, Ordered, CaptureFlow, LircFlow, ClockFlow, LinesIn, RenderAll,
      InFlight, Emitted, Run, Packets;
    S.ReachableStep(d.clients, a);
    ClientLines(d.clients, a);
  }

  /** A line given to broadcastToLirc is in flight, unless the assertion fails. */
  lemma SendLines(d: State, line: Option<string>, turn: Turn)
    requires S.Reachable(d.clients) && CanSend(d, line)
    ensures var d' := Send(d, line, turn);
            && S.Reachable(d'.clients) && d' == d.(clients := d'.clients, turn := d'.turn)
            && (d'.turn == turn || d'.turn == d.turn)
            && d'.clients.lines + InFlight(d'.clients)
               == d.clients.lines + InFlight(d.clients)
                  + (if line.Some? && !d'.clients.aborted then [line.value] else [])
            && (line.None? || !d'.clients.aborted ==> d'.turn == turn)
            && (line.Some? && d'.clients.aborted ==> d'.turn == d.turn)
  {
    if line.Some? {
      S.ReachableStep(d.clients, S.Broadcast(line.value));
    }
  }

  lemma SendKeyKept(cfg: Config, capacity: nat, d: State)
    requires Inv(cfg, capacity, d) && Enabled(cfg, d, SendKey)
    ensures Inv(cfg, capacity, Step(cfg, d, SendKey))
  {
    hide M.Reachable, S.Reachable, S.Step, S.Enabled, Ordered, CaptureFlow, ClockOk, LinesIn, RenderAll, LineOpt,
      InFlight, KeyEventOf, Run, Packets, Send;
    var e := KeyEventOf(Base(cfg, d), d.turn.packet);
    SendLines(d, LineOpt(cfg, e), InHandleKey(d.turn.packet, true));
    LinesEvents(cfg, Base(cfg, d).log, e);
  }

  lemma SendRepeatKept(cfg: Config, capacity: nat, d: State)
    requires Inv(cfg, capacity, d) && Enabled(cfg, d, SendRepeat)
    ensures Inv(cfg, capacity, Step(cfg, d, SendRepeat))
  {
    hide M.Reachable, S.Reachable, S.Step, S.Enabled, Ordered, CaptureFlow, ClockOk, LinesIn, RenderAll, LineOf,
      InFlight, KeyEventOf, Run, Packets, Send;
    var log := Base(cfg, d).log;
    var e := log[|log| - 1];
    SendLines(d, LineOf(cfg, e), AtHead);
    assert log == log[..|log| - 1] + [e];
    LinesSnoc(cfg, log[..|log| - 1], e);
  }

  lemma StepInv(cfg: Config, capacity: nat, d: State, a: Action)
    requires Inv(cfg, capacity, d) && Enabled(cfg, d, a)
    ensures Inv(cfg, capacity, Step(cfg, d, a))
  {
    hide *;
    match a {
      case Recv(packet) => RecvKept(cfg, capacity, d, packet);
      case CallDataInd => DataIndKept(cfg, capacity, d);
      case ReturnDataInd => ReturnKept(cfg, capacity, d);
      case Queue(q) => QueueKept(cfg, capacity, d, q);
      case CallDequeue => CallDequeueKept(cfg, capacity, d);
      case GotPacket => GotPacketKept(cfg, capacity, d);
      case GotNothing => GotNothingKept(cfg, capacity, d);
      case SendKey => SendKeyKept(cfg, capacity, d);
      case FreePacket => FreePacketKept(cfg, capacity, d);
      case ResetTimer(now) => ResetTimerKept(cfg, capacity, d, now);
      case CountTime(now) => CountTimeKept(cfg, capacity, d, now);
      case SendRepeat => SendRepeatKept(cfg, capacity, d);
      case Client(c) => ClientKept(cfg, capacity, d, c);
    }
  }

  lemma {:induction false} RunInv(cfg: Config, capacity: nat, d: State, run: seq<Action>)
    requires Inv(cfg, capacity, d) && IsRun(cfg, d, run)
    ensures Inv(cfg, capacity, Exec(cfg, d, run))
    decreases |run|
  {
    hide Inv, Enabled, Step;
    if run != [] {
      StepInv(cfg, capacity, d, run[0]);
      RunInv(cfg, capacity, Step(cfg, d, run[0]), run[1..]);
    }
  }

  // ---- Main results -------------------------------------------------------------------------------

  ghost predicate Reachable(cfg: Config, capacity: nat, d: State) {
    exists d0, run :: Init(d0, capacity) && IsRun(cfg, d0, run) && Exec(cfg, d0, run) == d
  }

  lemma ReachableInv(cfg: Config, capacity: nat, d: State)
    requires Reachable(cfg, capacity, d)
    ensures Inv(cfg, capacity, d)
  {
    hide Inv, Init;
    var d0, run :| Init(d0, capacity) && IsRun(cfg, d0, run) && Exec(cfg, d0, run) == d;
    InitInv(cfg, capacity, d0);
    RunInv(cfg, capacity, d0, run);
  }

  lemma {:induction false} RunAppend(cfg: Config, d: State, run: seq<Action>, more: seq<Action>)
    requires IsRun(cfg, d, run) && IsRun(cfg, Exec(cfg, d, run), more)
    ensures IsRun(cfg, d, run + more) && Exec(cfg, d, run + more) == Exec(cfg, Exec(cfg, d, run), more)
    ensures Accepts(run + more) == Accepts(run) + Accepts(more)
    decreases |run|
  {
    if run == [] {
      assert run + more == more;
    } else {
      hide Enabled, Step;
      assert (run + more)[1..] == run[1..] + more;
      RunAppend(cfg, Step(cfg, d, run[0]), run[1..], more);
    }
  }

  lemma OneStep(cfg: Config, d: State, a: Action)
    requires Enabled(cfg, d, a)
    ensures IsRun(cfg, d, [a]) && Exec(cfg, d, [a]) == Step(cfg, d, a)
  {
    hide Enabled, Step;
    assert [a][1..] == [];
    assert IsRun(cfg, Step(cfg, d, a), []);
  }

  lemma ReachableStep(cfg: Config, capacity: nat, d: State, a: Action)
    requires Reachable(cfg, capacity, d) && Enabled(cfg, d, a)
    ensures Reachable(cfg, capacity, Step(cfg, d, a))
  {
    hide Enabled, Step, Init, IsRun, Exec;
    var d0, run :| Init(d0, capacity) && IsRun(cfg, d0, run) && Exec(cfg, d0, run) == d;
    OneStep(cfg, d, a);
    RunAppend(cfg, d0, run, [a]);
  }

  /**
   * The queue of the daemon is a queue of Monitor, its clients are those of Sessions: what holds of reachable
   * states there holds here.
   */
  lemma PartsAreReachable(cfg: Config, capacity: nat, d: State)
    requires Reachable(cfg, capacity, d)
    ensures M.Reachable(d.queue, KINDS, capacity) && M.SignalsSuffice(KINDS)
    ensures S.Reachable(d.clients)
    ensures ClockOk(d.start, d.iters)
  {
    hide Reachable, Init, M.Reachable, S.Reachable, Ordered, CaptureFlow, LircFlow, LineFlow, Emitted, Run, Packets,
      FaultsAtMostLast;
    ReachableInv(cfg, capacity, d);
  }

  /** What a step of the daemon is to its clients. */
  ghost function ClientSteps(cfg: Config, d: State, a: Action): seq<S.Action>
    requires Enabled(cfg, d, a)
  {
    match a
    case Client(c) => [c]
    case SendKey => LineSteps(LineOpt(cfg, KeyEventOf(Base(cfg, d), d.turn.packet)))
    case SendRepeat => LineSteps(LineOf(cfg, LastEvent(cfg, d)))
    case _ => []
  }

  function LineSteps(line: Option<string>): seq<S.Action> {
    if line.Some? then [S.Broadcast(line.value)] else []
  }

  ghost function ClientRun(cfg: Config, d: State, run: seq<Action>): seq<S.Action>
    requires IsRun(cfg, d, run)
    decreases |run|
  {
    if run == [] then [] else ClientSteps(cfg, d, run[0]) + ClientRun(cfg, Step(cfg, d, run[0]), run[1..])
  }

  function Accepts(run: seq<Action>): nat {
    if run == [] then 0 else (if run[0].Client? && run[0].c.Accept? then 1 else 0) + Accepts(run[1..])
  }

  lemma OneClientStep(cfg: Config, d: State, a: Action)
    requires Enabled(cfg, d, a)
    ensures var steps, c' := ClientSteps(cfg, d, a), Step(cfg, d, a).clients;
            && S.IsRun(d.clients, steps) && S.Exec(d.clients, steps) == c'
            && S.Accepts(steps) == if a.Client? && a.c.Accept? then 1 else 0
  {
    hide S.Enabled, S.Step, M.Enabled, M.Step, LineOf, LineOpt, KeyEventOf, Run;
    var steps := ClientSteps(cfg, d, a);
    if steps != [] {
      assert steps[1..] == [];
      assert S.IsRun(S.Step(d.clients, steps[0]), []);
    }
  }

  /** The clients go through a run of Sessions, with the same accepts: its results about runs hold here as well. */
  lemma {:induction false} ClientsRun(cfg: Config, d: State, run: seq<Action>)
    requires IsRun(cfg, d, run)
    ensures var steps := ClientRun(cfg, d, run);
            && S.IsRun(d.clients, steps) && S.Exec(d.clients, steps) == Exec(cfg, d, run).clients
            && S.Accepts(steps) == Accepts(run)
    decreases |run|
  {
    if run != [] {
      hide Enabled, Step, ClientSteps, S.IsRun, S.Exec, S.Accepts;
      OneClientStep(cfg, d, run[0]);
      ClientsRun(cfg, Step(cfg, d, run[0]), run[1..]);
      S.RunConcat(d.clients, ClientSteps(cfg, d, run[0]), ClientRun(cfg, Step(cfg, d, run[0]), run[1..]));
    } else {
      assert S.IsRun(d.clients, []);
    }
  }

  /** A daemon that has seen fewer than 16 connections has not failed the assertion of broadcastToLirc. */
  lemma FewClientsNeverAbort(cfg: Config, capacity: nat, d: State, run: seq<Action>)
    requires Init(d, capacity) && IsRun(cfg, d, run) && Accepts(run) < MAX_CLIENTS
    ensures !Exec(cfg, d, run).clients.aborted
  {
    hide S.IsRun, S.Exec, IsRun, Exec, ClientRun;
    ClientsRun(cfg, d, run);
    S.AssertionHoldsIff(Accepts(run));
    assert S.IsRun(S.INIT, ClientRun(cfg, d, run));
  }

  /** The packets of `done` and the one in hand, once its event is out. */
  function WithCurrent(done: seq<bytes>, turn: Turn): seq<bytes> {
    match turn
    case InHandleKey(p, sent) => if sent then done + [p] else done
    case Freed(p) => done + [p]
    case Counting(dequeued, _) => if dequeued.Some? then done + [dequeued.value] else done
    case _ => done
  }

  /** The packets whose key event has been given to broadcastToLirc. */
  function Handled(d: State): seq<bytes> {
    WithCurrent(Packets(d.iters), d.turn)
  }

  lemma LircIsBehind(q: M.State, done: seq<bytes>, turn: Turn)
    requires LircFlow(q, done, turn)
    ensures WithCurrent(done, turn) <= q.data
  {
    var n := |q.removed|;
    assert q.data[..n] <= q.data && (n > 0 ==> q.data[..n - 1] <= q.data);
  }

  lemma CaptureIsAhead(q: M.State, received: seq<bytes>, buffer: bytes, capture: Capture)
    requires CaptureFlow(q, received, buffer, capture)
    ensures q.data <= received
  {
  }

  lemma HandledAreReceived(cfg: Config, capacity: nat, d: State)
    requires Reachable(cfg, capacity, d)
    ensures Handled(d) <= d.received
  {
    ReachableInv(cfg, capacity, d);
    hide Reachable, M.Reachable, S.Reachable, Ordered, CaptureFlow, LircFlow, ClockFlow, LineFlow, WithCurrent, Emitted,
      Base, Packets;
    LircIsBehind(d.queue, Packets(d.iters), d.turn);
    CaptureIsAhead(d.queue, d.received, d.buffer, d.capture);
  }

  lemma FewerKnownCodes(packets: seq<bytes>, more: seq<bytes>)
    requires KnownCodes(more) && packets <= more
    ensures KnownCodes(packets)
  {
    forall i | 0 <= i < |packets| && IsPress(packets[i])
      ensures CodeIndex(packets[i][5]) != UNDEF
    {
      assert packets[i] == more[i];
    }
  }

  /**
   * The LIRC thread indexes the key table out of range in no run of the daemon whose received presses are all
   * in the table.
   */
  lemma KnownCodesKeepRunning(cfg: Config, capacity: nat, d: State)
    requires Reachable(cfg, capacity, d) && KnownCodes(d.received)
    ensures !d.turn.Dead?
    ensures KeysInRange(Base(cfg, d))
  {
    hide Reachable, M.Reachable, S.Reachable, Ordered, CaptureFlow, LircFlow, LineFlow, Emitted, Run, Packets, ClockOk,
      FaultsAtMostLast, KnownCodes;
    ReachableInv(cfg, capacity, d);
    HandledAreReceived(cfg, capacity, d);
    FewerKnownCodes(Packets(d.iters), d.received);
    KnownCodesNeverFault(cfg, d.start, d.iters);
  }

  /** Handling one more packet adds to the presses and releases what the fold adds. */
  lemma EventsOfOneMore(m: Machine, packets: seq<bytes>, p: bytes)
    requires m.Ok() && KeyOnly(m.log) == Fold(packets).1
    requires m.keys.lastKey == Fold(packets).0.lastKey && m.keys.keyDown == Fold(packets).0.keyDown
    ensures KeyOnly(m.log + Events(KeyEventOf(m, p))) == Fold(packets + [p]).1
  {
    FoldSnoc(packets, p);
    HandleKeyIgnoresTimer(m.keys, Fold(packets).0, p);
    var e := KeyEventOf(m, p);
    if e.Some? {
      KeyOnlySnoc(m.log, e.value);
    } else {
      assert m.log + Events(e) == m.log;
    }
  }

  lemma EmittedIsFold(m: Machine, done: seq<bytes>, turn: Turn)
    requires m.Ok() && KeyOnly(m.log) == Fold(done).1
    requires m.keys.lastKey == Fold(done).0.lastKey && m.keys.keyDown == Fold(done).0.keyDown
    requires turn.Repeating? ==> m.log != [] && m.log[|m.log| - 1].Repeat?
    ensures KeyOnly(Emitted(m, turn)) == Fold(WithCurrent(done, turn)).1
  {
    hide Fold, KeyOnly, KeyEventOf;
    match turn {
      case InHandleKey(p, _) => EventsOfOneMore(m, done, p);
      case Freed(p) => EventsOfOneMore(m, done, p);
      case Counting(dequeued, _) =>
        if dequeued.Some? {
          EventsOfOneMore(m, done, dequeued.value);
        }
      case Repeating =>
        var n := |m.log| - 1;
        assert m.log == m.log[..n] + [m.log[n]];
        KeyOnlySnoc(m.log[..n], m.log[n]);
      case _ =>
    }
  }

  lemma EmittedAreHandled(cfg: Config, capacity: nat, d: State)
    requires Reachable(cfg, capacity, d)
    ensures KeyOnly(Emitted(Base(cfg, d), d.turn)) == Fold(Handled(d)).1
  {
    ReachableInv(cfg, capacity, d);
    hide Reachable, M.Reachable, S.Reachable, Ordered, CaptureFlow, LircFlow, LineFlow, ClockOk, Run, Packets, Fold,
      KeyOnly, Emitted, WithCurrent, FaultsAtMostLast;
    TimingDoesNotChangeKeys(cfg, d.start, d.iters);
    EmittedIsFold(Base(cfg, d), Packets(d.iters), d.turn);
  }

  lemma {:induction false} LinesPrefix(cfg: Config, log: seq<KeyEvent>, n: nat)
    requires n <= |log|
    ensures LinesIn(RenderAll(cfg, log[..n])) <= LinesIn(RenderAll(cfg, log))
    decreases |log|
  {
    if n == |log| {
      assert log[..n] == log;
    } else {
      var before, e := log[..|log| - 1], log[|log| - 1];
      assert before[..n] == log[..n] && before + [e] == log;
      LinesPrefix(cfg, before, n);
      LinesSnoc(cfg, before, e);
      hide LinesIn, RenderAll, LineOf;
    }
  }

  /**
   * Schedule independence. Whatever the interleaving of the three threads and whatever the clock shows,
   * the lines broadcast so far are those of a list of events whose presses and releases are a prefix of
   * handleKey folded over the packets in the order of their receipt, without clock or threads.
   */
  lemma ScheduleIndependence(cfg: Config, capacity: nat, d: State)
    requires Reachable(cfg, capacity, d)
    ensures var events := Emitted(Base(cfg, d), d.turn);
            && d.clients.lines + InFlight(d.clients) == LinesIn(RenderAll(cfg, events))
            && KeyOnly(events) <= Fold(d.received).1
            && LinesIn(RenderAll(cfg, KeyOnly(events))) <= LinesIn(RenderAll(cfg, Fold(d.received).1))
  {
    ReachableInv(cfg, capacity, d);
    EmittedAreHandled(cfg, capacity, d);
    HandledAreReceived(cfg, capacity, d);
    hide Reachable, M.Reachable, S.Reachable, Ordered, CaptureFlow, LircFlow, ClockFlow, Run, Packets, Fold, KeyOnly,
      Handled, Emitted, LinesIn, RenderAll;
    var n := |Handled(d)|;
    assert d.received[..n] == Handled(d);
    FoldPrefix(d.received, n);
    var all := Fold(d.received).1;
    var k := |KeyOnly(Emitted(Base(cfg, d), d.turn))|;
    assert all[..k] == KeyOnly(Emitted(Base(cfg, d), d.turn));
    LinesPrefix(cfg, all, k);
  }

  /** The lines from b up to e, and p after them, which is the beginning of the next. */
  predicate PeerGot(stream: string, lines: seq<string>, b: nat, e: nat, p: string) {
    && b <= e <= |lines| && stream == Concat(lines[b..e]) + p
    && (p != "" ==> e < |lines| && IsStrictPrefix(p, lines[e]))
  }

  lemma PeerGotOf(c: S.State, x: nat, e: nat, p: string, lines: seq<string>)
    requires S.StreamIs(c, x, e, p) && c.lines <= lines
    ensures PeerGot(c.sessions[x].stream, lines, c.sessions[x].born.value, e, p)
  {
    hide Concat;
    var b := c.sessions[x].born.value;
    assert lines[b..e] == c.lines[b..e];
  }

  /** End to end: what a client received are the lines, from its birth on, of the events that the packets led to. */
  lemma EndToEnd(cfg: Config, capacity: nat, d: State, x: nat)
    requires Reachable(cfg, capacity, d)
    requires x < |d.clients.sessions| && d.clients.sessions[x].born.Some?
    ensures var c, lines := d.clients.sessions[x], LinesIn(RenderAll(cfg, Emitted(Base(cfg, d), d.turn)));
            exists e: nat, p :: PeerGot(c.stream, lines, c.born.value, e, p)
  {
    hide *;
    PartsAreReachable(cfg, capacity, d);
    ScheduleIndependence(cfg, capacity, d);
    S.ClientStream(d.clients, x);
    var e: nat, p :| S.StreamIs(d.clients, x, e, p);
    PeerGotOf(d.clients, x, e, p, LinesIn(RenderAll(cfg, Emitted(Base(cfg, d), d.turn))));
  }

  /** Nothing received is still on its way. */
  predicate Idle(d: State) {
    d.capture.Polling? && d.queue.ring.empty && d.turn.AtHead?
  }

  /** When nothing is on its way, exactly the fold over everything received has been sent. */
  lemma IdleHasSentEverything(cfg: Config, capacity: nat, d: State)
    requires Reachable(cfg, capacity, d) && Idle(d)
    ensures Handled(d) == d.received
    ensures KeyOnly(Base(cfg, d).log) == Fold(d.received).1
    ensures d.clients.lines + InFlight(d.clients) == LinesIn(RenderAll(cfg, Base(cfg, d).log))
  {
    ReachableInv(cfg, capacity, d);
    EmittedAreHandled(cfg, capacity, d);
    M.QueueIsFifo(d.queue, KINDS, capacity);
    NotHolding(d.queue, capacity);
    RingGeometry(d.queue.ring);
    M.ReachableInv(d.queue, KINDS, capacity);
    assert M.ThreadOk(d.queue.owner, d.queue.threads[0], 0);
    hide Reachable, M.Reachable, M.Inv, S.Reachable, ClockFlow, Run, Packets, Fold, KeyOnly, LinesIn, RenderAll,
      Ring.Count;
    assert |d.queue.removed| == |d.queue.added| == |d.queue.data|;
  }

  /**
   * Two daemons that received the same packets, of any queue size, schedule and timing, sent the same presses
   * and releases.
   */
  lemma SameInputSameKeys(cfg: Config, capacity: nat, d: State, capacity': nat, d': State)
    requires Reachable(cfg, capacity, d) && Reachable(cfg, capacity', d')
    requires Idle(d) && Idle(d') && d.received == d'.received
    ensures KeyOnly(Base(cfg, d).log) == KeyOnly(Base(cfg, d').log)
  {
    IdleHasSentEverything(cfg, capacity, d);
    IdleHasSentEverything(cfg, capacity', d');
  }
}
