/**
 * The daemon never gets stuck: from every state that it reaches, its threads can finish all the packets
 * received so far, without another packet or client. A measure of the work left goes down with every step.
 */
module DaemonProgress {
  import opened Prelude
  import opened RingQueue
  import opened LircThr
  import opened KeyTrace
  import opened LircSrv
  import opened Daemon
  import M = Monitor
  import S = Sessions

  // ---- The clients ----------------------------------------------------------------------------------

  function MutexWork(c: S.State): nat {
    match c.acceptor
    case Appending(_) => 4
    case Closing(next) => if next <= |c.table| then |c.table| - next + 1 else 1
    case _ => 0
  }

  function BroadcastWork(c: S.State): nat {
    match c.lirc
    case Quiet => 0
    case Waiting(_) => 2 * |c.table| + 3
    case Writing(_, i, _) => if i <= |c.table| then 2 * (|c.table| - i) + 1 else 1
    case Removing(_, i, _) => if i <= |c.table| then 2 * (|c.table| - i) else 0
  }

  function ClientWork(c: S.State): nat {
    MutexWork(c) + BroadcastWork(c)
  }

  /** A broadcast that has begun can go on, until it is over. */
  lemma BroadcastGoesOn(c: S.State) returns (a: S.Action)
    requires S.Reachable(c) && !c.aborted && !c.lirc.Quiet?
    ensures !a.Broadcast? && !a.Accept? && S.Enabled(c, a)
    ensures !S.Step(c, a).aborted && ClientWork(S.Step(c, a)) < ClientWork(c)
  {
    S.ReachableInv(c);
    hide S.Reachable, S.Streams;
    match c.lirc {
      case Waiting(_) => a := MutexGetsFree(c);
      case Writing(line, i, sent) =>
        if i == |c.table| {
          a := S.Unlock;
        } else if c.table[i] in c.open {
          a := S.Write(|line| - sent);
        } else {
          a := S.Write(0);
        }
      case Removing(_, _, _) => a := S.Compact;
    }
  }

  lemma MutexGetsFree(c: S.State) returns (a: S.Action)
    requires S.Bounded(c) && !c.aborted && c.lirc.Waiting?
    ensures !a.Broadcast? && !a.Accept? && S.Enabled(c, a)
    ensures !S.Step(c, a).aborted && ClientWork(S.Step(c, a)) < ClientWork(c)
  {
    if c.acceptor.Appending? {
      a := S.Append;
    } else if c.acceptor.Closing? {
      a := if c.acceptor.next < |c.table| then S.CloseNext else S.Finish;
    } else {
      a := S.LockLirc;
    }
  }

  /** Starting a broadcast makes a bounded amount of work. */
  lemma BroadcastStarts(c: S.State, line: string)
    requires S.Reachable(c) && S.Enabled(c, S.Broadcast(line))
    ensures var c' := S.Step(c, S.Broadcast(line)); c'.aborted || ClientWork(c') <= ClientWork(c) + 35
  {
    S.ReachableInv(c);
  }

  // ---- The threads ------------------------------------------------------------------------------------

  function LircWork(turn: Turn, phase: M.Phase, empty: bool): nat {
    match turn
    case AtHead => 10
    case InQueue => (
      match phase
      case AtMutex => if empty then 76 else 9
      case Waking => if empty then 76 else 9
      case Testing => if empty then 75 else 8
      case Sleeping => 74
      case Expiring => 73
      case Leaving => 72
      case Idle => 70
      case Signalling => 210
      case Using => 199)
    case InHandleKey(_, sent) => if sent then 160 else 198
    case Freed(_) => 150
    case Counting(_, _) => 69
    case Repeating => 60
    case Dead => 0
  }

  function CaptureWork(capture: Capture, phase: M.Phase): nat {
    match capture
    case Polling => 0
    case Filled => 20
    case InDataInd => (
      match phase
      case AtMutex => 12
      case Waking => 12
      case Testing => 11
      case Sleeping => 10
      case Signalling => 5
      case _ => 1)
  }

  /** The work of the queue and the two threads that share it. */
  function QueueWork(q: M.State, received: nat, turn: Turn, capture: Capture): int
    requires |q.threads| == 2
  {
    300 * (received - |q.removed|)
    + LircWork(turn, q.threads[1].phase, q.ring.empty) + CaptureWork(capture, q.threads[0].phase)
  }

  function Work(d: State): int
    requires |d.queue.threads| == 2
  {
    QueueWork(d.queue, |d.received|, d.turn, d.capture) + ClientWork(d.clients)
  }

  /** What the progress lemmas know of a reachable daemon. */
  ghost predicate Known(cfg: Config, capacity: nat, d: State) {
    Reachable(cfg, capacity, d) && !d.clients.aborted && KnownCodes(d.received)
  }

  lemma WorkIsLeft(cfg: Config, capacity: nat, d: State)
    requires Reachable(cfg, capacity, d)
    ensures |d.queue.threads| == 2 && Work(d) >= 0
  {
    ReachableInv(cfg, capacity, d);
    CaptureIsAhead(d.queue, d.received, d.buffer, d.capture);
  }

  /** Queue q has a thread that can go on by itself. */
  predicate QueueIsBusy(q: M.State)
    requires |q.threads| == 2
  {
    || q.owner.Some?
    || q.threads[0].phase in {M.AtMutex, M.Waking, M.Signalling}
    || q.threads[1].phase in {M.AtMutex, M.Waking, M.Signalling, M.Expiring, M.Sleeping}
  }

  /** The owner of the mutex leaves its critical section. */
  lemma OwnerGoesOn(q: M.State, received: nat, turn: Turn, capture: Capture) returns (a: M.Action)
    requires M.Inv(q, KINDS) && q.owner.Some?
    requires q.threads[0].phase.Idle? || capture.InDataInd?
    requires q.threads[1].phase.Idle? || q.threads[1].phase.Using? || turn.InQueue?
    ensures M.Enabled(q, a) && !a.Produce? && !a.Consume? && !a.Free?
    ensures |M.Step(q, a).threads| == 2
    ensures QueueWork(M.Step(q, a), received, turn, capture) < QueueWork(q, received, turn, capture)
  {
    hide M.Fifo, M.Owned, M.NoLostSlot, M.NoLostItem, M.ItemsCovered, M.SignalsSuffice, Ring.Count, Ring.Contents;
    var t := q.owner.value;
    assert M.ThreadOk(q.owner, q.threads[t], t);
    if t == 0 {
      a := if q.ring.full then M.Sleep(0) else M.Add(0);
    } else if q.threads[1].phase.Leaving? {
      a := M.Leave(1);
    } else {
      a := if q.ring.empty then M.Sleep(1) else M.Remove(1);
    }
  }

  /** With the mutex free, a thread locks it, or signals, or gives up waiting. */
  lemma OthersGoOn(q: M.State, received: nat, turn: Turn, capture: Capture) returns (a: M.Action)
    requires M.Inv(q, KINDS) && q.owner.None? && QueueIsBusy(q)
    requires q.threads[0].phase.Idle? || capture.InDataInd?
    requires q.threads[1].phase.Idle? || q.threads[1].phase.Using? || turn.InQueue?
    ensures M.Enabled(q, a) && !a.Produce? && !a.Consume? && !a.Free?
    ensures |M.Step(q, a).threads| == 2
    ensures QueueWork(M.Step(q, a), received, turn, capture) < QueueWork(q, received, turn, capture)
  {
    hide M.Fifo, M.Owned, M.NoLostSlot, M.NoLostItem, M.ItemsCovered, M.SignalsSuffice, Ring.Count, Ring.Contents;
    var p, c := q.threads[0].phase, q.threads[1].phase;
    if p.AtMutex? || p.Waking? {
      a := M.Lock(0);
    } else if c.AtMutex? || c.Waking? || c.Expiring? {
      a := M.Lock(1);
    } else if p.Signalling? {
      a := if c.Sleeping? then M.SignalTo(0, 1) else M.Signal(0);
    } else if c.Signalling? {
      a := if p.Sleeping? then M.SignalTo(1, 0) else M.Signal(1);
    } else {
      a := M.Expire(1);
    }
  }

  /** Nothing is on its way, and no broadcast is under way. */
  predicate AtRest(d: State) {
    Idle(d) && d.clients.lirc.Quiet?
  }

  /** A step of the daemon that needs neither a packet nor a client. */
  predicate ByItself(a: Action) {
    !a.Recv? && !(a.Client? && a.c.Accept?)
  }

  ghost predicate Onward(cfg: Config, d: State, a: Action)
    requires |d.queue.threads| == 2
  {
    && Enabled(cfg, d, a) && ByItself(a)
    && |Step(cfg, d, a).queue.threads| == 2
    && (Step(cfg, d, a).clients.aborted || Work(Step(cfg, d, a)) < Work(d))
  }

  lemma ClientsGoOn(cfg: Config, capacity: nat, d: State) returns (a: Action)
    requires Known(cfg, capacity, d) && |d.queue.threads| == 2 && !d.clients.lirc.Quiet?
    ensures Onward(cfg, d, a)
  {
    hide Reachable, S.Reachable, M.Reachable, ClientWork, S.Enabled, S.Step, KnownCodes, Base, ClockOk;
    PartsAreReachable(cfg, capacity, d);
    var c := BroadcastGoesOn(d.clients);
    a := Client(c);
  }

  lemma QueueGoesOn(cfg: Config, capacity: nat, d: State) returns (a: Action)
    requires Known(cfg, capacity, d) && |d.queue.threads| == 2 && QueueIsBusy(d.queue)
    ensures Onward(cfg, d, a)
  {
    hide Reachable, S.Reachable, M.Reachable, M.Inv, ClientWork, M.Enabled, M.Step, KnownCodes, QueueWork, QueueIsBusy,
      Base, ClockOk;
    PhasesFit(cfg, capacity, d);
    PartsAreReachable(cfg, capacity, d);
    M.ReachableInv(d.queue, KINDS, capacity);
    var q;
    if d.queue.owner.Some? {
      q := OwnerGoesOn(d.queue, |d.received|, d.turn, d.capture);
    } else {
      q := OthersGoOn(d.queue, |d.received|, d.turn, d.capture);
    }
    a := Queue(q);
  }

  /** Where the two threads are in the queue fits where they are in their own loops. */
  lemma PhasesFit(cfg: Config, capacity: nat, d: State)
    requires Reachable(cfg, capacity, d)
    ensures |d.queue.threads| == 2
    ensures d.queue.threads[0].phase.Idle? || d.capture.InDataInd?
    ensures d.queue.threads[1].phase.Idle? || d.queue.threads[1].phase.Using? || d.turn.InQueue?
    ensures d.turn.InHandleKey? ==> d.queue.threads[1].phase.Using?
    ensures d.queue.threads[1].phase.Using? ==> d.turn.InQueue? || d.turn.InHandleKey?
    ensures d.queue.threads[1].phase.Using? ==>
              d.queue.threads[1].held.Some? && d.queue.threads[1].held.value < |d.queue.data|
    ensures d.turn.Repeating? ==> Base(cfg, d).log != []
  {
    hide Reachable, M.Reachable, S.Reachable, LineFlow, Emitted, Run, Packets, ClockOk, FaultsAtMostLast;
    ReachableInv(cfg, capacity, d);
    NotHolding(d.queue, capacity);
  }

  /** A line can be given to broadcastToLirc, for no more work than a broadcast takes. */
  lemma SendGoesOn(d: State, line: Option<string>, turn: Turn)
    requires S.Reachable(d.clients) && !d.clients.aborted && d.clients.lirc.Quiet? && |d.queue.threads| == 2
    requires line.Some? ==> line.value != ""
    requires forall phase, empty :: LircWork(turn, phase, empty) + 36 <= LircWork(d.turn, phase, empty)
    ensures CanSend(d, line)
    ensures var d' := Send(d, line, turn);
            |d'.queue.threads| == 2 && (d'.clients.aborted || Work(d') < Work(d))
  {
    hide S.Reachable, ClientWork, LircWork;
    if line.Some? {
      BroadcastStarts(d.clients, line.value);
    }
  }

  lemma HandlingGoesOn(cfg: Config, capacity: nat, d: State) returns (a: Action)
    requires Known(cfg, capacity, d) && |d.queue.threads| == 2 && d.clients.lirc.Quiet? && d.turn.InHandleKey?
    ensures Onward(cfg, d, a)
  {
    hide Reachable, S.Reachable, M.Reachable, ClientWork, KnownCodes, LineOf, KeyEventOf, Run, ClockOk;
    PhasesFit(cfg, capacity, d);
    PartsAreReachable(cfg, capacity, d);
    if d.turn.sent {
      a := FreePacket;
    } else {
      a := SendKey;
      SendGoesOn(d, LineOpt(cfg, KeyEventOf(Base(cfg, d), d.turn.packet)), InHandleKey(d.turn.packet, true));
    }
  }

  lemma RepeatGoesOn(cfg: Config, capacity: nat, d: State) returns (a: Action)
    requires Known(cfg, capacity, d) && |d.queue.threads| == 2 && d.clients.lirc.Quiet? && d.turn.Repeating?
    ensures Onward(cfg, d, a)
  {
    hide Reachable, S.Reachable, M.Reachable, ClientWork, KnownCodes, LineOf, Run, ClockOk;
    PhasesFit(cfg, capacity, d);
    PartsAreReachable(cfg, capacity, d);
    a := SendRepeat;
    SendGoesOn(d, LineOf(cfg, LastEvent(cfg, d)), AtHead);
  }

  lemma ClockGoesOn(cfg: Config, capacity: nat, d: State) returns (a: Action)
    requires Known(cfg, capacity, d) && |d.queue.threads| == 2 && (d.turn.Freed? || d.turn.Counting?)
    ensures Onward(cfg, d, a)
  {
    hide Reachable, ClientWork, KnownCodes, Run, ClockAt, RepeatOf;
    if d.turn.Freed? {
      a := ResetTimer(ClockAt(d.start, d.iters));
    } else {
      a := CountTime(if d.turn.dequeued.Some? then d.turn.reset else ClockAt(d.start, d.iters));
    }
  }

  lemma OutOfCriticalSection(q: M.State, capacity: nat)
    requires M.Reachable(q, KINDS, capacity) && q.owner.None?
    ensures |q.threads| == 2 && !q.threads[1].phase.Testing? && !q.threads[1].phase.Leaving?
  {
    M.ReachableInv(q, KINDS, capacity);
    assert M.ThreadOk(q.owner, q.threads[1], 1);
  }

  /** The LIRC thread has returned from the queue, or is past it. */
  lemma LircGoesOn(cfg: Config, capacity: nat, d: State) returns (a: Action)
    requires Known(cfg, capacity, d) && |d.queue.threads| == 2 && d.clients.lirc.Quiet?
    requires !QueueIsBusy(d.queue) && !d.turn.AtHead?
    ensures Onward(cfg, d, a)
  {
    hide Reachable, M.Reachable, S.Reachable, KnownCodes, ClientWork, KeysInRange, Base, ClockOk;
    PartsAreReachable(cfg, capacity, d);
    match d.turn {
      case InQueue =>
        PhasesFit(cfg, capacity, d);
        OutOfCriticalSection(d.queue, capacity);
        a := if d.queue.threads[1].phase.Using? then GotPacket else GotNothing;
      case InHandleKey(_, _) => a := HandlingGoesOn(cfg, capacity, d);
      case Freed(_) => a := ClockGoesOn(cfg, capacity, d);
      case Counting(_, _) => a := ClockGoesOn(cfg, capacity, d);
      case Repeating => a := RepeatGoesOn(cfg, capacity, d);
      case Dead => KnownCodesKeepRunning(cfg, capacity, d);
    }
  }

  /** A producer asleep in a quiet queue has filled it. */
  lemma AsleepMeansFull(cfg: Config, capacity: nat, d: State)
    requires Reachable(cfg, capacity, d) && |d.queue.threads| == 2 && !QueueIsBusy(d.queue) && d.turn.AtHead?
    ensures M.HasKinds(d.queue, KINDS)
    ensures d.queue.threads[0].phase.Idle? || (d.queue.threads[0].phase.Sleeping? && !d.queue.ring.empty)
    ensures d.queue.threads[1].phase.Idle?
  {
    PhasesFit(cfg, capacity, d);
    PartsAreReachable(cfg, capacity, d);
    M.ReachableInv(d.queue, KINDS, capacity);
    assert M.ThreadOk(d.queue.owner, d.queue.threads[0], 0);
    hide Reachable, S.Reachable, M.Reachable, M.Fifo, M.Owned, M.NoLostSlot, M.NoLostItem, M.ItemsCovered,
      M.SignalsSuffice, Ring.Count, Ring.Contents;
    if !d.queue.threads[0].phase.Idle? {
      assert d.queue.threads[0].phase.Sleeping?;
      M.SleepersAreRight(d.queue, KINDS, capacity);
      assert M.SleepingProducer(d.queue.threads[0]);
    }
  }

  /** The LIRC thread is at its loop head: the Bluetooth thread goes on, or a packet is waiting. */
  lemma HeadGoesOn(cfg: Config, capacity: nat, d: State) returns (a: Action)
    requires Known(cfg, capacity, d) && |d.queue.threads| == 2 && d.clients.lirc.Quiet?
    requires !QueueIsBusy(d.queue) && d.turn.AtHead? && !AtRest(d)
    ensures Onward(cfg, d, a)
  {
    AsleepMeansFull(cfg, capacity, d);
    PhasesFit(cfg, capacity, d);
    hide Reachable, KnownCodes, ClientWork, QueueIsBusy;
    if d.capture.Filled? {
      a := CallDataInd;
    } else if d.capture.InDataInd? && d.queue.threads[0].phase.Idle? {
      a := ReturnDataInd;
    } else {
      a := CallDequeue;
    }
  }

  /** In every reachable state something can go on by itself, and less is left to do. */
  lemma SomethingGoesOn(cfg: Config, capacity: nat, d: State) returns (a: Action)
    requires Known(cfg, capacity, d) && !AtRest(d)
    ensures |d.queue.threads| == 2 && Onward(cfg, d, a)
  {
    WorkIsLeft(cfg, capacity, d);
    hide *;
    if !d.clients.lirc.Quiet? {
      a := ClientsGoOn(cfg, capacity, d);
    } else if QueueIsBusy(d.queue) {
      a := QueueGoesOn(cfg, capacity, d);
    } else if !d.turn.AtHead? {
      a := LircGoesOn(cfg, capacity, d);
    } else {
      a := HeadGoesOn(cfg, capacity, d);
    }
  }

  // ---- Main results -----------------------------------------------------------------------------------

  predicate AllByItself(run: seq<Action>) {
    forall i :: 0 <= i < |run| ==> ByItself(run[i])
  }

  lemma {:induction false} NoAccepts(run: seq<Action>)
    requires AllByItself(run)
    ensures Accepts(run) == 0
  {
    if run != [] {
      NoAccepts(run[1..]);
    }
  }

  /** What the daemon has received changes only when it receives. */
  lemma ReceivesNothing(cfg: Config, d: State, a: Action)
    requires Enabled(cfg, d, a) && ByItself(a)
    ensures Step(cfg, d, a).received == d.received
  {
    hide M.Enabled, M.Step, S.Enabled, S.Step, Run, LineOf, KeyEventOf, RepeatOf;
  }

  /**
   * From every state that the daemon reaches, its threads can come to rest by themselves: with no further
   * packet and no further client, and all they have received handled. They fail to only where the
   * assertion of broadcastToLirc does.
   */
  lemma {:induction false} CanComeToRest(cfg: Config, capacity: nat, d: State) returns (run: seq<Action>)
    requires Known(cfg, capacity, d)
    ensures IsRun(cfg, d, run) && AllByItself(run) && Exec(cfg, d, run).received == d.received
    ensures Exec(cfg, d, run).clients.aborted || AtRest(Exec(cfg, d, run))
    decreases |d.queue.threads| == 2, if |d.queue.threads| == 2 then Work(d) else 0
  {
    if AtRest(d) {
      run := [];
    } else {
      var a := SomethingGoesOn(cfg, capacity, d);
      ReachableStep(cfg, capacity, d, a);
      ReceivesNothing(cfg, d, a);
      WorkIsLeft(cfg, capacity, d);
      hide Reachable, KnownCodes, Enabled, Step, Work, AtRest;
      var d' := Step(cfg, d, a);
      OneStep(cfg, d, a);
      var rest := [];
      if !d'.clients.aborted {
        rest := CanComeToRest(cfg, capacity, d');
      }
      assert ([a] + rest)[1..] == rest;
      run := [a] + rest;
    }
  }

  /**
   * No packet is stuck. Whatever a daemon with fewer than 16 connections and known codes has done so far,
   * it can go on by itself until exactly the presses and releases of everything received have been sent.
   */
  lemma EveryPacketCanBeSent(cfg: Config, capacity: nat, d0: State, run: seq<Action>) returns (more: seq<Action>)
    requires Init(d0, capacity) && IsRun(cfg, d0, run) && Accepts(run) < MAX_CLIENTS
    requires KnownCodes(Exec(cfg, d0, run).received)
    ensures AllByItself(more) && IsRun(cfg, d0, run + more)
    ensures var d, end := Exec(cfg, d0, run), Exec(cfg, d0, run + more);
            && end.received == d.received && AtRest(end)
            && end.clients.lines == LinesIn(RenderAll(cfg, Base(cfg, end).log))
            && KeyOnly(Base(cfg, end).log) == Fold(d.received).1
  {
    hide Init, IsRun, Exec, Accepts, KnownCodes, LinesIn, RenderAll, Base, Fold, KeyOnly, Enabled, Step;
    var d := Exec(cfg, d0, run);
    FewClientsNeverAbort(cfg, capacity, d0, run);
    assert Reachable(cfg, capacity, d);
    more := CanComeToRest(cfg, capacity, d);
    RunAppend(cfg, d0, run, more);
    NoAccepts(more);
    FewClientsNeverAbort(cfg, capacity, d0, run + more);
    var end := Exec(cfg, d0, run + more);
    assert Reachable(cfg, capacity, end);
    IdleHasSentEverything(cfg, capacity, end);
    assert end.clients.lines + [] == end.clients.lines;
  }
}
