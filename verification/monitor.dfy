/**
 * The queue of src/q.c as a monitor: any number of threads, one mutex, two condition variables.
 *
 * Every thread is a step machine. It is at the mutex, inside the critical section testing its
 * loop condition, asleep on its condition variable, woken but not yet holding the mutex again,
 * or past the unlock but not yet past the signal. Wakeups may be spurious, a timed wait may expire
 * at any moment, and, as pthread_cond_timedwait in POSIX.1-2008 (System Interfaces, chapter 3)
 * allows, a wait that expires may consume a signal sent at the same time.
 */
module Monitor {
  import opened Prelude
  import opened RingQueue

  /** queueAdd callers, queueRemBlock callers and queueRemNonBlock callers. */
  datatype Kind = Producer | BlockingConsumer | TimedConsumer {
    predicate Consumes() { !Producer? }
  }

  datatype Phase =
    | Idle        // outside the queue
    | AtMutex     // called, waiting for the mutex
    | Testing     // holds the mutex, at the test of its wait loop
    | Sleeping    // released the mutex, asleep on its condition
    | Waking      // woken, waiting for the mutex
    | Expiring    // the timed wait returned ETIMEDOUT, waiting for the mutex
    | Leaving     // holds the mutex again after ETIMEDOUT
    | Signalling  // released the mutex for good, has not signalled yet
    | Using       // a consumer that returned with a packet it has not freed yet

  /** `held` is the packet a producer is about to add, or the one a consumer took. */
  datatype Thread = Thread(kind: Kind, phase: Phase, held: Option<PacketRef>)

  /** The queue, the threads, the bytes of every packet allocated so far, and what happened in which order. */
  datatype State = State(
    ring: Ring,
    owner: Option<nat>,
    threads: seq<Thread>,
    data: seq<bytes>,
    added: seq<PacketRef>,
    removed: seq<PacketRef>,
    freed: seq<PacketRef>)

  datatype Action =
    | Produce(t: nat, packet: bytes)  // queueDataInit copies the bytes, then queueAdd is called
    | Consume(t: nat)                 // a remove function is called
    | Lock(t: nat)
    | Sleep(t: nat)
    | WaitError(t: nat)               // the timed wait fails at once, keeping the mutex
    | Add(t: nat)
    | Remove(t: nat)
    | Signal(t: nat)                  // nobody is asleep: no effect
    | SignalTo(t: nat, u: nat)        // wakes u
    | SignalTaken(t: nat, u: nat)     // consumed by u, whose wait expires all the same
    | Spurious(u: nat)
    | Expire(u: nat)
    | Leave(t: nat)                   // returns Q_ERR
    | Free(t: nat)                    // queueDataDeInit

  // ---- Counting threads -----------------------------------------------------------------------

  function Count<T>(items: seq<T>, f: T -> bool): nat {
    if items == [] then 0
    else Count(items[..|items| - 1], f) + if f(items[|items| - 1]) then 1 else 0
  }

  /** Fewer satisfy f than g, and strictly fewer if one of the latter does not satisfy f. */
  lemma {:induction false} CountAtMost<A, B>(xs: seq<A>, ys: seq<B>, f: A -> bool, g: B -> bool)
    requires |xs| == |ys| && forall i :: 0 <= i < |xs| && f(xs[i]) ==> g(ys[i])
    ensures Count(xs, f) <= Count(ys, g)
    ensures (exists i :: 0 <= i < |xs| && !f(xs[i]) && g(ys[i])) ==> Count(xs, f) < Count(ys, g)
  {
    if xs != [] {
      var last := |xs| - 1;
      CountAtMost(xs[..last], ys[..last], f, g);
      if i :| 0 <= i < |xs| && !f(xs[i]) && g(ys[i]) {
        if i < last {
          assert !f(xs[..last][i]) && g(ys[..last][i]);
        }
      }
    }
  }

  lemma {:induction false} CountUpdate(threads: seq<Thread>, i: nat, x: Thread, f: Thread -> bool)
    requires i < |threads|
    ensures Count(threads[i := x], f) + (if f(threads[i]) then 1 else 0)
         == Count(threads, f) + (if f(x) then 1 else 0)
  {
    var last := |threads| - 1;
    if i == last {
      assert threads[i := x][..last] == threads[..last];
    } else {
      assert threads[i := x][..last] == threads[..last][i := x];
      CountUpdate(threads[..last], i, x, f);
    }
  }

  lemma {:induction false} CountWitness(threads: seq<Thread>, f: Thread -> bool)
    ensures Count(threads, f) > 0 <==> exists i :: 0 <= i < |threads| && f(threads[i])
  {
    if threads != [] {
      var last := |threads| - 1;
      CountWitness(threads[..last], f);
      assert forall i :: 0 <= i < last ==> threads[..last][i] == threads[i];
    }
  }

  predicate SleepingConsumer(t: Thread) { t.kind.Consumes() && t.phase.Sleeping? }
  predicate SleepingProducer(t: Thread) { t.kind.Producer? && t.phase.Sleeping? }

  /** Woken (or already at the mutex-protected test): will look at the queue before it sleeps again. */
  predicate WokenConsumer(t: Thread) { t.kind.Consumes() && (t.phase.Waking? || t.phase.Testing?) }
  predicate WokenProducer(t: Thread) { t.kind.Producer? && (t.phase.Waking? || t.phase.Testing?) }

  predicate UnsignalledAdd(t: Thread) { t.kind.Producer? && t.phase.Signalling? }
  predicate UnsignalledRemove(t: Thread) { t.kind.Consumes() && t.phase.Signalling? }

  // ---- Steps ----------------------------------------------------------------------------------

  predicate At(s: State, t: nat, phase: Phase) {
    t < |s.threads| && s.threads[t].phase == phase
  }

  /** u sleeps on the condition that t signals. */
  predicate SleepsFor(s: State, t: nat, u: nat)
    requires t < |s.threads|
  {
    At(s, u, Sleeping) && s.threads[u].kind.Consumes() == s.threads[t].kind.Producer?
  }

  ghost predicate Enabled(s: State, a: Action) {
    match a
    case Produce(t, _) => At(s, t, Idle) && s.threads[t].kind.Producer?
    case Consume(t) => At(s, t, Idle) && s.threads[t].kind.Consumes()
    case Lock(t) => s.owner.None? && (At(s, t, AtMutex) || At(s, t, Waking) || At(s, t, Expiring))
    case Sleep(t) => At(s, t, Testing) && if s.threads[t].kind.Producer? then s.ring.full else s.ring.empty
    case WaitError(t) => At(s, t, Testing) && s.threads[t].kind.TimedConsumer? && s.ring.empty
    case Add(t) =>
      At(s, t, Testing) && s.threads[t].kind.Producer? && !s.ring.full
      && s.threads[t].held.Some? && s.ring.tail < |s.ring.buf|
    case Remove(t) =>
      At(s, t, Testing) && s.threads[t].kind.Consumes() && !s.ring.empty && s.ring.head < |s.ring.buf|
    case Signal(t) => At(s, t, Signalling) && forall u :: !SleepsFor(s, t, u)
    case SignalTo(t, u) => At(s, t, Signalling) && SleepsFor(s, t, u)
    case SignalTaken(t, u) => At(s, t, Signalling) && SleepsFor(s, t, u) && s.threads[u].kind.TimedConsumer?
    case Spurious(u) => At(s, u, Sleeping)
    case Expire(u) => At(s, u, Sleeping) && s.threads[u].kind.TimedConsumer?
    case Leave(t) => At(s, t, Leaving)
    case Free(t) => At(s, t, Using) && s.threads[t].held.Some?
  }

  function Goto(s: State, t: nat, phase: Phase): State
    requires t < |s.threads|
  {
    s.(threads := s.threads[t := s.threads[t].(phase := phase)])
  }

  /** Where a thread goes after its signal. */
  function Signalled(s: State, t: nat): State
    requires t < |s.threads|
  {
    Goto(s, t, if s.threads[t].kind.Producer? then Idle else Using)
  }

  function Step(s: State, a: Action): State
    requires Enabled(s, a)
  {
    match a
    case Produce(t, packet) =>
      var p := |s.data|;
      s.(data := s.data + [packet], threads := s.threads[t := Thread(Producer, AtMutex, Some(p))])
    case Consume(t) => Goto(s, t, AtMutex)
    case Lock(t) => Goto(s.(owner := Some(t)), t, if s.threads[t].phase.Expiring? then Leaving else Testing)
    case Sleep(t) => Goto(s.(owner := None), t, Sleeping)
    case WaitError(t) => s
    case Add(t) =>
      var p := s.threads[t].held.value;
      s.(ring := s.ring.Put(p), owner := None, added := s.added + [p],
         threads := s.threads[t := Thread(Producer, Signalling, None)])
    case Remove(t) =>
      var p := s.ring.buf[s.ring.head];
      s.(ring := s.ring.Take(), owner := None, removed := s.removed + [p],
         threads := s.threads[t := Thread(s.threads[t].kind, Signalling, Some(p))])
    case Signal(t) => Signalled(s, t)
    case SignalTo(t, u) => Goto(Signalled(s, t), u, Waking)
    case SignalTaken(t, u) => Goto(Signalled(s, t), u, Expiring)
    case Spurious(u) => Goto(s, u, Waking)
    case Expire(u) => Goto(s, u, Expiring)
    case Leave(t) => Goto(s.(owner := None), t, Idle)
    case Free(t) =>
      s.(freed := s.freed + [s.threads[t].held.value],
         threads := s.threads[t := Thread(s.threads[t].kind, Idle, None)])
  }

  /** The threads have the given kinds and nothing has happened yet. */
  ghost predicate Init(s: State, kinds: seq<Kind>, capacity: nat) {
    && s.ring.Valid() && s.ring.empty && |s.ring.buf| == capacity
    && s.owner.None?
    && |s.threads| == |kinds|
    && (forall i :: 0 <= i < |kinds| ==> s.threads[i] == Thread(kinds[i], Idle, None))
    && s.data == [] && s.added == [] && s.removed == [] && s.freed == []
  }

  ghost predicate IsRun(s: State, run: seq<Action>)
    decreases |run|
  {
    run == [] || (Enabled(s, run[0]) && IsRun(Step(s, run[0]), run[1..]))
  }

  ghost function Exec(s: State, run: seq<Action>): State
    requires IsRun(s, run)
    decreases |run|
  {
    if run == [] then s else Exec(Step(s, run[0]), run[1..])
  }

  ghost predicate Reachable(s: State, kinds: seq<Kind>, capacity: nat) {
    exists s0, run :: Init(s0, kinds, capacity) && IsRun(s0, run) && Exec(s0, run) == s
  }

  // ---- What every step keeps --------------------------------------------------------------------

  ghost predicate ThreadOk(owner: Option<nat>, t: Thread, i: nat) {
    && (owner == Some(i) <==> t.phase.Testing? || t.phase.Leaving?)
    && (t.phase.Expiring? || t.phase.Leaving? ==> t.kind.TimedConsumer?)
    && (t.kind.Producer? ==>
          !t.phase.Using? &&
          (t.held.Some? <==> t.phase.AtMutex? || t.phase.Testing? || t.phase.Sleeping? || t.phase.Waking?))
    && (t.kind.Consumes() ==> (t.held.Some? <==> t.phase.Signalling? || t.phase.Using?))
  }

  ghost predicate Shape(s: State) {
    && s.ring.Valid()
    && (s.owner.Some? ==> s.owner.value < |s.threads|)
    && forall i :: 0 <= i < |s.threads| ==> ThreadOk(s.owner, s.threads[i], i)
  }

  lemma ShapeSet(s: State, owner: Option<nat>, t: nat, x: Thread)
    requires Shape(s) && t < |s.threads|
    requires owner == s.owner || (owner.None? && s.owner == Some(t)) || (owner == Some(t) && s.owner.None?)
    requires ThreadOk(owner, x, t)
    ensures Shape(s.(owner := owner, threads := s.threads[t := x]))
  {
  }

  /** A signal moves two threads. */
  lemma ShapeSignalled(s: State, a: Action)
    requires Shape(s) && Enabled(s, a) && (a.SignalTo? || a.SignalTaken?)
    ensures Shape(Step(s, a))
  {
    hide Ring.Valid;
    var s' := Step(s, a);
    ShapeSet(s, s.owner, a.t, Signalled(s, a.t).threads[a.t]);
    ShapeSet(Signalled(s, a.t), s.owner, a.u, s'.threads[a.u]);
  }

  lemma ShapeCritical(s: State, a: Action)
    requires Shape(s) && Enabled(s, a) && (a.Add? || a.Remove?)
    ensures Shape(Step(s, a)) && |Step(s, a).ring.buf| == |s.ring.buf|
  {
    var s' := Step(s, a);
    if a.Add? {
      PutRefinesEnqueue(s.ring, s.threads[a.t].held.value);
    } else {
      TakeRefinesDequeue(s.ring);
    }
    hide Ring.Valid, Ring.Put, Ring.Take;
    ShapeSet(s, None, a.t, s'.threads[a.t]);
  }

  lemma ShapeKept(s: State, a: Action)
    requires Shape(s) && Enabled(s, a)
    ensures Shape(Step(s, a)) && |Step(s, a).ring.buf| == |s.ring.buf|
  {
    hide Ring.Valid;
    var s' := Step(s, a);
    if a.SignalTo? || a.SignalTaken? {
      ShapeSignalled(s, a);
    } else if a.Add? || a.Remove? {
      ShapeCritical(s, a);
    } else if !a.WaitError? {
      var t := if a.Spurious? || a.Expire? then a.u else a.t;
      ShapeSet(s, s'.owner, t, s'.threads[t]);
    }
  }

  /** First in, first out: what was added is what was removed followed by what is queued. */
  ghost predicate Fifo(s: State)
    requires s.ring.Valid()
  {
    s.added == s.removed + s.ring.Contents()
  }

  lemma FifoAdd(s: State, t: nat)
    requires Shape(s) && Fifo(s) && Enabled(s, Add(t))
    ensures Shape(Step(s, Add(t))) && Fifo(Step(s, Add(t)))
  {
    hide ThreadOk, Ring.Contents, Ring.Count, Ring.Valid;
    ShapeKept(s, Add(t));
    var p := s.threads[t].held.value;
    PutRefinesEnqueue(s.ring, p);
    assert (s.removed + s.ring.Contents()) + [p] == s.removed + (s.ring.Contents() + [p]);
  }

  lemma FifoRemove(s: State, t: nat)
    requires Shape(s) && Fifo(s) && Enabled(s, Remove(t))
    ensures Shape(Step(s, Remove(t))) && Fifo(Step(s, Remove(t)))
  {
    hide ThreadOk, Ring.Contents, Ring.Count, Ring.Valid;
    ShapeKept(s, Remove(t));
    TakeRefinesDequeue(s.ring);
    var p, rest := s.ring.buf[s.ring.head], s.ring.Take().Contents();
    assert s.removed + ([p] + rest) == (s.removed + [p]) + rest;
  }

  lemma FifoKept(s: State, a: Action)
    requires Shape(s) && Fifo(s) && Enabled(s, a)
    ensures Shape(Step(s, a)) && Fifo(Step(s, a))
  {
    hide ThreadOk, Ring.Contents, Ring.Count, Ring.Valid;
    ShapeKept(s, a);
    if a.Add? {
      FifoAdd(s, a.t);
    } else if a.Remove? {
      FifoRemove(s, a.t);
    }
  }

  // ---- Packet ownership ---------------------------------------------------------------------------

  function Holds(p: PacketRef): Thread -> bool {
    (t: Thread) => t.held == Some(p)
  }

  predicate HoldsAny(t: Thread) { t.held.Some? }

  /** How many times packet p is in the freed list, in the queue, or in the hands of a thread. */
  ghost function Places(s: State, p: PacketRef): nat
    requires s.ring.Valid()
  {
    multiset(s.freed)[p] + multiset(s.ring.Contents())[p] + Count(s.threads, Holds(p))
  }

  /** Every allocated packet is in exactly one place, and there are no others. */
  ghost predicate Owned(s: State)
    requires s.ring.Valid()
  {
    && (forall p: PacketRef :: Places(s, p) == if p < |s.data| then 1 else 0)
    && |s.data| == |s.freed| + s.ring.Count() + Count(s.threads, HoldsAny)
  }

  function HandCount(t: Thread, p: PacketRef): nat {
    if t.held == Some(p) then 1 else 0
  }

  /** Packet p in the lists of s and in the hands of thread t. */
  ghost function Near(s: State, t: nat, p: PacketRef): nat
    requires s.ring.Valid() && t < |s.threads|
  {
    multiset(s.freed)[p] + multiset(s.ring.Contents())[p] + HandCount(s.threads[t], p)
  }

  ghost function NearTotal(s: State, t: nat): nat
    requires s.ring.Valid() && t < |s.threads|
  {
    |s.freed| + s.ring.Count() + if s.threads[t].held.Some? then 1 else 0
  }

  /** A step of thread t moves packets only between the lists and the hands of t. */
  lemma OwnedMoves(s: State, s': State, t: nat)
    requires s.ring.Valid() && s'.ring.Valid() && Owned(s)
    requires t < |s.threads| == |s'.threads| && s'.threads == s.threads[t := s'.threads[t]]
    requires |s.data| <= |s'.data|
    requires forall p: PacketRef ::
               Near(s', t, p) == Near(s, t, p) + if |s.data| <= p < |s'.data| then 1 else 0
    requires NearTotal(s', t) == NearTotal(s, t) + |s'.data| - |s.data|
    ensures Owned(s')
  {
    CountUpdate(s.threads, t, s'.threads[t], HoldsAny);
    forall p: PacketRef
      ensures Places(s', p) == if p < |s'.data| then 1 else 0
    {
      CountUpdate(s.threads, t, s'.threads[t], Holds(p));
      assert Places(s, p) == if p < |s.data| then 1 else 0;
      assert Near(s', t, p) == Near(s, t, p) + if |s.data| <= p < |s'.data| then 1 else 0;
    }
  }

  lemma OwnedSame(s: State, s': State, t: nat)
    requires s.ring.Valid() && s'.ring == s.ring && s'.data == s.data && s'.freed == s.freed && Owned(s)
    requires t < |s.threads| == |s'.threads| && s'.threads == s.threads[t := s'.threads[t]]
    requires s'.threads[t].held == s.threads[t].held
    ensures Owned(s')
  {
    OwnedMoves(s, s', t);
  }

  lemma OwnedAdd(s: State, t: nat)
    requires Shape(s) && Owned(s) && Enabled(s, Add(t))
    ensures Shape(Step(s, Add(t))) && Owned(Step(s, Add(t)))
  {
    PutRefinesEnqueue(s.ring, s.threads[t].held.value);
    ShapeKept(s, Add(t));
    OwnedMoves(s, Step(s, Add(t)), t);
  }

  lemma OwnedRemove(s: State, t: nat)
    requires Shape(s) && Owned(s) && Enabled(s, Remove(t))
    ensures Shape(Step(s, Remove(t))) && Owned(Step(s, Remove(t)))
  {
    TakeRefinesDequeue(s.ring);
    ShapeKept(s, Remove(t));
    OwnedMoves(s, Step(s, Remove(t)), t);
  }

  lemma OwnedProduce(s: State, t: nat, packet: bytes)
    requires Shape(s) && Owned(s) && Enabled(s, Produce(t, packet))
    ensures Shape(Step(s, Produce(t, packet))) && Owned(Step(s, Produce(t, packet)))
  {
    ShapeKept(s, Produce(t, packet));
    OwnedMoves(s, Step(s, Produce(t, packet)), t);
  }

  lemma OwnedFree(s: State, t: nat)
    requires Shape(s) && Owned(s) && Enabled(s, Free(t))
    ensures Shape(Step(s, Free(t))) && Owned(Step(s, Free(t)))
  {
    ShapeKept(s, Free(t));
    OwnedMoves(s, Step(s, Free(t)), t);
  }

  lemma OwnedKept(s: State, a: Action)
    requires Shape(s) && Owned(s) && Enabled(s, a)
    ensures Shape(Step(s, a)) && Owned(Step(s, a))
  {
    ShapeKept(s, a);
    var s' := Step(s, a);
    match a {
      case Produce(t, packet) => OwnedProduce(s, t, packet);
      case Free(t) => OwnedFree(s, t);
      case Add(t) => OwnedAdd(s, t);
      case Remove(t) => OwnedRemove(s, t);
      case SignalTo(t, u) =>
        OwnedSame(s, Signalled(s, t), t);
        OwnedSame(Signalled(s, t), s', u);
      case SignalTaken(t, u) =>
        OwnedSame(s, Signalled(s, t), t);
        OwnedSame(Signalled(s, t), s', u);
      case WaitError(t) =>
      case Spurious(u) => OwnedSame(s, s', u);
      case Expire(u) => OwnedSame(s, s', u);
      case _ => OwnedSame(s, s', a.t);
    }
  }

  // ---- Wakeups -----------------------------------------------------------------------------------

  /** Will look at the queue before it can miss an item: a woken consumer, or an add not yet signalled. */
  predicate CoversItem(t: Thread) { WokenConsumer(t) || UnsignalledAdd(t) }
  predicate CoversSlot(t: Thread) { WokenProducer(t) || UnsignalledRemove(t) }

  /** If a thread is asleep, at least `need` threads cover for it. */
  ghost predicate Covered(threads: seq<Thread>, asleep: Thread -> bool, covers: Thread -> bool, need: int) {
    Count(threads, asleep) > 0 ==> need <= Count(threads, covers)
  }

  /** If consumers sleep, every queued item is spoken for. */
  ghost predicate NoLostItem(s: State)
    requires s.ring.Valid()
  {
    ItemsCovered(s, CoversItem)
  }

  ghost predicate ItemsCovered(s: State, covers: Thread -> bool)
    requires s.ring.Valid()
  {
    Covered(s.threads, SleepingConsumer, covers, s.ring.Count())
  }

  /** A timed consumer that may have consumed a signal for nothing: it holds no item and is not in its wait. */
  predicate MayHaveSwallowed(t: Thread) {
    t.kind.TimedConsumer? && (t.phase.Idle? || t.phase.AtMutex? || t.phase.Expiring? || t.phase.Leaving?)
  }

  predicate CoversOrSwallowed(t: Thread) { CoversItem(t) || MayHaveSwallowed(t) }

  /** If producers sleep, every free slot is spoken for. */
  ghost predicate NoLostSlot(s: State)
    requires s.ring.Valid()
  {
    Covered(s.threads, SleepingProducer, CoversSlot, |s.ring.buf| - s.ring.Count())
  }

  /** One thread moves: what it stops covering must be paid for by what is no longer needed. */
  lemma CoverMove(threads: seq<Thread>, t: nat, x: Thread,
                  asleep: Thread -> bool, covers: Thread -> bool, need: int, need': int)
    requires t < |threads| && Covered(threads, asleep, covers, need)
    requires asleep(x) ==> asleep(threads[t])
    requires need' + (if covers(threads[t]) then 1 else 0) <= need + (if covers(x) then 1 else 0)
    ensures Covered(threads[t := x], asleep, covers, need')
  {
    CountUpdate(threads, t, x, asleep);
    CountUpdate(threads, t, x, covers);
  }

  /** Two threads move at once: together they cover no less than before. */
  lemma CoverTwo(threads: seq<Thread>, t: nat, x: Thread, u: nat, y: Thread,
                 asleep: Thread -> bool, covers: Thread -> bool, need: int)
    requires t < |threads| && u < |threads| && t != u && Covered(threads, asleep, covers, need)
    requires (asleep(x) ==> asleep(threads[t])) && (asleep(y) ==> asleep(threads[u]))
    requires (if covers(threads[t]) then 1 else 0) + (if covers(threads[u]) then 1 else 0)
          <= (if covers(x) then 1 else 0) + (if covers(y) then 1 else 0)
    ensures Covered(threads[t := x][u := y], asleep, covers, need)
  {
    CountUpdate(threads, t, x, asleep);
    CountUpdate(threads, t, x, covers);
    CountUpdate(threads[t := x], u, y, asleep);
    CountUpdate(threads[t := x], u, y, covers);
  }

  /** The last step of a signal when nobody was asleep. */
  lemma CoverNobody(threads: seq<Thread>, t: nat, x: Thread,
                    asleep: Thread -> bool, covers: Thread -> bool, need: int)
    requires t < |threads| && Count(threads, asleep) == 0 && !asleep(x)
    ensures Covered(threads[t := x], asleep, covers, need)
  {
    CountUpdate(threads, t, x, asleep);
  }

  lemma {:induction false} CountSplit(threads: seq<Thread>)
    ensures Count(threads, CoversItem) == Count(threads, WokenConsumer) + Count(threads, UnsignalledAdd)
    ensures Count(threads, CoversSlot) == Count(threads, WokenProducer) + Count(threads, UnsignalledRemove)
    ensures Count(threads, CoversOrSwallowed) == Count(threads, CoversItem) + Count(threads, MayHaveSwallowed)
  {
    if threads != [] {
      CountSplit(threads[..|threads| - 1]);
    }
  }

  ghost predicate HasKinds(s: State, kinds: seq<Kind>) {
    |s.threads| == |kinds| && forall i :: 0 <= i < |kinds| ==> s.threads[i].kind == kinds[i]
  }

  /** The set-ups in which a signal cannot be swallowed by one consumer while another one needs it. */
  ghost predicate SignalsSuffice(kinds: seq<Kind>) {
    || (forall i :: 0 <= i < |kinds| ==> kinds[i].Consumes())
    || (forall i :: 0 <= i < |kinds| ==> !kinds[i].TimedConsumer?)
    || (forall i, j :: 0 <= i < |kinds| && 0 <= j < |kinds| && kinds[i].Consumes() && kinds[j].Consumes() ==> i == j)
  }

  lemma NobodySleepsFor(s: State, t: nat)
    requires t < |s.threads| && forall u :: !SleepsFor(s, t, u)
    ensures Count(s.threads, if s.threads[t].kind.Producer? then SleepingConsumer else SleepingProducer) == 0
  {
    var f := if s.threads[t].kind.Producer? then SleepingConsumer else SleepingProducer;
    CountWitness(s.threads, f);
    if Count(s.threads, f) > 0 {
      var u :| 0 <= u < |s.threads| && f(s.threads[u]);
      assert SleepsFor(s, t, u);
    }
  }

  lemma NoLostSlotSignals(s: State, a: Action)
    requires (a.SignalTo? || a.SignalTaken? || a.Signal?) && Shape(s) && NoLostSlot(s) && Enabled(s, a)
    ensures Shape(Step(s, a)) && NoLostSlot(Step(s, a))
  {
    ShapeKept(s, a);
    hide Count, Covered, Ring.Contents, Ring.Count, Ring.Valid;
    var s' := Step(s, a);
    var n: int := |s.ring.buf| - s.ring.Count();
    if a.Signal? {
      NobodySleepsFor(s, a.t);
      if s.threads[a.t].kind.Consumes() {
        CoverNobody(s.threads, a.t, s'.threads[a.t], SleepingProducer, CoversSlot, n);
      } else {
        CoverMove(s.threads, a.t, s'.threads[a.t], SleepingProducer, CoversSlot, n, n);
      }
    } else {
      CoverTwo(s.threads, a.t, s'.threads[a.t], a.u, s'.threads[a.u], SleepingProducer, CoversSlot, n);
    }
  }

  lemma NoLostSlotKept(s: State, a: Action)
    requires Shape(s) && NoLostSlot(s) && Enabled(s, a)
    ensures Shape(Step(s, a)) && NoLostSlot(Step(s, a))
  {
    ShapeKept(s, a);
    RingGeometry(s.ring);
    hide Count, Covered, Ring.Contents;
    var s' := Step(s, a);
    var n: int, n': int := |s.ring.buf| - s.ring.Count(), |s'.ring.buf| - s'.ring.Count();
    match a {
      case SignalTo(_, _) => NoLostSlotSignals(s, a);
      case SignalTaken(_, _) => NoLostSlotSignals(s, a);
      case Signal(_) => NoLostSlotSignals(s, a);
      case Add(t) =>
        PutRefinesEnqueue(s.ring, s.threads[t].held.value);
        CoverMove(s.threads, t, s'.threads[t], SleepingProducer, CoversSlot, n, n');
      case Remove(t) =>
        TakeRefinesDequeue(s.ring);
        CoverMove(s.threads, t, s'.threads[t], SleepingProducer, CoversSlot, n, n');
      case Sleep(t) =>
        if s.threads[t].kind.Producer? {
          assert n' == 0;
        } else {
          CoverMove(s.threads, t, s'.threads[t], SleepingProducer, CoversSlot, n, n);
        }
      case WaitError(t) =>
      case Spurious(u) => CoverMove(s.threads, u, s'.threads[u], SleepingProducer, CoversSlot, n, n);
      case Expire(u) => CoverMove(s.threads, u, s'.threads[u], SleepingProducer, CoversSlot, n, n);
      case _ => CoverMove(s.threads, a.t, s'.threads[a.t], SleepingProducer, CoversSlot, n, n);
    }
  }

  /** A swallowed signal does no harm when nobody else is asleep. */
  lemma SwallowedSignal(s: State, kinds: seq<Kind>, t: nat, u: nat)
    requires HasKinds(s, kinds) && SignalsSuffice(kinds) && Enabled(s, SignalTaken(t, u))
    ensures Count(Step(s, SignalTaken(t, u)).threads, SleepingConsumer) == 0
  {
    var s' := Step(s, SignalTaken(t, u));
    assert kinds[t].Producer? && kinds[u].TimedConsumer?;
    forall v | 0 <= v < |s'.threads|
      ensures !SleepingConsumer(s'.threads[v])
    {
      assert kinds[v] == s.threads[v].kind;
    }
    CountWitness(s'.threads, SleepingConsumer);
  }

  /**
   * The two counts of who accounts for items: strictly, or with the timed consumers that may have swallowed a
   * signal.
   */
  ghost predicate ItemCover(covers: Thread -> bool) {
    covers == CoversItem || covers == CoversOrSwallowed
  }

  lemma ItemsCoveredSignals(s: State, a: Action, covers: Thread -> bool)
    requires Shape(s) && ItemCover(covers) && ItemsCovered(s, covers) && Enabled(s, a)
    requires a.SignalTo? || a.Signal? || (a.SignalTaken? && covers == CoversOrSwallowed)
    ensures Shape(Step(s, a)) && ItemsCovered(Step(s, a), covers)
  {
    ShapeKept(s, a);
    hide Count, Covered, Ring.Contents, Ring.Count, Ring.Valid;
    var s' := Step(s, a);
    var n: int := s.ring.Count();
    if a.Signal? {
      NobodySleepsFor(s, a.t);
      if s.threads[a.t].kind.Producer? {
        CoverNobody(s.threads, a.t, s'.threads[a.t], SleepingConsumer, covers, n);
      } else {
        CoverMove(s.threads, a.t, s'.threads[a.t], SleepingConsumer, covers, n, n);
      }
    } else {
      CoverTwo(s.threads, a.t, s'.threads[a.t], a.u, s'.threads[a.u], SleepingConsumer, covers, n);
    }
  }

  /** The steps that change the queue, or put a consumer to sleep. */
  lemma ItemsCoveredCritical(s: State, a: Action, covers: Thread -> bool)
    requires Shape(s) && ItemCover(covers) && ItemsCovered(s, covers) && Enabled(s, a)
    requires a.Add? || a.Remove? || a.Sleep?
    ensures Shape(Step(s, a)) && ItemsCovered(Step(s, a), covers)
  {
    ShapeKept(s, a);
    RingGeometry(s.ring);
    hide Count, Covered, Ring.Contents;
    var s' := Step(s, a);
    var n: int, n': int := s.ring.Count(), s'.ring.Count();
    if a.Sleep? && s.threads[a.t].kind.Consumes() {
      assert n' == 0;
    } else {
      if a.Add? {
        PutRefinesEnqueue(s.ring, s.threads[a.t].held.value);
      } else if a.Remove? {
        TakeRefinesDequeue(s.ring);
      }
      CoverMove(s.threads, a.t, s'.threads[a.t], SleepingConsumer, covers, n, n');
    }
  }

  lemma ItemsCoveredKept(s: State, a: Action, covers: Thread -> bool)
    requires Shape(s) && ItemCover(covers) && ItemsCovered(s, covers) && Enabled(s, a)
    requires a.SignalTaken? ==> covers == CoversOrSwallowed
    ensures Shape(Step(s, a)) && ItemsCovered(Step(s, a), covers)
  {
    ShapeKept(s, a);
    hide Count, Covered, Ring.Contents, Ring.Count, Ring.Valid;
    var s' := Step(s, a);
    var n: int := s.ring.Count();
    match a {
      case SignalTo(_, _) => ItemsCoveredSignals(s, a, covers);
      case SignalTaken(_, _) => ItemsCoveredSignals(s, a, covers);
      case Signal(_) => ItemsCoveredSignals(s, a, covers);
      case Add(_) => ItemsCoveredCritical(s, a, covers);
      case Remove(_) => ItemsCoveredCritical(s, a, covers);
      case Sleep(_) => ItemsCoveredCritical(s, a, covers);
      case WaitError(_) =>
      case Spurious(u) => CoverMove(s.threads, u, s'.threads[u], SleepingConsumer, covers, n, n);
      case Expire(u) => CoverMove(s.threads, u, s'.threads[u], SleepingConsumer, covers, n, n);
      case _ => CoverMove(s.threads, a.t, s'.threads[a.t], SleepingConsumer, covers, n, n);
    }
  }

  lemma NoLostItemKept(s: State, kinds: seq<Kind>, a: Action)
    requires Shape(s) && NoLostItem(s) && Enabled(s, a)
    requires HasKinds(s, kinds) && SignalsSuffice(kinds)
    ensures Shape(Step(s, a)) && NoLostItem(Step(s, a))
  {
    if a.SignalTaken? {
      ShapeKept(s, a);
      hide Count;
      SwallowedSignal(s, kinds, a.t, a.u);
    } else {
      ItemsCoveredKept(s, a, CoversItem);
    }
  }

  // ---- Whole runs ---------------------------------------------------------------------------------

  ghost predicate Inv(s: State, kinds: seq<Kind>) {
    && Shape(s) && HasKinds(s, kinds) && Fifo(s) && Owned(s) && NoLostSlot(s) && ItemsCovered(s, CoversOrSwallowed)
    && (SignalsSuffice(kinds) ==> NoLostItem(s))
  }

  lemma InitInv(s: State, kinds: seq<Kind>, capacity: nat)
    requires Init(s, kinds, capacity)
    ensures Inv(s, kinds)
  {
    RingGeometry(s.ring);
    CountWitness(s.threads, HoldsAny);
    CountWitness(s.threads, SleepingProducer);
    forall p: PacketRef
      ensures Places(s, p) == 0
    {
      CountWitness(s.threads, Holds(p));
    }
  }

  lemma KindsKept(s: State, kinds: seq<Kind>, a: Action)
    requires HasKinds(s, kinds) && Enabled(s, a)
    ensures HasKinds(Step(s, a), kinds)
  {
  }

  lemma StepInv(s: State, kinds: seq<Kind>, a: Action)
    requires Inv(s, kinds) && Enabled(s, a)
    ensures Inv(Step(s, a), kinds) && |Step(s, a).ring.buf| == |s.ring.buf|
  {
    ShapeKept(s, a);
    KindsKept(s, kinds, a);
    hide Shape, Fifo, Owned, NoLostSlot, NoLostItem, ItemsCovered, HasKinds, Step, Enabled;
    FifoKept(s, a);
    OwnedKept(s, a);
    NoLostSlotKept(s, a);
    ItemsCoveredKept(s, a, CoversOrSwallowed);
    if SignalsSuffice(kinds) {
      NoLostItemKept(s, kinds, a);
    }
  }

  lemma {:induction false} RunInv(s: State, kinds: seq<Kind>, run: seq<Action>)
    requires Inv(s, kinds) && IsRun(s, run)
    ensures Inv(Exec(s, run), kinds) && |Exec(s, run).ring.buf| == |s.ring.buf|
    decreases |run|
  {
    if run != [] {
      StepInv(s, kinds, run[0]);
      RunInv(Step(s, run[0]), kinds, run[1..]);
    }
  }

  lemma ReachableInv(s: State, kinds: seq<Kind>, capacity: nat)
    requires Reachable(s, kinds, capacity)
    ensures Inv(s, kinds) && |s.ring.buf| == capacity > 0
  {
    var s0, run :| Init(s0, kinds, capacity) && IsRun(s0, run) && Exec(s0, run) == s;
    InitInv(s0, kinds, capacity);
    RunInv(s0, kinds, run);
  }

  // ---- Main results -------------------------------------------------------------------------------

  /**
   * No wakeup is lost, whatever the scheduler, spurious wakeups and timeouts do. Producers never miss a
   * free slot. Consumers miss at most the items whose signals timed consumers may have swallowed, and
   * none at all where no signal can be swallowed for another.
   */
  lemma NoLostWakeup(s: State, kinds: seq<Kind>, capacity: nat)
    requires Reachable(s, kinds, capacity)
    ensures s.ring.Valid()
    ensures Count(s.threads, SleepingProducer) > 0 ==>
              capacity - s.ring.Count() <= Count(s.threads, WokenProducer) + Count(s.threads, UnsignalledRemove)
    ensures Count(s.threads, SleepingConsumer) > 0 ==>
              s.ring.Count() <= Count(s.threads, WokenConsumer) + Count(s.threads, UnsignalledAdd)
                                + Count(s.threads, MayHaveSwallowed)
    ensures SignalsSuffice(kinds) && Count(s.threads, SleepingConsumer) > 0 ==>
              s.ring.Count() <= Count(s.threads, WokenConsumer) + Count(s.threads, UnsignalledAdd)
  {
    ReachableInv(s, kinds, capacity);
    CountSplit(s.threads);
  }

  predicate IsConsumer(k: Kind) { k.Consumes() }
  predicate IsTimed(k: Kind) { k.TimedConsumer? }

  /** Enough timed consumers to swallow the signals of a whole queue, and one more consumer to miss them. */
  ghost predicate CanStandStill(kinds: seq<Kind>, capacity: nat) {
    && (exists i :: 0 <= i < |kinds| && kinds[i].Producer?)
    && Count(kinds, IsTimed) >= capacity
    && Count(kinds, IsConsumer) > capacity
  }

  /** A wakeup is under way: woken, at the test, or about to signal. */
  predicate WakeupUnderWay(t: Thread) {
    t.phase.Waking? || t.phase.Testing? || t.phase.Signalling?
  }

  /** A producer and a consumer are both asleep, and no wakeup is under way. */
  ghost predicate StandStill(s: State) {
    && (exists i :: 0 <= i < |s.threads| && SleepingConsumer(s.threads[i]))
    && (exists i :: 0 <= i < |s.threads| && SleepingProducer(s.threads[i]))
    && (forall i :: 0 <= i < |s.threads| ==> !WakeupUnderWay(s.threads[i]))
  }

  /** Nobody is awake: only counting remains of the wakeup bounds. */
  lemma NothingUnderWay(threads: seq<Thread>)
    requires forall i :: 0 <= i < |threads| ==> !WakeupUnderWay(threads[i])
    ensures Count(threads, WokenConsumer) == Count(threads, WokenProducer) == 0
    ensures Count(threads, UnsignalledAdd) == Count(threads, UnsignalledRemove) == 0
  {
    CountWitness(threads, WokenConsumer);
    CountWitness(threads, WokenProducer);
    CountWitness(threads, UnsignalledAdd);
    CountWitness(threads, UnsignalledRemove);
  }

  /**
   * A producer and a consumer are never both asleep with no wakeup under way, unless a whole queue of signals
   * can be swallowed.
   */
  lemma NeverBothAsleep(s: State, kinds: seq<Kind>, capacity: nat)
    requires Reachable(s, kinds, capacity) && StandStill(s)
    ensures CanStandStill(kinds, capacity)
  {
    ReachableInv(s, kinds, capacity);
    NoLostWakeup(s, kinds, capacity);
    hide Reachable, Shape, Fifo, Owned, NoLostSlot, NoLostItem, ItemsCovered, Ring.Valid, Ring.Count, Count;
    NothingUnderWay(s.threads);
    CountWitness(s.threads, SleepingConsumer);
    CountWitness(s.threads, SleepingProducer);
    CountAtMost(s.threads, kinds, MayHaveSwallowed, IsTimed);
    CountAtMost(s.threads, kinds, MayHaveSwallowed, IsConsumer);
    var c :| 0 <= c < |s.threads| && SleepingConsumer(s.threads[c]);
    var p :| 0 <= p < |s.threads| && SleepingProducer(s.threads[p]);
    assert !MayHaveSwallowed(s.threads[c]) && IsConsumer(kinds[c]) && kinds[p].Producer?;
  }

  /** Nobody is inside the queue, except asleep. */
  ghost predicate Quiet(s: State) {
    forall i :: 0 <= i < |s.threads| ==> s.threads[i].phase in {Idle, Sleeping, Using}
  }

  ghost predicate ConsumersSleepOnEmpty(s: State) {
    (exists i :: 0 <= i < |s.threads| && SleepingConsumer(s.threads[i])) ==> s.ring.empty
  }

  ghost predicate ProducersSleepOnFull(s: State) {
    (exists i :: 0 <= i < |s.threads| && SleepingProducer(s.threads[i])) ==> s.ring.full
  }

  /**
   * Once nobody is awake inside the queue, producers sleep for a reason, and so do consumers if no signal can
   * be swallowed.
   */
  lemma SleepersAreRight(s: State, kinds: seq<Kind>, capacity: nat)
    requires Reachable(s, kinds, capacity) && Quiet(s)
    ensures ProducersSleepOnFull(s)
    ensures SignalsSuffice(kinds) ==> ConsumersSleepOnEmpty(s)
  {
    NoLostWakeup(s, kinds, capacity);
    ReachableInv(s, kinds, capacity);
    RingGeometry(s.ring);
    NothingUnderWay(s.threads);
    hide Inv, Reachable, Ring.Contents, Ring.Count, Count;
    CountWitness(s.threads, SleepingConsumer);
    CountWitness(s.threads, SleepingProducer);
  }

  /** The queue delivers every packet once, in the order the adds took effect. */
  lemma QueueIsFifo(s: State, kinds: seq<Kind>, capacity: nat)
    requires Reachable(s, kinds, capacity)
    ensures s.ring.Valid() && s.ring.Count() <= capacity
    ensures s.added == s.removed + s.ring.Contents()
  {
    ReachableInv(s, kinds, capacity);
  }

  /** Packets: conservation, no double free, and nobody holds (so nobody reads) a freed packet. */
  lemma PacketsAreOwned(s: State, kinds: seq<Kind>, capacity: nat)
    requires Reachable(s, kinds, capacity)
    ensures s.ring.Valid()
    ensures |s.data| == |s.freed| + s.ring.Count() + Count(s.threads, HoldsAny)
    ensures forall p: PacketRef :: multiset(s.freed)[p] <= 1
    ensures forall i :: 0 <= i < |s.threads| && s.threads[i].held.Some? ==>
              var p := s.threads[i].held.value;
              p < |s.data| && p !in s.freed && p !in s.ring.Contents()
    ensures forall i, j :: 0 <= i < j < |s.threads| && s.threads[i].held.Some? ==>
              s.threads[i].held != s.threads[j].held
  {
    ReachableInv(s, kinds, capacity);
    forall p: PacketRef
      ensures multiset(s.freed)[p] <= 1
    {
      assert Places(s, p) <= 1;
    }
    forall i | 0 <= i < |s.threads| && s.threads[i].held.Some?
      ensures var p := s.threads[i].held.value;
              p < |s.data| && p !in s.freed && p !in s.ring.Contents()
    {
      HeldAlone(s, i, s.threads[i].held.value);
    }
    forall i, j | 0 <= i < j < |s.threads| && s.threads[i].held.Some?
      ensures s.threads[i].held != s.threads[j].held
    {
      var p := s.threads[i].held.value;
      assert Places(s, p) <= 1;
      CountTwo(s.threads, i, j, Holds(p));
    }
  }

  lemma HeldAlone(s: State, i: nat, p: PacketRef)
    requires Shape(s) && Owned(s) && i < |s.threads| && s.threads[i].held == Some(p)
    ensures p < |s.data| && p !in s.freed && p !in s.ring.Contents()
  {
    CountWitness(s.threads, Holds(p));
    assert Holds(p)(s.threads[i]);
    assert Places(s, p) == if p < |s.data| then 1 else 0;
  }

  lemma {:induction false} CountTwo(threads: seq<Thread>, i: nat, j: nat, f: Thread -> bool)
    requires i < j < |threads|
    ensures f(threads[i]) && f(threads[j]) ==> Count(threads, f) >= 2
  {
    var last := |threads| - 1;
    if j < last {
      CountTwo(threads[..last], i, j, f);
    } else {
      CountWitness(threads[..last], f);
      assert threads[..last][i] == threads[i];
    }
  }

  // ---- Exactly when no wakeup is lost -------------------------------------------------------------

  lemma {:induction false} RunSnoc(s: State, run: seq<Action>, a: Action)
    requires IsRun(s, run) && Enabled(Exec(s, run), a)
    ensures IsRun(s, run + [a]) && Exec(s, run + [a]) == Step(Exec(s, run), a)
    decreases |run|
  {
    if run == [] {
      assert (run + [a])[1..] == [];
    } else {
      assert (run + [a])[1..] == run[1..] + [a];
      RunSnoc(Step(s, run[0]), run[1..], a);
    }
  }

  lemma ReachableStep(s: State, kinds: seq<Kind>, capacity: nat, a: Action)
    requires Reachable(s, kinds, capacity) && Enabled(s, a)
    ensures Reachable(Step(s, a), kinds, capacity)
  {
    var s0, run :| Init(s0, kinds, capacity) && IsRun(s0, run) && Exec(s0, run) == s;
    RunSnoc(s0, run, a);
  }

  /** A consumer that finds the queue empty can go to sleep. */
  lemma FallAsleep(s: State, kinds: seq<Kind>, capacity: nat, t: nat)
    requires Reachable(s, kinds, capacity) && s.owner.None? && s.ring.empty
    requires At(s, t, Idle) && s.threads[t].kind.Consumes()
    ensures Reachable(Goto(s, t, Sleeping), kinds, capacity)
  {
    var s1 := Step(s, Consume(t));
    ReachableStep(s, kinds, capacity, Consume(t));
    var s2 := Step(s1, Lock(t));
    ReachableStep(s1, kinds, capacity, Lock(t));
    ReachableStep(s2, kinds, capacity, Sleep(t));
    assert Step(s2, Sleep(t)) == Goto(s, t, Sleeping);
  }

  /** A producer can add an item, up to the point where it has not signalled yet. */
  lemma AddUnsignalled(s: State, kinds: seq<Kind>, capacity: nat, t: nat) returns (s': State)
    requires Reachable(s, kinds, capacity) && s.owner.None? && s.ring.Valid() && !s.ring.full
    requires At(s, t, Idle) && s.threads[t].kind.Producer?
    ensures Reachable(s', kinds, capacity) && s'.owner.None? && s'.ring == s.ring.Put(|s.data|)
    ensures s'.threads == s.threads[t := Thread(Producer, Signalling, None)]
  {
    var s1 := Step(s, Produce(t, []));
    ReachableStep(s, kinds, capacity, Produce(t, []));
    var s2 := Step(s1, Lock(t));
    ReachableStep(s1, kinds, capacity, Lock(t));
    s' := Step(s2, Add(t));
    ReachableStep(s2, kinds, capacity, Add(t));
  }

  /** p adds an item and its signal is swallowed: the timed consumer a, asleep before, expires. */
  lemma AddSwallowed(s: State, kinds: seq<Kind>, capacity: nat, p: nat, a: nat) returns (s': State)
    requires Reachable(s, kinds, capacity) && s.owner.None? && s.ring.Valid() && !s.ring.full
    requires At(s, p, Idle) && s.threads[p].kind.Producer?
    requires At(s, a, Sleeping) && s.threads[a].kind.TimedConsumer?
    ensures Reachable(s', kinds, capacity) && s'.owner.None? && s'.ring.Valid()
    ensures s'.ring.Count() == s.ring.Count() + 1 && |s'.ring.buf| == |s.ring.buf|
    ensures s'.threads == s.threads[p := Thread(Producer, Idle, None)][a := s.threads[a].(phase := Expiring)]
  {
    var s1 := AddUnsignalled(s, kinds, capacity, p);
    PutRefinesEnqueue(s.ring, |s.data|);
    assert Enabled(s1, SignalTaken(p, a));
    ReachableStep(s1, kinds, capacity, SignalTaken(p, a));
    s' := Step(s1, SignalTaken(p, a));
    assert |s'.ring.Contents()| == |s.ring.Contents()| + 1;
    assert s'.threads == s1.threads[p := Thread(Producer, Idle, None)][a := s'.threads[a]];
  }

  /** A sleeper, an item, and nobody who would wake the sleeper. */
  lemma Stranded(s: State, b: nat)
    requires s.ring.Valid() && s.ring.Count() > 0
    requires At(s, b, Sleeping) && s.threads[b].kind.Consumes()
    requires forall i :: 0 <= i < |s.threads| ==> !CoversItem(s.threads[i])
    ensures !NoLostItem(s)
  {
    CountWitness(s.threads, SleepingConsumer);
    CountWitness(s.threads, CoversItem);
  }

  lemma SwallowingSetup(kinds: seq<Kind>) returns (p: nat, a: nat, b: nat)
    requires !SignalsSuffice(kinds)
    ensures p < |kinds| && kinds[p].Producer?
    ensures a < |kinds| && kinds[a].TimedConsumer?
    ensures b < |kinds| && kinds[b].Consumes() && a != b
  {
    p :| 0 <= p < |kinds| && !kinds[p].Consumes();
    a :| 0 <= a < |kinds| && kinds[a].TimedConsumer?;
    var i, j :| 0 <= i < |kinds| && 0 <= j < |kinds| && kinds[i].Consumes() && kinds[j].Consumes() && i != j;
    b := if i == a then j else i;
  }

  /** Before anything has happened. */
  lemma Beginning(kinds: seq<Kind>, capacity: nat) returns (s: State)
    requires capacity > 0
    ensures Reachable(s, kinds, capacity) && Init(s, kinds, capacity)
  {
    s := State(Ring(seq(capacity, i => 0), 0, 0, false, true), None,
               seq(|kinds|, i requires 0 <= i < |kinds| => Thread(kinds[i], Idle, None)), [], [], [], []);
    assert Init(s, kinds, capacity) && IsRun(s, []) && Exec(s, []) == s;
  }

  /** The timed consumer a has swallowed the signal for the one item, and b sleeps on. */
  ghost predicate Swallowed(s: State, a: nat, b: nat) {
    && s.owner.None? && s.ring.Valid() && s.ring.Count() > 0
    && At(s, a, Expiring) && At(s, b, Sleeping) && s.threads[b].kind.Consumes()
    && (forall i :: 0 <= i < |s.threads| && i != a && i != b ==> s.threads[i].phase.Idle?)
  }

  lemma ItemCanBeLost(kinds: seq<Kind>, capacity: nat) returns (bad: State, a: nat, b: nat)
    requires capacity > 0 && !SignalsSuffice(kinds)
    ensures Reachable(bad, kinds, capacity) && Swallowed(bad, a, b) && !NoLostItem(bad)
  {
    var p;
    p, a, b := SwallowingSetup(kinds);
    var s0 := Beginning(kinds, capacity);
    FallAsleep(s0, kinds, capacity, a);
    var s1 := Goto(s0, a, Sleeping);
    FallAsleep(s1, kinds, capacity, b);
    bad := AddSwallowed(Goto(s1, b, Sleeping), kinds, capacity, p, a);
    Stranded(bad, b);
  }

  /**
   * Consumers never miss an item, in any run, exactly in the set-ups where no signal can be swallowed for
   * another.
   */
  lemma NoLostItemIff(kinds: seq<Kind>, capacity: nat)
    requires capacity > 0
    ensures SignalsSuffice(kinds) <==>
              forall s :: Reachable(s, kinds, capacity) ==> s.ring.Valid() && NoLostItem(s)
  {
    if SignalsSuffice(kinds) {
      forall s | Reachable(s, kinds, capacity)
        ensures s.ring.Valid() && NoLostItem(s)
      {
        ReachableInv(s, kinds, capacity);
      }
    } else {
      var bad, a, b := ItemCanBeLost(kinds, capacity);
      assert Reachable(bad, kinds, capacity) && !NoLostItem(bad);
    }
  }
}
