/**
 * Where the promises of the queue end: exactly which threads and capacities let a sleeper be left
 * asleep, and exactly when the error result of queueRemNonBlock means an empty queue.
 */
module MonitorLimits {
  import opened Prelude
  import opened RingQueue
  import opened Monitor

  // ---- Nobody is stuck ------------------------------------------------------------------------------

  /** Thread t of its own accord goes on with `a`. */
  predicate IsMoveOf(a: Action, t: nat) {
    match a
    case Produce(u, _) => u == t
    case SignalTo(u, _) => u == t
    case SignalTaken(u, _) => u == t
    case Spurious(u) => u == t
    case Expire(u) => u == t
    case _ => a.t == t
  }

  lemma SleepersMayWake(s: State, t: nat)
    requires t < |s.threads| && s.threads[t].phase.Sleeping?
    ensures Enabled(s, Spurious(t))
    ensures s.threads[t].kind.TimedConsumer? ==> Enabled(s, Expire(t))
  {
  }

  lemma LockIsFree(s: State, t: nat)
    requires t < |s.threads| && s.threads[t].phase in {AtMutex, Waking, Expiring} && s.owner.None?
    ensures Enabled(s, Lock(t))
  {
  }

  lemma OwnerIsElsewhere(s: State, t: nat)
    requires Shape(s) && t < |s.threads| && s.threads[t].phase in {AtMutex, Waking, Expiring} && s.owner.Some?
    ensures s.owner.value != t
  {
    assert ThreadOk(s.owner, s.threads[t], t);
  }

  /** At the test of its loop a thread sleeps, or goes on with the queue, as the queue has it. */
  lemma TestDecides(s: State, t: nat)
    requires Shape(s) && t < |s.threads| && s.threads[t].phase.Testing?
    ensures var blocked := if s.threads[t].kind.Producer? then s.ring.full else s.ring.empty;
            && (Enabled(s, Sleep(t)) <==> blocked)
            && (Enabled(s, Add(t)) || Enabled(s, Remove(t)) <==> !blocked)
  {
    assert ThreadOk(s.owner, s.threads[t], t);
  }

  lemma OwnMove(s: State, t: nat) returns (a: Action)
    requires Shape(s) && t < |s.threads| && s.threads[t].phase !in {AtMutex, Waking, Expiring}
    ensures IsMoveOf(a, t) && Enabled(s, a)
  {
    assert ThreadOk(s.owner, s.threads[t], t);
    hide Shape;
    match s.threads[t].phase {
      case Idle => a := if s.threads[t].kind.Producer? then Produce(t, []) else Consume(t);
      case Testing => a := TestMove(s, t);
      case Sleeping => a := Spurious(t);
      case Leaving => a := Leave(t);
      case Signalling =>
        if u: nat :| SleepsFor(s, t, u) {
          a := SignalTo(t, u);
        } else {
          a := Signal(t);
        }
      case Using => a := Free(t);
    }
  }

  lemma TestMove(s: State, t: nat) returns (a: Action)
    requires Shape(s) && t < |s.threads| && s.threads[t].phase.Testing?
    ensures IsMoveOf(a, t) && Enabled(s, a)
  {
    TestDecides(s, t);
    hide Enabled, Shape;
    if Enabled(s, Sleep(t)) {
      a := Sleep(t);
    } else if Enabled(s, Add(t)) {
      a := Add(t);
    } else {
      a := Remove(t);
    }
  }

  /**
   * Every thread can go on at any moment, unless it waits for a mutex that another thread holds. A thread
   * asleep may wake up without a signal, and in a timed wait its time may be up, whatever the queue holds.
   */
  lemma EveryThreadCanMove(s: State, kinds: seq<Kind>, capacity: nat, t: nat)
    requires Reachable(s, kinds, capacity) && t < |s.threads|
    ensures var phase := s.threads[t].phase;
            || (exists a :: IsMoveOf(a, t) && Enabled(s, a))
            || (phase in {AtMutex, Waking, Expiring} && s.owner.Some? && s.owner.value != t)
    ensures s.threads[t].phase.Sleeping? ==> Enabled(s, Spurious(t))
    ensures s.threads[t].phase.Sleeping? && s.threads[t].kind.TimedConsumer? ==> Enabled(s, Expire(t))
    ensures s.threads[t].phase.Testing? ==>
              var blocked := if s.threads[t].kind.Producer? then s.ring.full else s.ring.empty;
              && (Enabled(s, Sleep(t)) <==> blocked)
              && (Enabled(s, Add(t)) || Enabled(s, Remove(t)) <==> !blocked)
  {
    ReachableInv(s, kinds, capacity);
    hide Reachable, Fifo, Owned, NoLostSlot, NoLostItem, ItemsCovered, Enabled, Shape;
    if s.threads[t].phase.Sleeping? {
      SleepersMayWake(s, t);
    }
    if s.threads[t].phase.Testing? {
      TestDecides(s, t);
    }
    if s.threads[t].phase !in {AtMutex, Waking, Expiring} {
      var a := OwnMove(s, t);
    } else if s.owner.None? {
      LockIsFree(s, t);
      assert IsMoveOf(Lock(t), t);
    } else {
      OwnerIsElsewhere(s, t);
    }
  }

  // ---- Sleepers beside items ----------------------------------------------------------------------

  /** A swallowed signal leaves a quiet queue with an item and a consumer asleep. */
  lemma SleeperStaysAsleep(kinds: seq<Kind>, capacity: nat) returns (bad: State)
    requires capacity > 0 && !SignalsSuffice(kinds)
    ensures Reachable(bad, kinds, capacity) && Quiet(bad) && !ConsumersSleepOnEmpty(bad)
  {
    var s, a, b := ItemCanBeLost(kinds, capacity);
    hide Reachable, NoLostItem;
    var s1 := Step(s, Lock(a));
    ReachableStep(s, kinds, capacity, Lock(a));
    bad := Step(s1, Leave(a));
    ReachableStep(s1, kinds, capacity, Leave(a));
    assert SleepingConsumer(bad.threads[b]);
  }

  /**
   * A quiet queue has consumers asleep only when it is empty, in every run, exactly where no signal can be
   * swallowed for another.
   */
  lemma SleepersAreRightIff(kinds: seq<Kind>, capacity: nat)
    requires capacity > 0
    ensures SignalsSuffice(kinds) <==>
              forall s :: Reachable(s, kinds, capacity) && Quiet(s) ==> ConsumersSleepOnEmpty(s)
  {
    if SignalsSuffice(kinds) {
      forall s | Reachable(s, kinds, capacity) && Quiet(s)
        ensures ConsumersSleepOnEmpty(s)
      {
        SleepersAreRight(s, kinds, capacity);
      }
    } else {
      var bad := SleeperStaysAsleep(kinds, capacity);
      assert Reachable(bad, kinds, capacity) && Quiet(bad) && !ConsumersSleepOnEmpty(bad);
    }
  }

  // ---- A producer and a consumer both asleep --------------------------------------------------------

  predicate SleepingTimed(t: Thread) { t.kind.TimedConsumer? && t.phase.Sleeping? }

  /** The first n consumers have found the queue empty and gone to sleep. */
  ghost predicate ConsumersAsleep(s: State, kinds: seq<Kind>, n: nat) {
    && |s.threads| == |kinds| && s.owner.None? && s.ring.Valid() && s.ring.empty
    && forall i :: 0 <= i < |kinds| ==>
         s.threads[i] == Thread(kinds[i], if i < n && kinds[i].Consumes() then Sleeping else Idle, None)
  }

  lemma {:induction false} SendToSleep(kinds: seq<Kind>, capacity: nat, n: nat) returns (s: State)
    requires capacity > 0 && n <= |kinds|
    ensures Reachable(s, kinds, capacity) && ConsumersAsleep(s, kinds, n)
  {
    if n == 0 {
      s := Beginning(kinds, capacity);
    } else {
      var before := SendToSleep(kinds, capacity, n - 1);
      if kinds[n - 1].Consumes() {
        FallAsleep(before, kinds, capacity, n - 1);
        s := Goto(before, n - 1, Sleeping);
      } else {
        s := before;
      }
    }
  }

  /** Producer p has added k items, and a timed consumer has swallowed each signal. */
  ghost predicate Filling(s: State, kinds: seq<Kind>, p: nat, k: nat) {
    && HasKinds(s, kinds) && s.owner.None? && s.ring.Valid() && s.ring.Count() == k
    && At(s, p, Idle) && s.threads[p].kind.Producer?
    && (forall i :: 0 <= i < |s.threads| ==> !WakeupUnderWay(s.threads[i]))
    && Count(s.threads, SleepingTimed) + k == Count(kinds, IsTimed)
    && Count(s.threads, SleepingConsumer) + k == Count(kinds, IsConsumer)
  }

  lemma FillingStarts(s: State, kinds: seq<Kind>, p: nat)
    requires ConsumersAsleep(s, kinds, |kinds|) && p < |kinds| && kinds[p].Producer?
    ensures Filling(s, kinds, p, 0)
  {
    hide Count;
    CountAtMost(s.threads, kinds, SleepingTimed, IsTimed);
    CountAtMost(kinds, s.threads, IsTimed, SleepingTimed);
    CountAtMost(s.threads, kinds, SleepingConsumer, IsConsumer);
    CountAtMost(kinds, s.threads, IsConsumer, SleepingConsumer);
  }

  /** The threads after p has added an item whose signal a swallowed. */
  lemma OneLessAsleep(threads: seq<Thread>, p: nat, a: nat)
    requires p < |threads| && a < |threads| && threads[p].phase.Idle? && SleepingTimed(threads[a])
    ensures var threads' := threads[p := Thread(Producer, Idle, None)][a := threads[a].(phase := Expiring)];
            && Count(threads', SleepingTimed) == Count(threads, SleepingTimed) - 1
            && Count(threads', SleepingConsumer) == Count(threads, SleepingConsumer) - 1
  {
    hide Count;
    var x, y := Thread(Producer, Idle, None), threads[a].(phase := Expiring);
    CountUpdate(threads, p, x, SleepingTimed);
    CountUpdate(threads, p, x, SleepingConsumer);
    CountUpdate(threads[p := x], a, y, SleepingTimed);
    CountUpdate(threads[p := x], a, y, SleepingConsumer);
  }

  lemma FullAtCapacity(s: State, kinds: seq<Kind>, capacity: nat)
    requires Reachable(s, kinds, capacity)
    ensures s.ring.Valid() && (s.ring.full <==> s.ring.Count() == capacity)
  {
    ReachableInv(s, kinds, capacity);
    RingGeometry(s.ring);
  }

  lemma FillOne(s: State, kinds: seq<Kind>, capacity: nat, p: nat, k: nat) returns (s': State)
    requires Reachable(s, kinds, capacity) && Filling(s, kinds, p, k)
    requires k < capacity && k < Count(kinds, IsTimed)
    ensures Reachable(s', kinds, capacity) && Filling(s', kinds, p, k + 1)
  {
    hide Reachable, Count, Ring.Count, Ring.Valid, Ring.Contents;
    FullAtCapacity(s, kinds, capacity);
    CountWitness(s.threads, SleepingTimed);
    var a: nat :| a < |s.threads| && SleepingTimed(s.threads[a]);
    s' := AddSwallowed(s, kinds, capacity, p, a);
    OneLessAsleep(s.threads, p, a);
  }

  lemma {:induction false} Fill(s: State, kinds: seq<Kind>, capacity: nat, p: nat, k: nat) returns (s': State)
    requires Reachable(s, kinds, capacity) && Filling(s, kinds, p, 0)
    requires k <= capacity && k <= Count(kinds, IsTimed)
    ensures Reachable(s', kinds, capacity) && Filling(s', kinds, p, k)
  {
    hide Reachable, Filling, Count;
    s' := s;
    if k > 0 {
      s' := Fill(s, kinds, capacity, p, k - 1);
      s' := FillOne(s', kinds, capacity, p, k - 1);
    }
  }

  /** A producer that finds the queue full can go to sleep. */
  lemma ProducerFallsAsleep(s: State, kinds: seq<Kind>, capacity: nat, p: nat) returns (s': State)
    requires Reachable(s, kinds, capacity) && s.owner.None? && s.ring.full
    requires At(s, p, Idle) && s.threads[p].kind.Producer?
    ensures Reachable(s', kinds, capacity)
    ensures s'.threads == s.threads[p := Thread(Producer, Sleeping, Some(|s.data|))]
  {
    var s1 := Step(s, Produce(p, []));
    ReachableStep(s, kinds, capacity, Produce(p, []));
    var s2 := Step(s1, Lock(p));
    ReachableStep(s1, kinds, capacity, Lock(p));
    s' := Step(s2, Sleep(p));
    ReachableStep(s2, kinds, capacity, Sleep(p));
  }

  lemma LastProducerStandsStill(s: State, s': State, kinds: seq<Kind>, capacity: nat, p: nat)
    requires Filling(s, kinds, p, capacity) && Count(kinds, IsConsumer) > capacity
    requires s'.threads == s.threads[p := Thread(Producer, Sleeping, Some(|s.data|))]
    ensures StandStill(s')
  {
    hide Count, Ring.Count, Ring.Valid;
    CountWitness(s.threads, SleepingConsumer);
    var c: nat :| c < |s.threads| && SleepingConsumer(s.threads[c]);
    assert SleepingConsumer(s'.threads[c]) && SleepingProducer(s'.threads[p]);
  }

  lemma StandStillHappens(kinds: seq<Kind>, capacity: nat) returns (bad: State)
    requires capacity > 0 && CanStandStill(kinds, capacity)
    ensures Reachable(bad, kinds, capacity) && StandStill(bad)
  {
    var p: nat :| p < |kinds| && kinds[p].Producer?;
    var s0 := SendToSleep(kinds, capacity, |kinds|);
    FillingStarts(s0, kinds, p);
    var s1 := Fill(s0, kinds, capacity, p, capacity);
    FullAtCapacity(s1, kinds, capacity);
    bad := ProducerFallsAsleep(s1, kinds, capacity, p);
    LastProducerStandsStill(s1, bad, kinds, capacity, p);
  }

  /**
   * A producer and a consumer can both sleep with no wakeup under way exactly where there is a producer,
   * a timed consumer for every place in the queue, and one consumer more than places.
   */
  lemma StandStillIff(kinds: seq<Kind>, capacity: nat)
    requires capacity > 0
    ensures (exists s :: Reachable(s, kinds, capacity) && StandStill(s)) <==> CanStandStill(kinds, capacity)
  {
    hide Reachable, StandStill, CanStandStill;
    if s :| Reachable(s, kinds, capacity) && StandStill(s) {
      NeverBothAsleep(s, kinds, capacity);
    }
    if CanStandStill(kinds, capacity) {
      var bad := StandStillHappens(kinds, capacity);
      assert Reachable(bad, kinds, capacity) && StandStill(bad);
    }
  }

  // ---- What the error result means -------------------------------------------------------------------

  /** As src/q.h documents Q_ERR: whoever is about to return it leaves an empty queue. */
  ghost predicate ErrorMeansEmpty(kinds: seq<Kind>, capacity: nat) {
    forall s, t: nat :: Reachable(s, kinds, capacity) && At(s, t, Leaving) ==> s.ring.empty
  }

  /** Without a producer nothing is ever added. */
  lemma {:induction false} NothingIsAdded(s: State, kinds: seq<Kind>, run: seq<Action>)
    requires HasKinds(s, kinds) && (forall i :: 0 <= i < |kinds| ==> kinds[i].Consumes())
    requires IsRun(s, run) && s.added == []
    ensures Exec(s, run).added == []
    decreases |run|
  {
    if run != [] {
      KindsKept(s, kinds, run[0]);
      assert !run[0].Add?;
      NothingIsAdded(Step(s, run[0]), kinds, run[1..]);
    }
  }

  lemma EmptyWithoutProducers(s: State, kinds: seq<Kind>, capacity: nat)
    requires Reachable(s, kinds, capacity) && (forall i :: 0 <= i < |kinds| ==> kinds[i].Consumes())
    ensures s.ring.empty
  {
    var s0, run :| Init(s0, kinds, capacity) && IsRun(s0, run) && Exec(s0, run) == s;
    NothingIsAdded(s0, kinds, run);
    QueueIsFifo(s, kinds, capacity);
    EmptyAndFull(s.ring);
  }

  /** A wait expires, an item arrives, and the consumer returns the error all the same. */
  lemma ErrorBesideItem(kinds: seq<Kind>, capacity: nat, p: nat, a: nat) returns (bad: State)
    requires capacity > 0 && p < |kinds| && kinds[p].Producer? && a < |kinds| && kinds[a].TimedConsumer?
    ensures Reachable(bad, kinds, capacity) && At(bad, a, Leaving) && !bad.ring.empty
  {
    var s0 := Beginning(kinds, capacity);
    FallAsleep(s0, kinds, capacity, a);
    var s1 := Goto(s0, a, Sleeping);
    var s2 := AddSwallowed(s1, kinds, capacity, p, a);
    bad := Step(s2, Lock(a));
    ReachableStep(s2, kinds, capacity, Lock(a));
  }

  /** Q_ERR means an empty queue, as documented, exactly where no timed consumer shares the queue with a producer. */
  lemma ErrorMeansEmptyIff(kinds: seq<Kind>, capacity: nat)
    requires capacity > 0
    ensures ErrorMeansEmpty(kinds, capacity) <==>
              || (forall i :: 0 <= i < |kinds| ==> kinds[i].Consumes())
              || (forall i :: 0 <= i < |kinds| ==> !kinds[i].TimedConsumer?)
  {
    if i, j :| 0 <= i < |kinds| && 0 <= j < |kinds| && !kinds[i].Consumes() && kinds[j].TimedConsumer? {
      var bad := ErrorBesideItem(kinds, capacity, i, j);
      assert Reachable(bad, kinds, capacity) && At(bad, j, Leaving) && !bad.ring.empty;
    } else {
      forall s, t: nat | Reachable(s, kinds, capacity) && At(s, t, Leaving)
        ensures s.ring.empty
      {
        ReachableInv(s, kinds, capacity);
        assert ThreadOk(s.owner, s.threads[t], t);
        assert kinds[t].TimedConsumer?;
        EmptyWithoutProducers(s, kinds, capacity);
      }
    }
  }
}
