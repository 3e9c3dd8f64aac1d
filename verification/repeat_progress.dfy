/**
 * The other side of the timing bounds: a known key that stays down keeps being repeated. The timer
 * forgets what it has counted beyond the delay or the period, but never more than one reading's worth.
 */
module RepeatProgress {
  import opened Prelude
  import opened KeyDef
  import opened LircUtil
  import opened LircThr
  import opened RepeatTiming

  /** Iterations without a packet. */
  function Idle(readings: seq<Time>): (iters: seq<Iter>)
    ensures |iters| == |readings|
  {
    seq(|readings|, i requires 0 <= i < |readings| => Iter(None, readings[i], readings[i]))
  }

  /** A known key is down. */
  predicate Held(m: Machine) {
    m.Ok() && !m.faulted && m.keys.keyDown && m.keys.lastKey != UNDEF
  }

  /** What may be counted without a repeat: less than the delay, then less than a period. */
  function Rest(cfg: Config, doneWaiting: bool): nat {
    if !doneWaiting then cfg.RateDelay() - 1 else if cfg.SendAfterMs() > 0 then cfg.SendAfterMs() - 1 else 0
  }

  predicate InPhase(cfg: Config, k: Keys) {
    k.elapsed <= Rest(cfg, k.doneWaiting)
  }

  /** The most that can have been counted since the reset, when no reading counts more than gap. */
  function AtMost(cfg: Config, k: Keys, gap: nat): nat {
    if !k.doneWaiting then k.elapsed
    else Rest(cfg, false) + gap + k.repeatCount * (Rest(cfg, true) + gap) + k.elapsed
  }

  /** Neither the end of the delay nor a repeat is taken back. */
  predicate OnlyForward(k: Keys, k': Keys) {
    k.repeatCount <= k'.repeatCount && (k.doneWaiting ==> k'.doneWaiting)
  }

  lemma StepInPhase(cfg: Config, m: Machine, it: Iter)
    requires cfg.repeatEnabled && m.Ok() && InPhase(cfg, m.keys)
    ensures InPhase(cfg, Iterate(cfg, m, it).keys) || Iterate(cfg, m, it).faulted
  {
    hide HandleKeyStep;
  }

  lemma {:induction false} RunInPhase(cfg: Config, start: Time, iters: seq<Iter>)
    requires cfg.repeatEnabled
    ensures var m := Run(cfg, Start(cfg, start), iters); m.faulted || InPhase(cfg, m.keys)
  {
    if iters != [] {
      hide Iterate;
      RunInPhase(cfg, start, iters[..|iters| - 1]);
      var m := Run(cfg, Start(cfg, start), iters[..|iters| - 1]);
      if m.faulted {
        FaultEnds(cfg, Start(cfg, start), iters, |iters| - 1);
      } else {
        StepInPhase(cfg, m, iters[|iters| - 1]);
      }
    }
  }

  lemma OneMore(n: nat, each: nat)
    ensures (n + 1) * each == n * each + each && n * each >= 0
  {
  }

  /** One reading: what it counts is added, and only a repeat lets go of any of it. */
  lemma OneReading(cfg: Config, m: Machine, now: Time, gap: nat)
    requires cfg.repeatEnabled && Held(m) && InPhase(cfg, m.keys)
    requires NotBefore(now, m.keys.cl0) && Micros(now) < Micros(m.keys.cl0) + 1000 * (gap + 1)
    ensures var m' := Iterate(cfg, m, Iter(None, now, now));
            && Held(m') && InPhase(cfg, m'.keys) && m'.keys.cl0 == now
            && OnlyForward(m.keys, m'.keys)
            && AtMost(cfg, m.keys, gap) + (m.keys.UpdateTime(now).elapsed - m.keys.elapsed) <= AtMost(cfg, m'.keys, gap)
  {
    var u, n, each := m.keys.UpdateTime(now), m.keys.repeatCount, Rest(cfg, true) + gap;
    OneUpdate(m.keys, now);
    assert u.elapsed - m.keys.elapsed <= gap;
    OneMore(n, each);
  }

  lemma {:induction false} RunCons(cfg: Config, m: Machine, it: Iter, iters: seq<Iter>)
    requires m.Ok()
    ensures Run(cfg, m, [it] + iters) == Run(cfg, Iterate(cfg, m, it), iters)
  {
    hide Iterate;
    var all := [it] + iters;
    if iters == [] {
      assert all[..0] == [] && all[0] == it;
      assert Run(cfg, m, []) == m;
    } else {
      RunCons(cfg, m, it, iters[..|iters| - 1]);
      assert all[..|all| - 1] == [it] + iters[..|iters| - 1];
    }
  }

  lemma {:induction false} RunAppend(cfg: Config, m: Machine, iters: seq<Iter>, more: seq<Iter>)
    requires m.Ok()
    ensures Run(cfg, m, iters + more) == Run(cfg, Run(cfg, m, iters), more)
  {
    hide Iterate;
    var all := iters + more;
    if more == [] {
      assert all == iters;
    } else {
      RunAppend(cfg, m, iters, more[..|more| - 1]);
      assert all[..|all| - 1] == iters + more[..|more| - 1];
    }
  }

  /** The milliseconds that updateTime counts do not depend on what was counted before. */
  lemma {:induction false} CountsAlike(k: Keys, k': Keys, readings: seq<Time>)
    requires k.cl0 == k'.cl0
    ensures Updates(k, readings).elapsed - k.elapsed == Updates(k', readings).elapsed - k'.elapsed
    decreases |readings|
  {
    if readings != [] {
      CountsAlike(k.UpdateTime(readings[0]), k'.UpdateTime(readings[0]), readings[1..]);
    }
  }

  lemma {:induction false} ReadingsAddUp(cfg: Config, m: Machine, readings: seq<Time>, gap: nat)
    requires cfg.repeatEnabled && Held(m) && InPhase(cfg, m.keys)
    requires Monotone(m.keys.cl0, readings) && Steady(m.keys.cl0, readings, gap)
    ensures var m' := Run(cfg, m, Idle(readings));
            && Held(m') && InPhase(cfg, m'.keys) && OnlyForward(m.keys, m'.keys)
            && AtMost(cfg, m.keys, gap) + (Updates(m.keys, readings).elapsed - m.keys.elapsed)
               <= AtMost(cfg, m'.keys, gap)
    decreases |readings|
  {
    if readings == [] {
      assert Run(cfg, m, Idle(readings)) == m;
    } else {
      var now := readings[0];
      var it := Iter(None, now, now);
      OneReading(cfg, m, now, gap);
      hide Iterate, AtMost, InPhase, Held;
      var m1 := Iterate(cfg, m, it);
      ReadingsAddUp(cfg, m1, readings[1..], gap);
      CountsAlike(m.keys.UpdateTime(now), m1.keys, readings[1..]);
      assert Idle(readings) == [it] + Idle(readings[1..]);
      RunCons(cfg, m, it, Idle(readings[1..]));
    }
  }

  /** What can be counted while n repeats are sent. */
  function Allowance(cfg: Config, doneWaiting: bool, n: nat, gap: nat): nat {
    (if doneWaiting then 0 else Rest(cfg, false) + gap) + n * (Rest(cfg, true) + gap) + Rest(cfg, true)
  }

  lemma CountedIsAllowed(cfg: Config, k: Keys, k': Keys, gap: nat)
    requires InPhase(cfg, k') && OnlyForward(k, k')
    requires !k.doneWaiting ==> k.repeatCount == 0
    ensures k.repeatCount <= k'.repeatCount
    ensures AtMost(cfg, k', gap) - AtMost(cfg, k, gap)
         <= Allowance(cfg, k.doneWaiting, k'.repeatCount - k.repeatCount, gap)
  {
    var each, n := Rest(cfg, true) + gap, k'.repeatCount - k.repeatCount;
    assert k'.repeatCount * each == k.repeatCount * each + n * each;
    assert n * each >= 0;
  }

  /** The number of repeats sent since the reset is the repeat counter. */
  lemma CounterIsRepeats(cfg: Config, start: Time, iters: seq<Iter>)
    requires cfg.repeatEnabled && ClockOk(start, iters)
    ensures var m := Run(cfg, Start(cfg, start), iters);
            && m.keys.repeatCount == |SinceReset(m.log)|
            && (!m.keys.doneWaiting ==> m.keys.repeatCount == 0)
  {
    RunTimed(cfg, start, iters);
  }

  lemma HeldReadings(cfg: Config, m: Machine, readings: seq<Time>, gap: nat) returns (n: nat)
    requires cfg.repeatEnabled && Held(m) && InPhase(cfg, m.keys) && (!m.keys.doneWaiting ==> m.keys.repeatCount == 0)
    requires Monotone(m.keys.cl0, readings) && Steady(m.keys.cl0, readings, gap)
    ensures Held(Run(cfg, m, Idle(readings)))
    ensures n == Run(cfg, m, Idle(readings)).keys.repeatCount - m.keys.repeatCount
    ensures Updates(m.keys, readings).elapsed - m.keys.elapsed <= Allowance(cfg, m.keys.doneWaiting, n, gap)
  {
    assert m.Ok();
    hide *;
    var k' := Run(cfg, m, Idle(readings)).keys;
    ReadingsAddUp(cfg, m, readings, gap);
    CountedIsAllowed(cfg, m.keys, k', gap);
    n := k'.repeatCount - m.keys.repeatCount;
  }

  /** The repeats of the hold that m' has sent and m has not. */
  function Sent(m: Machine, m': Machine): int {
    |SinceReset(m'.log)| - |SinceReset(m.log)|
  }

  lemma StartOfHold(cfg: Config, start: Time, iters: seq<Iter>)
    requires cfg.repeatEnabled && ClockOk(start, iters) && Held(Run(cfg, Start(cfg, start), iters))
    ensures var m := Run(cfg, Start(cfg, start), iters);
            InPhase(cfg, m.keys) && (!m.keys.doneWaiting ==> m.keys.repeatCount == 0)
  {
    RunInPhase(cfg, start, iters);
    CounterIsRepeats(cfg, start, iters);
  }

  lemma CountersTellSent(cfg: Config, start: Time, iters: seq<Iter>, readings: seq<Time>)
    requires cfg.repeatEnabled && ClockOk(start, iters + Idle(readings))
    ensures ClockOk(start, iters)
    ensures var m, m' := Run(cfg, Start(cfg, start), iters), Run(cfg, Start(cfg, start), iters + Idle(readings));
            m' == Run(cfg, m, Idle(readings)) && Sent(m, m') == m'.keys.repeatCount - m.keys.repeatCount
  {
    ClockPrefix(start, iters + Idle(readings), |iters|);
    assert (iters + Idle(readings))[..|iters|] == iters;
    CounterIsRepeats(cfg, start, iters);
    CounterIsRepeats(cfg, start, iters + Idle(readings));
    RunAppend(cfg, Start(cfg, start), iters, Idle(readings));
  }

  /** The bound below, in terms of what the proofs use. */
  lemma HeldTimeIsBounded(cfg: Config, start: Time, iters: seq<Iter>, readings: seq<Time>, gap: nat)
    requires cfg.repeatEnabled && ClockOk(start, iters + Idle(readings))
    requires var m := Run(cfg, Start(cfg, start), iters);
             && Held(m) && Monotone(m.keys.cl0, readings) && Steady(m.keys.cl0, readings, gap)
    ensures var m, m' := Run(cfg, Start(cfg, start), iters), Run(cfg, Start(cfg, start), iters + Idle(readings));
            var n, end := Sent(m, m'), Latest(m.keys.cl0, readings);
            && Held(m') && n >= 0
            && Micros(end) - Micros(m.keys.cl0)
               <= MayLose(|readings|, end.sec - m.keys.cl0.sec, gap) + 1000 * Allowance(cfg, m.keys.doneWaiting, n, gap)
  {
    hide *;
    CountersTellSent(cfg, start, iters, readings);
    StartOfHold(cfg, start, iters);
    var n := HeldReadings(cfg, Run(cfg, Start(cfg, start), iters), readings, gap);
    SteadyBounds(Run(cfg, Start(cfg, start), iters).keys, readings, gap);
  }

  /** The configured numbers behind the allowance, with the defaults of 100 ms. */
  lemma ConfiguredAllowance(cfg: Config, doneWaiting: bool, n: nat, gap: nat)
    ensures var delay := if cfg.repeatDelay > 0 then cfg.repeatDelay else 100;
            var period := if cfg.repeatRate > 0 then 1000 / cfg.repeatRate else 100;
            var rest := if period > 0 then period - 1 else 0;
            Allowance(cfg, doneWaiting, n, gap)
            == (if doneWaiting then 0 else delay - 1 + gap) + n * (rest + gap) + rest
  {
  }

  lemma LossInFull(k: nat, ticks: int, gap: nat)
    ensures MayLose(k, ticks, gap) == 999 * k + 1000 * ((gap + 1) * ticks)
  {
  }

  /**
   * Repeats keep coming. From any moment on at which a known key is down, as long as it stays down and
   * the clock is read at least every gap + 1 ms, the time in which n more repeats are sent is at most n + 1
   * periods, with a gap of slack for each repeat, and what is left of the delay, and what the lossy timer
   * does not count: less than a millisecond a reading, and less than gap + 1 ms a second.
   */
  lemma RepeatsKeepComing(cfg: Config, start: Time, iters: seq<Iter>, readings: seq<Time>, gap: nat)
    requires cfg.repeatEnabled && ClockOk(start, iters + Idle(readings))
    requires var m := Run(cfg, Start(cfg, start), iters);
             && Held(m) && Monotone(m.keys.cl0, readings) && Steady(m.keys.cl0, readings, gap)
    ensures var m, m' := Run(cfg, Start(cfg, start), iters), Run(cfg, Start(cfg, start), iters + Idle(readings));
            var n, end := Sent(m, m'), Latest(m.keys.cl0, readings);
            var delay := if cfg.repeatDelay > 0 then cfg.repeatDelay else 100;
            var period := if cfg.repeatRate > 0 then 1000 / cfg.repeatRate else 100;
            var rest := if period > 0 then period - 1 else 0;
            && Held(m') && n >= 0
            && Micros(end) - Micros(m.keys.cl0)
               <= 999 * |readings| + 1000 * ((gap + 1) * (end.sec - m.keys.cl0.sec))
                  + 1000 * ((if m.keys.doneWaiting then 0 else delay - 1 + gap) + n * (rest + gap) + rest)
  {
    hide *;
    HeldTimeIsBounded(cfg, start, iters, readings, gap);
    var m, m' := Run(cfg, Start(cfg, start), iters), Run(cfg, Start(cfg, start), iters + Idle(readings));
    LossInFull(|readings|, Latest(m.keys.cl0, readings).sec - m.keys.cl0.sec, gap);
    ConfiguredAllowance(cfg, m.keys.doneWaiting, Sent(m, m'), gap);
  }

  lemma TenMillisecondLoss(k: nat, t: Time, end: Time, ms: nat)
    requires 10 * k <= ms && 1000 * ms <= Micros(end) - Micros(t) < 1000 * (ms + 1)
    ensures 10 * (1000 * ms - MayLose(k, end.sec - t.sec, 10)) >= 8800 * ms - 120000
  {
  }

  /**
   * In a loop that reads the clock every 10 ms or so, repeats account for 88 in 100 of any time that a key is
   * held.
   */
  lemma TenMillisecondLoop(cfg: Config, start: Time, iters: seq<Iter>, readings: seq<Time>, ms: nat)
    requires cfg.repeatEnabled && ClockOk(start, iters + Idle(readings))
    requires var m := Run(cfg, Start(cfg, start), iters);
             && Held(m) && Monotone(m.keys.cl0, readings) && Steady(m.keys.cl0, readings, 10)
             && 1000 * ms <= Micros(Latest(m.keys.cl0, readings)) - Micros(m.keys.cl0) < 1000 * (ms + 1)
             && 10 * |readings| <= ms
    ensures var m, m' := Run(cfg, Start(cfg, start), iters), Run(cfg, Start(cfg, start), iters + Idle(readings));
            var n := Sent(m, m');
            var delay := if cfg.repeatDelay > 0 then cfg.repeatDelay else 100;
            var period := if cfg.repeatRate > 0 then 1000 / cfg.repeatRate else 100;
            var rest := if period > 0 then period - 1 else 0;
            && n >= 0
            && 100 * ((if m.keys.doneWaiting then 0 else delay + 9) + n * (rest + 10) + rest) >= 88 * ms - 1200
  {
    hide *;
    HeldTimeIsBounded(cfg, start, iters, readings, 10);
    var m := Run(cfg, Start(cfg, start), iters);
    TenMillisecondLoss(|readings|, m.keys.cl0, Latest(m.keys.cl0, readings), ms);
    ConfiguredAllowance(cfg, m.keys.doneWaiting, Sent(m, Run(cfg, Start(cfg, start), iters + Idle(readings))), 10);
  }

  // ---- Integer widths -------------------------------------------------------------------------------

  const INT_LIMIT := 0x8000_0000

  /** `elapsed` never wraps: for any delay that is an int, every sum that updateTime forms fits 32 unsigned bits. */
  lemma ElapsedFits(cfg: Config, start: Time, iters: seq<Iter>, now: Time)
    requires cfg.repeatEnabled && cfg.repeatDelay < INT_LIMIT
    ensures var m := Run(cfg, Start(cfg, start), iters);
            m.faulted || m.keys.UpdateTime(now).elapsed < 2 * INT_LIMIT
  {
    RunInPhase(cfg, start, iters);
  }

  /** `repeat_count` fits an int for as long as a hold is shorter than 2^31 ms, at any rate up to 1000. */
  lemma RepeatCountFits(cfg: Config, start: Time, iters: seq<Iter>)
    requires cfg.repeatEnabled && ClockOk(start, iters) && cfg.SendAfterMs() > 0
    requires var m := Run(cfg, Start(cfg, start), iters);
             Micros(m.keys.cl0) - Micros(LastReset(m.log)) < 1000 * INT_LIMIT
    ensures Run(cfg, Start(cfg, start), iters).keys.repeatCount < INT_LIMIT
  {
    RunTimed(cfg, start, iters);
    CounterIsRepeats(cfg, start, iters);
    var m := Run(cfg, Start(cfg, start), iters);
    LimitTakesTime(LastReset(m.log), m.keys.cl0, Counted(cfg, m.keys));
    MoreTakesLonger(Counted(cfg, m.keys), Counted(cfg, m.keys));
    CountedIsMore(cfg, Run(cfg, Start(cfg, start), iters).keys);
    hide Run, ClockOk, AllOnTime, LastReset, SinceReset, Counted, CountLimit, MinMicros;
  }

  lemma CountedIsMore(cfg: Config, k: Keys)
    requires cfg.SendAfterMs() > 0 && (!k.doneWaiting ==> k.repeatCount == 0)
    ensures k.repeatCount <= Counted(cfg, k)
  {
    var n, s := k.repeatCount, cfg.SendAfterMs();
    assert n * s >= n;
  }
}
