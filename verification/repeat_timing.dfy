/** When the LIRC thread repeats a key: real-time bounds on every repeat of every run. */
module RepeatTiming {
  import opened Prelude
  import opened LircUtil
  import opened LircThr

  /** The repeats sent since the timer was last reset. */
  function SinceReset(log: seq<KeyEvent>): seq<KeyEvent> {
    if log == [] || log[|log| - 1].Reset? then []
    else
      var e := log[|log| - 1];
      SinceReset(log[..|log| - 1]) + if e.Repeat? then [e] else []
  }

  /** When the timer was last reset, in a log that starts with a reset. */
  function LastReset(log: seq<KeyEvent>): Time {
    if log == [] then TimeVal(0, 0)
    else if log[|log| - 1].Reset? then log[|log| - 1].at
    else LastReset(log[..|log| - 1])
  }

  /** The milliseconds to be counted before the j-th repeat (from 0). */
  function DueMs(cfg: Config, j: nat): nat {
    cfg.RateDelay() + (j + 1) * cfg.SendAfterMs()
  }

  /** The earliest moment of the j-th repeat, in microseconds after the reset. */
  function Due(cfg: Config, j: nat): nat {
    MinMicros(DueMs(cfg, j))
  }

  /**
   * A repeat carries its position since the reset as its number, and comes when the timer can have counted
   * enough.
   */
  predicate OnTime(cfg: Config, before: seq<KeyEvent>, e: KeyEvent) {
    e.Repeat? ==>
      && e.number == |SinceReset(before)|
      && NotBefore(e.at, LastReset(before))
      && DueMs(cfg, e.number) <= CountLimit(LastReset(before), e.at)
  }

  ghost predicate AllOnTime(cfg: Config, log: seq<KeyEvent>) {
    forall i :: 0 <= i < |log| ==> OnTime(cfg, log[..i], log[i])
  }

  lemma OnTimeSnoc(cfg: Config, log: seq<KeyEvent>, e: KeyEvent)
    requires AllOnTime(cfg, log) && OnTime(cfg, log, e)
    ensures AllOnTime(cfg, log + [e])
  {
    forall i | 0 <= i < |log| + 1
      ensures OnTime(cfg, (log + [e])[..i], (log + [e])[i])
    {
      assert (log + [e])[..i] == log[..i];
      if i == |log| {
        assert log[..i] == log;
      } else {
        assert OnTime(cfg, log[..i], log[i]);
      }
    }
  }

  lemma ResetSnoc(log: seq<KeyEvent>, e: KeyEvent)
    ensures LastReset(log + [e]) == if e.Reset? then e.at else LastReset(log)
    ensures SinceReset(log + [e]) ==
              if e.Reset? then [] else SinceReset(log) + if e.Repeat? then [e] else []
  {
    assert (log + [e])[..|log|] == log;
  }

  /** The milliseconds the thread has counted since the reset. */
  function Counted(cfg: Config, k: Keys): nat {
    if k.doneWaiting then cfg.RateDelay() + k.repeatCount * cfg.SendAfterMs() + k.elapsed else k.elapsed
  }

  ghost predicate Timed(cfg: Config, m: Machine) {
    && m.Ok()
    && AllOnTime(cfg, m.log)
    && m.keys.repeatCount == |SinceReset(m.log)|
    && (!m.keys.doneWaiting ==> m.keys.repeatCount == 0)
    && NotBefore(m.keys.cl0, LastReset(m.log))
    && Counted(cfg, m.keys) <= CountLimit(LastReset(m.log), m.keys.cl0)
  }

  lemma KeyEventOnTime(cfg: Config, m: Machine, packet: bytes)
    requires m.Ok() && AllOnTime(cfg, m.log)
    ensures AllOnTime(cfg, m.log + Events(HandleKeyStep(m.keys, packet).1))
  {
    var e := HandleKeyStep(m.keys, packet).1;
    if e.Some? {
      OnTimeSnoc(cfg, m.log, e.value);
    } else {
      assert m.log + Events(e) == m.log;
    }
  }

  lemma DequeuedTimed(cfg: Config, m: Machine, packet: bytes, now: Time)
    requires Timed(cfg, m) && cfg.repeatEnabled
    ensures Timed(cfg, Dequeued(cfg, m, packet, now))
  {
    var log := m.log + Events(HandleKeyStep(m.keys, packet).1);
    KeyEventOnTime(cfg, m, packet);
    OnTimeSnoc(cfg, log, Reset(now));
    ResetSnoc(log, Reset(now));
    assert Dequeued(cfg, m, packet, now).log == log + [Reset(now)];
  }

  /** A repeat turns counted milliseconds into one more repeat, and is due when enough are counted. */
  lemma RepeatCounts(cfg: Config, k: Keys)
    requires k.doneWaiting && k.elapsed >= cfg.SendAfterMs()
    ensures DueMs(cfg, k.repeatCount) <= Counted(cfg, k)
    ensures Counted(cfg, k.(elapsed := 0, repeatCount := k.repeatCount + 1)) <= Counted(cfg, k)
  {
    var n, s := k.repeatCount, cfg.SendAfterMs();
    assert (n + 1) * s == n * s + s;
  }

  lemma UpdateCounts(cfg: Config, k: Keys, now: Time)
    ensures Counted(cfg, k.UpdateTime(now)) - Counted(cfg, k) == k.UpdateTime(now).elapsed - k.elapsed
  {
  }

  lemma DelayCounts(cfg: Config, k: Keys)
    requires !k.doneWaiting && k.elapsed >= cfg.RateDelay() && k.repeatCount == 0
    ensures Counted(cfg, k.(doneWaiting := true, elapsed := 0)) <= Counted(cfg, k)
  {
  }

  lemma RepeatTimed(cfg: Config, m: Machine, now: Time)
    requires Timed(cfg, m) && NotBefore(now, m.keys.cl0)
    ensures Timed(cfg, RepeatStage(cfg, m, now))
  {
    hide Counted, AllOnTime, DueMs, SinceReset, LastReset, CountLimit;
    var (k', e, _) := RepeatStep(cfg, m.keys, now);
    if cfg.repeatEnabled && m.keys.keyDown {
      var k := m.keys.UpdateTime(now);
      LimitGrows(LastReset(m.log), m.keys, now);
      UpdateCounts(cfg, m.keys, now);
      if e.Some? {
        RepeatCounts(cfg, k);
        OnTimeSnoc(cfg, m.log, e.value);
        ResetSnoc(m.log, e.value);
      } else if k' != k {
        DelayCounts(cfg, k);
      }
    }
  }

  lemma {:induction false} RunTimed(cfg: Config, start: Time, iters: seq<Iter>)
    requires cfg.repeatEnabled && ClockOk(start, iters)
    ensures Timed(cfg, Run(cfg, Start(cfg, start), iters))
  {
    var m0 := Start(cfg, start);
    if iters == [] {
      ResetSnoc([], Reset(start));
      assert [] + [Reset(start)] == [Reset(start)];
    } else {
      var before, it := iters[..|iters| - 1], iters[|iters| - 1];
      RunTimed(cfg, start, before);
      TimerBehindClock(cfg, start, before);
      var m := Run(cfg, m0, before);
      if !m.faulted {
        if it.packet.Some? {
          DequeuedTimed(cfg, m, it.packet.value, it.reset);
          RepeatTimed(cfg, Dequeued(cfg, m, it.packet.value, it.reset), it.update);
        } else {
          RepeatTimed(cfg, m, it.update);
        }
      }
    }
  }

  /**
   * Over every run on a monotone clock, the j-th repeat after a reset has number j and is not sent before it
   * is due.
   */
  lemma RepeatsAreOnTime(cfg: Config, start: Time, iters: seq<Iter>, i: nat)
    requires ClockOk(start, iters)
    requires i < |Run(cfg, Start(cfg, start), iters).log|
    ensures var log := Run(cfg, Start(cfg, start), iters).log;
            log[i].Repeat? ==>
              && log[i].number == |SinceReset(log[..i])|
              && Micros(log[i].at) >= Micros(LastReset(log[..i])) + Due(cfg, log[i].number)
    ensures var log := Run(cfg, Start(cfg, start), iters).log;
            var delay := if cfg.repeatDelay > 0 then cfg.repeatDelay else 100;
            var period := if cfg.repeatRate > 0 then 1000 / cfg.repeatRate else 100;
            log[i].Repeat? ==>
              Micros(log[i].at) >= Micros(LastReset(log[..i])) + 1000 * (delay + (log[i].number + 1) * period)
  {
    if cfg.repeatEnabled {
      RunTimed(cfg, start, iters);
      var log := Run(cfg, Start(cfg, start), iters).log;
      assert OnTime(cfg, log[..i], log[i]);
      if log[i].Repeat? {
        LimitTakesTime(LastReset(log[..i]), log[i].at, DueMs(cfg, log[i].number));
        MoreTakesLonger(DueMs(cfg, log[i].number), DueMs(cfg, log[i].number));
      }
    } else {
      NoRepeats(cfg, start, iters, i);
    }
  }

  /** When a packet was last dequeued, or else the start. */
  function LastDequeue(start: Time, iters: seq<Iter>): Time {
    if iters == [] then start
    else
      var it := iters[|iters| - 1];
      if it.packet.Some? then it.reset else LastDequeue(start, iters[..|iters| - 1])
  }

  /** The timer starts anew with every dequeued packet, valid or not, and at no other time. */
  lemma {:induction false} EveryPacketResets(cfg: Config, start: Time, iters: seq<Iter>)
    requires cfg.repeatEnabled && !Run(cfg, Start(cfg, start), iters).faulted
    ensures LastReset(Run(cfg, Start(cfg, start), iters).log) == LastDequeue(start, iters)
  {
    if iters == [] {
      ResetSnoc([], Reset(start));
      assert [] + [Reset(start)] == [Reset(start)];
    } else {
      hide LastReset, HandleKeyStep;
      var before, it := iters[..|iters| - 1], iters[|iters| - 1];
      var m := Run(cfg, Start(cfg, start), before);
      EveryPacketResets(cfg, start, before);
      var m1 := m;
      if it.packet.Some? {
        m1 := Dequeued(cfg, m, it.packet.value, it.reset);
        ResetSnoc(m.log + Events(HandleKeyStep(m.keys, it.packet.value).1), Reset(it.reset));
      }
      var e := RepeatStep(cfg, m1.keys, it.update).1;
      if e.Some? {
        ResetSnoc(m1.log, e.value);
      }
    }
  }

  lemma {:induction false} NoRepeats(cfg: Config, start: Time, iters: seq<Iter>, i: nat)
    requires !cfg.repeatEnabled && i < |Run(cfg, Start(cfg, start), iters).log|
    ensures !Run(cfg, Start(cfg, start), iters).log[i].Repeat?
  {
    if iters != [] {
      var before := iters[..|iters| - 1];
      if i < |Run(cfg, Start(cfg, start), before).log| {
        NoRepeats(cfg, start, before, i);
      }
    }
  }

  /** Repeat j since the last reset, seen at the end of the log. */
  lemma {:induction false} SinceResetOnTime(cfg: Config, log: seq<KeyEvent>, j: nat)
    requires AllOnTime(cfg, log) && j < |SinceReset(log)|
    ensures var e := SinceReset(log)[j];
            e.Repeat? && e.number == j && Micros(e.at) >= Micros(LastReset(log)) + Due(cfg, j)
  {
    var n := |log| - 1;
    forall i | 0 <= i < n
      ensures OnTime(cfg, log[..n][..i], log[..n][i])
    {
      assert log[..n][..i] == log[..i];
      assert OnTime(cfg, log[..i], log[i]);
    }
    if j < |SinceReset(log[..n])| {
      SinceResetOnTime(cfg, log[..n], j);
    } else {
      assert OnTime(cfg, log[..n], log[n]);
      LimitTakesTime(LastReset(log), log[n].at, DueMs(cfg, j));
    }
  }

  lemma DueAt(cfg: Config, n: nat)
    requires n > 0
    ensures Due(cfg, n - 1) >= 1000 * cfg.RateDelay() + 1000 * (n * cfg.SendAfterMs())
  {
    MoreTakesLonger(DueMs(cfg, n - 1), DueMs(cfg, n - 1));
  }

  lemma RunIsOnTime(cfg: Config, start: Time, iters: seq<Iter>)
    requires cfg.repeatEnabled && ClockOk(start, iters)
    ensures AllOnTime(cfg, Run(cfg, Start(cfg, start), iters).log)
  {
    hide AllOnTime, Run, ClockOk;
    RunTimed(cfg, start, iters);
  }

  /** Within a window of w ms after the delay there is room for at most w / sendAfterMs repeats. */
  lemma WindowBound(cfg: Config, start: Time, iters: seq<Iter>, w: nat, n: nat)
    requires cfg.repeatEnabled && ClockOk(start, iters)
    requires var log := Run(cfg, Start(cfg, start), iters).log;
             && 0 < n <= |SinceReset(log)|
             && SinceReset(log)[n - 1].Repeat?
             && Micros(SinceReset(log)[n - 1].at) <= Micros(LastReset(log)) + 1000 * (cfg.RateDelay() + w)
    ensures n * cfg.SendAfterMs() <= w
  {
    hide *;
    RunIsOnTime(cfg, start, iters);
    DueAt(cfg, n);
    SinceResetOnTime(cfg, Run(cfg, Start(cfg, start), iters).log, n - 1);
  }

  /** A rate r with r * r <= 1000 is kept: at most r repeats in the first second after the delay. */
  lemma RateIsKept(cfg: Config, start: Time, iters: seq<Iter>, n: nat)
    requires cfg.repeatEnabled && ClockOk(start, iters)
    requires 1 <= cfg.repeatRate && cfg.repeatRate * cfg.repeatRate <= 1000
    requires var log := Run(cfg, Start(cfg, start), iters).log;
             && 0 < n <= |SinceReset(log)|
             && SinceReset(log)[n - 1].Repeat?
             && Micros(SinceReset(log)[n - 1].at) <= Micros(LastReset(log)) + 1000 * (cfg.RateDelay() + 1000)
    ensures n <= cfg.repeatRate
  {
    WindowBound(cfg, start, iters, 1000, n);
    var r, s := cfg.repeatRate, cfg.SendAfterMs();
    SmallRates(r);
    if n > r {
      TooMany(n, r, s);
      assert false;
    }
  }

  lemma TooMany(n: nat, r: nat, s: nat)
    requires n > r
    ensures n * s >= r * s + s
  {
    assert n * s == (n - r - 1) * s + (r + 1) * s;
    assert (n - r - 1) * s >= 0;
    assert (r + 1) * s == r * s + s;
  }

  lemma SmallRates(r: nat)
    requires 1 <= r && r * r <= 1000
    ensures r * (1000 / r) + 1000 / r > 1000
  {
    var s := 1000 / r;
    assert 1000 == r * s + 1000 % r;
    if s < r {
      assert s + 1 <= r;
      Square(s + 1, r);
      assert false;
    }
  }

  lemma Square(a: nat, r: nat)
    requires 1 <= r && a <= r && r * r <= 1000
    ensures r * a <= 1000
  {
    assert r * a <= r * r;
  }

  // ---- How far apart repeats are ----------------------------------------------------------------

  /** All the repeats of a log, across timer restarts. */
  function Repeats(log: seq<KeyEvent>): seq<KeyEvent> {
    if log == [] then []
    else
      var e := log[|log| - 1];
      Repeats(log[..|log| - 1]) + if e.Repeat? then [e] else []
  }

  lemma RepeatsSnoc(log: seq<KeyEvent>, e: KeyEvent)
    ensures Repeats(log + [e]) == Repeats(log) + if e.Repeat? then [e] else []
  {
    assert (log + [e])[..|log|] == log;
  }

  /** Repeats i and j are at least (j - i) * sendAfterMs apart. */
  ghost predicate Spaced(cfg: Config, reps: seq<KeyEvent>) {
    && (forall i :: 0 <= i < |reps| ==> reps[i].Repeat?)
    && forall i, j :: 0 <= i <= j < |reps| ==>
         Micros(reps[j].at) - Micros(reps[i].at) >= 1000 * ((j - i) * cfg.SendAfterMs())
  }

  /** The repeats so far are spaced, and what the timer has counted has passed since the last of them. */
  ghost predicate Spacing(cfg: Config, m: Machine) {
    && m.Ok()
    && var reps := Repeats(m.log);
       && Spaced(cfg, reps)
       && (reps != [] ==>
             reps[|reps| - 1].Repeat? &&
             Micros(m.keys.cl0) - Micros(reps[|reps| - 1].at) >= 1000 * m.keys.elapsed)
  }

  lemma SpacedSnoc(cfg: Config, reps: seq<KeyEvent>, e: KeyEvent)
    requires Spaced(cfg, reps) && e.Repeat?
    requires reps != [] ==> Micros(e.at) - Micros(reps[|reps| - 1].at) >= 1000 * cfg.SendAfterMs()
    ensures Spaced(cfg, reps + [e])
  {
    var s, n := cfg.SendAfterMs(), |reps|;
    forall i | 0 <= i < n
      ensures Micros(e.at) - Micros(reps[i].at) >= 1000 * ((n - i) * s)
    {
      assert (n - i) * s == (n - 1 - i) * s + s;
    }
  }

  /** In every run, any two repeats are as many periods apart as there are repeats from one to the other. */
  lemma {:induction false} RunSpaced(cfg: Config, start: Time, iters: seq<Iter>)
    requires cfg.repeatEnabled && ClockOk(start, iters)
    ensures Spacing(cfg, Run(cfg, Start(cfg, start), iters))
  {
    if iters == [] {
      assert Repeats([Reset(start)]) == [] by {
        RepeatsSnoc([], Reset(start));
        assert [] + [Reset(start)] == [Reset(start)];
      }
    } else {
      var before, it := iters[..|iters| - 1], iters[|iters| - 1];
      RunSpaced(cfg, start, before);
      TimerBehindClock(cfg, start, before);
      var m := Run(cfg, Start(cfg, start), before);
      if !m.faulted {
        if it.packet.Some? {
          DequeuedSpaced(cfg, m, it.packet.value, it.reset);
          RepeatSpaced(cfg, Dequeued(cfg, m, it.packet.value, it.reset), it.update);
        } else {
          RepeatSpaced(cfg, m, it.update);
        }
      }
    }
  }

  /** Restarting the timer only forgets time. */
  lemma DequeuedSpaced(cfg: Config, m: Machine, packet: bytes, now: Time)
    requires cfg.repeatEnabled && Spacing(cfg, m) && NotBefore(now, m.keys.cl0)
    ensures Spacing(cfg, Dequeued(cfg, m, packet, now))
  {
    hide Spaced, Repeats;
    var e := HandleKeyStep(m.keys, packet).1;
    var log := m.log + Events(e);
    if e.Some? {
      assert !e.value.Repeat? && log == m.log + [e.value];
      RepeatsSnoc(m.log, e.value);
    } else {
      assert log == m.log;
    }
    RepeatsSnoc(log, Reset(now));
    assert Repeats(log) == Repeats(m.log);
    assert Repeats(Dequeued(cfg, m, packet, now).log) == Repeats(m.log);
  }

  lemma RepeatSpaced(cfg: Config, m: Machine, now: Time)
    requires Spacing(cfg, m) && NotBefore(now, m.keys.cl0)
    ensures Spacing(cfg, RepeatStage(cfg, m, now))
  {
    hide Spaced, Repeats;
    var e := RepeatStep(cfg, m.keys, now).1;
    if cfg.repeatEnabled && m.keys.keyDown {
      OneUpdate(m.keys, now);
      if e.Some? {
        RepeatsSnoc(m.log, e.value);
        SpacedSnoc(cfg, Repeats(m.log), e.value);
      }
    }
  }
}
