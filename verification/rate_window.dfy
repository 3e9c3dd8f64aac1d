/**
 * The first second after the delay: exactly which rates and delays send no more repeats in it than asked
 * for. The timer loses a millisecond in every whole second, so this is not only a matter of the rate.
 */
module RateWindow {
  import opened Prelude
  import opened KeyDef
  import opened LircUtil
  import opened LircThr
  import opened KeyTrace
  import opened RepeatTiming
  import opened RepeatProgress
  import opened RepeatLimits

  /** Every repeat that comes within a second after the delay is one of the first repeatRate ones. */
  ghost predicate FirstSecondOk(cfg: Config, log: seq<KeyEvent>) {
    forall j: nat :: j < |SinceReset(log)| && InFirstSecond(cfg, log, j) ==> j < cfg.repeatRate
  }

  predicate InFirstSecond(cfg: Config, log: seq<KeyEvent>, j: nat)
    requires j < |SinceReset(log)|
  {
    var e := SinceReset(log)[j];
    e.Repeat? && Micros(e.at) <= Micros(LastReset(log)) + 1000 * (cfg.RateDelay() + 1000)
  }

  ghost predicate FirstSecondKept(cfg: Config) {
    forall packets, m, t :: Reaches(cfg, packets, m, t) ==> FirstSecondOk(cfg, m.log)
  }

  /** Counting the delay and one period too many takes longer than the second. */
  predicate OneTooManyIsLate(cfg: Config)
    requires cfg.repeatRate > 0
  {
    Due(cfg, cfg.repeatRate) > 1000 * (cfg.RateDelay() + 1000)
  }

  lemma DueGrows(cfg: Config, i: nat, j: nat)
    requires i <= j
    ensures Due(cfg, i) <= Due(cfg, j)
  {
    var s := cfg.SendAfterMs();
    assert (j + 1) * s == (i + 1) * s + (j - i) * s && (j - i) * s >= 0;
    MoreTakesLonger(DueMs(cfg, i), DueMs(cfg, j));
  }

  lemma LateEnough(cfg: Config, packets: seq<bytes>, m: Machine, t: Time)
    requires cfg.repeatEnabled && cfg.repeatRate > 0 && OneTooManyIsLate(cfg) && Reaches(cfg, packets, m, t)
    ensures FirstSecondOk(cfg, m.log)
  {
    var start, iters :|
      ClockOk(start, iters) && Packets(iters) == packets
      && Run(cfg, Start(cfg, start), iters) == m && ClockAt(start, iters) == t;
    RunIsOnTime(cfg, start, iters);
    hide Reaches, AllOnTime, Run, ClockOk, SinceReset, LastReset, Due;
    forall j: nat | j < |SinceReset(m.log)| && InFirstSecond(cfg, m.log, j)
      ensures j < cfg.repeatRate
    {
      SinceResetOnTime(cfg, m.log, j);
      if j >= cfg.repeatRate {
        DueGrows(cfg, cfg.repeatRate, j);
      }
    }
  }

  // ---- The fastest run ------------------------------------------------------------------------------

  /** The clock when ms milliseconds are counted as fast as can be, from 999 microseconds past a second on. */
  function Fastest(ms: nat): (t: Time)
    ensures Micros(t) == 999 + MinMicros(ms)
  {
    if ms <= 999 then TimeVal(0, 999 + 1000 * ms)
    else
      var s := (ms - 1) / 999;
      TimeVal(s, 1000 * (ms - 999 * s))
  }

  /**
   * A known key is held and was last read at t; ms milliseconds have been counted since the reset at
   * Fastest(0), and n repeats sent, each as soon as enough was counted.
   */
  ghost predicate Racing(cfg: Config, m: Machine, ms: nat, n: nat, t: Time) {
    && Held(m) && InPhase(cfg, m.keys) && Counted(cfg, m.keys) == ms && m.keys.cl0 == t
    && LastReset(m.log) == Fastest(0)
    && m.keys.repeatCount == |SinceReset(m.log)| == n && (!m.keys.doneWaiting ==> n == 0)
    && (n > 0 ==>
          var e := SinceReset(m.log)[n - 1];
          e.Repeat? && e.at == Fastest(cfg.RateDelay() + n * cfg.SendAfterMs()))
  }

  lemma StartRace(cfg: Config) returns (m: Machine)
    requires cfg.repeatEnabled
    ensures Reaches(cfg, [SOME_KEY], m, Fastest(0)) && Racing(cfg, m, 0, 0, Fastest(0))
  {
    var t := Fastest(0);
    var m0, it := Start(cfg, t), Iter(Some(SOME_KEY), t, t);
    SomeKeyIsKnown();
    ReachesStart(cfg, t);
    ReachesStep(cfg, [], m0, t, it);
    assert [] + [SOME_KEY] == [SOME_KEY];
    m := Iterate(cfg, m0, it);
    AtTheSameTime(cfg, m0, it);
    hide Reaches, CodeIndex, Fastest;
    var k := CodeIndex(SOME_KEY[5]);
    assert m.log == ([Reset(t)] + [Press(k)]) + [Reset(t)];
    ResetSnoc([Reset(t)] + [Press(k)], Reset(t));
  }

  /** A reading that counts nothing changes nothing but the clock. */
  lemma Tick(cfg: Config, m: Machine, ms: nat, n: nat, t: Time, now: Time)
    requires cfg.repeatEnabled && Racing(cfg, m, ms, n, t) && now.usec <= t.usec
    requires !m.keys.doneWaiting || cfg.SendAfterMs() > 0
    ensures Racing(cfg, RepeatStage(cfg, m, now), ms, n, now)
  {
    hide SinceReset, LastReset, Fastest;
    assert RepeatStage(cfg, m, now).log == m.log;
  }

  lemma RepeatGrows(n: nat, s: nat)
    ensures (n + 1) * s == n * s + s
  {
  }

  /** A reading that counts the millisecond at which a repeat is due, or the delay is over, or neither. */
  lemma OneMs(cfg: Config, m: Machine, ms: nat, n: nat, t: Time, now: Time) returns (n': nat)
    requires cfg.repeatEnabled && Racing(cfg, m, ms, n, t) && now.usec == t.usec + 1000 && now == Fastest(ms + 1)
    requires !m.keys.doneWaiting || cfg.SendAfterMs() > 0
    ensures Racing(cfg, RepeatStage(cfg, m, now), ms + 1, n', now)
  {
    hide SinceReset, LastReset, Fastest;
    var e := RepeatStep(cfg, m.keys, now).1;
    n' := if e.Some? then n + 1 else n;
    RepeatGrows(n, cfg.SendAfterMs());
    if e.Some? {
      ResetSnoc(m.log, e.value);
      assert ms + 1 == cfg.RateDelay() + (n + 1) * cfg.SendAfterMs();
    }
  }

  /** Where the next millisecond is counted, and whether there is a tick of the second before it. */
  lemma NextMs(ms: nat)
    ensures var t, now := Fastest(ms), Fastest(ms + 1);
            (t.sec == now.sec && now.usec == t.usec + 1000) || (now.sec == t.sec + 1 && now.usec == 1000)
  {
  }

  lemma CountOne(cfg: Config, m: Machine, ms: nat, n: nat) returns (m': Machine, n': nat)
    requires cfg.repeatEnabled && Reaches(cfg, [SOME_KEY], m, Fastest(ms)) && Racing(cfg, m, ms, n, Fastest(ms))
    requires ms < cfg.RateDelay() || cfg.SendAfterMs() > 0
    ensures Reaches(cfg, [SOME_KEY], m', Fastest(ms + 1)) && Racing(cfg, m', ms + 1, n', Fastest(ms + 1))
  {
    var t, now := Fastest(ms), Fastest(ms + 1);
    NextMs(ms);
    assert m.keys.doneWaiting ==> ms >= cfg.RateDelay();
    var mid := if now.sec == t.sec then t else TimeVal(now.sec, 0);
    assert mid.usec <= t.usec && NotBefore(mid, t) && NotBefore(now, mid);
    assert !m.faulted && m.Ok();
    hide Fastest, Reaches;
    Tick(cfg, m, ms, n, t, mid);
    IdleStep(cfg, [SOME_KEY], m, t, mid);
    var m1 := RepeatStage(cfg, m, mid);
    IdleStep(cfg, [SOME_KEY], m1, mid, now);
    n' := OneMs(cfg, m1, ms, n, mid, now);
    m' := RepeatStage(cfg, m1, now);
  }

  lemma {:induction false} RaceTo(cfg: Config, ms: nat) returns (m: Machine, n: nat)
    requires cfg.repeatEnabled && (ms <= cfg.RateDelay() || cfg.SendAfterMs() > 0)
    ensures Reaches(cfg, [SOME_KEY], m, Fastest(ms)) && Racing(cfg, m, ms, n, Fastest(ms))
  {
    hide Reaches, Racing;
    if ms == 0 {
      m := StartRace(cfg);
      n := 0;
    } else {
      m, n := RaceTo(cfg, ms - 1);
      m, n := CountOne(cfg, m, ms - 1, n);
    }
  }

  lemma SendOneAtOnce(cfg: Config, m: Machine, n: nat) returns (m': Machine)
    requires cfg.repeatEnabled && cfg.SendAfterMs() == 0
    requires var t := Fastest(cfg.RateDelay());
             Reaches(cfg, [SOME_KEY], m, t) && Racing(cfg, m, cfg.RateDelay(), n, t)
    ensures var t := Fastest(cfg.RateDelay());
            Reaches(cfg, [SOME_KEY], m', t) && Racing(cfg, m', cfg.RateDelay(), n + 1, t)
  {
    hide Fastest, SinceReset, LastReset, Reaches;
    var t := Fastest(cfg.RateDelay());
    ResetSnoc(m.log, Repeat(m.keys.lastKey, n, t));
    IdleStep(cfg, [SOME_KEY], m, t, t);
    m' := RepeatStage(cfg, m, t);
  }

  /** With no time to wait between repeats, any number of them is sent at once. */
  lemma {:induction false} SendAtOnce(cfg: Config, r: nat) returns (m: Machine, n: nat)
    requires cfg.repeatEnabled && cfg.SendAfterMs() == 0
    ensures var t := Fastest(cfg.RateDelay());
            n >= r && Reaches(cfg, [SOME_KEY], m, t) && Racing(cfg, m, cfg.RateDelay(), n, t)
  {
    hide Fastest, Reaches, Racing;
    if r == 0 {
      m, n := RaceTo(cfg, cfg.RateDelay());
    } else {
      m, n := SendAtOnce(cfg, r - 1);
      if n < r {
        m := SendOneAtOnce(cfg, m, n);
        n := n + 1;
      }
    }
  }

  lemma ExactlyDue(n: nat, e: nat, r: nat, s: nat)
    requires n * s + e == r * s && e < s
    ensures n == r
  {
    if n < r {
      TooMany(r, n, s);
    } else if n > r {
      TooMany(n, r, s);
    }
  }

  /** A repeat past the last one asked for, sent as soon as that one is due. */
  lemma LastInTime(cfg: Config, m: Machine, n: nat, t: Time)
    requires cfg.repeatRate > 0 && !OneTooManyIsLate(cfg) && n > cfg.repeatRate
    requires cfg.RateDelay() + n * cfg.SendAfterMs() == DueMs(cfg, cfg.repeatRate)
    requires Racing(cfg, m, DueMs(cfg, cfg.repeatRate), n, t)
    ensures !FirstSecondOk(cfg, m.log)
  {
    hide Fastest, MinMicros, InPhase, Counted, DueMs, LastReset;
    assert InFirstSecond(cfg, m.log, n - 1);
  }

  /** When there is time for it, one repeat more than asked for comes within the second. */
  lemma OneTooMany(cfg: Config) returns (m: Machine, t: Time)
    requires cfg.repeatEnabled && cfg.repeatRate > 0 && !OneTooManyIsLate(cfg)
    ensures Reaches(cfg, [SOME_KEY], m, t) && !FirstSecondOk(cfg, m.log)
  {
    hide Racing, Reaches, Fastest, FirstSecondOk, OneTooManyIsLate;
    var r, n := cfg.repeatRate, 0;
    t := Fastest(DueMs(cfg, r));
    if cfg.SendAfterMs() == 0 {
      m, n := SendAtOnce(cfg, r + 1);
      assert n * cfg.SendAfterMs() == 0 && DueMs(cfg, r) == cfg.RateDelay();
    } else {
      m, n := RaceTo(cfg, DueMs(cfg, r));
      ZeroBeforeDelay(cfg, m, n, r);
      ExactlyDue(n, m.keys.elapsed, r + 1, cfg.SendAfterMs());
    }
    LastInTime(cfg, m, n, t);
  }

  /** Once more than the delay is counted, it is over. */
  lemma ZeroBeforeDelay(cfg: Config, m: Machine, n: nat, r: nat)
    requires Racing(cfg, m, DueMs(cfg, r), n, Fastest(DueMs(cfg, r)))
    ensures n * cfg.SendAfterMs() + m.keys.elapsed == (r + 1) * cfg.SendAfterMs()
    ensures cfg.SendAfterMs() > 0 ==> m.keys.elapsed < cfg.SendAfterMs()
  {
    assert (r + 1) * cfg.SendAfterMs() >= 0;
  }

  /**
   * No more than repeatRate repeats come within a second after the delay, in any run, exactly if counting
   * the delay and one period more than asked for takes longer, with the milliseconds the timer loses.
   */
  lemma FirstSecondKeptIff(cfg: Config)
    requires cfg.repeatEnabled && cfg.repeatRate > 0
    ensures FirstSecondKept(cfg) <==> OneTooManyIsLate(cfg)
  {
    hide OneTooManyIsLate, Reaches, FirstSecondOk;
    if OneTooManyIsLate(cfg) {
      forall packets, m, t | Reaches(cfg, packets, m, t)
        ensures FirstSecondOk(cfg, m.log)
      {
        LateEnough(cfg, packets, m, t);
      }
    } else {
      var m, t := OneTooMany(cfg);
      assert Reaches(cfg, [SOME_KEY], m, t) && !FirstSecondOk(cfg, m.log);
    }
  }

  lemma LateForAnyDelay(cfg: Config)
    requires cfg.repeatRate > 0 && (cfg.repeatRate + 1) * cfg.SendAfterMs() >= 1000
    ensures OneTooManyIsLate(cfg)
  {
  }

  lemma InTimeForShortestDelay(cfg: Config)
    requires cfg.repeatRate > 0 && (cfg.repeatRate + 1) * cfg.SendAfterMs() < 1000 && cfg.repeatDelay == 1
    ensures !OneTooManyIsLate(cfg)
  {
  }

  /** Whatever the delay, this is kept exactly by the rates whose next period makes up a second. */
  lemma FirstSecondKeptForAnyDelayIff(cfg: Config)
    requires cfg.repeatEnabled && cfg.repeatRate > 0
    ensures (forall delay: int :: FirstSecondKept(cfg.(repeatDelay := delay)))
       <==> (cfg.repeatRate + 1) * cfg.SendAfterMs() >= 1000
  {
    hide FirstSecondKept, OneTooManyIsLate;
    if (cfg.repeatRate + 1) * cfg.SendAfterMs() >= 1000 {
      forall delay: int
        ensures FirstSecondKept(cfg.(repeatDelay := delay))
      {
        LateForAnyDelay(cfg.(repeatDelay := delay));
        FirstSecondKeptIff(cfg.(repeatDelay := delay));
      }
    } else {
      InTimeForShortestDelay(cfg.(repeatDelay := 1));
      FirstSecondKeptIff(cfg.(repeatDelay := 1));
    }
  }
}
