/**
 * Where the promises of the repeat logic end: exactly which packets can make the thread index the
 * key table out of range, which repeat rates are never exceeded, and that none is always reached.
 */
module RepeatLimits {
  import opened Prelude
  import opened KeyDef
  import opened LircUtil
  import opened LircThr
  import opened KeyTrace
  import opened RepeatTiming
  import opened RepeatProgress

  /** Some run on a monotone clock dequeues the packets and ends in m at time now. */
  ghost predicate Reaches(cfg: Config, packets: seq<bytes>, m: Machine, now: Time) {
    exists start, iters ::
      ClockOk(start, iters) && Packets(iters) == packets
      && Run(cfg, Start(cfg, start), iters) == m && ClockAt(start, iters) == now
  }

  lemma ReachesStart(cfg: Config, now: Time)
    ensures Reaches(cfg, [], Start(cfg, now), now)
  {
    assert ClockOk(now, []) && Packets([]) == [] && Run(cfg, Start(cfg, now), []) == Start(cfg, now);
  }

  lemma ReachesStep(cfg: Config, packets: seq<bytes>, m: Machine, t: Time, it: Iter)
    requires m.Ok() && Reaches(cfg, packets, m, t)
    requires NotBefore(it.update, if it.packet.Some? then it.reset else t)
    requires it.packet.Some? ==> NotBefore(it.reset, t)
    ensures Reaches(cfg, packets + (if it.packet.Some? then [it.packet.value] else []), Iterate(cfg, m, it), it.update)
  {
    var start, iters :|
      ClockOk(start, iters) && Packets(iters) == packets
      && Run(cfg, Start(cfg, start), iters) == m && ClockAt(start, iters) == t;
    RunSnoc(cfg, Start(cfg, start), start, iters, it);
    assert (iters + [it])[..|iters|] == iters;
    assert Packets(iters + [it]) == packets + (if it.packet.Some? then [it.packet.value] else []);
  }

  /** An iteration without a packet. */
  lemma IdleStep(cfg: Config, packets: seq<bytes>, m: Machine, t: Time, now: Time)
    requires m.Ok() && !m.faulted && Reaches(cfg, packets, m, t) && NotBefore(now, t)
    ensures Reaches(cfg, packets, RepeatStage(cfg, m, now), now)
  {
    ReachesStep(cfg, packets, m, t, Iter(None, now, now));
    assert packets + [] == packets;
  }

  /** An iteration that takes no time repeats nothing. */
  lemma AtTheSameTime(cfg: Config, m: Machine, it: Iter)
    requires cfg.repeatEnabled && m.Ok() && !m.faulted && it.packet.Some? && it.update == it.reset
    ensures var m' := Iterate(cfg, m, it);
            && !m'.faulted && m'.keys.cl0 == it.update && m'.keys.elapsed == 0 && !m'.keys.doneWaiting
            && (IsPress(it.packet.value) ==> m'.keys.keyDown && m'.keys.lastKey == CodeIndex(it.packet.value[5]))
  {
    hide CodeIndex;
  }

  /** The packets arrive all at once: no time passes, so nothing is repeated. */
  lemma {:induction false} AllAtOnce(cfg: Config, packets: seq<bytes>, t: Time) returns (m: Machine)
    requires cfg.repeatEnabled
    ensures m.Ok() && !m.faulted && Reaches(cfg, packets, m, t)
    ensures m.keys.cl0 == t && m.keys.elapsed == 0 && !m.keys.doneWaiting
    ensures packets != [] && IsPress(packets[|packets| - 1]) ==>
              m.keys.keyDown && m.keys.lastKey == CodeIndex(packets[|packets| - 1][5])
  {
    if packets == [] {
      m := Start(cfg, t);
      ReachesStart(cfg, t);
    } else {
      hide Reaches, Iterate, CodeIndex;
      var before, p := packets[..|packets| - 1], packets[|packets| - 1];
      var m0 := AllAtOnce(cfg, before, t);
      var it := Iter(Some(p), t, t);
      ReachesStep(cfg, before, m0, t, it);
      assert before + [p] == packets;
      AtTheSameTime(cfg, m0, it);
      m := Iterate(cfg, m0, it);
    }
  }

  /** A held key gets past its delay, if nothing else arrives. */
  lemma {:induction false} WaitOut(cfg: Config, packets: seq<bytes>, m: Machine, t: Time)
    returns (m': Machine, t': Time)
    requires cfg.repeatEnabled && m.Ok() && !m.faulted && m.keys.keyDown && !m.keys.doneWaiting
    requires Reaches(cfg, packets, m, t) && m.keys.cl0 == t && m.keys.elapsed < cfg.RateDelay()
    ensures m'.Ok() && !m'.faulted && m'.keys.keyDown && m'.keys.doneWaiting && m'.keys.lastKey == m.keys.lastKey
    ensures Reaches(cfg, packets, m', t') && m'.keys.cl0 == t'
    decreases cfg.RateDelay() - m.keys.elapsed
  {
    hide Reaches;
    var a, b := TimeVal(t.sec + 1, 0), TimeVal(t.sec + 1, 999000);
    var m1 := RepeatStage(cfg, m, a);
    IdleStep(cfg, packets, m, t, a);
    var m2 := RepeatStage(cfg, m1, b);
    IdleStep(cfg, packets, m1, a, b);
    if m2.keys.doneWaiting {
      m', t' := m2, b;
    } else {
      m', t' := WaitOut(cfg, packets, m2, b);
    }
  }

  // ---- The out-of-range lookup ------------------------------------------------------------------

  /** Holding an unknown key past the delay makes the thread index the table with UNDEF. */
  lemma {:induction false} HoldUnknown(cfg: Config, packets: seq<bytes>, m: Machine, t: Time)
    returns (m': Machine, t': Time)
    requires cfg.repeatEnabled && m.Ok() && !m.faulted && m.keys.keyDown && m.keys.doneWaiting
    requires m.keys.lastKey == UNDEF && Reaches(cfg, packets, m, t) && m.keys.cl0 == t
    ensures m'.Ok() && m'.faulted && Reaches(cfg, packets, m', t')
    decreases cfg.SendAfterMs() - m.keys.elapsed
  {
    hide Reaches;
    var a, b := TimeVal(t.sec + 1, 0), TimeVal(t.sec + 1, 999000);
    var m1 := RepeatStage(cfg, m, a);
    IdleStep(cfg, packets, m, t, a);
    if m1.faulted {
      return m1, a;
    }
    var m2 := RepeatStage(cfg, m1, b);
    IdleStep(cfg, packets, m1, a, b);
    if m2.faulted {
      return m2, b;
    }
    m', t' := HoldUnknown(cfg, packets, m2, b);
  }

  /** A faulted thread ignores what follows. */
  lemma {:induction false} FaultStays(cfg: Config, packets: seq<bytes>, more: seq<bytes>, m: Machine, t: Time)
    requires m.Ok() && m.faulted && Reaches(cfg, packets, m, t)
    ensures Reaches(cfg, packets + more, m, t)
    decreases |more|
  {
    hide Reaches;
    if more == [] {
      assert packets + more == packets;
    } else {
      ReachesStep(cfg, packets, m, t, Iter(Some(more[0]), t, t));
      FaultStays(cfg, packets + [more[0]], more[1..], m, t);
      assert packets + more == packets + [more[0]] + more[1..];
    }
  }

  lemma UnknownPressFaults(cfg: Config, packets: seq<bytes>, i: nat) returns (m: Machine, t: Time)
    requires cfg.repeatEnabled && i < |packets| && IsPress(packets[i]) && CodeIndex(packets[i][5]) == UNDEF
    ensures m.Ok() && m.faulted && Reaches(cfg, packets, m, t)
  {
    hide Reaches;
    var cut, rest := packets[..i + 1], packets[i + 1..];
    assert cut[|cut| - 1] == packets[i];
    var m0 := AllAtOnce(cfg, cut, TimeVal(0, 0));
    var m1, t1 := WaitOut(cfg, cut, m0, TimeVal(0, 0));
    m, t := HoldUnknown(cfg, cut, m1, t1);
    FaultStays(cfg, cut, rest, m, t);
    assert cut + rest == packets;
  }

  /** No timing at all leads to an out-of-range lookup exactly when every pressed code is in the table. */
  lemma LookupsInRangeIff(cfg: Config, packets: seq<bytes>)
    requires cfg.repeatEnabled
    ensures KnownCodes(packets) <==>
              forall m, t :: Reaches(cfg, packets, m, t) ==> !m.faulted
  {
    if KnownCodes(packets) {
      forall m, t | Reaches(cfg, packets, m, t)
        ensures !m.faulted
      {
        var start, iters :|
          ClockOk(start, iters) && Packets(iters) == packets
          && Run(cfg, Start(cfg, start), iters) == m && ClockAt(start, iters) == t;
        KnownCodesNeverFault(cfg, start, iters);
      }
    } else {
      var i :| 0 <= i < |packets| && IsPress(packets[i]) && CodeIndex(packets[i][5]) == UNDEF;
      var m, t := UnknownPressFaults(cfg, packets, i);
      assert Reaches(cfg, packets, m, t) && m.faulted;
    }
  }

  // ---- The repeat rate --------------------------------------------------------------------------

  /** Repeats i and i + r are a second or more apart. */
  ghost predicate SpansSecond(reps: seq<KeyEvent>, i: nat, r: nat)
    requires i + r < |reps|
  {
    reps[i].Repeat? && reps[i + r].Repeat? && Micros(reps[i + r].at) - Micros(reps[i].at) >= 1000000
  }

  /** Any r + 1 successive repeats span a second, so no window shorter than that holds more than r. */
  ghost predicate WithinRate(reps: seq<KeyEvent>, r: nat) {
    forall i: nat :: i + r < |reps| ==> SpansSecond(reps, i, r)
  }

  /** "Generate <rate> repeats per second": no more than that, on every run. */
  ghost predicate RateNeverExceeded(cfg: Config)
    requires cfg.repeatRate > 0
  {
    forall packets, m, t :: Reaches(cfg, packets, m, t) ==> WithinRate(Repeats(m.log), cfg.repeatRate)
  }

  lemma ReachedSpacing(cfg: Config, packets: seq<bytes>, m: Machine, t: Time)
    requires cfg.repeatEnabled && Reaches(cfg, packets, m, t)
    ensures Spacing(cfg, m)
  {
    var start, iters :|
      ClockOk(start, iters) && Packets(iters) == packets
      && Run(cfg, Start(cfg, start), iters) == m && ClockAt(start, iters) == t;
    RunSpaced(cfg, start, iters);
  }

  lemma SpacedIsWithinRate(cfg: Config, reps: seq<KeyEvent>)
    requires Spaced(cfg, reps) && cfg.repeatRate > 0 && 1000 % cfg.repeatRate == 0
    ensures WithinRate(reps, cfg.repeatRate)
  {
    var r, s := cfg.repeatRate, cfg.SendAfterMs();
    assert 1000 == r * (1000 / r) + 1000 % r;
    forall i: nat | i + r < |reps|
      ensures SpansSecond(reps, i, r)
    {
      assert Micros(reps[i + r].at) - Micros(reps[i].at) >= 1000 * ((i + r - i) * s);
    }
  }

  /** A key that is down, past its delay, about to be repeated. */
  ghost predicate Repeating(cfg: Config, packets: seq<bytes>, m: Machine, t: Time) {
    && m.Ok() && !m.faulted && m.keys.keyDown && m.keys.doneWaiting && m.keys.lastKey != UNDEF
    && Reaches(cfg, packets, m, t) && m.keys.cl0 == t
  }

  /** An update that finds enough time counted sends a repeat. */
  lemma Fire(cfg: Config, packets: seq<bytes>, m: Machine, t: Time, now: Time) returns (m': Machine)
    requires cfg.repeatEnabled && Repeating(cfg, packets, m, t) && NotBefore(now, t)
    requires m.keys.UpdateTime(now).elapsed >= cfg.SendAfterMs()
    ensures Repeating(cfg, packets, m', now) && m'.keys.elapsed == 0
    ensures Repeats(m'.log) == Repeats(m.log) + [Repeat(m.keys.lastKey, m.keys.repeatCount, now)]
  {
    m' := RepeatStage(cfg, m, now);
    IdleStep(cfg, packets, m, t, now);
    RepeatsSnoc(m.log, Repeat(m.keys.lastKey, m.keys.repeatCount, now));
  }

  /** Any update keeps the key repeating. */
  lemma Pass(cfg: Config, packets: seq<bytes>, m: Machine, t: Time, now: Time) returns (m': Machine)
    requires cfg.repeatEnabled && Repeating(cfg, packets, m, t) && NotBefore(now, t)
    ensures m' == RepeatStage(cfg, m, now) && Repeating(cfg, packets, m', now)
  {
    m' := RepeatStage(cfg, m, now);
    IdleStep(cfg, packets, m, t, now);
  }

  /** usec, n steps of s milliseconds later. */
  function Later(usec: nat, s: nat, n: nat): nat {
    if n == 0 then usec else Later(usec, s, n - 1) + 1000 * s
  }

  lemma {:induction false} LaterIs(usec: nat, s: nat, n: nat)
    ensures Later(usec, s, n) == usec + 1000 * (n * s)
  {
    if n > 0 {
      LaterIs(usec, s, n - 1);
      assert n * s == (n - 1) * s + s;
    }
  }

  /** The repeats have become n more, the last of them sent at `at`. */
  ghost predicate Extended(before: seq<KeyEvent>, after: seq<KeyEvent>, n: nat, at: Time) {
    && |after| == |before| + n && after[..|before|] == before
    && (n > 0 ==> after[|after| - 1].Repeat? && after[|after| - 1].at == at)
  }

  /** n repeats, each exactly s ms after the one before, all within one second. */
  lemma {:induction false} FireMany(cfg: Config, packets: seq<bytes>, m: Machine, sec: int, usec: nat, n: nat)
    returns (m': Machine)
    requires cfg.repeatEnabled && m.keys.elapsed == 0
    requires Later(usec, cfg.SendAfterMs(), n) < 1000000
    requires usec < 1000000 && Repeating(cfg, packets, m, TimeVal(sec, usec))
    ensures var t := TimeVal(sec, Later(usec, cfg.SendAfterMs(), n));
            && Repeating(cfg, packets, m', t) && m'.keys.elapsed == 0
            && Extended(Repeats(m.log), Repeats(m'.log), n, t)
    decreases n
  {
    hide Reaches, Repeats;
    if n == 0 {
      m' := m;
    } else {
      var s := cfg.SendAfterMs();
      var u := Later(usec, s, n - 1);
      var m1 := FireMany(cfg, packets, m, sec, usec, n - 1);
      var now := TimeVal(sec, u + 1000 * s);
      ExactWithinASecond(m1.keys, s);
      m' := Fire(cfg, packets, m1, TimeVal(sec, u), now);
    }
  }

  const SOME_KEY: bytes := [0xa1, 0, 0, 0, 0, 0x0b, 0, 0, 0, 0, 0, 1, 0]

  lemma SomeKeyIsKnown()
    ensures IsPress(SOME_KEY) && CodeIndex(SOME_KEY[5]) != UNDEF
  {
    assert KeyAt(0).code == 0x0b;
    CodeIndexFinds(0x0b);
  }

  /** From a held key past its delay: a repeat at the last microsecond of a second. */
  lemma FireLate(cfg: Config, packets: seq<bytes>, m: Machine, t: Time) returns (m': Machine)
    requires cfg.repeatEnabled && Repeating(cfg, packets, m, t) && cfg.SendAfterMs() <= 500
    ensures Repeating(cfg, packets, m', TimeVal(t.sec + 1, 999999)) && m'.keys.elapsed == 0
    ensures var reps := Repeats(m'.log);
            reps != [] && reps[|reps| - 1].Repeat? && reps[|reps| - 1].at == TimeVal(t.sec + 1, 999999)
  {
    hide Reaches;
    var a, c := TimeVal(t.sec + 1, 0), TimeVal(t.sec + 1, 999999);
    var b := TimeVal(t.sec + 1, 999999 - 1000 * cfg.SendAfterMs());
    var m1 := Pass(cfg, packets, m, t, a);
    var m2 := Pass(cfg, packets, m1, a, b);
    m' := Fire(cfg, packets, m2, b, c);
  }

  /** Then r more, none of which waits for the second tick in between. */
  lemma FireOn(cfg: Config, packets: seq<bytes>, m: Machine, sec: int, r: nat) returns (m': Machine, t': Time)
    requires cfg.repeatEnabled && Repeating(cfg, packets, m, TimeVal(sec, 999999)) && m.keys.elapsed == 0
    requires r > 0 && r * cfg.SendAfterMs() <= 999
    ensures Repeating(cfg, packets, m', t') && Micros(t') < Micros(TimeVal(sec, 999999)) + 1000000
    ensures Extended(Repeats(m.log), Repeats(m'.log), r, t')
  {
    hide Reaches;
    LaterIs(0, cfg.SendAfterMs(), r);
    LaterIs(999999, cfg.SendAfterMs(), r);
    if cfg.SendAfterMs() > 0 {
      var m1 := Pass(cfg, packets, m, TimeVal(sec, 999999), TimeVal(sec + 1, 0));
      m' := FireMany(cfg, packets, m1, sec + 1, 0, r);
      t' := TimeVal(sec + 1, 1000 * (r * cfg.SendAfterMs()));
    } else {
      m' := FireMany(cfg, packets, m, sec, 999999, r);
      t' := TimeVal(sec, 999999);
    }
  }

  /** A rate that does not divide 1000 sends one repeat too many within a second. */
  lemma OtherRatesAreExceeded(cfg: Config) returns (m: Machine, t: Time)
    requires cfg.repeatEnabled && cfg.repeatRate > 0 && 1000 % cfg.repeatRate != 0
    ensures Reaches(cfg, [SOME_KEY], m, t) && !WithinRate(Repeats(m.log), cfg.repeatRate)
  {
    hide Reaches;
    RoomToSpare(cfg.repeatRate);
    SomeKeyIsKnown();
    var packets := [SOME_KEY];
    var m0 := AllAtOnce(cfg, packets, TimeVal(0, 0));
    var m1, t1 := WaitOut(cfg, packets, m0, TimeVal(0, 0));
    var m2 := FireLate(cfg, packets, m1, t1);
    var i := |Repeats(m2.log)| - 1;
    m, t := FireOn(cfg, packets, m2, t1.sec + 1, cfg.repeatRate);
    var reps := Repeats(m.log);
    assert reps[i] == reps[..i + 1][i] == Repeats(m2.log)[i];
    assert !SpansSecond(reps, i, cfg.repeatRate);
  }

  lemma RoomToSpare(r: nat)
    requires r > 0 && 1000 % r != 0
    ensures r * (1000 / r) <= 999 && 1000 / r <= 500
  {
    var s := 1000 / r;
    assert 1000 == r * s + 1000 % r;
    if r == 1 {
      assert false;
    }
    assert r * s >= 2 * s;
  }

  /**
   * No more repeats than the documented rate are sent, on any run, in any window from any repeat on, exactly
   * by the rates that divide 1000.
   */
  lemma RateNeverExceededIff(cfg: Config)
    requires cfg.repeatEnabled && cfg.repeatRate > 0
    ensures RateNeverExceeded(cfg) <==> 1000 % cfg.repeatRate == 0
  {
    if 1000 % cfg.repeatRate == 0 {
      forall packets, m, t | Reaches(cfg, packets, m, t)
        ensures WithinRate(Repeats(m.log), cfg.repeatRate)
      {
        ReachedSpacing(cfg, packets, m, t);
        SpacedIsWithinRate(cfg, Repeats(m.log));
      }
    } else {
      var m, t := OtherRatesAreExceeded(cfg);
      assert Reaches(cfg, [SOME_KEY], m, t);
    }
  }

  /** The documented number of repeats in every n seconds, from any moment on that a key is past its delay. */
  ghost predicate RateReached(cfg: Config)
    requires cfg.repeatRate > 0
  {
    forall start, iters, readings, n: nat :: Repeated(cfg, start, iters, readings, n) ==>
      AllSent(cfg, start, iters, readings) >= cfg.repeatRate * n
  }

  /** A known key past its delay is held for n seconds or more, while the readings are made. */
  ghost predicate Repeated(cfg: Config, start: Time, iters: seq<Iter>, readings: seq<Time>, n: nat) {
    && ClockOk(start, iters + Idle(readings))
    && var k := Run(cfg, Start(cfg, start), iters).keys;
       && Held(Run(cfg, Start(cfg, start), iters)) && k.doneWaiting
       && Micros(Latest(k.cl0, readings)) - Micros(k.cl0) >= 1000000 * n
  }

  /** The repeats sent while the readings are made. */
  function AllSent(cfg: Config, start: Time, iters: seq<Iter>, readings: seq<Time>): int {
    |Repeats(Run(cfg, Start(cfg, start), iters + Idle(readings)).log)|
    - |Repeats(Run(cfg, Start(cfg, start), iters).log)|
  }

  function OncePerSecond(t: Time, n: nat): (readings: seq<Time>)
    ensures |readings| == n
  {
    seq(n, i => TimeVal(t.sec + i + 1, t.usec))
  }

  /** A known key past its delay, last read at time t. */
  ghost predicate HeldAt(cfg: Config, m: Machine, t: Time) {
    Held(m) && m.keys.doneWaiting && InPhase(cfg, m.keys) && m.keys.cl0 == t
  }

  /** A reading a whole number of seconds after the last counts nothing: it repeats only keys that need not wait. */
  lemma LazyStep(cfg: Config, m: Machine, t: Time, now: Time)
    requires cfg.repeatEnabled && HeldAt(cfg, m, t) && now.usec == t.usec
    ensures var m' := Iterate(cfg, m, Iter(None, now, now));
            && HeldAt(cfg, m', now)
            && |Repeats(m'.log)| == |Repeats(m.log)| + if cfg.SendAfterMs() == 0 then 1 else 0
  {
    hide Repeats;
    RepeatsSnoc(m.log, Repeat(m.keys.lastKey, m.keys.repeatCount, now));
  }

  lemma LazySnoc(cfg: Config, start: Time, iters: seq<Iter>, t: Time, now: Time)
    requires cfg.repeatEnabled && ClockOk(start, iters) && ClockAt(start, iters) == t
    requires HeldAt(cfg, Run(cfg, Start(cfg, start), iters), t) && now.usec == t.usec && now.sec >= t.sec
    ensures var all := iters + [Iter(None, now, now)];
            var m, m' := Run(cfg, Start(cfg, start), iters), Run(cfg, Start(cfg, start), all);
            && ClockOk(start, all) && ClockAt(start, all) == now && HeldAt(cfg, m', now)
            && |Repeats(m'.log)| == |Repeats(m.log)| + if cfg.SendAfterMs() == 0 then 1 else 0
  {
    hide Run, ClockOk, ClockAt, HeldAt, Repeats, Iterate;
    RunSnoc(cfg, Start(cfg, start), start, iters, Iter(None, now, now));
    LazyStep(cfg, Run(cfg, Start(cfg, start), iters), t, now);
  }

  lemma {:induction false} LazyReadings(cfg: Config, start: Time, iters: seq<Iter>, t: Time, n: nat)
    requires cfg.repeatEnabled && ClockOk(start, iters) && ClockAt(start, iters) == t
    requires HeldAt(cfg, Run(cfg, Start(cfg, start), iters), t)
    ensures var all, end := iters + Idle(OncePerSecond(t, n)), TimeVal(t.sec + n, t.usec);
            var m, m' := Run(cfg, Start(cfg, start), iters), Run(cfg, Start(cfg, start), all);
            && ClockOk(start, all) && ClockAt(start, all) == end && HeldAt(cfg, m', end)
            && |Repeats(m'.log)| == |Repeats(m.log)| + if cfg.SendAfterMs() == 0 then n else 0
  {
    hide Run, ClockOk, ClockAt, HeldAt, Repeats;
    if n == 0 {
      assert iters + Idle(OncePerSecond(t, 0)) == iters;
    } else {
      LazyReadings(cfg, start, iters, t, n - 1);
      var before, now := iters + Idle(OncePerSecond(t, n - 1)), TimeVal(t.sec + n, t.usec);
      assert iters + Idle(OncePerSecond(t, n)) == before + [Iter(None, now, now)];
      LazySnoc(cfg, start, before, TimeVal(t.sec + n - 1, t.usec), now);
    }
  }

  /** A key that is past its delay, in a run that ends with its last reading. */
  lemma KeyIsHeld(cfg: Config) returns (start: Time, iters: seq<Iter>, t: Time)
    requires cfg.repeatEnabled
    ensures ClockOk(start, iters) && ClockAt(start, iters) == t && HeldAt(cfg, Run(cfg, Start(cfg, start), iters), t)
  {
    SomeKeyIsKnown();
    hide Run, ClockOk, ClockAt, InPhase, Packets, CodeIndex;
    var m0 := AllAtOnce(cfg, [SOME_KEY], TimeVal(0, 0));
    var m;
    m, t := WaitOut(cfg, [SOME_KEY], m0, TimeVal(0, 0));
    start, iters :|
      ClockOk(start, iters) && Packets(iters) == [SOME_KEY]
      && Run(cfg, Start(cfg, start), iters) == m && ClockAt(start, iters) == t;
    RunInPhase(cfg, start, iters);
  }

  lemma PeriodIsZero(cfg: Config)
    requires cfg.repeatRate > 0
    ensures cfg.SendAfterMs() == 0 <==> cfg.repeatRate > 1000
  {
  }

  /**
   * At any rate a key can be held for any number of seconds and be repeated less often than promised: mostly
   * not at all.
   */
  lemma RateCanFallShort(cfg: Config, n: nat) returns (start: Time, iters: seq<Iter>, readings: seq<Time>)
    requires cfg.repeatEnabled && cfg.repeatRate > 0 && n > 0
    ensures Repeated(cfg, start, iters, readings, n)
    ensures AllSent(cfg, start, iters, readings) == (if cfg.repeatRate <= 1000 then 0 else n) < cfg.repeatRate * n
  {
    var t;
    start, iters, t := KeyIsHeld(cfg);
    readings := OncePerSecond(t, n);
    PeriodIsZero(cfg);
    LazyReadings(cfg, start, iters, t, n);
    hide Run, ClockOk, ClockAt, Repeats, InPhase, Config.SendAfterMs;
    MoreThanOnce(cfg.repeatRate, n);
  }

  lemma MoreThanOnce(r: nat, n: nat)
    requires r > 0 && n > 0
    ensures 0 < r * n && (r > 1 ==> n < r * n)
  {
    if r > 1 {
      assert r * n == (r - 1) * n + n && (r - 1) * n > 0;
    }
  }

  /** The other half of the documented rate is promised in vain by every rate. */
  lemma RateIsNeverReached(cfg: Config)
    requires cfg.repeatEnabled && cfg.repeatRate > 0
    ensures !RateReached(cfg)
  {
    var start, iters, readings := RateCanFallShort(cfg, 1);
    assert Repeated(cfg, start, iters, readings, 1);
  }
}
