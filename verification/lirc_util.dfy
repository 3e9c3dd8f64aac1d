/**
 * src/lirc_util.c: the millisecond timer of the repeat logic, and the loop that writes a whole
 * line to a socket. The clock and the kernel's answers are parameters.
 */
module LircUtil {
  import opened Prelude

  // ---- The timer ------------------------------------------------------------------------------

  /** A struct timeval as gettimeofday fills it in. */
  datatype TimeVal = TimeVal(sec: int, usec: int)

  type Time = t: TimeVal | 0 <= t.usec < 1000000 witness TimeVal(0, 0)

  function Micros(t: TimeVal): int { 1000000 * t.sec + t.usec }

  /** The clock does not run backwards from t to u. */
  predicate NotBefore(u: TimeVal, t: TimeVal) { Micros(t) <= Micros(u) }

  /** The value of a keyState struct. `elapsed` counts milliseconds. */
  datatype Keys = Keys(
    keyDown: bool,
    lastKey: int,
    cl0: Time,
    cl1: Time,
    elapsed: nat,
    repeatCount: nat,
    doneWaiting: bool)
  {
    function InitTime(now: Time): Keys {
      this.(cl0 := now, cl1 := now, elapsed := 0)
    }

    function UpdateTime(now: Time): Keys {
      var usec := now.usec - cl0.usec;
      this.(cl1 := now, elapsed := elapsed + (if usec > 0 then usec / 1000 else 0), cl0 := now)
    }
  }

  /** The keyState struct itself. */
  class KeyState {
    var keyDown: bool
    var lastKey: int
    var cl0: Time
    var cl1: Time
    var elapsed: nat
    var repeatCount: nat
    var doneWaiting: bool

    ghost function View(): Keys
      reads this
    {
      Keys(keyDown, lastKey, cl0, cl1, elapsed, repeatCount, doneWaiting)
    }

    constructor ()
      ensures !keyDown && repeatCount == 0
    {
      keyDown, lastKey, elapsed, repeatCount, doneWaiting := false, -1, 0, 0, false;
    }

    method InitTime(now: Time)
      modifies this
      ensures View() == old(View()).InitTime(now)
    {
      cl0 := now;
      cl1 := cl0;
      elapsed := 0;
    }

    /** The assertion of updateTime holds on a clock that does not run backwards. */
    method UpdateTime(now: Time)
      requires NotBefore(now, cl0)
      modifies this
      ensures View() == old(View()).UpdateTime(now)
    {
      cl1 := now;
      assert cl1.sec >= cl0.sec;
      var usec := cl1.usec - cl0.usec;
      var passed := 0;
      if usec > 0 {
        passed := passed + usec / 1000;
      }
      elapsed := elapsed + passed;
      cl0 := cl1;
    }
  }

  /** The clock readings never run backwards, starting from t. */
  predicate Monotone(t: Time, readings: seq<Time>)
    decreases |readings|
  {
    readings == [] || (NotBefore(readings[0], t) && Monotone(readings[0], readings[1..]))
  }

  function Latest(t: Time, readings: seq<Time>): Time {
    if readings == [] then t else readings[|readings| - 1]
  }

  /** updateTime at every reading. */
  function Updates(k: Keys, readings: seq<Time>): Keys
    decreases |readings|
  {
    if readings == [] then k else Updates(k.UpdateTime(readings[0]), readings[1..])
  }

  /** One call: it never counts time that did not pass, and it loses less than 1 ms plus the whole-second ticks. */
  lemma OneUpdate(k: Keys, now: Time)
    requires NotBefore(now, k.cl0)
    ensures var counted := 1000 * (k.UpdateTime(now).elapsed - k.elapsed);
            var passed := Micros(now) - Micros(k.cl0);
            passed - 999 - 1000000 * (now.sec - k.cl0.sec) <= counted <= passed
  {
  }

  /** The two-sided bound on the lossy timer, over any number of calls since initTime. */
  lemma {:induction false} TimerBounds(k: Keys, readings: seq<Time>)
    requires Monotone(k.cl0, readings)
    ensures Updates(k, readings).cl0 == Latest(k.cl0, readings)
    ensures var counted := 1000 * (Updates(k, readings).elapsed - k.elapsed);
            var end := Latest(k.cl0, readings);
            var passed := Micros(end) - Micros(k.cl0);
            passed - 999 * |readings| - 1000000 * (end.sec - k.cl0.sec) <= counted <= passed
    decreases |readings|
  {
    if readings != [] {
      OneUpdate(k, readings[0]);
      TimerBounds(k.UpdateTime(readings[0]), readings[1..]);
    }
  }

  /**
   * The most that the timer can count from t on when it is read at u: whole milliseconds, and 999 in a whole
   * second.
   */
  function CountLimit(t: Time, u: Time): nat {
    if u.sec <= t.sec then (if u.usec > t.usec then (u.usec - t.usec) / 1000 else 0)
    else (999999 - t.usec) / 1000 + 999 * (u.sec - t.sec - 1) + u.usec / 1000
  }

  /** One more reading stays within the limit. */
  lemma LimitGrows(t: Time, k: Keys, now: Time)
    requires NotBefore(k.cl0, t) && NotBefore(now, k.cl0)
    ensures CountLimit(t, k.cl0) + (k.UpdateTime(now).elapsed - k.elapsed) <= CountLimit(t, now)
  {
    var a, b := k.cl0.usec, now.usec;
    if now.sec == k.cl0.sec {
      if b > a {
        Floors(if k.cl0.sec == t.sec then a - t.usec else a, b - a);
      }
    } else if k.cl0.sec == t.sec {
      assert (a - t.usec) / 1000 <= (999999 - t.usec) / 1000;
    } else {
      assert a / 1000 <= 999;
    }
  }

  lemma Floors(x: nat, y: nat)
    ensures x / 1000 + y / 1000 <= (x + y) / 1000
  {
  }

  /**
   * The microseconds it takes at least to count ms: a full millisecond is lost in every whole second, and a
   * bit at a tick.
   */
  function MinMicros(ms: nat): nat {
    if ms <= 999 then 1000 * ms else 1000 * ms + 1 + 1000 * ((ms - 1) / 999 - 1)
  }

  lemma LimitTakesTime(t: Time, u: Time, ms: nat)
    requires NotBefore(u, t) && ms <= CountLimit(t, u)
    ensures Micros(t) + MinMicros(ms) <= Micros(u)
  {
    var s := u.sec - t.sec;
    if s > 0 {
      assert ms <= 999 * (s + 1);
      assert 1000 * ms + 1 + 1000 * (s - 1) <= Micros(u) - Micros(t);
    }
  }

  lemma MoreTakesLonger(ms: nat, ms': nat)
    requires ms <= ms'
    ensures 1000 * ms <= MinMicros(ms) <= MinMicros(ms')
  {
  }

  /** The timer counts no more than 999 ms in a second, over any number of calls. */
  lemma {:induction false} TimerIsSlow(k: Keys, t: Time, readings: seq<Time>)
    requires NotBefore(k.cl0, t) && Monotone(k.cl0, readings)
    ensures CountLimit(t, k.cl0) + (Updates(k, readings).elapsed - k.elapsed) <= CountLimit(t, Latest(k.cl0, readings))
    decreases |readings|
  {
    if readings != [] {
      LimitGrows(t, k, readings[0]);
      hide CountLimit;
      TimerIsSlow(k.UpdateTime(readings[0]), t, readings[1..]);
    }
  }

  /** Successive readings are less than gap + 1 milliseconds apart. */
  predicate Steady(t: Time, readings: seq<Time>, gap: nat)
    decreases |readings|
  {
    readings == [] || (Micros(readings[0]) < Micros(t) + 1000 * (gap + 1) && Steady(readings[0], readings[1..], gap))
  }

  /**
   * What the timer may lose over k readings and that many ticks of the second: under 1 ms each, and a
   * reading's worth per tick.
   */
  function MayLose(k: nat, ticks: int, gap: nat): int {
    999 * k + 1000 * ((gap + 1) * ticks)
  }

  lemma OneSteadyUpdate(k: Keys, now: Time, gap: nat)
    requires NotBefore(now, k.cl0) && Micros(now) < Micros(k.cl0) + 1000 * (gap + 1)
    ensures var passed := Micros(now) - Micros(k.cl0);
            passed - MayLose(1, now.sec - k.cl0.sec, gap) <= 1000 * (k.UpdateTime(now).elapsed - k.elapsed)
  {
    var ticks := now.sec - k.cl0.sec;
    if ticks > 0 {
      assert (gap + 1) * ticks >= gap + 1;
    } else {
      assert ticks == 0;
    }
  }

  lemma LosesAddUp(k: nat, ticks: int, ticks': int, gap: nat)
    ensures MayLose(1, ticks, gap) + MayLose(k, ticks', gap) == MayLose(k + 1, ticks + ticks', gap)
  {
    assert (gap + 1) * (ticks + ticks') == (gap + 1) * ticks + (gap + 1) * ticks';
  }

  /**
   * The timer keeps going: of steady readings it loses less than a millisecond each, and one reading's worth a
   * second.
   */
  lemma {:induction false} SteadyBounds(k: Keys, readings: seq<Time>, gap: nat)
    requires Monotone(k.cl0, readings) && Steady(k.cl0, readings, gap)
    ensures var end := Latest(k.cl0, readings);
            Micros(end) - Micros(k.cl0) - MayLose(|readings|, end.sec - k.cl0.sec, gap)
            <= 1000 * (Updates(k, readings).elapsed - k.elapsed)
    decreases |readings|
  {
    if readings != [] {
      var now, rest := readings[0], readings[1..];
      OneSteadyUpdate(k, now, gap);
      SteadyBounds(k.UpdateTime(now), rest, gap);
      LosesAddUp(|rest|, now.sec - k.cl0.sec, Latest(now, rest).sec - now.sec, gap);
      hide MayLose;
      assert Latest(k.cl0, readings) == Latest(now, rest);
    }
  }

  /** The timer stands still for as long as it is read more often than once a millisecond. */
  lemma {:induction false} HurriedReadingsStopTheTimer(k: Keys, readings: seq<Time>)
    requires Monotone(k.cl0, readings) && Steady(k.cl0, readings, 0)
    ensures Updates(k, readings).elapsed == k.elapsed
    decreases |readings|
  {
    if readings != [] {
      assert k.UpdateTime(readings[0]).elapsed == k.elapsed;
      HurriedReadingsStopTheTimer(k.UpdateTime(readings[0]), readings[1..]);
    }
  }

  /** The timer is exact on readings within one second that are whole milliseconds apart. */
  lemma ExactWithinASecond(k: Keys, ms: nat)
    requires k.cl0.usec + 1000 * ms < 1000000
    ensures var now := TimeVal(k.cl0.sec, k.cl0.usec + 1000 * ms);
            k.UpdateTime(now).elapsed == k.elapsed + ms
  {
  }

  // ---- write_socket ---------------------------------------------------------------------------

  /** The kernel's answers to successive write calls: how many bytes it would take, or an error. */
  type Offers = nat -> int

  /** One write(2): an error on a descriptor that is not open, and never more than was asked for. */
  function KernelWrite(fd: int, offer: int, todo: nat): (done: int)
    ensures done <= todo
  {
    if fd < 0 then -1 else if offer <= todo then offer else todo
  }

  datatype Written = Written(result: int, sent: nat)

  /** write_socket from its k-th write call on, with todo bytes still to send. */
  function WriteRest(fd: int, offers: Offers, k: nat, todo: nat): (w: Written)
    ensures w.sent <= todo
    decreases todo
  {
    if todo == 0 then Written(1, 0)
    else
      var done := KernelWrite(fd, offers(k), todo);
      if done <= 0 then Written(done, 0)
      else
        var w := WriteRest(fd, offers, k + 1, todo - done);
        w.(sent := w.sent + done)
  }

  /** The whole line went out. */
  predicate Delivers(fd: int, offers: Offers, len: nat) {
    WriteRest(fd, offers, 0, len).sent == len
  }

  /** All or nothing, seen from the result: positive exactly when every byte was sent. */
  lemma {:induction false} WriteRestResult(fd: int, offers: Offers, k: nat, todo: nat)
    ensures var w := WriteRest(fd, offers, k, todo);
            (w.result > 0 <==> w.sent == todo)
    decreases todo
  {
    if todo > 0 {
      var done := KernelWrite(fd, offers(k), todo);
      if done > 0 {
        WriteRestResult(fd, offers, k + 1, todo - done);
      }
    }
  }

  /** A kernel that takes less than everything gets the rest in later calls. */
  lemma PartialWritesAddUp(fd: int, offers: Offers, len: nat)
    requires fd >= 0 && len > 0 && 0 < offers(0) < len
    ensures Delivers(fd, offers, len) <==> Delivers(fd, (k: nat) => offers(k + 1), len - offers(0))
  {
    ShiftOffers(fd, offers, 1, len - offers(0));
  }

  lemma {:induction false} ShiftOffers(fd: int, offers: Offers, k: nat, todo: nat)
    requires k > 0
    ensures WriteRest(fd, offers, k, todo) == WriteRest(fd, (j: nat) => offers(j + 1), k - 1, todo)
    decreases todo
  {
    if todo > 0 {
      var done := KernelWrite(fd, offers(k), todo);
      if done > 0 {
        ShiftOffers(fd, offers, k + 1, todo - done);
      }
    }
  }

  /** write_socket. `sent` is what the peer received. */
  method WriteSocket(fd: int, buf: string, len: nat, offers: Offers) returns (rc: int, sent: string)
    requires len <= |buf|
    ensures rc == len <==> sent == buf[..len]
    ensures IsPrefix(sent, buf[..len]) && |sent| == WriteRest(fd, offers, 0, len).sent
    ensures rc == len || (rc <= 0 && IsStrictPrefix(sent, buf[..len]))
  {
    WriteRestResult(fd, offers, 0, len);
    var pos: nat, todo: nat, k: nat := 0, len, 0;
    while todo > 0
      invariant pos + todo == len
      invariant WriteRest(fd, offers, 0, len).sent == pos + WriteRest(fd, offers, k, todo).sent
      invariant WriteRest(fd, offers, 0, len).result == WriteRest(fd, offers, k, todo).result
    {
      var done := KernelWrite(fd, offers(k), todo);
      if done <= 0 {
        return done, buf[..pos];
      }
      pos := pos + done;
      todo := todo - done;
      k := k + 1;
    }
    return len, buf[..len];
  }
}
