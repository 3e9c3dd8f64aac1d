/**
 * src/lirc_thr.c: the LIRC thread decodes packets, tracks the held key and repeats it.
 *
 * A run of the thread is a list of loop iterations. Each says what queueRemNonBlock returned and
 * what the clock showed; the length of the list is when __io_canceled is seen.
 */
module LircThr {
  import opened Prelude
  import opened KeyDef
  import opened LircUtil
  import opened LircLine

  datatype Config = Config(
    repeatEnabled: bool,   // ENABLE_REPEAT
    repeatRate: int,
    repeatDelay: int,
    lircNamespace: bool,
    eventOut: bool,
    release: Option<string>)
  {
    /** Milliseconds before the first repeat is counted. */
    function RateDelay(): (ms: nat)
      ensures ms > 0
    {
      if repeatDelay > 0 then repeatDelay else 100
    }

    /** Milliseconds between repeats; zero for rates above 1000. */
    function SendAfterMs(): nat {
      if repeatRate > 0 then 1000 / repeatRate else 100
    }
  }

  /** What the thread does that is visible outside, and when it restarts its timer. */
  datatype KeyEvent =
    | Press(key: KeyIndex)
    | Repeat(key: KeyIndex, number: nat, at: Time)
    | Release(key: KeyIndex)
    | Reset(at: Time)

  /** A broadcast line, or an event for the uinput device. */
  datatype Out = Broadcast(line: string) | EventOut(code: nat, value: nat)

  function NameOf(cfg: Config, key: KeyIndex): Name {
    if cfg.lircNamespace then KeyAt(key).nameLirc else KeyAt(key).nameOrig
  }

  function Device(cfg: Config, key: KeyIndex, value: nat): seq<Out> {
    if cfg.eventOut then [EventOut(KeyAt(key).eventCode, value)] else []
  }

  function Render(cfg: Config, e: KeyEvent): seq<Out> {
    match e
    case Press(key) => [Broadcast(Line(KeyAt(key).code, 0, NameOf(cfg, key)))] + Device(cfg, key, 1)
    case Repeat(key, number, _) =>
      [Broadcast(Line(KeyAt(key).code, number, NameOf(cfg, key)))] + Device(cfg, key, 2)
    case Release(key) =>
      (if cfg.release.Some? && |NameOf(cfg, key)| + |cfg.release.value| < 100
       then [Broadcast(Line(KEYUP, 0, NameOf(cfg, key) + cfg.release.value))] else [])
      + Device(cfg, key, 0)
    case Reset(_) => []
  }

  /**
   * A client that reads a line back knows its kind, since only releases have the release code. For presses and
   * repeats it knows the key and the repeat number, for releases the name of the key with the suffix.
   */
  lemma LinesTellTheKey(cfg: Config, e: KeyEvent, line: string)
    requires Broadcast(line) in Render(cfg, e)
    requires e.Release? ==> NoSpace(cfg.release.value)
    ensures var read := Decode(line);
            && read.Some?
            && (e.Press? || e.Repeat? ==> CodeIndex(read.value.code) == e.key)
            && (e.Release? <==> read.value.code == 0xff)
            && !e.Reset?
            && var name := if cfg.lircNamespace then KeyAt(e.key).nameLirc else KeyAt(e.key).nameOrig;
               && (e.Press? ==> read.value == Key(KeyAt(e.key).code, 0, name))
               && (e.Repeat? ==> read.value == Key(KeyAt(e.key).code, e.number, name))
               && (e.Release? ==> read.value == Key(0xff, 0, name + cfg.release.value))
  {
    hide Decode, Line, KeyAt, CodeIndex;
    var name := NameOf(cfg, e.key);
    match e {
      case Press(key) =>
        LineRoundTrip(KeyAt(key).code, 0, name);
        CodeFindsItsKey(key);
      case Repeat(key, number, _) =>
        LineRoundTrip(KeyAt(key).code, number, name);
        CodeFindsItsKey(key);
      case Release(key) =>
        LineRoundTrip(KEYUP, 0, name + cfg.release.value);
    }
  }

  /** The events for the uinput device among the outputs, in order. */
  function DeviceIn(out: seq<Out>): seq<Out> {
    if out == [] then []
    else
      var last := out[|out| - 1];
      DeviceIn(out[..|out| - 1]) + if last.EventOut? then [last] else []
  }

  /** An event's outputs: one line, except for a release without a sendable name, and a device event if enabled. */
  lemma OutputsOfEvent(cfg: Config, e: KeyEvent)
    requires !e.Reset?
    ensures var value := if e.Press? then 1 else if e.Repeat? then 2 else 0;
            DeviceIn(Render(cfg, e)) == if cfg.eventOut then [EventOut(KeyAt(e.key).eventCode, value)] else []
    ensures var name := if cfg.lircNamespace then KeyAt(e.key).nameLirc else KeyAt(e.key).nameOrig;
            |LinesIn(Render(cfg, e))|
            == if e.Release? && (cfg.release.None? || |name| + |cfg.release.value| >= 100) then 0 else 1
  {
    hide Line, KeyAt, LinesIn, DeviceIn;
    var out := Render(cfg, e);
    NoOut();
    if |out| == 2 {
      assert out == [out[0], out[1]];
      PairOut(out[0], out[1]);
    } else if |out| == 1 {
      assert out == [out[0]];
      OneOut(out[0]);
    } else {
      assert out == [];
    }
  }

  lemma NoOut()
    ensures LinesIn([]) == [] && DeviceIn([]) == []
  {
  }

  lemma OneOut(a: Out)
    ensures LinesIn([a]) == if a.Broadcast? then [a.line] else []
    ensures DeviceIn([a]) == if a.EventOut? then [a] else []
  {
    assert [a][..0] == [];
  }

  lemma PairOut(a: Out, b: Out)
    ensures LinesIn([a, b]) == (if a.Broadcast? then [a.line] else []) + if b.Broadcast? then [b.line] else []
    ensures DeviceIn([a, b]) == (if a.EventOut? then [a] else []) + if b.EventOut? then [b] else []
  {
    assert [a, b][..1] == [a];
    OneOut(a);
  }

  function RenderAll(cfg: Config, log: seq<KeyEvent>): seq<Out> {
    if log == [] then [] else RenderAll(cfg, log[..|log| - 1]) + Render(cfg, log[|log| - 1])
  }

  lemma RenderSnoc(cfg: Config, log: seq<KeyEvent>, e: KeyEvent)
    ensures RenderAll(cfg, log + [e]) == RenderAll(cfg, log) + Render(cfg, e)
  {
    assert (log + [e])[..|log|] == log;
  }

  /** The broadcast lines among the outputs, in order. */
  function LinesIn(out: seq<Out>): seq<string> {
    if out == [] then []
    else
      var last := out[|out| - 1];
      LinesIn(out[..|out| - 1]) + if last.Broadcast? then [last.line] else []
  }

  lemma {:induction false} LinesConcat(a: seq<Out>, b: seq<Out>)
    ensures LinesIn(a + b) == LinesIn(a) + LinesIn(b)
  {
    if b == [] {
      assert a + b == a;
    } else {
      LinesConcat(a, b[..|b| - 1]);
      assert (a + b)[..|a + b| - 1] == a + b[..|b| - 1];
    }
  }

  // ---- handleKey ------------------------------------------------------------------------------

  /** DataInd_keyDown. */
  function KeyDownStep(k: Keys, code: nat): (Keys, Option<KeyEvent>) {
    if code != KEYUP then
      var num := CodeIndex(code);
      (k.(keyDown := true, lastKey := num, repeatCount := 0), if num != UNDEF then Some(Press(num)) else None)
    else (k, None)
  }

  /** DataInd_keyUp. */
  function KeyUpStep(k: Keys, code: nat): (Keys, Option<KeyEvent>)
    requires UNDEF <= k.lastKey < NUM_KEYS
  {
    if code == KEYUP && k.lastKey != UNDEF then
      (k.(keyDown := false, lastKey := UNDEF, repeatCount := 0), Some(Release(k.lastKey)))
    else (k, None)
  }

  function HandleKeyStep(k: Keys, data: bytes): (Keys, Option<KeyEvent>)
    requires UNDEF <= k.lastKey < NUM_KEYS
  {
    if |data| == 13 && data[0] == 0xa1 then
      if data[11] == 1 then KeyDownStep(k, data[5])
      else if data[11] == 0 then KeyUpStep(k, data[5])
      else (k, None)
    else (k, None)
  }

  method CodeToIndex(code: nat) returns (num: int)
    ensures num == UNDEF || 0 <= num < NUM_KEYS
    ensures num == UNDEF <==> forall i: KeyIndex :: KeyAt(i).code != code
    ensures num != UNDEF ==> KeyAt(num).code == code
    ensures num == CodeIndex(code)
  {
    CodeIndexFinds(code);
    num := UNDEF;
    var i := 0;
    while i < NUM_KEYS
      invariant 0 <= i <= NUM_KEYS
      invariant FirstWith(code, i) == CodeIndex(code)
    {
      if code == KeyAt(i).code {
        num := i;
        break;
      }
      i := i + 1;
    }
  }

  function Events(e: Option<KeyEvent>): seq<KeyEvent> {
    if e.Some? then [e.value] else []
  }

  function RenderOpt(cfg: Config, e: Option<KeyEvent>): seq<Out> {
    if e.Some? then Render(cfg, e.value) else []
  }

  method DataIndKeyDown(cfg: Config, code: nat, ks: KeyState) returns (out: seq<Out>)
    modifies ks
    ensures var (k, e) := KeyDownStep(old(ks.View()), code);
            ks.View() == k && out == RenderOpt(cfg, e)
  {
    out := [];
    var num := UNDEF;
    if code != KEYUP {
      num := CodeToIndex(code);
      ks.keyDown := true;
      ks.lastKey := num;
      ks.repeatCount := 0;
    }
    if num != UNDEF {
      var name := if cfg.lircNamespace then KeyAt(num).nameLirc else KeyAt(num).nameOrig;
      out := [Broadcast(Line(KeyAt(num).code, 0, name))];
      if cfg.eventOut {
        out := out + [EventOut(KeyAt(num).eventCode, 1)];
      }
    }
  }

  method DataIndKeyUp(cfg: Config, code: nat, ks: KeyState) returns (out: seq<Out>)
    requires UNDEF <= ks.lastKey < NUM_KEYS
    modifies ks
    ensures var (k, e) := KeyUpStep(old(ks.View()), code);
            ks.View() == k && out == RenderOpt(cfg, e)
  {
    out := [];
    if code == KEYUP {
      if ks.lastKey != UNDEF {
        var name := if cfg.lircNamespace then KeyAt(ks.lastKey).nameLirc else KeyAt(ks.lastKey).nameOrig;
        if cfg.release.Some? {
          if |name| + |cfg.release.value| < 100 {
            out := [Broadcast(Line(code, 0, name + cfg.release.value))];
          }
        }
        if cfg.eventOut {
          out := out + [EventOut(KeyAt(ks.lastKey).eventCode, 0)];
        }
        ks.keyDown := false;
        ks.lastKey := UNDEF;
        ks.repeatCount := 0;
      }
    }
  }

  method HandleKey(cfg: Config, data: bytes, ks: KeyState) returns (out: seq<Out>)
    requires UNDEF <= ks.lastKey < NUM_KEYS
    modifies ks
    ensures var (k, e) := HandleKeyStep(old(ks.View()), data);
            ks.View() == k && out == RenderOpt(cfg, e)
  {
    out := [];
    if |data| == 13 && data[0] == 0xa1 {
      if data[11] == 1 {
        out := DataIndKeyDown(cfg, data[5], ks);
      } else if data[11] == 0 {
        out := DataIndKeyUp(cfg, data[5], ks);
      }
    }
  }

  // ---- lircThread -----------------------------------------------------------------------------

  /** One loop iteration: what was dequeued, and the clock at initTime (if dequeued) and at updateTime. */
  datatype Iter = Iter(packet: Option<bytes>, reset: Time, update: Time)

  /** The thread between iterations. It is faulted once it has indexed the key table with UNDEF. */
  datatype Machine = Machine(keys: Keys, log: seq<KeyEvent>, faulted: bool) {
    predicate Ok() { UNDEF <= keys.lastKey < NUM_KEYS }
  }

  function Start(cfg: Config, now: Time): (m: Machine)
    ensures m.Ok()
  {
    Machine(Keys(false, UNDEF, now, now, 0, 0, false), [Reset(now)], false)
  }

  /** The part of an iteration that follows a successful dequeue. */
  function Dequeued(cfg: Config, m: Machine, packet: bytes, now: Time): (m': Machine)
    requires m.Ok()
    ensures m'.Ok() && m'.faulted == m.faulted
    ensures m'.keys.cl0 == if cfg.repeatEnabled then now else m.keys.cl0
  {
    var (k, e) := HandleKeyStep(m.keys, packet);
    if cfg.repeatEnabled then
      m.(keys := k.InitTime(now).(repeatCount := 0, doneWaiting := false), log := m.log + Events(e) + [Reset(now)])
    else m.(keys := k, log := m.log + Events(e))
  }

  /** Count time while a key is down: the new keyState, the repeat to send, and whether the lookup went wrong. */
  function RepeatStep(cfg: Config, k: Keys, now: Time): (r: (Keys, Option<KeyEvent>, bool))
    requires UNDEF <= k.lastKey < NUM_KEYS
    ensures r.0.lastKey == k.lastKey && r.0.keyDown == k.keyDown
  {
    if !cfg.repeatEnabled || !k.keyDown then (k, None, false)
    else
      var u := k.UpdateTime(now);
      if !u.doneWaiting then
        (if u.elapsed >= cfg.RateDelay() then u.(doneWaiting := true, elapsed := 0) else u, None, false)
      else if u.elapsed < cfg.SendAfterMs() then (u, None, false)
      else if u.lastKey == UNDEF then (u, None, true)
      else (u.(elapsed := 0, repeatCount := u.repeatCount + 1), Some(Repeat(u.lastKey, u.repeatCount, now)), false)
  }

  /** The part of an iteration that repeats the held key. */
  function RepeatStage(cfg: Config, m: Machine, now: Time): (m': Machine)
    requires m.Ok()
    ensures m'.Ok() && m'.keys.lastKey == m.keys.lastKey && m'.keys.keyDown == m.keys.keyDown
    ensures var e := RepeatStep(cfg, m.keys, now).1; m'.log == if e.Some? then m.log + [e.value] else m.log
  {
    var (k, e, fault) := RepeatStep(cfg, m.keys, now);
    Machine(k, m.log + Events(e), m.faulted || fault)
  }

  function Iterate(cfg: Config, m: Machine, it: Iter): (m': Machine)
    requires m.Ok()
    ensures m'.Ok()
  {
    if m.faulted then m
    else
      RepeatStage(cfg, if it.packet.Some? then Dequeued(cfg, m, it.packet.value, it.reset) else m, it.update)
  }

  function Run(cfg: Config, m: Machine, iters: seq<Iter>): (m': Machine)
    requires m.Ok()
    ensures m'.Ok()
  {
    if iters == [] then m
    else Iterate(cfg, Run(cfg, m, iters[..|iters| - 1]), iters[|iters| - 1])
  }

  /** The clock readings of the iterations, in order, never run backwards. */
  predicate ClockOk(start: Time, iters: seq<Iter>) {
    iters == [] ||
    var before, it := iters[..|iters| - 1], iters[|iters| - 1];
    && ClockOk(start, before)
    && NotBefore(it.update, if it.packet.Some? then it.reset else ClockAt(start, before))
    && (it.packet.Some? ==> NotBefore(it.reset, ClockAt(start, before)))
  }

  function ClockAt(start: Time, iters: seq<Iter>): Time {
    if iters == [] then start else iters[|iters| - 1].update
  }

  lemma RunSnoc(cfg: Config, m: Machine, start: Time, iters: seq<Iter>, it: Iter)
    requires m.Ok()
    ensures Run(cfg, m, iters + [it]) == Iterate(cfg, Run(cfg, m, iters), it)
    ensures ClockAt(start, iters + [it]) == it.update
    ensures ClockOk(start, iters + [it]) <==>
              && ClockOk(start, iters)
              && NotBefore(it.update, if it.packet.Some? then it.reset else ClockAt(start, iters))
              && (it.packet.Some? ==> NotBefore(it.reset, ClockAt(start, iters)))
  {
    assert (iters + [it])[..|iters|] == iters;
  }

  /** The packets the iterations dequeued, in order. */
  function Packets(iters: seq<Iter>): seq<bytes> {
    if iters == [] then []
    else
      var it := iters[|iters| - 1];
      Packets(iters[..|iters| - 1]) + if it.packet.Some? then [it.packet.value] else []
  }

  lemma {:induction false} ClockPrefix(start: Time, iters: seq<Iter>, n: nat)
    requires ClockOk(start, iters) && n <= |iters|
    ensures ClockOk(start, iters[..n])
    decreases |iters|
  {
    if n < |iters| {
      assert iters[..|iters| - 1][..n] == iters[..n];
      ClockPrefix(start, iters[..|iters| - 1], n);
    } else {
      assert iters[..n] == iters;
    }
  }

  lemma {:induction false} FaultEnds(cfg: Config, m: Machine, iters: seq<Iter>, n: nat)
    requires m.Ok() && n <= |iters| && Run(cfg, m, iters[..n]).faulted
    ensures Run(cfg, m, iters) == Run(cfg, m, iters[..n])
    decreases |iters|
  {
    if n < |iters| {
      assert iters[..|iters| - 1][..n] == iters[..n];
      FaultEnds(cfg, m, iters[..|iters| - 1], n);
    } else {
      assert iters[..n] == iters;
    }
  }

  /** The repeat branch of the loop. */
  method RepeatKey(cfg: Config, now: Time, ks: KeyState) returns (out: seq<Out>, faulted: bool)
    requires UNDEF <= ks.lastKey < NUM_KEYS && NotBefore(now, ks.cl0)
    modifies ks
    ensures var (k, e, fault) := RepeatStep(cfg, old(ks.View()), now);
            ks.View() == k && faulted == fault && out == RenderOpt(cfg, e)
  {
    out, faulted := [], false;
    if !cfg.repeatEnabled || !ks.keyDown {
      return;
    }
    ks.UpdateTime(now);
    if !ks.doneWaiting {
      if ks.elapsed >= cfg.RateDelay() {
        ks.doneWaiting := true;
        ks.elapsed := 0;
      }
      return;
    }
    if ks.elapsed >= cfg.SendAfterMs() {
      if ks.lastKey == UNDEF {
        return [], true;
      }
      var key := ks.lastKey;
      var name := if cfg.lircNamespace then KeyAt(key).nameLirc else KeyAt(key).nameOrig;
      out := [Broadcast(Line(KeyAt(key).code, ks.repeatCount, name))];
      if cfg.eventOut {
        out := out + [EventOut(KeyAt(key).eventCode, 2)];
      }
      ks.elapsed := 0;
      ks.repeatCount := ks.repeatCount + 1;
    }
  }

  lemma RenderEvents(cfg: Config, log: seq<KeyEvent>, e: Option<KeyEvent>)
    ensures RenderAll(cfg, log + Events(e)) == RenderAll(cfg, log) + RenderOpt(cfg, e)
  {
    if e.Some? {
      RenderSnoc(cfg, log, e.value);
    } else {
      assert log + Events(e) == log;
    }
  }

  /** The timer is never ahead of the clock. */
  lemma {:induction false} TimerBehindClock(cfg: Config, start: Time, iters: seq<Iter>)
    requires ClockOk(start, iters)
    ensures NotBefore(ClockAt(start, iters), Run(cfg, Start(cfg, start), iters).keys.cl0)
  {
    if iters != [] {
      TimerBehindClock(cfg, start, iters[..|iters| - 1]);
    }
  }

  lemma DequeuedAppends(cfg: Config, m: Machine, packet: bytes, now: Time)
    requires m.Ok()
    ensures RenderAll(cfg, Dequeued(cfg, m, packet, now).log)
         == RenderAll(cfg, m.log) + RenderOpt(cfg, HandleKeyStep(m.keys, packet).1)
  {
    hide HandleKeyStep, RenderAll;
    var e := HandleKeyStep(m.keys, packet).1;
    RenderEvents(cfg, m.log, e);
    RenderSnoc(cfg, m.log + Events(e), Reset(now));
  }

  /** The branch of the loop taken when a packet was dequeued. */
  method HandlePacket(cfg: Config, packet: bytes, now: Time, ks: KeyState, ghost m: Machine) returns (out: seq<Out>)
    requires m.Ok() && ks.View() == m.keys
    modifies ks
    ensures var m' := Dequeued(cfg, m, packet, now);
            ks.View() == m'.keys && RenderAll(cfg, m'.log) == RenderAll(cfg, m.log) + out
  {
    DequeuedAppends(cfg, m, packet, now);
    out := HandleKey(cfg, packet, ks);
    if cfg.repeatEnabled {
      ks.InitTime(now);
      ks.repeatCount := 0;
      ks.doneWaiting := false;
    }
  }

  /** The clock readings of iteration i are not behind the timer. */
  lemma LoopClock(cfg: Config, start: Time, iters: seq<Iter>, i: nat)
    requires ClockOk(start, iters) && i < |iters|
    ensures Run(cfg, Start(cfg, start), iters[..i + 1])
         == Iterate(cfg, Run(cfg, Start(cfg, start), iters[..i]), iters[i])
    ensures var k := Run(cfg, Start(cfg, start), iters[..i]).keys;
            && NotBefore(iters[i].update, if iters[i].packet.Some? then iters[i].reset else k.cl0)
            && (iters[i].packet.Some? ==> NotBefore(iters[i].reset, k.cl0))
  {
    assert iters[..i + 1] == iters[..i] + [iters[i]];
    ClockPrefix(start, iters, i + 1);
    TimerBehindClock(cfg, start, iters[..i]);
    RunSnoc(cfg, Start(cfg, start), start, iters[..i], iters[i]);
  }

  /** One turn of the loop. */
  method LoopBody(cfg: Config, it: Iter, ks: KeyState, ghost m: Machine) returns (out: seq<Out>, faulted: bool)
    requires m.Ok() && !m.faulted && ks.View() == m.keys
    requires NotBefore(it.update, if it.packet.Some? then it.reset else m.keys.cl0)
    requires it.packet.Some? ==> NotBefore(it.reset, m.keys.cl0)
    modifies ks
    ensures var m' := Iterate(cfg, m, it);
            && ks.View() == m'.keys && faulted == m'.faulted
            && RenderAll(cfg, m'.log) == RenderAll(cfg, m.log) + out
  {
    hide HandleKeyStep, RenderAll, RepeatStep, Dequeued;
    out := [];
    ghost var mid := m;
    if it.packet.Some? {
      out := HandlePacket(cfg, it.packet.value, it.reset, ks, m);
      mid := Dequeued(cfg, m, it.packet.value, it.reset);
    }
    RenderEvents(cfg, mid.log, RepeatStep(cfg, mid.keys, it.update).1);
    var sent;
    sent, faulted := RepeatKey(cfg, it.update, ks);
    out := out + sent;
  }

  /** The loop of lircThread: all it sends, in order, and the keyState it leaves. */
  method LircThread(cfg: Config, start: Time, iters: seq<Iter>) returns (ks: KeyState, out: seq<Out>, faulted: bool)
    requires ClockOk(start, iters)
    ensures var m := Run(cfg, Start(cfg, start), iters);
            faulted == m.faulted && out == RenderAll(cfg, m.log) && ks.View() == m.keys
  {
    hide Run, Iterate, RenderAll, Render, ClockOk, HandleKeyStep;
    ks := new KeyState();
    ks.keyDown := false;
    ks.lastKey := UNDEF;
    ks.InitTime(start);
    ks.repeatCount := 0;
    ks.doneWaiting := false;
    out, faulted := [], false;
    ghost var m0 := Start(cfg, start);
    NothingSent(cfg, start);
    hide *;
    var i := 0;
    while i < |iters| && !faulted
      invariant i <= |iters| && fresh(ks)
      invariant var m := Run(cfg, m0, iters[..i]);
                faulted == m.faulted && out == RenderAll(cfg, m.log) && ks.View() == m.keys
    {
      LoopClock(cfg, start, iters, i);
      var sent;
      sent, faulted := LoopBody(cfg, iters[i], ks, Run(cfg, m0, iters[..i]));
      out := out + sent;
      i := i + 1;
    }
    FaultOrEnd(cfg, m0, iters, i);
  }

  lemma NothingSent(cfg: Config, start: Time)
    ensures Run(cfg, Start(cfg, start), []) == Start(cfg, start) && RenderAll(cfg, Start(cfg, start).log) == []
  {
    RenderSnoc(cfg, [], Reset(start));
    assert [] + [Reset(start)] == [Reset(start)];
  }

  lemma FaultOrEnd(cfg: Config, m: Machine, iters: seq<Iter>, n: nat)
    requires m.Ok() && n <= |iters| && (n == |iters| || Run(cfg, m, iters[..n]).faulted)
    ensures Run(cfg, m, iters) == Run(cfg, m, iters[..n])
  {
    if n == |iters| {
      assert iters[..n] == iters;
    } else {
      FaultEnds(cfg, m, iters, n);
    }
  }
}
