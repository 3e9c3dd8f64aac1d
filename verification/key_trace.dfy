/** What the LIRC thread promises over whole runs, for any packets and any timing. */
module KeyTrace {
  import opened Prelude
  import opened KeyDef
  import opened LircUtil
  import opened LircThr

  // ---- Every event names the right key --------------------------------------------------------

  /** The key of the most recent press that has not been released. */
  function Pending(log: seq<KeyEvent>): Option<KeyIndex> {
    if log == [] then None
    else
      match log[|log| - 1]
      case Press(key) => Some(key)
      case Release(_) => None
      case _ => Pending(log[..|log| - 1])
  }

  /** A release or repeat that comes after `before` names the pending key. */
  predicate NamesPending(before: seq<KeyEvent>, e: KeyEvent) {
    (e.Release? || e.Repeat?) ==> Pending(before) == Some(e.key)
  }

  ghost predicate Disciplined(log: seq<KeyEvent>) {
    forall i :: 0 <= i < |log| ==> NamesPending(log[..i], log[i])
  }

  lemma DisciplinedSnoc(log: seq<KeyEvent>, e: KeyEvent)
    requires Disciplined(log) && NamesPending(log, e)
    ensures Disciplined(log + [e])
  {
    forall i | 0 <= i < |log| + 1
      ensures NamesPending((log + [e])[..i], (log + [e])[i])
    {
      assert (log + [e])[..i] == log[..i];
      if i == |log| {
        assert log[..i] == log;
      } else {
        assert NamesPending(log[..i], log[i]);
      }
    }
  }

  lemma PendingSnoc(log: seq<KeyEvent>, e: KeyEvent)
    ensures Pending(log + [e]) == match e
                                  case Press(key) => Some(key)
                                  case Release(_) => None
                                  case _ => Pending(log)
  {
    assert (log + [e])[..|log|] == log;
  }

  ghost predicate KeysTrackLog(m: Machine) {
    && m.Ok()
    && Disciplined(m.log)
    && (m.keys.lastKey != UNDEF ==> Pending(m.log) == Some(m.keys.lastKey))
    && (!m.keys.keyDown ==> m.keys.lastKey == UNDEF)
  }

  lemma DequeuedTracks(cfg: Config, m: Machine, packet: bytes, now: Time)
    requires KeysTrackLog(m)
    ensures KeysTrackLog(Dequeued(cfg, m, packet, now))
  {
    var e := HandleKeyStep(m.keys, packet).1;
    var log := m.log + Events(e);
    if e.Some? {
      DisciplinedSnoc(m.log, e.value);
      PendingSnoc(m.log, e.value);
    } else {
      assert log == m.log;
    }
    if cfg.repeatEnabled {
      DisciplinedSnoc(log, Reset(now));
      PendingSnoc(log, Reset(now));
    }
  }

  lemma RepeatTracks(cfg: Config, m: Machine, now: Time)
    requires KeysTrackLog(m)
    ensures KeysTrackLog(RepeatStage(cfg, m, now))
  {
    var e := RepeatStep(cfg, m.keys, now).1;
    if e.Some? {
      DisciplinedSnoc(m.log, e.value);
      PendingSnoc(m.log, e.value);
    }
  }

  /** Every release and every repeat of every run names the last pressed key that is not released. */
  lemma {:induction false} EventsAreDisciplined(cfg: Config, start: Time, iters: seq<Iter>)
    ensures KeysTrackLog(Run(cfg, Start(cfg, start), iters))
  {
    var m0 := Start(cfg, start);
    if iters == [] {
      assert forall i :: 0 <= i < |m0.log| ==> NamesPending(m0.log[..i], m0.log[i]);
    } else {
      var it := iters[|iters| - 1];
      EventsAreDisciplined(cfg, start, iters[..|iters| - 1]);
      var m := Run(cfg, m0, iters[..|iters| - 1]);
      if !m.faulted {
        if it.packet.Some? {
          DequeuedTracks(cfg, m, it.packet.value, it.reset);
          RepeatTracks(cfg, Dequeued(cfg, m, it.packet.value, it.reset), it.update);
        } else {
          RepeatTracks(cfg, m, it.update);
        }
      }
    }
  }

  function Presses(log: seq<KeyEvent>, key: KeyIndex): nat {
    if log == [] then 0
    else Presses(log[..|log| - 1], key) + if log[|log| - 1] == Press(key) then 1 else 0
  }

  function Releases(log: seq<KeyEvent>, key: KeyIndex): nat {
    if log == [] then 0
    else Releases(log[..|log| - 1], key) + if log[|log| - 1] == Release(key) then 1 else 0
  }

  /** In a disciplined log, no key is released more often than it was pressed. */
  lemma {:induction false} ReleasesArePaidFor(log: seq<KeyEvent>, key: KeyIndex)
    requires Disciplined(log)
    ensures Releases(log, key) + (if Pending(log) == Some(key) then 1 else 0) <= Presses(log, key)
  {
    if log != [] {
      var n := |log| - 1;
      forall i | 0 <= i < n
        ensures NamesPending(log[..n][..i], log[..n][i])
      {
        assert log[..n][..i] == log[..i];
        assert NamesPending(log[..i], log[i]);
      }
      ReleasesArePaidFor(log[..n], key);
      assert NamesPending(log[..n], log[n]);
    }
  }

  /** In every prefix of every run, releases of a key never outnumber its presses. */
  lemma ReleasesNeverOutnumberPresses(cfg: Config, start: Time, iters: seq<Iter>, n: nat, key: KeyIndex)
    requires n <= |Run(cfg, Start(cfg, start), iters).log|
    ensures var log := Run(cfg, Start(cfg, start), iters).log[..n]; Releases(log, key) <= Presses(log, key)
  {
    EventsAreDisciplined(cfg, start, iters);
    var log := Run(cfg, Start(cfg, start), iters).log;
    forall i | 0 <= i < n
      ensures NamesPending(log[..n][..i], log[..n][i])
    {
      assert log[..n][..i] == log[..i];
      assert NamesPending(log[..i], log[i]);
    }
    ReleasesArePaidFor(log[..n], key);
  }

  // ---- The held key, read off the packets -----------------------------------------------------

  predicate IsPress(p: bytes) {
    |p| == 13 && p[0] == 0xa1 && p[11] == 1 && p[5] != 0xff
  }

  predicate IsRelease(p: bytes) {
    |p| == 13 && p[0] == 0xa1 && p[11] == 0 && p[5] == 0xff
  }

  /** Packet i is the latest press, and no release follows it. */
  ghost predicate HeldSince(packets: seq<bytes>, i: nat) {
    && i < |packets| && IsPress(packets[i])
    && forall j :: i < j < |packets| ==> !IsPress(packets[j]) && !IsRelease(packets[j])
  }

  /** The release at j takes effect: it follows, with no press or release in between, a press of a known key. */
  ghost predicate Effective(packets: seq<bytes>, j: nat) {
    && j < |packets| && IsRelease(packets[j])
    && exists i: nat :: HeldSince(packets[..j], i) && CodeIndex(packets[i][5]) != UNDEF
  }

  /** lastKey is the table index of the latest press that no release follows, or UNDEF. */
  ghost predicate LastKeyIs(packets: seq<bytes>, lastKey: int) {
    if exists i: nat :: HeldSince(packets, i)
    then forall i: nat :: HeldSince(packets, i) ==> lastKey == CodeIndex(packets[i][5])
    else lastKey == UNDEF
  }

  /** keyDown is set exactly when some press is not followed by an effective release. */
  ghost predicate KeyDownIs(packets: seq<bytes>, keyDown: bool) {
    keyDown <==> exists i: nat :: PressStands(packets, i)
  }

  ghost predicate PressStands(packets: seq<bytes>, i: nat) {
    && i < |packets| && IsPress(packets[i])
    && forall j :: i < j < |packets| ==> !Effective(packets, j)
  }

  lemma HeldSinceSnoc(packets: seq<bytes>, p: bytes, i: nat)
    ensures HeldSince(packets + [p], i) <==>
              if i == |packets| then IsPress(p) else HeldSince(packets, i) && !IsPress(p) && !IsRelease(p)
  {
    var all := packets + [p];
    assert all[|packets|] == p;
    assert forall j :: 0 <= j < |packets| ==> all[j] == packets[j];
  }

  lemma EffectiveSnoc(packets: seq<bytes>, p: bytes, j: nat)
    requires j < |packets|
    ensures Effective(packets + [p], j) <==> Effective(packets, j)
  {
    assert (packets + [p])[..j] == packets[..j];
    assert forall i :: 0 <= i < j ==> (packets + [p])[i] == packets[i];
  }

  /** A release takes effect exactly when lastKey names a key. */
  lemma EffectiveLast(packets: seq<bytes>, p: bytes, lastKey: int)
    requires LastKeyIs(packets, lastKey)
    ensures Effective(packets + [p], |packets|) <==> IsRelease(p) && lastKey != UNDEF
  {
    var all := packets + [p];
    assert all[..|packets|] == packets;
    assert forall i :: 0 <= i < |packets| ==> all[i] == packets[i];
    if IsRelease(p) && lastKey != UNDEF {
      var i: nat :| HeldSince(packets, i);
      assert HeldSince(all[..|packets|], i) && CodeIndex(all[i][5]) != UNDEF;
    }
  }

  lemma LastKeySnoc(k: Keys, packets: seq<bytes>, p: bytes)
    requires UNDEF <= k.lastKey < NUM_KEYS && LastKeyIs(packets, k.lastKey)
    ensures LastKeyIs(packets + [p], HandleKeyStep(k, p).0.lastKey)
  {
    var all := packets + [p];
    forall i: nat
      ensures HeldSince(all, i) <==>
                if i == |packets| then IsPress(p) else HeldSince(packets, i) && !IsPress(p) && !IsRelease(p)
    {
      HeldSinceSnoc(packets, p, i);
    }
    if IsPress(p) {
      assert HeldSince(all, |packets|);
      forall i: nat | HeldSince(all, i)
        ensures i == |packets|
      {
      }
    } else if !IsRelease(p) {
      assert forall i: nat :: HeldSince(all, i) ==> all[i] == packets[i];
      assert (exists i: nat :: HeldSince(packets, i)) ==> (exists i: nat :: HeldSince(all, i)) by {
        if i: nat :| HeldSince(packets, i) {
          assert HeldSince(all, i);
        }
      }
    }
  }

  lemma KeyDownSnoc(k: Keys, packets: seq<bytes>, p: bytes)
    requires UNDEF <= k.lastKey < NUM_KEYS && LastKeyIs(packets, k.lastKey) && KeyDownIs(packets, k.keyDown)
    ensures KeyDownIs(packets + [p], HandleKeyStep(k, p).0.keyDown)
  {
    var all := packets + [p];
    var n := |packets|;
    EffectiveLast(packets, p, k.lastKey);
    forall j: nat | j < n
      ensures Effective(all, j) <==> Effective(packets, j)
    {
      EffectiveSnoc(packets, p, j);
    }
    if IsPress(p) {
      assert PressStands(all, n);
    } else if Effective(all, n) {
      assert forall i: nat :: !PressStands(all, i);
    } else {
      forall i: nat
        ensures PressStands(all, i) <==> PressStands(packets, i)
      {
        if i < n {
          assert all[i] == packets[i];
        }
      }
    }
  }

  lemma NotFaultedBefore(cfg: Config, m: Machine, iters: seq<Iter>)
    requires m.Ok() && iters != [] && !Run(cfg, m, iters).faulted
    ensures !Run(cfg, m, iters[..|iters| - 1]).faulted
  {
  }

  /** The held key is a function of the dequeued packets alone, whatever the timing. */
  lemma {:induction false} HeldKeyFollowsPackets(cfg: Config, start: Time, iters: seq<Iter>)
    requires !Run(cfg, Start(cfg, start), iters).faulted
    ensures var k := Run(cfg, Start(cfg, start), iters).keys;
            LastKeyIs(Packets(iters), k.lastKey) && KeyDownIs(Packets(iters), k.keyDown)
  {
    if iters != [] {
      var before, it := iters[..|iters| - 1], iters[|iters| - 1];
      NotFaultedBefore(cfg, Start(cfg, start), iters);
      HeldKeyFollowsPackets(cfg, start, before);
      var m := Run(cfg, Start(cfg, start), before);
      if it.packet.Some? {
        LastKeySnoc(m.keys, Packets(before), it.packet.value);
        KeyDownSnoc(m.keys, Packets(before), it.packet.value);
      } else {
        assert Packets(iters) == Packets(before);
      }
    }
  }

  /** All pressed codes are in the key table. */
  ghost predicate KnownCodes(packets: seq<bytes>) {
    forall i :: 0 <= i < |packets| && IsPress(packets[i]) ==> CodeIndex(packets[i][5]) != UNDEF
  }

  ghost predicate KeysInRange(m: Machine) {
    m.Ok() && !m.faulted && (m.keys.keyDown <==> 0 <= m.keys.lastKey < NUM_KEYS)
  }

  lemma KnownPacket(cfg: Config, m: Machine, p: bytes, now: Time)
    requires KeysInRange(m) && (IsPress(p) ==> CodeIndex(p[5]) != UNDEF)
    ensures KeysInRange(Dequeued(cfg, m, p, now))
  {
  }

  lemma KnownRepeat(cfg: Config, m: Machine, now: Time)
    requires KeysInRange(m)
    ensures KeysInRange(RepeatStage(cfg, m, now))
  {
  }

  /** With known codes a key is down exactly when lastKey indexes the table, so every repeat lookup is in range. */
  lemma {:induction false} KnownCodesNeverFault(cfg: Config, start: Time, iters: seq<Iter>)
    requires KnownCodes(Packets(iters))
    ensures KeysInRange(Run(cfg, Start(cfg, start), iters))
  {
    if iters != [] {
      hide Dequeued, RepeatStage, CodeIndex;
      var before, it := iters[..|iters| - 1], iters[|iters| - 1];
      var ps := Packets(before);
      assert forall i :: 0 <= i < |ps| ==> ps[i] == Packets(iters)[i];
      KnownCodesNeverFault(cfg, start, before);
      var m := Run(cfg, Start(cfg, start), before);
      if it.packet.Some? {
        assert Packets(iters)[|ps|] == it.packet.value;
        KnownPacket(cfg, m, it.packet.value, it.reset);
        KnownRepeat(cfg, Dequeued(cfg, m, it.packet.value, it.reset), it.update);
      } else {
        KnownRepeat(cfg, m, it.update);
      }
    }
  }

  // ---- The key events are a fold over the packets ---------------------------------------------

  /** handleKey over the packets one after the other, with no clock and no repeats. */
  function Fold(packets: seq<bytes>): (r: (Keys, seq<KeyEvent>))
    ensures UNDEF <= r.0.lastKey < NUM_KEYS
  {
    if packets == [] then (Keys(false, UNDEF, TimeVal(0, 0), TimeVal(0, 0), 0, 0, false), [])
    else
      var (k, log) := Fold(packets[..|packets| - 1]);
      var (k', e) := HandleKeyStep(k, packets[|packets| - 1]);
      (k', log + Events(e))
  }

  lemma FoldSnoc(packets: seq<bytes>, p: bytes)
    ensures Fold(packets + [p]).1 == Fold(packets).1 + Events(HandleKeyStep(Fold(packets).0, p).1)
    ensures Fold(packets + [p]).0 == HandleKeyStep(Fold(packets).0, p).0
  {
    assert (packets + [p])[..|packets|] == packets;
  }

  lemma {:induction false} FoldHeldKey(packets: seq<bytes>)
    ensures LastKeyIs(packets, Fold(packets).0.lastKey)
  {
    if packets != [] {
      var n := |packets| - 1;
      FoldHeldKey(packets[..n]);
      LastKeySnoc(Fold(packets[..n]).0, packets[..n], packets[n]);
      assert packets[..n] + [packets[n]] == packets;
    }
  }

  /** The release at the end of the packets is that of key, the known key pressed last and held since. */
  ghost predicate ReleaseOf(packets: seq<bytes>, p: bytes, key: KeyIndex) {
    IsRelease(p) && exists i: nat :: HeldSince(packets, i) && CodeIndex(packets[i][5]) == key
  }

  /**
   * The presses and releases, read off the packets alone. Every press of a known code is an event, also when
   * the key is still down; an effective release is one, of the key held; nothing else is.
   */
  lemma EventsFollowPackets(packets: seq<bytes>, p: bytes)
    ensures var before, after := Fold(packets).1, Fold(packets + [p]).1;
            if IsPress(p) && CodeIndex(p[5]) != UNDEF then after == before + [Press(CodeIndex(p[5]))]
            else if Effective(packets + [p], |packets|) then
              exists key: KeyIndex :: ReleaseOf(packets, p, key) && after == before + [Release(key)]
            else after == before
  {
    hide CodeIndex, LastKeyIs, HeldSince, Fold;
    FoldSnoc(packets, p);
    FoldHeldKey(packets);
    var k := Fold(packets).0;
    EffectiveLast(packets, p, k.lastKey);
    if Effective(packets + [p], |packets|) {
      HeldKeyIs(packets, k.lastKey);
      assert ReleaseOf(packets, p, k.lastKey);
    }
  }

  lemma HeldKeyIs(packets: seq<bytes>, lastKey: int)
    requires LastKeyIs(packets, lastKey) && lastKey != UNDEF
    ensures exists i: nat :: HeldSince(packets, i) && CodeIndex(packets[i][5]) == lastKey
  {
  }

  /** Presses and releases, without repeats and timer restarts. */
  function KeyOnly(log: seq<KeyEvent>): seq<KeyEvent> {
    if log == [] then []
    else
      var e := log[|log| - 1];
      KeyOnly(log[..|log| - 1]) + if e.Press? || e.Release? then [e] else []
  }

  lemma KeyOnlySnoc(log: seq<KeyEvent>, e: KeyEvent)
    ensures KeyOnly(log + [e]) == KeyOnly(log) + if e.Press? || e.Release? then [e] else []
  {
    assert (log + [e])[..|log|] == log;
  }

  lemma KeyOnlyDequeued(cfg: Config, m: Machine, packet: bytes, now: Time)
    requires m.Ok()
    ensures KeyOnly(Dequeued(cfg, m, packet, now).log) == KeyOnly(m.log) + Events(HandleKeyStep(m.keys, packet).1)
  {
    var e := HandleKeyStep(m.keys, packet).1;
    assert e.Some? ==> e.value.Press? || e.value.Release?;
    hide KeyOnly, HandleKeyStep;
    if e.Some? {
      KeyOnlySnoc(m.log, e.value);
    } else {
      assert m.log + Events(e) == m.log;
    }
    if cfg.repeatEnabled {
      KeyOnlySnoc(m.log + Events(e), Reset(now));
    }
  }

  lemma KeyOnlyRepeat(cfg: Config, m: Machine, now: Time)
    requires m.Ok()
    ensures KeyOnly(RepeatStage(cfg, m, now).log) == KeyOnly(m.log)
  {
    var e := RepeatStep(cfg, m.keys, now).1;
    if e.Some? {
      KeyOnlySnoc(m.log, e.value);
    }
  }

  /** Two keyStates that agree on the held key handle a packet alike. */
  lemma HandleKeyIgnoresTimer(k: Keys, k': Keys, p: bytes)
    requires UNDEF <= k.lastKey < NUM_KEYS && k.lastKey == k'.lastKey && k.keyDown == k'.keyDown
    ensures var (a, e) := HandleKeyStep(k, p); var (a', e') := HandleKeyStep(k', p);
            e == e' && a.lastKey == a'.lastKey && a.keyDown == a'.keyDown
  {
  }

  /** The thread was not faulted before the last iteration. */
  predicate FaultsAtMostLast(cfg: Config, m: Machine, iters: seq<Iter>)
    requires m.Ok()
  {
    iters != [] ==> !Run(cfg, m, iters[..|iters| - 1]).faulted
  }

  /** Whatever the timing, presses and releases are those of the fold over the dequeued packets. */
  lemma {:induction false} TimingDoesNotChangeKeys(cfg: Config, start: Time, iters: seq<Iter>)
    requires FaultsAtMostLast(cfg, Start(cfg, start), iters)
    ensures var m := Run(cfg, Start(cfg, start), iters);
            var (k, log) := Fold(Packets(iters));
            KeyOnly(m.log) == log && m.keys.lastKey == k.lastKey && m.keys.keyDown == k.keyDown
  {
    if iters == [] {
      KeyOnlySnoc([], Reset(start));
      assert [] + [Reset(start)] == [Reset(start)];
    } else {
      var before, it := iters[..|iters| - 1], iters[|iters| - 1];
      if before != [] {
        NotFaultedBefore(cfg, Start(cfg, start), before);
      }
      TimingDoesNotChangeKeys(cfg, start, before);
      var m := Run(cfg, Start(cfg, start), before);
      if it.packet.Some? {
        var p := it.packet.value;
        FoldSnoc(Packets(before), p);
        HandleKeyIgnoresTimer(m.keys, Fold(Packets(before)).0, p);
        KeyOnlyDequeued(cfg, m, p, it.reset);
        KeyOnlyRepeat(cfg, Dequeued(cfg, m, p, it.reset), it.update);
      } else {
        assert Packets(iters) == Packets(before);
        KeyOnlyRepeat(cfg, m, it.update);
      }
    }
  }

  /** More packets only add events. */
  lemma {:induction false} FoldPrefix(packets: seq<bytes>, n: nat)
    requires n <= |packets|
    ensures IsPrefix(Fold(packets[..n]).1, Fold(packets).1)
    decreases |packets|
  {
    if n == |packets| {
      assert packets[..n] == packets;
    } else {
      var last := |packets| - 1;
      assert packets[..last][..n] == packets[..n];
      FoldPrefix(packets[..last], n);
    }
  }
}
