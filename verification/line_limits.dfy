/**
 * Exactly when every line that the LIRC thread prints fits the buffer of broadcastToLirc, and exactly when
 * a release line tells a client which key it is about.
 */
module LineLimits {
  import opened Prelude
  import opened KeyDef
  import opened KeyNames
  import opened LircUtil
  import opened LircLine
  import opened LircThr

  /** The lines of an event, with their terminators, fit the buffer. */
  ghost predicate LinesFit(cfg: Config, e: KeyEvent) {
    forall line :: Broadcast(line) in Render(cfg, e) ==> |line| + 1 <= MSG_SIZE
  }

  /** The release name of a key is short enough for the buffer, or too long to be sent at all. */
  predicate SuffixFitsKey(cfg: Config, key: KeyIndex) {
    cfg.release.Some? ==>
      var n := |NameOf(cfg, key)| + |cfg.release.value|;
      n <= 77 || n >= 100
  }

  ghost predicate SuffixFits(cfg: Config) {
    forall key: KeyIndex :: SuffixFitsKey(cfg, key)
  }

  /** The guard on the release name keeps the line inside the buffer exactly for these names. */
  lemma ReleaseLineFitsIff(cfg: Config, key: KeyIndex)
    ensures LinesFit(cfg, Release(key)) <==> SuffixFitsKey(cfg, key)
  {
    hide Line, KeyAt;
    if cfg.release.Some? && |NameOf(cfg, key)| + |cfg.release.value| < 100 {
      var name := NameOf(cfg, key) + cfg.release.value;
      ReleaseNameFitsIff(name);
      assert Render(cfg, Release(key))[0] == Broadcast(Line(KEYUP, 0, name));
    }
  }

  /** Lines of presses, and of repeats numbered with an int, always fit. */
  lemma OtherLinesFit(cfg: Config, e: KeyEvent)
    requires !e.Release? && (e.Repeat? ==> e.number < 0x8000_0000)
    ensures LinesFit(cfg, e)
  {
    hide Line, KeyAt;
    match e {
      case Press(key) => KeyLinesFit(KeyAt(key).code, 0, NameOf(cfg, key));
      case Repeat(key, number, _) => KeyLinesFit(KeyAt(key).code, number, NameOf(cfg, key));
      case Reset(_) =>
    }
  }

  /** All the lines of a log fit, as far as repeats are numbered with an int. */
  ghost predicate LogFits(cfg: Config, log: seq<KeyEvent>) {
    forall e :: e in log && (e.Repeat? ==> e.number < 0x8000_0000) ==> LinesFit(cfg, e)
  }

  ghost predicate RunsFit(cfg: Config) {
    forall start, iters :: ClockOk(start, iters) ==> LogFits(cfg, Run(cfg, Start(cfg, start), iters).log)
  }

  function PressOf(key: KeyIndex): bytes {
    [0xa1, 0, 0, 0, 0, KeyAt(key).code, 0, 0, 0, 0, 0, 1, 0]
  }

  const RELEASE: bytes := [0xa1, 0, 0, 0, 0, 0xff, 0, 0, 0, 0, 0, 0, 0]

  const T0 := TimeVal(0, 0)

  function PressAndRelease(key: KeyIndex): seq<Iter> {
    [Iter(Some(PressOf(key)), T0, T0), Iter(Some(RELEASE), T0, T0)]
  }

  /** Every key can be pressed and released. */
  lemma ReleaseHappens(cfg: Config, key: KeyIndex)
    ensures ClockOk(T0, PressAndRelease(key))
    ensures Release(key) in Run(cfg, Start(cfg, T0), PressAndRelease(key)).log
  {
    var press, release := Iter(Some(PressOf(key)), T0, T0), Iter(Some(RELEASE), T0, T0);
    CodeFindsItsKey(key);
    assert PressAndRelease(key) == ([] + [press]) + [release];
    RunSnoc(cfg, Start(cfg, T0), T0, [], press);
    RunSnoc(cfg, Start(cfg, T0), T0, [] + [press], release);
    assert Run(cfg, Start(cfg, T0), []) == Start(cfg, T0);
    hide Run, ClockOk, CodeIndex, KeyAt;
    AfterPress(cfg, Start(cfg, T0), key);
    AfterRelease(cfg, Iterate(cfg, Start(cfg, T0), press), key);
  }

  lemma AfterPress(cfg: Config, m: Machine, key: KeyIndex)
    requires m.Ok() && !m.faulted && CodeIndex(KeyAt(key).code) == key && !m.keys.doneWaiting && m.keys.elapsed == 0
    requires m.keys.cl0 == T0
    ensures var m' := Iterate(cfg, m, Iter(Some(PressOf(key)), T0, T0));
            !m'.faulted && m'.keys.lastKey == key
  {
    hide CodeIndex, KeyAt;
  }

  lemma AfterRelease(cfg: Config, m: Machine, key: KeyIndex)
    requires m.Ok() && !m.faulted && m.keys.lastKey == key
    ensures Release(key) in Iterate(cfg, m, Iter(Some(RELEASE), T0, T0)).log
  {
    var e := HandleKeyStep(m.keys, RELEASE).1;
    assert e == Some(Release(key));
    var n := Dequeued(cfg, m, RELEASE, T0);
    assert n.log[|m.log|] == Release(key);
    assert RepeatStage(cfg, n, T0).log[|m.log|] == Release(key);
  }

  /** No run overruns the buffer exactly when the release suffix fits every key of the table. */
  lemma AllLinesFitIff(cfg: Config)
    ensures RunsFit(cfg) <==> SuffixFits(cfg)
  {
    hide LinesFit, SuffixFitsKey, ClockOk, Run;
    if SuffixFits(cfg) {
      forall start, iters | ClockOk(start, iters)
        ensures LogFits(cfg, Run(cfg, Start(cfg, start), iters).log)
      {
        forall e | e in Run(cfg, Start(cfg, start), iters).log && (e.Repeat? ==> e.number < 0x8000_0000)
          ensures LinesFit(cfg, e)
        {
          if e.Release? {
            ReleaseLineFitsIff(cfg, e.key);
          } else {
            OtherLinesFit(cfg, e);
          }
        }
      }
    } else {
      var key: KeyIndex :| !SuffixFitsKey(cfg, key);
      ReleaseHappens(cfg, key);
      ReleaseLineFitsIff(cfg, key);
      assert !LogFits(cfg, Run(cfg, Start(cfg, T0), PressAndRelease(key)).log);
    }
  }

  // ---- Which key a release line is about --------------------------------------------------------------

  /** The releases of different keys never have the same line. */
  ghost predicate ReleasesTellKeys(cfg: Config) {
    forall j: KeyIndex, k: KeyIndex, line ::
      Broadcast(line) in Render(cfg, Release(j)) && Broadcast(line) in Render(cfg, Release(k)) ==> j == k
  }

  /** Lines with different names differ. */
  lemma SameLineSameName(a: string, b: string)
    requires Line(KEYUP, 0, a) == Line(KEYUP, 0, b)
    ensures a == b
  {
    var front, back := Padded(KEYUP, 16, 4) + " " + Padded(0, 10, 2) + " ", " " + REMOTE + "\n";
    assert Line(KEYUP, 0, a) == front + a + back && Line(KEYUP, 0, b) == front + b + back;
    assert |a| == |b|;
    assert (front + a + back)[|front|..|front| + |a|] == a;
    assert (front + b + back)[|front|..|front| + |b|] == b;
  }

  lemma SameSuffixSameName(a: string, b: string, suffix: string)
    requires a + suffix == b + suffix
    ensures a == b
  {
    assert |a| == |b| && (a + suffix)[..|a|] == a && (b + suffix)[..|b|] == b;
  }

  /** The line of a release, if it is sent. */
  lemma ReleaseLine(cfg: Config, key: KeyIndex, line: string)
    ensures Broadcast(line) in Render(cfg, Release(key)) <==>
              && cfg.release.Some? && |NameOf(cfg, key)| + |cfg.release.value| < 100
              && line == Line(KEYUP, 0, NameOf(cfg, key) + cfg.release.value)
  {
    hide Line, KeyAt;
    if cfg.release.Some? && |NameOf(cfg, key)| + |cfg.release.value| < 100 {
      assert Render(cfg, Release(key))[0] == Broadcast(Line(KEYUP, 0, NameOf(cfg, key) + cfg.release.value));
    }
  }

  /** A line that two releases share: their keys have the same name. */
  lemma SharedLine(cfg: Config, j: KeyIndex, k: KeyIndex, line: string)
    requires Broadcast(line) in Render(cfg, Release(j)) && Broadcast(line) in Render(cfg, Release(k))
    ensures cfg.release.Some? && |NameOf(cfg, j)| + |cfg.release.value| < 100 && NameOf(cfg, j) == NameOf(cfg, k)
  {
    hide Line, KeyAt, NameOf, Render;
    ReleaseLine(cfg, j, line);
    ReleaseLine(cfg, k, line);
    SameLineSameName(NameOf(cfg, j) + cfg.release.value, NameOf(cfg, k) + cfg.release.value);
    SameSuffixSameName(NameOf(cfg, j), NameOf(cfg, k), cfg.release.value);
  }

  /**
   * A release line tells its key for every key of the table exactly with the original names, or where no
   * release of `cross` or `clear` is sent: with the LIRC names both are KEY_CLEAR.
   */
  lemma ReleasesTellKeysIff(cfg: Config)
    ensures ReleasesTellKeys(cfg) <==>
              !cfg.lircNamespace || cfg.release.None? || |"KEY_CLEAR"| + |cfg.release.value| >= 100
  {
    hide Line, Render;
    ClearTwice();
    if cfg.lircNamespace && cfg.release.Some? && |"KEY_CLEAR"| + |cfg.release.value| < 100 {
      var line := Line(KEYUP, 0, "KEY_CLEAR" + cfg.release.value);
      ReleaseLine(cfg, CROSS, line);
      ReleaseLine(cfg, CLEAR, line);
    } else {
      forall j: KeyIndex, k: KeyIndex, line |
        Broadcast(line) in Render(cfg, Release(j)) && Broadcast(line) in Render(cfg, Release(k))
        ensures j == k
      {
        SharedLine(cfg, j, k, line);
        NamesTellKeys(j, k);
      }
    }
  }
}
