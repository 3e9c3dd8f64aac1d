/**
 * The client connections under both threads at once: the main thread accepts clients and shuts down
 * (add_client and lirc_server of src/lirc_srv.c), the LIRC thread broadcasts lines and drops clients
 * (broadcastToLirc of src/lirc_thr.c, write_socket of src/lirc_util.c, remove_client).
 *
 * Steps of the two threads interleave freely, except that the data mutex covers the append, the
 * broadcast loop and the closing loop. The capacity test of add_client and the assertion of
 * broadcastToLirc read the table size without it. A descriptor number may be reused as soon as it is
 * closed, so every connection is also a session of its own, with the bytes its peer received.
 */
module Sessions {
  import opened Prelude
  import opened LircSrv

  /**
   * One accepted connection. `stream` is what the peer received. The rest says where it comes from:
   * `born` is the number of broadcasts begun before it was added, `whole` the number of complete lines
   * received, and `part` the bytes of the line that follows them.
   */
  datatype Session = Session(stream: string, born: Option<nat>, whole: nat, part: nat, closed: bool)

  /** Where the main thread is. */
  datatype Acceptor =
    | Listening
    | Checking(fd: int)    // accept returned fd
    | Passed(fd: int)      // there was room
    | Appending(fd: int)   // holds the mutex
    | Stopping             // saw __io_canceled
    | Closing(next: nat)   // holds the mutex, closing the clients
    | Finished

  /** Where the LIRC thread is. */
  datatype Lirc =
    | Quiet
    | Waiting(line: string)                         // past the assertion, at the mutex
    | Writing(line: string, i: nat, sent: nat)      // holds the mutex; sent bytes of the line are with client i
    | Removing(line: string, i: nat, at: nat)       // holds the mutex; entry at is closed, not yet moved out

  datatype State = State(
    table: seq<int>,
    open: map<int, nat>,       // the kernel: open descriptors and the sessions behind them
    sessions: seq<Session>,
    closed: seq<nat>,          // the sessions closed so far, in order
    lines: seq<string>,        // the broadcasts begun so far, in order
    acceptor: Acceptor,
    lirc: Lirc,
    aborted: bool)             // an assertion failed

  datatype Action =
    | Accept(fd: int)
    | Check
    | LockTable
    | Append
    | Stop
    | LockStop
    | CloseNext
    | Finish
    | Broadcast(line: string)
    | LockLirc
    | Write(done: int)
    | Compact
    | Unlock

  const INIT := State([], map[], [], [], [], Listening, Quiet, false)

  predicate MainHolds(s: State) { s.acceptor.Appending? || s.acceptor.Closing? }
  predicate LircHolds(s: State) { s.lirc.Writing? || s.lirc.Removing? }

  predicate Enabled(s: State, a: Action) {
    !s.aborted &&
    match a
    case Accept(fd) => s.acceptor.Listening? && fd >= -1 && fd !in s.open
    case Check => s.acceptor.Checking?
    case LockTable => s.acceptor.Passed? && !LircHolds(s)
    case Append => s.acceptor.Appending?
    case Stop => s.acceptor.Listening?
    case LockStop => s.acceptor.Stopping? && !LircHolds(s)
    case CloseNext => s.acceptor.Closing? && s.acceptor.next < |s.table|
    case Finish => s.acceptor.Closing? && s.acceptor.next >= |s.table|
    case Broadcast(line) => s.lirc.Quiet? && line != ""
    case LockLirc => s.lirc.Waiting? && !MainHolds(s)
    case Write(done) =>
      && s.lirc.Writing? && s.lirc.i < |s.table| && s.lirc.sent < |s.lirc.line|
      && done <= |s.lirc.line| - s.lirc.sent
      && (s.table[s.lirc.i] !in s.open ==> done <= 0)
      && (s.table[s.lirc.i] in s.open ==> s.open[s.table[s.lirc.i]] < |s.sessions|)
    case Compact => s.lirc.Removing? && s.lirc.at < |s.table|
    case Unlock => s.lirc.Writing? && s.lirc.i >= |s.table|
  }

  /** shutdown and close of fd. */
  function Close(s: State, fd: int): State {
    if fd in s.open && s.open[fd] < |s.sessions| then
      var x := s.open[fd];
      s.(open := s.open - {fd}, closed := s.closed + [x], sessions := s.sessions[x := s.sessions[x].(closed := true)])
    else s
  }

  /** The kernel took n more bytes of the line for the session behind client i. */
  function Deliver(s: State, n: nat): State
    requires s.lirc.Writing? && s.lirc.i < |s.table| && s.table[s.lirc.i] in s.open
    requires s.open[s.table[s.lirc.i]] < |s.sessions| && s.lirc.sent + n <= |s.lirc.line|
  {
    var Writing(line, i, sent) := s.lirc;
    var x := s.open[s.table[i]];
    var c := s.sessions[x];
    var stream := c.stream + line[sent..sent + n];
    if sent + n == |line| then
      s.(sessions := s.sessions[x := c.(stream := stream, whole := c.whole + 1, part := 0)],
         lirc := Writing(line, i + 1, 0))
    else
      s.(sessions := s.sessions[x := c.(stream := stream, part := sent + n)],
         lirc := Writing(line, i, sent + n))
  }

  function Step(s: State, a: Action): State
    requires Enabled(s, a)
  {
    match a
    case Accept(fd) =>
      if fd < 0 then s.(acceptor := Checking(fd))
      else s.(acceptor := Checking(fd), open := s.open[fd := |s.sessions|],
              sessions := s.sessions + [Session("", None, 0, 0, false)])
    case Check =>
      var fd := s.acceptor.fd;
      if fd >= FD_SETSIZE || |s.table| >= MAX_CLIENTS then Close(s, fd).(acceptor := Listening)
      else s.(acceptor := Passed(fd))
    case LockTable => s.(acceptor := Appending(s.acceptor.fd))
    case Append =>
      var fd := s.acceptor.fd;
      var s' := s.(table := s.table + [fd], acceptor := Listening);
      if fd in s.open && s.open[fd] < |s.sessions| then
        var x := s.open[fd];
        s'.(sessions := s.sessions[x := s.sessions[x].(born := Some(|s.lines|))])
      else s'
    case Stop => s.(acceptor := Stopping)
    case LockStop => s.(acceptor := Closing(0))
    case CloseNext => Close(s, s.table[s.acceptor.next]).(acceptor := Closing(s.acceptor.next + 1))
    case Finish => s.(table := [], acceptor := Finished)
    case Broadcast(line) =>
      if |s.table| < MAX_CLIENTS then s.(lirc := Waiting(line)) else s.(aborted := true)
    case LockLirc => s.(lirc := Writing(s.lirc.line, 0, 0), lines := s.lines + [s.lirc.line])
    case Write(done) =>
      var fd := s.table[s.lirc.i];
      if done <= 0 then Close(s, fd).(lirc := Removing(s.lirc.line, s.lirc.i, IndexOf(s.table, fd)))
      else Deliver(s, done)
    case Compact => s.(table := RemoveAt(s.table, s.lirc.at), lirc := Writing(s.lirc.line, s.lirc.i, 0))
    case Unlock => s.(lirc := Quiet)
  }

  ghost predicate IsRun(s: State, run: seq<Action>)
    decreases |run|
  {
    run == [] || (Enabled(s, run[0]) && IsRun(Step(s, run[0]), run[1..]))
  }

  ghost function Exec(s: State, run: seq<Action>): State
    requires IsRun(s, run)
    decreases |run|
  {
    if run == [] then s else Exec(Step(s, run[0]), run[1..])
  }

  // ---- The table and its bounds -----------------------------------------------------------------

  ghost predicate Bounded(s: State) {
    && |s.table| <= MAX_CLIENTS
    && (s.acceptor.Passed? || s.acceptor.Appending? ==> |s.table| < MAX_CLIENTS)
    && !(MainHolds(s) && LircHolds(s))
    && (s.lirc.Writing? ==> s.lirc.i <= |s.table| && s.lirc.sent < |s.lirc.line|)
    && (s.lirc.Removing? ==> s.lirc.at == s.lirc.i < |s.table| && s.lirc.line != "")
    && (s.lirc.Waiting? ==> s.lirc.line != "")
    && (LircHolds(s) ==> s.lines != [] && s.lines[|s.lines| - 1] == s.lirc.line)
    && (s.acceptor.Closing? ==> s.acceptor.next <= |s.table|)
    && (s.acceptor.Finished? ==> s.table == [])
    && (s.aborted ==> |s.table| == MAX_CLIENTS)
    && (forall k :: 0 <= k < |s.lines| ==> s.lines[k] != "")
  }

  // ---- Descriptors --------------------------------------------------------------------------------

  /** Entry k is an open client: not a failed accept, and not closed while waiting to be moved out. */
  predicate Live(s: State, k: nat) {
    && k < |s.table| && s.table[k] >= 0
    && (s.lirc.Removing? ==> k != s.lirc.at)
    && (s.acceptor.Closing? ==> k >= s.acceptor.next)
  }

  /** The descriptor that the main thread has accepted and not yet stored or rejected. */
  function InHand(s: State): set<int> {
    match s.acceptor
    case Checking(fd) => if fd >= 0 then {fd} else {}
    case Passed(fd) => if fd >= 0 then {fd} else {}
    case Appending(fd) => if fd >= 0 then {fd} else {}
    case _ => {}
  }

  ghost predicate Descriptors(s: State) {
    && (forall k: nat :: Live(s, k) ==> s.table[k] in s.open && s.table[k] !in InHand(s))
    && (forall j: nat, k: nat :: Live(s, j) && Live(s, k) && j != k ==> s.table[j] != s.table[k])
    && (forall fd :: fd in InHand(s) ==> fd in s.open)
    && (forall fd :: fd in s.open ==> fd >= 0 && (fd in InHand(s) || exists k: nat :: Live(s, k) && s.table[k] == fd))
    && (LircHolds(s) ==> forall k :: 0 <= k < s.lirc.i && k < |s.table| ==> s.table[k] >= 0)
  }

  ghost predicate Conserved(s: State) {
    && (forall fd :: fd in s.open ==> s.open[fd] < |s.sessions| && !s.sessions[s.open[fd]].closed)
    && (forall fd, fd' :: fd in s.open && fd' in s.open && fd != fd' ==> s.open[fd] != s.open[fd'])
    && (forall x :: 0 <= x < |s.sessions| && !s.sessions[x].closed ==> exists fd :: fd in s.open && s.open[fd] == x)
    && (forall i :: 0 <= i < |s.closed| ==> s.closed[i] < |s.sessions| && s.sessions[s.closed[i]].closed)
    && (forall i, j :: 0 <= i < j < |s.closed| ==> s.closed[i] != s.closed[j])
    && (forall x :: 0 <= x < |s.sessions| && s.sessions[x].closed ==> x in s.closed)
  }

  // ---- Streams ------------------------------------------------------------------------------------

  /** What the session received: its whole lines, in broadcast order from its birth, and part of the next. */
  ghost predicate StreamOk(lines: seq<string>, c: Session) {
    if c.born.None? then c.stream == "" && c.whole == 0 && c.part == 0
    else
      var b, e := c.born.value, c.born.value + c.whole;
      && e <= |lines|
      && (c.part > 0 ==> e < |lines| && c.part < |lines[e]|)
      && c.stream == Concat(lines[b..e]) + (if c.part > 0 then lines[e][..c.part] else "")
  }

  /** Client k has received everything broadcast since its birth, up to its turn in the broadcast under way. */
  ghost predicate UpToDate(s: State, k: nat, c: Session) {
    && c.born.Some?
    && var e := c.born.value + c.whole;
       if LircHolds(s) && k >= s.lirc.i
       then e + 1 == |s.lines| && c.part == (if s.lirc.Writing? && k == s.lirc.i then s.lirc.sent else 0)
       else e == |s.lines| && c.part == 0
  }

  ghost predicate Streams(s: State) {
    && (forall x :: 0 <= x < |s.sessions| ==> StreamOk(s.lines, s.sessions[x]))
    && (forall k: nat :: Live(s, k) && s.table[k] in s.open && s.open[s.table[k]] < |s.sessions| ==>
          UpToDate(s, k, s.sessions[s.open[s.table[k]]]))
    && (forall fd :: fd in InHand(s) && fd in s.open && s.open[fd] < |s.sessions| ==> s.sessions[s.open[fd]].born.None?)
  }

  ghost predicate Inv(s: State) {
    Bounded(s) && Descriptors(s) && Conserved(s) && Streams(s)
  }

  lemma InitInv()
    ensures Inv(INIT)
  {
  }

  /** Searching for the descriptor of the current client finds the current entry. */
  lemma SearchFindsCurrent(s: State)
    requires Bounded(s) && Descriptors(s) && s.lirc.Writing? && s.lirc.i < |s.table|
    ensures IndexOf(s.table, s.table[s.lirc.i]) == s.lirc.i
  {
    var i := s.lirc.i;
    forall k | 0 <= k < i
      ensures s.table[k] != s.table[i]
    {
      if s.table[i] >= 0 {
        assert Live(s, k) && Live(s, i);
      }
    }
    FirstAt(s.table, s.table[i], i);
  }

  lemma BoundedKept(s: State, a: Action)
    requires Bounded(s) && Descriptors(s) && Enabled(s, a)
    ensures Bounded(Step(s, a))
  {
    if a.Write? {
      SearchFindsCurrent(s);
    }
  }

  // ---- Conservation of sessions -------------------------------------------------------------------

  lemma CloseConserved(s: State, fd: int)
    requires Conserved(s)
    ensures Conserved(Close(s, fd))
  {
    var s' := Close(s, fd);
    if fd in s.open {
      var x := s.open[fd];
      assert s'.closed[|s.closed|] == x;
      forall y | 0 <= y < |s'.sessions| && !s'.sessions[y].closed
        ensures exists d :: d in s'.open && s'.open[d] == y
      {
        var d :| d in s.open && s.open[d] == y;
        assert d in s'.open && s'.open[d] == y;
      }
      forall y | 0 <= y < |s'.sessions| && s'.sessions[y].closed
        ensures y in s'.closed
      {
        if y != x {
          assert y in s.closed;
        }
      }
    }
  }

  lemma SameFlagsConserved(s: State, s': State)
    requires Conserved(s) && s'.open == s.open && s'.closed == s.closed && |s'.sessions| == |s.sessions|
    requires forall x :: 0 <= x < |s.sessions| ==> s'.sessions[x].closed == s.sessions[x].closed
    ensures Conserved(s')
  {
    forall y | 0 <= y < |s'.sessions| && !s'.sessions[y].closed
      ensures exists d :: d in s'.open && s'.open[d] == y
    {
      var d :| d in s.open && s.open[d] == y;
      assert d in s'.open && s'.open[d] == y;
    }
  }

  lemma AcceptConserved(s: State, fd: int)
    requires Conserved(s) && Enabled(s, Accept(fd))
    ensures Conserved(Step(s, Accept(fd)))
  {
    if fd >= 0 {
      var s' := Step(s, Accept(fd));
      forall y | 0 <= y < |s'.sessions| && !s'.sessions[y].closed
        ensures exists d :: d in s'.open && s'.open[d] == y
      {
        if y == |s.sessions| {
          assert s'.open[fd] == y;
        } else {
          var d :| d in s.open && s.open[d] == y;
          assert d in s'.open && s'.open[d] == y;
        }
      }
    } else {
      SameFlagsConserved(s, Step(s, Accept(fd)));
    }
  }

  lemma ConservedKept(s: State, a: Action)
    requires Conserved(s) && Enabled(s, a)
    ensures Conserved(Step(s, a))
  {
    var s' := Step(s, a);
    match a {
      case Accept(fd) => AcceptConserved(s, fd);
      case Check =>
        CloseConserved(s, s.acceptor.fd);
        var mid := if s'.acceptor.Listening? then Close(s, s.acceptor.fd) else s;
        SameFlagsConserved(mid, s');
      case CloseNext =>
        CloseConserved(s, s.table[s.acceptor.next]);
        SameFlagsConserved(Close(s, s.table[s.acceptor.next]), s');
      case Write(done) =>
        CloseConserved(s, s.table[s.lirc.i]);
        SameFlagsConserved(if done <= 0 then Close(s, s.table[s.lirc.i]) else s, s');
      case _ => SameFlagsConserved(s, s');
    }
  }

  // ---- Descriptors are where the table says -------------------------------------------------------

  /** A step that closes nothing, and keeps table, live entries and the descriptor in hand. */
  lemma SamePlaces(s: State, s': State)
    requires Descriptors(s) && s'.table == s.table && s'.open == s.open && InHand(s') == InHand(s)
    requires forall k: nat :: Live(s', k) <==> Live(s, k)
    requires LircHolds(s') ==> forall k :: 0 <= k < s'.lirc.i && k < |s.table| ==> s.table[k] >= 0
    ensures Descriptors(s')
  {
    forall fd | fd in s'.open
      ensures fd >= 0 && (fd in InHand(s') || exists k: nat :: Live(s', k) && s'.table[k] == fd)
    {
      if fd !in InHand(s) {
        var k: nat :| Live(s, k) && s.table[k] == fd;
        assert Live(s', k);
      }
    }
  }

  lemma AcceptPlaces(s: State, fd: int)
    requires Descriptors(s) && Enabled(s, Accept(fd))
    ensures Descriptors(Step(s, Accept(fd)))
  {
    var s' := Step(s, Accept(fd));
    assert forall k: nat :: Live(s', k) <==> Live(s, k);
    forall d | d in s'.open
      ensures d >= 0 && (d in InHand(s') || exists k: nat :: Live(s', k) && s'.table[k] == d)
    {
      if d != fd {
        var k: nat :| Live(s, k) && s.table[k] == d;
        assert Live(s', k);
      }
    }
  }

  lemma RejectPlaces(s: State)
    requires Bounded(s) && Descriptors(s) && Conserved(s) && Enabled(s, Check)
    ensures Descriptors(Step(s, Check))
  {
    var s' := Step(s, Check);
    assert forall k: nat :: Live(s', k) <==> Live(s, k);
    hide Bounded, Conserved, MainHolds;
    if s'.acceptor.Listening? {
      forall d | d in s'.open
        ensures d >= 0 && exists k: nat :: Live(s', k) && s'.table[k] == d
      {
        assert d !in InHand(s);
        var k: nat :| Live(s, k) && s.table[k] == d;
        assert Live(s', k);
      }
    } else {
      SamePlaces(s, s');
    }
  }

  lemma AppendLive(s: State, k: nat)
    requires Bounded(s) && Enabled(s, Append)
    ensures var s' := Step(s, Append);
            && |s'.table| == |s.table| + 1
            && (k < |s.table| ==> s'.table[k] == s.table[k] && (Live(s', k) <==> Live(s, k)))
            && s'.table[|s.table|] == s.acceptor.fd
            && (Live(s', |s.table|) <==> s.acceptor.fd >= 0)
            && s'.open == s.open && s'.lirc == s.lirc && InHand(s') == {}
            && InHand(s) == if s.acceptor.fd >= 0 then {s.acceptor.fd} else {}
  {
  }

  lemma AppendPlaces(s: State)
    requires Bounded(s) && Descriptors(s) && Enabled(s, Append)
    ensures Descriptors(Step(s, Append))
  {
    var s' := Step(s, Append);
    var n := |s.table|;
    forall k: nat
      ensures Live(s', k) <==> if k < n then Live(s, k) else k == n && s.acceptor.fd >= 0
    {
      AppendLive(s, k);
    }
    AppendLive(s, n);
    assert !LircHolds(s);
    forall k: nat | k < n
      ensures s'.table[k] == s.table[k]
    {
      AppendLive(s, k);
    }
    hide Live, InHand, Step, Enabled, LircHolds, Bounded;
    forall d | d in s'.open
      ensures d >= 0 && exists k: nat :: Live(s', k) && s'.table[k] == d
    {
      if d in InHand(s) {
        assert Live(s', n) && s'.table[n] == d;
      } else {
        var k: nat :| Live(s, k) && s.table[k] == d;
        assert Live(s', k) && s'.table[k] == d;
      }
    }
  }

  /** Closing entry at takes exactly one live entry away, or none if it was a failed accept. */
  lemma ClosePlaces(s: State, at: nat, s': State)
    requires Descriptors(s) && Conserved(s) && at < |s.table|
    requires s.table[at] >= 0 ==> Live(s, at)
    requires s'.table == s.table && s'.open == Close(s, s.table[at]).open && InHand(s') == InHand(s)
    requires forall k: nat :: Live(s', k) <==> Live(s, k) && k != at
    requires LircHolds(s') ==> forall k :: 0 <= k < s'.lirc.i && k < |s.table| ==> s.table[k] >= 0
    ensures Descriptors(s')
  {
    forall k: nat | Live(s', k)
      ensures s'.table[k] in s'.open
    {
      assert Live(s, k);
    }
    forall d | d in s'.open
      ensures d >= 0 && (d in InHand(s') || exists k: nat :: Live(s', k) && s'.table[k] == d)
    {
      if d !in InHand(s) {
        var k: nat :| Live(s, k) && s.table[k] == d;
        assert Live(s', k);
      }
    }
  }

  function Before(at: nat, k: nat): nat { if k < at then k else k + 1 }

  lemma CompactLive(s: State, k: nat)
    requires Bounded(s) && Enabled(s, Compact)
    ensures var s' := Step(s, Compact);
            && |s'.table| == |s.table| - 1
            && (k < |s'.table| ==> s'.table[k] == s.table[Before(s.lirc.at, k)])
            && (Live(s', k) <==> Live(s, Before(s.lirc.at, k)))
            && s'.open == s.open && InHand(s') == InHand(s)
  {
  }

  lemma CompactPlaces(s: State)
    requires Bounded(s) && Descriptors(s) && Enabled(s, Compact)
    ensures Descriptors(Step(s, Compact))
  {
    var s' := Step(s, Compact);
    var at := s.lirc.at;
    CompactLive(s, 0);
    assert !Live(s, at) && forall k: nat :: Live(s', k) ==> k < |s'.table|;
    assert forall k: nat :: k < at ==> s.table[k] >= 0;
    assert LircHolds(s') && s'.lirc.i == at;
    forall k: nat
      ensures Live(s', k) <==> Live(s, Before(at, k))
      ensures k < |s'.table| ==> s'.table[k] == s.table[Before(at, k)]
    {
      CompactLive(s, k);
    }
    hide Live, InHand, Step, Enabled, Bounded, LircHolds;
    forall k: nat | Live(s', k)
      ensures s'.table[k] in s'.open && s'.table[k] !in InHand(s')
    {
      assert Live(s, Before(at, k));
    }
    forall j: nat, k: nat | Live(s', j) && Live(s', k) && j != k
      ensures s'.table[j] != s'.table[k]
    {
      assert Live(s, Before(at, j)) && Live(s, Before(at, k)) && Before(at, j) != Before(at, k);
    }
    forall k | 0 <= k < at && k < |s'.table|
      ensures s'.table[k] >= 0
    {
      assert Before(at, k) == k;
    }
    forall d | d in s'.open
      ensures d >= 0 && (d in InHand(s') || exists k: nat :: Live(s', k) && s'.table[k] == d)
    {
      if d !in InHand(s) {
        var k: nat :| Live(s, k) && s.table[k] == d;
        var k' := if k < at then k else k - 1;
        assert Before(at, k') == k;
        assert Live(s', k');
      }
    }
  }

  lemma FinishPlaces(s: State)
    requires Bounded(s) && Descriptors(s) && Enabled(s, Finish)
    ensures Descriptors(Step(s, Finish)) && Step(s, Finish).open == map[]
  {
    assert forall k: nat :: !Live(s, k);
    assert forall fd :: fd !in s.open;
  }

  lemma WritePlaces(s: State, done: int)
    requires Bounded(s) && Descriptors(s) && Conserved(s) && Enabled(s, Write(done))
    ensures Descriptors(Step(s, Write(done)))
  {
    var s' := Step(s, Write(done));
    hide Bounded, Conserved;
    if done <= 0 {
      SearchFindsCurrent(s);
      ClosePlaces(s, s.lirc.i, s');
    } else {
      SamePlaces(s, s');
    }
  }

  lemma CloseNextPlaces(s: State)
    requires Bounded(s) && Descriptors(s) && Conserved(s) && Enabled(s, CloseNext)
    ensures Descriptors(Step(s, CloseNext))
  {
    ClosePlaces(s, s.acceptor.next, Step(s, CloseNext));
  }

  /** The steps that only move a thread along. */
  lemma QuietPlaces(s: State, a: Action)
    requires Bounded(s) && Descriptors(s) && Enabled(s, a)
    requires a.LockTable? || a.Stop? || a.LockStop? || a.Broadcast? || a.LockLirc? || a.Unlock?
    ensures Descriptors(Step(s, a))
  {
    var s' := Step(s, a);
    assert s'.table == s.table && s'.open == s.open && InHand(s') == InHand(s);
    assert forall k: nat :: Live(s', k) <==> Live(s, k);
    hide Descriptors;
    SamePlaces(s, s');
  }

  lemma DescriptorsKept(s: State, a: Action)
    requires Bounded(s) && Descriptors(s) && Conserved(s) && Enabled(s, a)
    ensures Descriptors(Step(s, a))
  {
    hide *;
    match a {
      case Accept(fd) => AcceptPlaces(s, fd);
      case Check => RejectPlaces(s);
      case Append => AppendPlaces(s);
      case CloseNext => CloseNextPlaces(s);
      case Finish => FinishPlaces(s);
      case Write(done) => WritePlaces(s, done);
      case Compact => CompactPlaces(s);
      case _ => QuietPlaces(s, a);
    }
  }

  // ---- Streams are made of whole lines --------------------------------------------------------------

  lemma StreamBorn(lines: seq<string>, c: Session)
    requires StreamOk(lines, c) && c.born.None?
    ensures StreamOk(lines, c.(born := Some(|lines|)))
  {
    assert lines[|lines|..|lines|] == [];
  }

  lemma StreamLonger(lines: seq<string>, line: string, c: Session)
    requires StreamOk(lines, c)
    ensures StreamOk(lines + [line], c)
  {
    if c.born.Some? {
      var b, e := c.born.value, c.born.value + c.whole;
      assert (lines + [line])[b..e] == lines[b..e];
    }
  }

  /** The next bytes of the line under way: either the line is now whole, or more of it is there. */
  lemma StreamDelivered(lines: seq<string>, c: Session, n: nat)
    requires StreamOk(lines, c) && c.born.Some? && c.born.value + c.whole + 1 == |lines|
    requires n > 0 && c.part + n <= |lines[|lines| - 1]|
    ensures var line := lines[|lines| - 1];
            var stream := c.stream + line[c.part..c.part + n];
            StreamOk(lines, if c.part + n == |line| then c.(stream := stream, whole := c.whole + 1, part := 0)
                            else c.(stream := stream, part := c.part + n))
  {
    var line := lines[|lines| - 1];
    var b, e := c.born.value, c.born.value + c.whole;
    assert lines[b..e + 1] == lines[b..e] + [line];
    ConcatSnoc(lines[b..e], line);
    hide Concat;
    var before := Concat(lines[b..e]);
    assert c.stream == before + line[..c.part] by {
      assert line[..0] == "" && before + "" == before;
    }
    assert (before + line[..c.part]) + line[c.part..c.part + n] == before + line[..c.part + n];
    if c.part + n == |line| {
      assert line[..c.part + n] == line;
      assert Concat(lines[b..e + 1]) + "" == before + line;
    }
  }

  /** The session behind live entry k. */
  ghost function Of(s: State, k: nat): nat
    requires Descriptors(s) && Conserved(s) && Live(s, k)
    ensures Of(s, k) < |s.sessions|
  {
    s.open[s.table[k]]
  }

  lemma StreamsAt(s: State, k: nat)
    requires Inv(s) && Live(s, k)
    ensures s.table[k] in s.open && s.open[s.table[k]] < |s.sessions|
    ensures UpToDate(s, k, s.sessions[s.open[s.table[k]]])
  {
  }

  lemma DifferentSessions(s: State, j: nat, k: nat)
    requires Descriptors(s) && Conserved(s) && Live(s, j) && Live(s, k) && j != k
    ensures Of(s, j) != Of(s, k)
  {
    assert s.table[j] != s.table[k];
  }

  lemma AcceptStreams(s: State, fd: int)
    requires Inv(s) && Enabled(s, Accept(fd))
    ensures Streams(Step(s, Accept(fd)))
  {
    var s' := Step(s, Accept(fd));
    forall k: nat | Live(s', k)
      ensures UpToDate(s', k, s'.sessions[s'.open[s'.table[k]]])
    {
      assert Live(s, k);
      StreamsAt(s, k);
    }
  }

  /** Closing a descriptor changes no stream. */
  lemma CloseStreams(s: State, fd: int, s': State)
    requires Inv(s) && s'.open == Close(s, fd).open && s'.sessions == Close(s, fd).sessions
    requires s'.table == s.table && s'.lines == s.lines && InHand(s') <= InHand(s)
    requires forall k: nat :: Live(s', k) ==> Live(s, k)
    requires LircHolds(s') <==> LircHolds(s)
    requires LircHolds(s') ==> s'.lirc.i == s.lirc.i
    requires forall k: nat :: Live(s', k) && s'.lirc.Writing? && k == s'.lirc.i ==> s.lirc == s'.lirc
    requires forall k: nat :: Live(s', k) && s'.lirc.Removing? ==> k != s'.lirc.i
    requires s.lirc.Writing? && s'.lirc.Removing? ==> forall k: nat :: Live(s', k) ==> k != s.lirc.i
    ensures Streams(s')
  {
    forall x | 0 <= x < |s'.sessions|
      ensures StreamOk(s'.lines, s'.sessions[x])
    {
      assert StreamOk(s.lines, s.sessions[x]);
    }
    forall k: nat | Live(s', k) && s'.table[k] in s'.open
      ensures UpToDate(s', k, s'.sessions[s'.open[s'.table[k]]])
    {
      StreamsAt(s, k);
    }
  }

  lemma AppendStreams(s: State)
    requires Inv(s) && Enabled(s, Append)
    ensures Streams(Step(s, Append))
  {
    var s' := Step(s, Append);
    var fd, n := s.acceptor.fd, |s.table|;
    forall x | 0 <= x < |s'.sessions|
      ensures StreamOk(s'.lines, s'.sessions[x])
    {
      assert StreamOk(s.lines, s.sessions[x]);
      if fd in s.open && x == s.open[fd] {
        StreamBorn(s.lines, s.sessions[x]);
      }
    }
    forall k: nat | Live(s', k) && s'.table[k] in s'.open
      ensures UpToDate(s', k, s'.sessions[s'.open[s'.table[k]]])
    {
      if k < n {
        assert Live(s, k);
        StreamsAt(s, k);
        assert s.table[k] != fd;
      }
    }
  }

  lemma LockLircStreams(s: State)
    requires Inv(s) && Enabled(s, LockLirc)
    ensures Streams(Step(s, LockLirc))
  {
    var s' := Step(s, LockLirc);
    forall x | 0 <= x < |s'.sessions|
      ensures StreamOk(s'.lines, s'.sessions[x])
    {
      StreamLonger(s.lines, s.lirc.line, s.sessions[x]);
    }
    forall k: nat | Live(s', k)
      ensures UpToDate(s', k, s'.sessions[s'.open[s'.table[k]]])
    {
      assert Live(s, k);
      StreamsAt(s, k);
    }
  }

  /** A delivery changes the session of the current client, and moves on when the line is out. */
  lemma DeliverState(s: State, n: nat)
    requires Inv(s) && Enabled(s, Write(n)) && n > 0
    ensures Live(s, s.lirc.i)
    ensures var s', line, i, x := Step(s, Write(n)), s.lirc.line, s.lirc.i, Of(s, s.lirc.i);
            var c := s.sessions[x];
            && c.part == s.lirc.sent && s.lines[|s.lines| - 1] == line
            && c.born.Some? && c.born.value + c.whole + 1 == |s.lines| && c.part + n <= |line|
            && s'.sessions == s.sessions[x :=
                 if c.part + n == |line|
                 then c.(stream := c.stream + line[c.part..c.part + n], whole := c.whole + 1, part := 0)
                 else c.(stream := c.stream + line[c.part..c.part + n], part := c.part + n)]
            && s'.lirc == (if c.part + n == |line| then Writing(line, i + 1, 0) else Writing(line, i, c.part + n))
            && s' == s.(sessions := s'.sessions, lirc := s'.lirc)
  {
    assert s.table[s.lirc.i] >= 0;
    StreamsAt(s, s.lirc.i);
  }

  lemma DeliverUpToDate(s: State, n: nat, k: nat)
    requires Inv(s) && Enabled(s, Write(n)) && n > 0 && Live(Step(s, Write(n)), k)
    ensures var s' := Step(s, Write(n));
            && s'.table[k] in s'.open && s'.open[s'.table[k]] < |s'.sessions|
            && UpToDate(s', k, s'.sessions[s'.open[s'.table[k]]])
  {
    DeliverState(s, n);
    var s', i := Step(s, Write(n)), s.lirc.i;
    hide Step, Enabled, Deliver, Bounded, Descriptors, Conserved, Streams;
    assert Live(s, k);
    StreamsAt(s, k);
    if k != i {
      DifferentSessions(s, i, k);
      assert s'.sessions[Of(s, k)] == s.sessions[Of(s, k)];
    }
  }

  lemma DeliverStreams(s: State, n: nat)
    requires Inv(s) && Enabled(s, Write(n)) && n > 0
    ensures Streams(Step(s, Write(n)))
  {
    DeliverState(s, n);
    var s' := Step(s, Write(n));
    var x0 := Of(s, s.lirc.i);
    StreamDelivered(s.lines, s.sessions[x0], n);
    forall k: nat | Live(s', k)
      ensures UpToDate(s', k, s'.sessions[s'.open[s'.table[k]]])
    {
      DeliverUpToDate(s, n, k);
    }
    hide Step, Enabled, StreamOk, Deliver, Bounded, Descriptors, Conserved, UpToDate;
    forall x | 0 <= x < |s'.sessions|
      ensures StreamOk(s'.lines, s'.sessions[x])
    {
      assert x != x0 ==> s'.sessions[x] == s.sessions[x];
    }
  }

  lemma CompactStreams(s: State)
    requires Inv(s) && Enabled(s, Compact)
    ensures Streams(Step(s, Compact))
  {
    var s' := Step(s, Compact);
    forall k: nat | Live(s', k)
      ensures UpToDate(s', k, s'.sessions[s'.open[s'.table[k]]])
    {
      CompactLive(s, k);
      StreamsAt(s, Before(s.lirc.at, k));
    }
  }

  lemma QuietStreams(s: State, a: Action)
    requires Inv(s) && Enabled(s, a)
    requires a.LockTable? || a.Stop? || a.LockStop? || a.Finish? || a.Broadcast? || a.Unlock?
    ensures Streams(Step(s, a))
  {
    var s' := Step(s, a);
    forall k: nat | Live(s', k)
      ensures UpToDate(s', k, s'.sessions[s'.open[s'.table[k]]])
    {
      assert Live(s, k);
      StreamsAt(s, k);
    }
  }

  lemma ClosingStreams(s: State, a: Action)
    requires Inv(s) && Enabled(s, a) && (a.Check? || a.CloseNext? || (a.Write? && a.done <= 0))
    ensures Streams(Step(s, a))
  {
    var s' := Step(s, a);
    match a {
      case Check =>
        if s'.acceptor.Listening? {
          CloseStreams(s, s.acceptor.fd, s');
        } else {
          CloseStreams(s, -1, s');
        }
      case CloseNext => CloseStreams(s, s.table[s.acceptor.next], s');
      case Write(_) =>
        SearchFindsCurrent(s);
        CloseStreams(s, s.table[s.lirc.i], s');
    }
  }

  lemma StreamsKept(s: State, a: Action)
    requires Inv(s) && Enabled(s, a)
    ensures Streams(Step(s, a))
  {
    hide *;
    match a {
      case Accept(fd) => AcceptStreams(s, fd);
      case Check => ClosingStreams(s, a);
      case Append => AppendStreams(s);
      case CloseNext => ClosingStreams(s, a);
      case LockLirc => LockLircStreams(s);
      case Write(done) =>
        if done <= 0 {
          ClosingStreams(s, a);
        } else {
          DeliverStreams(s, done);
        }
      case Compact => CompactStreams(s);
      case _ => QuietStreams(s, a);
    }
  }

  lemma StepInv(s: State, a: Action)
    requires Inv(s) && Enabled(s, a)
    ensures Inv(Step(s, a))
  {
    BoundedKept(s, a);
    DescriptorsKept(s, a);
    ConservedKept(s, a);
    StreamsKept(s, a);
  }

  lemma {:induction false} RunInv(s: State, run: seq<Action>)
    requires Inv(s) && IsRun(s, run)
    ensures Inv(Exec(s, run))
    decreases |run|
  {
    if run != [] {
      StepInv(s, run[0]);
      RunInv(Step(s, run[0]), run[1..]);
    }
  }

  // ---- Main results ---------------------------------------------------------------------------------

  ghost predicate Reachable(s: State) {
    exists run :: IsRun(INIT, run) && Exec(INIT, run) == s
  }

  lemma ReachableInv(s: State)
    requires Reachable(s)
    ensures Inv(s)
  {
    var run :| IsRun(INIT, run) && Exec(INIT, run) == s;
    InitInv();
    RunInv(INIT, run);
  }

  lemma ReachableStep(s: State, a: Action)
    requires Reachable(s) && Enabled(s, a)
    ensures Reachable(Step(s, a))
  {
    hide Step, Enabled;
    var run :| IsRun(INIT, run) && Exec(INIT, run) == s;
    var last := [a];
    assert last[1..] == [];
    assert IsRun(Step(s, last[0]), last[1..]) && Exec(s, last) == Step(s, a);
    RunConcat(INIT, run, last);
    assert IsRun(INIT, run + last);
  }

  /** A session that is open but not closed and not in hand is a live entry of the table. */
  lemma OpenSessionIsListed(s: State, x: nat) returns (k: nat)
    requires Inv(s) && x < |s.sessions| && !s.sessions[x].closed && s.sessions[x].born.Some?
    ensures Live(s, k) && Of(s, k) == x
  {
    var fd :| fd in s.open && s.open[fd] == x;
    assert fd !in InHand(s);
    k :| Live(s, k) && s.table[k] == fd;
  }

  /** The stream is the lines from b up to e, and p after them. */
  predicate StreamIs(s: State, x: nat, e: nat, p: string) {
    && x < |s.sessions| && s.sessions[x].born.Some? && s.sessions[x].born.value <= e <= |s.lines|
    && s.sessions[x].stream == Concat(s.lines[s.sessions[x].born.value..e]) + p
    && (p != "" ==> e < |s.lines| && IsStrictPrefix(p, s.lines[e]))
  }

  /** The broadcast loop is at the client of session x. */
  predicate WritingTo(s: State, x: nat) {
    s.lirc.Writing? && s.lirc.i < |s.table| && s.table[s.lirc.i] in s.open && s.open[s.table[s.lirc.i]] == x
  }

  /**
   * Client stream integrity. In every reachable state a client's peer has received the complete lines
   * of a contiguous run of broadcasts, starting with the first one begun after the client was added,
   * and then at most a strict prefix of the next line. The prefix is there only while that line is
   * being written to this very client, or because the session was closed for it. A client that was
   * never added has received nothing, and an open client lags behind only by the broadcast under way.
   */
  lemma ClientStream(s: State, x: nat)
    requires Reachable(s) && x < |s.sessions|
    ensures s.sessions[x].born.None? ==> s.sessions[x].stream == ""
    ensures s.sessions[x].born.Some? ==>
              exists e: nat, p :: StreamIs(s, x, e, p)
                && (p != "" ==> s.sessions[x].closed || WritingTo(s, x))
                && (!s.sessions[x].closed ==> e == |s.lines| || (LircHolds(s) && e + 1 == |s.lines|))
  {
    ReachableInv(s);
    var c := s.sessions[x];
    assert StreamOk(s.lines, c);
    if c.born.Some? {
      var e := c.born.value + c.whole;
      var p := if c.part > 0 then s.lines[e][..c.part] else "";
      assert StreamIs(s, x, e, p);
      if !c.closed {
        var k := OpenSessionIsListed(s, x);
        StreamsAt(s, k);
      }
    }
  }

  /** A closed session is never written to again. */
  lemma ClosedIsFinal(s: State, a: Action, x: nat)
    requires Inv(s) && Enabled(s, a) && x < |s.sessions| && s.sessions[x].closed
    ensures x < |Step(s, a).sessions| && Step(s, a).sessions[x] == s.sessions[x]
  {
    if a.Write? && a.done > 0 {
      DeliverState(s, a.done);
      assert Of(s, s.lirc.i) != x;
    }
  }

  lemma {:induction false} ClosedForever(s: State, run: seq<Action>, x: nat)
    requires Inv(s) && IsRun(s, run) && x < |s.sessions| && s.sessions[x].closed
    ensures x < |Exec(s, run).sessions| && Exec(s, run).sessions[x] == s.sessions[x]
    decreases |run|
  {
    if run != [] {
      StepInv(s, run[0]);
      ClosedIsFinal(s, run[0], x);
      ClosedForever(Step(s, run[0]), run[1..], x);
    }
  }

  /** Every session is open under one descriptor, or was closed exactly once; and never both. */
  lemma SessionsAreConserved(s: State, x: nat)
    requires Reachable(s) && x < |s.sessions|
    ensures multiset(s.closed)[x] == if s.sessions[x].closed then 1 else 0
    ensures !s.sessions[x].closed <==> exists fd :: fd in s.open && s.open[fd] == x
    ensures forall fd, fd' :: fd in s.open && fd' in s.open && s.open[fd] == x && s.open[fd'] == x ==> fd == fd'
  {
    ReachableInv(s);
    OnceOnly(s.closed, x);
  }

  lemma {:induction false} OnceOnly(log: seq<nat>, x: nat)
    requires forall i, j :: 0 <= i < j < |log| ==> log[i] != log[j]
    ensures multiset(log)[x] == if x in log then 1 else 0
  {
    if log != [] {
      var n := |log| - 1;
      OnceOnly(log[..n], x);
      assert log == log[..n] + [log[n]];
      assert forall i :: 0 <= i < n ==> log[..n][i] == log[i];
    }
  }

  /** A rejection, for a descriptor too large or a full table, a failed write, or a step of shutdown. */
  predicate ClosingStep(s: State, a: Action) {
    || (a.Check? && s.acceptor.Checking? && (s.acceptor.fd >= FD_SETSIZE || |s.table| == MAX_CLIENTS))
    || (a.Write? && a.done <= 0)
    || a.CloseNext?
  }

  /** Descriptors are closed in three places only: rejection, a failed write, and shutdown. */
  lemma OnlyThreePlacesClose(s: State, a: Action)
    requires Inv(s) && Enabled(s, a) && Step(s, a).closed != s.closed
    ensures ClosingStep(s, a)
    ensures |Step(s, a).closed| == |s.closed| + 1
  {
  }

  /** An accepted connection is rejected exactly if its descriptor is too large or the table is full. */
  lemma RejectedIff(s: State)
    requires Reachable(s) && Enabled(s, Check) && s.acceptor.fd >= 0
    ensures Step(s, Check).closed != s.closed <==> s.acceptor.fd >= 1024 || |s.table| == 16
    ensures Step(s, Check).closed != s.closed ==>
              s.acceptor.fd !in Step(s, Check).open && Step(s, Check).closed == s.closed + [s.open[s.acceptor.fd]]
  {
    ReachableInv(s);
    assert s.acceptor.fd in InHand(s);
  }

  /** What is not rejected goes to the end of the table, a failed accept like any other. */
  lemma AdmittedIsListed(s: State)
    requires Reachable(s) && Enabled(s, Check) && !LircHolds(s)
    requires s.acceptor.fd < 1024 && |s.table| < 16
    ensures var run := [Check, LockTable, Append];
            && IsRun(s, run)
            && var end := Exec(s, run);
               && end.table == s.table + [s.acceptor.fd] && end.closed == s.closed && end.open == s.open
               && end.acceptor.Listening?
  {
    var m2, m1, m0 := [Append], [LockTable, Append], [Check, LockTable, Append];
    assert m2[1..] == [] && m1[1..] == m2 && m0[1..] == m1;
    var s1 := Step(s, Check);
    var s2 := Step(s1, LockTable);
    var s3 := Step(s2, Append);
    assert IsRun(s3, []) && IsRun(s2, m2) && IsRun(s1, m1);
    assert Exec(s2, m2) == s3 && Exec(s1, m1) == s3;
  }

  predicate IsClosed(s: State, x: nat) { x < |s.sessions| && s.sessions[x].closed }

  /** Some step of the run closes session x, and it is a rejection, a failed write or a step of shutdown. */
  ghost predicate ClosedIn(s: State, run: seq<Action>, x: nat)
    requires IsRun(s, run)
    decreases |run|
  {
    run != [] &&
    var a := run[0];
    || (!IsClosed(s, x) && IsClosed(Step(s, a), x) && ClosingStep(s, a))
    || ClosedIn(Step(s, a), run[1..], x)
  }

  /** In every run, whatever ends up closed was closed by a rejection, a failed write or shutdown. */
  lemma {:induction false} ClosedByRejectionFailureOrShutdown(s: State, run: seq<Action>, x: nat)
    requires Inv(s) && IsRun(s, run) && !IsClosed(s, x) && IsClosed(Exec(s, run), x)
    ensures ClosedIn(s, run, x)
    decreases |run|
  {
    StepInv(s, run[0]);
    hide Step, Enabled, Bounded, Descriptors, Streams;
    if IsClosed(Step(s, run[0]), x) {
      assert x in Step(s, run[0]).closed && x !in s.closed;
      OnlyThreePlacesClose(s, run[0]);
    } else {
      ClosedByRejectionFailureOrShutdown(Step(s, run[0]), run[1..], x);
    }
  }

  /** A failed accept stays in the table only until the next broadcast is over. */
  lemma FailedAcceptsAreDropped(s: State)
    requires Reachable(s) && Enabled(s, Unlock)
    ensures forall k :: 0 <= k < |s.table| ==> s.table[k] >= 0 && s.table[k] in s.open
  {
    ReachableInv(s);
    forall k | 0 <= k < |s.table|
      ensures s.table[k] >= 0 && s.table[k] in s.open
    {
      assert Live(s, k);
    }
  }

  /** Between operations the open client descriptors are the table entries that are not failed accepts, each once. */
  lemma QuiescentDescriptors(s: State)
    requires Reachable(s) && s.acceptor.Listening? && !s.lirc.Removing?
    ensures s.open.Keys == set fd | fd in s.table && fd >= 0
    ensures DistinctClients(s.table)
  {
    ReachableInv(s);
    forall fd | fd in s.table && fd >= 0
      ensures fd in s.open
    {
      var k :| 0 <= k < |s.table| && s.table[k] == fd;
      assert Live(s, k);
    }
    forall i, j | 0 <= i < j < |s.table| && s.table[i] >= 0
      ensures s.table[i] != s.table[j]
    {
      assert s.table[j] >= 0 ==> Live(s, i) && Live(s, j);
    }
  }

  /** Once lirc_server has shut down, the table stays empty, and every accepted client was closed exactly once. */
  lemma ShutdownClosesEverything(s: State, x: nat)
    requires Reachable(s) && s.acceptor.Finished?
    ensures s.table == [] && s.open == map[]
    ensures x < |s.sessions| ==> multiset(s.closed)[x] == 1
  {
    ReachableInv(s);
    assert forall k: nat :: !Live(s, k);
    assert forall fd :: fd !in s.open;
    if x < |s.sessions| {
      SessionsAreConserved(s, x);
    }
  }

  lemma {:induction false} FinishedForever(s: State, run: seq<Action>)
    requires Inv(s) && IsRun(s, run) && s.acceptor.Finished?
    ensures Exec(s, run).acceptor.Finished? && Exec(s, run).table == []
    decreases |run|
  {
    if run != [] {
      StepInv(s, run[0]);
      FinishedForever(Step(s, run[0]), run[1..]);
    }
  }

  /** The capacity test made outside the mutex still keeps every append inside the array. */
  lemma AppendsStayInside(s: State)
    requires Reachable(s)
    ensures |s.table| <= MAX_CLIENTS
    ensures Enabled(s, Append) ==> |s.table| < MAX_CLIENTS && |Step(s, Append).table| == |s.table| + 1
    ensures !(MainHolds(s) && LircHolds(s))
  {
    ReachableInv(s);
  }

  /** remove_client finds the descriptor exactly at the position that the broadcast loop is at. */
  lemma RemovesTheRightClient(s: State)
    requires Reachable(s) && s.lirc.Removing?
    ensures s.lirc.at == s.lirc.i < |s.table|
  {
    ReachableInv(s);
  }

  // ---- The assertion of broadcastToLirc -------------------------------------------------------------

  function Accepts(run: seq<Action>): nat {
    if run == [] then 0 else (if run[0].Accept? then 1 else 0) + Accepts(run[1..])
  }

  function Load(s: State): nat {
    |s.table| + if s.acceptor.Checking? || s.acceptor.Passed? || s.acceptor.Appending? then 1 else 0
  }

  lemma {:induction false} LoadIsAccepted(s: State, run: seq<Action>)
    requires Inv(s) && IsRun(s, run)
    ensures Load(Exec(s, run)) <= Load(s) + Accepts(run)
    decreases |run|
  {
    if run != [] {
      StepInv(s, run[0]);
      LoadIsAccepted(Step(s, run[0]), run[1..]);
    }
  }

  lemma {:induction false} RunConcat(s: State, run: seq<Action>, more: seq<Action>)
    requires IsRun(s, run) && IsRun(Exec(s, run), more)
    ensures IsRun(s, run + more) && Exec(s, run + more) == Exec(Exec(s, run), more)
    ensures Accepts(run + more) == Accepts(run) + Accepts(more)
    decreases |run|
  {
    if run == [] {
      assert run + more == more;
    } else {
      assert (run + more)[1..] == run[1..] + more;
      RunConcat(Step(s, run[0]), run[1..], more);
    }
  }

  /** n clients connect, one after the other. */
  lemma {:induction false} Fill(n: nat) returns (run: seq<Action>)
    requires n <= MAX_CLIENTS
    ensures IsRun(INIT, run) && Accepts(run) == n
    ensures var s := Exec(INIT, run);
            && |s.table| == n && s.acceptor == Listening && s.lirc == Quiet && !s.aborted
            && (forall fd :: fd in s.open ==> fd < n)
  {
    if n == 0 {
      run := [];
    } else {
      var before := Fill(n - 1);
      var s := Exec(INIT, before);
      var more := [Accept(n - 1), Check, LockTable, Append];
      FillOne(s, n - 1);
      RunConcat(INIT, before, more);
      run := before + more;
    }
  }

  lemma FillOne(s: State, n: nat)
    requires n < MAX_CLIENTS && |s.table| == n && s.acceptor == Listening && s.lirc == Quiet && !s.aborted
    requires forall fd :: fd in s.open ==> fd < n
    ensures var more := [Accept(n), Check, LockTable, Append];
            && IsRun(s, more) && Accepts(more) == 1
            && var s' := Exec(s, more);
               && |s'.table| == n + 1 && s'.acceptor == Listening && s'.lirc == Quiet && !s'.aborted
               && (forall fd :: fd in s'.open ==> fd < n + 1)
  {
    var m3, m2, m1 := [Append], [LockTable, Append], [Check, LockTable, Append];
    var m0 := [Accept(n), Check, LockTable, Append];
    assert m3[1..] == [] && m2[1..] == m3 && m1[1..] == m2 && m0[1..] == m1;
    var s1 := Step(s, Accept(n));
    var s2 := Step(s1, Check);
    var s3 := Step(s2, LockTable);
    var s4 := Step(s3, Append);
    assert IsRun(s4, []) && IsRun(s3, m3) && IsRun(s2, m2) && IsRun(s1, m1);
    assert Accepts(m3) == 0 && Accepts(m2) == 0 && Accepts(m1) == 0;
    assert Exec(s3, m3) == s4 && Exec(s2, m2) == s4 && Exec(s1, m1) == s4 && Exec(s, m0) == s4;
  }

  ghost predicate SafeWith(n: nat) {
    forall run :: IsRun(INIT, run) && Accepts(run) <= n ==> !Exec(INIT, run).aborted
  }

  /** The assertion of broadcastToLirc is safe exactly for daemons that ever see at most 15 connections. */
  lemma AssertionHoldsIff(n: nat)
    ensures SafeWith(n) <==> n < MAX_CLIENTS
  {
    if n < MAX_CLIENTS {
      forall run | IsRun(INIT, run) && Accepts(run) <= n
        ensures !Exec(INIT, run).aborted
      {
        InitInv();
        RunInv(INIT, run);
        LoadIsAccepted(INIT, run);
      }
    } else {
      var run := Fill(MAX_CLIENTS);
      var last := [Broadcast("x")];
      assert last[1..] == [];
      var s := Exec(INIT, run);
      assert IsRun(Step(s, last[0]), last[1..]);
      RunConcat(INIT, run, last);
      assert Accepts(last) == 0;
      assert IsRun(INIT, run + last) && Exec(INIT, run + last).aborted;
    }
  }
}
