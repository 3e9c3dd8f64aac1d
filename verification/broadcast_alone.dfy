/**
 * A broadcast among the other steps of module Sessions does what broadcastToLirc does by itself: for any
 * answers of the kernel, the machine can go through the table as the method of module LircSrv does.
 */
module BroadcastAlone {
  import opened Prelude
  import opened LircUtil
  import opened LircSrv
  import opened Sessions

  /** The steps from s on, and where they lead. */
  ghost predicate Leads(s: State, run: seq<Action>, end: State) {
    IsRun(s, run) && Exec(s, run) == end
  }

  lemma NoStep(s: State)
    ensures Leads(s, [], s)
  {
  }

  lemma FirstStep(s: State, a: Action, rest: seq<Action>, end: State)
    requires Enabled(s, a) && Leads(Step(s, a), rest, end)
    ensures Leads(s, [a] + rest, end)
  {
    hide Enabled, Step;
    assert ([a] + rest)[1..] == rest;
  }

  lemma Joined(s: State, run: seq<Action>, mid: State, more: seq<Action>, end: State)
    requires Leads(s, run, mid) && Leads(mid, more, end)
    ensures Leads(s, run + more, end)
  {
    RunConcat(s, run, more);
  }

  /** The broadcast loop is at entry i, with `sent` bytes of the line written. */
  ghost predicate At(s: State, line: string, i: nat, sent: nat) {
    Inv(s) && !s.aborted && s.lirc == Writing(line, i, sent)
  }

  /** What writing to entry i leaves: the client goes on to the next line, or is closed and moved out. */
  ghost predicate Written(s: State, s': State, line: string, i: nat, whole: bool)
    requires i < |s.table|
  {
    && s'.lines == s.lines && s'.acceptor == s.acceptor
    && if whole then At(s', line, i + 1, 0) && s'.table == s.table && s'.open == s.open
       else At(s', line, i, 0) && s'.table == RemoveFirst(s.table, s.table[i]) && s'.open == s.open - {s.table[i]}
  }

  /** A failed write closes the client. */
  lemma FailedWrite(s: State, line: string, i: nat, sent: nat, done: int)
    requires At(s, line, i, sent) && i < |s.table| && done <= 0
    ensures Enabled(s, Write(done))
    ensures var s' := Step(s, Write(done));
            && Inv(s') && !s'.aborted && s'.lirc == Removing(line, i, i) && s'.table == s.table
            && s'.open == s.open - {s.table[i]} && s'.lines == s.lines && s'.acceptor == s.acceptor
  {
    SearchFindsCurrent(s);
    StepInv(s, Write(done));
    hide Descriptors, Conserved, Streams, Bounded;
    assert s.open - {s.table[i]} == if s.table[i] in s.open then s.open - {s.table[i]} else s.open;
  }

  /** A closed client is moved out of the table. */
  lemma MoveOut(s: State, line: string, i: nat)
    requires Inv(s) && !s.aborted && s.lirc == Removing(line, i, i) && i < |s.table|
    ensures Enabled(s, Compact)
    ensures var s' := Step(s, Compact);
            && At(s', line, i, 0) && s'.table == RemoveAt(s.table, i) && s'.open == s.open
            && s'.lines == s.lines && s'.acceptor == s.acceptor
  {
    StepInv(s, Compact);
    hide Inv;
  }

  /** A failed write closes the client, and moves it out of the table. */
  lemma Fail(s: State, line: string, i: nat, sent: nat, done: int) returns (run: seq<Action>, end: State)
    requires At(s, line, i, sent) && i < |s.table| && done <= 0
    ensures Leads(s, run, end) && Written(s, end, line, i, false)
  {
    SearchFindsCurrent(s);
    hide Inv, Step, Enabled, Leads;
    FailedWrite(s, line, i, sent, done);
    var s1 := Step(s, Write(done));
    MoveOut(s1, line, i);
    end := Step(s1, Compact);
    NoStep(end);
    FirstStep(s1, Compact, [], end);
    FirstStep(s, Write(done), [Compact] + [], end);
    run := [Write(done)] + ([Compact] + []);
  }

  /** A write that takes some of the bytes. */
  lemma Take(s: State, line: string, i: nat, sent: nat, done: nat)
    requires At(s, line, i, sent) && i < |s.table| && s.table[i] >= 0 && 0 < done <= |line| - sent
    ensures Enabled(s, Write(done))
    ensures var s', all := Step(s, Write(done)), sent + done == |line|;
            && At(s', line, if all then i + 1 else i, if all then 0 else sent + done)
            && s'.table == s.table && s'.open == s.open && s'.lines == s.lines && s'.acceptor == s.acceptor
  {
    assert Live(s, i);
    StepInv(s, Write(done));
  }

  /** One client is written to as write_socket does, from its k-th write on. */
  lemma {:induction false} WriteOne(s: State, line: string, i: nat, sent: nat, offers: Offers, k: nat)
    returns (run: seq<Action>, end: State)
    requires At(s, line, i, sent) && i < |s.table| && sent < |line|
    ensures Leads(s, run, end)
    ensures Written(s, end, line, i, WriteRest(s.table[i], offers, k, |line| - sent).sent == |line| - sent)
    decreases |line| - sent
  {
    hide Inv, Step, Enabled, Leads, RemoveFirst;
    var todo := |line| - sent;
    var done := KernelWrite(s.table[i], offers(k), todo);
    if done <= 0 {
      run, end := Fail(s, line, i, sent, done);
    } else {
      Take(s, line, i, sent, done);
      var s1 := Step(s, Write(done));
      if done == todo {
        end := s1;
        NoStep(end);
        FirstStep(s, Write(done), [], end);
        run := [Write(done)] + [];
      } else {
        var rest;
        rest, end := WriteOne(s1, line, i, sent + done, offers, k + 1);
        FirstStep(s, Write(done), rest, end);
        run := [Write(done)] + rest;
      }
    }
  }

  /** The broadcast has tried the first n of the clients `was`. */
  ghost predicate Tried(s: State, was: seq<int>, n: nat, closed: set<int>, fds: map<int, nat>, line: string,
                        nets: nat -> Offers) {
    && TableAfter(was, n, s.table, closed, |line|, nets)
    && At(s, line, |Survivors(was[..n], nets, |line|)|, 0) && s.open == fds - closed
  }

  lemma OneMore(s: State, was: seq<int>, n: nat, closed: set<int>, fds: map<int, nat>, line: string,
                nets: nat -> Offers) returns (run: seq<Action>, end: State, closed': set<int>)
    requires Tried(s, was, n, closed, fds, line, nets) && n < |was| && line != "" && DistinctClients(was)
    ensures Leads(s, run, end) && Tried(end, was, n + 1, closed', fds, line, nets)
    ensures end.lines == s.lines && end.acceptor == s.acceptor
  {
    hide Survivors, TableAfter, DistinctClients, Inv, RemoveFirst, Leads, Step, Enabled, Written;
    NextIsUntried(was, n, s.table, closed, |line|, nets);
    run, end := WriteOne(s, line, s.lirc.i, 0, nets(n), 0);
    closed' := WrittenIsTried(s, end, was, n, closed, fds, line, nets);
  }

  lemma WrittenIsTried(s: State, end: State, was: seq<int>, n: nat, closed: set<int>, fds: map<int, nat>, line: string,
                       nets: nat -> Offers) returns (closed': set<int>)
    requires Tried(s, was, n, closed, fds, line, nets) && n < |was| && line != "" && DistinctClients(was)
    requires var i := |Survivors(was[..n], nets, |line|)|;
             && i < |s.table| && s.table[i] == was[n]
             && Written(s, end, line, i, WriteRest(s.table[i], nets(n), 0, |line| - 0).sent == |line| - 0)
    ensures Tried(end, was, n + 1, closed', fds, line, nets)
    ensures end.lines == s.lines && end.acceptor == s.acceptor
  {
    hide Survivors, TableAfter, DistinctClients, Inv, RemoveFirst, WriteRest;
    var kept := Delivers(was[n], nets(n), |line|);
    closed' := if kept then closed else closed + {was[n]};
    assert fds - closed - {was[n]} == fds - (closed + {was[n]});
    TryNext(was, n, s.table, closed, |line|, nets);
  }

  lemma {:induction false} TryAll(s: State, was: seq<int>, n: nat, fds: map<int, nat>, line: string,
                                  nets: nat -> Offers)
    returns (run: seq<Action>, end: State, closed: set<int>)
    requires Tried(s, was, 0, {}, fds, line, nets) && n <= |was| && line != "" && DistinctClients(was)
    ensures Leads(s, run, end) && Tried(end, was, n, closed, fds, line, nets)
    ensures end.lines == s.lines && end.acceptor == s.acceptor
  {
    hide Tried, DistinctClients, Leads;
    if n == 0 {
      run, end, closed := [], s, {};
      NoStep(s);
    } else {
      var before, mid, dropped := TryAll(s, was, n - 1, fds, line, nets);
      var more;
      more, end, closed := OneMore(mid, was, n - 1, dropped, fds, line, nets);
      Joined(s, before, mid, more, end);
      run := before + more;
    }
  }

  lemma Distinct(s: State)
    requires Inv(s) && s.lirc.Waiting? && !MainHolds(s)
    ensures DistinctClients(s.table)
  {
    forall i, j | 0 <= i < j < |s.table| && s.table[i] >= 0
      ensures s.table[i] != s.table[j]
    {
      assert s.table[j] >= 0 ==> Live(s, i) && Live(s, j);
    }
  }

  /** Taking the mutex starts the loop at the first client. */
  lemma Begin(s: State, nets: nat -> Offers)
    requires Reachable(s) && !s.aborted && s.lirc.Waiting? && !MainHolds(s)
    ensures Enabled(s, LockLirc) && s.lirc.line != ""
    ensures var s1 := Step(s, LockLirc);
            && Tried(s1, s.table, 0, {}, s.open, s.lirc.line, nets)
            && s1.lines == s.lines + [s.lirc.line] && s1.acceptor == s.acceptor
  {
    ReachableInv(s);
    StepInv(s, LockLirc);
    NothingTried(s.table, s.lirc.line, nets);
    assert s.open - {} == s.open;
  }

  lemma RunOf(s: State, run: seq<Action>, end: State)
    requires Leads(s, run, end)
    ensures IsRun(s, run) && Exec(s, run) == end
  {
    hide IsRun, Exec;
  }

  /** After the last client the broadcast is over. */
  lemma AllTried(s: State, was: seq<int>, closed: set<int>, fds: map<int, nat>, line: string, nets: nat -> Offers)
    requires Tried(s, was, |was|, closed, fds, line, nets)
    ensures Enabled(s, Unlock)
    ensures var end := Step(s, Unlock);
            && end.lirc.Quiet? && end.lines == s.lines && end.acceptor == s.acceptor
            && end.table == Survivors(was, nets, |line|) && end.open == fds - Dropped(was, nets, |line|)
  {
    hide Inv, Survivors, Dropped, TableAfter;
    NextIsUntried(was, |was|, s.table, closed, |line|, nets);
    assert was[..|was|] == was;
  }

  /**
   * From the moment it can have the mutex, a broadcast can go as the sequential one does: for any answers of
   * the kernel the clients left are those that took the whole line, and exactly the others are closed.
   */
  lemma BroadcastByItself(s: State, nets: nat -> Offers) returns (run: seq<Action>, end: State)
    requires Reachable(s) && !s.aborted && s.lirc.Waiting? && !MainHolds(s)
    ensures IsRun(s, run) && Exec(s, run) == end
    ensures end.lirc.Quiet? && end.lines == s.lines + [s.lirc.line] && end.acceptor == s.acceptor
    ensures end.table == Survivors(s.table, nets, |s.lirc.line|)
    ensures end.open == s.open - Dropped(s.table, nets, |s.lirc.line|)
  {
    hide Inv, Reachable, Survivors, Dropped, TableAfter, DistinctClients, Leads, Enabled, Step, Tried;
    var was, line := s.table, s.lirc.line;
    ReachableInv(s);
    Distinct(s);
    Begin(s, nets);
    var s1 := Step(s, LockLirc);
    var all, s2, closed := TryAll(s1, was, |was|, s.open, line, nets);
    AllTried(s2, was, closed, s.open, line, nets);
    end := Step(s2, Unlock);
    NoStep(end);
    FirstStep(s2, Unlock, [], end);
    Joined(s1, all, s2, [Unlock] + [], end);
    FirstStep(s, LockLirc, all + ([Unlock] + []), end);
    run := [LockLirc] + (all + ([Unlock] + []));
    RunOf(s, run, end);
  }
}
