/**
 * src/lirc_srv.c and broadcastToLirc of src/lirc_thr.c: the table of client descriptors, updated in
 * place, one call at a time. How the calls of the two threads interleave is in module Sessions.
 */
module LircSrv {
  import opened Prelude
  import opened LircUtil

  const MAX_CLIENTS := 16
  const FD_SETSIZE := 1024
  const BDREMOTE_FAIL := -1

  /** The position of the first entry equal to fd, or the length of the table. */
  function IndexOf(table: seq<int>, fd: int): (i: nat)
    ensures i <= |table|
    ensures i < |table| ==> table[i] == fd
    ensures forall k :: 0 <= k < i ==> table[k] != fd
  {
    if table == [] || table[0] == fd then 0 else 1 + IndexOf(table[1..], fd)
  }

  function RemoveAt(table: seq<int>, i: nat): (t: seq<int>)
    requires i < |table|
    ensures |t| == |table| - 1
  {
    table[..i] + table[i + 1..]
  }

  /** The table without its first entry equal to fd. */
  function RemoveFirst(table: seq<int>, fd: int): seq<int> {
    var i := IndexOf(table, fd);
    if i < |table| then RemoveAt(table, i) else table
  }

  /** No descriptor is in the table twice; failed accepts (negative entries) may be. */
  ghost predicate DistinctClients(table: seq<int>) {
    forall i, j :: 0 <= i < j < |table| && table[i] >= 0 ==> table[i] != table[j]
  }

  /** The clients that take all len bytes; client k is answered by nets(k). */
  function Survivors(table: seq<int>, nets: nat -> Offers, len: nat): (t: seq<int>)
    ensures |t| <= |table|
  {
    if table == [] then []
    else
      var k := |table| - 1;
      Survivors(table[..k], nets, len) + if Delivers(table[k], nets(k), len) then [table[k]] else []
  }

  /** A filter: exactly the clients that took the whole line, each at most as often as before. */
  lemma {:induction false} SurvivorsAreTheDelivered(table: seq<int>, nets: nat -> Offers, len: nat)
    requires len > 0
    ensures forall fd :: fd in Survivors(table, nets, len) <==>
              exists k :: 0 <= k < |table| && table[k] == fd && Delivers(fd, nets(k), len)
    ensures forall fd :: fd in Survivors(table, nets, len) ==> fd >= 0 && fd in table
  {
    if table != [] {
      var n := |table| - 1;
      SurvivorsAreTheDelivered(table[..n], nets, len);
      assert forall k :: 0 <= k < n ==> table[..n][k] == table[k];
    }
  }

  lemma FirstAt(table: seq<int>, fd: int, i: nat)
    requires i <= |table| && (forall k :: 0 <= k < i ==> table[k] != fd) && (i < |table| ==> table[i] == fd)
    ensures IndexOf(table, fd) == i
  {
  }

  /** Removing the entry that comes after the survivors so far is removing that very entry. */
  lemma RemoveNext(done: seq<int>, fd: int, rest: seq<int>)
    requires fd !in done
    ensures RemoveFirst(done + [fd] + rest, fd) == done + rest
  {
    FirstAt(done + [fd] + rest, fd, |done|);
  }

  /** The descriptors that did not take the line, and are closed for it. */
  function Dropped(table: seq<int>, nets: nat -> Offers, len: nat): set<int> {
    set fd | fd in table && fd !in Survivors(table, nets, len)
  }


  /** Trying one more client. */
  lemma NextClient(table: seq<int>, n: nat, nets: nat -> Offers, len: nat)
    requires n < |table| && len > 0 && DistinctClients(table)
    ensures var done, fd := Survivors(table[..n], nets, len), table[n];
            && fd !in done
            && table[..n + 1] == table[..n] + [fd]
            && Survivors(table[..n + 1], nets, len) == (if Delivers(fd, nets(n), len) then done + [fd] else done)
            && Dropped(table[..n + 1], nets, len)
               == Dropped(table[..n], nets, len) + if Delivers(fd, nets(n), len) then {} else {fd}
  {
    var done, fd := Survivors(table[..n], nets, len), table[n];
    SurvivorsAreTheDelivered(table[..n], nets, len);
    assert table[..n + 1][..n] == table[..n];
    if Delivers(fd, nets(n), len) {
      assert fd !in table[..n];
    }
  }

  /** The table and the kernel after n clients of a broadcast. */
  ghost predicate TableAfter(was: seq<int>, n: nat, clients: seq<int>, closed: set<int>, len: nat,
                             nets: nat -> Offers) {
    && n <= |was|
    && clients == Survivors(was[..n], nets, len) + was[n..]
    && closed == Dropped(was[..n], nets, len)
  }

  /** What the first clients were sent. */
  ghost predicate SentTo(was: seq<int>, sent: seq<string>, msg: string, nets: nat -> Offers) {
    && |sent| <= |was|
    && forall k :: 0 <= k < |sent| ==>
         IsPrefix(sent[k], msg) && (sent[k] == msg <==> Delivers(was[k], nets(k), |msg|))
  }

  lemma NothingTried(was: seq<int>, msg: string, nets: nat -> Offers)
    ensures TableAfter(was, 0, was, {}, |msg|, nets) && SentTo(was, [], msg, nets)
    ensures Survivors(was[..0], nets, |msg|) == []
  {
  }

  lemma SendNext(was: seq<int>, sent: seq<string>, out: string, msg: string, nets: nat -> Offers)
    requires SentTo(was, sent, msg, nets) && |sent| < |was|
    requires IsPrefix(out, msg) && (out == msg <==> Delivers(was[|sent|], nets(|sent|), |msg|))
    ensures SentTo(was, sent + [out], msg, nets)
  {
  }

  /** The loop index points at the next untried client. */
  lemma NextIsUntried(was: seq<int>, n: nat, clients: seq<int>, closed: set<int>, len: nat, nets: nat -> Offers)
    requires TableAfter(was, n, clients, closed, len, nets)
    ensures var i := |Survivors(was[..n], nets, len)|;
            && |clients| == i + |was| - n
            && (n < |was| ==> clients[i] == was[n])
            && (n == |was| ==> clients == Survivors(was, nets, len) && closed == Dropped(was, nets, len))
  {
    if n == |was| {
      assert was[..n] == was;
      assert clients == Survivors(was, nets, len) + [];
    }
  }

  lemma TryNext(was: seq<int>, n: nat, clients: seq<int>, closed: set<int>, len: nat, nets: nat -> Offers)
    requires TableAfter(was, n, clients, closed, len, nets) && n < |was| && len > 0 && DistinctClients(was)
    ensures var kept := Delivers(was[n], nets(n), len);
            && TableAfter(was, n + 1, if kept then clients else RemoveFirst(clients, was[n]),
                          if kept then closed else closed + {was[n]}, len, nets)
            && |Survivors(was[..n + 1], nets, len)| == |Survivors(was[..n], nets, len)| + if kept then 1 else 0
  {
    NextClient(was, n, nets, len);
    hide Survivors, Delivers, DistinctClients, Dropped, RemoveFirst;
    var done, rest := Survivors(was[..n], nets, len), was[n + 1..];
    assert clients == done + [was[n]] + rest;
    RemoveNext(done, was[n], rest);
  }

  lemma WriteWhole(msg: string, out: string, fd: int, offers: Offers)
    requires IsPrefix(out, msg) && |out| == WriteRest(fd, offers, 0, |msg|).sent
    ensures out == msg <==> Delivers(fd, offers, |msg|)
  {
  }

  /** The kernel's side: the client descriptors that are open. */
  class Kernel {
    var open: set<int>

    constructor ()
      ensures open == {}
    {
      open := {};
    }

    /** shutdown and close; both fail without effect on a descriptor that is not open. */
    method Close(fd: int)
      modifies this
      ensures open == old(open) - {fd}
    {
      open := open - {fd};
    }
  }

  class LircData {
    const kernel: Kernel
    const clis: array<int>
    var clin: nat
    var sockinet: int

    ghost predicate Valid()
      reads this
    {
      clis.Length == MAX_CLIENTS && clin <= MAX_CLIENTS
    }

    ghost function Clients(): seq<int>
      requires Valid()
      reads this, clis
    {
      clis[..clin]
    }

    /** initLircData. */
    constructor (kernel: Kernel)
      ensures Valid() && Clients() == [] && this.kernel == kernel && sockinet == -1 && fresh(clis)
    {
      this.kernel := kernel;
      clis := new int[MAX_CLIENTS](_ => 0);
      clin := 0;
      sockinet := -1;
    }

    /** add_client, where accept returned fd. Returns whether the client was taken. */
    method AddClient(fd: int) returns (taken: bool)
      requires Valid()
      modifies `clin, clis, kernel
      ensures Valid()
      ensures taken <==> fd < 1024 && |old(Clients())| < 16
      ensures Clients() == if taken then old(Clients()) + [fd] else old(Clients())
      ensures kernel.open == if taken then old(kernel.open) else old(kernel.open) - {fd}
    {
      if fd >= FD_SETSIZE || clin >= MAX_CLIENTS {
        kernel.Close(fd);
        return false;
      }
      clis[clin] := fd;
      clin := clin + 1;
      return true;
    }

    /** remove_client: search, close, and move the entries behind it down by one. */
    method RemoveClient(fd: int)
      requires Valid()
      modifies `clin, clis, kernel
      ensures Valid() && Clients() == RemoveFirst(old(Clients()), fd)
      ensures kernel.open == if fd in old(Clients()) then old(kernel.open) - {fd} else old(kernel.open)
    {
      ghost var was := Clients();
      var i := 0;
      while i < clin
        invariant i <= clin == |was| && Valid() && Clients() == was
        invariant kernel.open == old(kernel.open)
        invariant forall k :: 0 <= k < i ==> was[k] != fd
      {
        if clis[i] == fd {
          FirstAt(was, fd, i);
          assert was[i] in was;
          kernel.Close(clis[i]);
          clin := clin - 1;
          ghost var at := i;
          while i < clin
            invariant at <= i <= clin == |was| - 1 && Valid()
            invariant kernel.open == old(kernel.open) - {fd}
            invariant forall k :: 0 <= k < at ==> clis[k] == was[k]
            invariant forall k :: at <= k < i ==> clis[k] == was[k + 1]
            invariant forall k :: i <= k < |was| ==> clis[k] == was[k]
          {
            clis[i] := clis[i + 1];
            i := i + 1;
          }
          assert Clients() == RemoveAt(was, at);
          return;
        }
        i := i + 1;
      }
      FirstAt(was, fd, i);
    }

    /** The body of the broadcast loop: write to one client, and remove it if it did not take the whole line. */
    method TryClient(i: nat, msg: string, offers: Offers) returns (kept: bool, sent: string)
      requires Valid() && msg != "" && i < clin
      modifies `clin, clis, kernel
      ensures Valid() && IsPrefix(sent, msg)
      ensures var fd := old(Clients())[i];
              && kept == Delivers(fd, offers, |msg|) && (sent == msg <==> kept)
              && Clients() == (if kept then old(Clients()) else RemoveFirst(old(Clients()), fd))
              && kernel.open == (if kept then old(kernel.open) else old(kernel.open) - {fd})
    {
      var rc;
      rc, sent := WriteSocket(clis[i], msg, |msg|, offers);
      WriteWhole(msg, sent, clis[i], offers);
      kept := rc >= |msg|;
      if rc < |msg| {
        assert clis[i] == Clients()[i];
        RemoveClient(clis[i]);
      }
    }

    /**
     * broadcastToLirc. Each client of the table is tried once, in order, and the table ends up as the
     * clients that took the whole line, although entries are removed under the loop's feet.
     * The requires is the source's own assertion.
     */
    method BroadcastToLirc(msg: string, nets: nat -> Offers) returns (sent: seq<string>)
      requires Valid() && msg != ""
      requires clin < MAX_CLIENTS
      requires DistinctClients(Clients())
      modifies `clin, clis, kernel
      ensures Valid() && Clients() == Survivors(old(Clients()), nets, |msg|)
      ensures |sent| == |old(Clients())| && SentTo(old(Clients()), sent, msg, nets)
      ensures kernel.open == old(kernel.open) - Dropped(old(Clients()), nets, |msg|)
    {
      hide Survivors, Dropped, TableAfter, SentTo, DistinctClients, Delivers;
      ghost var was := Clients();
      sent := [];
      var i := 0;
      ghost var closed := {};
      NothingTried(was, msg, nets);
      while i < clin
        invariant Valid() && |sent| <= |was|
        invariant i == |Survivors(was[..|sent|], nets, |msg|)|
        invariant TableAfter(was, |sent|, Clients(), closed, |msg|, nets)
        invariant SentTo(was, sent, msg, nets)
        invariant kernel.open == old(kernel.open) - closed
        decreases clin - i
      {
        NextIsUntried(was, |sent|, Clients(), closed, |msg|, nets);
        i, sent, closed := NextClientStep(i, sent, msg, nets, was, closed, old(kernel.open));
      }
      NextIsUntried(was, |sent|, Clients(), closed, |msg|, nets);
    }

    /** One turn of the broadcast loop: either the index or the table moves. */
    method NextClientStep(i: nat, sent: seq<string>, msg: string, nets: nat -> Offers,
                          ghost was: seq<int>, ghost closed: set<int>, ghost fds: set<int>)
      returns (i': nat, sent': seq<string>, ghost closed': set<int>)
      requires Valid() && msg != "" && i < clin && |sent| < |was| && DistinctClients(was)
      requires i == |Survivors(was[..|sent|], nets, |msg|)|
      requires TableAfter(was, |sent|, Clients(), closed, |msg|, nets) && SentTo(was, sent, msg, nets)
      requires kernel.open == fds - closed
      modifies `clin, clis, kernel
      ensures Valid() && |sent'| == |sent| + 1 && i' == |Survivors(was[..|sent'|], nets, |msg|)|
      ensures TableAfter(was, |sent'|, Clients(), closed', |msg|, nets) && SentTo(was, sent', msg, nets)
      ensures kernel.open == fds - closed'
      ensures clin - i' == old(clin) - i - 1
    {
      NextIsUntried(was, |sent|, Clients(), closed, |msg|, nets);
      TryNext(was, |sent|, Clients(), closed, |msg|, nets);
      hide Survivors, Delivers, DistinctClients, Dropped, IsPrefix, RemoveFirst, TableAfter, SentTo;
      var kept, out := TryClient(i, msg, nets(|sent|));
      SendNext(was, sent, out, msg, nets);
      sent' := sent + [out];
      var index: int := i;
      if !kept {
        index := index - 1;
      }
      i' := index + 1;
      closed' := if kept then closed else closed + {was[|sent|]};
    }

    /** The end of lirc_server: close every client and the listener. */
    method Shutdown()
      requires Valid()
      modifies `clin, `sockinet, kernel
      ensures Valid() && Clients() == [] && sockinet == BDREMOTE_FAIL
      ensures kernel.open == old(kernel.open) - (set fd | fd in old(Clients()))
    {
      var i := 0;
      while i < clin
        invariant i <= clin == old(clin) && kernel.open == old(kernel.open) - (set fd | fd in clis[..i])
      {
        kernel.Close(clis[i]);
        i := i + 1;
      }
      clin := 0;
      sockinet := BDREMOTE_FAIL;
    }
  }
}
