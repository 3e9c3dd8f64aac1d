/**
 * The bounded queue of src/q.c: a ring of packet pointers with explicit full and empty flags.
 *
 * `Ring` is the value of the queue struct; `Queue` is the struct itself, updated in place.
 * What the other threads do while a caller is asleep inside pthread_cond_wait is a parameter
 * (a trace of wakes), so the wait loops terminate when the trace is used up.
 */
module RingQueue {
  import opened Prelude

  /** A packet pointer: packets are numbered in the order they are allocated. */
  type PacketRef = nat

  const Q_OK := 0
  const Q_ERR := -1

  datatype Ring = Ring(buf: seq<PacketRef>, head: nat, tail: nat, full: bool, empty: bool) {

    ghost predicate Valid() {
      && head < |buf|
      && tail < |buf|
      && !(full && empty)
      && (head == tail <==> full || empty)
    }

    /** The number of queued packets. */
    ghost function Count(): (n: nat)
      requires Valid()
      ensures n <= |buf|
    {
      if full then |buf| else if head <= tail then tail - head else tail + |buf| - head
    }

    /** The queued packets, oldest first. */
    ghost function Contents(): (s: seq<PacketRef>)
      requires Valid()
      ensures |s| == Count()
    {
      if head + Count() <= |buf| then buf[head..head + Count()]
      else buf[head..] + buf[..head + Count() - |buf|]
    }

    function Put(x: PacketRef): Ring
      requires tail < |buf|
    {
      var t := if tail + 1 == |buf| then 0 else tail + 1;
      Ring(buf[tail := x], head, t, full || t == head, false)
    }

    function Take(): Ring
      requires head < |buf|
    {
      var h := if head + 1 == |buf| then 0 else head + 1;
      Ring(buf, h, tail, false, empty || h == tail)
    }
  }

  lemma TimesAtLeast(q: nat, n: nat)
    requires q >= 2
    ensures q * n >= 2 * n
  {
    assert (q - 2) * n >= 0;
  }

  lemma ModWrap(i: nat, n: nat)
    requires 0 < n && i < 2 * n
    ensures i % n == if i < n then i else i - n
  {
    var q, r := i / n, i % n;
    assert i == q * n + r;
    if q >= 2 {
      TimesAtLeast(q, n);
      assert false;
    }
  }

  /** What holds of the struct whenever the mutex is free. */
  lemma RingGeometry(r: Ring)
    requires r.Valid()
    ensures r.tail == (r.head + r.Count()) % |r.buf|
    ensures r.full <==> r.Count() == |r.buf|
    ensures r.empty <==> r.Count() == 0
    ensures forall k :: 0 <= k < r.Count() ==> r.Contents()[k] == r.buf[(r.head + k) % |r.buf|]
  {
    ModWrap(r.head + r.Count(), |r.buf|);
    forall k | 0 <= k < r.Count()
      ensures r.Contents()[k] == r.buf[(r.head + k) % |r.buf|]
    {
      ModWrap(r.head + k, |r.buf|);
    }
  }

  lemma EmptyAndFull(r: Ring)
    requires r.Valid()
    ensures r.full <==> |r.Contents()| == |r.buf|
    ensures r.empty <==> r.Contents() == []
  {
  }

  /** Adding to a ring that is not full appends to the sequence it stands for. */
  lemma PutRefinesEnqueue(r: Ring, x: PacketRef)
    requires r.Valid() && !r.full
    ensures r.Put(x).Valid() && |r.Put(x).buf| == |r.buf|
    ensures r.Put(x).Contents() == r.Contents() + [x]
  {
  }

  lemma TakeKeepsValid(r: Ring)
    requires r.Valid() && !r.empty
    ensures r.Take().Valid() && |r.Take().buf| == |r.buf| && r.Take().Count() == r.Count() - 1
  {
  }

  /** Removing from a ring that is not empty takes the first element off the sequence. */
  lemma TakeRefinesDequeue(r: Ring)
    requires r.Valid() && !r.empty
    ensures r.Take().Valid() && |r.Take().buf| == |r.buf|
    ensures r.Contents() == [r.buf[r.head]] + r.Take().Contents()
  {
    TakeKeepsValid(r);
    var n, end := r.Count(), r.head + r.Count();
    assert n > 0;
    hide Ring.Count, Ring.Valid;
    if end <= |r.buf| {
      assert r.buf[r.head..end] == [r.buf[r.head]] + r.buf[r.head + 1..end];
      if r.head + 1 == |r.buf| {
        assert r.Take().Contents() == [];
      }
    } else {
      assert r.buf[r.head..] == [r.buf[r.head]] + r.buf[r.head + 1..];
      if r.head + 1 == |r.buf| {
        assert r.Take().Contents() == r.buf[..n - 1];
      }
    }
  }

  // ---- What other threads do while a caller is asleep --------------------------------------

  /** One completed queueAdd or queueRem call of another thread; it has no effect if it would block. */
  datatype Op = OtherAdd(x: PacketRef) | OtherRemove

  /** The queue after some calls, with what they added and removed, in order. */
  datatype Outcome = Outcome(contents: seq<PacketRef>, added: seq<PacketRef>, removed: seq<PacketRef>)

  function Apply(c: seq<PacketRef>, ops: seq<Op>, n: nat): Outcome
    decreases |ops|
  {
    if ops == [] then Outcome(c, [], [])
    else
      match ops[0]
      case OtherAdd(x) =>
        if |c| < n then
          var o := Apply(c + [x], ops[1..], n);
          o.(added := [x] + o.added)
        else Apply(c, ops[1..], n)
      case OtherRemove =>
        if c != [] then
          var o := Apply(c[1..], ops[1..], n);
          o.(removed := [c[0]] + o.removed)
        else Apply(c, ops[1..], n)
  }

  /** First in, first out, over any calls: all that was ever in is what came out and then what is left. */
  lemma {:induction false} ApplyIsFifo(c: seq<PacketRef>, ops: seq<Op>, n: nat)
    requires |c| <= n
    ensures var o := Apply(c, ops, n); c + o.added == o.removed + o.contents && |o.contents| <= n
    decreases |ops|
  {
    if ops != [] {
      match ops[0]
      case OtherAdd(x) =>
        if |c| < n {
          ApplyIsFifo(c + [x], ops[1..], n);
          var o := Apply(c + [x], ops[1..], n);
          assert c + ([x] + o.added) == (c + [x]) + o.added;
        } else {
          ApplyIsFifo(c, ops[1..], n);
        }
      case OtherRemove =>
        if c != [] {
          ApplyIsFifo(c[1..], ops[1..], n);
          var o := Apply(c[1..], ops[1..], n);
          assert c + o.added == [c[0]] + (c[1..] + o.added);
          assert ([c[0]] + o.removed) + o.contents == [c[0]] + (o.removed + o.contents);
        } else {
          ApplyIsFifo(c, ops[1..], n);
        }
    }
  }

  /** Other threads' calls take effect one after the other. */
  lemma {:induction false} ApplyInOrder(c: seq<PacketRef>, ops: seq<Op>, op: Op, n: nat)
    ensures var o := Apply(c, ops, n).contents;
            Apply(c, ops + [op], n).contents
            == match op
               case OtherAdd(x) => if |o| < n then o + [x] else o
               case OtherRemove => if o != [] then o[1..] else o
    decreases |ops|
  {
    if ops == [] {
      assert ops + [op] == [op] && [op][1..] == [];
    } else {
      assert (ops + [op])[1..] == ops[1..] + [op];
      var first := match ops[0]
        case OtherAdd(x) => if |c| < n then c + [x] else c
        case OtherRemove => if c != [] then c[1..] else c;
      ApplyInOrder(first, ops[1..], op, n);
    }
  }

  /** How a wait loop ends: its condition holds, the trace ran out asleep, or the wait timed out. */
  datatype WaitEnd = Ready | Asleep | Expired

  /** The while loop of queueAdd: sleep until the queue is not full. */
  function WaitNotFull(c: seq<PacketRef>, wakes: seq<seq<Op>>, n: nat): (WaitEnd, seq<PacketRef>)
    decreases |wakes|
  {
    if |c| < n then (Ready, c)
    else if wakes == [] then (Asleep, c)
    else WaitNotFull(Apply(c, wakes[0], n).contents, wakes[1..], n)
  }

  /** What pthread_cond_timedwait reports: success, ETIMEDOUT, or an error that never released the mutex. */
  datatype WaitResult = Signalled | TimedOut | OtherError

  datatype Wake = Wake(result: WaitResult, others: seq<Op>)

  function OnlySignals(wakes: seq<seq<Op>>): (r: seq<Wake>)
    ensures |r| == |wakes|
  {
    seq(|wakes|, i requires 0 <= i < |wakes| => Wake(Signalled, wakes[i]))
  }

  /** The while loop of queueRemNonBlock: sleep until the queue is not empty or the wait times out. */
  function WaitNotEmpty(c: seq<PacketRef>, wakes: seq<Wake>, n: nat): (WaitEnd, seq<PacketRef>)
    decreases |wakes|
  {
    if c != [] then (Ready, c)
    else if wakes == [] then (Asleep, c)
    else
      match wakes[0].result
      case TimedOut => (Expired, Apply(c, wakes[0].others, n).contents)
      case OtherError => WaitNotEmpty(c, wakes[1..], n)
      case Signalled => WaitNotEmpty(Apply(c, wakes[0].others, n).contents, wakes[1..], n)
  }

  /** The queue after the first k wakes: the other threads' calls take effect, unless the wait kept the mutex. */
  function After(c: seq<PacketRef>, wakes: seq<Wake>, k: nat, n: nat): seq<PacketRef>
    requires k <= |wakes|
    decreases k
  {
    if k == 0 then c
    else After(if wakes[0].result == OtherError then c else Apply(c, wakes[0].others, n).contents, wakes[1..], k - 1, n)
  }

  /** queueAdd tests `full` after every wakeup, and goes on as soon as there is room. */
  ghost predicate AddWaits(c: seq<PacketRef>, wakes: seq<Wake>, k: nat, n: nat, end: WaitEnd) {
    && k <= |wakes|
    && (forall j :: 0 <= j < k ==> |After(c, wakes, j, n)| >= n)
    && (end == if |After(c, wakes, k, n)| < n then Ready else Asleep)
    && (end == Asleep ==> k == |wakes|)
  }

  lemma {:induction false} AddWaitsForRoom(c: seq<PacketRef>, wakes: seq<seq<Op>>, n: nat)
    ensures var (end, contents), all := WaitNotFull(c, wakes, n), OnlySignals(wakes);
            exists k: nat :: AddWaits(c, all, k, n, end) && contents == After(c, all, k, n)
    decreases |wakes|
  {
    var all := OnlySignals(wakes);
    if |c| < n || wakes == [] {
      assert AddWaits(c, all, 0, n, WaitNotFull(c, wakes, n).0);
    } else {
      var c' := Apply(c, wakes[0], n).contents;
      AddWaitsForRoom(c', wakes[1..], n);
      var (end, contents) := WaitNotFull(c', wakes[1..], n);
      assert OnlySignals(wakes[1..]) == all[1..];
      var k: nat :| AddWaits(c', all[1..], k, n, end) && contents == After(c', all[1..], k, n);
      forall j | 0 <= j < k + 1
        ensures |After(c, all, j, n)| >= n
      {
        assert j > 0 ==> After(c, all, j, n) == After(c', all[1..], j - 1, n);
      }
      assert After(c, all, k + 1, n) == After(c', all[1..], k, n);
      assert AddWaits(c, all, k + 1, n, end);
    }
  }

  /** The remove functions test `empty` after every wakeup, and go on once there is an item or the wait times out. */
  ghost predicate RemoveWaits(c: seq<PacketRef>, wakes: seq<Wake>, k: nat, n: nat, end: WaitEnd) {
    && k <= |wakes|
    && (forall j :: 0 <= j < k ==> After(c, wakes, j, n) == [])
    && (forall j :: 0 <= j < k ==> (wakes[j].result == TimedOut <==> j == k - 1 && end == Expired))
    && match end
       case Ready => After(c, wakes, k, n) != []
       case Asleep => After(c, wakes, k, n) == [] && k == |wakes|
       case Expired => k > 0
  }

  lemma {:induction false} RemoveWaitsForItem(c: seq<PacketRef>, wakes: seq<Wake>, n: nat)
    ensures var (end, contents) := WaitNotEmpty(c, wakes, n);
            exists k: nat :: RemoveWaits(c, wakes, k, n, end) && contents == After(c, wakes, k, n)
    decreases |wakes|
  {
    if c != [] || wakes == [] {
      assert RemoveWaits(c, wakes, 0, n, WaitNotEmpty(c, wakes, n).0);
    } else {
      var rest := wakes[1..];
      var c' := if wakes[0].result == OtherError then c else Apply(c, wakes[0].others, n).contents;
      if wakes[0].result == TimedOut {
        assert After(c, wakes, 1, n) == After(c', rest, 0, n) == c';
        assert RemoveWaits(c, wakes, 1, n, Expired);
      } else {
        RemoveWaitsForItem(c', rest, n);
        var (end, contents) := WaitNotEmpty(c', rest, n);
        var k: nat :| RemoveWaits(c', rest, k, n, end) && contents == After(c', rest, k, n);
        forall j | 0 <= j < k + 1
          ensures After(c, wakes, j, n) == [] && (wakes[j].result == TimedOut <==> j == k && end == Expired)
        {
          if j > 0 {
            assert After(c, wakes, j, n) == After(c', rest, j - 1, n) && wakes[j] == rest[j - 1];
          } else {
            assert end == Expired ==> k > 0;
          }
        }
        assert After(c, wakes, k + 1, n) == After(c', rest, k, n);
        assert RemoveWaits(c, wakes, k + 1, n, end);
      }
    }
  }

  /** A wait that only ever ends by a signal cannot time out: the blocking remove has no error return. */
  lemma {:induction false} SignalsNeverExpire(c: seq<PacketRef>, wakes: seq<Wake>, n: nat)
    requires forall w :: w in wakes ==> w.result == Signalled
    ensures WaitNotEmpty(c, wakes, n).0 != Expired
    decreases |wakes|
  {
    if c == [] && wakes != [] {
      SignalsNeverExpire(Apply(c, wakes[0].others, n).contents, wakes[1..], n);
    }
  }

  /** After a timeout the queue holds exactly what was added, and not removed again, during the wait that expired. */
  lemma {:induction false} TimeoutLeavesWhatArrived(c: seq<PacketRef>, wakes: seq<Wake>, n: nat)
    requires WaitNotEmpty(c, wakes, n).0 == Expired
    ensures exists k :: 0 <= k < |wakes| && wakes[k].result == TimedOut
                        && WaitNotEmpty(c, wakes, n).1 == Apply([], wakes[k].others, n).contents
    decreases |wakes|
  {
    if wakes[0].result != TimedOut {
      var next := if wakes[0].result == OtherError then c else Apply(c, wakes[0].others, n).contents;
      TimeoutLeavesWhatArrived(next, wakes[1..], n);
      var k :| 0 <= k < |wakes[1..]| && wakes[1..][k].result == TimedOut
               && WaitNotEmpty(next, wakes[1..], n).1 == Apply([], wakes[1..][k].others, n).contents;
      assert wakes[k + 1] == wakes[1..][k];
    }
  }

  // ---- The queue struct ---------------------------------------------------------------------

  class Queue {
    const buf: array<PacketRef>
    var head: nat
    var tail: nat
    var full: bool
    var empty: bool

    ghost function View(): Ring
      reads this, buf
    {
      Ring(buf[..], head, tail, full, empty)
    }

    ghost predicate Valid()
      reads this, buf
    {
      View().Valid()
    }

    ghost function Contents(): seq<PacketRef>
      requires Valid()
      reads this, buf
    {
      View().Contents()
    }

    constructor Init(capacity: nat)
      requires capacity > 0
      ensures Valid() && Contents() == [] && buf.Length == capacity && fresh(buf)
    {
      buf := new PacketRef[capacity];
      head, tail, full, empty := 0, 0, false, true;
    }

    /** The critical section of queueAdd, after its wait loop. */
    method AddLocked(x: PacketRef)
      requires Valid() && !full
      modifies this, buf
      ensures Valid() && View() == old(View()).Put(x)
      ensures Contents() == old(Contents()) + [x]
    {
      PutRefinesEnqueue(View(), x);
      buf[tail] := x;
      tail := tail + 1;
      if tail == buf.Length {
        tail := 0;
      }
      if tail == head {
        full := true;
      }
      empty := false;
    }

    /** The critical section that queueRemBlock and queueRemNonBlock share. */
    method RemoveLocked() returns (x: PacketRef)
      requires Valid() && !empty
      modifies this
      ensures Valid() && View() == old(View()).Take()
      ensures old(Contents()) == [x] + Contents()
    {
      TakeRefinesDequeue(View());
      x := buf[head];
      head := head + 1;
      if head == buf.Length {
        head := 0;
      }
      if head == tail {
        empty := true;
      }
      full := false;
    }

    /** Other threads' calls, run while the caller sleeps and the mutex is released. */
    method Interfere(ops: seq<Op>)
      requires Valid()
      modifies this, buf
      ensures Valid() && Contents() == Apply(old(Contents()), ops, buf.Length).contents
    {
      var k := 0;
      while k < |ops|
        invariant k <= |ops| && Valid()
        invariant Apply(Contents(), ops[k..], buf.Length).contents
               == Apply(old(Contents()), ops, buf.Length).contents
      {
        assert ops[k..][0] == ops[k] && ops[k..][1..] == ops[k + 1..];
        EmptyAndFull(View());
        match ops[k] {
          case OtherAdd(x) =>
            if !full {
              AddLocked(x);
            }
          case OtherRemove =>
            if !empty {
              ghost var was := Contents();
              var x := RemoveLocked();
              assert was[1..] == Contents();
            }
        }
        k := k + 1;
      }
    }

    /** queueAdd. Returns whether the item was added before the trace of wakes ran out. */
    method QueueAdd(x: PacketRef, wakes: seq<seq<Op>>) returns (added: bool)
      requires Valid()
      modifies this, buf
      ensures Valid()
      ensures var (end, c) := WaitNotFull(old(Contents()), wakes, buf.Length);
              added == end.Ready? && Contents() == if added then c + [x] else c
    {
      var k := 0;
      EmptyAndFull(View());
      while full && k < |wakes|
        invariant k <= |wakes| && Valid()
        invariant full <==> |Contents()| == buf.Length
        invariant WaitNotFull(Contents(), wakes[k..], buf.Length)
               == WaitNotFull(old(Contents()), wakes, buf.Length)
      {
        assert wakes[k..][1..] == wakes[k + 1..];
        Interfere(wakes[k]);
        EmptyAndFull(View());
        k := k + 1;
      }
      added := !full;
      if added {
        AddLocked(x);
      }
    }

    /** queueRemNonBlock. Asleep is set when the trace of wakes ran out before the call returned. */
    method QueueRemNonBlock(wakes: seq<Wake>) returns (rc: int, out: Option<PacketRef>, asleep: bool)
      requires Valid()
      modifies this, buf
      ensures Valid()
      ensures var (end, c) := WaitNotEmpty(old(Contents()), wakes, buf.Length);
              && (asleep <==> end.Asleep?)
              && (rc == if end.Ready? then 0 else -1)
              && (end.Ready? ==> out.Some? && c == [out.value] + Contents())
              && (!end.Ready? ==> out.None? && c == Contents())
    {
      var k := 0;
      EmptyAndFull(View());
      while empty && k < |wakes|
        invariant k <= |wakes| && Valid()
        invariant empty <==> Contents() == []
        invariant WaitNotEmpty(Contents(), wakes[k..], buf.Length)
               == WaitNotEmpty(old(Contents()), wakes, buf.Length)
      {
        assert wakes[k..][0] == wakes[k] && wakes[k..][1..] == wakes[k + 1..];
        if wakes[k].result == TimedOut {
          Interfere(wakes[k].others);
          return Q_ERR, None, false;
        }
        if wakes[k].result == Signalled {
          Interfere(wakes[k].others);
          EmptyAndFull(View());
        }
        k := k + 1;
      }
      if empty {
        return Q_ERR, None, true;
      }
      var x := RemoveLocked();
      return Q_OK, Some(x), false;
    }

    /** queueRemBlock: the same dequeue, with no way to time out. */
    method QueueRemBlock(wakes: seq<seq<Op>>) returns (out: Option<PacketRef>)
      requires Valid()
      modifies this, buf
      ensures Valid()
      ensures var (end, c) := WaitNotEmpty(old(Contents()), OnlySignals(wakes), buf.Length);
              && !end.Expired?
              && (end.Ready? ==> out.Some? && c == [out.value] + Contents())
              && (end.Asleep? ==> out.None? && c == Contents())
    {
      ghost var signals := OnlySignals(wakes);
      SignalsNeverExpire(Contents(), signals, buf.Length);
      var k := 0;
      EmptyAndFull(View());
      while empty && k < |wakes|
        invariant k <= |wakes| && Valid()
        invariant empty <==> Contents() == []
        invariant WaitNotEmpty(Contents(), signals[k..], buf.Length)
               == WaitNotEmpty(old(Contents()), signals, buf.Length)
      {
        assert signals[k..][0] == signals[k] && signals[k..][1..] == signals[k + 1..];
        Interfere(wakes[k]);
        EmptyAndFull(View());
        k := k + 1;
      }
      if empty {
        return None;
      }
      var x := RemoveLocked();
      return Some(x);
    }
  }
}
