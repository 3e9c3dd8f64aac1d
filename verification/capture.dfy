/**
 * readFromSocket of src/capture/capture_bluez.c: the capture loop of one connected remote.
 *
 * A session is driven by a trace of polls, one per turn of the loop. When the trace is used up the
 * loop is stopped by __io_canceled if `cancelled` is set; otherwise it is still running.
 */
module Capture {
  import opened Prelude
  import opened LircCallback

  const MAXBUFFERSIZE := 1024

  /** What ppoll and recv do in one turn: nothing within a second, data, or an end of the connection. */
  datatype Poll = Empty | Data(packet: bytes) | Closed

  /** How a session ends: the source's return codes 0, 1 and 2, or not yet. */
  datatype End = Cancelled | Disconnected | TimedOut | Running

  /** What recv leaves in the buffer: never more than fits, and never nothing. */
  predicate Receives(p: Poll) {
    p.Data? && p.packet != []
  }

  function Received(p: Poll): bytes
    requires p.Data?
  {
    if |p.packet| <= MAXBUFFERSIZE then p.packet else p.packet[..MAXBUFFERSIZE]
  }

  /** The packets of the positive receives, in order. */
  function Delivered(polls: seq<Poll>): seq<bytes> {
    if polls == [] then []
    else
      var n := |polls| - 1;
      Delivered(polls[..n]) + if Receives(polls[n]) then [Received(polls[n])] else []
  }

  /** The battery charges of the packets, in percent, in order. */
  function Charges(packets: seq<bytes>): seq<int> {
    if packets == [] then []
    else
      var n := |packets| - 1;
      Charges(packets[..n]) + if HasCharge(packets[n]) then [packets[n][12] * 20] else []
  }

  predicate HasCharge(packet: bytes) {
    |packet| > 12 && packet[12] <= 5
  }

  /** Every reported charge is a multiple of 20 between 0 and 100. */
  lemma {:induction false} ChargesAreSteps(packets: seq<bytes>)
    ensures forall i :: 0 <= i < |Charges(packets)| ==> Charges(packets)[i] in {0, 20, 40, 60, 80, 100}
  {
    if packets != [] {
      ChargesAreSteps(packets[..|packets| - 1]);
    }
  }

  /** The last n polls before position k were all empty. */
  ghost predicate EmptyRun(polls: seq<Poll>, k: nat, n: nat) {
    n <= k <= |polls| && forall i :: k - n <= i < k ==> polls[i].Empty?
  }

  /** More than timeout empty polls in a row end at k; a negative timeout is over at once. */
  ghost predicate LongSilence(polls: seq<Poll>, k: nat, timeout: int) {
    EmptyRun(polls, k, TooMany(timeout))
  }

  function TooMany(timeout: int): nat {
    if timeout < 0 then 0 else timeout + 1
  }

  /** The remote is still there before poll k: it never hung up and was never silent for longer than the timeout. */
  ghost predicate AliveUntil(polls: seq<Poll>, k: nat, timeout: int) {
    && k <= |polls|
    && (forall i :: 0 <= i < k ==> polls[i].Empty? || Receives(polls[i]))
    && (forall i: nat :: i < k ==> !LongSilence(polls, i, timeout))
  }

  /** How many polls before position k were empty, since the last one that was not. */
  function Silence(polls: seq<Poll>, k: nat): (n: nat)
    requires k <= |polls|
    ensures n <= k
  {
    if k == 0 || !polls[k - 1].Empty? then 0 else 1 + Silence(polls, k - 1)
  }

  lemma {:induction false} SilenceIsEmptyRun(polls: seq<Poll>, k: nat, n: nat)
    requires k <= |polls|
    ensures EmptyRun(polls, k, n) <==> n <= Silence(polls, k)
  {
    if n > 0 && k > 0 && polls[k - 1].Empty? {
      SilenceIsEmptyRun(polls, k - 1, n - 1);
    }
  }

  /** Every packet of 13 bytes or more with a battery byte up to 5 is one report, of 20 percent a step. */
  lemma ChargesSnoc(packets: seq<bytes>, p: bytes)
    ensures Charges(packets + [p]) == Charges(packets) + if |p| >= 13 && p[12] <= 5 then [p[12] * 20] else []
  {
    assert (packets + [p])[..|packets|] == packets;
  }

  /** How a session over the polls ends, and after how many of them. */
  ghost predicate Outcome(polls: seq<Poll>, cancelled: bool, timeout: int, end: End, used: nat) {
    && AliveUntil(polls, if end.Disconnected? && used > 0 then used - 1 else used, timeout)
    && match end
       case TimedOut => LongSilence(polls, used, timeout) && (used < |polls| || !cancelled)
       case Disconnected =>
         && 0 < used <= |polls| && !LongSilence(polls, used - 1, timeout)
         && !polls[used - 1].Empty? && !Receives(polls[used - 1])
       case Cancelled => cancelled && used == |polls|
       case Running => !cancelled && used == |polls| && !LongSilence(polls, used, timeout)
  }

  /** The loop after k polls: what it has handed on, and its count of empty polls. */
  ghost predicate Progress(polls: seq<Poll>, timeout: int, k: nat, delivered: seq<bytes>, numberOfSeconds: int) {
    && AliveUntil(polls, k, timeout)
    && delivered == Delivered(polls[..k]) && numberOfSeconds == Silence(polls, k)
  }

  lemma NothingPolled(polls: seq<Poll>, timeout: int)
    ensures Progress(polls, timeout, 0, [], 0) && Charges([]) == []
  {
  }

  /** One more poll. */
  lemma NextPoll(polls: seq<Poll>, cancelled: bool, timeout: int, k: nat, delivered: seq<bytes>, numberOfSeconds: int)
    requires Progress(polls, timeout, k, delivered, numberOfSeconds) && k < |polls| && numberOfSeconds <= timeout
    ensures polls[k].Empty? ==> Progress(polls, timeout, k + 1, delivered, numberOfSeconds + 1)
    ensures Receives(polls[k]) ==> Progress(polls, timeout, k + 1, delivered + [Received(polls[k])], 0)
    ensures !polls[k].Empty? && !Receives(polls[k]) ==>
              Ends(polls, cancelled, timeout, Disconnected, k + 1, delivered)
  {
    SilenceIsEmptyRun(polls, k, TooMany(timeout));
    assert polls[..k + 1][..k] == polls[..k];
  }

  /** Every poll with data is one packet, whole if it fits the buffer of 1024 bytes, and else its front. */
  lemma DeliveredSnoc(polls: seq<Poll>, p: Poll)
    ensures Delivered(polls + [p]) == Delivered(polls) +
              if p.Data? && p.packet != [] then [p.packet[..if |p.packet| <= 1024 then |p.packet| else 1024]] else []
  {
    assert (polls + [p])[..|polls|] == polls;
    assert p.Data? ==> p.packet[..|p.packet|] == p.packet;
  }

  /** The session is over, or as far as the polls go, with the packets it should have delivered. */
  ghost predicate Ends(polls: seq<Poll>, cancelled: bool, timeout: int, end: End, used: nat, delivered: seq<bytes>) {
    Outcome(polls, cancelled, timeout, end, used) && used <= |polls| && delivered == Delivered(polls[..used])
  }

  /** Where the loop can end without another poll. */
  lemma NoMorePolls(polls: seq<Poll>, cancelled: bool, timeout: int, k: nat, delivered: seq<bytes>,
                    numberOfSeconds: int)
    requires Progress(polls, timeout, k, delivered, numberOfSeconds)
    ensures k <= |polls|
    ensures cancelled && k == |polls| ==> Ends(polls, cancelled, timeout, Cancelled, k, delivered)
    ensures numberOfSeconds > timeout && (k < |polls| || !cancelled) ==>
              Ends(polls, cancelled, timeout, TimedOut, k, delivered)
    ensures numberOfSeconds <= timeout && k == |polls| && !cancelled ==>
              Ends(polls, cancelled, timeout, Running, k, delivered)
  {
    SilenceIsEmptyRun(polls, k, TooMany(timeout));
  }

  /** The outcome is determined by the polls. */
  lemma OutcomeIsUnique(polls: seq<Poll>, cancelled: bool, timeout: int, end: End, used: nat, end': End, used': nat)
    requires Outcome(polls, cancelled, timeout, end, used) && Outcome(polls, cancelled, timeout, end', used')
    ensures end == end' && used == used'
  {
    OutcomeNotLater(polls, cancelled, timeout, end, used, end', used');
    OutcomeNotLater(polls, cancelled, timeout, end', used', end, used);
  }

  lemma OutcomeNotLater(polls: seq<Poll>, cancelled: bool, timeout: int, end: End, used: nat, end': End, used': nat)
    requires Outcome(polls, cancelled, timeout, end, used) && Outcome(polls, cancelled, timeout, end', used')
    ensures used <= used'
  {
  }

  /** A long silence is one poll more than the timeout, in seconds, without an answer. */
  lemma LongSilenceIs(polls: seq<Poll>, k: nat, timeout: int)
    ensures LongSilence(polls, k, timeout) <==>
              && timeout + 1 <= k <= |polls|
              && forall i :: 0 <= i && k - timeout - 1 <= i < k ==> polls[i].Empty?
  {
  }

  /** The first silence longer than the timeout ends at k. */
  ghost predicate FirstSilence(polls: seq<Poll>, k: nat, timeout: int) {
    LongSilence(polls, k, timeout) && forall i: nat :: i < k ==> !LongSilence(polls, i, timeout)
  }

  /** Absent cancellation and hang-ups, a session times out exactly at the first long silence, if there is one. */
  lemma TimesOutAtFirstSilence(polls: seq<Poll>, timeout: int, end: End, used: nat)
    requires Outcome(polls, false, timeout, end, used)
    requires forall i :: 0 <= i < |polls| ==> polls[i].Empty? || Receives(polls[i])
    ensures end == TimedOut <==> exists k: nat :: FirstSilence(polls, k, timeout)
    ensures forall k: nat :: FirstSilence(polls, k, timeout) ==> used == k
  {
    if end == TimedOut {
      assert FirstSilence(polls, used, timeout);
    }
    forall k: nat | FirstSilence(polls, k, timeout)
      ensures used == k && end == TimedOut
    {
      OutcomeIsUnique(polls, false, timeout, end, used, TimedOut, k);
    }
  }

  class Session {
    const buffer: array<byte>
    const battery: BatteryState
    ghost var reports: seq<int>

    ghost predicate Valid()
      reads this, battery
    {
      buffer.Length == MAXBUFFERSIZE && battery.Saw(reports)
    }

    constructor ()
      ensures Valid() && fresh(buffer) && fresh(battery) && reports == []
    {
      buffer := new byte[MAXBUFFERSIZE](_ => 0);
      battery := new BatteryState();
      reports := [];
    }

    /** recv: overwrites the front of the one buffer. */
    method Recv(p: Poll) returns (len: int)
      requires Valid()
      modifies buffer
      ensures Valid()
      ensures len > 0 <==> Receives(p)
      ensures Receives(p) ==> len == (if |p.packet| <= 1024 then |p.packet| else 1024)
      ensures Receives(p) ==> len <= buffer.Length && buffer[..len] == p.packet[..len] == Received(p)
    {
      if !Receives(p) {
        return -1;
      }
      var data := Received(p);
      len := |data|;
      var i := 0;
      while i < len
        invariant 0 <= i <= len && Valid()
        invariant forall k :: 0 <= k < i ==> buffer[k] == data[k]
      {
        buffer[i] := data[i];
        i := i + 1;
      }
    }

    /** What follows a successful recv: the battery report, then DataInd with a copy of the received bytes. */
    method HandOver(len: int) returns (packet: bytes)
      requires Valid() && 0 < len <= buffer.Length
      modifies battery, this`reports
      ensures Valid() && packet == buffer[..len]
      ensures reports == old(reports) + if |packet| >= 13 && packet[12] <= 5 then [packet[12] * 20] else []
    {
      packet := buffer[..len];
      if len > 12 && buffer[12] <= 5 {
        battery.RemoteBatteryCharge(buffer[12] * 20, reports);
        reports := reports + [buffer[12] * 20];
      }
    }

    /** A poll that was not empty: recv, and if it delivered anything, what follows. */
    method Receive(p: Poll) returns (packet: Option<bytes>)
      requires Valid()
      modifies buffer, battery, this`reports
      ensures Valid() && (packet.Some? <==> Receives(p)) && (packet.Some? ==> packet.value == Received(p))
      ensures reports == old(reports) +
                if packet.Some? && |packet.value| >= 13 && packet.value[12] <= 5 then [packet.value[12] * 20] else []
    {
      var len := Recv(p);
      if len <= 0 {
        return None;
      }
      var copy := HandOver(len);
      return Some(copy);
    }

    /**
     * readFromSocket. `delivered` are the packets handed to DataInd, which copies them, so that the
     * next recv cannot change them; `used` is how many polls were made.
     */
    method ReadFromSocket(polls: seq<Poll>, cancelled: bool, timeout: int)
      returns (end: End, used: nat, delivered: seq<bytes>)
      requires Valid()
      modifies buffer, battery, this`reports
      ensures Valid() && Ends(polls, cancelled, timeout, end, used, delivered)
      ensures reports == old(reports) + Charges(delivered)
    {
      used, delivered := 0, [];
      NothingPolled(polls, timeout);
      var numberOfSeconds := 0;
      while true
        invariant Valid() && Progress(polls, timeout, used, delivered, numberOfSeconds)
        invariant reports == old(reports) + Charges(delivered)
        invariant used <= |polls|
        decreases |polls| - used
      {
        hide Progress, Ends, Charges, HasCharge, Receives, Received;
        NoMorePolls(polls, cancelled, timeout, used, delivered, numberOfSeconds);
        if cancelled && used == |polls| {
          return Cancelled, used, delivered;
        }
        if numberOfSeconds > timeout {
          return TimedOut, used, delivered;
        }
        if used == |polls| {
          return Running, used, delivered;
        }
        NextPoll(polls, cancelled, timeout, used, delivered, numberOfSeconds);
        var p := polls[used];
        used := used + 1;
        if p.Empty? {
          numberOfSeconds := numberOfSeconds + 1;
          continue;
        }
        numberOfSeconds := 0;
        var packet := Receive(p);
        if packet.None? {
          return Disconnected, used, delivered;
        }
        ChargesSnoc(delivered, packet.value);
        delivered := delivered + [packet.value];
      }
    }
  }
}
