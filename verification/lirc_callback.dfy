/** src/lirc_callback.c: the battery reports. DataInd, the other callback, is a step of module Daemon. */
module LircCallback {
  /** One attempted call of the battery script: previous and current charge in percent. */
  datatype ScriptCall = ScriptCall(prev: int, now: int)

  /** The calls that a sequence of reports should cause: the first report, then every change. */
  function ExpectedCalls(reports: seq<int>): seq<ScriptCall> {
    if reports == [] then []
    else
      var n := |reports| - 1;
      var now := reports[n];
      ExpectedCalls(reports[..n]) +
      if n == 0 then [ScriptCall(now, now)]
      else if reports[n - 1] != now then [ScriptCall(reports[n - 1], now)]
      else []
  }

  class BatteryState {
    var chargePercent: int
    var chargePercentSet: bool
    var calls: seq<ScriptCall>

    /** What the state remembers of the reports so far. */
    ghost predicate Saw(reports: seq<int>)
      reads this
    {
      && (chargePercentSet <==> reports != [])
      && (reports != [] ==> chargePercent == reports[|reports| - 1])
      && calls == ExpectedCalls(reports)
    }

    /** initLircData. */
    constructor ()
      ensures Saw([]) && chargePercent == 100
    {
      chargePercent, chargePercentSet, calls := 100, false, [];
    }

    method CallBatteryChargeScript(prev: int, now: int)
      modifies `calls
      ensures calls == old(calls) + [ScriptCall(prev, now)]
    {
      calls := calls + [ScriptCall(prev, now)];
    }

    method RemoteBatteryCharge(val: int, ghost reports: seq<int>)
      requires Saw(reports)
      modifies this
      ensures Saw(reports + [val])
    {
      assert (reports + [val])[..|reports|] == reports;
      if chargePercentSet {
        if chargePercent != val {
          CallBatteryChargeScript(chargePercent, val);
          chargePercent := val;
        }
      } else {
        chargePercent := val;
        chargePercentSet := true;
        CallBatteryChargeScript(val, val);
      }
    }
  }

  function Nows(calls: seq<ScriptCall>): seq<int> {
    seq(|calls|, i requires 0 <= i < |calls| => calls[i].now)
  }

  /** A sequence without its stuttering: only the values that differ from the one before. */
  function Destutter(s: seq<int>): seq<int> {
    if |s| <= 1 then s
    else
      var n := |s| - 1;
      Destutter(s[..n]) + if s[n] == s[n - 1] then [] else [s[n]]
  }

  /** The calls report the charges without stuttering. */
  lemma {:induction false} NowsAreReports(reports: seq<int>)
    ensures Nows(ExpectedCalls(reports)) == Destutter(reports)
  {
    if reports != [] {
      var n := |reports| - 1;
      NowsAreReports(reports[..n]);
      var before, all := ExpectedCalls(reports[..n]), ExpectedCalls(reports);
      assert Nows(all)[..|before|] == Nows(before);
      if n == 0 {
        assert before == [] && Nows(all) == [reports[0]] == reports;
      } else if reports[n - 1] != reports[n] {
        assert Nows(all) == Nows(before) + [reports[n]];
      }
    }
  }

  /** Each call after the first starts from the charge that the call before it ended with, and changes it. */
  lemma {:induction false} CallsAreChained(reports: seq<int>)
    ensures var calls := ExpectedCalls(reports);
            && (reports != [] ==> calls != [] && calls[0] == ScriptCall(reports[0], reports[0])
                                  && calls[|calls| - 1].now == reports[|reports| - 1])
            && forall i :: 0 < i < |calls| ==> calls[i].prev == calls[i - 1].now && calls[i].prev != calls[i].now
  {
    if reports != [] {
      CallsAreChained(reports[..|reports| - 1]);
    }
  }
}
