/** Replay pacing: how long a replay sleeps between events. */
module Pacing {
  import opened Events
  import opened SequenceValidator

  datatype Speed = MaxSpeed | OneX | TenX

  const NANOS_PER_MILLI := 1_000_000

  /** The sleep before an event at `time`, in nanoseconds, when the previous event was at `previous`
      (0 when there was none). */
  function SleepFor(speed: Speed, previous: int, time: int): nat {
    if speed == MaxSpeed || time <= 0 || previous == 0 || time <= previous then 0
    else
      var sleep := (time - previous) * NANOS_PER_MILLI;
      if speed == TenX then sleep / 10 else sleep
  }

  /** Times of the events a replay of `symbol`, or of all symbols, paces: the event time where it is positive,
      the trade time otherwise. */
  function PacedTimes(rs: seq<Record>, symbol: string): seq<int> {
    if rs == [] then []
    else
      var before, rec := PacedTimes(Front(rs), symbol), Last(rs);
      if rec.Bad? || (symbol != "" && rec.event.symbol != symbol) then before
      else before + [if rec.event.eventTimeMS > 0 then rec.event.eventTimeMS else rec.event.tradeTimeMS]
  }

  /** Total sleep over the given event times. */
  function TotalSleep(speed: Speed, ts: seq<int>): nat {
    if |ts| == 0 then 0
    else TotalSleep(speed, Front(ts)) + SleepFor(speed, if |ts| == 1 then 0 else ts[|ts| - 2], Last(ts))
  }

  /** The time of the last event so far, or 0. */
  function PreviousTime(ts: seq<int>): int {
    if ts == [] then 0 else Last(ts)
  }

  lemma ReportStep(symbol: string, rs: seq<Record>, i: nat)
    requires i < |rs|
    ensures Report(symbol, NO_TRACKERS, rs[..i + 1]) == Processed(symbol, Report(symbol, NO_TRACKERS, rs[..i]), rs[i])
  {
    assert Front(rs[..i + 1]) == rs[..i];
    ReportLast(symbol, NO_TRACKERS, rs[..i + 1]);
  }

  lemma PacedStep(speed: Speed, rs: seq<Record>, symbol: string, i: nat)
    requires i < |rs|
    ensures var before, after := PacedTimes(rs[..i], symbol), PacedTimes(rs[..i + 1], symbol);
            && (!Selected(symbol, rs[i]) ==> after == before)
            && (Selected(symbol, rs[i]) ==>
                  && PreviousTime(after) == rs[i].event.TimeMillis()
                  && TotalSleep(speed, after)
                    == TotalSleep(speed, before) + SleepFor(speed, PreviousTime(before), rs[i].event.TimeMillis()))
  {
    assert Front(rs[..i + 1]) == rs[..i];
    if Selected(symbol, rs[i]) {
      var before, after := PacedTimes(rs[..i], symbol), PacedTimes(rs[..i + 1], symbol);
      assert after == before + [rs[i].event.TimeMillis()] && Front(after) == before;
    }
  }

  /** Replay a stream: validate every row, sleep before every paced event. */
  method Replay(rs: seq<Record>, symbol: string, speed: Speed) returns (v: Validator, slept: nat)
    ensures fresh(v) && v.Valid() && v.Seen() == Report(symbol, NO_TRACKERS, rs)
    ensures slept == TotalSleep(speed, PacedTimes(rs, symbol))
  {
    v := new Validator(symbol);
    slept := 0;
    var previous := 0;
    for i := 0 to |rs|
      invariant fresh(v) && v.Valid() && v.filter == symbol && v.Seen() == Report(symbol, NO_TRACKERS, rs[..i])
      invariant slept == TotalSleep(speed, PacedTimes(rs[..i], symbol))
      invariant previous == PreviousTime(PacedTimes(rs[..i], symbol))
    {
      v.Process(rs[i]);
      ReportStep(symbol, rs, i);
      PacedStep(speed, rs, symbol, i);
      if rs[i].Good? && (symbol == "" || rs[i].event.symbol == symbol) {
        var time := rs[i].event.TimeMillis();
        slept := slept + SleepFor(speed, previous, time);
        previous := time;
      }
    }
    assert rs[..|rs|] == rs;
  }

  /** The sum of the forward steps of a time line, in milliseconds. */
  function ForwardSteps(ts: seq<int>): nat {
    if |ts| <= 1 then 0
    else ForwardSteps(Front(ts)) + (if Last(ts) > ts[|ts| - 2] then Last(ts) - ts[|ts| - 2] else 0)
  }

  predicate NeverFalls(ts: seq<int>) {
    forall i {:trigger ts[i]} :: 0 < i < |ts| ==> ts[i - 1] <= ts[i]
  }

  predicate NeverRises(ts: seq<int>) {
    forall i {:trigger ts[i]} :: 0 < i < |ts| ==> ts[i - 1] >= ts[i]
  }

  predicate PositiveTimes(ts: seq<int>) {
    forall i :: 0 <= i < |ts| ==> ts[i] > 0
  }

  lemma {:induction false} PacedTimesPositive(rs: seq<Record>, symbol: string)
    requires ShapedStream(rs)
    ensures PositiveTimes(PacedTimes(rs, symbol))
  {
    if rs != [] {
      PacedTimesPositive(Front(rs), symbol);
      assert ShapedRecord(Last(rs));
    }
  }

  lemma {:induction false} OneXIsForwardSteps(ts: seq<int>)
    requires PositiveTimes(ts)
    ensures TotalSleep(OneX, ts) == ForwardSteps(ts) * NANOS_PER_MILLI
  {
    if |ts| > 1 {
      OneXIsForwardSteps(Front(ts));
      assert ts[|ts| - 2] > 0;
    } else if |ts| == 1 {
      assert TotalSleep(OneX, Front(ts)) == 0;
    }
  }

  lemma {:induction false} Telescopes(ts: seq<int>)
    requires ts != [] && NeverFalls(ts)
    ensures ForwardSteps(ts) == Last(ts) - ts[0]
  {
    if |ts| > 1 {
      Telescopes(Front(ts));
      assert ts[|ts| - 1] >= ts[|ts| - 2];
    }
  }

  /** Times that never rise cost nothing. */
  lemma {:induction false} FallingCostsNothing(ts: seq<int>)
    requires NeverRises(ts)
    ensures ForwardSteps(ts) == 0
  {
    if |ts| > 1 {
      FallingCostsNothing(Front(ts));
      assert ts[|ts| - 2] >= ts[|ts| - 1];
    }
  }

  /** The steps of a time line are those before a point and those from it on. */
  lemma {:induction false} StepsSplit(ts: seq<int>, us: seq<int>)
    requires ts != []
    ensures ForwardSteps(ts + us) == ForwardSteps(ts) + ForwardSteps([Last(ts)] + us)
    decreases |us|
  {
    if us == [] {
      assert ts + us == ts && [Last(ts)] + us == [Last(ts)];
    } else {
      StepsSplit(ts, Front(us));
      SnocSplit(ts, us);
      SnocSplit([Last(ts)], us);
      var a, b := ts + us, [Last(ts)] + us;
      assert a[|a| - 2] == b[|b| - 2];
    }
  }

  lemma TenthOfSleep(previous: int, time: int)
    ensures 10 * SleepFor(TenX, previous, time) == SleepFor(OneX, previous, time)
  {
    var delta := time - previous;
    assert delta * NANOS_PER_MILLI == 10 * (delta * 100_000);
  }

  /** Ten times the 10x total is the 1x total, for any times whatever. */
  lemma {:induction false} TenXIsOneTenth(ts: seq<int>)
    ensures 10 * TotalSleep(TenX, ts) == TotalSleep(OneX, ts)
  {
    if ts != [] {
      TenXIsOneTenth(Front(ts));
      TenthOfSleep(if |ts| == 1 then 0 else ts[|ts| - 2], Last(ts));
    }
  }

  lemma {:induction false} MaxNeverSleeps(ts: seq<int>)
    ensures TotalSleep(MaxSpeed, ts) == 0
  {
    if ts != [] {
      MaxNeverSleeps(Front(ts));
    }
  }

  /** PACING. For parsed rows the 1x replay sleeps exactly the forward time steps of the matching events,
      which for non-decreasing times is the distance from first to last; the 10x replay sleeps exactly one
      tenth of that, and malformed or filtered rows add nothing. */
  lemma PacingIsExact(rs: seq<Record>, symbol: string)
    requires ShapedStream(rs)
    ensures var ts := PacedTimes(rs, symbol);
            && TotalSleep(OneX, ts) == ForwardSteps(ts) * 1_000_000
            && 10 * TotalSleep(TenX, ts) == TotalSleep(OneX, ts)
            && TotalSleep(MaxSpeed, ts) == 0
            && (ts != [] && NeverFalls(ts) ==>
                  TotalSleep(OneX, ts) == (Last(ts) - ts[0]) * 1_000_000)
            && (NeverRises(ts) ==> TotalSleep(OneX, ts) == 0)
  {
    var ts := PacedTimes(rs, symbol);
    PacedTimesPositive(rs, symbol);
    OneXIsForwardSteps(ts);
    TenXIsOneTenth(ts);
    MaxNeverSleeps(ts);
    if ts != [] && NeverFalls(ts) {
      Telescopes(ts);
    }
    if NeverRises(ts) {
      FallingCostsNothing(ts);
    }
  }
}
