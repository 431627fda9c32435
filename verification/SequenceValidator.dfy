/** The sequence validator: per-symbol running-maximum trackers and a failure log. */
module SequenceValidator {
  import opened Events

  datatype FailureKind = Malformed | SequenceGap | Ordering

  datatype Failure = Failure(line: int, symbol: string, kind: FailureKind, message: string)

  /** Highest depth final id, trade id and time seen for each symbol. */
  datatype Trackers = Trackers(depth: map<string, int>, trade: map<string, int>, time: map<string, int>)

  const NO_TRACKERS := Trackers(map[], map[], map[])

  const TIME_BACKWARDS := "event_time moved backwards for symbol"
  const DEPTH_GAP := "depth first_update_id does not continue after prior final_update_id"
  const DEPTH_STALLED := "depth final_update_id did not increase"
  const TRADE_GAP := "trade_id is not contiguous"
  const TRADE_STALLED := "trade_id did not increase"

  /** A decoded row the validator looks at: the empty filter selects every symbol. */
  predicate Selected(filter: string, rec: Record) {
    rec.Good? && (filter == "" || rec.event.symbol == filter)
  }

  // ----- One row -----

  function If(condition: bool, f: Failure): seq<Failure> {
    if condition then [f] else []
  }

  /** The failures one identifier check reports: a gap when `from` does not continue `last`,
      an ordering failure when `to` does not pass it. */
  function IdFailures(last: map<string, int>, ev: MarketEvent, from: int, to: int, gap: string,
                      stalled: string): seq<Failure> {
    if ev.symbol !in last then [] else
      If(from != last[ev.symbol] + 1, Failure(ev.line, ev.symbol, SequenceGap, gap))
      + If(to <= last[ev.symbol], Failure(ev.line, ev.symbol, Ordering, stalled))
  }

  function TimeFailures(t: Trackers, ev: MarketEvent): seq<Failure> {
    If(ev.symbol in t.time && ev.TimeMillis() < t.time[ev.symbol],
       Failure(ev.line, ev.symbol, Ordering, TIME_BACKWARDS))
  }

  function SequenceFailures(t: Trackers, ev: MarketEvent): seq<Failure> {
    match ev.kind
    case Depth => IdFailures(t.depth, ev, ev.firstUpdateID, ev.finalUpdateID, DEPTH_GAP, DEPTH_STALLED)
    case AggTrade => IdFailures(t.trade, ev, ev.tradeID, ev.tradeID, TRADE_GAP, TRADE_STALLED)
    case Unknown(_) => []
  }

  /** The failures `Process` appends for one row. */
  function Emit(filter: string, t: Trackers, rec: Record): seq<Failure> {
    if rec.Bad? then [Failure(rec.line, "", Malformed, rec.reason)]
    else if Selected(filter, rec) then TimeFailures(t, rec.event) + SequenceFailures(t, rec.event)
    else []
  }

  /** Running maximum with "absent" as the bottom value: what `Process` does to a tracker. */
  function Raise(m: map<string, int>, s: string, x: int): map<string, int> {
    if s !in m || x > m[s] then m[s := x] else m
  }

  /** Running maximum with "absent" read as zero: what `Prime` does to a tracker. */
  function RaiseFromZero(m: map<string, int>, s: string, x: int): map<string, int> {
    if x > (if s in m then m[s] else 0) then m[s := x] else m
  }

  /** The trackers after a selected event. */
  function AdvanceEvent(t: Trackers, ev: MarketEvent): Trackers {
    Trackers(
      if ev.kind.Depth? then Raise(t.depth, ev.symbol, ev.finalUpdateID) else t.depth,
      if ev.kind.AggTrade? then Raise(t.trade, ev.symbol, ev.tradeID) else t.trade,
      Raise(t.time, ev.symbol, ev.TimeMillis()))
  }

  function Advance(filter: string, t: Trackers, rec: Record): Trackers {
    if Selected(filter, rec) then AdvanceEvent(t, rec.event) else t
  }

  function PrimeOne(filter: string, t: Trackers, rec: Record): Trackers {
    if !Selected(filter, rec) then t else
      var ev := rec.event;
      Trackers(
        if ev.kind.Depth? then RaiseFromZero(t.depth, ev.symbol, ev.finalUpdateID) else t.depth,
        if ev.kind.AggTrade? then RaiseFromZero(t.trade, ev.symbol, ev.tradeID) else t.trade,
        RaiseFromZero(t.time, ev.symbol, ev.TimeMillis()))
  }

  // ----- Whole streams -----

  function Front<T>(s: seq<T>): seq<T> requires s != [] { s[..|s| - 1] }

  function Last<T>(s: seq<T>): T requires s != [] { s[|s| - 1] }

  function AdvanceAll(filter: string, t: Trackers, rs: seq<Record>): Trackers {
    if rs == [] then t else Advance(filter, AdvanceAll(filter, t, Front(rs)), Last(rs))
  }

  function PrimeAll(filter: string, t: Trackers, rs: seq<Record>): Trackers {
    if rs == [] then t else PrimeOne(filter, PrimeAll(filter, t, Front(rs)), Last(rs))
  }

  function EmitAll(filter: string, t: Trackers, rs: seq<Record>): seq<Failure> {
    if rs == [] then []
    else EmitAll(filter, t, Front(rs)) + Emit(filter, AdvanceAll(filter, t, Front(rs)), Last(rs))
  }

  function CountSelected(filter: string, rs: seq<Record>): nat {
    if rs == [] then 0
    else CountSelected(filter, Front(rs)) + (if Selected(filter, Last(rs)) then 1 else 0)
  }

  function CountKind(kind: FailureKind, fs: seq<Failure>): nat {
    if fs == [] then 0
    else CountKind(kind, Front(fs)) + (if Last(fs).kind == kind then 1 else 0)
  }

  function CountOf(counts: map<string, nat>, s: string): nat {
    if s in counts then counts[s] else 0
  }

  /** The event count of each symbol after one more row, and after a whole stream. */
  function Tally(filter: string, counts: map<string, nat>, rec: Record): map<string, nat> {
    if Selected(filter, rec) then counts[rec.event.symbol := CountOf(counts, rec.event.symbol) + 1] else counts
  }

  function TallyAll(filter: string, rs: seq<Record>): map<string, nat> {
    if rs == [] then map[] else Tally(filter, TallyAll(filter, Front(rs)), Last(rs))
  }

  /** The observable state of a validator after `Prime`/`Process` calls. */
  datatype View = View(rows: nat, events: nat, failures: seq<Failure>, trackers: Trackers)

  const FRESH := View(0, 0, [], NO_TRACKERS)

  function Processed(filter: string, v: View, rec: Record): View {
    View(v.rows + 1,
         v.events + (if Selected(filter, rec) then 1 else 0),
         v.failures + Emit(filter, v.trackers, rec),
         Advance(filter, v.trackers, rec))
  }

  function Primed(filter: string, v: View, rec: Record): View {
    v.(trackers := PrimeOne(filter, v.trackers, rec))
  }

  /** The state after processing `rs` with trackers that start at `t`. */
  function Report(filter: string, t: Trackers, rs: seq<Record>): View {
    View(|rs|, CountSelected(filter, rs), EmitAll(filter, t, rs), AdvanceAll(filter, t, rs))
  }

  // ----- Lemmas about streams -----

  lemma {:induction false} CountKindAppend(kind: FailureKind, a: seq<Failure>, b: seq<Failure>)
    ensures CountKind(kind, a + b) == CountKind(kind, a) + CountKind(kind, b)
  {
    if b == [] {
      assert a + b == a;
    } else {
      CountKindAppend(kind, a, Front(b));
      assert Front(a + b) == a + Front(b);
    }
  }

  lemma {:induction false} KindsAddUp(fs: seq<Failure>)
    ensures |fs| == CountKind(Malformed, fs) + CountKind(SequenceGap, fs) + CountKind(Ordering, fs)
  {
    if fs != [] {
      KindsAddUp(Front(fs));
    }
  }

  lemma {:induction false} AdvanceAppend(filter: string, t: Trackers, a: seq<Record>, b: seq<Record>)
    ensures AdvanceAll(filter, t, a + b) == AdvanceAll(filter, AdvanceAll(filter, t, a), b)
  {
    if b == [] {
      assert a + b == a;
    } else {
      AdvanceAppend(filter, t, a, Front(b));
      assert Front(a + b) == a + Front(b);
    }
  }

  lemma Assoc<T>(a: seq<T>, b: seq<T>, c: seq<T>)
    ensures a + b + c == a + (b + c)
  {
  }

  lemma SnocSplit<T>(a: seq<T>, b: seq<T>)
    requires b != []
    ensures a + b != [] && Front(a + b) == a + Front(b) && Last(a + b) == Last(b)
  {
  }

  lemma EmitAllLast(filter: string, t: Trackers, rs: seq<Record>)
    requires rs != []
    ensures EmitAll(filter, t, rs)
         == EmitAll(filter, t, Front(rs)) + Emit(filter, AdvanceAll(filter, t, Front(rs)), Last(rs))
  {
  }

  lemma ReportLast(filter: string, t: Trackers, rs: seq<Record>)
    requires rs != []
    ensures Report(filter, t, rs) == Processed(filter, Report(filter, t, Front(rs)), Last(rs))
  {
    EmitAllLast(filter, t, rs);
  }

  lemma {:induction false} EmitAppend(filter: string, t: Trackers, a: seq<Record>, b: seq<Record>)
    ensures EmitAll(filter, t, a + b) == EmitAll(filter, t, a) + EmitAll(filter, AdvanceAll(filter, t, a), b)
  {
    if b == [] {
      assert a + b == a;
    } else {
      var mid := AdvanceAll(filter, t, a);
      assert AdvanceAll(filter, t, a + Front(b)) == AdvanceAll(filter, mid, Front(b)) by {
        AdvanceAppend(filter, t, a, Front(b));
      }
      EmitAppend(filter, t, a, Front(b));
      SnocSplit(a, b);
      EmitAllLast(filter, t, a + b);
      EmitAllLast(filter, mid, b);
      Assoc(EmitAll(filter, t, a), EmitAll(filter, mid, Front(b)),
          Emit(filter, AdvanceAll(filter, mid, Front(b)), Last(b)));
    }
  }

  lemma {:induction false} CountSelectedAppend(filter: string, a: seq<Record>, b: seq<Record>)
    ensures CountSelected(filter, a + b) == CountSelected(filter, a) + CountSelected(filter, b)
  {
    if b == [] {
      assert a + b == a;
    } else {
      CountSelectedAppend(filter, a, Front(b));
      assert Front(a + b) == a + Front(b);
    }
  }

  /** A symbol's count in a run that selects it is the event count of the run filtered to it. */
  lemma {:induction false} TallyCounts(filter: string, rs: seq<Record>, s: string)
    requires s != "" && (filter == "" || filter == s)
    ensures CountOf(TallyAll(filter, rs), s) == CountSelected(s, rs)
  {
    if rs != [] {
      TallyCounts(filter, Front(rs), s);
    }
  }

  // ----- The object the source keeps -----

  /** What processing a row comes to for malformed, filtered and selected rows. */
  lemma ProcessedCases(filter: string, v: View, rec: Record)
    ensures rec.Bad? ==>
            Processed(filter, v, rec)
                == v.(rows := v.rows + 1, failures := v.failures + [Failure(rec.line, "", Malformed, rec.reason)])
    ensures rec.Good? && !Selected(filter, rec) ==> Processed(filter, v, rec) == v.(rows := v.rows + 1)
    ensures Selected(filter, rec) ==>
              Processed(filter, v, rec) == View(v.rows + 1, v.events + 1,
                v.failures + (TimeFailures(v.trackers, rec.event) + SequenceFailures(v.trackers, rec.event)),
                    Advance(filter, v.trackers, rec))
  {
  }

  class Validator {
    const filter: string
    var rows: nat
    var events: nat
    var malformedEvents: nat
    var sequenceGaps: nat
    var orderingFailures: nat
    var symbolEventCounts: map<string, nat>
    var failures: seq<Failure>
    var lastDepth: map<string, int>
    var lastTrade: map<string, int>
    var lastTimeMS: map<string, int>

    /** Every counter is the number of logged failures of its kind. */
    ghost predicate Valid()
      reads this
    {
      && malformedEvents == CountKind(Malformed, failures)
      && sequenceGaps == CountKind(SequenceGap, failures)
      && orderingFailures == CountKind(Ordering, failures)
    }

    ghost function Seen(): View
      reads this
    {
      View(rows, events, failures, Trackers(lastDepth, lastTrade, lastTimeMS))
    }

    constructor (filter: string)
      ensures Valid() && Seen() == FRESH && this.filter == filter && symbolEventCounts == map[]
    {
      this.filter := filter;
      rows, events, malformedEvents, sequenceGaps, orderingFailures := 0, 0, 0, 0, 0;
      symbolEventCounts, failures := map[], [];
      lastDepth, lastTrade, lastTimeMS := map[], map[], map[];
    }

    method AddFailure(line: int, symbol: string, kind: FailureKind, message: string)
      requires malformedEvents == CountKind(Malformed, failures) + (if kind.Malformed? then 1 else 0)
      requires sequenceGaps == CountKind(SequenceGap, failures) + (if kind.SequenceGap? then 1 else 0)
      requires orderingFailures == CountKind(Ordering, failures) + (if kind.Ordering? then 1 else 0)
      modifies this`failures
      ensures Valid()
      ensures failures == old(failures) + [Failure(line, symbol, kind, message)]
    {
      failures := failures + [Failure(line, symbol, kind, message)];
      assert Front(failures) == old(failures);
    }

    method CheckTime(ev: MarketEvent)
      requires Valid()
      modifies this`orderingFailures, this`failures, this`lastTimeMS
      ensures Valid()
      ensures failures == old(failures) + TimeFailures(old(Seen().trackers), ev)
      ensures lastTimeMS == Raise(old(lastTimeMS), ev.symbol, ev.TimeMillis())
    {
      var eventTime := ev.TimeMillis();
      var ok := ev.symbol in lastTimeMS;
      if ok && eventTime < lastTimeMS[ev.symbol] {
        orderingFailures := orderingFailures + 1;
        AddFailure(ev.line, ev.symbol, Ordering, TIME_BACKWARDS);
      }
      if !ok || eventTime > lastTimeMS[ev.symbol] {
        lastTimeMS := lastTimeMS[ev.symbol := eventTime];
      }
    }

    method CheckDepthSequence(ev: MarketEvent)
      requires Valid() && ev.kind.Depth?
      modifies this`sequenceGaps, this`orderingFailures, this`failures, this`lastDepth
      ensures Valid()
      ensures failures
              == old(failures)
                  + IdFailures(old(lastDepth), ev, ev.firstUpdateID, ev.finalUpdateID, DEPTH_GAP, DEPTH_STALLED)
      ensures lastDepth == Raise(old(lastDepth), ev.symbol, ev.finalUpdateID)
    {
      var ok := ev.symbol in lastDepth;
      ghost var was := failures;
      ghost var gap :=
        If(ok && ev.firstUpdateID != lastDepth[ev.symbol] + 1, Failure(ev.line, ev.symbol, SequenceGap, DEPTH_GAP));
      ghost var stalled :=
        If(ok && ev.finalUpdateID <= lastDepth[ev.symbol], Failure(ev.line, ev.symbol, Ordering, DEPTH_STALLED));
      if ok && ev.firstUpdateID != lastDepth[ev.symbol] + 1 {
        sequenceGaps := sequenceGaps + 1;
        AddFailure(ev.line, ev.symbol, SequenceGap, DEPTH_GAP);
      }
      assert failures == was + gap;
      if ok && ev.finalUpdateID <= lastDepth[ev.symbol] {
        orderingFailures := orderingFailures + 1;
        AddFailure(ev.line, ev.symbol, Ordering, DEPTH_STALLED);
      }
      assert failures == was + gap + stalled;
      Assoc(was, gap, stalled);
      if !ok || ev.finalUpdateID > lastDepth[ev.symbol] {
        lastDepth := lastDepth[ev.symbol := ev.finalUpdateID];
      }
    }

    method CheckTradeSequence(ev: MarketEvent)
      requires Valid() && ev.kind.AggTrade?
      modifies this`sequenceGaps, this`orderingFailures, this`failures, this`lastTrade
      ensures Valid()
      ensures failures
              == old(failures) + IdFailures(old(lastTrade), ev, ev.tradeID, ev.tradeID, TRADE_GAP, TRADE_STALLED)
      ensures lastTrade == Raise(old(lastTrade), ev.symbol, ev.tradeID)
    {
      var ok := ev.symbol in lastTrade;
      ghost var was := failures;
      ghost var gap :=
        If(ok && ev.tradeID != lastTrade[ev.symbol] + 1, Failure(ev.line, ev.symbol, SequenceGap, TRADE_GAP));
      ghost var stalled :=
        If(ok && ev.tradeID <= lastTrade[ev.symbol], Failure(ev.line, ev.symbol, Ordering, TRADE_STALLED));
      if ok && ev.tradeID != lastTrade[ev.symbol] + 1 {
        sequenceGaps := sequenceGaps + 1;
        AddFailure(ev.line, ev.symbol, SequenceGap, TRADE_GAP);
      }
      assert failures == was + gap;
      if ok && ev.tradeID <= lastTrade[ev.symbol] {
        orderingFailures := orderingFailures + 1;
        AddFailure(ev.line, ev.symbol, Ordering, TRADE_STALLED);
      }
      assert failures == was + gap + stalled;
      Assoc(was, gap, stalled);
      if !ok || ev.tradeID > lastTrade[ev.symbol] {
        lastTrade := lastTrade[ev.symbol := ev.tradeID];
      }
    }

    method CheckEvent(ev: MarketEvent)
      requires Valid()
      modifies this`sequenceGaps, this`orderingFailures, this`failures, this`lastDepth, this`lastTrade, this`lastTimeMS
      ensures Valid()
      ensures failures
              == old(failures) + (TimeFailures(old(Seen().trackers), ev) + SequenceFailures(old(Seen().trackers), ev))
      ensures lastDepth == if ev.kind.Depth? then Raise(old(lastDepth), ev.symbol, ev.finalUpdateID) else old(lastDepth)
      ensures lastTrade == if ev.kind.AggTrade? then Raise(old(lastTrade), ev.symbol, ev.tradeID) else old(lastTrade)
      ensures lastTimeMS == Raise(old(lastTimeMS), ev.symbol, ev.TimeMillis())
    {
      ghost var was, t := failures, Seen().trackers;
      CheckTime(ev);
      if ev.kind.Depth? {
        CheckDepthSequence(ev);
      } else if ev.kind.AggTrade? {
        CheckTradeSequence(ev);
      } else {
        assert failures == failures + [];
      }
      Assoc(was, TimeFailures(t, ev), SequenceFailures(t, ev));
    }

    /** Check a row and record it. */
    method Process(rec: Record)
      requires Valid()
      modifies this
      ensures Valid()
      ensures Seen() == Processed(filter, old(Seen()), rec)
      ensures symbolEventCounts == Tally(filter, old(symbolEventCounts), rec)
    {
      ProcessedCases(filter, Seen(), rec);
      rows := rows + 1;
      if rec.Bad? {
        malformedEvents := malformedEvents + 1;
        AddFailure(rec.line, "", Malformed, rec.reason);
        return;
      }
      var ev := rec.event;
      if filter != "" && ev.symbol != filter {
        return;
      }
      ProcessEvent(ev);
    }

    /** Count a selected event and check it. */
    method ProcessEvent(ev: MarketEvent)
      requires Valid()
      modifies this
      ensures Valid() && rows == old(rows) && events == old(events) + 1
      ensures symbolEventCounts == old(symbolEventCounts)[ev.symbol := CountOf(old(symbolEventCounts), ev.symbol) + 1]
      ensures failures == old(failures)
                + (TimeFailures(old(Seen().trackers), ev) + SequenceFailures(old(Seen().trackers), ev))
      ensures Seen().trackers == AdvanceEvent(old(Seen().trackers), ev)
    {
      events := events + 1;
      symbolEventCounts := symbolEventCounts[ev.symbol := CountOf(symbolEventCounts, ev.symbol) + 1];
      CheckEvent(ev);
    }

    /** Only move the trackers: used for rows at or below a checkpoint. */
    method Prime(rec: Record)
      requires Valid()
      modifies this`lastDepth, this`lastTrade, this`lastTimeMS
      ensures Valid()
      ensures Seen() == Primed(filter, old(Seen()), rec)
    {
      if rec.Bad? {
        return;
      }
      var ev := rec.event;
      if filter != "" && ev.symbol != filter {
        return;
      }
      var eventTime := ev.TimeMillis();
      if eventTime > (if ev.symbol in lastTimeMS then lastTimeMS[ev.symbol] else 0) {
        lastTimeMS := lastTimeMS[ev.symbol := eventTime];
      }
      if ev.kind.Depth? {
        if ev.finalUpdateID > (if ev.symbol in lastDepth then lastDepth[ev.symbol] else 0) {
          lastDepth := lastDepth[ev.symbol := ev.finalUpdateID];
        }
      } else if ev.kind.AggTrade? {
        if ev.tradeID > (if ev.symbol in lastTrade then lastTrade[ev.symbol] else 0) {
          lastTrade := lastTrade[ev.symbol := ev.tradeID];
        }
      }
    }
  }

  /** Validate a whole stream from scratch. */
  method Stream(rs: seq<Record>, filter: string) returns (v: Validator)
    ensures fresh(v) && v.Valid() && v.filter == filter
    ensures v.Seen() == Report(filter, NO_TRACKERS, rs)
    ensures forall s :: s != "" && (filter == "" || filter == s) ==>
            CountOf(v.symbolEventCounts, s) == CountSelected(s, rs)
    ensures v.symbolEventCounts == TallyAll(filter, rs)
  {
    v := new Validator(filter);
    for i := 0 to |rs|
      invariant fresh(v) && v.Valid() && v.filter == filter
      invariant v.Seen() == Report(filter, NO_TRACKERS, rs[..i]) && v.symbolEventCounts == TallyAll(filter, rs[..i])
    {
      v.Process(rs[i]);
      assert Front(rs[..i + 1]) == rs[..i];
      ReportLast(filter, NO_TRACKERS, rs[..i + 1]);
    }
    assert rs[..|rs|] == rs;
    forall s | s != "" && (filter == "" || filter == s)
        ensures CountOf(v.symbolEventCounts, s) == CountSelected(s, rs) {
      TallyCounts(filter, rs, s);
    }
  }
}
