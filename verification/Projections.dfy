/** What one symbol contributes to a stream, and the meaning of the trackers in those terms. */
module Projections {
  import opened Events
  import opened SequenceValidator

  /** The identifiers an event covers: a depth update's range, or a single trade id. */
  datatype Span = Span(from: int, to: int)

  predicate Watched(filter: string, s: string) {
    filter == "" || s == filter
  }

  predicate Covers(depth: bool, rec: Record, s: string) {
    && rec.Good? && rec.event.symbol == s
    && (if depth then rec.event.kind.Depth? else rec.event.kind.AggTrade?)
  }

  function SpanOf(depth: bool, ev: MarketEvent): Span {
    if depth then Span(ev.firstUpdateID, ev.finalUpdateID) else Span(ev.tradeID, ev.tradeID)
  }

  /** Identifier ranges of the depth (or trade) events of symbol `s`, in stream order. */
  function Spans(depth: bool, rs: seq<Record>, s: string): seq<Span> {
    if rs == [] then []
    else Spans(depth, Front(rs), s) + (if Covers(depth, Last(rs), s) then [SpanOf(depth, Last(rs).event)] else [])
  }

  /** Times of the events of symbol `s`, in stream order: the event time where it is positive, the trade time
      otherwise. */
  function Times(rs: seq<Record>, s: string): seq<int> {
    if rs == [] then []
    else
      var before, rec := Times(Front(rs), s), Last(rs);
      if rec.Bad? || rec.event.symbol != s then before
      else before + [if rec.event.eventTimeMS > 0 then rec.event.eventTimeMS else rec.event.tradeTimeMS]
  }

  function Ends(spans: seq<Span>): seq<int> {
    seq(|spans|, i requires 0 <= i < |spans| => spans[i].to)
  }

  /** `m` holds the maximum of `xs` for `s`, and nothing when `xs` is empty. */
  ghost predicate Tops(m: map<string, int>, s: string, xs: seq<int>) {
    && (s in m <==> xs != [])
    && (s in m ==> m[s] in xs && forall i :: 0 <= i < |xs| ==> xs[i] <= m[s])
  }

  lemma RaiseTops(m: map<string, int>, s: string, xs: seq<int>, key: string, x: int)
    requires Tops(m, s, xs)
    ensures Tops(Raise(m, key, x), s, if key == s then xs + [x] else xs)
  {
    if key == s {
      var ys := xs + [x];
      assert ys[|xs|] == x && (forall i :: 0 <= i < |xs| ==> ys[i] == xs[i]);
      assert s in m ==> m[s] in ys;
    }
  }

  lemma TimeStep(filter: string, t: Trackers, rec: Record, s: string, xs: seq<int>)
    requires Watched(filter, s) && Tops(t.time, s, xs)
    ensures Tops(Advance(filter, t, rec).time, s, if rec.Good?
            && rec.event.symbol == s then xs + [rec.event.TimeMillis()] else xs)
  {
    if Selected(filter, rec) {
      RaiseTops(t.time, s, xs, rec.event.symbol, rec.event.TimeMillis());
    }
  }

  lemma DepthStep(filter: string, t: Trackers, rec: Record, s: string, xs: seq<int>)
    requires Watched(filter, s) && Tops(t.depth, s, xs)
    ensures Tops(Advance(filter, t, rec).depth, s, if Covers(true, rec, s) then xs + [rec.event.finalUpdateID] else xs)
  {
    if Selected(filter, rec) {
      RaiseTops(t.depth, s, xs, rec.event.symbol, rec.event.finalUpdateID);
    }
  }

  lemma TradeStep(filter: string, t: Trackers, rec: Record, s: string, xs: seq<int>)
    requires Watched(filter, s) && Tops(t.trade, s, xs)
    ensures Tops(Advance(filter, t, rec).trade, s, if Covers(false, rec, s) then xs + [rec.event.tradeID] else xs)
  {
    if Selected(filter, rec) {
      RaiseTops(t.trade, s, xs, rec.event.symbol, rec.event.tradeID);
    }
  }

  /** In every run, filtered or not, each tracker holds the largest identifier or time
      among its symbol's events so far, and is absent exactly when there is none. */
  lemma {:induction false} TrackersAreMaxima(filter: string, rs: seq<Record>, s: string)
    requires Watched(filter, s)
    ensures Tops(AdvanceAll(filter, NO_TRACKERS, rs).depth, s, Ends(Spans(true, rs, s)))
    ensures Tops(AdvanceAll(filter, NO_TRACKERS, rs).trade, s, Ends(Spans(false, rs, s)))
    ensures Tops(AdvanceAll(filter, NO_TRACKERS, rs).time, s, Times(rs, s))
  {
    if rs != [] {
      TrackersAreMaxima(filter, Front(rs), s);
      var t, rec := AdvanceAll(filter, NO_TRACKERS, Front(rs)), Last(rs);
      TimeStep(filter, t, rec, s, Times(Front(rs), s));
      DepthStep(filter, t, rec, s, Ends(Spans(true, Front(rs), s)));
      TradeStep(filter, t, rec, s, Ends(Spans(false, Front(rs), s)));
      EndsSnoc(true, rs, s);
      EndsSnoc(false, rs, s);
      TimesSnoc(rs, s);
    }
  }

  lemma TimesSnoc(rs: seq<Record>, s: string)
    requires rs != []
    ensures Times(rs, s) == if Last(rs).Good?
            && Last(rs).event.symbol == s then Times(Front(rs), s) + [Last(rs).event.TimeMillis()]
              else Times(Front(rs), s)
  {
  }

  lemma EndsSnoc(depth: bool, rs: seq<Record>, s: string)
    requires rs != []
    ensures var before := Ends(Spans(depth, Front(rs), s));
            Ends(Spans(depth, rs, s)) == if Covers(depth, Last(rs), s) then before + [SpanOf(depth, Last(rs).event).to]
                else before
  {
  }

  /** A symbol the filter hides never enters a tracker. */
  lemma {:induction false} HiddenSymbolsUntracked(filter: string, rs: seq<Record>, s: string)
    requires !Watched(filter, s)
    ensures var t := AdvanceAll(filter, NO_TRACKERS, rs); s !in t.depth && s !in t.trade && s !in t.time
  {
    if rs != [] {
      HiddenSymbolsUntracked(filter, Front(rs), s);
    }
  }

  // ----- Failures in terms of the rows before -----

  function TimeOf(ev: MarketEvent): int {
    if ev.eventTimeMS > 0 then ev.eventTimeMS else ev.tradeTimeMS
  }

  /** Some element is at least `x`. */
  predicate Reaches(xs: seq<int>, x: int) {
    exists k :: 0 <= k < |xs| && xs[k] >= x
  }

  /** `x` is the largest element, if there is any. */
  predicate IsLargest(xs: seq<int>, x: int) {
    xs != [] ==> x in xs && forall k :: 0 <= k < |xs| ==> xs[k] <= x
  }

  lemma TopsReach(m: map<string, int>, s: string, xs: seq<int>, x: int)
    requires Tops(m, s, xs)
    ensures s in m && x <= m[s] <==> Reaches(xs, x)
    ensures s in m && x != m[s] <==> !IsLargest(xs, x)
  {
  }

  /** The failures of an id check, where `ids` are the ids its symbol has had before. */
  predicate IdDiagnosis(fs: seq<Failure>, ev: MarketEvent, ids: seq<int>, from: int, to: int, gap: string,
                        stalled: string) {
    fs == (if !IsLargest(ids, from - 1) then [Failure(ev.line, ev.symbol, SequenceGap, gap)] else [])
        + (if Reaches(ids, to) then [Failure(ev.line, ev.symbol, Ordering, stalled)] else [])
  }

  lemma IdDiagnosed(m: map<string, int>, ev: MarketEvent, ids: seq<int>, from: int, to: int, gap: string,
                    stalled: string)
    requires Tops(m, ev.symbol, ids)
    ensures IdDiagnosis(IdFailures(m, ev, from, to, gap, stalled), ev, ids, from, to, gap, stalled)
  {
    TopsReach(m, ev.symbol, ids, to);
    TopsReach(m, ev.symbol, ids, from - 1);
  }

  /** The failures of one row, where `rows` are the rows before it: a malformed row is one failure with its
      reason; a watched event is late if an earlier one of its symbol was later, is a gap if its first id does
      not follow the largest id of its symbol and type, and is stalled if that id reached its last one. */
  ghost predicate Diagnosis(fs: seq<Failure>, filter: string, rows: seq<Record>, rec: Record) {
    if rec.Bad? then fs == [Failure(rec.line, "", Malformed, rec.reason)]
    else if !Watched(filter, rec.event.symbol) then fs == []
    else
      var ev, s := rec.event, rec.event.symbol;
      var late := Reaches(Times(rows, s), TimeOf(ev) + 1);
      exists n :: 0 <= n <= |fs|
        && fs[..n] == (if late then [Failure(ev.line, s, Ordering, "event_time moved backwards for symbol")] else [])
        && match ev.kind
           case Depth =>
             IdDiagnosis(fs[n..], ev, Ends(Spans(true, rows, s)), ev.firstUpdateID, ev.finalUpdateID,
               "depth first_update_id does not continue after prior final_update_id",
               "depth final_update_id did not increase")
           case AggTrade =>
             IdDiagnosis(fs[n..], ev, Ends(Spans(false, rows, s)), ev.tradeID, ev.tradeID,
               "trade_id is not contiguous", "trade_id did not increase")
           case Unknown(_) => fs[n..] == []
  }

  /** DIAGNOSIS. In every run, filtered or not, the failures of each row are exactly those its earlier rows
      give reason for, with its line, symbol, kind and text. */
  lemma RowIsDiagnosed(filter: string, rows: seq<Record>, rec: Record)
    ensures Diagnosis(Emit(filter, AdvanceAll(filter, NO_TRACKERS, rows), rec), filter, rows, rec)
  {
    if rec.Good? && Watched(filter, rec.event.symbol) {
      var t, ev, s := AdvanceAll(filter, NO_TRACKERS, rows), rec.event, rec.event.symbol;
      TrackersAreMaxima(filter, rows, s);
      TopsReach(t.time, s, Times(rows, s), TimeOf(ev) + 1);
      IdDiagnosed(t.depth, ev, Ends(Spans(true, rows, s)), ev.firstUpdateID, ev.finalUpdateID, DEPTH_GAP,
          DEPTH_STALLED);
      IdDiagnosed(t.trade, ev, Ends(Spans(false, rows, s)), ev.tradeID, ev.tradeID, TRADE_GAP, TRADE_STALLED);
      var fs, n := Emit(filter, t, rec), |TimeFailures(t, ev)|;
      assert fs[..n] == TimeFailures(t, ev) && fs[n..] == SequenceFailures(t, ev);
    }
  }
}
