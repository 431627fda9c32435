/** What a run without sequence gaps and ordering failures says about the stream. */
module GapDetection {
  import opened Events
  import opened SequenceValidator
  import opened Projections

  /** No sequence gap and no ordering failure was reported. */
  predicate Clean(fs: seq<Failure>) {
    CountKind(SequenceGap, fs) == 0 && CountKind(Ordering, fs) == 0
  }

  /** Each range starts right after the previous one ends. */
  predicate Chained(spans: seq<Span>) {
    forall i {:trigger spans[i]} :: 0 < i < |spans| ==> spans[i].from == spans[i - 1].to + 1
  }

  predicate NonDecreasing(xs: seq<int>) {
    forall i, j :: 0 <= i <= j < |xs| ==> xs[i] <= xs[j]
  }

  predicate Ordered(rs: seq<Record>, s: string) {
    Chained(Spans(true, rs, s)) && Chained(Spans(false, rs, s)) && NonDecreasing(Times(rs, s))
  }

  predicate NonEmptySpans(spans: seq<Span>) {
    forall i :: 0 <= i < |spans| ==> spans[i].from <= spans[i].to
  }

  lemma {:induction false} ShapedSpansNonEmpty(depth: bool, rs: seq<Record>, s: string)
    requires ShapedStream(rs)
    ensures NonEmptySpans(Spans(depth, rs, s))
  {
    if rs != [] {
      ShapedSpansNonEmpty(depth, Front(rs), s);
      assert ShapedRecord(Last(rs));
    }
  }

  /** In a chain of non-empty ranges the last end is the largest. */
  lemma {:induction false} ChainRises(spans: seq<Span>, i: nat, j: nat)
    requires Chained(spans) && NonEmptySpans(spans) && i < j < |spans|
    ensures spans[i].to < spans[j].from
  {
    if i < j - 1 {
      ChainRises(spans, i, j - 1);
    }
  }

  lemma ChainTop(m: map<string, int>, s: string, spans: seq<Span>)
    requires Chained(spans) && NonEmptySpans(spans) && Tops(m, s, Ends(spans))
    ensures spans != [] ==> s in m && m[s] == Last(spans).to
  {
    if spans != [] {
      var ends := Ends(spans);
      assert ends[|spans| - 1] == Last(spans).to;
      var i :| 0 <= i < |ends| && ends[i] == m[s];
      if i < |spans| - 1 {
        ChainRises(spans, i, |spans| - 1);
      }
    }
  }

  /** One identifier check passes exactly when the new range extends the chain. */
  lemma IdCheckExact(m: map<string, int>, spans: seq<Span>, ev: MarketEvent, depth: bool, gap: string, stalled: string)
    requires Chained(spans) && NonEmptySpans(spans) && Tops(m, ev.symbol, Ends(spans))
    requires SpanOf(depth, ev).from <= SpanOf(depth, ev).to
    ensures IdFailures(m, ev, SpanOf(depth, ev).from, SpanOf(depth, ev).to, gap, stalled) == [] <==>
            Chained(spans + [SpanOf(depth, ev)])
  {
    ChainTop(m, ev.symbol, spans);
    var sp := SpanOf(depth, ev);
    var next := spans + [sp];
    assert forall i :: 0 <= i < |spans| ==> next[i] == spans[i];
    assert next[|spans|] == sp;
    assert |Ends(spans)| == |spans|;
    if spans != [] {
      assert next[|spans| - 1] == Last(spans);
    }
  }

  lemma TimeCheckExact(t: Trackers, xs: seq<int>, ev: MarketEvent)
    requires NonDecreasing(xs) && Tops(t.time, ev.symbol, xs)
    ensures TimeFailures(t, ev) == [] <==> NonDecreasing(xs + [ev.TimeMillis()])
  {
    var ys := xs + [ev.TimeMillis()];
    assert forall i :: 0 <= i < |xs| ==> ys[i] == xs[i];
    assert ys[|xs|] == ev.TimeMillis();
    if xs != [] && NonDecreasing(ys) {
      var i :| 0 <= i < |xs| && xs[i] == t.time[ev.symbol];
      assert ys[i] <= ys[|xs|];
    }
  }

  lemma DepthRowExact(filter: string, rs: seq<Record>)
    requires rs != [] && ShapedStream(rs) && Selected(filter, Last(rs)) && Last(rs).event.kind.Depth?
    requires Chained(Spans(true, Front(rs), Last(rs).event.symbol))
    ensures SequenceFailures(AdvanceAll(filter, NO_TRACKERS, Front(rs)), Last(rs).event) == []
       <==> Chained(Spans(true, rs, Last(rs).event.symbol))
  {
    var ev := Last(rs).event;
    assert ShapedRecord(Last(rs));
    TrackersAreMaxima(filter, Front(rs), ev.symbol);
    ShapedSpansNonEmpty(true, Front(rs), ev.symbol);
    IdCheckExact(AdvanceAll(filter, NO_TRACKERS, Front(rs)).depth, Spans(true, Front(rs), ev.symbol), ev, true,
        DEPTH_GAP, DEPTH_STALLED);
  }

  lemma TradeRowExact(filter: string, rs: seq<Record>)
    requires rs != [] && ShapedStream(rs) && Selected(filter, Last(rs)) && Last(rs).event.kind.AggTrade?
    requires Chained(Spans(false, Front(rs), Last(rs).event.symbol))
    ensures SequenceFailures(AdvanceAll(filter, NO_TRACKERS, Front(rs)), Last(rs).event) == []
       <==> Chained(Spans(false, rs, Last(rs).event.symbol))
  {
    var ev := Last(rs).event;
    TrackersAreMaxima(filter, Front(rs), ev.symbol);
    ShapedSpansNonEmpty(false, Front(rs), ev.symbol);
    IdCheckExact(AdvanceAll(filter, NO_TRACKERS, Front(rs)).trade, Spans(false, Front(rs), ev.symbol), ev, false,
        TRADE_GAP, TRADE_STALLED);
  }

  lemma TimeRowExact(filter: string, rs: seq<Record>)
    requires rs != [] && Selected(filter, Last(rs)) && NonDecreasing(Times(Front(rs), Last(rs).event.symbol))
    ensures TimeFailures(AdvanceAll(filter, NO_TRACKERS, Front(rs)), Last(rs).event) == []
       <==> NonDecreasing(Times(rs, Last(rs).event.symbol))
  {
    var ev := Last(rs).event;
    TrackersAreMaxima(filter, Front(rs), ev.symbol);
    TimeCheckExact(AdvanceAll(filter, NO_TRACKERS, Front(rs)), Times(Front(rs), ev.symbol), ev);
  }

  /** An event adds no gap or ordering failure exactly when it keeps its symbol ordered. */
  lemma EventExact(filter: string, rs: seq<Record>)
    requires rs != [] && ShapedStream(rs) && Selected(filter, Last(rs))
    requires Ordered(Front(rs), Last(rs).event.symbol)
    ensures Clean(Emit(filter, AdvanceAll(filter, NO_TRACKERS, Front(rs)), Last(rs))) <==>
            Ordered(rs, Last(rs).event.symbol)
  {
    var ev := Last(rs).event;
    assert ShapedRecord(Last(rs));
    OnlyOneKind(rs, ev.symbol);
    TimeRowExact(filter, rs);
    NoMalformed(AdvanceAll(filter, NO_TRACKERS, Front(rs)), ev);
    if ev.kind.Depth? {
      DepthRowExact(filter, rs);
    } else {
      TradeRowExact(filter, rs);
    }
  }

  lemma OnlyOneKind(rs: seq<Record>, s: string)
    requires rs != [] && Last(rs).Good?
    ensures !Last(rs).event.kind.Depth? ==> Spans(true, rs, s) == Spans(true, Front(rs), s)
    ensures !Last(rs).event.kind.AggTrade? ==> Spans(false, rs, s) == Spans(false, Front(rs), s)
  {
  }

  lemma OtherSymbolsKept(rs: seq<Record>, s: string)
    requires rs != [] && (Last(rs).Bad? || Last(rs).event.symbol != s)
    ensures Ordered(rs, s) <==> Ordered(Front(rs), s)
  {
    assert Spans(true, rs, s) == Spans(true, Front(rs), s) && Spans(false, rs, s) == Spans(false, Front(rs), s);
    assert Times(rs, s) == Times(Front(rs), s);
  }

  lemma NoMalformed(t: Trackers, ev: MarketEvent)
    ensures Clean(TimeFailures(t, ev) + SequenceFailures(t, ev)) <==>
            TimeFailures(t, ev) == [] && SequenceFailures(t, ev) == []
  {
    var fs := TimeFailures(t, ev) + SequenceFailures(t, ev);
    if fs != [] {
      assert !Last(fs).kind.Malformed? by {
        assert forall f :: f in TimeFailures(t, ev) || f in SequenceFailures(t, ev) ==> !f.kind.Malformed?;
        assert Last(fs) in fs;
      }
    }
  }

  lemma CleanAppend(a: seq<Failure>, b: seq<Failure>)
    ensures Clean(a + b) <==> Clean(a) && Clean(b)
  {
    CountKindAppend(SequenceGap, a, b);
    CountKindAppend(Ordering, a, b);
  }

  ghost predicate AllOrdered(filter: string, rs: seq<Record>) {
    forall s :: Watched(filter, s) ==> Ordered(rs, s)
  }

  lemma RowExact(filter: string, rs: seq<Record>)
    requires rs != [] && ShapedStream(rs) && AllOrdered(filter, Front(rs))
    ensures Clean(Emit(filter, AdvanceAll(filter, NO_TRACKERS, Front(rs)), Last(rs))) <==> AllOrdered(filter, rs)
  {
    var rec := Last(rs);
    forall s | rec.Bad? || s != rec.event.symbol
      ensures Ordered(rs, s) <==> Ordered(Front(rs), s)
    {
      OtherSymbolsKept(rs, s);
    }
    if rec.Bad? {
      var f := Failure(rec.line, "", Malformed, rec.reason);
      assert Front([f]) == [] && CountKind(SequenceGap, []) == 0 && CountKind(Ordering, []) == 0;
      assert CountKind(SequenceGap, [f]) == 0 && CountKind(Ordering, [f]) == 0;
    } else if Selected(filter, rec) {
      EventExact(filter, rs);
      assert Watched(filter, rec.event.symbol);
    }
  }

  /** EXACT GAP DETECTION. Over rows that passed the shape check (malformed rows may be mixed in), the
      validator reports no gap and no ordering failure if and only if, for every watched symbol, depth
      updates chain, trade ids are consecutive and times never decrease. */
  lemma {:induction false} CleanIffOrdered(filter: string, rs: seq<Record>)
    requires ShapedStream(rs)
    ensures Clean(EmitAll(filter, NO_TRACKERS, rs)) <==> AllOrdered(filter, rs)
  {
    if rs == [] {
      assert forall s :: Ordered(rs, s);
    } else {
      CleanIffOrdered(filter, Front(rs));
      EmitAllLast(filter, NO_TRACKERS, rs);
      CleanAppend(EmitAll(filter, NO_TRACKERS, Front(rs)),
          Emit(filter, AdvanceAll(filter, NO_TRACKERS, Front(rs)), Last(rs)));
      if AllOrdered(filter, Front(rs)) {
        RowExact(filter, rs);
      } else {
        var s :| Watched(filter, s) && !Ordered(Front(rs), s);
        if Ordered(rs, s) {
          PrefixOrdered(rs, s);
        }
      }
    }
  }

  lemma PrefixOrdered(rs: seq<Record>, s: string)
    requires rs != [] && Ordered(rs, s)
    ensures Ordered(Front(rs), s)
  {
    assert Spans(true, Front(rs), s) <= Spans(true, rs, s);
    assert Spans(false, Front(rs), s) <= Spans(false, rs, s);
    assert Times(Front(rs), s) <= Times(rs, s);
  }

  predicate InSpan(sp: Span, id: int) {
    sp.from <= id <= sp.to
  }

  /** TILING. Chained non-empty ranges cover every id from the first start to the last end, each exactly once. */
  lemma {:induction false} ChainTiles(spans: seq<Span>, id: int)
    requires Chained(spans) && NonEmptySpans(spans) && spans != []
    ensures (exists i :: 0 <= i < |spans| && InSpan(spans[i], id)) <==> spans[0].from <= id <= Last(spans).to
    ensures forall i, j :: 0 <= i < |spans| && 0 <= j < |spans| && InSpan(spans[i], id) && InSpan(spans[j], id) ==>
            i == j
  {
    forall i, j | 0 <= i < j < |spans| ensures spans[i].to < spans[j].from {
      ChainRises(spans, i, j);
    }
    if |spans| == 1 {
      assert InSpan(spans[0], id) <==> spans[0].from <= id <= Last(spans).to;
    } else {
      var init := Front(spans);
      ChainTiles(init, id);
      assert forall i :: 0 <= i < |init| ==> spans[i] == init[i];
      assert spans[|spans| - 1].from == Last(init).to + 1;
    }
  }

  /** A clean run has no hole and no overlap in any watched symbol's depth ids. */
  lemma CleanRunTiles(filter: string, rs: seq<Record>, s: string, id: int)
    requires ShapedStream(rs) && Watched(filter, s) && Spans(true, rs, s) != []
    requires Clean(EmitAll(filter, NO_TRACKERS, rs))
    ensures var spans := Spans(true, rs, s);
            && ((exists i :: 0 <= i < |spans| && InSpan(spans[i], id)) <==> spans[0].from <= id <= Last(spans).to)
            && (forall i, j :: 0 <= i < |spans| && 0 <= j < |spans| && InSpan(spans[i], id) && InSpan(spans[j], id) ==>
              i == j)
  {
    CleanIffOrdered(filter, rs);
    assert Ordered(rs, s);
    ShapedSpansNonEmpty(true, rs, s);
    ChainTiles(Spans(true, rs, s), id);
  }
}
