/** Counting gaps in streams of one symbol, and in their shifted repetitions. */
module Breaks {
  import opened Events
  import opened SequenceValidator
  import opened Projections
  import opened Arithmetic

  /** The number of gaps, and of ordering failures, a run reports. */
  function Gaps(rs: seq<Record>): nat {
    CountKind(SequenceGap, EmitAll("", NO_TRACKERS, rs))
  }

  function OutOfOrder(rs: seq<Record>): nat {
    CountKind(Ordering, EmitAll("", NO_TRACKERS, rs))
  }

  /** How many ranges do not continue the one before them. */
  function BreakCount(spans: seq<Span>): nat {
    if |spans| <= 1 then 0
    else BreakCount(Front(spans)) + (if Last(spans).from != spans[|spans| - 2].to + 1 then 1 else 0)
  }

  /** Range ends strictly increase. */
  predicate Rising(spans: seq<Span>) {
    forall i {:trigger spans[i]} :: 0 < i < |spans| ==> spans[i - 1].to < spans[i].to
  }

  predicate Climbing(xs: seq<int>) {
    forall i {:trigger xs[i]} :: 0 < i < |xs| ==> xs[i - 1] <= xs[i]
  }

  /** Every row is a depth (or trade) event of symbol `s`. */
  ghost predicate Lone(depth: bool, rs: seq<Record>, s: string) {
    forall i :: 0 <= i < |rs| ==> Covers(depth, rs[i], s)
  }

  lemma {:induction false} LoneProjections(depth: bool, rs: seq<Record>, s: string)
    requires Lone(depth, rs, s)
    ensures |Spans(depth, rs, s)| == |Times(rs, s)| == |rs|
    ensures forall i :: 0 <= i < |rs| ==>
            Spans(depth, rs, s)[i] == SpanOf(depth, rs[i].event) && Times(rs, s)[i] == rs[i].event.TimeMillis()
  {
    if rs != [] {
      LoneProjections(depth, Front(rs), s);
    }
  }

  lemma {:induction false} RisingMax(spans: seq<Span>, i: nat)
    requires Rising(spans) && i < |spans|
    ensures spans[i].to <= Last(spans).to
  {
    if i < |spans| - 1 {
      RisingMax(Front(spans), i);
      assert spans[|spans| - 1].to > spans[|spans| - 2].to;
    }
  }

  lemma {:induction false} ClimbingMax(xs: seq<int>, i: nat)
    requires Climbing(xs) && i < |xs|
    ensures xs[i] <= Last(xs)
  {
    if i < |xs| - 1 {
      ClimbingMax(Front(xs), i);
      assert xs[|xs| - 1] >= xs[|xs| - 2];
    }
  }

  lemma RisingTop(m: map<string, int>, s: string, spans: seq<Span>)
    requires Rising(spans) && spans != [] && Tops(m, s, Ends(spans))
    ensures s in m && m[s] == Last(spans).to
  {
    var ends := Ends(spans);
    assert ends[|spans| - 1] == Last(spans).to;
    var i :| 0 <= i < |ends| && ends[i] == m[s];
    RisingMax(spans, i);
  }

  lemma ClimbingTop(m: map<string, int>, s: string, xs: seq<int>)
    requires Climbing(xs) && xs != [] && Tops(m, s, xs)
    ensures s in m && m[s] == Last(xs)
  {
    assert xs[|xs| - 1] == Last(xs);
    var i :| 0 <= i < |xs| && xs[i] == m[s];
    ClimbingMax(xs, i);
  }

  lemma CountIf(condition: bool, f: Failure, kind: FailureKind)
    ensures CountKind(kind, If(condition, f)) == if condition && f.kind == kind then 1 else 0
  {
    if condition {
      assert Front([f]) == [];
    }
  }

  lemma CountTime(t: Trackers, ev: MarketEvent)
    ensures CountKind(SequenceGap, TimeFailures(t, ev)) == 0
    ensures CountKind(Ordering, TimeFailures(t, ev)) == if TimeFailures(t, ev) == [] then 0 else 1
  {
    var late := ev.symbol in t.time && ev.TimeMillis() < t.time[ev.symbol];
    var f := Failure(ev.line, ev.symbol, Ordering, TIME_BACKWARDS);
    CountIf(late, f, SequenceGap);
    CountIf(late, f, Ordering);
  }

  lemma CountIds(last: map<string, int>, ev: MarketEvent, from: int, to: int, gap: string, stalled: string)
    requires ev.symbol in last
    ensures var fs := IdFailures(last, ev, from, to, gap, stalled);
            && CountKind(SequenceGap, fs) == (if from != last[ev.symbol] + 1 then 1 else 0)
            && CountKind(Ordering, fs) == (if to <= last[ev.symbol] then 1 else 0)
  {
    var a, b := Failure(ev.line, ev.symbol, SequenceGap, gap), Failure(ev.line, ev.symbol, Ordering, stalled);
    var c, d := from != last[ev.symbol] + 1, to <= last[ev.symbol];
    CountIf(c, a, SequenceGap);
    CountIf(c, a, Ordering);
    CountIf(d, b, SequenceGap);
    CountIf(d, b, Ordering);
    CountKindAppend(SequenceGap, If(c, a), If(d, b));
    CountKindAppend(Ordering, If(c, a), If(d, b));
  }

  /** What one event adds, by its range and time, when its symbol's id tracker stands at `to`. */
  lemma LoneEvent(depth: bool, t: Trackers, ev: MarketEvent, to: int)
    requires Covers(depth, Good(0, ev), ev.symbol)
    requires var ids := if depth then t.depth else t.trade; ev.symbol in ids && ids[ev.symbol] == to
    ensures var fs, sp := TimeFailures(t, ev) + SequenceFailures(t, ev), SpanOf(depth, ev);
            && CountKind(SequenceGap, fs) == (if sp.from != to + 1 then 1 else 0)
            && CountKind(Ordering, fs) == (if TimeFailures(t, ev) == [] then 0 else 1) + (if sp.to <= to then 1 else 0)
  {
    CountTime(t, ev);
    CountKindAppend(SequenceGap, TimeFailures(t, ev), SequenceFailures(t, ev));
    CountKindAppend(Ordering, TimeFailures(t, ev), SequenceFailures(t, ev));
    if depth {
      CountIds(t.depth, ev, ev.firstUpdateID, ev.finalUpdateID, DEPTH_GAP, DEPTH_STALLED);
    } else {
      CountIds(t.trade, ev, ev.tradeID, ev.tradeID, TRADE_GAP, TRADE_STALLED);
    }
  }

  /** What the last row of a lone stream adds to the counts. */
  lemma LastRowCounts(depth: bool, rs: seq<Record>, s: string, to: int)
    requires rs != [] && Lone(depth, rs, s)
    requires var t := AdvanceAll("", NO_TRACKERS, Front(rs));
             var ids := if depth then t.depth else t.trade; s in ids && ids[s] == to
    ensures var t, sp := AdvanceAll("", NO_TRACKERS, Front(rs)), SpanOf(depth, Last(rs).event);
            && Gaps(rs) == Gaps(Front(rs)) + (if sp.from != to + 1 then 1 else 0)
            && OutOfOrder(rs) == OutOfOrder(Front(rs))
                 + (if TimeFailures(t, Last(rs).event) == [] then 0 else 1) + (if sp.to <= to then 1 else 0)
  {
    var t, fs := AdvanceAll("", NO_TRACKERS, Front(rs)), EmitAll("", NO_TRACKERS, Front(rs));
    assert Covers(depth, rs[|rs| - 1], s);
    LoneEvent(depth, t, Last(rs).event, to);
    EmitAllLast("", NO_TRACKERS, rs);
    CountKindAppend(SequenceGap, fs, Emit("", t, Last(rs)));
    CountKindAppend(Ordering, fs, Emit("", t, Last(rs)));
  }

  /** After a rising lone stream the id tracker stands at its last end. */
  lemma LoneTracker(depth: bool, rs: seq<Record>, s: string)
    requires rs != [] && Lone(depth, rs, s) && Rising(Spans(depth, rs, s))
    ensures |Spans(depth, rs, s)| == |rs|
    ensures var t := AdvanceAll("", NO_TRACKERS, rs);
            var ids := if depth then t.depth else t.trade;
            s in ids && ids[s] == Last(Spans(depth, rs, s)).to
  {
    var t := AdvanceAll("", NO_TRACKERS, rs);
    LoneProjections(depth, rs, s);
    TrackersAreMaxima("", rs, s);
    RisingTop(if depth then t.depth else t.trade, s, Spans(depth, rs, s));
  }

  lemma LoneFront(depth: bool, rs: seq<Record>, s: string)
    requires rs != [] && Lone(depth, rs, s)
    ensures Lone(depth, Front(rs), s) && |Spans(depth, rs, s)| == |Times(rs, s)| == |rs|
    ensures Front(Spans(depth, rs, s)) == Spans(depth, Front(rs), s)
    ensures Last(Spans(depth, rs, s)) == SpanOf(depth, Last(rs).event)
    ensures Front(Times(rs, s)) == Times(Front(rs), s) && Last(Times(rs, s)) == Last(rs).event.TimeMillis()
  {
    LoneProjections(depth, rs, s);
    LoneProjections(depth, Front(rs), s);
    assert Front(Spans(depth, rs, s)) == Spans(depth, Front(rs), s) && Front(Times(rs, s)) == Times(Front(rs), s);
  }

  lemma PrefixRises(spans: seq<Span>)
    requires spans != [] && Rising(spans)
    ensures Rising(Front(spans))
    ensures |spans| > 1 ==> spans[|spans| - 2].to < Last(spans).to
  {
    if |spans| > 1 {
      assert spans[|spans| - 1].to > spans[|spans| - 2].to;
    }
  }

  lemma PrefixClimbs(xs: seq<int>)
    requires xs != []
    ensures Climbing(xs) <==> Climbing(Front(xs)) && (|xs| > 1 ==> xs[|xs| - 2] <= Last(xs))
  {
    if Climbing(Front(xs)) && (|xs| > 1 ==> xs[|xs| - 2] <= Last(xs)) {
      forall i | 0 < i < |xs| ensures xs[i - 1] <= xs[i] {
        if i < |xs| - 1 {
          assert Front(xs)[i - 1] <= Front(xs)[i];
        }
      }
    }
  }

  /** After climbing times, the next row's time is reported exactly when it falls. */
  lemma TimeReported(depth: bool, rs: seq<Record>, s: string)
    requires |rs| > 1 && Lone(depth, rs, s) && Climbing(Times(Front(rs), s))
    ensures |Times(rs, s)| == |rs|
    ensures TimeFailures(AdvanceAll("", NO_TRACKERS, Front(rs)), Last(rs).event) == [] <==>
            Times(rs, s)[|rs| - 2] <= Last(Times(rs, s))
  {
    var t := AdvanceAll("", NO_TRACKERS, Front(rs));
    LoneFront(depth, rs, s);
    LoneProjections(depth, Front(rs), s);
    TrackersAreMaxima("", Front(rs), s);
    ClimbingTop(t.time, s, Times(Front(rs), s));
    assert Covers(depth, rs[|rs| - 1], s);
    assert Times(rs, s)[|rs| - 2] == Last(Times(Front(rs), s));
  }

  /** In a lone stream with rising ids, gaps are breaks, whatever the times do, and ordering failures are
      reported if and only if some time falls below the one before it. */
  lemma {:induction false} GapsAreBreaks(depth: bool, rs: seq<Record>, s: string)
    requires Lone(depth, rs, s) && Rising(Spans(depth, rs, s))
    ensures Gaps(rs) == BreakCount(Spans(depth, rs, s))
    ensures OutOfOrder(rs) == 0 <==> Climbing(Times(rs, s))
  {
    if |rs| == 1 {
      FirstRow(depth, rs, s);
    } else if |rs| > 1 {
      LoneFront(depth, rs, s);
      PrefixRises(Spans(depth, rs, s));
      PrefixClimbs(Times(rs, s));
      GapsAreBreaks(depth, Front(rs), s);
      LoneTracker(depth, Front(rs), s);
      LastRowCounts(depth, rs, s, Last(Spans(depth, Front(rs), s)).to);
      if Climbing(Times(Front(rs), s)) {
        TimeReported(depth, rs, s);
      }
    }
  }

  lemma FirstRow(depth: bool, rs: seq<Record>, s: string)
    requires |rs| == 1 && Lone(depth, rs, s)
    ensures EmitAll("", NO_TRACKERS, rs) == [] && BreakCount(Spans(depth, rs, s)) == 0 && Climbing(Times(rs, s))
  {
    LoneProjections(depth, rs, s);
    assert Covers(depth, rs[0], s);
    assert Front(rs) == [];
    EmitAllLast("", NO_TRACKERS, rs);
    assert Emit("", NO_TRACKERS, rs[0]) == [];
    assert EmitAll("", NO_TRACKERS, []) == [];
  }

  // ----- Shifted repetition -----

  function Width(spans: seq<Span>): int
    requires spans != []
  {
    Last(spans).to - spans[0].from + 1
  }

  /** `g` repeats `spans`, each cycle shifted past the one before. */
  ghost predicate Repeats(spans: seq<Span>, g: seq<Span>)
    requires spans != []
  {
    forall k :: 0 <= k < |g| ==>
      var off := Offset(Quot(k, |spans|), Width(spans));
      g[k] == Span(spans[Rem(k, |spans|)].from + off, spans[Rem(k, |spans|)].to + off)
  }

  /** Inside a cycle neighbours keep their distance; across the seam the next cycle continues the last id. */
  lemma Neighbours(spans: seq<Span>, g: seq<Span>, k: nat)
    requires spans != [] && Repeats(spans, g) && k + 1 < |g|
    ensures var p := Rem(k, |spans|);
            && (p + 1 < |spans| ==>
              g[k + 1].from - g[k].to == spans[p + 1].from - spans[p].to
                  && g[k + 1].to - g[k].to == spans[p + 1].to - spans[p].to)
            && (p + 1 == |spans| ==>
              g[k + 1].from == g[k].to + 1 && g[k + 1].to - g[k + 1].from == spans[0].to - spans[0].from)
  {
    NextIndex(k, |spans|);
  }

  lemma RepeatRises(spans: seq<Span>, g: seq<Span>)
    requires spans != [] && Repeats(spans, g) && Rising(spans) && spans[0].from <= spans[0].to
    ensures Rising(g)
  {
    forall i | 0 < i < |g| ensures g[i - 1].to < g[i].to {
      Neighbours(spans, g, i - 1);
      var p := Rem(i - 1, |spans|);
      if p + 1 < |spans| {
        assert spans[p + 1].to > spans[p].to;
      }
    }
  }

  predicate BreakAt(spans: seq<Span>, n: nat)
    requires n < |spans|
  {
    n > 0 && spans[n].from != spans[n - 1].to + 1
  }

  lemma BreakCountSnoc(spans: seq<Span>, n: nat)
    requires n < |spans|
    ensures BreakCount(spans[..n + 1]) == BreakCount(spans[..n]) + (if BreakAt(spans, n) then 1 else 0)
  {
    assert Front(spans[..n + 1]) == spans[..n];
  }

  lemma SameBreak(spans: seq<Span>, g: seq<Span>, p: nat, k: nat)
    requires p < |spans| && 0 < k < |g|
    requires p > 0 ==> g[k].from - g[k - 1].to == spans[p].from - spans[p - 1].to
    requires p == 0 ==> g[k].from == g[k - 1].to + 1
    ensures BreakAt(g, k) <==> BreakAt(spans, p)
  {
  }

  lemma RepeatRow(spans: seq<Span>, g: seq<Span>, k: nat)
    requires spans != [] && Repeats(spans, g) && k < |g|
    ensures BreakAt(g, k) <==> BreakAt(spans, Rem(k, |spans|))
  {
    if k > 0 {
      RowBefore(k, |spans|);
      Neighbours(spans, g, k - 1);
      SameBreak(spans, g, Rem(k, |spans|), k);
    } else {
      assert Rem(k, |spans|) == 0;
    }
  }

  /** Whole cycles contribute the source's breaks, a partial one its prefix's. */
  function RepeatedBreaks(spans: seq<Span>, n: nat): int
    requires spans != []
  {
    Offset(Quot(n, |spans|), BreakCount(spans)) + BreakCount(spans[..Rem(n, |spans|)])
  }

  lemma RepeatedBreaksStep(spans: seq<Span>, k: nat)
    requires spans != []
    ensures RepeatedBreaks(spans, k + 1)
            == RepeatedBreaks(spans, k) + (if BreakAt(spans, Rem(k, |spans|)) then 1 else 0)
  {
    var p := Rem(k, |spans|);
    NextIndex(k, |spans|);
    BreakCountSnoc(spans, p);
    if p + 1 == |spans| {
      assert spans[..|spans|] == spans && spans[..0] == [];
    }
  }

  /** Breaks of a shifted repetition multiply exactly. */
  lemma {:induction false} RepeatBreaks(spans: seq<Span>, g: seq<Span>, n: nat)
    requires spans != [] && Repeats(spans, g) && n <= |g|
    ensures BreakCount(g[..n]) == RepeatedBreaks(spans, n)
  {
    if n > 0 {
      RepeatBreaks(spans, g, n - 1);
      RepeatRow(spans, g, n - 1);
      BreakCountSnoc(g, n - 1);
      RepeatedBreaksStep(spans, n - 1);
    } else {
      assert spans[..0] == [];
    }
  }

  lemma RowBefore(k: nat, r: nat)
    requires r > 0 && k > 0
    ensures Rem(k, r) > 0 ==> Rem(k - 1, r) == Rem(k, r) - 1
    ensures Rem(k, r) == 0 ==> Rem(k - 1, r) == r - 1
  {
    NextIndex(k - 1, r);
  }

  /** `gs` repeats the times `ts`, each cycle starting one past the end of the one before. */
  ghost predicate RepeatsTimes(ts: seq<int>, gs: seq<int>)
    requires ts != []
  {
    forall k :: 0 <= k < |gs| ==> gs[k] == ts[Rem(k, |ts|)] + Offset(Quot(k, |ts|), Last(ts) - ts[0] + 1)
  }

  lemma RepeatClimbs(ts: seq<int>, gs: seq<int>)
    requires ts != [] && RepeatsTimes(ts, gs) && Climbing(ts)
    ensures Climbing(gs)
  {
    forall i | 0 < i < |gs| ensures gs[i - 1] <= gs[i] {
      NextIndex(i - 1, |ts|);
      var p := Rem(i - 1, |ts|);
      if p + 1 < |ts| {
        assert ts[p] <= ts[p + 1];
      }
    }
  }

  /** A stream of one symbol with increasing ids. */
  ghost predicate RisingStream(depth: bool, rs: seq<Record>, s: string) {
    Lone(depth, rs, s) && Rising(Spans(depth, rs, s))
  }

  lemma PrefixGaps(depth: bool, rs: seq<Record>, s: string, p: nat)
    requires RisingStream(depth, rs, s) && p <= |rs|
    ensures |Spans(depth, rs, s)| == |rs| && Gaps(rs[..p]) == BreakCount(Spans(depth, rs, s)[..p])
  {
    LoneProjections(depth, rs, s);
    LoneProjections(depth, rs[..p], s);
    assert Spans(depth, rs[..p], s) == Spans(depth, rs, s)[..p];
    GapsAreBreaks(depth, rs[..p], s);
  }

  lemma RepeatedSpans(spans: seq<Span>, g: seq<Span>)
    requires spans != [] && Repeats(spans, g) && Rising(spans) && spans[0].from <= spans[0].to
    ensures Rising(g) && BreakCount(g) == RepeatedBreaks(spans, |g|)
  {
    RepeatRises(spans, g);
    RepeatBreaks(spans, g, |g|);
    assert g[..|g|] == g;
  }

  lemma LoneLength(depth: bool, rs: seq<Record>, s: string)
    requires Lone(depth, rs, s)
    ensures |Spans(depth, rs, s)| == |Times(rs, s)| == |rs|
  {
    LoneProjections(depth, rs, s);
  }

  /** The count of a shifted repetition, with quotient and remainder by repeated subtraction. */
  lemma GapsByCycle(depth: bool, src: seq<Record>, gen: seq<Record>, s: string)
    requires src != [] && RisingStream(depth, src, s) && Lone(depth, gen, s)
    requires |Spans(depth, src, s)| == |src| && Spans(depth, src, s)[0].from <= Spans(depth, src, s)[0].to
    requires Repeats(Spans(depth, src, s), Spans(depth, gen, s))
    ensures Gaps(gen) == Offset(Quot(|gen|, |src|), Gaps(src)) + Gaps(src[..Rem(|gen|, |src|)])
    ensures OutOfOrder(gen) == 0 <==> Climbing(Times(gen, s))
  {
    LoneLength(depth, gen, s);
    RepeatedSpans(Spans(depth, src, s), Spans(depth, gen, s));
    GapsAreBreaks(depth, src, s);
    GapsAreBreaks(depth, gen, s);
    PrefixGaps(depth, src, s, Rem(|gen|, |src|));
  }

  /** GAPS MULTIPLY. A stream whose ids cycle through those of a rising source, shifted by one span per cycle,
      has the source's gaps once per whole cycle plus those of the first rows of the last, partial cycle, and
      ordering failures if and only if its times fall somewhere. */
  lemma GapsMultiply(depth: bool, src: seq<Record>, gen: seq<Record>, s: string)
    requires src != [] && RisingStream(depth, src, s) && Lone(depth, gen, s)
    requires |Spans(depth, src, s)| == |src| && Spans(depth, src, s)[0].from <= Spans(depth, src, s)[0].to
    requires Repeats(Spans(depth, src, s), Spans(depth, gen, s))
    ensures Gaps(gen) == (|gen| / |src|) * Gaps(src) + Gaps(src[..|gen| % |src|])
    ensures OutOfOrder(gen) == 0 <==> Climbing(Times(gen, s))
  {
    GapsByCycle(depth, src, gen, s);
    QuotRemAreDivMod(|gen|, |src|);
    OffsetIsProduct(|gen| / |src|, Gaps(src));
  }

  // ----- Repetition without a shift -----

  /** Row `k` takes the value of row `k` mod r. */
  predicate Recurs<T(==)>(xs: seq<T>, g: seq<T>)
    requires xs != []
  {
    forall k :: 0 <= k < |g| ==> g[k] == xs[Rem(k, |xs|)]
  }

  /** Times that recur unshifted climb if and only if they stop within the first cycle or never move. */
  lemma RecurringTimesClimbIff(ts: seq<int>, gs: seq<int>)
    requires ts != [] && Climbing(ts) && Recurs(ts, gs)
    ensures Climbing(gs) <==> |gs| <= |ts| || ts[0] == Last(ts)
  {
    var r := |ts|;
    forall i: nat | i < r ensures Rem(i, r) == i {}
    if |gs| > r {
      assert Rem(r, r) == 0;
      assert gs[r - 1] == Last(ts) && gs[r] == ts[0];
      ClimbingMax(ts, 0);
    }
    if ts[0] == Last(ts) {
      forall i | 0 <= i < r ensures ts[i] == ts[0] {
        ClimbingMax(ts, i);
        ClimbingMin(ts, i);
      }
    }
    if |gs| <= r {
      forall i | 0 < i < |gs| ensures gs[i - 1] <= gs[i] {
        assert ts[i - 1] <= ts[i];
      }
    }
  }

  lemma {:induction false} ClimbingMin(xs: seq<int>, i: nat)
    requires Climbing(xs) && i < |xs|
    ensures xs[0] <= xs[i]
    decreases i
  {
    if i > 0 {
      ClimbingMin(xs, i - 1);
      assert xs[i - 1] <= xs[i];
    }
  }

  predicate NonEmptyRanges(spans: seq<Span>) {
    forall i :: 0 <= i < |spans| ==> spans[i].from <= spans[i].to
  }

  /** Once a whole cycle has passed, the id tracker stays at the source's last end. */
  lemma RecurringTracker(depth: bool, gen: seq<Record>, s: string, spans: seq<Span>)
    requires spans != [] && Rising(spans) && |gen| >= |spans| && Lone(depth, gen, s)
    requires Recurs(spans, Spans(depth, gen, s))
    ensures var t := AdvanceAll("", NO_TRACKERS, gen);
            var ids := if depth then t.depth else t.trade;
            s in ids && ids[s] == Last(spans).to
  {
    var t := AdvanceAll("", NO_TRACKERS, gen);
    var ids, r := if depth then t.depth else t.trade, |spans|;
    LoneProjections(depth, gen, s);
    TrackersAreMaxima("", gen, s);
    var ends := Ends(Spans(depth, gen, s));
    assert Rem(r - 1, r) == r - 1 && ends[r - 1] == Last(spans).to;
    var i :| 0 <= i < |ends| && ends[i] == ids[s];
    RisingMax(spans, Rem(i, r));
  }

  /** From the second cycle on, every row is a gap and out of order. */
  lemma {:induction false} RecurringCounts(depth: bool, gen: seq<Record>, s: string, spans: seq<Span>)
    requires spans != [] && Rising(spans) && NonEmptyRanges(spans)
    requires |gen| >= |spans| && Lone(depth, gen, s) && Recurs(spans, Spans(depth, gen, s))
    ensures Gaps(gen) == BreakCount(spans) + |gen| - |spans| && OutOfOrder(gen) >= |gen| - |spans|
    decreases |gen|
  {
    LoneFront(depth, gen, s);
    var g, k := Spans(depth, gen, s), |gen| - 1;
    if |gen| == |spans| {
      forall i: nat | i < |spans| ensures Rem(i, |spans|) == i {}
      assert g == spans;
      GapsAreBreaks(depth, gen, s);
    } else {
      assert forall i :: 0 <= i < |Front(g)| ==> Front(g)[i] == g[i];
      RecurringCounts(depth, Front(gen), s, spans);
      RecurringTracker(depth, Front(gen), s, spans);
      LastRowCounts(depth, gen, s, Last(spans).to);
      RisingMax(spans, Rem(k, |spans|));
      assert g[k] == spans[Rem(k, |spans|)] && g[k].from <= g[k].to;
    }
  }

  /** EXACT CONDITION. A stream whose ids recur unshifted, with the source's times in its first cycle, has no
      ordering failure if and only if it stops within that cycle; past it, every further row is one more gap. */
  lemma RecurringIff(depth: bool, src: seq<Record>, gen: seq<Record>, s: string)
    requires src != [] && RisingStream(depth, src, s) && Climbing(Times(src, s)) && Lone(depth, gen, s)
    requires |Spans(depth, src, s)| == |Times(src, s)| == |src| && |Times(gen, s)| == |gen|
    requires NonEmptyRanges(Spans(depth, src, s)) && Recurs(Spans(depth, src, s), Spans(depth, gen, s))
    requires forall k :: 0 <= k < |gen| && k < |src| ==> Times(gen, s)[k] == Times(src, s)[k]
    ensures OutOfOrder(gen) == 0 <==> |gen| <= |src|
    ensures Gaps(gen) == if |gen| <= |src| then Gaps(src[..|gen|]) else Gaps(src) + |gen| - |src|
  {
    var spans, g := Spans(depth, src, s), Spans(depth, gen, s);
    LoneProjections(depth, gen, s);
    if |gen| > |src| {
      RecurringCounts(depth, gen, s, spans);
      GapsAreBreaks(depth, src, s);
    } else {
      FirstCycle(spans, g, Times(src, s), Times(gen, s));
      GapsAreBreaks(depth, gen, s);
      PrefixGaps(depth, src, s, |gen|);
    }
  }

  lemma FirstCycle(spans: seq<Span>, g: seq<Span>, ts: seq<int>, gs: seq<int>)
    requires spans != [] && Rising(spans) && Climbing(ts) && |g| == |gs| <= |spans| == |ts| && Recurs(spans, g)
    requires forall k :: 0 <= k < |gs| ==> gs[k] == ts[k]
    ensures g == spans[..|g|] && Rising(g) && Climbing(gs)
  {
    forall i: nat | i < |g| ensures g[i] == spans[i] {
      assert Rem(i, |spans|) == i;
    }
    forall i | 0 < i < |g| ensures g[i - 1].to < g[i].to && gs[i - 1] <= gs[i] {
      assert spans[i - 1].to < spans[i].to && ts[i - 1] <= ts[i];
    }
  }

  // ----- A range that does not pass an earlier one -----

  lemma {:induction false} EndListed(depth: bool, rs: seq<Record>, s: string, j: nat)
    requires j < |rs| && Covers(depth, rs[j], s)
    ensures SpanOf(depth, rs[j].event).to in Ends(Spans(depth, rs, s))
    decreases |rs|
  {
    EndsSnoc(depth, rs, s);
    if j < |rs| - 1 {
      EndListed(depth, Front(rs), s, j);
    } else {
      var ends := Ends(Spans(depth, rs, s));
      assert ends[|ends| - 1] == SpanOf(depth, rs[j].event).to;
    }
  }

  lemma PrefixOutOfOrder(rs: seq<Record>, n: nat)
    requires n <= |rs|
    ensures OutOfOrder(rs[..n]) <= OutOfOrder(rs)
  {
    var a, b := rs[..n], rs[n..];
    assert a + b == rs;
    EmitAppend("", NO_TRACKERS, a, b);
    CountKindAppend(Ordering, EmitAll("", NO_TRACKERS, a), EmitAll("", AdvanceAll("", NO_TRACKERS, a), b));
  }

  /** Whatever comes between them, a range that does not end after an earlier one of its symbol is out of order. */
  lemma StalledRow(depth: bool, rs: seq<Record>, s: string, j: nat, k: nat)
    requires j < k < |rs| && Covers(depth, rs[j], s) && Covers(depth, rs[k], s)
    requires SpanOf(depth, rs[k].event).to <= SpanOf(depth, rs[j].event).to
    ensures OutOfOrder(rs) > 0
  {
    var before, upto := rs[..k], rs[..k + 1];
    assert Front(upto) == before && Last(upto) == rs[k] && before[j] == rs[j];
    var t := AdvanceAll("", NO_TRACKERS, before);
    var ids := if depth then t.depth else t.trade;
    TrackersAreMaxima("", before, s);
    EndListed(depth, before, s, j);
    LoneEvent(depth, t, rs[k].event, ids[s]);
    EmitAllLast("", NO_TRACKERS, upto);
    CountKindAppend(Ordering, EmitAll("", NO_TRACKERS, before), Emit("", t, rs[k]));
    PrefixOutOfOrder(rs, k + 1);
  }
}
