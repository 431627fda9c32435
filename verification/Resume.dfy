/** Checkpoint resume: priming a prefix and processing the rest against one full run. */
module Resume {
  import opened Events
  import opened SequenceValidator
  import opened Projections

  /** The part of a tracker map that priming can represent. */
  function Positive(m: map<string, int>): map<string, int> {
    map s | s in m && m[s] > 0 :: m[s]
  }

  function PositivePart(t: Trackers): Trackers {
    Trackers(Positive(t.depth), Positive(t.trade), Positive(t.time))
  }

  lemma RaiseFromZeroOfPositive(m: map<string, int>, s: string, x: int)
    ensures RaiseFromZero(Positive(m), s, x) == Positive(Raise(m, s, x))
  {
  }

  lemma PrimeOneOfPositive(filter: string, t: Trackers, rec: Record)
    ensures PrimeOne(filter, PositivePart(t), rec) == PositivePart(Advance(filter, t, rec))
  {
    if Selected(filter, rec) {
      var ev := rec.event;
      RaiseFromZeroOfPositive(t.depth, ev.symbol, ev.finalUpdateID);
      RaiseFromZeroOfPositive(t.trade, ev.symbol, ev.tradeID);
      RaiseFromZeroOfPositive(t.time, ev.symbol, ev.TimeMillis());
    }
  }

  /** Priming any stream leaves exactly the positive entries that processing it would leave. */
  lemma {:induction false} PrimeIsPositivePart(filter: string, rs: seq<Record>)
    ensures PrimeAll(filter, NO_TRACKERS, rs) == PositivePart(AdvanceAll(filter, NO_TRACKERS, rs))
  {
    if rs != [] {
      PrimeIsPositivePart(filter, Front(rs));
      PrimeOneOfPositive(filter, AdvanceAll(filter, NO_TRACKERS, Front(rs)), Last(rs));
    }
  }

  predicate SomePositive(xs: seq<int>) {
    xs == [] || exists i :: 0 <= i < |xs| && xs[i] > 0
  }

  predicate PrimableSymbol(rs: seq<Record>, s: string) {
    SomePositive(Ends(Spans(true, rs, s))) && SomePositive(Ends(Spans(false, rs, s))) && SomePositive(Times(rs, s))
  }

  /** Every watched symbol whose depth ids, trade ids or times occur in the prefix has a positive one among them. */
  ghost predicate Primable(filter: string, rs: seq<Record>) {
    forall s :: Watched(filter, s) ==> PrimableSymbol(rs, s)
  }

  lemma TopPositive(m: map<string, int>, s: string, xs: seq<int>)
    requires Tops(m, s, xs)
    ensures SomePositive(xs) <==> (s in m ==> m[s] > 0)
  {
    if s in m {
      var i :| 0 <= i < |xs| && xs[i] == m[s];
    }
  }

  predicate PositiveAt(m: map<string, int>, s: string) {
    s in m ==> m[s] > 0
  }

  lemma PrimableSymbolIsPositive(filter: string, rs: seq<Record>, s: string)
    ensures var t := AdvanceAll(filter, NO_TRACKERS, rs);
            (Watched(filter, s) ==> PrimableSymbol(rs, s)) <==>
                PositiveAt(t.depth, s) && PositiveAt(t.trade, s) && PositiveAt(t.time, s)
  {
    var t := AdvanceAll(filter, NO_TRACKERS, rs);
    if Watched(filter, s) {
      TrackersAreMaxima(filter, rs, s);
      TopPositive(t.depth, s, Ends(Spans(true, rs, s)));
      TopPositive(t.trade, s, Ends(Spans(false, rs, s)));
      TopPositive(t.time, s, Times(rs, s));
    } else {
      HiddenSymbolsUntracked(filter, rs, s);
    }
  }

  lemma PrimableIsPositive(filter: string, rs: seq<Record>)
    ensures Primable(filter, rs) <==>
            PositivePart(AdvanceAll(filter, NO_TRACKERS, rs)) == AdvanceAll(filter, NO_TRACKERS, rs)
  {
    var t := AdvanceAll(filter, NO_TRACKERS, rs);
    PositiveFixed(t.depth);
    PositiveFixed(t.trade);
    PositiveFixed(t.time);
    forall s
      ensures (Watched(filter, s) ==> PrimableSymbol(rs, s)) <==>
              PositiveAt(t.depth, s) && PositiveAt(t.trade, s) && PositiveAt(t.time, s)
    {
      PrimableSymbolIsPositive(filter, rs, s);
    }
  }

  ghost predicate AllPositive(m: map<string, int>) {
    forall s :: PositiveAt(m, s)
  }

  lemma PositiveFixed(m: map<string, int>)
    ensures Positive(m) == m <==> AllPositive(m)
  {
    if Positive(m) == m {
      forall s ensures PositiveAt(m, s) {
        assert s in m ==> s in Positive(m);
      }
    }
    if AllPositive(m) {
      assert forall s :: s in m ==> PositiveAt(m, s);
    }
  }

  /** RESUME EQUIVALENCE. After a primable prefix, priming it and processing the suffix leaves the
      trackers of the full run, and the full run's failures, row count and event count are those of
      processing the prefix followed by those of the resumed part. */
  lemma ResumeEquivalence(filter: string, prefix: seq<Record>, suffix: seq<Record>)
    requires Primable(filter, prefix)
    ensures var primed := PrimeAll(filter, NO_TRACKERS, prefix);
            && AdvanceAll(filter, primed, suffix) == AdvanceAll(filter, NO_TRACKERS, prefix + suffix)
            && EmitAll(filter, NO_TRACKERS, prefix + suffix)
              == EmitAll(filter, NO_TRACKERS, prefix) + EmitAll(filter, primed, suffix)
            && CountSelected(filter, prefix + suffix) == CountSelected(filter, prefix) + CountSelected(filter, suffix)
            && (forall kind :: CountKind(kind, EmitAll(filter, primed, suffix))
                   == CountKind(kind, EmitAll(filter, NO_TRACKERS, prefix + suffix)) - CountKind(kind,
                       EmitAll(filter, NO_TRACKERS, prefix)))
  {
    PrimeIsPositivePart(filter, prefix);
    PrimableIsPositive(filter, prefix);
    AdvanceAppend(filter, NO_TRACKERS, prefix, suffix);
    EmitAppend(filter, NO_TRACKERS, prefix, suffix);
    CountSelectedAppend(filter, prefix, suffix);
    var primed := PrimeAll(filter, NO_TRACKERS, prefix);
    forall kind
      ensures CountKind(kind, EmitAll(filter, primed, suffix))
           == CountKind(kind, EmitAll(filter, NO_TRACKERS, prefix + suffix)) - CountKind(kind,
               EmitAll(filter, NO_TRACKERS, prefix))
    {
      CountKindAppend(kind, EmitAll(filter, NO_TRACKERS, prefix), EmitAll(filter, primed, suffix));
    }
  }

  // ----- The exact condition -----

  /** Some depth update of every watched symbol in the prefix, if it has any, has a positive final id. */
  ghost predicate DepthPrimable(filter: string, rs: seq<Record>) {
    forall s :: Watched(filter, s) ==> SomePositive(Ends(Spans(true, rs, s)))
  }

  /** The resumed failures agree with the full run's for every continuation a parser can deliver. */
  ghost predicate ResumesFaithfully(filter: string, prefix: seq<Record>) {
    forall suffix: seq<Record> :: ShapedStream(suffix) ==>
      EmitAll(filter, PrimeAll(filter, NO_TRACKERS, prefix), suffix) ==
      EmitAll(filter, AdvanceAll(filter, NO_TRACKERS, prefix), suffix)
  }

  /** For rows that passed the shape check, trade ids and times are positive. */
  lemma {:induction false} ShapedSpans(rs: seq<Record>, s: string)
    requires ShapedStream(rs)
    ensures forall i :: 0 <= i < |Ends(Spans(false, rs, s))| ==> Ends(Spans(false, rs, s))[i] > 0
    ensures forall i :: 0 <= i < |Times(rs, s)| ==> Times(rs, s)[i] > 0
    ensures s == "" ==> Spans(true, rs, s) == []
  {
    if rs != [] {
      ShapedSpans(Front(rs), s);
      assert ShapedRecord(Last(rs));
      EndsSnoc(false, rs, s);
    }
  }

  lemma ShapedPrimable(filter: string, rs: seq<Record>)
    requires ShapedStream(rs)
    ensures Primable(filter, rs) <==> DepthPrimable(filter, rs)
  {
    forall s ensures PrimableSymbol(rs, s) <==> SomePositive(Ends(Spans(true, rs, s))) {
      ShapedSpans(rs, s);
      if Times(rs, s) != [] { assert Times(rs, s)[0] > 0; }
      if Ends(Spans(false, rs, s)) != [] { assert Ends(Spans(false, rs, s))[0] > 0; }
    }
  }

  lemma OneRow(filter: string, t: Trackers, rec: Record)
    ensures EmitAll(filter, t, [rec]) == Emit(filter, t, rec)
  {
    assert Front([rec]) == [];
    EmitAllLast(filter, t, [rec]);
    assert [] + Emit(filter, t, rec) == Emit(filter, t, rec);
  }

  /** A depth tracker at or below zero, once lost by priming, hides the gap of a repeated update. */
  lemma LostTrackerShows(filter: string, t: Trackers, s: string) returns (rec: Record)
    requires s != "" && Watched(filter, s) && s in t.depth && t.depth[s] <= 0
    ensures ShapedRecord(rec)
    ensures EmitAll(filter, PositivePart(t), [rec]) != EmitAll(filter, t, [rec])
  {
    var p, last := PositivePart(t), t.depth[s];
    var ev := MarketEvent(Depth, s, 1, 0, last, last, 0, "", "", None, [PriceLevel("1", "1")], [], 0);
    rec := Good(0, ev);
    OneRow(filter, t, rec);
    OneRow(filter, p, rec);
    assert |TimeFailures(p, ev)| <= |TimeFailures(t, ev)|;
    assert |Emit(filter, p, rec)| < |Emit(filter, t, rec)|;
  }

  /** EXACT CONDITION. A resume reports what the full run reports, whatever follows the checkpoint,
      if and only if no watched symbol's depth updates in the prefix all have non-positive final ids. */
  lemma ResumeFaithfulIffPrimable(filter: string, prefix: seq<Record>)
    requires ShapedStream(prefix)
    ensures ResumesFaithfully(filter, prefix) <==> DepthPrimable(filter, prefix)
  {
    PrimeIsPositivePart(filter, prefix);
    PrimableIsPositive(filter, prefix);
    ShapedPrimable(filter, prefix);
    var t := AdvanceAll(filter, NO_TRACKERS, prefix);
    if !DepthPrimable(filter, prefix) {
      var s :| Watched(filter, s) && !SomePositive(Ends(Spans(true, prefix, s)));
      ShapedSpans(prefix, s);
      TrackersAreMaxima(filter, prefix, s);
      TopPositive(t.depth, s, Ends(Spans(true, prefix, s)));
      var rec := LostTrackerShows(filter, t, s);
      assert ShapedStream([rec]);
      assert !ResumesFaithfully(filter, prefix);
    }
  }
}
