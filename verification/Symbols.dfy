/** Symbols do not interfere: what the validator says about one symbol depends only on that symbol's events. */
module Symbols {
  import opened Events
  import opened SequenceValidator
  import opened Projections

  /** The failures attributed to `s`, without line numbers (which depend on the interleaving). */
  function Attributed(fs: seq<Failure>, s: string): seq<Failure> {
    if fs == [] then []
    else Attributed(Front(fs), s) + (if Last(fs).symbol == s then [Last(fs).(line := 0)] else [])
  }

  function Unlined(rec: Record): Record
    requires rec.Good?
  {
    Good(0, rec.event.(line := 0))
  }

  /** The stream that holds the events of `s` alone. */
  function Alone(rs: seq<Record>, s: string): seq<Record> {
    if rs == [] then []
    else Alone(Front(rs), s) + (if Last(rs).Good? && Last(rs).event.symbol == s then [Unlined(Last(rs))] else [])
  }

  lemma {:induction false} AttributedAppend(a: seq<Failure>, b: seq<Failure>, s: string)
    ensures Attributed(a + b, s) == Attributed(a, s) + Attributed(b, s)
  {
    if b == [] {
      assert a + b == a;
    } else {
      AttributedAppend(a, Front(b), s);
      SnocSplit(a, b);
    }
  }

  predicate SameAt(m: map<string, int>, n: map<string, int>, s: string) {
    (s in m <==> s in n) && (s in m ==> m[s] == n[s])
  }

  predicate Agree(t: Trackers, u: Trackers, s: string) {
    SameAt(t.depth, u.depth, s) && SameAt(t.trade, u.trade, s) && SameAt(t.time, u.time, s)
  }

  lemma {:induction false} AttributedAll(fs: seq<Failure>, s: string)
    requires forall i :: 0 <= i < |fs| ==> fs[i].symbol == s
    ensures |Attributed(fs, s)| == |fs|
    ensures forall i :: 0 <= i < |fs| ==> Attributed(fs, s)[i] == fs[i].(line := 0)
  {
    if fs != [] {
      AttributedAll(Front(fs), s);
    }
  }

  lemma {:induction false} AttributedNone(fs: seq<Failure>, s: string)
    requires forall i :: 0 <= i < |fs| ==> fs[i].symbol != s
    ensures Attributed(fs, s) == []
  {
    if fs != [] {
      AttributedNone(Front(fs), s);
    }
  }

  lemma AttributedIf(condition: bool, f: Failure)
    ensures Attributed(If(condition, f), f.symbol) == If(condition, f.(line := 0))
  {
    AttributedAll(If(condition, f), f.symbol);
  }

  lemma IdFailuresAgree(m: map<string, int>, n: map<string, int>, ev: MarketEvent, from: int, to: int, gap: string,
                        stalled: string)
    requires SameAt(m, n, ev.symbol)
    ensures Attributed(IdFailures(m, ev, from, to, gap, stalled), ev.symbol)
            == IdFailures(n, ev.(line := 0), from, to, gap, stalled)
  {
    if ev.symbol in m {
      var a, b := Failure(ev.line, ev.symbol, SequenceGap, gap), Failure(ev.line, ev.symbol, Ordering, stalled);
      AttributedIf(from != m[ev.symbol] + 1, a);
      AttributedIf(to <= m[ev.symbol], b);
      AttributedAppend(If(from != m[ev.symbol] + 1, a), If(to <= m[ev.symbol], b), ev.symbol);
    }
  }

  lemma TimeFailuresAgree(t: Trackers, u: Trackers, ev: MarketEvent)
    requires Agree(t, u, ev.symbol)
    ensures Attributed(TimeFailures(t, ev), ev.symbol) == TimeFailures(u, ev.(line := 0))
  {
    assert ev.(line := 0).TimeMillis() == ev.TimeMillis();
    AttributedIf(ev.symbol in t.time
        && ev.TimeMillis() < t.time[ev.symbol], Failure(ev.line, ev.symbol, Ordering, TIME_BACKWARDS));
  }

  lemma EventFailuresAgree(t: Trackers, u: Trackers, ev: MarketEvent)
    requires Agree(t, u, ev.symbol)
    ensures Attributed(TimeFailures(t, ev) + SequenceFailures(t, ev), ev.symbol)
         == TimeFailures(u, ev.(line := 0)) + SequenceFailures(u, ev.(line := 0))
  {
    TimeFailuresAgree(t, u, ev);
    AttributedAppend(TimeFailures(t, ev), SequenceFailures(t, ev), ev.symbol);
    if ev.kind.Depth? {
      IdFailuresAgree(t.depth, u.depth, ev, ev.firstUpdateID, ev.finalUpdateID, DEPTH_GAP, DEPTH_STALLED);
    } else if ev.kind.AggTrade? {
      IdFailuresAgree(t.trade, u.trade, ev, ev.tradeID, ev.tradeID, TRADE_GAP, TRADE_STALLED);
    }
  }

  lemma EmitAgrees(filter: string, t: Trackers, u: Trackers, rec: Record, s: string)
    requires Watched(filter, s) && s != "" && Agree(t, u, s)
    ensures rec.Good? && rec.event.symbol == s ==> Attributed(Emit(filter, t, rec), s) == Emit("", u, Unlined(rec))
    ensures !(rec.Good? && rec.event.symbol == s) ==> Attributed(Emit(filter, t, rec), s) == []
  {
    if rec.Good? && rec.event.symbol == s {
      EventFailuresAgree(t, u, rec.event);
    } else {
      AttributedNone(Emit(filter, t, rec), s);
    }
  }

  lemma AdvanceAgrees(filter: string, t: Trackers, u: Trackers, rec: Record, s: string)
    requires Watched(filter, s) && Agree(t, u, s)
    ensures rec.Good? && rec.event.symbol == s ==> Agree(Advance(filter, t, rec), Advance("", u, Unlined(rec)), s)
    ensures !(rec.Good? && rec.event.symbol == s) ==> Agree(Advance(filter, t, rec), u, s)
  {
    if rec.Good? && rec.event.symbol == s {
      assert Unlined(rec).event.TimeMillis() == rec.event.TimeMillis();
    }
  }

  lemma AloneSnoc(rs: seq<Record>, s: string)
    requires rs != [] && Last(rs).Good? && Last(rs).event.symbol == s
    ensures Alone(rs, s) != [] && Front(Alone(rs, s)) == Alone(Front(rs), s) && Last(Alone(rs, s)) == Unlined(Last(rs))
  {
  }

  lemma {:induction false} TrackersAgree(filter: string, rs: seq<Record>, s: string)
    requires Watched(filter, s)
    ensures Agree(AdvanceAll(filter, NO_TRACKERS, rs), AdvanceAll("", NO_TRACKERS, Alone(rs, s)), s)
  {
    if rs != [] {
      TrackersAgree(filter, Front(rs), s);
      AdvanceAgrees(filter, AdvanceAll(filter, NO_TRACKERS, Front(rs)),
          AdvanceAll("", NO_TRACKERS, Alone(Front(rs), s)), Last(rs), s);
      if Last(rs).Good? && Last(rs).event.symbol == s {
        AloneSnoc(rs, s);
      } else {
        assert Alone(rs, s) == Alone(Front(rs), s);
      }
    }
  }

  /** SYMBOL NON-INTERFERENCE. Whatever the filter lets through, the failures attributed to a watched
      symbol are those of a run over that symbol's events alone. */
  lemma {:induction false} SymbolIsolation(filter: string, rs: seq<Record>, s: string)
    requires Watched(filter, s) && s != ""
    ensures Attributed(EmitAll(filter, NO_TRACKERS, rs), s) == EmitAll("", NO_TRACKERS, Alone(rs, s))
  {
    if rs != [] {
      SymbolIsolation(filter, Front(rs), s);
      TrackersAgree(filter, Front(rs), s);
      var t, u := AdvanceAll(filter, NO_TRACKERS, Front(rs)), AdvanceAll("", NO_TRACKERS, Alone(Front(rs), s));
      EmitAgrees(filter, t, u, Last(rs), s);
      EmitAllLast(filter, NO_TRACKERS, rs);
      AttributedAppend(EmitAll(filter, NO_TRACKERS, Front(rs)), Emit(filter, t, Last(rs)), s);
      if Last(rs).Good? && Last(rs).event.symbol == s {
        AloneSnoc(rs, s);
        EmitAllLast("", NO_TRACKERS, Alone(rs, s));
      } else {
        assert Alone(rs, s) == Alone(Front(rs), s);
      }
    }
  }

  lemma {:induction false} AloneCounts(rs: seq<Record>, s: string)
    requires s != ""
    ensures CountSelected(s, rs) == |Alone(rs, s)|
  {
    if rs != [] {
      AloneCounts(Front(rs), s);
    }
  }

  /** The failures attributed to `s`, as they were logged. */
  function About(fs: seq<Failure>, s: string): seq<Failure> {
    if fs == [] then []
    else About(Front(fs), s) + (if Last(fs).symbol == s then [Last(fs)] else [])
  }

  lemma {:induction false} AboutAppend(a: seq<Failure>, b: seq<Failure>, s: string)
    ensures About(a + b, s) == About(a, s) + About(b, s)
  {
    if b == [] {
      assert a + b == a;
    } else {
      AboutAppend(a, Front(b), s);
      SnocSplit(a, b);
    }
  }

  lemma {:induction false} AboutNone(fs: seq<Failure>, s: string)
    requires forall i :: 0 <= i < |fs| ==> fs[i].symbol != s
    ensures About(fs, s) == []
  {
    if fs != [] {
      AboutNone(Front(fs), s);
    }
  }

  lemma SameFailures(t: Trackers, u: Trackers, ev: MarketEvent)
    requires Agree(t, u, ev.symbol)
    ensures TimeFailures(t, ev) == TimeFailures(u, ev) && SequenceFailures(t, ev) == SequenceFailures(u, ev)
  {
  }

  lemma OthersFailures(filter: string, t: Trackers, rec: Record, s: string)
    requires s != "" && !(rec.Good? && rec.event.symbol == s)
    ensures About(Emit(filter, t, rec), s) == []
  {
    AboutNone(Emit(filter, t, rec), s);
  }

  /** A row adds the same failures about `s` under any two filters that let `s` through. */
  lemma RowsAgree(f: string, g: string, t: Trackers, u: Trackers, rec: Record, s: string)
    requires Watched(f, s) && Watched(g, s) && s != "" && Agree(t, u, s)
    ensures About(Emit(f, t, rec), s) == About(Emit(g, u, rec), s)
  {
    if rec.Good? && rec.event.symbol == s {
      SameFailures(t, u, rec.event);
      assert Emit(f, t, rec) == Emit(g, u, rec);
    } else {
      OthersFailures(f, t, rec, s);
      OthersFailures(g, u, rec, s);
    }
  }

  lemma {:induction false} FiltersAgree(f: string, g: string, rs: seq<Record>, s: string)
    requires Watched(f, s) && Watched(g, s) && s != ""
    ensures About(EmitAll(f, NO_TRACKERS, rs), s) == About(EmitAll(g, NO_TRACKERS, rs), s)
  {
    if rs != [] {
      FiltersAgree(f, g, Front(rs), s);
      TrackersAgree(f, Front(rs), s);
      TrackersAgree(g, Front(rs), s);
      var t, u := AdvanceAll(f, NO_TRACKERS, Front(rs)), AdvanceAll(g, NO_TRACKERS, Front(rs));
      RowsAgree(f, g, t, u, Last(rs), s);
      EmitAllLast(f, NO_TRACKERS, rs);
      EmitAllLast(g, NO_TRACKERS, rs);
      AboutAppend(EmitAll(f, NO_TRACKERS, Front(rs)), Emit(f, t, Last(rs)), s);
      AboutAppend(EmitAll(g, NO_TRACKERS, Front(rs)), Emit(g, u, Last(rs)), s);
    }
  }

  /** The unfiltered validator and the one filtered to `s` log the same failures about `s`, line numbers
      included; the unfiltered one's count for `s` is the filtered one's event count, and both are the number
      of events of `s`. */
  lemma FilterAgrees(rs: seq<Record>, s: string)
    requires s != ""
    ensures About(EmitAll("", NO_TRACKERS, rs), s) == About(EmitAll(s, NO_TRACKERS, rs), s)
    ensures CountOf(TallyAll("", rs), s) == CountSelected(s, rs) == |Alone(rs, s)|
  {
    FiltersAgree("", s, rs, s);
    TallyCounts("", rs, s);
    AloneCounts(rs, s);
  }

  // ----- Totals are sums over symbols -----

  ghost function Pick(symbols: set<string>): (s: string)
    requires symbols != {}
    ensures s in symbols
  {
    var s :| s in symbols;
    s
  }

  ghost function SumOver(symbols: set<string>, kind: FailureKind, fs: seq<Failure>): nat {
    if symbols == {} then 0 else
      CountKind(kind, Attributed(fs, Pick(symbols))) + SumOver(symbols - {Pick(symbols)}, kind, fs)
  }

  lemma AttributedSnoc(kind: FailureKind, fs: seq<Failure>, s: string)
    requires fs != []
    ensures CountKind(kind, Attributed(fs, s))
         == CountKind(kind, Attributed(Front(fs), s)) + (if Last(fs).symbol == s && Last(fs).kind == kind then 1 else 0)
  {
    if Last(fs).symbol == s {
      assert Front(Attributed(fs, s)) == Attributed(Front(fs), s);
    } else {
      assert Attributed(fs, s) == Attributed(Front(fs), s);
    }
  }

  lemma {:induction false} SumOverSnoc(symbols: set<string>, kind: FailureKind, fs: seq<Failure>)
    requires fs != []
    ensures SumOver(symbols, kind, fs)
         == SumOver(symbols, kind, Front(fs)) + (if Last(fs).symbol in symbols && Last(fs).kind == kind then 1 else 0)
    decreases symbols
  {
    if symbols != {} {
      var s := Pick(symbols);
      SumOverSnoc(symbols - {s}, kind, fs);
      AttributedSnoc(kind, fs, s);
    }
  }

  lemma {:induction false} SumOverEmpty(symbols: set<string>, kind: FailureKind)
    ensures SumOver(symbols, kind, []) == 0
    decreases symbols
  {
    if symbols != {} {
      SumOverEmpty(symbols - {Pick(symbols)}, kind);
    }
  }

  ghost predicate Listed(symbols: set<string>, kind: FailureKind, fs: seq<Failure>) {
    forall i :: 0 <= i < |fs| && fs[i].kind == kind ==> fs[i].symbol in symbols
  }

  lemma {:induction false} TotalIsSum(symbols: set<string>, kind: FailureKind, fs: seq<Failure>)
    requires Listed(symbols, kind, fs)
    ensures CountKind(kind, fs) == SumOver(symbols, kind, fs)
  {
    if fs == [] {
      SumOverEmpty(symbols, kind);
    } else {
      TotalIsSum(symbols, kind, Front(fs));
      SumOverSnoc(symbols, kind, fs);
    }
  }

  lemma {:induction false} SumOverSame(symbols: set<string>, kind: FailureKind, fs: seq<Failure>, gs: seq<Failure>)
    requires forall s :: s in symbols ==> Attributed(fs, s) == Attributed(gs, s)
    ensures SumOver(symbols, kind, fs) == SumOver(symbols, kind, gs)
    decreases symbols
  {
    if symbols != {} {
      var s := Pick(symbols);
      SumOverSame(symbols - {s}, kind, fs, gs);
    }
  }

  function SymbolsIn(rs: seq<Record>): set<string> {
    set i | 0 <= i < |rs| && rs[i].Good? :: rs[i].event.symbol
  }

  /** Gaps and ordering failures are only ever attributed to symbols that occur. */
  lemma {:induction false} FailuresListed(filter: string, t: Trackers, rs: seq<Record>, symbols: set<string>,
                                          kind: FailureKind)
    requires SymbolsIn(rs) <= symbols && kind != Malformed
    ensures Listed(symbols, kind, EmitAll(filter, t, rs))
  {
    if rs != [] {
      forall s | s in SymbolsIn(Front(rs)) ensures s in symbols {
        assert s in SymbolsIn(rs);
      }
      FailuresListed(filter, t, Front(rs), symbols, kind);
      EmitAllLast(filter, t, rs);
      if Last(rs).Good? {
        assert Last(rs).event.symbol in SymbolsIn(rs);
      }
      EmitListed(filter, AdvanceAll(filter, t, Front(rs)), Last(rs), symbols, kind);
    }
  }

  lemma EmitListed(filter: string, t: Trackers, rec: Record, symbols: set<string>, kind: FailureKind)
    requires rec.Good? ==> rec.event.symbol in symbols
    requires kind != Malformed
    ensures Listed(symbols, kind, Emit(filter, t, rec))
  {
  }

  ghost function SumTallies(symbols: set<string>, counts: map<string, nat>): nat {
    if symbols == {} then 0 else
      CountOf(counts, Pick(symbols)) + SumTallies(symbols - {Pick(symbols)}, counts)
  }

  lemma {:induction false} SumTalliesCount(symbols: set<string>, counts: map<string, nat>, s: string)
    ensures SumTallies(symbols, counts[s := CountOf(counts, s) + 1])
         == SumTallies(symbols, counts) + (if s in symbols then 1 else 0)
    decreases symbols
  {
    if symbols != {} {
      SumTalliesCount(symbols - {Pick(symbols)}, counts, s);
    }
  }

  lemma {:induction false} SumTalliesEmpty(symbols: set<string>)
    ensures SumTallies(symbols, map[]) == 0
    decreases symbols
  {
    if symbols != {} {
      SumTalliesEmpty(symbols - {Pick(symbols)});
    }
  }

  /** The per-symbol event counts add up to the event count. */
  lemma {:induction false} EventsAddUp(filter: string, rs: seq<Record>, symbols: set<string>)
    requires SymbolsIn(rs) <= symbols
    ensures SumTallies(symbols, TallyAll(filter, rs)) == CountSelected(filter, rs)
    decreases |rs|
  {
    if rs == [] {
      SumTalliesEmpty(symbols);
    } else {
      forall s | s in SymbolsIn(Front(rs)) ensures s in symbols {
        assert s in SymbolsIn(rs);
      }
      EventsAddUp(filter, Front(rs), symbols);
      if Selected(filter, Last(rs)) {
        assert Last(rs).event.symbol in SymbolsIn(rs);
        SumTalliesCount(symbols, TallyAll(filter, Front(rs)), Last(rs).event.symbol);
      }
    }
  }

  /** Totals are the sums over the symbols' separate runs. */
  lemma TotalsAddUp(rs: seq<Record>, kind: FailureKind)
    requires kind != Malformed && ShapedStream(rs)
    ensures CountKind(kind, EmitAll("", NO_TRACKERS, rs)) == SumOver(SymbolsIn(rs), kind, EmitAll("", NO_TRACKERS, rs))
    ensures forall s :: s in SymbolsIn(rs) ==>
              Attributed(EmitAll("", NO_TRACKERS, rs), s) == EmitAll("", NO_TRACKERS, Alone(rs, s))
  {
    FailuresListed("", NO_TRACKERS, rs, SymbolsIn(rs), kind);
    TotalIsSum(SymbolsIn(rs), kind, EmitAll("", NO_TRACKERS, rs));
    forall s | s in SymbolsIn(rs)
      ensures Attributed(EmitAll("", NO_TRACKERS, rs), s) == EmitAll("", NO_TRACKERS, Alone(rs, s))
    {
      var i :| 0 <= i < |rs| && rs[i].Good? && rs[i].event.symbol == s;
      assert ShapedRecord(rs[i]);
      SymbolIsolation("", rs, s);
    }
  }

  /** Two streams that interleave the same per-symbol events in different ways, with any malformed rows
      in between, have the same number of gaps and the same number of ordering failures. */
  lemma InterleavingIrrelevant(rs: seq<Record>, qs: seq<Record>, kind: FailureKind)
    requires kind != Malformed && ShapedStream(rs) && ShapedStream(qs)
    requires forall s :: Alone(rs, s) == Alone(qs, s)
    ensures CountKind(kind, EmitAll("", NO_TRACKERS, rs)) == CountKind(kind, EmitAll("", NO_TRACKERS, qs))
  {
    var all := SymbolsIn(rs) + SymbolsIn(qs);
    var fs, gs := EmitAll("", NO_TRACKERS, rs), EmitAll("", NO_TRACKERS, qs);
    FailuresListed("", NO_TRACKERS, rs, all, kind);
    FailuresListed("", NO_TRACKERS, qs, all, kind);
    TotalIsSum(all, kind, fs);
    TotalIsSum(all, kind, gs);
    forall s | s in all ensures Attributed(fs, s) == Attributed(gs, s) {
      assert s != "" by {
        if s in SymbolsIn(rs) {
          var i :| 0 <= i < |rs| && rs[i].Good? && rs[i].event.symbol == s;
          assert ShapedRecord(rs[i]);
        } else {
          var i :| 0 <= i < |qs| && qs[i].Good? && qs[i].event.symbol == s;
          assert ShapedRecord(qs[i]);
        }
      }
      SymbolIsolation("", rs, s);
      SymbolIsolation("", qs, s);
    }
    SumOverSame(all, kind, fs, gs);
  }
}
