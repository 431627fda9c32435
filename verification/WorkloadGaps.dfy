/** Validating a generated workload: the source's gaps multiply exactly, and nothing is out of order. */
module WorkloadGaps {
  import opened Events
  import opened SequenceValidator
  import opened Projections
  import opened Parser
  import opened Workload
  import opened Breaks
  import opened Arithmetic

  /** A row decodes to an event of symbol `s` with the given identifiers and time. */
  ghost predicate Yields(depth: bool, rec: Record, s: string, span: Span, time: int) {
    Covers(depth, rec, s) && SpanOf(depth, rec.event) == span && rec.event.TimeMillis() == time
  }

  ghost predicate YieldsAll(depth: bool, rs: seq<Record>, s: string, spans: seq<Span>, times: seq<int>) {
    |spans| == |times| == |rs| && forall i :: 0 <= i < |rs| ==> Yields(depth, rs[i], s, spans[i], times[i])
  }

  lemma YieldsProjections(depth: bool, rs: seq<Record>, s: string, spans: seq<Span>, times: seq<int>)
    requires YieldsAll(depth, rs, s, spans, times)
    ensures Lone(depth, rs, s) && Spans(depth, rs, s) == spans && Times(rs, s) == times
  {
    assert forall i :: 0 <= i < |rs| ==> Yields(depth, rs[i], s, spans[i], times[i]);
    LoneProjections(depth, rs, s);
  }

  function Shifted(sp: Span, off: int): Span {
    Span(sp.from + off, sp.to + off)
  }

  /** Identifiers and time of row `k` of the repetition. */
  function CycleSpan(spans: seq<Span>, k: nat): Span
    requires spans != []
  {
    Shifted(spans[Rem(k, |spans|)], Offset(Quot(k, |spans|), Width(spans)))
  }

  function CycleTime(times: seq<int>, k: nat): int
    requires times != []
  {
    times[Rem(k, |times|)] + Offset(Quot(k, |times|), Last(times) - times[0] + 1)
  }

  lemma CycleAt(spans: seq<Span>, times: seq<int>, k: nat, q: nat, p: nat)
    requires |spans| == |times| > 0 && q == Quot(k, |spans|) && p == Rem(k, |spans|)
    ensures CycleSpan(spans, k) == Shifted(spans[p], Offset(q, Width(spans)))
    ensures CycleTime(times, k) == times[p] + Offset(q, Last(times) - times[0] + 1)
  {
  }

  ghost predicate Cycles(depth: bool, gen: seq<Record>, s: string, spans: seq<Span>, times: seq<int>)
    requires |spans| == |times| > 0
  {
    forall k :: 0 <= k < |gen| ==> Yields(depth, gen[k], s, CycleSpan(spans, k), CycleTime(times, k))
  }

  /** The ids of the repetition, and its times if they are shifted too. */
  lemma CyclesRepeat(depth: bool, gen: seq<Record>, s: string, spans: seq<Span>, times: seq<int>)
    requires |spans| == |times| > 0 && Cycles(depth, gen, s, spans, times)
    ensures Lone(depth, gen, s) && Repeats(spans, Spans(depth, gen, s)) && RepeatsTimes(times, Times(gen, s))
  {
    var g := seq(|gen|, k requires 0 <= k < |gen| => CycleSpan(spans, k));
    var ts := seq(|gen|, k requires 0 <= k < |gen| => CycleTime(times, k));
    assert YieldsAll(depth, gen, s, g, ts);
    YieldsProjections(depth, gen, s, g, ts);
  }

  lemma CycledGaps(depth: bool, src: seq<Record>, gen: seq<Record>, s: string, spans: seq<Span>, times: seq<int>)
    requires src != [] && YieldsAll(depth, src, s, spans, times) && Rising(spans) && Climbing(times)
    requires spans[0].from <= spans[0].to && Cycles(depth, gen, s, spans, times)
    ensures Gaps(gen) == (|gen| / |src|) * Gaps(src) + Gaps(src[..|gen| % |src|])
    ensures OutOfOrder(gen) == 0
  {
    YieldsProjections(depth, src, s, spans, times);
    CyclesRepeat(depth, gen, s, spans, times);
    GapsMultiply(depth, src, gen, s);
    RepeatClimbs(times, Times(gen, s));
  }

  // ----- Sources whose ids the generator leaves alone -----

  /** Row `k` has the ids of source row `k` mod r, and in the first cycle also its time. */
  ghost predicate RecurringRow(depth: bool, src: seq<Record>, gen: seq<Record>, s: string, k: nat)
    requires src != [] && k < |gen|
  {
    var rec := src[Rem(k, |src|)];
    && rec.Good? && Covers(depth, gen[k], s) && SpanOf(depth, gen[k].event) == SpanOf(depth, rec.event)
    && (k < |src| ==> gen[k].event.TimeMillis() == rec.event.TimeMillis())
  }

  /** A one-symbol source as it is read: well-formed rows, increasing ids, non-decreasing times. */
  ghost predicate OrderedSource(depth: bool, src: seq<Record>, s: string) {
    src != [] && ShapedStream(src) && RisingStream(depth, src, s) && Climbing(Times(src, s))
  }

  lemma RangesNonEmpty(depth: bool, src: seq<Record>, s: string)
    requires OrderedSource(depth, src, s)
    ensures NonEmptyRanges(Spans(depth, src, s))
  {
    LoneProjections(depth, src, s);
    forall i | 0 <= i < |src| ensures Spans(depth, src, s)[i].from <= Spans(depth, src, s)[i].to {
      assert ShapedRecord(src[i]) && Covers(depth, src[i], s);
    }
  }

  lemma RecurringRows(depth: bool, src: seq<Record>, gen: seq<Record>, s: string)
    requires OrderedSource(depth, src, s) && forall k: nat :: k < |gen| ==> RecurringRow(depth, src, gen, s, k)
    ensures OutOfOrder(gen) == 0 <==> |gen| <= |src|
    ensures Gaps(gen) == if |gen| <= |src| then Gaps(src[..|gen|]) else Gaps(src) + |gen| - |src|
  {
    forall k: nat | k < |gen| ensures Covers(depth, gen[k], s) {
      assert RecurringRow(depth, src, gen, s, k);
    }
    LoneProjections(depth, src, s);
    LoneProjections(depth, gen, s);
    RangesNonEmpty(depth, src, s);
    forall k: nat | k < |gen|
      ensures Spans(depth, gen, s)[k] == Spans(depth, src, s)[Rem(k, |src|)]
      ensures k < |src| ==> Times(gen, s)[k] == Times(src, s)[k]
    {
      assert RecurringRow(depth, src, gen, s, k);
      assert k < |src| ==> Rem(k, |src|) == k;
    }
    RecurringIff(depth, src, gen, s);
  }

  lemma JsonAgain(obj: JsonObject, m: int, n: int)
    requires ParseObject(obj, m).Ok?
    ensures ParseObject(obj, n) == Ok(ParseObject(obj, m).value.(line := n))
  {
    assert Shaped(ParseObject(obj, m).value.(line := n));
  }

  lemma CsvAgain(cells: Cells, m: int, n: int)
    requires ParseCsv(cells, m).Ok?
    ensures ParseCsv(cells, n) == Ok(ParseCsv(cells, m).value.(line := n))
  {
    assert Shaped(ParseCsv(cells, m).value.(line := n));
  }

  /** The line number does not matter to what a row decodes to. */
  lemma DecodeAgain(row: Row, was: Record, now: Record, m: int, n: int)
    requires was == Decode(row, m) && now == Decode(row, n) && was.Good?
    ensures now == Good(n, was.event.(line := n))
  {
    match row
    case JsonRow(text) =>
      if text.Object? {
        JsonAgain(text.obj, m, n);
      }
    case CsvRow(cells) => CsvAgain(cells, m, n);
    case BadCsv(_) =>
  }

  /** Row `k` of the output is source row `k` mod r as it stands. */
  predicate SameRow(rows: seq<Row>, out: seq<Row>, k: nat)
    requires rows != [] && k < |out|
  {
    out[k] == rows[Rem(k, |rows|)]
  }

  /** A decoder to which the line number makes no difference beyond the number itself. */
  ghost predicate LineBlind(decode: (Row, int) -> Record) {
    forall row: Row, m: int, n: int :: SameDecoded(decode, row, m, n)
  }

  ghost predicate SameDecoded(decode: (Row, int) -> Record, row: Row, m: int, n: int) {
    decode(row, m).Good? ==> decode(row, n) == Good(n, decode(row, m).event.(line := n))
  }

  ghost predicate DecodesAt(decode: (Row, int) -> Record, rows: seq<Row>, header: nat, rs: seq<Record>, i: nat)
    requires i < |rows| == |rs|
  {
    rs[i] == decode(rows[i], header + i + 1)
  }

  ghost predicate DecodesAll(decode: (Row, int) -> Record, rows: seq<Row>, header: nat, rs: seq<Record>) {
    |rows| == |rs| && forall i: nat :: i < |rows| ==> DecodesAt(decode, rows, header, rs, i)
  }

  lemma DecodeIsLineBlind()
    ensures LineBlind(Decode)
  {
    forall row: Row, m: int, n: int ensures SameDecoded(Decode, row, m, n) {
      if Decode(row, m).Good? {
        DecodeAgain(row, Decode(row, m), Decode(row, n), m, n);
      }
    }
  }

  lemma RecordsDecode(rows: seq<Row>, header: nat)
    ensures DecodesAll(Decode, rows, header, Records(rows, header))
  {
  }

  /** Another line number changes neither ids nor time. */
  lemma SameButLine(depth: bool, ev: MarketEvent, line: int, s: string)
    requires Covers(depth, Good(0, ev), s)
    ensures var now := ev.(line := line);
            Covers(depth, Good(line, now), s) && SpanOf(depth, now) == SpanOf(depth, ev)
                && now.TimeMillis() == ev.TimeMillis()
  {
  }

  ghost predicate SameRows(rows: seq<Row>, out: seq<Row>)
    requires rows != []
  {
    forall k: nat :: k < |out| ==> SameRow(rows, out, k)
  }

  lemma VerbatimAt(depth: bool, decode: (Row, int) -> Record, rows: seq<Row>, out: seq<Row>, header: nat,
                   src: seq<Record>, gen: seq<Record>, s: string, k: nat)
    requires LineBlind(decode) && rows != [] && SameRows(rows, out)
    requires DecodesAll(decode, rows, header, src) && DecodesAll(decode, out, header, gen)
    requires k < |gen| && Covers(depth, src[Rem(k, |src|)], s)
    ensures RecurringRow(depth, src, gen, s, k)
  {
    var p := Rem(k, |rows|);
    assert DecodesAt(decode, rows, header, src, p) && DecodesAt(decode, out, header, gen, k) && SameRow(rows, out, k);
    assert SameDecoded(decode, rows[p], header + p + 1, header + k + 1);
    SameButLine(depth, src[p].event, header + k + 1, s);
  }

  lemma VerbatimRecords(depth: bool, decode: (Row, int) -> Record, rows: seq<Row>, out: seq<Row>, header: nat,
                        src: seq<Record>, gen: seq<Record>, s: string)
    requires LineBlind(decode) && rows != [] && SameRows(rows, out)
    requires DecodesAll(decode, rows, header, src) && DecodesAll(decode, out, header, gen)
    requires OrderedSource(depth, src, s)
    ensures OutOfOrder(gen) == 0 <==> |gen| <= |src|
    ensures Gaps(gen) == if |gen| <= |src| then Gaps(src[..|gen|]) else Gaps(src) + |gen| - |src|
  {
    forall k: nat | k < |gen| ensures RecurringRow(depth, src, gen, s, k) {
      assert Covers(depth, src[Rem(k, |src|)], s);
      VerbatimAt(depth, decode, rows, out, header, src, gen, s, k);
    }
    RecurringRows(depth, src, gen, s);
  }

  /** VERBATIM REPETITION. Rows repeated as they are have no ordering failure if and only if the repetition stops
      within the source; past it, every further row is one more gap. */
  lemma VerbatimRepetition(depth: bool, rows: seq<Row>, out: seq<Row>, header: nat, s: string)
    requires rows != [] && OrderedSource(depth, Records(rows, header), s) && SameRows(rows, out)
    ensures OutOfOrder(Records(out, header)) == 0 <==> |out| <= |rows|
    ensures Gaps(Records(out, header))
         == if |out| <= |rows| then Gaps(Records(rows, header)[..|out|])
             else Gaps(Records(rows, header)) + |out| - |rows|
  {
    DecodeIsLineBlind();
    RecordsDecode(rows, header);
    RecordsDecode(out, header);
    VerbatimRecords(depth, Decode, rows, out, header, Records(rows, header), Records(out, header), s);
  }

  // ----- Depth sources -----

  /** A depth line in the current format that parses, for symbol `s`. */
  predicate PlainDepth(line: JsonLine, s: string) {
    && Shiftable(line) && line.obj.sequence.None? && line.obj.prevSequence.None?
    && ParseJson(line, 0).Ok? && ParseJson(line, 0).value.symbol == s
  }

  function LineSpan(line: JsonLine): Span {
    if Shiftable(line) then Span(line.obj.firstUpdateID.value, line.obj.finalUpdateID.value) else Span(0, 0)
  }

  function LineTime(line: JsonLine): int {
    if Shiftable(line) then line.obj.eventTime.value else 0
  }

  /** Shifting a line forward shifts the event it parses to. */
  lemma ShiftedParses(line: JsonLine, s: string, a: int, b: int, n: int)
    requires PlainDepth(line, s) && a >= 0 && b >= 0
    ensures LineSpan(line).from <= LineSpan(line).to
    ensures var r := ParseObject(ShiftObject(line.obj, a, b), n);
            && r.Ok? && r.value.kind == Depth && r.value.symbol == s
            && SpanOf(true, r.value) == Shifted(LineSpan(line), a)
            && r.value.eventTimeMS > 0 && r.value.eventTimeMS == LineTime(line) + b
  {
    TypeRoundTrip(Depth);
    var was := ParseJson(line, 0).value;
    var now := Assemble(ShiftObject(line.obj, a, b), was.bids, was.asks, n);
    assert now == was.(firstUpdateID := was.firstUpdateID + a, finalUpdateID := was.finalUpdateID + a,
                       eventTimeMS := was.eventTimeMS + b, line := n);
    assert Shaped(now);
  }

  lemma ShiftedYields(line: JsonLine, s: string, a: int, b: int, n: int)
    requires PlainDepth(line, s) && a >= 0 && b >= 0
    ensures Yields(true, Decode(JsonRow(Object(ShiftObject(line.obj, a, b))), n), s, Shifted(LineSpan(line), a),
            LineTime(line) + b)
  {
    ShiftedParses(line, s, a, b, n);
    var row := JsonRow(Object(ShiftObject(line.obj, a, b)));
    assert Decode(row, n) == Good(n, ParseObject(ShiftObject(line.obj, a, b), n).value);
  }

  lemma PlainYields(line: JsonLine, s: string, n: int)
    requires PlainDepth(line, s)
    ensures Yields(true, Decode(JsonRow(line), n), s, LineSpan(line), LineTime(line))
  {
    ShiftedYields(line, s, 0, 0, n);
    assert Object(ShiftObject(line.obj, 0, 0)) == line;
  }

  /** A one-symbol depth source: well-formed rows, increasing final ids, non-decreasing times. */
  ghost predicate DepthSource(lines: seq<JsonLine>, s: string) {
    && lines != []
    && (forall i :: 0 <= i < |lines| ==> PlainDepth(lines[i], s))
    && Rising(LineSpans(lines)) && Climbing(LineTimes(lines))
  }

  function LineSpans(lines: seq<JsonLine>): seq<Span> {
    seq(|lines|, i requires 0 <= i < |lines| => LineSpan(lines[i]))
  }

  function LineTimes(lines: seq<JsonLine>): seq<int> {
    seq(|lines|, i requires 0 <= i < |lines| => LineTime(lines[i]))
  }

  function JsonRows(lines: seq<JsonLine>): seq<Row> {
    seq(|lines|, i requires 0 <= i < |lines| => JsonRow(lines[i]))
  }

  /** The records of a JSONL file. */
  function JsonRecords(lines: seq<JsonLine>): (rs: seq<Record>)
    ensures |rs| == |lines|
    ensures forall i :: 0 <= i < |lines| ==> rs[i] == Decode(JsonRow(lines[i]), i + 1)
  {
    Records(JsonRows(lines), 0)
  }

  lemma DepthSourceYields(lines: seq<JsonLine>, s: string)
    requires DepthSource(lines, s)
    ensures YieldsAll(true, JsonRecords(lines), s, LineSpans(lines), LineTimes(lines))
    ensures LineSpans(lines)[0].from <= LineSpans(lines)[0].to
  {
    var rs := JsonRecords(lines);
    forall i | 0 <= i < |rs| ensures Yields(true, rs[i], s, LineSpans(lines)[i], LineTimes(lines)[i]) {
      PlainYields(lines[i], s, i + 1);
    }
    assert PlainDepth(lines[0], s);
    ShiftedParses(lines[0], s, 0, 0, 0);
  }

  lemma NormalizerSpans(lines: seq<JsonLine>, n: Normalizer)
    requires lines != [] && (forall i :: 0 <= i < |lines| ==> Shiftable(lines[i])) && IsJsonNormalizer(n, lines)
    ensures n.enabled && n.rowCount == |lines| && n.IdSpan() == Width(LineSpans(lines))
    ensures n.TimeSpan() == Last(LineTimes(lines)) - LineTimes(lines)[0] + 1
  {
  }

  /** For a depth source the normalizer is on and its spans are those of the source. */
  lemma SourceNormalizer(lines: seq<JsonLine>, s: string, n: Normalizer)
    requires DepthSource(lines, s) && IsJsonNormalizer(n, lines)
    ensures n.enabled && n.rowCount == |lines|
    ensures n.IdSpan() == Width(LineSpans(lines)) > 0
    ensures n.TimeSpan() == Last(LineTimes(lines)) - LineTimes(lines)[0] + 1 > 0
  {
    assert forall i :: 0 <= i < |lines| ==> PlainDepth(lines[i], s);
    assert forall i :: 0 <= i < |lines| ==> Shiftable(lines[i]);
    NormalizerSpans(lines, n);
    RisingMax(LineSpans(lines), 0);
    ClimbingMax(LineTimes(lines), 0);
    ShiftedParses(lines[0], s, 0, 0, 0);
  }

  /** Row `k` of the repetition, with its shifts written out. */
  function ShiftedLine(n: Normalizer, lines: seq<JsonLine>, k: nat): JsonLine
    requires lines != []
  {
    var line := lines[Rem(k, |lines|)];
    if !Shiftable(line) then line
    else Object(ShiftObject(line.obj, Offset(Quot(k, |lines|), n.IdSpan()), Offset(Quot(k, |lines|), n.TimeSpan())))
  }

  lemma NormalizeShifts(n: Normalizer, lines: seq<JsonLine>, k: nat)
    requires lines != [] && n.enabled && n.rowCount == |lines| && n.IdSpan() > 0 && n.TimeSpan() > 0
    requires Shiftable(lines[Rem(k, |lines|)])
    ensures NormalizeJson(n, lines[k % |lines|], k) == ShiftedLine(n, lines, k)
  {
    QuotRemAreDivMod(k, |lines|);
    OffsetIsProduct(Quot(k, |lines|), n.IdSpan());
    OffsetIsProduct(Quot(k, |lines|), n.TimeSpan());
  }

  lemma GeneratedIsShifted(lines: seq<JsonLine>, s: string, n: Normalizer, out: seq<JsonLine>)
    requires DepthSource(lines, s) && IsJsonNormalizer(n, lines)
    requires GeneratesJson(n, lines, out)
    ensures forall k :: 0 <= k < |out| ==> out[k] == ShiftedLine(n, lines, k)
  {
    SourceNormalizer(lines, s, n);
    forall k | 0 <= k < |out| ensures out[k] == ShiftedLine(n, lines, k) {
      assert JsonAt(n, lines, out, k);
      assert PlainDepth(lines[Rem(k, |lines|)], s);
      NormalizeShifts(n, lines, k);
    }
  }

  /** Identifiers and time of generated row `k`, in the normalizer's terms. */
  function DepthSpan(n: Normalizer, lines: seq<JsonLine>, k: nat): Span
    requires lines != []
  {
    Shifted(LineSpan(lines[Rem(k, |lines|)]), Offset(Quot(k, |lines|), n.IdSpan()))
  }

  function DepthTime(n: Normalizer, lines: seq<JsonLine>, k: nat): int
    requires lines != []
  {
    LineTime(lines[Rem(k, |lines|)]) + Offset(Quot(k, |lines|), n.TimeSpan())
  }

  lemma GeneratedRow(n: Normalizer, lines: seq<JsonLine>, s: string, k: nat)
    requires lines != [] && PlainDepth(lines[Rem(k, |lines|)], s) && n.IdSpan() >= 0 && n.TimeSpan() >= 0
    ensures Yields(true, Decode(JsonRow(ShiftedLine(n, lines, k)), k + 1), s, DepthSpan(n, lines, k),
            DepthTime(n, lines, k))
  {
    var q, p := Quot(k, |lines|), Rem(k, |lines|);
    OffsetNonNegative(q, n.IdSpan());
    OffsetNonNegative(q, n.TimeSpan());
    ShiftedYields(lines[p], s, Offset(q, n.IdSpan()), Offset(q, n.TimeSpan()), k + 1);
  }

  lemma DepthInCycle(n: Normalizer, lines: seq<JsonLine>, k: nat)
    requires lines != []
    requires n.IdSpan() == Width(LineSpans(lines)) && n.TimeSpan() == Last(LineTimes(lines)) - LineTimes(lines)[0] + 1
    ensures DepthSpan(n, lines, k) == CycleSpan(LineSpans(lines), k)
    ensures DepthTime(n, lines, k) == CycleTime(LineTimes(lines), k)
  {
    CycleAt(LineSpans(lines), LineTimes(lines), k, Quot(k, |lines|), Rem(k, |lines|));
  }

  lemma GeneratedRowsYield(lines: seq<JsonLine>, s: string, n: Normalizer, out: seq<JsonLine>)
    requires lines != [] && (forall i :: 0 <= i < |lines| ==> PlainDepth(lines[i], s)) && n.IdSpan() >= 0
    requires n.TimeSpan() >= 0
    requires forall k :: 0 <= k < |out| ==> out[k] == ShiftedLine(n, lines, k)
    ensures forall k :: 0 <= k < |out| ==>
            Yields(true, JsonRecords(out)[k], s, DepthSpan(n, lines, k), DepthTime(n, lines, k))
  {
    forall k | 0 <= k < |out|
        ensures Yields(true, JsonRecords(out)[k], s, DepthSpan(n, lines, k), DepthTime(n, lines, k)) {
      GeneratedRow(n, lines, s, k);
    }
  }

  lemma GeneratedCycles(lines: seq<JsonLine>, s: string, n: Normalizer, out: seq<JsonLine>)
    requires DepthSource(lines, s) && IsJsonNormalizer(n, lines)
    requires forall k :: 0 <= k < |out| ==> out[k] == ShiftedLine(n, lines, k)
    ensures Cycles(true, JsonRecords(out), s, LineSpans(lines), LineTimes(lines))
  {
    SourceNormalizer(lines, s, n);
    GeneratedRowsYield(lines, s, n, out);
    forall k: nat | k < |out|
      ensures DepthSpan(n, lines, k) == CycleSpan(LineSpans(lines), k)
      ensures DepthTime(n, lines, k) == CycleTime(LineTimes(lines), k)
    {
      DepthInCycle(n, lines, k);
    }
  }

  /** GENERATED DEPTH WORKLOADS. Validating any number of rows generated from a one-symbol depth source
      yields q times the source's gaps plus the gaps of its first p rows, where q and p are the quotient
      and remainder of the row count by the source length, and no ordering failure. */
  lemma GeneratedDepthGaps(lines: seq<JsonLine>, s: string, n: Normalizer, out: seq<JsonLine>)
    requires DepthSource(lines, s) && IsJsonNormalizer(n, lines)
    requires GeneratesJson(n, lines, out)
    ensures Gaps(JsonRecords(out)) ==
            (|out| / |lines|) * Gaps(JsonRecords(lines)) + Gaps(JsonRecords(lines)[..|out| % |lines|])
    ensures OutOfOrder(JsonRecords(out)) == 0
  {
    DepthSourceYields(lines, s);
    GeneratedIsShifted(lines, s, n, out);
    GeneratedCycles(lines, s, n, out);
    CycledGaps(true, JsonRecords(lines), JsonRecords(out), s, LineSpans(lines), LineTimes(lines));
  }

  // ----- Depth sources that are not shifted -----

  lemma UnshiftedLines(lines: seq<JsonLine>, n: Normalizer, out: seq<JsonLine>)
    requires lines != [] && GeneratesJson(n, lines, out) && !n.enabled
    ensures SameRows(JsonRows(lines), JsonRows(out))
  {
    forall k: nat | k < |out| ensures SameRow(JsonRows(lines), JsonRows(out), k) {
      assert JsonAt(n, lines, out, k);
      QuotRemAreDivMod(k, |lines|);
    }
  }

  /** When the normalizer is off, lines are repeated as they are. */
  lemma UnshiftedDepth(lines: seq<JsonLine>, s: string, n: Normalizer, out: seq<JsonLine>)
    requires lines != [] && OrderedSource(true, JsonRecords(lines), s) && IsJsonNormalizer(n, lines) && !n.enabled
    requires GeneratesJson(n, lines, out)
    ensures OutOfOrder(JsonRecords(out)) == 0 <==> |out| <= |lines|
    ensures Gaps(JsonRecords(out))
         == if |out| <= |lines| then Gaps(JsonRecords(lines)[..|out|]) else Gaps(JsonRecords(lines)) + |out| - |lines|
  {
    UnshiftedLines(lines, n, out);
    VerbatimRepetition(true, JsonRows(lines), JsonRows(out), 0, s);
  }

  /** A line whose ids are read from the legacy sequence numbers. */
  predicate LegacyIds(line: JsonLine) {
    line.Object? && line.obj.sequence.Some? && line.obj.prevSequence.Some?
  }

  /** Shifting such a line moves its time and leaves its ids. */
  lemma LegacyShift(obj: JsonObject, a: int, b: int, n: int, m: int)
    requires obj.firstUpdateID.Some? && obj.finalUpdateID.Some? && obj.eventTime.Some? && LegacyIds(Object(obj))
    requires ParseObject(obj, m).Ok? && ParseObject(obj, m).value.kind.Depth? && b >= 0
    ensures var was := ParseObject(obj, m).value;
            ParseObject(ShiftObject(obj, a, b), n) == Ok(was.(eventTimeMS := was.eventTimeMS + b, line := n))
  {
    var was := ParseObject(obj, m).value;
    var now := Assemble(ShiftObject(obj, a, b), was.bids, was.asks, n);
    assert now == was.(eventTimeMS := was.eventTimeMS + b, line := n);
    assert Shaped(now);
  }

  /** However a legacy line is shifted, its ids recur, and in the first cycle its time does. */
  ghost predicate RecursWhenShifted(decode: (Row, int) -> Record, n: Normalizer, s: string, line: JsonLine, k: nat,
                                    m: int) {
    LegacyIds(line) && Covers(true, decode(JsonRow(line), m), s) ==>
      var was, now := decode(JsonRow(line), m), decode(JsonRow(NormalizeJson(n, line, k)), k + 1);
      && Covers(true, now, s) && SpanOf(true, now.event) == SpanOf(true, was.event)
      && (k < n.rowCount ==> now.event.TimeMillis() == was.event.TimeMillis())
  }

  ghost predicate LegacyBlind(decode: (Row, int) -> Record, n: Normalizer, s: string) {
    forall line: JsonLine, k: nat, m: int :: RecursWhenShifted(decode, n, s, line, k, m)
  }

  lemma LegacyRow(line: JsonLine, s: string, n: Normalizer, k: nat, m: int)
    ensures RecursWhenShifted(Decode, n, s, line, k, m)
  {
    if LegacyIds(line) && Covers(true, Decode(JsonRow(line), m), s) {
      DecodeAgain(JsonRow(line), Decode(JsonRow(line), m), Decode(JsonRow(line), k + 1), m, k + 1);
      if NormalizeJson(n, line, k) != line {
        var cycle := k / n.rowCount;
        CycleShift(cycle, n.TimeSpan());
        LegacyShift(line.obj, cycle * n.IdSpan(), cycle * n.TimeSpan(), k + 1, m);
        QuotRemAreDivMod(k, n.rowCount);
      }
    }
  }

  lemma LegacyRecords(decode: (Row, int) -> Record, lines: seq<JsonLine>, s: string, n: Normalizer, out: seq<JsonLine>,
                      src: seq<Record>, gen: seq<Record>)
    requires LegacyBlind(decode, n, s) && lines != [] && n.rowCount == |lines| && GeneratesJson(n, lines, out)
    requires DecodesAll(decode, JsonRows(lines), 0, src) && DecodesAll(decode, JsonRows(out), 0, gen)
    requires OrderedSource(true, src, s) && forall i :: 0 <= i < |lines| ==> LegacyIds(lines[i])
    ensures forall k: nat :: k < |gen| ==> RecurringRow(true, src, gen, s, k)
  {
    forall k: nat | k < |gen| ensures RecurringRow(true, src, gen, s, k) {
      var p := Rem(k, |lines|);
      QuotRemAreDivMod(k, |lines|);
      assert JsonAt(n, lines, out, k) && LegacyIds(lines[p]) && Covers(true, src[p], s);
      assert DecodesAt(decode, JsonRows(lines), 0, src, p) && DecodesAt(decode, JsonRows(out), 0, gen, k);
      assert RecursWhenShifted(decode, n, s, lines[p], k, p + 1);
    }
  }

  lemma CycleShift(cycle: nat, span: int)
    requires span > 0
    ensures cycle * span >= 0 && (cycle == 0 ==> cycle * span == 0)
  {
    OffsetIsProduct(cycle, span);
    OffsetNonNegative(cycle, span);
  }

  /** When the normalizer is on but every line's ids are legacy numbers, which win over the fields that the
      generator shifts, times move and ids recur. */
  lemma LegacyDepth(lines: seq<JsonLine>, s: string, n: Normalizer, out: seq<JsonLine>)
    requires lines != [] && OrderedSource(true, JsonRecords(lines), s) && IsJsonNormalizer(n, lines) && n.enabled
    requires forall i :: 0 <= i < |lines| ==> LegacyIds(lines[i])
    requires GeneratesJson(n, lines, out)
    ensures OutOfOrder(JsonRecords(out)) == 0 <==> |out| <= |lines|
    ensures Gaps(JsonRecords(out))
         == if |out| <= |lines| then Gaps(JsonRecords(lines)[..|out|]) else Gaps(JsonRecords(lines)) + |out| - |lines|
  {
    forall line: JsonLine, k: nat, m: int ensures RecursWhenShifted(Decode, n, s, line, k, m) {
      LegacyRow(line, s, n, k, m);
    }
    RecordsDecode(JsonRows(lines), 0);
    RecordsDecode(JsonRows(out), 0);
    LegacyRecords(Decode, lines, s, n, out, JsonRecords(lines), JsonRecords(out));
    RecurringRows(true, JsonRecords(lines), JsonRecords(out), s);
  }

  /** However a line with a legacy sequence number is shifted, it keeps its last id if it stays well-formed. */
  lemma SequenceStays(obj: JsonObject, a: int, b: int, n: int, m: int)
    requires obj.firstUpdateID.Some? && obj.finalUpdateID.Some? && obj.eventTime.Some? && obj.sequence.Some?
    requires ParseObject(obj, m).Ok? && ParseObject(obj, m).value.kind.Depth?
    ensures var was, r := ParseObject(obj, m).value, ParseObject(ShiftObject(obj, a, b), n);
            r.Ok? ==>
              r.value.kind == Depth && r.value.symbol == was.symbol && r.value.finalUpdateID == was.finalUpdateID
  {
  }

  /** What a line with a legacy sequence number becomes at position `k`: it keeps its last id or is malformed. */
  ghost predicate EndRecurs(decode: (Row, int) -> Record, n: Normalizer, s: string, line: JsonLine, k: nat, m: int) {
    var was, now := decode(JsonRow(line), m), decode(JsonRow(NormalizeJson(n, line, k)), k + 1);
    HasSequence(line) && Covers(true, was, s) && now.Good? ==>
      Covers(true, now, s) && SpanOf(true, now.event).to == SpanOf(true, was.event).to
  }

  predicate HasSequence(line: JsonLine) {
    line.Object? && line.obj.sequence.Some?
  }

  ghost predicate EndBlind(decode: (Row, int) -> Record, n: Normalizer, s: string) {
    forall line: JsonLine, k: nat, m: int :: EndRecurs(decode, n, s, line, k, m)
  }

  lemma SequenceRow(line: JsonLine, s: string, n: Normalizer, k: nat, m: int)
    ensures EndRecurs(Decode, n, s, line, k, m)
  {
    if HasSequence(line) && Covers(true, Decode(JsonRow(line), m), s) {
      DecodeAgain(JsonRow(line), Decode(JsonRow(line), m), Decode(JsonRow(line), k + 1), m, k + 1);
      if NormalizeJson(n, line, k) != line {
        var cycle := k / n.rowCount;
        SequenceStays(line.obj, cycle * n.IdSpan(), cycle * n.TimeSpan(), k + 1, m);
      }
    }
  }

  /** In its first cycle a line is written as it stands. */
  lemma FirstCycleUnshifted(line: JsonLine, n: Normalizer, k: nat)
    requires k < n.rowCount
    ensures NormalizeJson(n, line, k) == line
  {
    QuotRemAreDivMod(k, n.rowCount);
    assert k / n.rowCount == 0;
    if line.Object? && line.obj.firstUpdateID.Some? && line.obj.finalUpdateID.Some? && line.obj.eventTime.Some? {
      assert ShiftObject(line.obj, 0, 0) == line.obj;
    }
  }

  /** Where line `i` stands in the output: as it is in the first cycle, and again one cycle later. */
  lemma TwiceWritten(lines: seq<JsonLine>, n: Normalizer, out: seq<JsonLine>, i: nat)
    requires lines != [] && GeneratesJson(n, lines, out) && i < |lines| && n.rowCount == |lines| && |lines| + i < |out|
    ensures out[i] == lines[i] && out[|lines| + i] == NormalizeJson(n, lines[i], |lines| + i)
  {
    assert JsonAt(n, lines, out, i) && JsonAt(n, lines, out, |lines| + i);
    QuotRemAreDivMod(i, |lines|);
    QuotRemAreDivMod(|lines| + i, |lines|);
    FirstCycleUnshifted(lines[i], n, i);
  }

  /** A SINGLE LEGACY LINE SUFFICES. In any source whose normalizer is on, whatever its other lines, a line with a
      legacy sequence number is malformed or out of order when the output reaches it in the second cycle, and out of
      order if it has both legacy numbers. */
  lemma LegacyLineReached(lines: seq<JsonLine>, s: string, n: Normalizer, out: seq<JsonLine>, i: nat)
    requires lines != [] && IsJsonNormalizer(n, lines) && n.enabled && GeneratesJson(n, lines, out)
    requires i < |lines| && |lines| + i < |out| && HasSequence(lines[i]) && Covers(true, JsonRecords(lines)[i], s)
    ensures JsonRecords(out)[|lines| + i].Bad? || OutOfOrder(JsonRecords(out)) > 0
    ensures LegacyIds(lines[i]) ==> OutOfOrder(JsonRecords(out)) > 0
  {
    forall line: JsonLine, k: nat, m: int ensures RecursWhenShifted(Decode, n, s, line, k, m) {
      LegacyRow(line, s, n, k, m);
    }
    forall line: JsonLine, k: nat, m: int ensures EndRecurs(Decode, n, s, line, k, m) {
      SequenceRow(line, s, n, k, m);
    }
    RecordsDecode(JsonRows(lines), 0);
    RecordsDecode(JsonRows(out), 0);
    ReachedAgain(Decode, lines, s, n, out, JsonRecords(lines), JsonRecords(out), i);
  }

  lemma ReachedAgain(decode: (Row, int) -> Record, lines: seq<JsonLine>, s: string, n: Normalizer, out: seq<JsonLine>,
                     src: seq<Record>, gen: seq<Record>, i: nat)
    requires lines != [] && IsJsonNormalizer(n, lines) && n.enabled && GeneratesJson(n, lines, out)
    requires DecodesAll(decode, JsonRows(lines), 0, src) && DecodesAll(decode, JsonRows(out), 0, gen)
    requires LegacyBlind(decode, n, s) && EndBlind(decode, n, s)
    requires i < |lines| && |lines| + i < |out| && HasSequence(lines[i]) && Covers(true, src[i], s)
    ensures gen[|lines| + i].Bad? || OutOfOrder(gen) > 0
    ensures LegacyIds(lines[i]) ==> OutOfOrder(gen) > 0
  {
    var k := |lines| + i;
    TwiceWritten(lines, n, out, i);
    assert DecodesAt(decode, JsonRows(lines), 0, src, i);
    assert DecodesAt(decode, JsonRows(out), 0, gen, i) && DecodesAt(decode, JsonRows(out), 0, gen, k);
    assert EndRecurs(decode, n, s, lines[i], k, i + 1) && RecursWhenShifted(decode, n, s, lines[i], k, i + 1);
    if gen[k].Good? {
      StalledRow(true, gen, s, i, k);
    }
  }

  // ----- Trade sources -----

  /** A well-formed trade row for symbol `s` that the generator can shift. */
  predicate TradeRow(row: Cells, s: string) {
    && ShiftableRow(row)
    && ParseCsv(row, 0).Ok? && ParseCsv(row, 0).value.kind == AggTrade && ParseCsv(row, 0).value.symbol == s
  }

  /** The row's time is read from its event_time column, which the generator does not shift. */
  predicate Timed(row: Cells) {
    CellAt(row, "event_time").text != ""
  }

  function RowSpan(row: Cells): Span {
    if ShiftableRow(row) then Span(row["trade_id"].number.value, row["trade_id"].number.value) else Span(0, 0)
  }

  /** The time of the row when its trade_time is shifted by `off`. */
  function RowTime(row: Cells, off: int): int {
    if Timed(row) then OrZero(CellAt(row, "event_time").number)
    else if ShiftableRow(row) then row["trade_time"].number.value + off else 0
  }

  lemma OtherCellsKept(row: Cells, a: int, b: int, key: string)
    requires ShiftableRow(row) && key != "trade_id" && key != "trade_time"
    ensures CellAt(ShiftRow(row, a, b), key) == CellAt(row, key)
  {
  }

  lemma ShiftedCells(row: Cells, a: int, b: int)
    requires ShiftableRow(row)
    ensures var after := ShiftRow(row, a, b);
            && CsvType(after) == CsvType(row) && CellAt(after, "symbol") == CellAt(row, "symbol")
            && CellAt(after, "price") == CellAt(row, "price") && CellAt(after, "quantity") == CellAt(row, "quantity")
            && CellAt(after, "event_time") == CellAt(row, "event_time")
            && CellAt(after, "is_buyer_maker") == CellAt(row, "is_buyer_maker")
            && CsvInt(after, "trade_id") == Ok(RowSpan(row).from + a)
            && CsvInt(after, "trade_time") == Ok(row["trade_time"].number.value + b)
  {
    OtherCellsKept(row, a, b, "type");
    OtherCellsKept(row, a, b, "event_type");
    OtherCellsKept(row, a, b, "symbol");
    OtherCellsKept(row, a, b, "price");
    OtherCellsKept(row, a, b, "quantity");
    OtherCellsKept(row, a, b, "event_time");
    OtherCellsKept(row, a, b, "is_buyer_maker");
  }

  lemma ShiftedTradeParses(row: Cells, s: string, a: int, b: int, n: int)
    requires TradeRow(row, s) && a >= 0 && (b >= 0 || Timed(row))
    ensures var r := ParseCsv(ShiftRow(row, a, b), n);
            && r.Ok? && r.value.kind == AggTrade && r.value.symbol == s
            && SpanOf(false, r.value) == Shifted(RowSpan(row), a) && r.value.TimeMillis() == RowTime(row, b)
  {
    ShiftedCells(row, a, b);
    var was := ParseCsv(row, 0).value;
    assert Shaped(was.(tradeID := was.tradeID + a, tradeTimeMS := RowTime(row, b), line := n));
  }

  lemma ShiftedTradeYields(row: Cells, s: string, a: int, b: int, n: int)
    requires TradeRow(row, s) && a >= 0 && (b >= 0 || Timed(row))
    ensures Yields(false, Decode(CsvRow(ShiftRow(row, a, b)), n), s, Shifted(RowSpan(row), a), RowTime(row, b))
  {
    ShiftedTradeParses(row, s, a, b, n);
    assert Decode(CsvRow(ShiftRow(row, a, b)), n) == Good(n, ParseCsv(ShiftRow(row, a, b), n).value);
  }

  lemma TradeYields(row: Cells, s: string, n: int)
    requires TradeRow(row, s)
    ensures Yields(false, Decode(CsvRow(row), n), s, RowSpan(row), RowTime(row, 0))
  {
    CsvAgain(row, 0, n);
  }

  function RowSpans(rows: seq<Cells>): seq<Span> {
    seq(|rows|, i requires 0 <= i < |rows| => RowSpan(rows[i]))
  }

  function RowTimes(rows: seq<Cells>): seq<int> {
    seq(|rows|, i requires 0 <= i < |rows| => RowTime(rows[i], 0))
  }

  /** A one-symbol trade source: well-formed shiftable rows with increasing ids. */
  ghost predicate TradeSource(rows: seq<Cells>, s: string) {
    && rows != []
    && (forall i: nat :: i < |rows| ==> TradeAt(rows, i, s))
    && Rising(RowSpans(rows))
  }

  predicate TradeAt(rows: seq<Cells>, i: nat, s: string)
    requires i < |rows|
  {
    TradeRow(rows[i], s)
  }

  function CsvRows(rows: seq<Cells>): seq<Row> {
    seq(|rows|, i requires 0 <= i < |rows| => CsvRow(rows[i]))
  }

  /** The records of a CSV file, whose first row is on line 2. */
  function CsvRecords(rows: seq<Cells>): (rs: seq<Record>)
    ensures |rs| == |rows|
    ensures forall i :: 0 <= i < |rows| ==> rs[i] == Decode(CsvRow(rows[i]), i + 2)
  {
    Records(CsvRows(rows), 1)
  }

  lemma TradeSourceYields(rows: seq<Cells>, s: string)
    requires TradeSource(rows, s)
    ensures YieldsAll(false, CsvRecords(rows), s, RowSpans(rows), RowTimes(rows))
  {
    var rs := CsvRecords(rows);
    forall i | 0 <= i < |rs| ensures Yields(false, rs[i], s, RowSpans(rows)[i], RowTimes(rows)[i]) {
      assert TradeAt(rows, i, s);
      TradeYields(rows[i], s, i + 2);
    }
  }

  lemma TradeNormalizer(rows: seq<Cells>, s: string, n: Normalizer)
    requires TradeSource(rows, s) && IsCsvNormalizer(n, rows)
    ensures n.enabled && n.rowCount == |rows| && n.IdSpan() == Width(RowSpans(rows)) > 0
    ensures n.TimeSpan() == rows[|rows| - 1]["trade_time"].number.value - rows[0]["trade_time"].number.value + 1
  {
    forall i | 0 <= i < |rows| ensures ShiftableRow(rows[i]) {
      assert TradeAt(rows, i, s);
    }
    RisingMax(RowSpans(rows), 0);
  }

  function ShiftedTrade(n: Normalizer, rows: seq<Cells>, k: nat): Cells
    requires rows != []
  {
    var row := rows[Rem(k, |rows|)];
    if !ShiftableRow(row) then row
    else ShiftRow(row, Offset(Quot(k, |rows|), n.IdSpan()), Offset(Quot(k, |rows|), n.TimeSpan()))
  }

  lemma NormalizeShiftsRow(n: Normalizer, rows: seq<Cells>, k: nat)
    requires rows != [] && n.enabled && n.rowCount == |rows| && ShiftableRow(rows[Rem(k, |rows|)])
    ensures NormalizeCsv(n, rows[k % |rows|], k) == ShiftedTrade(n, rows, k)
  {
    QuotRemAreDivMod(k, |rows|);
    OffsetIsProduct(Quot(k, |rows|), n.IdSpan());
    OffsetIsProduct(Quot(k, |rows|), n.TimeSpan());
  }

  /** The time of generated row `k`. */
  function TradeTime(n: Normalizer, rows: seq<Cells>, k: nat): int
    requires rows != []
  {
    RowTime(rows[Rem(k, |rows|)], Offset(Quot(k, |rows|), n.TimeSpan()))
  }

  function TradeTimes(n: Normalizer, rows: seq<Cells>, m: nat): seq<int>
    requires rows != []
  {
    seq(m, k requires 0 <= k < m => TradeTime(n, rows, k))
  }

  function CycleSpans(spans: seq<Span>, m: nat): seq<Span>
    requires spans != []
  {
    seq(m, k requires 0 <= k < m => CycleSpan(spans, k))
  }

  /** Shifted trade times stay readable: spans are not negative, or no row is timed by the shifted column. */
  predicate TimesStay(n: Normalizer, rows: seq<Cells>) {
    n.TimeSpan() >= 0 || forall i :: 0 <= i < |rows| ==> Timed(rows[i])
  }

  lemma GeneratedTrade(n: Normalizer, rows: seq<Cells>, s: string, k: nat)
    requires rows != [] && TradeRow(rows[Rem(k, |rows|)], s) && n.IdSpan() == Width(RowSpans(rows)) >= 0
    requires n.TimeSpan() >= 0 || Timed(rows[Rem(k, |rows|)])
    ensures Yields(false, Decode(CsvRow(ShiftedTrade(n, rows, k)), k + 2), s, CycleSpan(RowSpans(rows), k),
            TradeTime(n, rows, k))
  {
    var q, p := Quot(k, |rows|), Rem(k, |rows|);
    OffsetNonNegative(q, n.IdSpan());
    if n.TimeSpan() >= 0 {
      OffsetNonNegative(q, n.TimeSpan());
    }
    ShiftedTradeYields(rows[p], s, Offset(q, n.IdSpan()), Offset(q, n.TimeSpan()), k + 2);
  }

  lemma GeneratedTradesYield(rows: seq<Cells>, s: string, n: Normalizer, out: seq<Cells>)
    requires TradeSource(rows, s) && IsCsvNormalizer(n, rows) && TimesStay(n, rows)
    requires GeneratesCsv(n, rows, out)
    ensures YieldsAll(false, CsvRecords(out), s, CycleSpans(RowSpans(rows), |out|), TradeTimes(n, rows, |out|))
  {
    TradeNormalizer(rows, s, n);
    var rs, g, ts := CsvRecords(out), CycleSpans(RowSpans(rows), |out|), TradeTimes(n, rows, |out|);
    forall k: nat | k < |rs| ensures Yields(false, rs[k], s, g[k], ts[k]) {
      assert TradeAt(rows, Rem(k, |rows|), s) && CsvAt(n, rows, out, k);
      NormalizeShiftsRow(n, rows, k);
      GeneratedTrade(n, rows, s, k);
    }
  }

  lemma CycleSpansRepeat(spans: seq<Span>, m: nat)
    requires spans != []
    ensures Repeats(spans, CycleSpans(spans, m))
  {
  }

  /** GENERATED TRADE WORKLOADS. From any one-symbol trade source whose normalizer is on, gaps multiply exactly,
      and ordering failures are reported if and only if the generated times fall somewhere. */
  lemma GeneratedTrades(rows: seq<Cells>, s: string, n: Normalizer, out: seq<Cells>)
    requires TradeSource(rows, s) && IsCsvNormalizer(n, rows) && TimesStay(n, rows)
    requires GeneratesCsv(n, rows, out)
    ensures Gaps(CsvRecords(out)) ==
            (|out| / |rows|) * Gaps(CsvRecords(rows)) + Gaps(CsvRecords(rows)[..|out| % |rows|])
    ensures OutOfOrder(CsvRecords(out)) == 0 <==> Climbing(TradeTimes(n, rows, |out|))
  {
    TradeSourceYields(rows, s);
    YieldsProjections(false, CsvRecords(rows), s, RowSpans(rows), RowTimes(rows));
    GeneratedTradesYield(rows, s, n, out);
    YieldsProjections(false, CsvRecords(out), s, CycleSpans(RowSpans(rows), |out|), TradeTimes(n, rows, |out|));
    CycleSpansRepeat(RowSpans(rows), |out|);
    assert TradeAt(rows, 0, s);
    GapsMultiply(false, CsvRecords(rows), CsvRecords(out), s);
  }

  ghost predicate TimedBy(rows: seq<Cells>, eventTime: bool) {
    forall i: nat :: i < |rows| ==> TimedAt(rows, i, eventTime)
  }

  predicate TimedAt(rows: seq<Cells>, i: nat, eventTime: bool)
    requires i < |rows|
  {
    Timed(rows[i]) == eventTime
  }

  lemma ShiftedTimesRepeat(rows: seq<Cells>, n: Normalizer, m: nat, s: string)
    requires TradeSource(rows, s) && TimedBy(rows, false)
    requires n.TimeSpan() == Last(RowTimes(rows)) - RowTimes(rows)[0] + 1
    ensures RepeatsTimes(RowTimes(rows), TradeTimes(n, rows, m))
  {
    forall k: nat | k < m
      ensures TradeTime(n, rows, k) == RowTimes(rows)[Rem(k, |rows|)] + Offset(Quot(k, |rows|), n.TimeSpan())
    {
      assert TradeAt(rows, Rem(k, |rows|), s) && TimedAt(rows, Rem(k, |rows|), false);
    }
  }

  lemma ShiftedTimesClimb(rows: seq<Cells>, s: string, n: Normalizer, m: nat)
    requires TradeSource(rows, s) && Climbing(RowTimes(rows)) && TimedBy(rows, false) && IsCsvNormalizer(n, rows)
    ensures TimesStay(n, rows) && Climbing(TradeTimes(n, rows, m))
  {
    TradeNormalizer(rows, s, n);
    ClimbingMax(RowTimes(rows), 0);
    assert TradeAt(rows, 0, s) && TradeAt(rows, |rows| - 1, s);
    assert TimedAt(rows, 0, false) && TimedAt(rows, |rows| - 1, false);
    ShiftedTimesRepeat(rows, n, m, s);
    RepeatClimbs(RowTimes(rows), TradeTimes(n, rows, m));
  }

  /** Sources timed by trade_time, with non-decreasing times, give no ordering failure at any length. */
  lemma GeneratedTradeGaps(rows: seq<Cells>, s: string, n: Normalizer, out: seq<Cells>)
    requires TradeSource(rows, s) && Climbing(RowTimes(rows)) && TimedBy(rows, false)
    requires IsCsvNormalizer(n, rows) && GeneratesCsv(n, rows, out)
    ensures Gaps(CsvRecords(out)) ==
            (|out| / |rows|) * Gaps(CsvRecords(rows)) + Gaps(CsvRecords(rows)[..|out| % |rows|])
    ensures OutOfOrder(CsvRecords(out)) == 0
  {
    ShiftedTimesClimb(rows, s, n, |out|);
    GeneratedTrades(rows, s, n, out);
  }

  lemma UnshiftedTimesRecur(rows: seq<Cells>, n: Normalizer, m: nat)
    requires rows != [] && TimedBy(rows, true)
    ensures TimesStay(n, rows) && Recurs(RowTimes(rows), TradeTimes(n, rows, m))
  {
    forall i | 0 <= i < |rows| ensures Timed(rows[i]) {
      assert TimedAt(rows, i, true);
    }
    forall k: nat | k < m ensures TradeTime(n, rows, k) == RowTimes(rows)[Rem(k, |rows|)] {
      assert TimedAt(rows, Rem(k, |rows|), true);
    }
  }

  /** EXACT CONDITION. Sources timed by event_time keep their gaps multiplying, but their times recur: there is
      no ordering failure if and only if the output stops within the source or its time never moves. */
  lemma TimedTradeGaps(rows: seq<Cells>, s: string, n: Normalizer, out: seq<Cells>)
    requires TradeSource(rows, s) && Climbing(RowTimes(rows)) && TimedBy(rows, true)
    requires IsCsvNormalizer(n, rows) && GeneratesCsv(n, rows, out)
    ensures Gaps(CsvRecords(out)) ==
            (|out| / |rows|) * Gaps(CsvRecords(rows)) + Gaps(CsvRecords(rows)[..|out| % |rows|])
    ensures OutOfOrder(CsvRecords(out)) == 0 <==> |out| <= |rows| || RowTimes(rows)[0] == Last(RowTimes(rows))
  {
    UnshiftedTimesRecur(rows, n, |out|);
    GeneratedTrades(rows, s, n, out);
    RecurringTimesClimbIff(RowTimes(rows), TradeTimes(n, rows, |out|));
  }

  lemma UnshiftedRows(rows: seq<Cells>, n: Normalizer, out: seq<Cells>)
    requires rows != [] && GeneratesCsv(n, rows, out) && !n.enabled
    ensures SameRows(CsvRows(rows), CsvRows(out))
  {
    forall k: nat | k < |out| ensures SameRow(CsvRows(rows), CsvRows(out), k) {
      assert CsvAt(n, rows, out, k);
      QuotRemAreDivMod(k, |rows|);
    }
  }

  /** When the normalizer is off (a row without a readable trade id or trade time), rows are repeated as they are. */
  lemma UnshiftedTrades(rows: seq<Cells>, s: string, n: Normalizer, out: seq<Cells>)
    requires rows != [] && OrderedSource(false, CsvRecords(rows), s) && IsCsvNormalizer(n, rows) && !n.enabled
    requires GeneratesCsv(n, rows, out)
    ensures OutOfOrder(CsvRecords(out)) == 0 <==> |out| <= |rows|
    ensures Gaps(CsvRecords(out))
         == if |out| <= |rows| then Gaps(CsvRecords(rows)[..|out|]) else Gaps(CsvRecords(rows)) + |out| - |rows|
  {
    UnshiftedRows(rows, n, out);
    VerbatimRepetition(false, CsvRows(rows), CsvRows(out), 1, s);
  }
}
