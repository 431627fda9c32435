/** Concrete well-formed sources on which generated workloads do run backwards. */
module WorkloadLimits {
  import opened Events
  import opened SequenceValidator
  import opened Projections
  import opened Text
  import opened Parser
  import opened Workload
  import opened Breaks
  import opened WorkloadGaps

  // ----- A depth source in the legacy format -----

  const LEGACY_LINE := Object(JsonObject("depth", "", "A", Some(1), None, None, None, Some(1), Some(0), None,
                                         "", "", None, [Items(["1", "1"])], []))

  function LegacyEvent(line: int): MarketEvent {
    MarketEvent(Depth, Canonical("A"), 1, 0, 1, 1, 0, "", "", None, [PriceLevel("1", "1")], [], line)
  }

  lemma LegacyLineParses(line: int)
    ensures ParseObject(LEGACY_LINE.obj, line) == Ok(LegacyEvent(line))
  {
    TypeRoundTrip(Depth);
    OneLevel(Items(["1", "1"]));
    assert Trim("A") == "A";
    assert ParseLevels([]) == Ok([]);
    assert Assemble(LEGACY_LINE.obj, [PriceLevel("1", "1")], [], line) == LegacyEvent(line);
    assert Shaped(LegacyEvent(line));
  }

  lemma LegacyRecord()
    ensures JsonRecords([LEGACY_LINE]) == [Good(1, LegacyEvent(1))] && Shaped(LegacyEvent(1))
  {
    LegacyLineParses(1);
  }

  lemma LegacyGenerates(lines: seq<JsonLine>, out: seq<JsonLine>)
    requires lines == [LEGACY_LINE] && out == [LEGACY_LINE, LEGACY_LINE]
    ensures IsJsonNormalizer(OFF, lines) && GeneratesJson(OFF, lines, out)
  {
    assert !Shiftable(lines[0]);
    forall k: nat | k < |out| ensures JsonAt(OFF, lines, out, k) {
      assert k % 1 == 0;
    }
  }

  /** COUNTEREXAMPLE. A one-line source with legacy sequence numbers is in order, and written twice it is not:
      the second copy is a gap and out of order. */
  lemma LegacyLineTwice()
    ensures var lines, out := [LEGACY_LINE], [LEGACY_LINE, LEGACY_LINE];
            && IsJsonNormalizer(OFF, lines) && GeneratesJson(OFF, lines, out)
            && Gaps(JsonRecords(lines)) == 0 && OutOfOrder(JsonRecords(lines)) == 0
            && Gaps(JsonRecords(out)) == 1 && OutOfOrder(JsonRecords(out)) > 0
  {
    var lines, out, s := [LEGACY_LINE], [LEGACY_LINE, LEGACY_LINE], Canonical("A");
    LegacyRecord();
    OneRecord(JsonRecords(lines), s);
    LegacyGenerates(lines, out);
    UnshiftedDepth(lines, s, OFF, out);
  }

  lemma OneRecord(src: seq<Record>, s: string)
    requires src == [Good(1, LegacyEvent(1))] && s == Canonical("A") && Shaped(LegacyEvent(1))
    ensures OrderedSource(true, src, s) && Gaps(src) == 0 && OutOfOrder(src) == 0
  {
    LoneLength(true, src, s);
    GapsAreBreaks(true, src, s);
  }

  // ----- A trade source timed by event_time -----

  function TextCell(text: string): Cell {
    Cell(text, None, None, false)
  }

  function TimedRow(id: int, time: int): Cells {
    map["type" := TextCell("trade"), "symbol" := TextCell("A"), "price" := TextCell("1"), "quantity" := TextCell("1"),
        "event_time" := NumberCell(time), "trade_time" := NumberCell(time), "trade_id" := NumberCell(id),
        "is_buyer_maker" := Cell("true", None, Some(true), false)]
  }

  lemma TimedCells(id: int, time: int)
    ensures var row := TimedRow(id, time);
            && CellAt(row, "type").text == "trade" && CellAt(row, "symbol").text == "A"
            && CellAt(row, "price").text == "1" && CellAt(row, "quantity").text == "1"
            && CellAt(row, "is_buyer_maker").flag == Some(true)
            && CsvInt(row, "event_time") == Ok(time) && CsvInt(row, "trade_id") == Ok(id)
            && ShiftableRow(row) && Timed(row) && RowSpan(row) == Span(id, id) && RowTime(row, 0) == time
  {
  }

  lemma TimedRowIsTrade(id: int, time: int)
    requires id > 0 && time > 0
    ensures TradeRow(TimedRow(id, time), Canonical("A"))
  {
    TimedCells(id, time);
    assert Lower("trade") == "trade" && Trim("trade") == "trade" && Trim("A") == "A";
    assert Shaped(MarketEvent(AggTrade, Canonical("A"), 0, time, 0, 0, id, "1", "1", Some(true), [], [], 0));
  }

  lemma TwoTimedTrades(rows: seq<Cells>)
    requires rows == [TimedRow(1, 1), TimedRow(2, 2)]
    ensures TradeSource(rows, Canonical("A")) && Climbing(RowTimes(rows)) && TimedBy(rows, true)
    ensures RowTimes(rows)[0] != Last(RowTimes(rows))
  {
    TimedRowIsTrade(1, 1);
    TimedRowIsTrade(2, 2);
    TimedCells(1, 1);
    TimedCells(2, 2);
    assert RowSpans(rows) == [Span(1, 1), Span(2, 2)] && RowTimes(rows) == [1, 2];
    forall i: nat | i < |rows| ensures TradeAt(rows, i, Canonical("A")) && TimedAt(rows, i, true) {
      assert i == 0 || i == 1;
    }
  }

  /** COUNTEREXAMPLE. Two consecutive trades timed by event_time; the third generated row continues the ids
      but goes back to the first time. */
  lemma TimedTradesThrice(rows: seq<Cells>, n: Normalizer, out: seq<Cells>)
    requires rows == [TimedRow(1, 1), TimedRow(2, 2)]
    requires IsCsvNormalizer(n, rows) && GeneratesCsv(n, rows, out) && |out| == 3
    ensures TradeSource(rows, Canonical("A")) && OutOfOrder(CsvRecords(out)) > 0
  {
    TwoTimedTrades(rows);
    TimedTradeGaps(rows, Canonical("A"), n, out);
  }
}
