/** What the parsers read: exactly which objects and rows are accepted, and every field of the event,
    stated by the fields of the object and the columns of the row. */
module Readings {
  import opened Events
  import opened Text
  import opened Parser

  // ----- Price levels and types -----

  predicate GivenLevel(l: JsonLevel) {
    match l
    case Items(items) => |items| == 2
    case Fields(price, quantity) => price != "" && quantity != ""
    case NotALevel => false
  }

  predicate IsLevel(l: JsonLevel, level: PriceLevel) {
    match l
    case Items(items) => items == [level.price, level.quantity]
    case Fields(price, quantity) => price == level.price != "" && quantity == level.quantity != ""
    case NotALevel => false
  }

  predicate AllGiven(ls: seq<JsonLevel>) {
    forall i :: 0 <= i < |ls| ==> GivenLevel(ls[i])
  }

  predicate AreLevels(ls: seq<JsonLevel>, levels: seq<PriceLevel>) {
    |ls| == |levels| && forall i :: 0 <= i < |ls| ==> IsLevel(ls[i], levels[i])
  }

  lemma LevelsRead(ls: seq<JsonLevel>)
    ensures ParseLevels(ls).Ok? <==> AllGiven(ls)
    ensures ParseLevels(ls).Ok? ==> AreLevels(ls, ParseLevels(ls).value)
  {
    forall i | 0 <= i < |ls| ensures ParseLevel(ls[i]).Ok? <==> GivenLevel(ls[i]) {
    }
    if ParseLevels(ls).Ok? {
      forall i | 0 <= i < |ls| ensures IsLevel(ls[i], ParseLevels(ls).value[i]) {
        assert ParseLevel(ls[i]) == Ok(ParseLevels(ls).value[i]);
      }
    }
  }

  /** An event type is read from its trimmed text in any case: "depth", or "aggTrade" and "trade". */
  lemma TypeReads(raw: string)
    ensures NormalizeType(raw).Depth? <==> Spells(raw, "depth")
    ensures NormalizeType(raw).AggTrade? <==> Spells(raw, "aggtrade") || Spells(raw, "trade")
  {
    SpellsIff(raw, "depth");
    SpellsIff(raw, "aggtrade");
    SpellsIff(raw, "trade");
  }

  // ----- Objects -----

  /** The type is `type` where it is given, the legacy field otherwise. */
  function TypeText(obj: JsonObject): string {
    if obj.eventType != "" then obj.eventType else obj.legacyType
  }

  /** The legacy numbers win: a previous sequence number is the id before the first one. */
  predicate FirstGiven(obj: JsonObject, first: int) {
    obj.prevSequence == Some(first - 1) || (obj.prevSequence.None? && obj.firstUpdateID == Some(first))
  }

  predicate FinalGiven(obj: JsonObject, final: int) {
    obj.sequence == Some(final) || (obj.sequence.None? && obj.finalUpdateID == Some(final))
  }

  ghost predicate DepthObject(obj: JsonObject, ev: MarketEvent) {
    && ev.kind == Depth && Spells(TypeText(obj), "depth")
    && DepthFields(obj, ev)
  }

  predicate DepthFields(obj: JsonObject, ev: MarketEvent) {
    && obj.eventTime == Some(ev.eventTimeMS) && ev.eventTimeMS > 0
    && FirstGiven(obj, ev.firstUpdateID) && FinalGiven(obj, ev.finalUpdateID)
    && ev.firstUpdateID <= ev.finalUpdateID
    && (obj.bids != [] || obj.asks != [])
    && (obj.tradeTime == Some(ev.tradeTimeMS) || (obj.tradeTime.None? && ev.tradeTimeMS == 0))
    && (obj.tradeID == Some(ev.tradeID) || (obj.tradeID.None? && ev.tradeID == 0))
  }

  ghost predicate TradeObject(obj: JsonObject, ev: MarketEvent) {
    && ev.kind == AggTrade && (Spells(TypeText(obj), "aggtrade") || Spells(TypeText(obj), "trade"))
    && TradeFields(obj, ev)
  }

  predicate TradeFields(obj: JsonObject, ev: MarketEvent) {
    && obj.tradeTime == Some(ev.tradeTimeMS) && ev.tradeTimeMS > 0
    && obj.tradeID == Some(ev.tradeID) && ev.tradeID > 0
    && obj.price != "" && obj.quantity != "" && obj.isBuyerMaker.Some?
    && (obj.eventTime == Some(ev.eventTimeMS) || (obj.eventTime.None? && ev.eventTimeMS == 0))
    && (FirstGiven(obj, ev.firstUpdateID)
        || (obj.prevSequence.None? && obj.firstUpdateID.None? && ev.firstUpdateID == 0))
    && (FinalGiven(obj, ev.finalUpdateID)
        || (obj.sequence.None? && obj.finalUpdateID.None? && ev.finalUpdateID == 0))
  }

  /** `ev` is what `obj` says, and that is acceptable. */
  ghost predicate Says(obj: JsonObject, ev: MarketEvent) {
    && Capitalized(ev.symbol, obj.symbol) && ev.symbol != ""
    && ev.price == obj.price && ev.quantity == obj.quantity && ev.isBuyerMaker == obj.isBuyerMaker
    && AreLevels(obj.bids, ev.bids) && AreLevels(obj.asks, ev.asks)
    && (DepthObject(obj, ev) || TradeObject(obj, ev))
  }

  /** Reading an object whose levels read as `bids` and `asks`. */
  lemma FieldsRead(obj: JsonObject, ev: MarketEvent)
    requires ParseLevels(obj.bids).Ok? && ParseLevels(obj.asks).Ok?
    ensures ParseObject(obj, ev.line) == Ok(ev) <==>
              && ev.kind == NormalizeType(TypeText(obj)) && ev.symbol == Canonical(obj.symbol) && ev.symbol != ""
              && ev.price == obj.price && ev.quantity == obj.quantity && ev.isBuyerMaker == obj.isBuyerMaker
              && ev.bids == ParseLevels(obj.bids).value && ev.asks == ParseLevels(obj.asks).value
              && ((ev.kind.Depth? && DepthFields(obj, ev)) || (ev.kind.AggTrade? && TradeFields(obj, ev)))
  {
    var made := Assemble(obj, ParseLevels(obj.bids).value, ParseLevels(obj.asks).value, ev.line);
    assert ParseObject(obj, ev.line).Ok? ==> ParseObject(obj, ev.line).value == made;
    if made == ev {
      assert ParseObject(obj, ev.line).Ok? <==>
        ev.symbol != "" && ((ev.kind.Depth? && DepthFields(obj, ev)) || (ev.kind.AggTrade? && TradeFields(obj, ev)));
    }
  }

  lemma LevelsAgree(ls: seq<JsonLevel>, levels: seq<PriceLevel>)
    ensures AreLevels(ls, levels) ==> ParseLevels(ls) == Ok(levels)
  {
    if AreLevels(ls, levels) {
      forall i | 0 <= i < |ls| ensures ParseLevel(ls[i]) == Ok(levels[i]) {
        assert IsLevel(ls[i], levels[i]);
      }
      assert ParseLevels(ls).value == levels;
    }
  }

  /** WHAT AN OBJECT SAYS. An object is parsed to an event if and only if that event is what the object says,
      field by field; one that says no event is refused. */
  lemma ObjectReads(obj: JsonObject, ev: MarketEvent)
    ensures ParseObject(obj, ev.line) == Ok(ev) <==> Says(obj, ev)
  {
    LevelsRead(obj.bids);
    LevelsRead(obj.asks);
    SymbolReads(ev.symbol, obj.symbol);
    TypeReads(TypeText(obj));
    if ParseLevels(obj.bids).Ok? && ParseLevels(obj.asks).Ok? {
      FieldsRead(obj, ev);
      LevelsAgree(obj.bids, ev.bids);
      LevelsAgree(obj.asks, ev.asks);
    }
  }

  // ----- CSV rows -----

  function TextIn(row: map<string, Cell>, column: string): string {
    if column in row then row[column].text else ""
  }

  /** The number in a column, or in `otherwise` when that column is empty or missing. */
  predicate NumberGiven(row: map<string, Cell>, column: string, otherwise: string, n: int) {
    if TextIn(row, column) != "" then row[column].number == Some(n)
    else TextIn(row, otherwise) != "" && row[otherwise].number == Some(n)
  }

  function CsvTypeText(row: map<string, Cell>): string {
    if TextIn(row, "type") != "" then TextIn(row, "type") else TextIn(row, "event_type")
  }

  /** A previous sequence number stands for the first id only when that column is empty. */
  predicate CsvFirstGiven(row: map<string, Cell>, first: int) {
    if TextIn(row, "first_update_id") != "" then row["first_update_id"].number == Some(first)
    else TextIn(row, "prev_sequence") != "" && row["prev_sequence"].number == Some(first - 1)
  }

  /** A depth row is one bid level. */
  ghost predicate DepthRow(row: map<string, Cell>, ev: MarketEvent) {
    && ev.kind == Depth && Spells(CsvTypeText(row), "depth")
    && NumberGiven(row, "event_time", "trade_time", ev.eventTimeMS) && ev.eventTimeMS > 0
    && CsvFirstGiven(row, ev.firstUpdateID) && ev.firstUpdateID != 0
    && NumberGiven(row, "final_update_id", "sequence", ev.finalUpdateID)
    && ev.firstUpdateID <= ev.finalUpdateID
    && ev.bids == [PriceLevel(TextIn(row, "price"), TextIn(row, "quantity"))] && ev.asks == []
    && ev.tradeTimeMS == 0 && ev.tradeID == 0 && ev.isBuyerMaker == None
  }

  /** What a trade row says about everything but symbol and type. */
  predicate TradeCells(row: map<string, Cell>, ev: MarketEvent) {
    && NumberGiven(row, "event_time", "trade_time", ev.tradeTimeMS) && ev.tradeTimeMS > 0
    && TextIn(row, "trade_id") != "" && row["trade_id"].number == Some(ev.tradeID) && ev.tradeID > 0
    && TextIn(row, "price") != "" && TextIn(row, "quantity") != ""
    && "is_buyer_maker" in row && row["is_buyer_maker"].flag == ev.isBuyerMaker && ev.isBuyerMaker.Some?
    && ev.eventTimeMS == 0 && ev.firstUpdateID == 0 && ev.finalUpdateID == 0 && ev.bids == [] && ev.asks == []
  }

  ghost predicate TradeRow(row: map<string, Cell>, ev: MarketEvent) {
    && ev.kind == AggTrade && (Spells(CsvTypeText(row), "aggtrade") || Spells(CsvTypeText(row), "trade"))
    && TradeCells(row, ev)
  }

  /** `ev` is what the row says, and that is acceptable. */
  ghost predicate RowSays(row: map<string, Cell>, ev: MarketEvent) {
    && Capitalized(ev.symbol, TextIn(row, "symbol")) && ev.symbol != ""
    && ev.price == TextIn(row, "price") && ev.quantity == TextIn(row, "quantity")
    && (DepthRow(row, ev) || TradeRow(row, ev))
  }

  lemma CsvTypeReads(row: map<string, Cell>)
    ensures NormalizeType(CsvType(row)).Depth? <==> Spells(CsvTypeText(row), "depth")
    ensures NormalizeType(CsvType(row)).AggTrade? <==>
              Spells(CsvTypeText(row), "aggtrade") || Spells(CsvTypeText(row), "trade")
  {
    CsvTypeIs(row);
    TypeReads(CsvTypeText(row));
  }

  lemma CsvTypeIs(row: map<string, Cell>)
    ensures var a, b := NormalizeType(CsvType(row)), NormalizeType(CsvTypeText(row));
            (a.Depth? <==> b.Depth?) && (a.AggTrade? <==> b.AggTrade?)
  {
    var raw := CsvTypeText(row);
    TrimLower(raw);
    assert Lower(Lower(Trim(raw))) == Lower(Trim(raw));
    assert |Lower(TextIn(row, "type"))| == |TextIn(row, "type")|;
  }

  lemma NumberReads(row: map<string, Cell>, column: string, otherwise: string, n: int)
    ensures CsvInt(row, FirstFilled(row, column, otherwise)) == Ok(n) <==> NumberGiven(row, column, otherwise, n)
  {
  }

  lemma FirstReads(row: map<string, Cell>, first: int)
    ensures var key := FirstFilled(row, "first_update_id", "prev_sequence");
            CsvFirstGiven(row, first) <==> CsvInt(row, key) == Ok(if key == "prev_sequence" then first - 1 else first)
  {
  }

  lemma DepthRowReads(row: map<string, Cell>, ev: MarketEvent)
    requires NormalizeType(CsvType(row)).Depth?
    ensures ParseCsv(row, ev.line) == Ok(ev) <==> RowSays(row, ev)
  {
    CsvTypeReads(row);
    NumberReads(row, "event_time", "trade_time", ev.eventTimeMS);
    NumberReads(row, "final_update_id", "sequence", ev.finalUpdateID);
    FirstReads(row, ev.firstUpdateID);
    SymbolReads(ev.symbol, TextIn(row, "symbol"));
  }

  lemma TradeCellsRead(row: map<string, Cell>, ev: MarketEvent)
    requires NormalizeType(CsvType(row)).AggTrade?
    ensures ParseCsv(row, ev.line) == Ok(ev) <==>
              && ev.kind == AggTrade && ev.symbol == Canonical(TextIn(row, "symbol")) && ev.symbol != ""
              && ev.price == TextIn(row, "price") && ev.quantity == TextIn(row, "quantity") && TradeCells(row, ev)
  {
    NumberReads(row, "event_time", "trade_time", ev.tradeTimeMS);
  }

  lemma TradeRowReads(row: map<string, Cell>, ev: MarketEvent)
    requires NormalizeType(CsvType(row)).AggTrade?
    ensures ParseCsv(row, ev.line) == Ok(ev) <==> RowSays(row, ev)
  {
    CsvTypeReads(row);
    TradeCellsRead(row, ev);
    SymbolReads(ev.symbol, TextIn(row, "symbol"));
  }

  lemma SymbolReads(symbol: string, text: string)
    ensures Canonical(text) == symbol <==> Capitalized(symbol, text)
  {
    CanonicalCapitalizes(text);
    if Capitalized(symbol, text) {
      CapitalizedIsCanonical(symbol, text);
    }
  }

  /** WHAT A ROW SAYS. A CSV row is parsed to an event if and only if that event is what the row says, column
      by column; one that says no event is refused. */
  lemma RowReads(row: map<string, Cell>, ev: MarketEvent)
    ensures ParseCsv(row, ev.line) == Ok(ev) <==> RowSays(row, ev)
  {
    CsvTypeReads(row);
    if NormalizeType(CsvType(row)).Depth? {
      DepthRowReads(row, ev);
    } else if NormalizeType(CsvType(row)).AggTrade? {
      TradeRowReads(row, ev);
    }
  }

  // ----- Rows of a source -----

  /** `ev` is what a row of a source says. */
  ghost predicate SourceSays(row: Row, ev: MarketEvent) {
    match row
    case JsonRow(text) => text.Object? && Says(text.obj, ev)
    case CsvRow(cells) => RowSays(cells, ev)
    case BadCsv(_) => false
  }

  /** WHAT A SOURCE SAYS. A row becomes a record with an event if and only if it says that event, and a malformed
      record otherwise; blank lines are malformed, and refused text keeps the reader's reason. */
  lemma SourceReads(row: Row, line: int, ev: MarketEvent)
    ensures Decode(row, line) == Good(line, ev) <==> ev.line == line && SourceSays(row, ev)
    ensures row == JsonRow(Blank) ==> Decode(row, line) == Bad(line, "empty line")
    ensures row.JsonRow? && row.text.NotJson? ==> Decode(row, line) == Bad(line, row.text.reason)
    ensures row.BadCsv? ==> Decode(row, line) == Bad(line, row.reason)
  {
    match row
    case JsonRow(text) =>
      if text.Object? && ev.line == line {
        ObjectReads(text.obj, ev);
      }
    case CsvRow(cells) =>
      if ev.line == line {
        RowReads(cells, ev);
      }
    case BadCsv(_) =>
  }
}
