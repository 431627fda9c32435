/** Decoding JSON and CSV rows into events, printing events, and numbering the rows of a stream.
    JSON text is represented by the object it decodes to; a CSV cell by its text and what the
    integer and boolean readers make of that text. */
module Parser {
  import opened Events
  import opened Text

  // ----- JSON objects -----

  datatype JsonLevel =
    | Items(items: seq<string>)
    | Fields(price: string, quantity: string)
    | NotALevel

  /** Missing strings are "" and missing lists empty, as the decoder leaves them. */
  datatype JsonObject = JsonObject(
    eventType: string,
    legacyType: string,
    symbol: string,
    eventTime: Option<int>,
    tradeTime: Option<int>,
    firstUpdateID: Option<int>,
    finalUpdateID: Option<int>,
    sequence: Option<int>,
    prevSequence: Option<int>,
    tradeID: Option<int>,
    price: string,
    quantity: string,
    isBuyerMaker: Option<bool>,
    bids: seq<JsonLevel>,
    asks: seq<JsonLevel>)

  datatype JsonLine = Blank | NotJson(reason: string) | Object(obj: JsonObject)

  function ParseLevel(l: JsonLevel): Result<PriceLevel> {
    match l
    case Items(items) =>
      if |items| != 2 then Err("price level array must contain price and quantity")
      else Ok(PriceLevel(items[0], items[1]))
    case Fields(price, quantity) =>
      if price == "" || quantity == "" then Err("price level requires price and quantity")
      else Ok(PriceLevel(price, quantity))
    case NotALevel => Err("price level is neither an array nor an object")
  }

  function ParseLevels(ls: seq<JsonLevel>): (r: Result<seq<PriceLevel>>)
    ensures r.Ok? ==> |r.value| == |ls|
    ensures r.Ok? <==> forall i :: 0 <= i < |ls| ==> ParseLevel(ls[i]).Ok?
    ensures r.Ok? ==> forall i :: 0 <= i < |ls| ==> ParseLevel(ls[i]) == Ok(r.value[i])
  {
    if ls == [] then Ok([])
    else
      var head := ParseLevel(ls[0]);
      if head.Err? then Err(head.message)
      else
        var tail := ParseLevels(ls[1..]);
        if tail.Err? then
          assert exists i :: 0 <= i < |ls[1..]| && ls[1..][i] == ls[i + 1] && ParseLevel(ls[i + 1]).Err?;
          tail
        else Ok([head.value] + tail.value)
  }

  function NormalizeType(raw: string): EventType {
    var t := Lower(Trim(raw));
    if t == "depth" then Depth
    else if t == "aggtrade" || t == "trade" then AggTrade
    else Unknown(raw)
  }

  /** The shape check: `Ok` exactly for shaped events whose identifiers were given. */
  function ValidateShape(ev: MarketEvent, hasFirst: bool, hasFinal: bool, hasTradeID: bool): (r: Result<()>)
    ensures r.Ok? <==> Shaped(ev) && (ev.kind.Depth? ==> hasFirst && hasFinal) && (ev.kind.AggTrade? ==> hasTradeID)
  {
    if ev.kind.Unknown? then Err("unknown event type")
    else if ev.symbol == "" then Err("missing symbol")
    else if ev.kind.Depth? then
      if ev.eventTimeMS <= 0 then Err("event_time must be positive unix milliseconds")
      else if !hasFirst || !hasFinal then Err("depth event requires first_update_id and final_update_id")
      else if ev.finalUpdateID < ev.firstUpdateID then
        Err("final_update_id must be greater than or equal to first_update_id")
      else if |ev.bids| == 0 && |ev.asks| == 0 then Err("depth event requires at least one bid or ask level")
      else Ok(())
    else
      if ev.tradeTimeMS <= 0 then Err("trade_time must be positive unix milliseconds")
      else if !hasTradeID then Err("trade event requires trade_id")
      else if ev.tradeID <= 0 then Err("trade_id must be positive")
      else if ev.price == "" || ev.quantity == "" then Err("trade event requires price and quantity")
      else if ev.isBuyerMaker.None? then Err("trade event requires is_buyer_maker")
      else Ok(())
  }

  function OrZero(o: Option<int>): int {
    if o.Some? then o.value else 0
  }

  /** The legacy sequence fields win over the update-id fields when both are given. */
  function Assemble(obj: JsonObject, bids: seq<PriceLevel>, asks: seq<PriceLevel>, line: int): MarketEvent {
    MarketEvent(
      NormalizeType(if obj.eventType == "" then obj.legacyType else obj.eventType),
      Canonical(obj.symbol),
      OrZero(obj.eventTime),
      OrZero(obj.tradeTime),
      if obj.prevSequence.Some? then obj.prevSequence.value + 1 else OrZero(obj.firstUpdateID),
      if obj.sequence.Some? then obj.sequence.value else OrZero(obj.finalUpdateID),
      OrZero(obj.tradeID),
      obj.price, obj.quantity, obj.isBuyerMaker, bids, asks, line)
  }

  /** An event as any of the parsers hands it on: its symbol has no small letter and no blank at either end. */
  predicate Parsed(ev: MarketEvent) {
    Shaped(ev) && NoLower(ev.symbol) && Trimmed(ev.symbol)
  }

  function ParseObject(obj: JsonObject, line: int): (r: Result<MarketEvent>)
    ensures r.Ok? ==> Parsed(r.value) && r.value.line == line
  {
    var bids, asks := ParseLevels(obj.bids), ParseLevels(obj.asks);
    if bids.Err? then Err(bids.message)
    else if asks.Err? then Err(asks.message)
    else
      var ev := Assemble(obj, bids.value, asks.value, line);
      var check := ValidateShape(ev,
        obj.firstUpdateID.Some? || obj.prevSequence.Some?,
        obj.finalUpdateID.Some? || obj.sequence.Some?,
        obj.tradeID.Some?);
      if check.Err? then Err(check.message) else CanonicalCapitalizes(obj.symbol); Ok(ev)
  }

  function ParseJson(text: JsonLine, line: int): (r: Result<MarketEvent>)
    ensures r.Ok? ==> Parsed(r.value) && r.value.line == line
  {
    match text
    case Blank => Err("empty line")
    case NotJson(reason) => Err(reason)
    case Object(obj) => ParseObject(obj, line)
  }

  // ----- Printing -----

  function TypeName(kind: EventType): string {
    match kind case Depth => "depth" case AggTrade => "aggTrade" case Unknown(name) => name
  }

  function OmitZero(x: int): Option<int> {
    if x == 0 then None else Some(x)
  }

  function PrintLevels(ls: seq<PriceLevel>): seq<JsonLevel> {
    seq(|ls|, i requires 0 <= i < |ls| => Fields(ls[i].price, ls[i].quantity))
  }

  /** Zero and empty fields are omitted; levels are printed as objects. */
  function Print(ev: MarketEvent): JsonObject {
    JsonObject(TypeName(ev.kind), "", ev.symbol, OmitZero(ev.eventTimeMS), OmitZero(ev.tradeTimeMS),
               OmitZero(ev.firstUpdateID), OmitZero(ev.finalUpdateID), None, None, OmitZero(ev.tradeID),
               ev.price, ev.quantity, ev.isBuyerMaker, PrintLevels(ev.bids), PrintLevels(ev.asks))
  }

  predicate FilledLevels(ls: seq<PriceLevel>) {
    forall i :: 0 <= i < |ls| ==> ls[i].price != "" && ls[i].quantity != ""
  }

  /** Everything the printed form can carry. */
  predicate Printable(ev: MarketEvent) {
    && FilledLevels(ev.bids) && FilledLevels(ev.asks)
    && (ev.kind.Depth? ==> ev.firstUpdateID != 0 && ev.finalUpdateID != 0)
  }

  lemma LevelsRoundTrip(ls: seq<PriceLevel>)
    ensures FilledLevels(ls) ==> ParseLevels(PrintLevels(ls)) == Ok(ls)
    ensures !FilledLevels(ls) ==> ParseLevels(PrintLevels(ls)).Err?
  {
    var ps := PrintLevels(ls);
    if FilledLevels(ls) {
      assert forall i :: 0 <= i < |ps| ==> ParseLevel(ps[i]) == Ok(ls[i]);
      assert ParseLevels(ps).value == ls;
    } else {
      var i :| 0 <= i < |ls| && !(ls[i].price != "" && ls[i].quantity != "");
      assert ParseLevel(ps[i]).Err?;
    }
  }

  lemma TypeRoundTrip(kind: EventType)
    requires !kind.Unknown?
    ensures NormalizeType(TypeName(kind)) == kind && TypeName(kind) != ""
  {
    if kind.Depth? {
      assert Trim("depth") == "depth" && Lower("depth") == "depth";
    } else {
      assert Trim("aggTrade") == "aggTrade" && Lower("aggTrade") == "aggtrade";
    }
  }

  lemma AssemblePrinted(ev: MarketEvent, line: int)
    requires Parsed(ev)
    ensures Assemble(Print(ev), ev.bids, ev.asks, line) == ev.(line := line)
  {
    CanonicalCapitalizes(ev.symbol);
    TypeRoundTrip(ev.kind);
  }

  /** PRINT/PARSE ROUND TRIP. For every event a parser hands on, reading its printed form back gives the
      same event up to the line number if and only if no price level has an empty part and a depth event's
      update ids are both non-zero; otherwise reading it back fails. The printed form names the type and
      omits exactly the zero numbers. */
  lemma RoundTripIff(ev: MarketEvent, line: int)
    requires Parsed(ev)
    ensures ParseObject(Print(ev), line) == Ok(ev.(line := line)) <==> Printable(ev)
    ensures !Printable(ev) ==> ParseObject(Print(ev), line).Err?
    ensures Print(ev).eventType == if ev.kind.Depth? then "depth" else "aggTrade"
    ensures var out := Print(ev);
            && (out.eventTime.None? <==> ev.eventTimeMS == 0) && (out.tradeTime.None? <==> ev.tradeTimeMS == 0)
            && (out.firstUpdateID.None? <==> ev.firstUpdateID == 0) && (out.tradeID.None? <==> ev.tradeID == 0)
            && (out.finalUpdateID.None? <==> ev.finalUpdateID == 0) && out.legacyType == ""
            && out.sequence.None? && out.prevSequence.None?
  {
    LevelsRoundTrip(ev.bids);
    LevelsRoundTrip(ev.asks);
    if FilledLevels(ev.bids) && FilledLevels(ev.asks) {
      AssemblePrinted(ev, line);
      assert Shaped(ev.(line := line));
    }
  }

  const ZERO_ID := JsonObject("depth", "", "A", Some(1), None, Some(0), Some(1), None, None, None, "", "", None,
                              [Items(["1", "1"])], [])

  /** COUNTEREXAMPLE. A depth object with first id 0 is accepted, and its printed form is not. */
  lemma ZeroIdIsLost(line: int)
    ensures var r := ParseObject(ZERO_ID, line);
            r.Ok? && !Printable(r.value) && ParseObject(Print(r.value), line).Err?
  {
    var level := PriceLevel("1", "1");
    var ev := MarketEvent(Depth, Canonical("A"), 1, 0, 0, 1, 0, "", "", None, [level], [], line);
    TypeRoundTrip(Depth);
    assert Trim("A") == "A";
    DepthObjectReads(ZERO_ID, level, line);
    assert Assemble(ZERO_ID, [level], [], line) == ev && Shaped(ev);
    RoundTripIff(ParseObject(ZERO_ID, line).value, line);
  }

  /** The same object in the current field format. */
  function Modern(obj: JsonObject): JsonObject {
    obj.(eventType := if obj.eventType == "" then obj.legacyType else obj.eventType,
         legacyType := "",
         firstUpdateID := if obj.prevSequence.Some? then Some(obj.prevSequence.value + 1) else obj.firstUpdateID,
         finalUpdateID := if obj.sequence.Some? then obj.sequence else obj.finalUpdateID,
         prevSequence := None,
         sequence := None)
  }

  /** LEGACY ALIASES. An object in the legacy format is read exactly as its current form: a previous sequence
      number means the id before the first one, and the legacy numbers win when both are given. */
  lemma LegacyAliases(obj: JsonObject, line: int)
    ensures ParseObject(obj, line) == ParseObject(Modern(obj), line)
  {
    var bids, asks := ParseLevels(obj.bids), ParseLevels(obj.asks);
    if bids.Ok? && asks.Ok? {
      assert Assemble(obj, bids.value, asks.value, line) == Assemble(Modern(obj), bids.value, asks.value, line);
    }
  }

  // ----- CSV rows -----

  /** A cell's trimmed text, what that text reads as, and whether blanks around it were trimmed off. */
  datatype Cell = Cell(text: string, number: Option<int>, flag: Option<bool>, padded: bool)

  const NO_CELL := Cell("", None, None, false)

  function CellAt(row: map<string, Cell>, key: string): Cell {
    if key in row then row[key] else NO_CELL
  }

  function FirstFilled(row: map<string, Cell>, key: string, otherwise: string): string {
    if CellAt(row, key).text == "" then otherwise else key
  }

  function CsvInt(row: map<string, Cell>, key: string): Result<int> {
    var c := CellAt(row, key);
    if c.text == "" then Err("missing " + key)
    else if c.number.None? then Err("parse " + key)
    else Ok(c.number.value)
  }

  function ParseCsv(row: map<string, Cell>, line: int): (r: Result<MarketEvent>)
    ensures r.Ok? ==> Parsed(r.value) && r.value.line == line
  {
    var typeText := Lower(CellAt(row, "type").text);
    var kind := NormalizeType(if typeText == "" then CellAt(row, "event_type").text else typeText);
    var symbol := Canonical(CellAt(row, "symbol").text);
    var price, quantity := CellAt(row, "price").text, CellAt(row, "quantity").text;
    var time := CsvInt(row, FirstFilled(row, "event_time", "trade_time"));
    if time.Err? then Err(time.message)
    else match kind
      case Depth =>
        var final := CsvInt(row, FirstFilled(row, "final_update_id", "sequence"));
        var firstKey := FirstFilled(row, "first_update_id", "prev_sequence");
        var firstCell := CsvInt(row, firstKey);
        if final.Err? then Err(final.message)
        else if firstCell.Err? then Err(firstCell.message)
        else
          var first := if firstKey == "prev_sequence" then firstCell.value + 1 else firstCell.value;
          var ev := MarketEvent(Depth, symbol, time.value, 0, first, final.value, 0, price, quantity, None,
                                [PriceLevel(price, quantity)], [], line);
          CheckCsv(ev, CellAt(row, "symbol").text)
      case AggTrade =>
        var id, maker := CsvInt(row, "trade_id"), CellAt(row, "is_buyer_maker").flag;
        if id.Err? then Err(id.message)
        else if maker.None? then Err("parse is_buyer_maker")
        else
          var ev := MarketEvent(AggTrade, symbol, 0, time.value, 0, 0, id.value, price, quantity, maker, [], [], line);
          CheckCsv(ev, CellAt(row, "symbol").text)
      case Unknown(_) => Err("unknown event type")
  }

  function CheckCsv(ev: MarketEvent, symbolText: string): (r: Result<MarketEvent>)
    requires ev.symbol == Canonical(symbolText)
    ensures r.Ok? ==> r.value == ev && Parsed(ev)
  {
    var check := ValidateShape(ev, ev.firstUpdateID != 0, ev.kind.Depth?, ev.tradeID != 0);
    if check.Err? then Err(check.message) else CanonicalCapitalizes(symbolText); Ok(ev)
  }

  function CsvType(row: map<string, Cell>): string {
    if Lower(CellAt(row, "type").text) == "" then CellAt(row, "event_type").text else Lower(CellAt(row, "type").text)
  }

  function NumberIn(row: map<string, Cell>, key: string): Option<int> {
    if CellAt(row, key).text == "" then None else CellAt(row, key).number
  }

  /** The JSON object that says what a CSV row says: a depth row is one bid level. */
  function CsvObject(row: map<string, Cell>): JsonObject {
    var price, quantity, symbol := CellAt(row, "price").text, CellAt(row, "quantity").text, CellAt(row, "symbol").text;
    var time := NumberIn(row, FirstFilled(row, "event_time", "trade_time"));
    if NormalizeType(CsvType(row)).Depth? then
      JsonObject(CsvType(row), "", symbol, time, None,
                 NumberIn(row, "first_update_id"), NumberIn(row, "final_update_id"),
                 if CellAt(row, "final_update_id").text == "" then NumberIn(row, "sequence") else None,
                 if CellAt(row, "first_update_id").text == "" then NumberIn(row, "prev_sequence") else None,
                 None, price, quantity, None, [Items([price, quantity])], [])
    else
      JsonObject(CsvType(row), "", symbol, None, time, None, None, None, None, NumberIn(row, "trade_id"),
                 price, quantity, CellAt(row, "is_buyer_maker").flag, [], [])
  }

  lemma OneLevel(level: JsonLevel)
    requires ParseLevel(level).Ok?
    ensures ParseLevels([level]) == Ok([ParseLevel(level).value])
  {
    var r := ParseLevels([level]);
    assert ParseLevel([level][0]) == ParseLevel(level);
    assert r.value == [ParseLevel(level).value];
  }

  /** The object of a depth row assembles to the event the CSV reader builds. */
  lemma CsvDepthAgrees(row: map<string, Cell>, line: int)
    requires NormalizeType(CsvType(row)).Depth?
    ensures var json := ParseObject(CsvObject(row), line);
            && (ParseCsv(row, line).Ok? ==> ParseCsv(row, line) == json)
            && (ParseCsv(row, line).Ok? <==> json.Ok? && json.value.firstUpdateID != 0)
  {
    var level, obj := PriceLevel(CellAt(row, "price").text, CellAt(row, "quantity").text), CsvObject(row);
    DepthObjectReads(obj, level, line);
    CsvDepthIds(row);
  }

  /** Reading a depth object with one level given as an array. */
  lemma DepthObjectReads(obj: JsonObject, level: PriceLevel, line: int)
    requires obj.bids == [Items([level.price, level.quantity])] && obj.asks == []
    ensures var ev := Assemble(obj, [level], [], line);
            ParseObject(obj, line).Ok? <==>
              ValidateShape(ev, obj.firstUpdateID.Some? || obj.prevSequence.Some?,
                            obj.finalUpdateID.Some? || obj.sequence.Some?, obj.tradeID.Some?).Ok?
    ensures ParseObject(obj, line).Ok? ==> ParseObject(obj, line).value == Assemble(obj, [level], [], line)
  {
    OneLevel(Items([level.price, level.quantity]));
    assert ParseLevels([]) == Ok([]);
  }

  /** The ids and time of a depth row and of its object. */
  lemma CsvDepthIds(row: map<string, Cell>)
    requires NormalizeType(CsvType(row)).Depth?
    ensures var obj := CsvObject(row);
            var final := CsvInt(row, FirstFilled(row, "final_update_id", "sequence"));
            var first := CsvInt(row, FirstFilled(row, "first_update_id", "prev_sequence"));
            var time := CsvInt(row, FirstFilled(row, "event_time", "trade_time"));
            && (final.Ok? <==> obj.finalUpdateID.Some? || obj.sequence.Some?)
            && (final.Ok? ==>
              final.value == if obj.sequence.Some? then obj.sequence.value else OrZero(obj.finalUpdateID))
            && (first.Ok? <==> obj.firstUpdateID.Some? || obj.prevSequence.Some?)
            && (first.Ok? ==> (if CellAt(row, "first_update_id").text == "" then first.value + 1 else first.value)
                               == if obj.prevSequence.Some? then obj.prevSequence.value + 1
                                   else OrZero(obj.firstUpdateID))
            && (time.Ok? <==> obj.eventTime.Some?) && (time.Ok? ==> time.value == OrZero(obj.eventTime))
  {
  }

  lemma CsvTradeAgrees(row: map<string, Cell>, line: int)
    requires !NormalizeType(CsvType(row)).Depth?
    ensures ParseCsv(row, line).Ok? ==> ParseCsv(row, line) == ParseObject(CsvObject(row), line)
    ensures ParseCsv(row, line).Ok? <==> ParseObject(CsvObject(row), line).Ok?
  {
    assert ParseLevels([]) == Ok([]);
  }

  /** THE TWO FORMATS AGREE. A CSV row is read as the JSON object that says the same, and is accepted exactly
      when that object is and, for a depth row, its first id is not zero. */
  lemma CsvAgreesWithJson(row: map<string, Cell>, line: int)
    ensures var json := ParseObject(CsvObject(row), line);
            && (ParseCsv(row, line).Ok? ==> ParseCsv(row, line) == json)
            && (ParseCsv(row, line).Ok? <==> json.Ok? && (json.value.kind.Depth? ==> json.value.firstUpdateID != 0))
  {
    if NormalizeType(CsvType(row)).Depth? {
      CsvDepthAgrees(row, line);
    } else {
      CsvTradeAgrees(row, line);
    }
  }

  // ----- Streams -----

  /** One row of a source: a JSON line, a CSV record, or a CSV record the reader refused. */
  datatype Row = JsonRow(text: JsonLine) | CsvRow(cells: map<string, Cell>) | BadCsv(reason: string)

  function Decode(row: Row, line: int): (r: Record)
    ensures r.line == line && ShapedRecord(r) && (r.Good? ==> r.event.line == line && Parsed(r.event))
  {
    var parsed := match row
      case JsonRow(text) => ParseJson(text, line)
      case CsvRow(cells) => ParseCsv(cells, line)
      case BadCsv(reason) => Err(reason);
    match parsed case Ok(ev) => Good(line, ev) case Err(m) => Bad(line, m)
  }

  /** All records of a source whose first row is on line `header` + 1. */
  function Records(rows: seq<Row>, header: nat): (rs: seq<Record>)
    ensures |rs| == |rows|
    ensures forall i :: 0 <= i < |rows| ==> rs[i] == Decode(rows[i], header + i + 1)
  {
    seq(|rows|, i requires 0 <= i < |rows| => Decode(rows[i], header + i + 1))
  }

  /** Every stream is numbered consecutively and contains only shaped events. */
  lemma RecordsNumberedAndShaped(rows: seq<Row>, header: nat)
    ensures Numbered(Records(rows, header), header) && ShapedStream(Records(rows, header))
  {
    var rs := Records(rows, header);
    forall i | 0 <= i < |rs|
      ensures rs[i].line == header + i + 1 && (rs[i].Good? ==> rs[i].event.line == rs[i].line) && ShapedRecord(rs[i])
    {
      assert rs[i] == Decode(rows[i], header + i + 1);
    }
  }

  class Stream {
    const rows: seq<Row>
    const header: nat
    var line: nat

    ghost predicate Valid()
      reads this
    {
      header <= line <= header + |rows|
    }

    ghost function Remaining(): seq<Record>
      requires Valid()
      reads this
    {
      Records(rows, header)[line - header..]
    }

    /** A CSV stream starts after its header line, a JSONL stream at the top. */
    constructor (rows: seq<Row>, csv: bool)
      ensures Valid() && Remaining() == Records(rows, if csv then 1 else 0)
      ensures this.rows == rows && header == (if csv then 1 else 0) && line == header
    {
      this.rows := rows;
      header := if csv then 1 else 0;
      line := if csv then 1 else 0;
    }

    /** The next record, or `None` at the end. */
    method Next() returns (rec: Option<Record>)
      requires Valid()
      modifies this
      ensures Valid()
      ensures old(Remaining()) == [] <==> rec.None?
      ensures rec.None? ==> Remaining() == []
      ensures rec.Some? ==> old(Remaining()) == [rec.value] + Remaining() && rec.value.line == line == old(line) + 1
    {
      if line - header == |rows| {
        return None;
      }
      line := line + 1;
      rec := Some(Decode(rows[line - 1 - header], line));
    }
  }
}
