/** Market events and parsed rows, as every other module sees them.
    Sixty-four bit integers of the source are mathematical integers here. */
module Events {

  datatype Option<+T> = None | Some(value: T)

  datatype Result<+T> = Ok(value: T) | Err(message: string)

  /** `Unknown` stands for every event-type string other than "depth" and "aggTrade". */
  datatype EventType = Depth | AggTrade | Unknown(name: string)

  datatype PriceLevel = PriceLevel(price: string, quantity: string)

  datatype MarketEvent = MarketEvent(
    kind: EventType,
    symbol: string,
    eventTimeMS: int,
    tradeTimeMS: int,
    firstUpdateID: int,
    finalUpdateID: int,
    tradeID: int,
    price: string,
    quantity: string,
    isBuyerMaker: Option<bool>,
    bids: seq<PriceLevel>,
    asks: seq<PriceLevel>,
    line: int)
  {
    /** The event time when it is set, the trade time otherwise. */
    function TimeMillis(): int {
      if eventTimeMS > 0 then eventTimeMS else tradeTimeMS
    }
  }

  /** One row of a stream: a decoded event, or the reason it could not be decoded. */
  datatype Record =
    | Good(line: int, event: MarketEvent)
    | Bad(line: int, reason: string)

  /** What the shape check guarantees of every event that leaves the parser. */
  predicate Shaped(ev: MarketEvent) {
    && ev.symbol != ""
    && match ev.kind
       case Depth =>
         && ev.eventTimeMS > 0
         && ev.firstUpdateID <= ev.finalUpdateID
         && (ev.bids != [] || ev.asks != [])
       case AggTrade =>
         && ev.tradeTimeMS > 0
         && ev.tradeID > 0
         && ev.price != "" && ev.quantity != ""
         && ev.isBuyerMaker.Some?
       case Unknown(_) => false
  }

  predicate ShapedRecord(rec: Record) {
    rec.Good? ==> Shaped(rec.event)
  }

  predicate ShapedStream(rs: seq<Record>) {
    forall i :: 0 <= i < |rs| ==> ShapedRecord(rs[i])
  }

  /** Rows as a parser stream numbers them: consecutive lines after `header` header lines,
      with the line copied into the event. */
  ghost predicate Numbered(rs: seq<Record>, header: nat) {
    forall i :: 0 <= i < |rs| ==>
      rs[i].line == header + i + 1 && (rs[i].Good? ==> rs[i].event.line == rs[i].line)
  }
}
