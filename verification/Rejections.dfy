/** Which messages the stream validator accepts and why it rejects the others, in terms of the messages
    before them. */
module Rejections {
  import opened Events
  import opened SequenceValidator
  import opened Projections
  import opened Parser
  import opened Readings
  import opened Kafka

  predicate OnItsTopic(topic: string, kind: EventType) {
    || topic == ""
    || (kind == Depth && topic == "market.depth.raw")
    || (kind == AggTrade && topic == "market.trade.raw")
  }

  lemma ScreenIff(topic: string, parsed: Result<MarketEvent>, ev: MarketEvent)
    requires parsed.Ok? ==> Parsed(parsed.value)
    ensures Screen(topic, parsed) == Ok(ev) <==> parsed == Ok(ev) && OnItsTopic(topic, ev.kind)
  {
  }

  /** ACCEPTED MESSAGES. A message is accepted as an event if and only if its object says that event and it is
      on the topic of the event's type, or on none. */
  lemma AcceptsIff(msg: Message, ev: MarketEvent)
    ensures Accept(msg) == Ok(ev) <==>
              && msg.value.Object? && Says(msg.value.obj, ev)
              && ev.line == msg.offset + 1 && OnItsTopic(msg.topic, ev.kind)
  {
    ScreenIff(msg.topic, Read(msg), ev);
    if msg.value.Object? {
      ObjectReads(msg.value.obj, ev);
    }
  }

  // ----- The text of a rejection -----

  /** `out` is the envelope of `msg` with this symbol and error. */
  predicate RejectedWith(out: Output, msg: Message, symbol: string, error: string) {
    && out.Rejected? && out.key == symbol
    && out.envelope.sourceTopic == msg.topic && out.envelope.offset == msg.offset && out.envelope.payload == msg.value
    && out.envelope.symbol == symbol && out.envelope.error == error
  }

  lemma DepthRouted(t: Trackers, msg: Message, ev: MarketEvent)
    requires ev.symbol != "" && ev.kind == Depth
    ensures var s, out := ev.symbol, RouteEvent(t, msg, ev);
            if s in t.depth && ev.finalUpdateID <= t.depth[s] then
              RejectedWith(out, msg, s, "depth final_update_id did not increase")
            else if s in t.depth && ev.firstUpdateID != t.depth[s] + 1 then
              RejectedWith(out, msg, s, "depth first_update_id does not continue after prior final_update_id")
            else if s in t.time && TimeOf(ev) < t.time[s] then
              RejectedWith(out, msg, s, "event_time moved backwards for symbol")
            else out == Validated(s, Print(ev))
  {
  }

  lemma TradeRouted(t: Trackers, msg: Message, ev: MarketEvent)
    requires ev.symbol != "" && ev.kind == AggTrade
    ensures var s, out := ev.symbol, RouteEvent(t, msg, ev);
            if s in t.trade && ev.tradeID <= t.trade[s] then
              RejectedWith(out, msg, s, "trade_id did not increase")
            else if s in t.trade && ev.tradeID != t.trade[s] + 1 then
              RejectedWith(out, msg, s, "trade_id is not contiguous")
            else if s in t.time && TimeOf(ev) < t.time[s] then
              RejectedWith(out, msg, s, "event_time moved backwards for symbol")
            else out == Validated(s, Print(ev))
  {
  }

  /** A message that is not accepted is rejected with the parser's error under its own key, or, on the wrong
      topic, under its symbol. */
  lemma UnacceptedRouted(t: Trackers, msg: Message)
    requires Accept(msg).Err?
    ensures Read(msg).Err? ==> RejectedWith(Route(t, msg, Read(msg)), msg, msg.key, Read(msg).message)
    ensures Read(msg).Ok? ==>
            RejectedWith(Route(t, msg, Read(msg)), msg, Read(msg).value.symbol, "event type arrived on the wrong topic")
  {
    RouteCases(t, msg, Read(msg));
  }

  // ----- In terms of the messages before -----

  /** The accepted messages among `ms`, as rows. */
  function AcceptedRows(ms: seq<Message>): seq<Record> {
    if ms == [] then []
    else
      var before := AcceptedRows(Front(ms));
      match Accept(Last(ms)) case Ok(ev) => before + [Good(Last(ms).offset + 1, ev)] case Err(_) => before
  }

  /** The trackers are those of the accepted messages alone. */
  lemma {:induction false} AfterIsAdvance(ms: seq<Message>)
    ensures AfterAll(ms) == AdvanceAll("", NO_TRACKERS, AcceptedRows(ms))
  {
    if ms != [] {
      AfterIsAdvance(Front(ms));
      if Accept(Last(ms)).Ok? {
        assert Front(AcceptedRows(ms)) == AcceptedRows(Front(ms));
      }
    }
  }

  lemma AcceptedMaxima(ms: seq<Message>, s: string)
    ensures Tops(AfterAll(ms).depth, s, Ends(Spans(true, AcceptedRows(ms), s)))
    ensures Tops(AfterAll(ms).trade, s, Ends(Spans(false, AcceptedRows(ms), s)))
    ensures Tops(AfterAll(ms).time, s, Times(AcceptedRows(ms), s))
  {
    AfterIsAdvance(ms);
    TrackersAreMaxima("", AcceptedRows(ms), s);
  }

  /** The three texts a rejection can have, worst first. */
  predicate Explained(out: Output, msg: Message, ev: MarketEvent, ids: seq<int>, times: seq<int>, from: int, to: int,
                      stalled: string, gap: string) {
    if Reaches(ids, to) then RejectedWith(out, msg, ev.symbol, stalled)
    else if !IsLargest(ids, from - 1) then RejectedWith(out, msg, ev.symbol, gap)
    else if Reaches(times, TimeOf(ev) + 1) then
      RejectedWith(out, msg, ev.symbol, "event_time moved backwards for symbol")
    else out == Validated(ev.symbol, Print(ev))
  }

  lemma DepthExplained(t: Trackers, msg: Message, ev: MarketEvent, ids: seq<int>, times: seq<int>)
    requires ev.symbol != "" && ev.kind == Depth && Tops(t.depth, ev.symbol, ids) && Tops(t.time, ev.symbol, times)
    ensures Explained(RouteEvent(t, msg, ev), msg, ev, ids, times, ev.firstUpdateID, ev.finalUpdateID,
                "depth final_update_id did not increase",
                "depth first_update_id does not continue after prior final_update_id")
  {
    TopsReach(t.time, ev.symbol, times, TimeOf(ev) + 1);
    TopsReach(t.depth, ev.symbol, ids, ev.finalUpdateID);
    TopsReach(t.depth, ev.symbol, ids, ev.firstUpdateID - 1);
    DepthRouted(t, msg, ev);
  }

  lemma TradeExplained(t: Trackers, msg: Message, ev: MarketEvent, ids: seq<int>, times: seq<int>)
    requires ev.symbol != "" && ev.kind == AggTrade && Tops(t.trade, ev.symbol, ids) && Tops(t.time, ev.symbol, times)
    ensures Explained(RouteEvent(t, msg, ev), msg, ev, ids, times, ev.tradeID, ev.tradeID,
                "trade_id did not increase", "trade_id is not contiguous")
  {
    TopsReach(t.time, ev.symbol, times, TimeOf(ev) + 1);
    TopsReach(t.trade, ev.symbol, ids, ev.tradeID);
    TopsReach(t.trade, ev.symbol, ids, ev.tradeID - 1);
    TradeRouted(t, msg, ev);
  }

  lemma AcceptedRouted(ms: seq<Message>, i: nat, ev: MarketEvent)
    requires i < |ms| && Accept(ms[i]) == Ok(ev)
    ensures RouteAt(ms, i) == RouteEvent(AfterAll(ms[..i]), ms[i], ev)
    ensures ev.symbol != "" && !ev.kind.Unknown?
  {
  }

  /** WHY A MESSAGE IS REJECTED. In every run, an accepted message is rejected as stalled if and only if an
      earlier accepted one of its symbol and type reached its last id; otherwise as a gap if and only if its
      first id does not follow the largest such id; otherwise for its time if and only if an earlier accepted
      one of its symbol was later; and is passed on unchanged otherwise. */
  lemma RejectionIsExplained(ms: seq<Message>, i: nat, ev: MarketEvent)
    requires i < |ms| && Accept(ms[i]) == Ok(ev)
    ensures var rows, s, out := AcceptedRows(ms[..i]), ev.symbol, RouteAt(ms, i);
            if ev.kind.Depth? then
              Explained(out, ms[i], ev, Ends(Spans(true, rows, s)), Times(rows, s), ev.firstUpdateID,
                  ev.finalUpdateID, "depth final_update_id did not increase",
                  "depth first_update_id does not continue after prior final_update_id")
            else
              Explained(out, ms[i], ev, Ends(Spans(false, rows, s)), Times(rows, s), ev.tradeID, ev.tradeID,
                  "trade_id did not increase", "trade_id is not contiguous")
  {
    var t, rows, s := AfterAll(ms[..i]), AcceptedRows(ms[..i]), ev.symbol;
    AcceptedRouted(ms, i, ev);
    AcceptedMaxima(ms[..i], s);
    if ev.kind.Depth? {
      DepthExplained(t, ms[i], ev, Ends(Spans(true, rows, s)), Times(rows, s));
    } else {
      TradeExplained(t, ms[i], ev, Ends(Spans(false, rows, s)), Times(rows, s));
    }
  }
}
