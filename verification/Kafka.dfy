/** The streaming data plane: publishing parsed rows to raw topics, and validating and routing them. */
module Kafka {
  import opened Events
  import opened SequenceValidator
  import opened Parser

  const DEPTH_RAW := "market.depth.raw"
  const TRADE_RAW := "market.trade.raw"

  const WRONG_TOPIC := "event type arrived on the wrong topic"

  datatype Message = Message(topic: string, key: string, value: JsonLine, offset: int)

  datatype Envelope = Envelope(sourceTopic: string, symbol: string, offset: int, error: string, payload: JsonLine)

  /** What the validator produces: an event on `market.replay.validated` or an envelope on `market.replay.errors`. */
  datatype Output = Validated(key: string, value: JsonObject) | Rejected(key: string, envelope: Envelope)

  function RawTopic(kind: EventType): Result<string> {
    match kind
    case Depth => Ok(DEPTH_RAW)
    case AggTrade => Ok(TRADE_RAW)
    case Unknown(_) => Err("unsupported market event type")
  }

  function RawTopicIn(kind: EventType, depthTopic: string, tradeTopic: string): Result<string> {
    match RawTopic(kind)
    case Err(m) => Err(m)
    case Ok(topic) => Ok(if topic == DEPTH_RAW then depthTopic else tradeTopic)
  }

  // ----- Publishing -----

  function MessageFor(ev: MarketEvent, depthTopic: string, tradeTopic: string, offset: int): Message {
    Message(if ev.kind.Depth? then depthTopic else tradeTopic, ev.symbol, Object(Print(ev)), offset)
  }

  /** The rows before the first one that cannot be published. */
  function GoodPrefix(rs: seq<Record>): (n: nat)
    ensures n <= |rs|
    ensures forall i :: 0 <= i < n ==> rs[i].Good?
    ensures n < |rs| ==> rs[n].Bad?
  {
    if rs == [] || rs[0].Bad? then 0 else 1 + GoodPrefix(rs[1..])
  }

  /** Publish a stream with a working producer: messages go out in order, up to the first malformed row. */
  method PublishStream(rs: seq<Record>, depthTopic: string, tradeTopic: string)
      returns (produced: nat, error: Option<string>, sent: seq<Message>)
    requires ShapedStream(rs)
    ensures produced == |sent| == GoodPrefix(rs)
    ensures error == if produced == |rs| then None else Some(rs[produced].reason)
    ensures forall i :: 0 <= i < |sent| ==> sent[i] == MessageFor(rs[i].event, depthTopic, tradeTopic, 0)
    ensures forall i :: 0 <= i < |sent| ==>
            && sent[i].topic == (if rs[i].event.kind == Depth then depthTopic else tradeTopic)
            && sent[i].key == rs[i].event.symbol && sent[i].value == Object(Print(rs[i].event))
  {
    produced, error, sent := 0, None, [];
    for i := 0 to |rs|
      invariant produced == i == |sent| && error.None?
      invariant forall j :: 0 <= j < i ==> rs[j].Good?
      invariant forall j :: 0 <= j < i ==> sent[j] == MessageFor(rs[j].event, depthTopic, tradeTopic, 0)
    {
      if rs[i].Bad? {
        GoodPrefixIs(rs, i);
        return produced, Some(rs[i].reason), sent;
      }
      assert ShapedRecord(rs[i]);
      var ev := rs[i].event;
      var topic := RawTopicIn(ev.kind, depthTopic, tradeTopic);
      sent := sent + [Message(topic.value, ev.symbol, Object(Print(ev)), 0)];
      produced := produced + 1;
    }
    GoodPrefixIs(rs, |rs|);
  }

  lemma {:induction false} GoodPrefixIs(rs: seq<Record>, n: nat)
    requires n <= |rs| && (forall i :: 0 <= i < n ==> rs[i].Good?) && (n < |rs| ==> rs[n].Bad?)
    ensures GoodPrefix(rs) == n
  {
    if n > 0 {
      GoodPrefixIs(rs[1..], n - 1);
    }
  }

  // ----- Validating and routing -----

  /** A parsed message on the wrong topic is refused. */
  function Screen(topic: string, parsed: Result<MarketEvent>): Result<MarketEvent> {
    if parsed.Ok? && topic != "" && Ok(topic) != RawTopic(parsed.value.kind) then Err(WRONG_TOPIC) else parsed
  }

  function Read(msg: Message): (r: Result<MarketEvent>)
    ensures r.Ok? ==> Parsed(r.value) && r.value.line == msg.offset + 1
  {
    ParseJson(msg.value, msg.offset + 1)
  }

  /** The event a message carries, unless it does not parse or is on the wrong topic. */
  function Accept(msg: Message): (r: Result<MarketEvent>)
    ensures r.Ok? ==> Parsed(r.value) && r.value.line == msg.offset + 1
  {
    Screen(msg.topic, Read(msg))
  }

  function KnownSymbol(key: string, parsed: Result<MarketEvent>): string {
    if parsed.Ok? && parsed.value.symbol != "" then parsed.value.symbol else key
  }

  function Envelop(msg: Message, symbol: string, error: string): Output {
    Rejected(symbol, Envelope(msg.topic, symbol, msg.offset, error, msg.value))
  }

  /** What an accepted event is turned into: an envelope if it adds a failure, itself otherwise. */
  function RouteEvent(t: Trackers, msg: Message, ev: MarketEvent): Output {
    var fs := Emit("", t, Good(msg.offset + 1, ev));
    if fs != [] then Envelop(msg, KnownSymbol(msg.key, Ok(ev)), Last(fs).message) else Validated(ev.symbol, Print(ev))
  }

  /** The one message produced for `msg`, which parses to `parsed`, when the trackers are `t`. */
  function Route(t: Trackers, msg: Message, parsed: Result<MarketEvent>): Output
    requires parsed.Ok? ==> Parsed(parsed.value)
  {
    match Screen(msg.topic, parsed)
    case Err(m) => Envelop(msg, KnownSymbol(msg.key, parsed), m)
    case Ok(ev) => RouteEvent(t, msg, ev)
  }

  function Advanced(t: Trackers, msg: Message, parsed: Result<MarketEvent>): Trackers {
    match Screen(msg.topic, parsed)
    case Err(_) => t
    case Ok(ev) => Advance("", t, Good(msg.offset + 1, ev))
  }

  /** Trackers after consuming `ms`. */
  function AfterAll(ms: seq<Message>): Trackers {
    if ms == [] then NO_TRACKERS else Advanced(AfterAll(Front(ms)), Last(ms), Read(Last(ms)))
  }

  function RouteAt(ms: seq<Message>, i: nat): Output
    requires i < |ms|
  {
    Route(AfterAll(ms[..i]), ms[i], Read(ms[i]))
  }

  /** The messages produced for `ms`, in order. */
  function Outputs(ms: seq<Message>): seq<Output> {
    if ms == [] then [] else Outputs(Front(ms)) + [Route(AfterAll(Front(ms)), Last(ms), Read(Last(ms)))]
  }

  lemma {:induction false} OutputsAt(ms: seq<Message>, i: nat)
    requires i < |ms|
    ensures |Outputs(ms)| == |ms| && Outputs(ms)[i] == RouteAt(ms, i)
    decreases |ms|
  {
    OutputsLength(ms);
    OutputsLength(Front(ms));
    if i < |ms| - 1 {
      OutputsAt(Front(ms), i);
      assert Front(ms)[..i] == ms[..i];
    }
  }

  lemma NewFailures(before: seq<Failure>, after: seq<Failure>, fs: seq<Failure>)
    requires after == before + fs
    ensures |after| > |before| <==> fs != []
    ensures fs != [] ==> after[|after| - 1] == Last(fs)
  {
  }

  /** The three ways a message can go. */
  lemma RouteCases(t: Trackers, msg: Message, parsed: Result<MarketEvent>)
    requires parsed.Ok? ==> Parsed(parsed.value)
    ensures parsed.Err? ==>
            Advanced(t, msg, parsed) == t && Route(t, msg, parsed) == Envelop(msg, msg.key, parsed.message)
    ensures parsed.Ok? && msg.topic != "" && Ok(msg.topic) != RawTopic(parsed.value.kind) ==>
              Advanced(t, msg, parsed) == t && Route(t, msg, parsed) == Envelop(msg, parsed.value.symbol, WRONG_TOPIC)
    ensures parsed.Ok? && (msg.topic == "" || Ok(msg.topic) == RawTopic(parsed.value.kind)) ==>
              && Route(t, msg, parsed) == RouteEvent(t, msg, parsed.value)
              && Advanced(t, msg, parsed) == Advance("", t, Good(msg.offset + 1, parsed.value))
  {
  }

  class StreamValidator {
    const state: Validator
    var sent: seq<Output>

    ghost predicate Valid()
      reads this, state
    {
      state.Valid() && state.filter == ""
    }

    constructor ()
      ensures Valid() && fresh(state) && sent == [] && state.Seen().trackers == NO_TRACKERS
    {
      state := new Validator("");
      sent := [];
    }

    method RouteError(msg: Message, symbol: string, error: string)
      requires Valid()
      modifies this`sent
      ensures Valid()
      ensures var s := if symbol == "" then msg.key else symbol;
              sent == old(sent) + [Rejected(s, Envelope(msg.topic, s, msg.offset, error, msg.value))]
    {
      var s := symbol;
      if s == "" {
        s := msg.key;
      }
      sent := sent + [Rejected(s, Envelope(msg.topic, s, msg.offset, error, msg.value))];
    }

    /** Validate an accepted event and route it. */
    method Check(msg: Message, ev: MarketEvent)
      requires Valid()
      modifies this`sent, state
      ensures Valid()
      ensures sent == old(sent) + [RouteEvent(old(state.Seen().trackers), msg, ev)]
      ensures state.Seen().trackers == Advance("", old(state.Seen().trackers), Good(msg.offset + 1, ev))
      ensures |sent| == |old(sent)| + 1 && old(state.failures) <= state.failures
      ensures state.failures == old(state.failures) ==> sent[|old(sent)|] == Validated(ev.symbol, Print(ev))
      ensures state.failures != old(state.failures) ==>
              && sent[|old(sent)|].Rejected?
              && sent[|old(sent)|].envelope.error == state.failures[|state.failures| - 1].message
    {
      var rec := Good(msg.offset + 1, ev);
      ghost var fs := Emit("", state.Seen().trackers, rec);
      var before := |state.failures|;
      state.Process(rec);
      NewFailures(old(state.failures), state.failures, fs);
      if |state.failures| > before {
        RouteError(msg, ev.symbol, state.failures[|state.failures| - 1].message);
      } else {
        sent := sent + [Validated(ev.symbol, Print(ev))];
      }
    }

    /** Exactly one output per message, and the trackers move only for messages that are accepted. */
    method Process(msg: Message)
      requires Valid()
      modifies this`sent, state
      ensures Valid()
      ensures sent == old(sent) + [Route(old(state.Seen().trackers), msg, Read(msg))]
      ensures state.Seen().trackers == Advanced(old(state.Seen().trackers), msg, Read(msg))
    {
      var parsed := Read(msg);
      RouteCases(state.Seen().trackers, msg, parsed);
      if parsed.Err? {
        RouteError(msg, "", parsed.message);
        return;
      }
      var ev := parsed.value;
      var expected := RawTopic(ev.kind);
      if msg.topic != "" && msg.topic != expected.value {
        RouteError(msg, ev.symbol, WRONG_TOPIC);
        return;
      }
      Check(msg, ev);
    }
  }

  /** Consume a batch from scratch: one output per message, each decided by the messages before it. */
  method Consume(ms: seq<Message>) returns (sent: seq<Output>)
    ensures sent == Outputs(ms) && |sent| == |ms|
    ensures forall i :: 0 <= i < |ms| ==> sent[i] == RouteAt(ms, i)
  {
    var v := new StreamValidator();
    for i := 0 to |ms|
      invariant v.Valid() && fresh(v) && fresh(v.state)
      invariant v.sent == Outputs(ms[..i]) && v.state.Seen().trackers == AfterAll(ms[..i])
    {
      v.Process(ms[i]);
      assert Front(ms[..i + 1]) == ms[..i];
    }
    assert ms[..|ms|] == ms;
    sent := v.sent;
    OutputsLength(ms);
    forall i | 0 <= i < |ms| ensures sent[i] == RouteAt(ms, i) {
      OutputsAt(ms, i);
    }
  }

  lemma {:induction false} OutputsLength(ms: seq<Message>)
    ensures |Outputs(ms)| == |ms|
  {
    if ms != [] {
      OutputsLength(Front(ms));
    }
  }

  // ----- Routing safety -----

  /** `m` holds at least `x` for `s`. */
  predicate AtLeast(m: map<string, int>, s: string, x: int) {
    s in m && m[s] >= x
  }

  predicate Reached(t: Trackers, ev: MarketEvent) {
    && AtLeast(t.time, ev.symbol, ev.TimeMillis())
    && (ev.kind.Depth? ==> AtLeast(t.depth, ev.symbol, ev.finalUpdateID))
    && (ev.kind.AggTrade? ==> AtLeast(t.trade, ev.symbol, ev.tradeID))
  }

  lemma AdvanceReaches(t: Trackers, rec: Record)
    requires rec.Good?
    ensures Reached(Advance("", t, rec), rec.event)
  {
  }

  lemma ReachedStays(t: Trackers, ev: MarketEvent, msg: Message)
    requires Reached(t, ev)
    ensures Reached(Advanced(t, msg, Read(msg)), ev)
  {
  }

  lemma {:induction false} ReachedLater(ms: seq<Message>, i: nat, j: nat)
    requires i < j <= |ms| && Accept(ms[i]).Ok?
    ensures Reached(AfterAll(ms[..j]), Accept(ms[i]).value)
  {
    assert Front(ms[..j]) == ms[..j - 1] && Last(ms[..j]) == ms[j - 1];
    if i == j - 1 {
      AdvanceReaches(AfterAll(ms[..i]), Good(ms[i].offset + 1, Accept(ms[i]).value));
    } else {
      ReachedLater(ms, i, j - 1);
      ReachedStays(AfterAll(ms[..j - 1]), Accept(ms[i]).value, ms[j - 1]);
    }
  }

  /** An event that passes every check lies beyond everything its trackers have reached. */
  lemma PassedIsBeyond(t: Trackers, earlier: MarketEvent, ev: MarketEvent)
    requires Reached(t, earlier) && earlier.symbol == ev.symbol
    requires TimeFailures(t, ev) + SequenceFailures(t, ev) == []
    ensures earlier.TimeMillis() <= ev.TimeMillis()
    ensures earlier.kind.Depth? && ev.kind.Depth? ==> earlier.finalUpdateID < ev.firstUpdateID
    ensures earlier.kind.AggTrade? && ev.kind.AggTrade? ==> earlier.tradeID < ev.tradeID
  {
    assert TimeFailures(t, ev) == [] && SequenceFailures(t, ev) == [];
  }

  /** What a validated message tells of the message it came from. */
  lemma ValidatedIs(t: Trackers, msg: Message)
    requires Route(t, msg, Read(msg)).Validated?
    ensures Accept(msg).Ok?
    ensures var ev := Accept(msg).value;
            && Route(t, msg, Read(msg)) == Validated(ev.symbol, Print(ev))
            && TimeFailures(t, ev) + SequenceFailures(t, ev) == []
            && (ev.kind.Depth? ==> ev.firstUpdateID <= ev.finalUpdateID)
  {
    assert Accept(msg).Ok?;
    assert Parsed(Accept(msg).value);
  }

  /** ROUTING SAFETY. In every run, for any two validated messages of one symbol, whatever came between
      them: times do not decrease, depth id ranges are disjoint and increasing, trade ids strictly increase. */
  lemma ValidatedEventsAdvance(ms: seq<Message>, i: nat, j: nat)
    requires i < j < |ms| && RouteAt(ms, i).Validated? && RouteAt(ms, j).Validated?
    requires RouteAt(ms, i).key == RouteAt(ms, j).key
    ensures Accept(ms[i]).Ok? && Accept(ms[j]).Ok?
    ensures var a, b := Accept(ms[i]).value, Accept(ms[j]).value;
            && RouteAt(ms, i).value == Print(a) && RouteAt(ms, j).value == Print(b) && a.symbol == b.symbol
            && a.TimeMillis() <= b.TimeMillis()
            && (a.kind.Depth? && b.kind.Depth? ==>
              a.firstUpdateID <= a.finalUpdateID < b.firstUpdateID <= b.finalUpdateID)
            && (a.kind.AggTrade? && b.kind.AggTrade? ==> a.tradeID < b.tradeID)
  {
    ValidatedIs(AfterAll(ms[..i]), ms[i]);
    ValidatedIs(AfterAll(ms[..j]), ms[j]);
    ReachedLater(ms, i, j);
    PassedIsBeyond(AfterAll(ms[..j]), Accept(ms[i]).value, Accept(ms[j]).value);
  }

  // ----- Publish, then consume -----

  /** `msg` is the message published for the parsed row `rec` on the default topics, at any offset. */
  ghost predicate Carries(rec: Record, msg: Message) {
    rec.Good? && Parsed(rec.event) && msg == MessageFor(rec.event, DEPTH_RAW, TRADE_RAW, msg.offset)
  }

  /** `ms` are the messages published for the parsed rows `rs`, delivered in order. */
  ghost predicate Delivered(rs: seq<Record>, ms: seq<Message>) {
    |ms| == |rs| && forall i {:trigger Carries(rs[i], ms[i])} :: 0 <= i < |rs| ==> Carries(rs[i], ms[i])
  }

  /** The row's event survives being printed. */
  predicate Survives(rec: Record) {
    rec.Good? && Printable(rec.event)
  }

  function Kept(rs: seq<Record>): seq<Record> {
    if rs == [] then [] else Kept(Front(rs)) + (if Survives(Last(rs)) then [Last(rs)] else [])
  }

  /** The rows to which validating the stream attaches at least one failure. */
  function Flagged(rs: seq<Record>): nat {
    if rs == [] then 0
    else Flagged(Front(rs)) + (if Emit("", AdvanceAll("", NO_TRACKERS, Front(rs)), Last(rs)) != [] then 1 else 0)
  }

  function CountRejected(outs: seq<Output>): nat {
    if outs == [] then 0 else CountRejected(Front(outs)) + (if Last(outs).Rejected? then 1 else 0)
  }

  lemma AcceptPublished(ev: MarketEvent, offset: int)
    requires Parsed(ev) && Printable(ev)
    ensures Accept(MessageFor(ev, DEPTH_RAW, TRADE_RAW, offset)) == Ok(ev.(line := offset + 1))
  {
    RoundTripIff(ev, offset + 1);
    ScreenPublished(ev, offset);
  }

  lemma ScreenPublished(ev: MarketEvent, offset: int)
    requires !ev.kind.Unknown?
    ensures var msg, read := MessageFor(ev, DEPTH_RAW, TRADE_RAW, offset), Ok(ev.(line := offset + 1));
            Screen(msg.topic, read) == read
  {
  }

  /** Line numbers do not influence which checks fail or how the trackers move. */
  lemma LinesDoNotMatter(t: Trackers, rec: Record, line: int)
    requires rec.Good?
    ensures var other := Good(line, rec.event.(line := line));
            Advance("", t, other) == Advance("", t, rec) && (Emit("", t, other) == [] <==> Emit("", t, rec) == [])
  {
    assert rec.event.(line := line).TimeMillis() == rec.event.TimeMillis();
    assert |TimeFailures(t, rec.event.(line := line))| == |TimeFailures(t, rec.event)|;
    assert |SequenceFailures(t, rec.event.(line := line))| == |SequenceFailures(t, rec.event)|;
  }

  lemma RowAgrees(t: Trackers, rec: Record, offset: int)
    requires rec.Good? && Parsed(rec.event) && Printable(rec.event)
    ensures var msg := MessageFor(rec.event, DEPTH_RAW, TRADE_RAW, offset);
            Advanced(t, msg, Read(msg)) == Advance("", t, rec)
                && (Route(t, msg, Read(msg)).Rejected? <==> Emit("", t, rec) != [])
  {
    AcceptPublished(rec.event, offset);
    LinesDoNotMatter(t, rec, offset + 1);
  }

  /** A row that does not survive being printed is rejected and moves no tracker; any other is treated as the
      validator treats it. */
  lemma RowOutcome(t: Trackers, rec: Record, msg: Message)
    requires Carries(rec, msg)
    ensures Advanced(t, msg, Read(msg)) == if Survives(rec) then Advance("", t, rec) else t
    ensures Route(t, msg, Read(msg)).Rejected? <==> !Survives(rec) || Emit("", t, rec) != []
  {
    if Survives(rec) {
      RowAgrees(t, rec, msg.offset);
    } else {
      RoundTripIff(rec.event, msg.offset + 1);
      assert Accept(msg).Err?;
    }
  }

  lemma CountRejectedLast(ms: seq<Message>)
    requires ms != []
    ensures CountRejected(Outputs(ms))
         == CountRejected(Outputs(Front(ms)))
             + (if Route(AfterAll(Front(ms)), Last(ms), Read(Last(ms))).Rejected? then 1 else 0)
  {
    assert Front(Outputs(ms)) == Outputs(Front(ms));
  }

  lemma DeliveredFront(rs: seq<Record>, ms: seq<Message>)
    requires Delivered(rs, ms) && rs != []
    ensures Delivered(Front(rs), Front(ms)) && Carries(Last(rs), Last(ms))
  {
    forall i | 0 <= i < |Front(rs)| ensures Carries(Front(rs)[i], Front(ms)[i]) {
      assert Carries(rs[i], ms[i]);
    }
    assert Carries(rs[|rs| - 1], ms[|rs| - 1]);
  }

  /** The flags of one more row, in terms of the rows that survive. */
  lemma FlaggedLast(rs: seq<Record>)
    requires rs != []
    ensures var t := AdvanceAll("", NO_TRACKERS, Kept(Front(rs)));
            && AdvanceAll("", NO_TRACKERS, Kept(rs)) == (if Survives(Last(rs)) then Advance("", t, Last(rs)) else t)
            && Flagged(Kept(rs)) - |Kept(rs)| == Flagged(Kept(Front(rs))) - |Kept(Front(rs))|
                 + (if !Survives(Last(rs)) then 0 else if Emit("", t, Last(rs)) != [] then 0 else -1)
  {
    if Survives(Last(rs)) {
      assert Front(Kept(rs)) == Kept(Front(rs)) && Last(Kept(rs)) == Last(rs);
    } else {
      assert Kept(rs) == Kept(Front(rs));
    }
  }

  /** PUBLISH/CONSUME AGREEMENT. When a file of parsed events is published and its messages are consumed in
      order, the consumer's trackers are those of validating the surviving rows, and the error topic receives
      one message for each row that does not survive and one for each surviving row with a failure. */
  lemma {:induction false} ErrorTopicCountsFlaggedRows(rs: seq<Record>, ms: seq<Message>)
    requires Delivered(rs, ms)
    ensures AfterAll(ms) == AdvanceAll("", NO_TRACKERS, Kept(rs))
    ensures CountRejected(Outputs(ms)) == |rs| - |Kept(rs)| + Flagged(Kept(rs))
  {
    if rs != [] {
      DeliveredFront(rs, ms);
      ErrorTopicCountsFlaggedRows(Front(rs), Front(ms));
      CountRejectedLast(ms);
      RowOutcome(AfterAll(Front(ms)), Last(rs), Last(ms));
      FlaggedLast(rs);
    }
  }

  predicate AllSurvive(rs: seq<Record>) {
    rs == [] || (AllSurvive(Front(rs)) && Survives(Last(rs)))
  }

  lemma {:induction false} AllKept(rs: seq<Record>)
    requires AllSurvive(rs)
    ensures Kept(rs) == rs
  {
    if rs != [] {
      AllKept(Front(rs));
      assert rs == Front(rs) + [Last(rs)];
    }
  }

  /** When every row survives printing, the error topic counts exactly the rows of the file with a failure. */
  lemma ErrorTopicCountsFile(rs: seq<Record>, ms: seq<Message>)
    requires Delivered(rs, ms) && AllSurvive(rs)
    ensures AfterAll(ms) == AdvanceAll("", NO_TRACKERS, rs) && CountRejected(Outputs(ms)) == Flagged(rs)
  {
    AllKept(rs);
    ErrorTopicCountsFlaggedRows(rs, ms);
  }
}
