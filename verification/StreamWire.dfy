/**
 Streams as a server sends them and the recorder keeps them: explicit JSON objects, as text or as values, between rows
 that say nothing. What comes back is stated from what was sent alone.
 */
module StreamWire {
  import opened Wrappers
  import opened Text
  import opened StreamReconstruct
  import opened StreamTheorems

  // ---------- what is sent ----------

  datatype Core =
    | MessageStart(head: Head)
    | BlockStart(index: int, block: Obj)
    | Delta(index: int, piece: Piece, other: Obj)
    | BlockStop(index: int)
    | MessageDelta(close: Close)
    | MessageStop

  /** The announced message, with the fields that are not read. */
  datatype Head = Head(id: Option<string>, model: Option<string>, stopReason: Option<string>,
                       stopSequence: Option<string>, usage: Option<Obj>, rest: Obj)

  datatype Close = Close(stopReason: Option<string>, stopSequence: Option<string>, usage: Option<Obj>, rest: Obj)

  /** An event, with the fields that are not read. */
  datatype Sent = Sent(core: Core, more: Obj)

  function HeadObject(h: Head): Obj {
    var named := WithText(WithText(h.rest, "id", h.id), "model", h.model);
    WithObject(WithText(WithText(named, "stop_reason", h.stopReason), "stop_sequence", h.stopSequence),
      "usage", h.usage)
  }

  function WithText(o: Obj, key: string, v: Option<string>): Obj {
    if v.Some? then o[key := JStr(v.value)] else o
  }

  function WithObject(o: Obj, key: string, v: Option<Obj>): Obj {
    if v.Some? then o[key := JObj(v.value)] else o
  }

  function DeltaObject(piece: Piece, other: Obj): Obj {
    match piece
    case TextPiece(s) => other + map["type" := JStr("text_delta"), "text" := JStr(s)]
    case ThinkingPiece(s) => other + map["type" := JStr("thinking_delta"), "thinking" := JStr(s)]
    case JsonPiece(s) => other + map["type" := JStr("input_json_delta"), "partial_json" := JStr(s)]
    case SignaturePiece(s) => other + map["type" := JStr("signature_delta"), "signature" := JStr(s)]
    case OtherPiece => other
  }

  function Wire(s: Sent): Obj {
    s.more + match s.core
             case MessageStart(head) =>
               map["type" := JStr("message_start"), "message" := JObj(HeadObject(head))]
             case BlockStart(index, block) =>
               map["type" := JStr("content_block_start"), "index" := JNum(index), "content_block" := JObj(block)]
             case Delta(index, piece, other) =>
               map["type" := JStr("content_block_delta"), "index" := JNum(index),
                   "delta" := JObj(DeltaObject(piece, other))]
             case BlockStop(index) => map["type" := JStr("content_block_stop"), "index" := JNum(index)]
             case MessageDelta(close) =>
               map["type" := JStr("message_delta"), "delta" := JObj(CloseObject(close))]
               + OptObject("usage", close.usage)
             case MessageStop => map["type" := JStr("message_stop")]
  }

  function CloseObject(c: Close): Obj {
    WithText(WithText(c.rest, "stop_reason", c.stopReason), "stop_sequence", c.stopSequence)
  }

  /** A key not set otherwise is absent or null. */
  predicate Silent(o: Obj, key: string) {
    key in o ==> o[key] == JNull
  }

  predicate Sendable(s: Sent) {
    match s.core
    case MessageStart(h) =>
      Silent(h.rest, "id") && Silent(h.rest, "model") && Silent(h.rest, "stop_reason") &&
        Silent(h.rest, "stop_sequence") && Silent(h.rest, "usage")
    case Delta(_, piece, other) => piece.OtherPiece? ==> UnknownType(other)
    case MessageDelta(c) => Silent(c.rest, "stop_reason") && Silent(c.rest, "stop_sequence") && Silent(s.more, "usage")
    case _ => true
  }

  predicate UnknownType(delta: Obj) {
    "type" in delta ==>
      && delta["type"] != JStr("text_delta") && delta["type"] != JStr("thinking_delta")
      && delta["type"] != JStr("input_json_delta") && delta["type"] != JStr("signature_delta")
  }

  // ---------- what is recorded ----------

  /** The object a row holds, as text or as a value. */
  predicate Carried(parse: Parser, row: Row, o: Obj) {
    match row
    case NoData => false
    case TextData(text) => parse(text) == Some(JObj(o))
    case ParsedData(value) => value == JObj(o)
  }

  /** A row without an object, or with one that is no event: an unknown type, or a block event without an index. */
  predicate Strange(parse: Parser, row: Row) {
    match row
    case NoData => true
    case TextData(text) => parse(text) == None || NoEvent(parse(text).value)
    case ParsedData(value) => NoEvent(value)
  }

  predicate NoEvent(value: Json) {
    value.JObj? ==>
      var o := value.fields;
      "type" in o && o["type"] in {JStr("content_block_start"), JStr("content_block_delta"), JStr("content_block_stop"),
                                   JStr("message_start"), JStr("message_delta"), JStr("message_stop")} ==>
        o["type"] in {JStr("content_block_start"), JStr("content_block_delta"), JStr("content_block_stop")} &&
        ("index" in o ==> !o["index"].JNum?)
  }

  /** The rows hold these events, with strange rows where there is none. */
  predicate Records(parse: Parser, rows: seq<Row>, sent: seq<Option<Sent>>) {
    |rows| == |sent| && forall k :: 0 <= k < |rows| ==> RecordsAt(parse, rows[k], sent[k])
  }

  predicate RecordsAt(parse: Parser, row: Row, sent: Option<Sent>) {
    if sent.None? then Strange(parse, row) else Sendable(sent.value) && Carried(parse, row, Wire(sent.value))
  }

  // ---------- rows are read as what they carry ----------

  /** A row is read as the object it carries, whether as text or as a value; any other row changes nothing. */
  lemma RowRead(parse: Parser, st: State, row: Row, o: Obj)
    ensures Carried(parse, row, o) ==> StepRow(parse, st, row) == Step(parse, st, o)
    ensures Strange(parse, row) ==> StepRow(parse, st, row) == st
  {
  }

  predicate IsBlockCore(c: Core) {
    c.BlockStart? || c.Delta? || c.BlockStop?
  }

  lemma WireType(s: Sent)
    ensures var p := Wire(s);
            && "type" in p
            && p["type"] == JStr(match s.core
                                 case MessageStart(_) => "message_start"
                                 case BlockStart(_, _) => "content_block_start"
                                 case Delta(_, _, _) => "content_block_delta"
                                 case BlockStop(_) => "content_block_stop"
                                 case MessageDelta(_) => "message_delta"
                                 case MessageStop => "message_stop")
            && (IsBlockCore(s.core) ==> "index" in p && p["index"] == JNum(s.core.index))
  {
  }

  lemma WireRead(s: Sent, i: int)
    ensures IsBlockEventAt(Wire(s), i) <==> IsBlockCore(s.core) && s.core.index == i
    ensures IsMessageEvent(Wire(s)) <==> !IsBlockCore(s.core)
  {
    WireType(s);
  }

  function AtIndex(sent: seq<Option<Sent>>, i: int): seq<Sent> {
    if sent == [] then []
    else
      (if sent[0].Some? && IsBlockCore(sent[0].value.core) && sent[0].value.core.index == i
        then [sent[0].value] else [])
      + AtIndex(sent[1..], i)
  }

  function OfMessage(sent: seq<Option<Sent>>): seq<Sent> {
    if sent == [] then []
    else (if sent[0].Some? && !IsBlockCore(sent[0].value.core) then [sent[0].value] else []) + OfMessage(sent[1..])
  }

  function Wires(sent: seq<Sent>): seq<Obj> {
    seq(|sent|, k requires 0 <= k < |sent| => Wire(sent[k]))
  }

  lemma WiresAppend(a: seq<Sent>, b: seq<Sent>)
    ensures Wires(a + b) == Wires(a) + Wires(b)
  {
  }

  lemma OneRow(parse: Parser, row: Row, sent: Option<Sent>, i: int)
    requires RecordsAt(parse, row, sent)
    ensures var p := ParseEventData(parse, row);
            if sent.Some? then p == Some(Wire(sent.value))
            else p.Some? ==> !IsBlockEventAt(p.value, i) && !IsMessageEvent(p.value)
  {
  }

  /** What one row adds to the events of an index, and of the message. */
  lemma RowEvents(parse: Parser, row: Row, sent: Option<Sent>, i: int)
    requires RecordsAt(parse, row, sent)
    ensures var p := ParseEventData(parse, row);
            && (if p.Some? && IsBlockEventAt(p.value, i) then [p.value] else []) ==
               Wires(if sent.Some? && IsBlockCore(sent.value.core) && sent.value.core.index == i then [sent.value]
                 else [])
            && (if p.Some? && IsMessageEvent(p.value) then [p.value] else []) ==
               Wires(if sent.Some? && !IsBlockCore(sent.value.core) then [sent.value] else [])
  {
    OneRow(parse, row, sent, i);
    if sent.Some? { WireRead(sent.value, i); }
  }

  lemma RecordsTail(parse: Parser, rows: seq<Row>, sent: seq<Option<Sent>>)
    requires Records(parse, rows, sent) && rows != []
    ensures RecordsAt(parse, rows[0], sent[0]) && Records(parse, rows[1..], sent[1..])
  {
    forall k | 0 <= k < |rows[1..]| ensures RecordsAt(parse, rows[1..][k], sent[1..][k]) {
      assert RecordsAt(parse, rows[k + 1], sent[k + 1]);
    }
  }

  lemma {:induction false} BlockEventsRead(parse: Parser, rows: seq<Row>, sent: seq<Option<Sent>>, i: int)
    requires Records(parse, rows, sent)
    ensures BlockEvents(parse, rows, i) == Wires(AtIndex(sent, i))
    decreases |rows|
  {
    if rows != [] {
      RecordsTail(parse, rows, sent);
      BlockEventsRead(parse, rows[1..], sent[1..], i);
      RowEvents(parse, rows[0], sent[0], i);
      var s := sent[0];
      WiresAppend(if s.Some? && IsBlockCore(s.value.core) && s.value.core.index == i then [s.value] else [],
                  AtIndex(sent[1..], i));
    }
  }

  lemma {:induction false} MessageEventsRead(parse: Parser, rows: seq<Row>, sent: seq<Option<Sent>>)
    requires Records(parse, rows, sent)
    ensures MessageEvents(parse, rows) == Wires(OfMessage(sent))
    decreases |rows|
  {
    if rows != [] {
      RecordsTail(parse, rows, sent);
      MessageEventsRead(parse, rows[1..], sent[1..]);
      RowEvents(parse, rows[0], sent[0], 0);
      var s := sent[0];
      WiresAppend(if s.Some? && !IsBlockCore(s.value.core) then [s.value] else [], OfMessage(sent[1..]));
    }
  }

  // ---------- one block ----------

  /** How a block is opened: with some of its text, some of its thinking, a provisional input, or whole. */
  datatype Opening =
    | TextOpening(more: Obj, text: string)
    | ThinkingOpening(more: Obj, thinking: string, signature: Option<string>)
    | ToolOpening(more: Obj, server: bool, input: Json)
    | WholeOpening(block: Obj)

  function Typed(more: Obj, t: string): Obj {
    more["type" := JStr(t)]
  }

  function ToolType(server: bool): string {
    if server then "server_tool_use" else "tool_use"
  }

  function OpeningObject(o: Opening): Obj {
    match o
    case TextOpening(more, text) => Typed(more, "text")["text" := JStr(text)]
    case ThinkingOpening(more, thinking, signature) => ThinkingObject(more, thinking, signature)
    case ToolOpening(more, server, input) => Typed(more, ToolType(server))["input" := input]
    case WholeOpening(block) => block
  }

  function ThinkingObject(more: Obj, thinking: string, signature: Option<string>): Obj {
    var b := Typed(more, "thinking")["thinking" := JStr(thinking)];
    if signature.Some? then b["signature" := JStr(signature.value)] else b
  }

  /** The pieces that go with an opening. */
  predicate Fits(o: Opening, pieces: seq<Piece>) {
    match o
    case TextOpening(_, _) => forall k :: 0 <= k < |pieces| ==> pieces[k].TextPiece? || pieces[k].OtherPiece?
    case ThinkingOpening(more, _, _) =>
      && "signature" !in more
      && forall k :: 0 <= k < |pieces| ==>
                       pieces[k].ThinkingPiece? || pieces[k].SignaturePiece? || pieces[k].OtherPiece?
    case ToolOpening(_, _, _) => forall k :: 0 <= k < |pieces| ==> pieces[k].JsonPiece? || pieces[k].OtherPiece?
    case WholeOpening(block) =>
      && ("type" in block ==> block["type"] != JStr("tool_use") && block["type"] != JStr("server_tool_use"))
      && forall k :: 0 <= k < |pieces| ==> pieces[k].OtherPiece?
  }

  /** The block that opening and pieces make. */
  function Made(parse: Parser, o: Opening, pieces: seq<Piece>): Obj {
    match o
    case TextOpening(more, text) => Typed(more, "text")["text" := JStr(text + Texts(pieces))]
    case ThinkingOpening(more, thinking, signature) =>
      ThinkingObject(more, thinking + Thinkings(pieces), Signature(signature, pieces))
    case ToolOpening(more, server, input) =>
      Typed(more, ToolType(server))["input" := SentInput(parse, input, Jsons(pieces))]
    case WholeOpening(block) => block
  }

  lemma Splits(parse: Parser, o: Opening, pieces: seq<Piece>)
    requires Fits(o, pieces)
    ensures SplitOf(parse, OpeningObject(o), pieces, Made(parse, o, pieces))
  {
    var b0, b := OpeningObject(o), Made(parse, o, pieces);
    match o
    case TextOpening(more, text) => assert TextSplit(b0, pieces, b);
    case ThinkingOpening(more, thinking, signature) =>
      SignatureStays(signature, pieces);
      assert b0 - {"thinking", "signature"} == b - {"thinking", "signature"};
      assert ThinkingSplit(b0, pieces, b);
    case ToolOpening(more, server, input) => assert ToolSplit(parse, b0, pieces, b);
    case WholeOpening(block) =>
  }

  /** The opening that a first delta without a start stands for. */
  function Implied(first: Piece): Opening {
    match first
    case JsonPiece(_) => ToolOpening(map[], false, JObj(map[]))
    case ThinkingPiece(_) => ThinkingOpening(map[], "", None)
    case SignaturePiece(_) => ThinkingOpening(map[], "", None)
    case _ => TextOpening(map[], "")
  }

  /** How one block is sent: started or not, its pieces, and any number of stops. */
  datatype Plan = Plan(index: int, opening: Opening, started: bool, pieces: seq<Piece>, stops: nat)

  predicate Sound(p: Plan) {
    Fits(p.opening, p.pieces) && (!p.started ==> p.pieces != [] && p.opening == Implied(p.pieces[0]))
  }

  function Starts(p: Plan): nat {
    if p.started then 1 else 0
  }

  predicate Follows(part: seq<Sent>, p: Plan) {
    && |part| == Starts(p) + |p.pieces| + p.stops
    && (p.started ==> part[0].core == BlockStart(p.index, OpeningObject(p.opening)))
    && (forall k :: 0 <= k < |p.pieces| ==>
          part[Starts(p) + k].core.Delta? && part[Starts(p) + k].core.piece == p.pieces[k])
    && (forall k :: Starts(p) + |p.pieces| <= k < |part| ==> part[k].core.BlockStop?)
  }

  lemma Carriers(s: Sent)
    requires s.core.Delta? && Sendable(s)
    ensures Carries(Wire(s), s.core.piece)
  {
    var p := Wire(s);
    assert p["delta"] == JObj(DeltaObject(s.core.piece, s.core.other));
    assert TypeOf(p) == "content_block_delta" &&
      ReadObject(p, "delta") == Some(DeltaObject(s.core.piece, s.core.other));
    DeltaReads(s.core.piece, s.core.other);
  }

  lemma DeltaReads(piece: Piece, other: Obj)
    requires piece.OtherPiece? ==> UnknownType(other)
    ensures var d := DeltaObject(piece, other);
            match piece
            case TextPiece(s) => ReadString(d, "type") == Some("text_delta") && ReadString(d, "text") == Some(s)
            case ThinkingPiece(s) =>
              ReadString(d, "type") == Some("thinking_delta") && ReadString(d, "thinking") == Some(s)
            case JsonPiece(s) =>
              ReadString(d, "type") == Some("input_json_delta") && ReadString(d, "partial_json") == Some(s)
            case SignaturePiece(s) =>
              ReadString(d, "type") == Some("signature_delta") && ReadString(d, "signature") == Some(s)
            case OtherPiece =>
              ReadString(d, "type") !in {Some("text_delta"), Some("thinking_delta"), Some("input_json_delta"),
                                         Some("signature_delta")}
  {
  }

  predicate AllSendable(part: seq<Sent>) {
    forall k :: 0 <= k < |part| ==> Sendable(part[k])
  }

  lemma PlanCarries(part: seq<Sent>, p: Plan)
    requires Follows(part, p) && AllSendable(part)
    ensures var n, m := Starts(p), Starts(p) + |p.pieces|;
            && CarryAll(Wires(part)[n..m], p.pieces)
            && forall k :: 0 <= k < |Wires(part)[m..]| ==> TypeOf(Wires(part)[m..][k]) == "content_block_stop"
  {
    var n, m := Starts(p), Starts(p) + |p.pieces|;
    forall k | 0 <= k < |p.pieces| ensures Carries(Wires(part)[n..m][k], p.pieces[k]) {
      var s, piece := part[Starts(p) + k], p.pieces[k];
      assert s.core.Delta? && s.core.piece == piece && Sendable(s);
      Carriers(s);
    }
    forall k | 0 <= k < |part| - m ensures TypeOf(Wires(part)[m..][k]) == "content_block_stop" {
      assert part[m + k].core.BlockStop?;
      WireType(part[m + k]);
    }
  }

  lemma PlanStreams(parse: Parser, part: seq<Sent>, p: Plan)
    requires Sound(p) && Follows(part, p) && AllSendable(part)
    ensures Streams(parse, Wires(part), Made(parse, p.opening, p.pieces))
  {
    var n, m := Starts(p), Starts(p) + |p.pieces|;
    var ps := Wires(part);
    PlanCarries(part, p);
    Splits(parse, p.opening, p.pieces);
    CutInThree(ps, n, m);
    if p.started { StartReads(part[0], p); }
    Gathered(parse, ps, ps[n..m], ps[m..], p);
  }

  lemma CutInThree(ps: seq<Obj>, n: nat, m: nat)
    requires n <= m <= |ps|
    ensures ps == ps[..n] + ps[n..m] + ps[m..]
  {
  }

  lemma Gathered(parse: Parser, ps: seq<Obj>, deltas: seq<Obj>, stops: seq<Obj>, p: Plan)
    requires Sound(p) && |ps| >= Starts(p) && ps == ps[..Starts(p)] + deltas + stops
    requires CarryAll(deltas, p.pieces) &&
      SplitOf(parse, OpeningObject(p.opening), p.pieces, Made(parse, p.opening, p.pieces))
    requires forall k :: 0 <= k < |stops| ==> TypeOf(stops[k]) == "content_block_stop"
    requires p.started ==> TypeOf(ps[0]) == "content_block_start" &&
                           ReadObject(ps[0], "content_block") == Some(OpeningObject(p.opening))
    ensures Streams(parse, ps, Made(parse, p.opening, p.pieces))
  {
    var b := Made(parse, p.opening, p.pieces);
    if p.started {
      assert ps[..1] == [ps[0]];
      assert StreamsAs(parse, ps, b, ps[0], deltas, stops, OpeningObject(p.opening), p.pieces);
    } else {
      assert ps[..0] + deltas == deltas;
      assert OpeningObject(p.opening) == Supposed(p.pieces[0]);
      assert StreamsBare(parse, ps, b, deltas, stops, p.pieces);
    }
  }

  lemma StartReads(s: Sent, p: Plan)
    requires s.core == BlockStart(p.index, OpeningObject(p.opening))
    ensures TypeOf(Wire(s)) == "content_block_start" &&
            ReadObject(Wire(s), "content_block") == Some(OpeningObject(p.opening))
  {
  }

  // ---------- whole messages ----------

  /** Every block is sent as planned, and nothing else under any index. */
  predicate SentBlocks(sent: seq<Option<Sent>>, plans: seq<Plan>) {
    && (forall j, k :: 0 <= j < k < |plans| ==> plans[j].index < plans[k].index)
    && (forall k :: 0 <= k < |plans| ==> Sound(plans[k]) && Follows(AtIndex(sent, plans[k].index), plans[k]))
    && (forall k :: 0 <= k < |sent| && sent[k].Some? && IsBlockCore(sent[k].value.core) ==>
                      sent[k].value.core.index in Indices(plans))
  }

  function Indices(plans: seq<Plan>): seq<int> {
    seq(|plans|, k requires 0 <= k < |plans| => plans[k].index)
  }

  function Blocks(parse: Parser, plans: seq<Plan>): seq<Obj> {
    seq(|plans|, k requires 0 <= k < |plans| => Made(parse, plans[k].opening, plans[k].pieces))
  }

  lemma {:induction false} NoneAt(sent: seq<Option<Sent>>, i: int)
    requires forall k :: 0 <= k < |sent| && sent[k].Some? && IsBlockCore(sent[k].value.core) ==>
                           sent[k].value.core.index != i
    ensures AtIndex(sent, i) == []
  {
    if sent != [] { NoneAt(sent[1..], i); }
  }

  lemma {:induction false} PartsSendable(parse: Parser, rows: seq<Row>, sent: seq<Option<Sent>>, i: int)
    requires Records(parse, rows, sent)
    ensures AllSendable(AtIndex(sent, i)) && AllSendable(OfMessage(sent))
    decreases |rows|
  {
    if rows != [] {
      RecordsTail(parse, rows, sent);
      PartsSendable(parse, rows[1..], sent[1..], i);
    }
  }

  lemma ContentSent(parse: Parser, rows: seq<Row>, sent: seq<Option<Sent>>, plans: seq<Plan>)
    requires Records(parse, rows, sent) && SentBlocks(sent, plans)
    ensures StreamsContent(parse, rows, Indices(plans), Blocks(parse, plans))
  {
    var order := Indices(plans);
    forall k | 0 <= k < |order| ensures Streams(parse, BlockEvents(parse, rows, order[k]), Blocks(parse, plans)[k]) {
      BlockEventsRead(parse, rows, sent, order[k]);
      PartsSendable(parse, rows, sent, order[k]);
      PlanStreams(parse, AtIndex(sent, order[k]), plans[k]);
    }
    forall i | i !in order ensures BlockEvents(parse, rows, i) == [] {
      BlockEventsRead(parse, rows, sent, i);
      NoneAt(sent, i);
    }
  }

  /** The message events: the head, then closing deltas, then a stop or not. */
  predicate Framed(part: seq<Sent>, head: Head, closes: seq<Close>, stopped: bool) {
    && |part| == 1 + |closes| + (if stopped then 1 else 0)
    && part[0].core == MessageStart(head)
    && (forall k :: 0 <= k < |closes| ==> part[1 + k].core == MessageDelta(closes[k]))
    && (stopped ==> part[|part| - 1].core == MessageStop)
  }

  function Reasons(closes: seq<Close>): seq<Option<string>> {
    seq(|closes|, k requires 0 <= k < |closes| => closes[k].stopReason)
  }

  function Sequences(closes: seq<Close>): seq<Option<string>> {
    seq(|closes|, k requires 0 <= k < |closes| => closes[k].stopSequence)
  }

  function ClosingUsages(closes: seq<Close>): seq<Option<Obj>> {
    seq(|closes|, k requires 0 <= k < |closes| => closes[k].usage)
  }

  lemma HeadReads(s: Sent)
    requires s.core.MessageStart? && Sendable(s)
    ensures var h, p := s.core.head, Wire(s);
            && TypeOf(p) == "message_start" && ReadObject(p, "message") == Some(HeadObject(h))
            && SeedMessage(HeadObject(h)) == Message(h.id, h.model, h.stopReason, h.stopSequence, h.usage, [])
  {
    var h := s.core.head;
    HeadFields(h);
  }

  lemma HeadFields(h: Head)
    requires Sendable(Sent(MessageStart(h), map[]))
    ensures SeedMessage(HeadObject(h)) == Message(h.id, h.model, h.stopReason, h.stopSequence, h.usage, [])
  {
  }

  lemma CloseReads(s: Sent)
    requires s.core.MessageDelta? && Sendable(s)
    ensures var c, p := s.core.close, Wire(s);
            && TypeOf(p) == "message_delta" && Ending(p, "stop_reason") == c.stopReason
            && Ending(p, "stop_sequence") == c.stopSequence && ReadObject(p, "usage") == c.usage
  {
    var c, p := s.core.close, Wire(s);
    assert ReadObject(p, "delta") == Some(CloseObject(c));
  }

  lemma ClosesRead(part: seq<Sent>, closes: seq<Close>)
    requires |part| == |closes| && AllSendable(part) && forall k :: 0 <= k < |part| ==>
      part[k].core == MessageDelta(closes[k])
    ensures var deltas := Wires(part);
            && (forall k :: 0 <= k < |deltas| ==> TypeOf(deltas[k]) == "message_delta")
            && Endings(deltas, "stop_reason") == Reasons(closes) &&
              Endings(deltas, "stop_sequence") == Sequences(closes)
            && Usages(deltas) == ClosingUsages(closes)
  {
    forall k | 0 <= k < |part|
      ensures var p := Wire(part[k]);
              && TypeOf(p) == "message_delta" && Ending(p, "stop_reason") == closes[k].stopReason
              && Ending(p, "stop_sequence") == closes[k].stopSequence && ReadObject(p, "usage") == closes[k].usage {
      assert Sendable(part[k]);
      CloseReads(part[k]);
    }
  }

  /** Read message events: a head, closing deltas, perhaps a stop. */
  predicate ReadAs(ps: seq<Obj>, head: Head, closes: seq<Close>, stopped: bool) {
    && |ps| == 1 + |closes| + (if stopped then 1 else 0)
    && var deltas := ps[1..1 + |closes|];
       && TypeOf(ps[0]) == "message_start" && ReadObject(ps[0], "message") == Some(HeadObject(head))
       && SeedMessage(HeadObject(head)) ==
          Message(head.id, head.model, head.stopReason, head.stopSequence, head.usage, [])
       && (forall k :: 0 <= k < |deltas| ==> TypeOf(deltas[k]) == "message_delta")
       && Endings(deltas, "stop_reason") == Reasons(closes)
       && Endings(deltas, "stop_sequence") == Sequences(closes) && Usages(deltas) == ClosingUsages(closes)
       && (stopped ==> TypeOf(ps[|ps| - 1]) == "message_stop")
  }

  /** The message that was sent. */
  function SentMessage(head: Head, closes: seq<Close>, stopped: bool, content: seq<Obj>): Message {
    var reason := LastSome(head.stopReason, Reasons(closes));
    Message(head.id, head.model, if !stopped && reason.None? then Some("error") else reason,
            LastSome(head.stopSequence, Sequences(closes)), Merged(head.usage, ClosingUsages(closes)), content)
  }

  lemma WholeMessage(parse: Parser, rows: seq<Row>, order: seq<int>, content: seq<Obj>, ps: seq<Obj>, head: Head,
      closes: seq<Close>)
    requires StreamsContent(parse, rows, order, content) && MessageEvents(parse, rows) == ps
    requires ReadAs(ps, head, closes, true)
    ensures var st := Run(parse, START, rows);
            Enumerates(order, st.blocks.Keys) &&
              Finished(parse, st, order) == Some(SentMessage(head, closes, true, content))
  {
    var deltas := ps[1..1 + |closes|];
    assert ps[1..|ps| - 1] == deltas;
    StreamedMessage(parse, rows, order, content, HeadObject(head), deltas);
  }

  lemma CutMessage(parse: Parser, rows: seq<Row>, order: seq<int>, content: seq<Obj>, ps: seq<Obj>, head: Head,
      closes: seq<Close>)
    requires StreamsContent(parse, rows, order, content) && MessageEvents(parse, rows) == ps
    requires ReadAs(ps, head, closes, false)
    ensures var st := Run(parse, START, rows);
            Enumerates(order, st.blocks.Keys) &&
              Finished(parse, st, order) == Some(SentMessage(head, closes, false, content))
  {
    var deltas := ps[1..1 + |closes|];
    assert ps == [ps[0]] + deltas;
    TruncatedMessage(parse, rows, order, content, ps[0], HeadObject(head), deltas);
  }

  lemma FrameReads(part: seq<Sent>, head: Head, closes: seq<Close>, stopped: bool)
    requires Framed(part, head, closes, stopped) && AllSendable(part)
    ensures ReadAs(Wires(part), head, closes, stopped)
  {
    var middle := part[1..1 + |closes|];
    assert Sendable(part[0]);
    HeadReads(part[0]);
    ClosesRead(middle, closes);
    assert Wires(middle) == Wires(part)[1..1 + |closes|];
    WireType(part[|part| - 1]);
  }

  /** A message that is streamed and recorded comes back: every block in index order, the identity announced, the last
      reason and sequence, the usages merged; whatever rows say nothing, whatever the interleaving, as text or as
      values. Without a stop, a message without a reason is marked as an error. */
  lemma RecordedMessage(parse: Parser, rows: seq<Row>, sent: seq<Option<Sent>>, plans: seq<Plan>, head: Head,
      closes: seq<Close>, stopped: bool)
    requires Records(parse, rows, sent) && SentBlocks(sent, plans) && Framed(OfMessage(sent), head, closes, stopped)
    ensures var st := Run(parse, START, rows);
            && Enumerates(Indices(plans), st.blocks.Keys)
            && Finished(parse, st, Indices(plans)) == Some(SentMessage(head, closes, stopped, Blocks(parse, plans)))
  {
    ContentSent(parse, rows, sent, plans);
    MessageEventsRead(parse, rows, sent);
    PartsSendable(parse, rows, sent, 0);
    var ps := Wires(OfMessage(sent));
    FrameReads(OfMessage(sent), head, closes, stopped);
    if stopped { WholeMessage(parse, rows, Indices(plans), Blocks(parse, plans), ps, head, closes); }
    else { CutMessage(parse, rows, Indices(plans), Blocks(parse, plans), ps, head, closes); }
  }

  // ---------- single events, in any state ----------

  /** A head replaces what was announced before; a closing delta before any head is ignored; a stop is noted. */
  lemma MessageEvent(parse: Parser, st: State, s: Sent)
    requires Sendable(s) && !IsBlockCore(s.core)
    ensures var next := Step(parse, st, Wire(s));
            match s.core
            case MessageStart(h) =>
              next == st.(message := Some(Message(h.id, h.model, h.stopReason, h.stopSequence, h.usage, [])))
            case MessageDelta(_) => st.message.None? ==> next == st
            case MessageStop => next == st.(stopped := true)
            case _ => true
  {
    WireType(s);
    if s.core.MessageStart? { HeadReads(s); }
  }

  /** A block start replaces the block of its index; only a tool's start forgets input sent before. */
  lemma BlockStarts(parse: Parser, st: State, s: Sent)
    requires s.core.BlockStart?
    ensures var i, b, next := s.core.index, s.core.block, Step(parse, st, Wire(s));
            var tool := "type" in b && b["type"] in {JStr("tool_use"), JStr("server_tool_use")};
            next == st.(blocks := st.blocks[i := b], partial := if tool then st.partial[i := ""] else st.partial)
  {
    WireType(s);
    var p, i := Wire(s), s.core.index;
    assert ReadObject(p, "content_block") == Some(s.core.block);
    assert i in st.partial ==> st.partial[i := st.partial[i]] == st.partial;
    assert i !in st.partial ==> st.partial - {i} == st.partial;
  }
}
