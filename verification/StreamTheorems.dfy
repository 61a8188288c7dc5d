/** Reconstruction inverts streaming, however the events of the blocks are interleaved. */
module StreamTheorems {
  import opened Wrappers
  import opened Text
  import opened StreamReconstruct

  // ---------- what each index, and the message itself, sees of the stream ----------

  predicate IsBlockEventAt(p: Obj, i: int) {
    IsBlockEvent(p) && ReadNumber(p, "index") == Some(i)
  }

  /** The block events of index `i`, in arrival order. */
  function BlockEvents(parse: Parser, rows: seq<Row>, i: int): seq<Obj>
    decreases |rows|
  {
    if rows == [] then []
    else
      var p := ParseEventData(parse, rows[0]);
      (if p.Some? && IsBlockEventAt(p.value, i) then [p.value] else []) + BlockEvents(parse, rows[1..], i)
  }

  predicate IsMessageEvent(p: Obj) {
    TypeOf(p) in {"message_start", "message_delta", "message_stop"}
  }

  /** The events about the message as a whole. */
  function MessageEvents(parse: Parser, rows: seq<Row>): seq<Obj>
    decreases |rows|
  {
    if rows == [] then []
    else
      var p := ParseEventData(parse, rows[0]);
      (if p.Some? && IsMessageEvent(p.value) then [p.value] else []) + MessageEvents(parse, rows[1..])
  }

  function RunBlock(parse: Parser, st: BlockState, ps: seq<Obj>): BlockState
    decreases |ps|
  {
    if ps == [] then st else RunBlock(parse, StepBlock(parse, st, ps[0]), ps[1..])
  }

  function RunPayloads(parse: Parser, st: State, ps: seq<Obj>): State
    decreases |ps|
  {
    if ps == [] then st else RunPayloads(parse, Step(parse, st, ps[0]), ps[1..])
  }

  lemma StepAt(parse: Parser, st: State, p: Obj, i: int)
    ensures At(Step(parse, st, p), i) == if IsBlockEventAt(p, i) then StepBlock(parse, At(st, i), p) else At(st, i)
  {
    if IsBlockEvent(p) {
      var k := ReadNumber(p, "index").value;
      var next := StepBlock(parse, At(st, k), p);
      assert At(With(st, k, next), k) == next;
      if k != i { assert At(With(st, k, next), i) == At(st, i); }
    }
  }

  lemma RunBlockCons(parse: Parser, st: BlockState, p: Obj, ps: seq<Obj>)
    ensures RunBlock(parse, st, [p] + ps) == RunBlock(parse, StepBlock(parse, st, p), ps)
  {
    assert ([p] + ps)[1..] == ps;
  }

  /** The block at an index depends only on the events that name the index. */
  lemma {:induction false} BlockProjection(parse: Parser, st: State, rows: seq<Row>, i: int)
    ensures At(Run(parse, st, rows), i) == RunBlock(parse, At(st, i), BlockEvents(parse, rows, i))
    decreases |rows|
  {
    if rows != [] {
      var p := ParseEventData(parse, rows[0]);
      var more := BlockEvents(parse, rows[1..], i);
      BlockProjection(parse, StepRow(parse, st, rows[0]), rows[1..], i);
      if p.Some? {
        StepAt(parse, st, p.value, i);
        if IsBlockEventAt(p.value, i) { RunBlockCons(parse, At(st, i), p.value, more); }
      }
      assert [] + more == more;
    }
  }

  lemma RunPayloadsCons(parse: Parser, st: State, p: Obj, ps: seq<Obj>)
    ensures RunPayloads(parse, st, [p] + ps) == RunPayloads(parse, Step(parse, st, p), ps)
  {
    assert ([p] + ps)[1..] == ps;
  }

  /** States that agree on the message and on whether it stopped. */
  predicate SameMessage(a: State, b: State) {
    a.message == b.message && a.stopped == b.stopped
  }

  lemma StepMessage(parse: Parser, st: State, other: State, p: Obj)
    requires SameMessage(st, other)
    ensures SameMessage(Step(parse, st, p), if IsMessageEvent(p) then Step(parse, other, p) else other)
  {
  }

  /** The message depends only on the message events. */
  lemma {:induction false} MessageProjection(parse: Parser, st: State, other: State, rows: seq<Row>)
    requires SameMessage(st, other)
    ensures SameMessage(Run(parse, st, rows), RunPayloads(parse, other, MessageEvents(parse, rows)))
    decreases |rows|
  {
    if rows != [] {
      var p := ParseEventData(parse, rows[0]);
      var more := MessageEvents(parse, rows[1..]);
      assert [] + more == more;
      if p.Some? {
        StepMessage(parse, st, other, p.value);
        RunPayloadsCons(parse, other, p.value, more);
      }
      var next := if p.Some? && IsMessageEvent(p.value) then Step(parse, other, p.value) else other;
      MessageProjection(parse, StepRow(parse, st, rows[0]), next, rows[1..]);
    }
  }

  // ---------- streaming one block ----------

  /** A delta that carries nothing is ignored exactly when its block is there; without one it makes an empty block. */
  lemma OtherDeltaIff(parse: Parser, st: State, p: Obj, i: int)
    requires Carries(p, OtherPiece) && ReadNumber(p, "index") == Some(i)
    ensures Step(parse, st, p) == st <==> i in st.blocks
    ensures i !in st.blocks ==>
              Step(parse, st, p) == st.(blocks := st.blocks[i := map["type" := JStr("text"), "text" := JStr("")]])
  {
    var delta := ReadObject(p, "delta").value;
    var b := At(st, i);
    assert Scaffold(delta) == map["type" := JStr("text"), "text" := JStr("")];
    assert i in st.partial ==> st.partial[i := st.partial[i]] == st.partial;
    assert i !in st.partial ==> st.partial - {i} == st.partial;
    assert i in st.blocks ==> st.blocks[i := st.blocks[i]] == st.blocks;
  }

  /** What a delta event carries; any other delta type carries nothing. */
  datatype Piece =
    | TextPiece(s: string)
    | ThinkingPiece(s: string)
    | JsonPiece(s: string)
    | SignaturePiece(s: string)
    | OtherPiece

  predicate Carries(p: Obj, piece: Piece) {
    && TypeOf(p) == "content_block_delta" && ReadObject(p, "delta").Some?
    && var delta := ReadObject(p, "delta").value;
       var t := ReadString(delta, "type");
       match piece
       case TextPiece(s) => t == Some("text_delta") && ReadString(delta, "text") == Some(s)
       case ThinkingPiece(s) => t == Some("thinking_delta") && ReadString(delta, "thinking") == Some(s)
       case JsonPiece(s) => t == Some("input_json_delta") && ReadString(delta, "partial_json") == Some(s)
       case SignaturePiece(s) => t == Some("signature_delta") && ReadString(delta, "signature") == Some(s)
       case OtherPiece =>
         t != Some("text_delta") && t != Some("thinking_delta") && t != Some("input_json_delta") &&
           t != Some("signature_delta")
  }

  predicate CarryAll(ps: seq<Obj>, pieces: seq<Piece>) {
    |ps| == |pieces| && forall k :: 0 <= k < |ps| ==> Carries(ps[k], pieces[k])
  }

  function Texts(pieces: seq<Piece>): string {
    if pieces == [] then "" else (if pieces[0].TextPiece? then pieces[0].s else "") + Texts(pieces[1..])
  }

  function Thinkings(pieces: seq<Piece>): string {
    if pieces == [] then "" else (if pieces[0].ThinkingPiece? then pieces[0].s else "") + Thinkings(pieces[1..])
  }

  function Jsons(pieces: seq<Piece>): string {
    if pieces == [] then "" else (if pieces[0].JsonPiece? then pieces[0].s else "") + Jsons(pieces[1..])
  }

  /** The signature in force after the pieces: the last one seen. */
  function Signature(before: Option<string>, pieces: seq<Piece>): Option<string>
    decreases |pieces|
  {
    if pieces == [] then before
    else Signature(if pieces[0].SignaturePiece? then Some(pieces[0].s) else before, pieces[1..])
  }

  /** `b` is sent as its opening form `b0` followed by these pieces. */
  predicate SplitOf(parse: Parser, b0: Obj, pieces: seq<Piece>, b: Obj) {
    || TextSplit(b0, pieces, b)
    || ThinkingSplit(b0, pieces, b)
    || ToolSplit(parse, b0, pieces, b)
    || (b0 == b && !IsTool(ReadString(b, "type")) && forall k :: 0 <= k < |pieces| ==> pieces[k].OtherPiece?)
  }

  /** Text: opened empty or with some of it, the rest sent in any pieces. */
  predicate TextSplit(b0: Obj, pieces: seq<Piece>, b: Obj) {
    && ReadString(b, "type") == Some("text") && ReadString(b, "text").Some?
    && ReadString(b0, "text").Some? && b0["text" := b["text"]] == b
    && (forall k :: 0 <= k < |pieces| ==> pieces[k].TextPiece? || pieces[k].OtherPiece?)
    && ReadString(b0, "text").value + Texts(pieces) == ReadString(b, "text").value
  }

  /** Thinking: opened likewise, with a provisional signature or none, then text pieces and signatures, the last of
      which counts. */
  predicate ThinkingSplit(b0: Obj, pieces: seq<Piece>, b: Obj) {
    && ReadString(b, "type") == Some("thinking") && ReadString(b, "thinking").Some?
    && ("signature" in b ==> ReadString(b, "signature").Some?)
    && ReadString(b0, "thinking").Some? && ("signature" in b0 ==> ReadString(b0, "signature").Some?)
    && b0 - {"thinking", "signature"} == b - {"thinking", "signature"}
    && (forall k :: 0 <= k < |pieces| ==>
      pieces[k].ThinkingPiece? || pieces[k].SignaturePiece? || pieces[k].OtherPiece?)
    && ReadString(b0, "thinking").value + Thinkings(pieces) == ReadString(b, "thinking").value
    && Signature(ReadString(b0, "signature"), pieces) == ReadString(b, "signature")
  }

  /** Tool use: opened with a provisional input, and the JSON text of the input sent in any pieces, or nothing to
      replace it; a text that does not parse is itself the input. */
  predicate ToolSplit(parse: Parser, b0: Obj, pieces: seq<Piece>, b: Obj) {
    && IsTool(ReadString(b, "type")) && "input" in b && "input" in b0 && b0["input" := b["input"]] == b
    && (forall k :: 0 <= k < |pieces| ==> pieces[k].JsonPiece? || pieces[k].OtherPiece?)
    && b["input"] == SentInput(parse, b0["input"], Jsons(pieces))
  }

  function SentInput(parse: Parser, before: Json, text: string): Json {
    if text == "" then before else if parse(text).Some? then parse(text).value else JStr(text)
  }

  /** The events of one index stream the block: start, deltas, and possibly a stop; or the start is missing. */
  ghost predicate Streams(parse: Parser, ps: seq<Obj>, b: Obj) {
    || (exists start, deltas, stops, b0, pieces :: StreamsAs(parse, ps, b, start, deltas, stops, b0, pieces))
    || (exists deltas, stops, pieces :: StreamsBare(parse, ps, b, deltas, stops, pieces))
  }

  ghost predicate StreamsBare(parse: Parser, ps: seq<Obj>, b: Obj, deltas: seq<Obj>, stops: seq<Obj>,
      pieces: seq<Piece>) {
    && ps == deltas + stops && deltas != []
    && CarryAll(deltas, pieces) && SplitOf(parse, Supposed(pieces[0]), pieces, b)
    && (forall k :: 0 <= k < |stops| ==> TypeOf(stops[k]) == "content_block_stop")
  }

  /** The block that a first delta without a start stands for. */
  function Supposed(first: Piece): Obj {
    match first
    case JsonPiece(_) => map["type" := JStr("tool_use"), "input" := JObj(map[])]
    case ThinkingPiece(_) => map["type" := JStr("thinking"), "thinking" := JStr("")]
    case SignaturePiece(_) => map["type" := JStr("thinking"), "thinking" := JStr("")]
    case _ => map["type" := JStr("text"), "text" := JStr("")]
  }

  ghost predicate StreamsAs(parse: Parser, ps: seq<Obj>, b: Obj, start: Obj, deltas: seq<Obj>, stops: seq<Obj>, b0: Obj,
      pieces: seq<Piece>) {
    && ps == [start] + deltas + stops
    && TypeOf(start) == "content_block_start" && ReadObject(start, "content_block") == Some(b0)
    && CarryAll(deltas, pieces) && SplitOf(parse, b0, pieces, b)
    && (forall k :: 0 <= k < |stops| ==> TypeOf(stops[k]) == "content_block_stop")
  }

  lemma SameString(x: Obj, key: string)
    requires ReadString(x, key).Some?
    ensures x[key := JStr(ReadString(x, key).value + "")] == x
  {
    assert ReadString(x, key).value + "" == ReadString(x, key).value;
    assert x[key] == JStr(ReadString(x, key).value);
  }

  lemma SetTwice(x: Obj, key: string, v: Json, w: Json)
    ensures x[key := v][key := w] == x[key := w]
  {
  }

  lemma {:induction false} RunText(parse: Parser, st: BlockState, ps: seq<Obj>, pieces: seq<Piece>)
    requires CarryAll(ps, pieces) && st.block.Some? && ReadString(st.block.value, "text").Some?
    requires forall k :: 0 <= k < |pieces| ==> pieces[k].TextPiece? || pieces[k].OtherPiece?
    ensures RunBlock(parse, st, ps) ==
            st.(block := Some(st.block.value["text" := JStr(ReadString(st.block.value, "text").value + Texts(pieces))]))
    decreases |ps|
  {
    var x := st.block.value;
    if ps == [] {
      SameString(x, "text");
    } else {
      assert Carries(ps[0], pieces[0]);
      var next := StepBlock(parse, st, ps[0]);
      assert CarryAll(ps[1..], pieces[1..]);
      RunText(parse, next, ps[1..], pieces[1..]);
      if pieces[0].TextPiece? {
        var s := ReadString(x, "text").value;
        Assoc(s, pieces[0].s, Texts(pieces[1..]));
        SetTwice(x, "text", JStr(s + pieces[0].s), JStr(s + Texts(pieces)));
      } else {
        assert "" + Texts(pieces[1..]) == Texts(pieces[1..]);
      }
    }
  }

  /** A thinking block with its signature, if it has one. */
  function Signed(x: Obj, thinking: string, signature: Option<string>): Obj {
    var y := x["thinking" := JStr(thinking)];
    if signature.Some? then y["signature" := JStr(signature.value)] else y
  }

  lemma {:induction false} RunThinking(parse: Parser, st: BlockState, ps: seq<Obj>, pieces: seq<Piece>)
    requires CarryAll(ps, pieces) && st.block.Some? && ReadString(st.block.value, "thinking").Some?
    requires "signature" in st.block.value ==> ReadString(st.block.value, "signature").Some?
    requires forall k :: 0 <= k < |pieces| ==>
      pieces[k].ThinkingPiece? || pieces[k].SignaturePiece? || pieces[k].OtherPiece?
    ensures var x := st.block.value;
            RunBlock(parse, st, ps) ==
            st.(block := Some(Signed(x, ReadString(x, "thinking").value + Thinkings(pieces),
              Signature(ReadString(x, "signature"), pieces))))
    decreases |ps|
  {
    var x := st.block.value;
    if ps == [] {
      SameString(x, "thinking");
      assert "signature" in x ==> x["signature" := x["signature"]] == x;
    } else {
      assert Carries(ps[0], pieces[0]);
      var next := StepBlock(parse, st, ps[0]);
      assert CarryAll(ps[1..], pieces[1..]);
      RunThinking(parse, next, ps[1..], pieces[1..]);
      SignedAgain(x, next.block.value, pieces);
    }
  }

  lemma {:induction false} SignatureStays(before: Option<string>, pieces: seq<Piece>)
    ensures before.Some? ==> Signature(before, pieces).Some?
    decreases |pieces|
  {
    if pieces != [] {
      SignatureStays(if pieces[0].SignaturePiece? then Some(pieces[0].s) else before, pieces[1..]);
    }
  }

  lemma SignedAgain(x: Obj, y: Obj, pieces: seq<Piece>)
    requires pieces != [] && ReadString(x, "thinking").Some? && ("signature" in x ==> ReadString(x, "signature").Some?)
    requires y == match pieces[0]
                  case ThinkingPiece(s) => x["thinking" := JStr(ReadString(x, "thinking").value + s)]
                  case SignaturePiece(s) => x["signature" := JStr(s)]
                  case _ => x
    ensures Signed(x, ReadString(x, "thinking").value + Thinkings(pieces),
      Signature(ReadString(x, "signature"), pieces)) ==
            Signed(y, ReadString(y, "thinking").value + Thinkings(pieces[1..]),
              Signature(ReadString(y, "signature"), pieces[1..]))
  {
    var more := Thinkings(pieces[1..]);
    SignatureStays(ReadString(y, "signature"), pieces[1..]);
    if pieces[0].ThinkingPiece? {
      Assoc(ReadString(x, "thinking").value, pieces[0].s, more);
    } else {
      assert "" + more == more;
    }
  }

  lemma {:induction false} RunTool(parse: Parser, st: BlockState, ps: seq<Obj>, pieces: seq<Piece>)
    requires CarryAll(ps, pieces) && st.block.Some? && st.partial.Some?
    requires forall k :: 0 <= k < |pieces| ==> pieces[k].JsonPiece? || pieces[k].OtherPiece?
    ensures RunBlock(parse, st, ps) == st.(partial := Some(st.partial.value + Jsons(pieces)))
    decreases |ps|
  {
    if ps == [] {
      assert st.partial.value + "" == st.partial.value;
    } else {
      assert Carries(ps[0], pieces[0]);
      assert CarryAll(ps[1..], pieces[1..]);
      RunTool(parse, StepBlock(parse, st, ps[0]), ps[1..], pieces[1..]);
      if pieces[0].JsonPiece? {
        Assoc(st.partial.value, pieces[0].s, Jsons(pieces[1..]));
      } else {
        assert "" + Jsons(pieces[1..]) == Jsons(pieces[1..]);
      }
    }
  }

  lemma {:induction false} RunOther(parse: Parser, st: BlockState, ps: seq<Obj>, pieces: seq<Piece>)
    requires CarryAll(ps, pieces) && st.block.Some?
    requires forall k :: 0 <= k < |pieces| ==> pieces[k].OtherPiece?
    ensures RunBlock(parse, st, ps) == st
    decreases |ps|
  {
    if ps != [] {
      assert Carries(ps[0], pieces[0]) && pieces[0].OtherPiece?;
      assert CarryAll(ps[1..], pieces[1..]);
      RunOther(parse, StepBlock(parse, st, ps[0]), ps[1..], pieces[1..]);
    }
  }

  lemma {:induction false} RunStops(parse: Parser, st: BlockState, stops: seq<Obj>)
    requires st.block.Some? && forall k :: 0 <= k < |stops| ==> TypeOf(stops[k]) == "content_block_stop"
    ensures var after := RunBlock(parse, st, stops);
            after.block.Some? && Finalize(parse, after) == Finalize(parse, st)
    decreases |stops|
  {
    if stops != [] {
      assert TypeOf(stops[0]) == "content_block_stop";
      RunStops(parse, Finalize(parse, st), stops[1..]);
    }
  }

  lemma {:induction false} RunBlockAppend(parse: Parser, st: BlockState, a: seq<Obj>, b: seq<Obj>)
    ensures RunBlock(parse, st, a + b) == RunBlock(parse, RunBlock(parse, st, a), b)
    decreases |a|
  {
    if a == [] {
      assert a + b == b;
    } else {
      assert (a + b)[1..] == a[1..] + b;
      RunBlockAppend(parse, StepBlock(parse, st, a[0]), a[1..], b);
    }
  }

  function Opened(b0: Obj): BlockState {
    BlockState(Some(b0), if IsTool(ReadString(b0, "type")) then Some("") else None)
  }

  lemma ToolCloses(parse: Parser, st: BlockState, pieces: seq<Piece>, b: Obj)
    requires st.block.Some? && ToolSplit(parse, st.block.value, pieces, b) && st.partial == Some(Jsons(pieces))
    ensures Finalize(parse, st).block == Some(b)
  {
    var b0 := st.block.value;
    if Jsons(pieces) == "" { assert b0["input" := b0["input"]] == b0; }
  }

  lemma ThinkingCloses(b0: Obj, pieces: seq<Piece>, b: Obj)
    requires ThinkingSplit(b0, pieces, b)
    ensures Signed(b0, ReadString(b0, "thinking").value + Thinkings(pieces),
      Signature(ReadString(b0, "signature"), pieces)) == b
    ensures ReadString(b0, "type") == Some("thinking")
  {
    SignatureStays(ReadString(b0, "signature"), pieces);
    var r := Signed(b0, ReadString(b0, "thinking").value + Thinkings(pieces),
      Signature(ReadString(b0, "signature"), pieces));
    assert r - {"thinking", "signature"} == b0 - {"thinking", "signature"};
    forall k ensures k in r <==> k in b { AgreesOutside(r, b, k); }
    forall k | k in r ensures r[k] == b[k] { AgreesOutside(r, b, k); }
    AgreesOutside(b0, b, "type");
  }

  lemma AgreesOutside(x: Obj, y: Obj, k: string)
    requires x - {"thinking", "signature"} == y - {"thinking", "signature"}
    ensures k != "thinking" && k != "signature" ==> (k in x <==> k in y) && (k in x ==> x[k] == y[k])
  {
    var u, v := x - {"thinking", "signature"}, y - {"thinking", "signature"};
    if k != "thinking" && k != "signature" {
      assert (k in u <==> k in x) && (k in v <==> k in y);
      if k in u { assert u[k] == x[k] && v[k] == y[k]; }
    }
  }

  /** After the pieces, closing the block leaves the original. */
  lemma PiecesRebuild(parse: Parser, b0: Obj, deltas: seq<Obj>, pieces: seq<Piece>, b: Obj)
    requires CarryAll(deltas, pieces) && SplitOf(parse, b0, pieces, b)
    ensures var after := RunBlock(parse, Opened(b0), deltas);
            after.block.Some? && Finalize(parse, after).block == Some(b)
  {
    var st := Opened(b0);
    if TextSplit(b0, pieces, b) {
      RunText(parse, st, deltas, pieces);
      assert b["text"] == JStr(ReadString(b, "text").value);
      assert b0["type"] == b["type"];
    } else if ThinkingSplit(b0, pieces, b) {
      RunThinking(parse, st, deltas, pieces);
      ThinkingCloses(b0, pieces, b);
    } else if ToolSplit(parse, b0, pieces, b) {
      assert b0["type"] == b["type"];
      RunTool(parse, st, deltas, pieces);
      assert "" + Jsons(pieces) == Jsons(pieces);
      ToolCloses(parse, BlockState(Some(b0), Some(Jsons(pieces))), pieces, b);
    } else {
      RunOther(parse, st, deltas, pieces);
    }
  }

  lemma StreamedBlock(parse: Parser, ps: seq<Obj>, b: Obj)
    requires Streams(parse, ps, b)
    ensures var after := RunBlock(parse, NO_BLOCK, ps);
            after.block.Some? && Finalize(parse, after).block == Some(b)
  {
    if start, deltas, stops, b0, pieces :| StreamsAs(parse, ps, b, start, deltas, stops, b0, pieces) {
      PiecesRebuild(parse, b0, deltas, pieces, b);
      RunParts(parse, start, deltas, stops, b0);
      RunStops(parse, RunBlock(parse, Opened(b0), deltas), stops);
    } else if deltas, stops, pieces :| StreamsBare(parse, ps, b, deltas, stops, pieces) {
      var b0 := Supposed(pieces[0]);
      PiecesRebuild(parse, b0, deltas, pieces, b);
      FirstDelta(parse, deltas[0], pieces[0]);
      RunBlockAppend(parse, NO_BLOCK, deltas, stops);
      RunStops(parse, RunBlock(parse, Opened(b0), deltas), stops);
    }
  }

  /** A delta without a start acts as it would on the block it stands for. */
  lemma FirstDelta(parse: Parser, p: Obj, piece: Piece)
    requires Carries(p, piece)
    ensures StepBlock(parse, NO_BLOCK, p) == StepBlock(parse, Opened(Supposed(piece)), p)
  {
    assert Scaffold(ReadObject(p, "delta").value) == Supposed(piece);
    assert "" + (if piece.JsonPiece? then piece.s else "") == (if piece.JsonPiece? then piece.s else "");
  }

  lemma RunParts(parse: Parser, start: Obj, deltas: seq<Obj>, stops: seq<Obj>, b0: Obj)
    requires TypeOf(start) == "content_block_start" && ReadObject(start, "content_block") == Some(b0)
    ensures RunBlock(parse, NO_BLOCK, [start] + deltas + stops) ==
      RunBlock(parse, RunBlock(parse, Opened(b0), deltas), stops)
  {
    assert [start] + deltas + stops == [start] + (deltas + stops);
    RunBlockCons(parse, NO_BLOCK, start, deltas + stops);
    RunBlockAppend(parse, Opened(b0), deltas, stops);
  }

  // ---------- the whole message ----------

  function FoldDeltas(msg: Message, deltas: seq<Obj>): Message
    decreases |deltas|
  {
    if deltas == [] then msg else FoldDeltas(ApplyMessageDelta(msg, deltas[0]), deltas[1..])
  }

  /** The message events: one start, deltas, one stop. */
  predicate Frames(ps: seq<Obj>, seed: Obj, deltas: seq<Obj>) {
    && |ps| == |deltas| + 2
    && TypeOf(ps[0]) == "message_start" && ReadObject(ps[0], "message") == Some(seed)
    && ps[1..|ps| - 1] == deltas && (forall k :: 0 <= k < |deltas| ==> TypeOf(deltas[k]) == "message_delta")
    && TypeOf(ps[|ps| - 1]) == "message_stop"
  }

  lemma {:induction false} RunDeltas(parse: Parser, st: State, deltas: seq<Obj>, stop: Obj)
    requires st.message.Some? && TypeOf(stop) == "message_stop"
    requires forall k :: 0 <= k < |deltas| ==> TypeOf(deltas[k]) == "message_delta"
    ensures var after := RunPayloads(parse, st, deltas + [stop]);
            after.message == Some(FoldDeltas(st.message.value, deltas)) && after.stopped
    decreases |deltas|
  {
    if deltas == [] {
      RunPayloadsCons(parse, st, stop, []);
      assert deltas + [stop] == [stop] + [];
    } else {
      assert deltas + [stop] == [deltas[0]] + (deltas[1..] + [stop]);
      RunPayloadsCons(parse, st, deltas[0], deltas[1..] + [stop]);
      RunDeltas(parse, Step(parse, st, deltas[0]), deltas[1..], stop);
    }
  }

  /** Every index holds its streamed block, and no other index has events. */
  ghost predicate StreamsContent(parse: Parser, rows: seq<Row>, order: seq<int>, content: seq<Obj>) {
    && Increasing(order) && |order| == |content|
    && (forall k :: 0 <= k < |order| ==> Streams(parse, BlockEvents(parse, rows, order[k]), content[k]))
    && (forall i :: i !in order ==> BlockEvents(parse, rows, i) == [])
  }

  lemma StreamedContent(parse: Parser, rows: seq<Row>, order: seq<int>, content: seq<Obj>)
    requires StreamsContent(parse, rows, order, content)
    ensures var st := Run(parse, START, rows);
            && Enumerates(order, st.blocks.Keys)
            && (forall k :: 0 <= k < |order| ==> order[k] in st.blocks && Closed(parse, st)[order[k]] == content[k])
  {
    var st := Run(parse, START, rows);
    forall k | 0 <= k < |order| ensures order[k] in st.blocks && Closed(parse, st)[order[k]] == content[k] {
      BlockProjection(parse, START, rows, order[k]);
      StreamedBlock(parse, BlockEvents(parse, rows, order[k]), content[k]);
    }
    forall i | i in st.blocks.Keys ensures i in order {
      BlockProjection(parse, START, rows, i);
    }
  }

  /** Reconstruction inverts streaming: block events interleaved in any way between the message events, with any
      rows of other types anywhere, give the message back with its content in index order. */
  lemma StreamingInverted(parse: Parser, rows: seq<Row>, order: seq<int>, content: seq<Obj>, seed: Obj,
      deltas: seq<Obj>)
    requires StreamsContent(parse, rows, order, content)
    requires Frames(MessageEvents(parse, rows), seed, deltas)
    ensures var st := Run(parse, START, rows);
            && Enumerates(order, st.blocks.Keys)
            && Finished(parse, st, order) == Some(FoldDeltas(SeedMessage(seed), deltas).(content := content))
  {
    var st := Run(parse, START, rows);
    StreamedContent(parse, rows, order, content);
    var ps := MessageEvents(parse, rows);
    MessageProjection(parse, START, START, rows);
    var n := |ps| - 1;
    assert ps == [ps[0]] + (ps[1..n] + [ps[n]]);
    RunPayloadsCons(parse, START, ps[0], ps[1..n] + [ps[n]]);
    RunDeltas(parse, Step(parse, START, ps[0]), deltas, ps[n]);
    assert seq(|order|, a requires 0 <= a < |order| => Closed(parse, st)[order[a]]) == content;
  }

  /** Rows that are no block event and no message event change nothing, wherever they arrive. */
  lemma {:induction false} StrangersIgnored(parse: Parser, st: State, a: seq<Row>, strange: seq<Row>, b: seq<Row>)
    requires forall k :: 0 <= k < |strange| ==>
               ParseEventData(parse, strange[k]).None? ||
               (!IsBlockEvent(ParseEventData(parse, strange[k]).value) &&
                 !IsMessageEvent(ParseEventData(parse, strange[k]).value))
    ensures Run(parse, st, a + strange + b) == Run(parse, st, a + b)
    decreases |a| + |strange|
  {
    if a != [] {
      assert (a + strange + b)[1..] == a[1..] + strange + b && (a + b)[1..] == a[1..] + b;
      StrangersIgnored(parse, StepRow(parse, st, a[0]), a[1..], strange, b);
    } else if strange != [] {
      assert (a + strange + b)[1..] == a + strange[1..] + b;
      StrangersIgnored(parse, st, a, strange[1..], b);
    } else {
      assert a + strange + b == a + b;
    }
  }

  // ---------- what the folded message says ----------

  /** The last value present, or the first one when no later value is. */
  function LastSome<T>(first: Option<T>, later: seq<Option<T>>): Option<T> {
    if later == [] then first
    else if later[|later| - 1].Some? then later[|later| - 1]
    else LastSome(first, later[..|later| - 1])
  }

  /** `u0 + u1 + .. + un` over the usages present. */
  function Merged(first: Option<Obj>, later: seq<Option<Obj>>): Option<Obj> {
    if later == [] then first
    else
      var before, u := Merged(first, later[..|later| - 1]), later[|later| - 1];
      if u.None? then before else Some((if before.Some? then before.value else map[]) + u.value)
  }

  /** What the deltas say under a key: strings only, so a null says nothing. */
  function Endings(deltas: seq<Obj>, key: string): seq<Option<string>> {
    seq(|deltas|, k requires 0 <= k < |deltas| => Ending(deltas[k], key))
  }

  function Ending(d: Obj, key: string): Option<string> {
    if ReadObject(d, "delta").Some? then ReadString(ReadObject(d, "delta").value, key) else None
  }

  lemma EndingsSnoc(deltas: seq<Obj>, d: Obj, key: string)
    ensures Endings(deltas + [d], key) == Endings(deltas, key) + [Ending(d, key)]
  {
  }

  lemma UsagesSnoc(deltas: seq<Obj>, d: Obj)
    ensures Usages(deltas + [d]) == Usages(deltas) + [ReadObject(d, "usage")]
  {
  }

  lemma LastSomeSnoc<T>(first: Option<T>, later: seq<Option<T>>, last: Option<T>)
    ensures LastSome(first, later + [last]) == if last.Some? then last else LastSome(first, later)
  {
    assert (later + [last])[..|later|] == later;
  }

  function Usages(deltas: seq<Obj>): seq<Option<Obj>> {
    seq(|deltas|, k requires 0 <= k < |deltas| => ReadObject(deltas[k], "usage"))
  }

  lemma {:induction false} FoldSnoc(msg: Message, deltas: seq<Obj>, d: Obj)
    ensures FoldDeltas(msg, deltas + [d]) == ApplyMessageDelta(FoldDeltas(msg, deltas), d)
    decreases |deltas|
  {
    if deltas == [] {
      assert deltas + [d] == [d] && [d][1..] == [];
    } else {
      assert (deltas + [d])[1..] == deltas[1..] + [d];
      FoldSnoc(ApplyMessageDelta(msg, deltas[0]), deltas[1..], d);
    }
  }

  /** After any deltas: id and model are those announced, the last reason and sequence win, and the usages are
      merged. */
  lemma {:induction false} FoldedMessage(msg: Message, deltas: seq<Obj>)
    ensures FoldDeltas(msg, deltas) ==
            msg.(stopReason := LastSome(msg.stopReason, Endings(deltas, "stop_reason")),
                 stopSequence := LastSome(msg.stopSequence, Endings(deltas, "stop_sequence")),
                 usage := Merged(msg.usage, Usages(deltas)))
    decreases |deltas|
  {
    if deltas != [] {
      var n := |deltas| - 1;
      var front, d := deltas[..n], deltas[n];
      assert deltas == front + [d];
      FoldedMessage(msg, front);
      FoldSnoc(msg, front, d);
      EndingsSnoc(front, d, "stop_reason");
      EndingsSnoc(front, d, "stop_sequence");
      UsagesSnoc(front, d);
      LastSomeSnoc(msg.stopReason, Endings(front, "stop_reason"), Ending(d, "stop_reason"));
      LastSomeSnoc(msg.stopSequence, Endings(front, "stop_sequence"), Ending(d, "stop_sequence"));
      assert Usages(deltas)[..n] == Usages(front);
    }
  }

  function Field(u: Option<Obj>, key: string): Option<Json> {
    if u.Some? && key in u.value then Some(u.value[key]) else None
  }

  function Fields(us: seq<Option<Obj>>, key: string): seq<Option<Json>> {
    seq(|us|, k requires 0 <= k < |us| => Field(us[k], key))
  }

  /** Under every key the merged usage holds what the last usage with that key says. */
  lemma {:induction false} MergedField(first: Option<Obj>, later: seq<Option<Obj>>, key: string)
    ensures Field(Merged(first, later), key) == LastSome(Field(first, key), Fields(later, key))
  {
    if later != [] {
      var n := |later| - 1;
      MergedField(first, later[..n], key);
      assert Fields(later, key)[..n] == Fields(later[..n], key);
    }
  }

  function OptField(key: string, v: Option<string>): Obj {
    if v.None? then map[] else map[key := JStr(v.value)]
  }

  function OptObject(key: string, v: Option<Obj>): Obj {
    if v.None? then map[] else map[key := JObj(v.value)]
  }

  /** How a server announces a message: its ending is not known yet, its usage only so far. */
  function Announced(m: Message, usage: Option<Obj>): Obj {
    OptField("id", m.id) + OptField("model", m.model) + OptObject("usage", usage)
  }

  /** The closing delta: why the message ended, and the usage since. */
  function Closing(m: Message, usage: Option<Obj>): Obj {
    map["type" := JStr("message_delta"),
        "delta" := JObj(OptField("stop_reason", m.stopReason) + OptField("stop_sequence", m.stopSequence))]
    + OptObject("usage", usage)
  }

  lemma AnnouncedReads(m: Message, usage: Option<Obj>)
    ensures SeedMessage(Announced(m, usage)) == Message(m.id, m.model, None, None, usage, [])
  {
  }

  lemma ClosingReads(m: Message, usage: Option<Obj>)
    ensures Endings([Closing(m, usage)], "stop_reason") == [m.stopReason]
    ensures Endings([Closing(m, usage)], "stop_sequence") == [m.stopSequence]
    ensures Usages([Closing(m, usage)]) == [usage]
  {
  }

  /** A message announced without its ending and with part of its usage, and closed by one delta, is whole again. */
  lemma MetadataComesBack(m: Message, start: Option<Obj>, end: Option<Obj>)
    requires m.usage == Merged(start, [end])
    ensures FoldDeltas(SeedMessage(Announced(m, start)), [Closing(m, end)]) == m.(content := [])
  {
    AnnouncedReads(m, start);
    ClosingReads(m, end);
    FoldedMessage(SeedMessage(Announced(m, start)), [Closing(m, end)]);
  }

  /** The whole message of a stream: content in index order, the last reason and sequence, the usages merged. */
  lemma StreamedMessage(parse: Parser, rows: seq<Row>, order: seq<int>, content: seq<Obj>, seed: Obj, deltas: seq<Obj>)
    requires StreamsContent(parse, rows, order, content)
    requires Frames(MessageEvents(parse, rows), seed, deltas)
    ensures var st := Run(parse, START, rows);
            && Enumerates(order, st.blocks.Keys)
            && Finished(parse, st, order) ==
               Some(Message(ReadString(seed, "id"), ReadString(seed, "model"),
                            LastSome(ReadString(seed, "stop_reason"), Endings(deltas, "stop_reason")),
                            LastSome(ReadString(seed, "stop_sequence"), Endings(deltas, "stop_sequence")),
                            Merged(ReadObject(seed, "usage"), Usages(deltas)), content))
  {
    StreamingInverted(parse, rows, order, content, seed, deltas);
    FoldedMessage(SeedMessage(seed), deltas);
  }

  lemma {:induction false} RunDeltasOnly(parse: Parser, st: State, deltas: seq<Obj>)
    requires st.message.Some? && forall k :: 0 <= k < |deltas| ==> TypeOf(deltas[k]) == "message_delta"
    ensures var after := RunPayloads(parse, st, deltas);
            after.message == Some(FoldDeltas(st.message.value, deltas)) && after.stopped == st.stopped
    decreases |deltas|
  {
    if deltas != [] { RunDeltasOnly(parse, Step(parse, st, deltas[0]), deltas[1..]); }
  }

  /** A stream cut off before its end: the same message, marked as an error when no reason was seen. */
  lemma TruncatedMessage(parse: Parser, rows: seq<Row>, order: seq<int>, content: seq<Obj>, start: Obj, seed: Obj,
      deltas: seq<Obj>)
    requires StreamsContent(parse, rows, order, content)
    requires MessageEvents(parse, rows) == [start] + deltas && TypeOf(start) == "message_start" &&
      ReadObject(start, "message") == Some(seed)
    requires forall k :: 0 <= k < |deltas| ==> TypeOf(deltas[k]) == "message_delta"
    ensures var st := Run(parse, START, rows);
            var reason := LastSome(ReadString(seed, "stop_reason"), Endings(deltas, "stop_reason"));
            && Enumerates(order, st.blocks.Keys)
            && Finished(parse, st, order) ==
               Some(Message(ReadString(seed, "id"), ReadString(seed, "model"),
                            if reason.Some? then reason else Some("error"),
                            LastSome(ReadString(seed, "stop_sequence"), Endings(deltas, "stop_sequence")),
                            Merged(ReadObject(seed, "usage"), Usages(deltas)), content))
  {
    var st := Run(parse, START, rows);
    StreamedContent(parse, rows, order, content);
    MessageProjection(parse, START, START, rows);
    RunPayloadsCons(parse, START, start, deltas);
    RunDeltasOnly(parse, Step(parse, START, start), deltas);
    FoldedMessage(SeedMessage(seed), deltas);
    assert seq(|order|, a requires 0 <= a < |order| => Closed(parse, st)[order[a]]) == content;
  }
}
