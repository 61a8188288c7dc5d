/**
 Rebuilding an assistant message from the events of its stream, after src/cli/stream-reconstruct.js.
 Parsing JSON text is a parameter; numbers are modelled as integers.
 */
module StreamReconstruct {
  import opened Wrappers

  datatype Json =
    | JNull
    | JBool(b: bool)
    | JNum(n: int)
    | JStr(s: string)
    | JArr(items: seq<Json>)
    | JObj(fields: Obj)

  type Obj = map<string, Json>

  type Parser = string -> Option<Json>

  /** The `data` of a stream row: absent, JSON text, or an already parsed value. */
  datatype Row = NoData | TextData(text: string) | ParsedData(value: Json)

  datatype Message = Message(
    id: Option<string>, model: Option<string>, stopReason: Option<string>, stopSequence: Option<string>,
    usage: Option<Obj>, content: seq<Obj>)

  function ReadString(o: Obj, key: string): Option<string> {
    if key in o && o[key].JStr? then Some(o[key].s) else None
  }

  function ReadNumber(o: Obj, key: string): Option<int> {
    if key in o && o[key].JNum? then Some(o[key].n) else None
  }

  function ReadObject(o: Obj, key: string): Option<Obj> {
    if key in o && o[key].JObj? then Some(o[key].fields) else None
  }

  function ParseEventData(parse: Parser, row: Row): Option<Obj> {
    match row
    case NoData => None
    case TextData(text) => if parse(text).Some? && parse(text).value.JObj? then Some(parse(text).value.fields) else None
    case ParsedData(value) => if value.JObj? then Some(value.fields) else None
  }

  /** The type of an event; the empty string counts as none. */
  function TypeOf(p: Obj): string {
    if ReadString(p, "type").Some? then ReadString(p, "type").value else ""
  }

  // ---------- one block ----------

  /** What is known of the block at one index: its fields so far and its unparsed tool input. */
  datatype BlockState = BlockState(block: Option<Obj>, partial: Option<string>)

  const NO_BLOCK := BlockState(None, None)

  predicate IsTool(t: Option<string>) {
    t == Some("tool_use") || t == Some("server_tool_use")
  }

  function Scaffold(delta: Obj): Obj {
    var t := ReadString(delta, "type");
    if t == Some("input_json_delta") then map["type" := JStr("tool_use"), "input" := JObj(map[])]
    else if t == Some("thinking_delta") || t == Some("signature_delta") then
      map["type" := JStr("thinking"), "thinking" := JStr("")]
    else map["type" := JStr("text"), "text" := JStr("")]
  }

  function StringOr(o: Obj, key: string): string {
    if ReadString(o, key).Some? then ReadString(o, key).value else ""
  }

  function ApplyDelta(st: BlockState, delta: Obj): BlockState {
    var block := if st.block.Some? then st.block.value else Scaffold(delta);
    var base := BlockState(Some(block), st.partial);
    var t := ReadString(delta, "type");
    if t == Some("text_delta") && ReadString(delta, "text").Some? then
      base.(block := Some(block["text" := JStr(StringOr(block, "text") + ReadString(delta, "text").value)]))
    else if t == Some("input_json_delta") && ReadString(delta, "partial_json").Some? then
      base.(partial := Some((if st.partial.Some? then st.partial.value else "") +
        ReadString(delta, "partial_json").value))
    else if t == Some("thinking_delta") && ReadString(delta, "thinking").Some? then
      base.(block := Some(block["thinking" := JStr(StringOr(block, "thinking") + ReadString(delta, "thinking").value)]))
    else if t == Some("signature_delta") && ReadString(delta, "signature").Some? then
      base.(block := Some(block["signature" := JStr(ReadString(delta, "signature").value)]))
    else base
  }

  /** Closing a block parses the tool input collected so far; text that does not parse is kept as a string. */
  function Finalize(parse: Parser, st: BlockState): BlockState {
    if st.block.None? || st.partial.None? then st
    else if st.partial.value == "" then st.(partial := None)
    else
      var input := if parse(st.partial.value).Some? then parse(st.partial.value).value else JStr(st.partial.value);
      BlockState(Some(st.block.value["input" := input]), None)
  }

  /** The effect of an event on the block it names. */
  function StepBlock(parse: Parser, st: BlockState, p: Obj): BlockState {
    var t := TypeOf(p);
    if t == "content_block_start" then
      var block := ReadObject(p, "content_block");
      if block.None? then st
      else BlockState(block, if IsTool(ReadString(block.value, "type")) then Some("") else st.partial)
    else if t == "content_block_delta" then
      var delta := ReadObject(p, "delta");
      if delta.None? then st else ApplyDelta(st, delta.value)
    else if t == "content_block_stop" then Finalize(parse, st)
    else st
  }

  // ---------- the whole stream ----------

  datatype State = State(message: Option<Message>, blocks: map<int, Obj>, partial: map<int, string>, stopped: bool)

  const START := State(None, map[], map[], false)

  function At(st: State, i: int): BlockState {
    BlockState(if i in st.blocks then Some(st.blocks[i]) else None, if i in st.partial
      then Some(st.partial[i]) else None)
  }

  function With(st: State, i: int, b: BlockState): State {
    st.(blocks := if b.block.Some? then st.blocks[i := b.block.value] else st.blocks - {i},
        partial := if b.partial.Some? then st.partial[i := b.partial.value] else st.partial - {i})
  }

  function SeedMessage(m: Obj): Message {
    Message(ReadString(m, "id"), ReadString(m, "model"), ReadString(m, "stop_reason"), ReadString(m, "stop_sequence"),
            ReadObject(m, "usage"), [])
  }

  function ApplyMessageDelta(msg: Message, p: Obj): Message {
    var delta := ReadObject(p, "delta");
    var reason := if delta.Some? then ReadString(delta.value, "stop_reason") else None;
    var sequence := if delta.Some? then ReadString(delta.value, "stop_sequence") else None;
    var usage := ReadObject(p, "usage");
    msg.(stopReason := if reason.Some? then reason else msg.stopReason,
         stopSequence := if sequence.Some? then sequence else msg.stopSequence,
         usage := if usage.Some? then Some((if msg.usage.Some? then msg.usage.value else map[]) + usage.value)
           else msg.usage)
  }

  predicate IsBlockEvent(p: Obj) {
    TypeOf(p) in {"content_block_start", "content_block_delta", "content_block_stop"} && ReadNumber(p, "index").Some?
  }

  function Step(parse: Parser, st: State, p: Obj): State {
    var t := TypeOf(p);
    if IsBlockEvent(p) then
      var i := ReadNumber(p, "index").value;
      With(st, i, StepBlock(parse, At(st, i), p))
    else if t == "message_start" then
      if ReadObject(p, "message").Some? then st.(message := Some(SeedMessage(ReadObject(p, "message").value))) else st
    else if t == "message_delta" then
      if st.message.Some? then st.(message := Some(ApplyMessageDelta(st.message.value, p))) else st
    else if t == "message_stop" then st.(stopped := true)
    else st
  }

  /** Rows without a payload change nothing. */
  function StepRow(parse: Parser, st: State, row: Row): State {
    var p := ParseEventData(parse, row);
    if p.None? then st else Step(parse, st, p.value)
  }

  function Run(parse: Parser, st: State, rows: seq<Row>): State
    decreases |rows|
  {
    if rows == [] then st else Run(parse, StepRow(parse, st, rows[0]), rows[1..])
  }

  /** All blocks closed. */
  function Closed(parse: Parser, st: State): map<int, Obj> {
    map i | i in st.blocks :: Finalize(parse, At(st, i)).block.value
  }

  predicate Increasing(order: seq<int>) {
    forall a, b :: 0 <= a < b < |order| ==> order[a] < order[b]
  }

  predicate Enumerates(order: seq<int>, keys: set<int>) {
    Increasing(order) && (forall a :: 0 <= a < |order| ==> order[a] in keys) && (forall k :: k in keys ==> k in order)
  }

  /** The message of a final state, its blocks in the given order of indices. */
  function Finished(parse: Parser, st: State, order: seq<int>): Option<Message>
    requires forall a :: 0 <= a < |order| ==> order[a] in st.blocks
  {
    if st.message.None? then None
    else
      var msg := st.message.value.(content := seq(|order|, a requires 0 <= a < |order| => Closed(parse, st)[order[a]]));
      Some(if !st.stopped && msg.stopReason.None? then msg.(stopReason := Some("error")) else msg)
  }

  /** The ascending order of a set of indices is unique. */
  lemma {:induction false} EnumerationUnique(a: seq<int>, b: seq<int>, keys: set<int>)
    requires Enumerates(a, keys) && Enumerates(b, keys)
    ensures a == b
    decreases |a|
  {
    if |a| > 0 || |b| > 0 {
      if |a| > 0 { SomeKey(a, b, keys); } else { SomeKey(b, a, keys); }
      LargestLast(a, b, keys);
      var last := a[|a| - 1];
      DropLargest(a, keys);
      DropLargest(b, keys);
      EnumerationUnique(a[..|a| - 1], b[..|b| - 1], keys - {last});
      assert a == a[..|a| - 1] + [last] && b == b[..|b| - 1] + [last];
    }
  }

  lemma SomeKey(a: seq<int>, b: seq<int>, keys: set<int>)
    requires Enumerates(a, keys) && Enumerates(b, keys) && |a| > 0
    ensures |b| > 0
  {
    var x := a[0];
    assert x in keys;
    assert x in b;
  }

  lemma LargestLast(a: seq<int>, b: seq<int>, keys: set<int>)
    requires Enumerates(a, keys) && Enumerates(b, keys) && |a| > 0 && |b| > 0
    ensures a[|a| - 1] == b[|b| - 1]
  {
    assert a[|a| - 1] in keys && b[|b| - 1] in keys;
    assert a[|a| - 1] in b && b[|b| - 1] in a;
  }

  lemma DropLargest(a: seq<int>, keys: set<int>)
    requires Enumerates(a, keys) && |a| > 0
    ensures Enumerates(a[..|a| - 1], keys - {a[|a| - 1]})
  {
    var front := a[..|a| - 1];
    forall k | k in keys - {a[|a| - 1]} ensures k in front {
      assert k in a;
      var x :| 0 <= x < |a| && a[x] == k;
      assert front[x] == k;
    }
  }

  // ---------- the imperative form ----------

  /** Keys in ascending order, by insertion. */
  method SortedKeys(keys: set<int>) returns (order: seq<int>)
    ensures Enumerates(order, keys)
  {
    order := [];
    var todo := keys;
    while exists k :: k in todo
      invariant todo <= keys && Enumerates(order, keys - todo)
      decreases |todo|
    {
      var k :| k in todo;
      var at := 0;
      while at < |order| && order[at] < k
        invariant 0 <= at <= |order|
        invariant forall a :: 0 <= a < at ==> order[a] < k
      {
        at := at + 1;
      }
      InsertKey(order, at, k, keys - todo);
      order := order[..at] + [k] + order[at..];
      assert keys - (todo - {k}) == keys - todo + {k};
      todo := todo - {k};
    }
  }

  lemma InsertKey(order: seq<int>, at: nat, k: int, keys: set<int>)
    requires Enumerates(order, keys) && k !in keys && at <= |order|
    requires (forall a :: 0 <= a < at ==> order[a] < k) && (at < |order| ==> k <= order[at])
    ensures Enumerates(order[..at] + [k] + order[at..], keys + {k})
  {
    var next := order[..at] + [k] + order[at..];
    InsertIncreasing(order, at, k, keys);
    assert next[at] == k;
    forall x | x in keys ensures x in next {
      assert x in order;
      var y :| 0 <= y < |order| && order[y] == x;
      assert next[if y < at then y else y + 1] == x;
    }
  }

  lemma InsertIncreasing(order: seq<int>, at: nat, k: int, keys: set<int>)
    requires Enumerates(order, keys) && k !in keys && at <= |order|
    requires (forall a :: 0 <= a < at ==> order[a] < k) && (at < |order| ==> k <= order[at])
    ensures Increasing(order[..at] + [k] + order[at..])
  {
    var next := order[..at] + [k] + order[at..];
    assert at < |order| ==> order[at] in keys;
    forall a, b | 0 <= a < b < |next| ensures next[a] < next[b] {
      assert at < b - 1 ==> order[at] < order[b - 1];
    }
  }

  /** Every open block is finalised, in whatever order the indices come. */
  method FinalizeAll(parse: Parser, blocks: map<int, Obj>, partial: map<int, string>) returns (closed: map<int, Obj>)
    ensures closed == Closed(parse, State(None, blocks, partial, false))
  {
    ghost var st := State(None, blocks, partial, false);
    closed := map[];
    var todo := blocks.Keys;
    while exists i :: i in todo
      invariant todo <= blocks.Keys && closed.Keys == blocks.Keys - todo
      invariant forall i :: i in closed ==> closed[i] == Finalize(parse, At(st, i)).block.value
      decreases |todo|
    {
      var i :| i in todo;
      var block := blocks[i];
      if i in partial && partial[i] != "" {
        block := block["input" := if parse(partial[i]).Some? then parse(partial[i]).value else JStr(partial[i])];
      }
      closed, todo := closed[i := block], todo - {i};
    }
  }

  method ReconstructAssistantMessage(parse: Parser, rows: seq<Row>) returns (result: Option<Message>)
    ensures forall order :: Enumerates(order, Run(parse, START, rows).blocks.Keys) ==>
                              result == Finished(parse, Run(parse, START, rows), order)
  {
    var message: Option<Message> := None;
    var blocks: map<int, Obj>, partial: map<int, string> := map[], map[];
    var stopped := false;
    for n := 0 to |rows|
      invariant Run(parse, State(message, blocks, partial, stopped), rows[n..]) == Run(parse, START, rows)
    {
      assert rows[n..][1..] == rows[n + 1..];
      var payload := ParseEventData(parse, rows[n]);
      if payload.None? { continue; }
      var p := payload.value;
      var t := TypeOf(p);
      if t == "" { continue; }
      var index := ReadNumber(p, "index");
      if t in {"content_block_start", "content_block_delta", "content_block_stop"} {
        if index.None? { continue; }
        blocks, partial := BlockEvent(parse, blocks, partial, index.value, p);
      } else if t == "message_start" {
        var m := ReadObject(p, "message");
        if m.Some? { message := Some(SeedMessage(m.value)); }
      } else if t == "message_delta" {
        if message.None? { continue; }
        message := Some(ApplyMessageDelta(message.value, p));
      } else if t == "message_stop" {
        stopped := true;
      }
    }
    ghost var st := Run(parse, START, rows);
    assert rows[|rows|..] == [] && st == State(message, blocks, partial, stopped);
    if message.None? { return None; }
    var closed := FinalizeAll(parse, blocks, partial);
    assert closed == Closed(parse, st);
    var order := SortedKeys(blocks.Keys);
    forall other | Enumerates(other, st.blocks.Keys) ensures other == order {
      EnumerationUnique(other, order, st.blocks.Keys);
    }
    var msg := message.value.(content := seq(|order|, a requires 0 <= a < |order| => closed[order[a]]));
    result := Some(if !stopped && msg.stopReason.None? then msg.(stopReason := Some("error")) else msg);
  }

  /** Where a block event leads: only the entries of its index change. */
  predicate Leads(blocks: map<int, Obj>, partial: map<int, string>, i: int, b: BlockState,
                  blocks': map<int, Obj>, partial': map<int, string>)
  {
    State(None, blocks', partial', false) == With(State(None, blocks, partial, false), i, b)
  }

  method StartBlock(parse: Parser, blocks: map<int, Obj>, partial: map<int, string>, index: int, p: Obj)
    returns (blocks': map<int, Obj>, partial': map<int, string>)
    requires TypeOf(p) == "content_block_start"
    ensures Leads(blocks, partial, index, StepBlock(parse, At(State(None, blocks, partial, false), index), p),
      blocks', partial')
  {
    blocks', partial' := blocks, partial;
    var block := ReadObject(p, "content_block");
    if block.Some? {
      blocks' := blocks[index := block.value];
      if IsTool(ReadString(block.value, "type")) { partial' := partial[index := ""]; }
    }
  }

  method DeltaBlock(parse: Parser, blocks: map<int, Obj>, partial: map<int, string>, index: int, p: Obj)
    returns (blocks': map<int, Obj>, partial': map<int, string>)
    requires TypeOf(p) == "content_block_delta"
    ensures Leads(blocks, partial, index, StepBlock(parse, At(State(None, blocks, partial, false), index), p),
      blocks', partial')
  {
    blocks', partial' := blocks, partial;
    var delta := ReadObject(p, "delta");
    if delta.None? { return; }
    var before := BlockState(if index in blocks then Some(blocks[index]) else None, if index in partial
      then Some(partial[index]) else None);
    var after := ApplyDelta(before, delta.value);
    blocks' := blocks[index := after.block.value];
    if after.partial.Some? { partial' := partial[index := after.partial.value]; }
  }

  method StopBlock(parse: Parser, blocks: map<int, Obj>, partial: map<int, string>, index: int, p: Obj)
    returns (blocks': map<int, Obj>, partial': map<int, string>)
    requires TypeOf(p) == "content_block_stop"
    ensures Leads(blocks, partial, index, StepBlock(parse, At(State(None, blocks, partial, false), index), p),
      blocks', partial')
  {
    blocks', partial' := blocks, partial;
    if index !in blocks || index !in partial { return; }
    var text := partial[index];
    partial' := partial - {index};
    if text != "" {
      var input := if parse(text).Some? then parse(text).value else JStr(text);
      blocks' := blocks[index := blocks[index]["input" := input]];
    }
  }

  /** The three block events of the switch, on the two maps. */
  method BlockEvent(parse: Parser, blocks: map<int, Obj>, partial: map<int, string>, index: int, p: Obj)
    returns (blocks': map<int, Obj>, partial': map<int, string>)
    requires IsBlockEvent(p) && ReadNumber(p, "index") == Some(index)
    ensures Leads(blocks, partial, index, StepBlock(parse, At(State(None, blocks, partial, false), index), p),
      blocks', partial')
  {
    var t := TypeOf(p);
    if t == "content_block_start" {
      blocks', partial' := StartBlock(parse, blocks, partial, index, p);
    } else if t == "content_block_delta" {
      blocks', partial' := DeltaBlock(parse, blocks, partial, index, p);
    } else {
      blocks', partial' := StopBlock(parse, blocks, partial, index, p);
    }
  }
}
