/**
 Turning recorded exchanges into message rows, each message once, after src/cli/messages-walker.js and
 src/cli/messages-parquet.js. The hash is a parameter.
 */
module MessagesWalker {
  import opened Wrappers
  import opened CanonicalJson

  type Hash = string -> string

  function Get(u: Json, key: string): Option<Json> {
    if u.JObj? then Find(u.fields, key) else None
  }

  function Find(fields: seq<Field>, key: string): Option<Json> {
    if fields == [] then None else if fields[0].key == key then Some(fields[0].value) else Find(fields[1..], key)
  }

  function GetString(u: Json, key: string): Option<string> {
    var v := Get(u, key);
    if v.Some? && v.value.JStr? then Some(v.value.s) else None
  }

  // ---------- message ids ----------

  /** A string is one text block, an array is itself, anything else is empty. */
  function NormalizeContent(content: Option<Json>): seq<Json> {
    match content
    case Some(JStr(s)) => if s == "" then [] else [JObj([Field("type", JStr("text")), Field("text", JStr(s))])]
    case Some(JArr(items)) => items
    case _ => []
  }

  function Preimage(conversation: string, role: string, content: seq<Json>): string {
    conversation + ":" + role + ":" + Canonical(JArr(content))
  }

  function MessageId(hash: Hash, conversation: string, role: string, content: seq<Json>): string {
    var h := hash(Preimage(conversation, role, content));
    if |h| <= 16 then h else h[..16]
  }

  // ---------- exchanges and rows ----------

  /** A recorded exchange: its request history and the assistant's answer, or something that is none. */
  datatype Exchange =
    | Malformed
    | Exchange(conversation: string, startedAt: string, history: seq<Json>, assistant: Option<Json>)

  /** The part row of one content block. The columns not named here depend only on the exchange, the message and the
      block. */
  datatype Row = Row(
    exchange: Exchange, message: Json, block: Json, partIndex: nat,
    messageId: string, previousId: Option<string>, messageIndex: nat,
    conversationStartedAt: string, toolName: Option<string>)

  type ToolNames = map<string, string>

  predicate IsToolUse(block: Json) {
    GetString(block, "type") == Some("tool_use") || GetString(block, "type") == Some("server_tool_use")
  }

  predicate IsToolResult(block: Json) {
    GetString(block, "type") == Some("tool_result") || GetString(block, "type") == Some("web_search_tool_result")
  }

  function ToolCallId(block: Json): Option<string> {
    if IsToolUse(block) then GetString(block, "id")
    else if IsToolResult(block) then GetString(block, "tool_use_id")
    else None
  }

  /** A call names its tool; a result looks up the call it answers. */
  function ToolName(block: Json, names: ToolNames): Option<string> {
    var id := ToolCallId(block);
    if IsToolUse(block) then GetString(block, "name")
    else if IsToolResult(block) && id.Some? && id.value != "" && id.value in names then Some(names[id.value])
    else None
  }

  /** What the rows of one message have in common. */
  datatype Context = Context(exchange: Exchange, id: string, previousId: Option<string>, index: nat, startedAt: string,
      names: ToolNames)

  function ExtractParts(ctx: Context, message: Json, content: seq<Json>): seq<Row> {
    seq(|content|, k requires 0 <= k < |content| =>
      Row(ctx.exchange, message, content[k], k, ctx.id, ctx.previousId, ctx.index, ctx.startedAt,
        ToolName(content[k], ctx.names)))
  }

  function LearnTools(names: ToolNames, content: seq<Json>): ToolNames
    decreases |content|
  {
    if content == [] then names else LearnTools(LearnTool(names, content[0]), content[1..])
  }

  function LearnTool(names: ToolNames, b: Json): ToolNames {
    if IsToolUse(b) && ToolCallId(b).Some? && GetString(b, "name").Some?
    then names[ToolCallId(b).value := GetString(b, "name").value] else names
  }

  // ---------- the walk ----------

  datatype Seen = Seen(conversation: string, index: nat)

  datatype State = State(seen: map<string, Seen>, startedAt: map<string, string>, tools: map<string, ToolNames>,
      rows: seq<Row>)

  function Start(prior: map<string, Seen>): State {
    State(prior, map[], map[], [])
  }

  function Full(e: Exchange): seq<Json>
    requires e.Exchange?
  {
    e.history + if e.assistant.Some? then [e.assistant.value] else []
  }

  /** The role of a message that counts: an object with a non-empty role. */
  function RoleOf(message: Json): Option<string> {
    var role := GetString(message, "role");
    if role.Some? && role.value != "" then role else None
  }

  function ContentOf(message: Json): seq<Json> {
    NormalizeContent(Get(message, "content"))
  }

  function IdOf(hash: Hash, conversation: string, message: Json): string
    requires RoleOf(message).Some?
  {
    MessageId(hash, conversation, RoleOf(message).value, ContentOf(message))
  }

  /** A walk inside an exchange: the walker's state and the id of the last message. */
  datatype Cursor = Cursor(st: State, previous: Option<string>)

  predicate Ready(st: State, e: Exchange) {
    e.Exchange? && e.conversation in st.startedAt && e.conversation in st.tools
  }

  function VisitMessage(hash: Hash, e: Exchange, cur: Cursor, message: Json, index: nat): (next: Cursor)
    requires Ready(cur.st, e)
    ensures Ready(next.st, e)
  {
    if RoleOf(message).None? then cur
    else
      var id := IdOf(hash, e.conversation, message);
      if id in cur.st.seen then cur.(previous := Some(id))
      else
        var names := cur.st.tools[e.conversation];
        var ctx := Context(e, id, cur.previous, index, cur.st.startedAt[e.conversation], names);
        var content := ContentOf(message);
        Cursor(cur.st.(seen := cur.st.seen[id := Seen(e.conversation, index)],
                       tools := cur.st.tools[e.conversation := LearnTools(names, content)],
                       rows := cur.st.rows + ExtractParts(ctx, message, content)),
               Some(id))
  }

  function VisitMessages(hash: Hash, e: Exchange, cur: Cursor, messages: seq<Json>, from: nat): (next: Cursor)
    requires Ready(cur.st, e) && from <= |messages|
    ensures Ready(next.st, e)
    decreases |messages| - from
  {
    if from == |messages| then cur
    else VisitMessages(hash, e, VisitMessage(hash, e, cur, messages[from], from), messages, from + 1)
  }

  /** The first exchange of a conversation fixes its start time and opens its table of tool names. */
  function Enter(st: State, e: Exchange): (next: State)
    requires e.Exchange?
    ensures Ready(next, e)
  {
    var c := e.conversation;
    st.(startedAt := if c in st.startedAt then st.startedAt else st.startedAt[c := e.startedAt],
        tools := if c in st.tools then st.tools else st.tools[c := map[]])
  }

  function VisitExchange(hash: Hash, st: State, e: Exchange): State {
    if e.Malformed? then st else VisitMessages(hash, e, Cursor(Enter(st, e), None), Full(e), 0).st
  }

  function Walk(hash: Hash, st: State, exchanges: seq<Exchange>): State
    decreases |exchanges|
  {
    if exchanges == [] then st else Walk(hash, VisitExchange(hash, st, exchanges[0]), exchanges[1..])
  }

  // ---------- the imperative form ----------

  method CollectTools(names: ToolNames, rows: seq<Row>, ghost content: seq<Json>) returns (learned: ToolNames)
    requires |rows| == |content|
    requires forall k :: 0 <= k < |rows| ==>
      rows[k].block == content[k] && (IsToolUse(content[k]) ==> rows[k].toolName == GetString(content[k], "name"))
    ensures learned == LearnTools(names, content)
  {
    learned := names;
    for k := 0 to |rows|
      invariant LearnTools(learned, content[k..]) == LearnTools(names, content)
    {
      assert content[k..][1..] == content[k + 1..];
      var block := rows[k].block;
      if IsToolUse(block) && ToolCallId(block).Some? && rows[k].toolName.Some? {
        learned := learned[ToolCallId(block).value := rows[k].toolName.value];
      }
    }
    assert content[|rows|..] == [];
  }

  class Walker {
    const hash: Hash
    var seen: map<string, Seen>
    var startedAt: map<string, string>
    var tools: map<string, ToolNames>
    var rows: seq<Row>

    function Abs(): State
      reads this
    {
      State(seen, startedAt, tools, rows)
    }

    constructor (hash: Hash, prior: map<string, Seen>)
      ensures Abs() == Start(prior) && this.hash == hash
    {
      this.hash := hash;
      seen, startedAt, tools, rows := prior, map[], map[], [];
    }

    method WalkExchange(e: Exchange)
      modifies this
      ensures Abs() == VisitExchange(hash, old(Abs()), e)
    {
      if e.Malformed? { return; }
      var c := e.conversation;
      if c !in startedAt { startedAt := startedAt[c := e.startedAt]; }
      if c !in tools { tools := tools[c := map[]]; }
      var messages := e.history;
      if e.assistant.Some? { messages := messages + [e.assistant.value]; }
      ghost var entered := Cursor(Enter(old(Abs()), e), None);
      assert messages == Full(e) && Abs() == entered.st;
      var previous: Option<string> := None;
      for i := 0 to |messages|
        invariant Ready(Abs(), e)
        invariant VisitMessages(hash, e, Cursor(Abs(), previous), messages, i) ==
          VisitMessages(hash, e, entered, messages, 0)
      {
        previous := Emit(e, messages[i], i, previous);
      }
    }

    /** One turn of the loop over the messages. */
    method Emit(e: Exchange, m: Json, i: nat, previous: Option<string>) returns (last: Option<string>)
      requires Ready(Abs(), e)
      modifies this
      ensures Cursor(Abs(), last) == VisitMessage(hash, e, Cursor(old(Abs()), previous), m, i)
    {
      last := previous;
      if RoleOf(m).None? { return; }
      var c := e.conversation;
      var id := IdOf(hash, c, m);
      last := Some(id);
      if id in seen { return; }
      var parts := ExtractParts(Context(e, id, previous, i, startedAt[c], tools[c]), m, ContentOf(m));
      var learned := CollectTools(tools[c], parts, ContentOf(m));
      tools := tools[c := learned];
      seen := seen[id := Seen(c, i)];
      rows := rows + parts;
    }

    method WalkExchanges(exchanges: seq<Exchange>)
      modifies this
      ensures Abs() == Walk(hash, old(Abs()), exchanges)
    {
      for n := 0 to |exchanges|
        invariant Walk(hash, Abs(), exchanges[n..]) == Walk(hash, old(Abs()), exchanges)
      {
        assert exchanges[n..][1..] == exchanges[n + 1..];
        WalkExchange(exchanges[n]);
      }
      assert exchanges[|exchanges|..] == [];
    }
  }
}
