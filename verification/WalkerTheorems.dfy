/** What whole walks guarantee: no message twice, and a walk that resumes from its own rows goes on as if never
    interrupted. */
module WalkerTheorems {
  import opened Wrappers
  import opened Text
  import opened CanonicalJson
  import opened CanonicalTheorems
  import opened MessagesWalker
  import opened MessageFields

  function Messages(e: Exchange): seq<Json> {
    if e.Malformed? then [] else Full(e)
  }

  lemma {:induction false} WalkAppend(hash: Hash, st: State, a: seq<Exchange>, b: seq<Exchange>)
    ensures Walk(hash, st, a + b) == Walk(hash, Walk(hash, st, a), b)
    decreases |a|
  {
    if a == [] {
      assert a + b == b;
    } else {
      assert (a + b)[1..] == a[1..] + b;
      WalkAppend(hash, VisitExchange(hash, st, a[0]), a[1..], b);
    }
  }

  // ---------- no message is emitted twice ----------

  /** Every row belongs to a message that is seen and was not seen before the walk, and no part is there twice. */
  predicate OnceEach(prior: map<string, Seen>, st: State) {
    && prior.Keys <= st.seen.Keys
    && (forall i :: 0 <= i < |st.rows| ==> st.rows[i].messageId in st.seen && st.rows[i].messageId !in prior)
    && (forall i, j :: 0 <= i < j < |st.rows| ==>
          st.rows[i].messageId != st.rows[j].messageId || st.rows[i].partIndex != st.rows[j].partIndex)
  }

  lemma MessageOnce(hash: Hash, prior: map<string, Seen>, e: Exchange, cur: Cursor, m: Json, index: nat)
    requires Ready(cur.st, e) && OnceEach(prior, cur.st)
    ensures OnceEach(prior, VisitMessage(hash, e, cur, m, index).st)
  {
    var next := VisitMessage(hash, e, cur, m, index).st;
    var old_rows, rows := cur.st.rows, next.rows;
    assert rows[..|old_rows|] == old_rows;
    forall i | |old_rows| <= i < |rows|
      ensures rows[i].messageId !in cur.st.seen && rows[i].messageId in next.seen &&
        rows[i].partIndex == i - |old_rows| {
      assert rows[i] == (rows[|old_rows|..])[i - |old_rows|];
    }
  }

  lemma {:induction false} MessagesOnce(hash: Hash, prior: map<string, Seen>, e: Exchange, cur: Cursor,
      messages: seq<Json>, from: nat)
    requires Ready(cur.st, e) && from <= |messages| && OnceEach(prior, cur.st)
    ensures OnceEach(prior, VisitMessages(hash, e, cur, messages, from).st)
    decreases |messages| - from
  {
    if from < |messages| {
      MessageOnce(hash, prior, e, cur, messages[from], from);
      MessagesOnce(hash, prior, e, VisitMessage(hash, e, cur, messages[from], from), messages, from + 1);
    }
  }

  lemma {:induction false} WalkOnce(hash: Hash, prior: map<string, Seen>, st: State, exchanges: seq<Exchange>)
    requires OnceEach(prior, st)
    ensures OnceEach(prior, Walk(hash, st, exchanges))
    decreases |exchanges|
  {
    if exchanges != [] {
      var e := exchanges[0];
      if e.Exchange? { MessagesOnce(hash, prior, e, Cursor(Enter(st, e), None), Full(e), 0); }
      WalkOnce(hash, prior, VisitExchange(hash, st, e), exchanges[1..]);
    }
  }

  /** Over every walk: no part of a message is emitted twice, and nothing of a message that was seen before. */
  lemma NeverTwice(hash: Hash, prior: map<string, Seen>, exchanges: seq<Exchange>)
    ensures OnceEach(prior, Walk(hash, Start(prior), exchanges))
  {
    WalkOnce(hash, prior, Start(prior), exchanges);
  }

  // ---------- resuming ----------

  /** What the next walk knows of the rows already written. */
  function Remember(prior: map<string, Seen>, rows: seq<Row>): map<string, Seen>
    decreases |rows|
  {
    if rows == [] then prior
    else
      var r := rows[0];
      Remember(prior[r.messageId := Seen(if r.exchange.Exchange? then r.exchange.conversation
        else "", r.messageIndex)], rows[1..])
  }

  lemma {:induction false} RememberKeys(prior: map<string, Seen>, rows: seq<Row>)
    ensures prior.Keys <= Remember(prior, rows).Keys
    ensures forall i :: 0 <= i < |rows| ==> rows[i].messageId in Remember(prior, rows)
    ensures forall id :: id in Remember(prior, rows) && id !in prior ==>
      exists i :: 0 <= i < |rows| && rows[i].messageId == id
    decreases |rows|
  {
    if rows != [] {
      var r := rows[0];
      var seen := Seen(if r.exchange.Exchange? then r.exchange.conversation else "", r.messageIndex);
      var next := prior[r.messageId := seen];
      RememberKeys(next, rows[1..]);
      assert r.messageId in next;
      forall i | 0 <= i < |rows| ensures rows[i].messageId in Remember(prior, rows) {
        assert i > 0 ==> rows[i] == rows[1..][i - 1];
      }
      forall id | id in Remember(prior, rows) && id !in prior
        ensures exists i :: 0 <= i < |rows| && rows[i].messageId == id {
        if id == r.messageId {
          assert rows[0].messageId == id;
        } else {
          var i :| 0 <= i < |rows[1..]| && rows[1..][i].messageId == id;
          assert rows[i + 1].messageId == id;
        }
      }
    }
  }

  /** A message that is visited but emits nothing. */
  predicate IsEmpty(m: Json) {
    RoleOf(m).Some? && ContentOf(m) == []
  }

  /** Some message of these exchanges is empty and has this id. */
  ghost predicate EmptyId(hash: Hash, exchanges: seq<Exchange>, id: string) {
    exists i, p :: EmptyIdAt(hash, exchanges, id, i, p)
  }

  predicate EmptyIdAt(hash: Hash, exchanges: seq<Exchange>, id: string, i: int, p: int) {
    && 0 <= i < |exchanges| && 0 <= p < |Messages(exchanges[i])| && exchanges[i].Exchange?
    && IsEmpty(Messages(exchanges[i])[p])
    && IdOf(hash, exchanges[i].conversation, Messages(exchanges[i])[p]) == id
  }

  /** The hash does not give an empty message of `a` the id of a message of `e` that has content. */
  ghost predicate KeepsApart(hash: Hash, a: seq<Exchange>, e: Exchange) {
    forall q :: 0 <= q < |Messages(e)| && RoleOf(Messages(e)[q]).Some? && !IsEmpty(Messages(e)[q]) ==>
                  !EmptyId(hash, a, IdOf(hash, e.conversation, Messages(e)[q]))
  }

  /** All that is seen was seen before, has rows, or is empty. */
  ghost predicate Accounted(hash: Hash, a: seq<Exchange>, prior: map<string, Seen>, st: State) {
    forall id :: id in st.seen ==>
      id in prior || (exists i :: 0 <= i < |st.rows| && st.rows[i].messageId == id) || EmptyId(hash, a, id)
  }

  lemma MessageAccounted(hash: Hash, a: seq<Exchange>, prior: map<string, Seen>, n: nat, cur: Cursor, index: nat)
    requires n < |a| && a[n].Exchange? && Ready(cur.st, a[n]) && index < |Full(a[n])| &&
      Accounted(hash, a, prior, cur.st)
    ensures Accounted(hash, a, prior, VisitMessage(hash, a[n], cur, Full(a[n])[index], index).st)
  {
    var m := Full(a[n])[index];
    var next := VisitMessage(hash, a[n], cur, m, index).st;
    forall id | id in next.seen
      ensures id in prior || (exists i :: 0 <= i < |next.rows| && next.rows[i].messageId == id) || EmptyId(hash, a, id)
    {
      if id in cur.st.seen {
        if i :| 0 <= i < |cur.st.rows| && cur.st.rows[i].messageId == id { assert next.rows[i].messageId == id; }
      } else if IsEmpty(m) {
        assert EmptyIdAt(hash, a, id, n, index);
      } else {
        assert next.rows[|cur.st.rows|].messageId == id;
      }
    }
  }

  lemma {:induction false} MessagesAccounted(hash: Hash, a: seq<Exchange>, prior: map<string, Seen>, n: nat,
      cur: Cursor, from: nat)
    requires n < |a| && a[n].Exchange? && Ready(cur.st, a[n]) && from <= |Full(a[n])| &&
      Accounted(hash, a, prior, cur.st)
    ensures Accounted(hash, a, prior, VisitMessages(hash, a[n], cur, Full(a[n]), from).st)
    decreases |Full(a[n])| - from
  {
    if from < |Full(a[n])| {
      MessageAccounted(hash, a, prior, n, cur, from);
      MessagesAccounted(hash, a, prior, n, VisitMessage(hash, a[n], cur, Full(a[n])[from], from), from + 1);
    }
  }

  lemma {:induction false} WalkAccounted(hash: Hash, a: seq<Exchange>, prior: map<string, Seen>, n: nat, st: State)
    requires n <= |a| && Accounted(hash, a, prior, st)
    ensures Accounted(hash, a, prior, Walk(hash, st, a[n..]))
    decreases |a| - n
  {
    if n < |a| {
      assert a[n..][1..] == a[n + 1..];
      if a[n].Exchange? { MessagesAccounted(hash, a, prior, n, Cursor(Enter(st, a[n]), None), 0); }
      WalkAccounted(hash, a, prior, n + 1, VisitExchange(hash, st, a[n]));
    }
  }

  /** A row without its two columns that depend on how far back the walk goes. */
  function Lasting(r: Row): Row {
    r.(conversationStartedAt := "", toolName := if IsToolResult(r.block) then None else r.toolName)
  }

  function LastingAll(rows: seq<Row>): seq<Row> {
    seq(|rows|, k requires 0 <= k < |rows| => Lasting(rows[k]))
  }

  lemma LastingAppend(a: seq<Row>, b: seq<Row>)
    ensures LastingAll(a + b) == LastingAll(a) + LastingAll(b)
  {
  }

  /** The uninterrupted walk `f` and the resumed walk `r`, which follows the rows `first`. */
  ghost predicate Alike(hash: Hash, a: seq<Exchange>, first: seq<Row>, f: State, r: State) {
    && LastingAll(f.rows) == LastingAll(first) + LastingAll(r.rows)
    && r.seen.Keys <= f.seen.Keys
    && forall id :: id in f.seen && id !in r.seen ==> EmptyId(hash, a, id)
  }

  lemma PartsAlike(c: Context, d: Context, m: Json, content: seq<Json>)
    requires c == d.(startedAt := c.startedAt, names := c.names)
    ensures LastingAll(ExtractParts(c, m, content)) == LastingAll(ExtractParts(d, m, content))
  {
  }

  lemma MessageAlike(hash: Hash, a: seq<Exchange>, first: seq<Row>, e: Exchange, f: Cursor, r: Cursor, index: nat)
    requires Ready(f.st, e) && Ready(r.st, e) && index < |Full(e)| && KeepsApart(hash, a, e)
    requires Alike(hash, a, first, f.st, r.st) && f.previous == r.previous
    ensures var f', r' := VisitMessage(hash, e, f, Full(e)[index], index),
      VisitMessage(hash, e, r, Full(e)[index], index);
            Alike(hash, a, first, f'.st, r'.st) && f'.previous == r'.previous
  {
    var m := Full(e)[index];
    if RoleOf(m).Some? {
      var id := IdOf(hash, e.conversation, m);
      var content := ContentOf(m);
      var c := Context(e, id, f.previous, index, f.st.startedAt[e.conversation], f.st.tools[e.conversation]);
      var d := Context(e, id, r.previous, index, r.st.startedAt[e.conversation], r.st.tools[e.conversation]);
      PartsAlike(c, d, m, content);
      LastingAppend(f.st.rows, ExtractParts(c, m, content));
      LastingAppend(r.st.rows, ExtractParts(d, m, content));
      Assoc(LastingAll(first), LastingAll(r.st.rows), LastingAll(ExtractParts(d, m, content)));
      assert Messages(e)[index] == m;
      assert IsEmpty(m) ==> r.st.rows + ExtractParts(d, m, content) == r.st.rows;
    }
  }

  lemma {:induction false} MessagesAlike(hash: Hash, a: seq<Exchange>, first: seq<Row>, e: Exchange, f: Cursor,
      r: Cursor, from: nat)
    requires Ready(f.st, e) && Ready(r.st, e) && from <= |Full(e)| && KeepsApart(hash, a, e)
    requires Alike(hash, a, first, f.st, r.st) && f.previous == r.previous
    ensures Alike(hash, a, first, VisitMessages(hash, e, f, Full(e), from).st,
      VisitMessages(hash, e, r, Full(e), from).st)
    decreases |Full(e)| - from
  {
    if from < |Full(e)| {
      MessageAlike(hash, a, first, e, f, r, from);
      MessagesAlike(hash, a, first, e, VisitMessage(hash, e, f, Full(e)[from], from),
        VisitMessage(hash, e, r, Full(e)[from], from), from + 1);
    }
  }

  lemma {:induction false} WalkAlike(hash: Hash, a: seq<Exchange>, first: seq<Row>, f: State, r: State,
      b: seq<Exchange>)
    requires Alike(hash, a, first, f, r) && forall j :: 0 <= j < |b| ==> KeepsApart(hash, a, b[j])
    ensures Alike(hash, a, first, Walk(hash, f, b), Walk(hash, r, b))
    decreases |b|
  {
    if b != [] {
      var e := b[0];
      assert KeepsApart(hash, a, e);
      if e.Exchange? { MessagesAlike(hash, a, first, e, Cursor(Enter(f, e), None), Cursor(Enter(r, e), None), 0); }
      WalkAlike(hash, a, first, VisitExchange(hash, f, e), VisitExchange(hash, r, e), b[1..]);
    }
  }

  /** Walking `a + b`, and walking `a` and then `b` knowing only the rows of `a`, emit the same rows, but for the start
      time of the conversation and the tool names looked up for results. */
  lemma Resumable(hash: Hash, prior: map<string, Seen>, a: seq<Exchange>, b: seq<Exchange>)
    requires forall j :: 0 <= j < |b| ==> KeepsApart(hash, a, b[j])
    ensures var first := Walk(hash, Start(prior), a).rows;
            LastingAll(Walk(hash, Start(prior), a + b).rows) ==
            LastingAll(first) + LastingAll(Walk(hash, Start(Remember(prior, first)), b).rows)
  {
    var f := Walk(hash, Start(prior), a);
    var r := Start(Remember(prior, f.rows));
    WalkAppend(hash, Start(prior), a, b);
    WalkOnce(hash, prior, Start(prior), a);
    assert a[0..] == a;
    WalkAccounted(hash, a, prior, 0, Start(prior));
    RememberKeys(prior, f.rows);
    forall id | id in r.seen ensures id in f.seen {
      if id !in prior { var i :| 0 <= i < |f.rows| && f.rows[i].messageId == id; }
    }
    assert LastingAll(f.rows) + [] == LastingAll(f.rows);
    WalkAlike(hash, a, f.rows, f, r, b);
  }

  // ---------- tool names and start times ----------

  /** A tool call that names its tool. */
  predicate Teaches(b: Json, id: string) {
    IsToolUse(b) && ToolCallId(b) == Some(id) && GetString(b, "name").Some?
  }

  /** The name a result is given: that of the last call with its id, if any was emitted. */
  predicate LastTaught(blocks: seq<Json>, id: string, name: string) {
    exists k :: 0 <= k < |blocks| && LastTaughtAt(blocks, id, name, k)
  }

  predicate LastTaughtAt(blocks: seq<Json>, id: string, name: string, k: int) {
    && 0 <= k < |blocks| && Teaches(blocks[k], id) && GetString(blocks[k], "name") == Some(name)
    && forall j :: k < j < |blocks| ==> !Teaches(blocks[j], id)
  }

  lemma {:induction false} LearnToolsAppend(names: ToolNames, a: seq<Json>, b: seq<Json>)
    ensures LearnTools(names, a + b) == LearnTools(LearnTools(names, a), b)
    decreases |a|
  {
    if a == [] {
      assert a + b == b;
    } else {
      assert (a + b)[1..] == a[1..] + b && (a + b)[0] == a[0];
      LearnToolsAppend(LearnTool(names, a[0]), a[1..], b);
    }
  }

  lemma {:induction false} LearnToolsIff(blocks: seq<Json>, id: string, name: string)
    ensures (id in LearnTools(map[], blocks) && LearnTools(map[], blocks)[id] == name) <==> LastTaught(blocks, id, name)
    decreases |blocks|
  {
    if blocks != [] {
      var n := |blocks| - 1;
      var front, b := blocks[..n], blocks[n];
      LearnToolsIff(front, id, name);
      LearnToolsAppend(map[], front, [b]);
      assert blocks == front + [b] && [b][1..] == [];
      if Teaches(b, id) {
        assert GetString(b, "name") == Some(name) ==> LastTaughtAt(blocks, id, name, n);
      } else {
        forall k | 0 <= k < n ensures LastTaughtAt(front, id, name, k) <==> LastTaughtAt(blocks, id, name, k) {
          assert front[k] == blocks[k];
        }
      }
    }
  }

  /** The content blocks emitted for a conversation so far. */
  function BlocksOf(rows: seq<Row>, c: string): seq<Json>
    decreases |rows|
  {
    if rows == [] then []
    else
      (if rows[0].exchange.Exchange? && rows[0].exchange.conversation == c then [rows[0].block] else [])
      + BlocksOf(rows[1..], c)
  }

  lemma {:induction false} BlocksAppend(a: seq<Row>, b: seq<Row>, c: string)
    ensures BlocksOf(a + b, c) == BlocksOf(a, c) + BlocksOf(b, c)
    decreases |a|
  {
    if a == [] {
      assert a + b == b && [] + BlocksOf(b, c) == BlocksOf(b, c);
    } else {
      assert (a + b)[1..] == a[1..] + b;
      BlocksAppend(a[1..], b, c);
      Assoc(if a[0].exchange.Exchange? && a[0].exchange.conversation == c then [a[0].block]
        else [], BlocksOf(a[1..], c), BlocksOf(b, c));
    }
  }

  lemma {:induction false} BlocksUniform(rows: seq<Row>, content: seq<Json>, e: Exchange, c: string)
    requires e.Exchange? && |rows| == |content| && forall k :: 0 <= k < |rows| ==>
      rows[k].exchange == e && rows[k].block == content[k]
    ensures BlocksOf(rows, c) == if c == e.conversation then content else []
    decreases |rows|
  {
    if rows != [] {
      BlocksUniform(rows[1..], content[1..], e, c);
      assert content == [content[0]] + content[1..];
    }
  }

  /** A conversation's table of tool names is what its emitted blocks teach. */
  ghost predicate Taught(st: State) {
    forall c :: TaughtFor(st, c)
  }

  predicate TaughtFor(st: State, c: string) {
    if c in st.tools then st.tools[c] == LearnTools(map[], BlocksOf(st.rows, c)) else BlocksOf(st.rows, c) == []
  }

  lemma MessageTaught(hash: Hash, e: Exchange, cur: Cursor, m: Json, index: nat)
    requires Ready(cur.st, e) && Taught(cur.st)
    ensures Taught(VisitMessage(hash, e, cur, m, index).st)
  {
    var next := VisitMessage(hash, e, cur, m, index).st;
    forall c ensures TaughtFor(next, c) {
      assert TaughtFor(cur.st, c);
      MessageTaughtFor(hash, e, cur, m, index, c);
    }
  }

  lemma MessageTaughtFor(hash: Hash, e: Exchange, cur: Cursor, m: Json, index: nat, c: string)
    requires Ready(cur.st, e) && TaughtFor(cur.st, c)
    ensures TaughtFor(VisitMessage(hash, e, cur, m, index).st, c)
  {
    if RoleOf(m).Some? && IdOf(hash, e.conversation, m) !in cur.st.seen {
      var content := ContentOf(m);
      var ctx := Context(e, IdOf(hash, e.conversation, m), cur.previous, index, cur.st.startedAt[e.conversation],
        cur.st.tools[e.conversation]);
      BlocksAfter(cur.st.rows, ExtractParts(ctx, m, content), content, e, c);
      LearnToolsAppend(map[], BlocksOf(cur.st.rows, c), content);
    }
  }

  lemma BlocksAfter(before: seq<Row>, rows: seq<Row>, content: seq<Json>, e: Exchange, c: string)
    requires e.Exchange? && |rows| == |content| && forall k :: 0 <= k < |rows| ==>
      rows[k].exchange == e && rows[k].block == content[k]
    ensures BlocksOf(before + rows, c) == if c == e.conversation then BlocksOf(before, c) + content
      else BlocksOf(before, c)
  {
    BlocksAppend(before, rows, c);
    BlocksUniform(rows, content, e, c);
    assert BlocksOf(before, c) + [] == BlocksOf(before, c);
  }

  lemma {:induction false} MessagesTaught(hash: Hash, e: Exchange, cur: Cursor, messages: seq<Json>, from: nat)
    requires Ready(cur.st, e) && from <= |messages| && Taught(cur.st)
    ensures Taught(VisitMessages(hash, e, cur, messages, from).st)
    decreases |messages| - from
  {
    if from < |messages| {
      MessageTaught(hash, e, cur, messages[from], from);
      MessagesTaught(hash, e, VisitMessage(hash, e, cur, messages[from], from), messages, from + 1);
    }
  }

  lemma EnterTaught(st: State, e: Exchange)
    requires e.Exchange? && Taught(st)
    ensures Taught(Enter(st, e))
  {
    var next := Enter(st, e);
    forall c ensures TaughtFor(next, c) { assert TaughtFor(st, c); }
  }

  lemma ResultNamed(blocks: seq<Json>, result: Json, name: string)
    requires IsToolResult(result)
    ensures ToolName(result, LearnTools(map[], blocks)) == Some(name) <==>
            ToolCallId(result).Some? && ToolCallId(result).value != "" &&
              LastTaught(blocks, ToolCallId(result).value, name)
  {
    assert GetString(result, "type") != Some("tool_use") && GetString(result, "type") != Some("server_tool_use");
    if ToolCallId(result).Some? { LearnToolsIff(blocks, ToolCallId(result).value, name); }
  }

  /** The blocks emitted for the row's conversation before the row's message. */
  function BlocksBefore(rows: seq<Row>, k: nat): seq<Json>
    requires k < |rows| && rows[k].exchange.Exchange? && rows[k].partIndex <= k
  {
    BlocksOf(rows[..k - rows[k].partIndex], rows[k].exchange.conversation)
  }

  predicate RowNamed(rows: seq<Row>, k: nat)
    requires k < |rows|
  {
    rows[k].exchange.Exchange? && rows[k].partIndex <= k &&
      rows[k].toolName == ToolName(rows[k].block, LearnTools(map[], BlocksBefore(rows, k)))
  }

  predicate RowsNamed(rows: seq<Row>) {
    forall k :: 0 <= k < |rows| ==> RowNamed(rows, k)
  }

  lemma PartsNamed(before: seq<Row>, ctx: Context, m: Json, content: seq<Json>)
    requires RowsNamed(before) && ctx.exchange.Exchange? &&
      ctx.names == LearnTools(map[], BlocksOf(before, ctx.exchange.conversation))
    ensures RowsNamed(before + ExtractParts(ctx, m, content))
  {
    var all := before + ExtractParts(ctx, m, content);
    forall k | 0 <= k < |all| ensures RowNamed(all, k) {
      if k < |before| {
        assert RowNamed(before, k) && all[k] == before[k];
        assert all[..k - all[k].partIndex] == before[..k - before[k].partIndex];
      } else {
        assert all[k] == ExtractParts(ctx, m, content)[k - |before|];
        assert all[..|before|] == before;
      }
    }
  }

  lemma MessageNamed(hash: Hash, e: Exchange, cur: Cursor, m: Json, index: nat)
    requires Ready(cur.st, e) && Taught(cur.st) && RowsNamed(cur.st.rows)
    ensures RowsNamed(VisitMessage(hash, e, cur, m, index).st.rows)
  {
    if RoleOf(m).Some? && IdOf(hash, e.conversation, m) !in cur.st.seen {
      var ctx := Context(e, IdOf(hash, e.conversation, m), cur.previous, index, cur.st.startedAt[e.conversation],
        cur.st.tools[e.conversation]);
      assert TaughtFor(cur.st, e.conversation);
      PartsNamed(cur.st.rows, ctx, m, ContentOf(m));
    }
  }

  lemma {:induction false} MessagesNamed(hash: Hash, e: Exchange, cur: Cursor, messages: seq<Json>, from: nat)
    requires Ready(cur.st, e) && from <= |messages| && Taught(cur.st) && RowsNamed(cur.st.rows)
    ensures RowsNamed(VisitMessages(hash, e, cur, messages, from).st.rows)
    decreases |messages| - from
  {
    if from < |messages| {
      MessageTaught(hash, e, cur, messages[from], from);
      MessageNamed(hash, e, cur, messages[from], from);
      MessagesNamed(hash, e, VisitMessage(hash, e, cur, messages[from], from), messages, from + 1);
    }
  }

  lemma {:induction false} WalkNamed(hash: Hash, st: State, exchanges: seq<Exchange>)
    requires Taught(st) && RowsNamed(st.rows)
    ensures RowsNamed(Walk(hash, st, exchanges).rows)
    decreases |exchanges|
  {
    if exchanges != [] {
      var e := exchanges[0];
      if e.Exchange? {
        EnterTaught(st, e);
        MessagesTaught(hash, e, Cursor(Enter(st, e), None), Full(e), 0);
        MessagesNamed(hash, e, Cursor(Enter(st, e), None), Full(e), 0);
      }
      WalkNamed(hash, VisitExchange(hash, st, e), exchanges[1..]);
    }
  }

  // ---------- calls and results, read off their fields ----------

  predicate HasType(block: Json, t: string) {
    HasField(block, "type", JStr(t))
  }

  /** A block that calls a tool. */
  predicate IsCall(block: Json) {
    HasType(block, "tool_use") || HasType(block, "server_tool_use")
  }

  predicate IsAnswer(block: Json) {
    HasType(block, "tool_result") || HasType(block, "web_search_tool_result")
  }

  /** A call with this id that names its tool. */
  predicate Calls(block: Json, id: string, name: string) {
    IsCall(block) && HasField(block, "id", JStr(id)) && HasField(block, "name", JStr(name))
  }

  /** The last call with this id names the tool so. */
  ghost predicate LastCalled(blocks: seq<Json>, id: string, name: string) {
    exists k :: 0 <= k < |blocks| && LastCalledAt(blocks, id, name, k)
  }

  ghost predicate LastCalledAt(blocks: seq<Json>, id: string, name: string, k: int) {
    0 <= k < |blocks| && Calls(blocks[k], id, name) && forall j, other :: k < j < |blocks| ==>
      !Calls(blocks[j], id, other)
  }

  lemma BlockReads(b: Json)
    ensures IsToolUse(b) <==> IsCall(b)
    ensures IsToolResult(b) <==> IsAnswer(b)
    ensures IsCall(b) ==> !IsAnswer(b)
    ensures forall id :: IsCall(b) ==> (ToolCallId(b) == Some(id) <==> HasField(b, "id", JStr(id)))
    ensures forall id :: IsAnswer(b) ==> (ToolCallId(b) == Some(id) <==> HasField(b, "tool_use_id", JStr(id)))
    ensures forall name :: GetString(b, "name") == Some(name) <==> HasField(b, "name", JStr(name))
  {
    GetStringIff(b, "type", "tool_use");
    GetStringIff(b, "type", "server_tool_use");
    GetStringIff(b, "type", "tool_result");
    GetStringIff(b, "type", "web_search_tool_result");
    forall id ensures GetString(b, "id") == Some(id) <==> HasField(b, "id", JStr(id)) { GetStringIff(b, "id", id); }
    forall id ensures GetString(b, "tool_use_id") == Some(id) <==> HasField(b, "tool_use_id", JStr(id)) {
      GetStringIff(b, "tool_use_id", id);
    }
    forall name ensures GetString(b, "name") == Some(name) <==> HasField(b, "name", JStr(name)) {
      GetStringIff(b, "name", name);
    }
  }

  lemma CallsIff(b: Json, id: string)
    ensures forall name :: Teaches(b, id) && GetString(b, "name") == Some(name) <==> Calls(b, id, name)
    ensures Teaches(b, id) <==> exists name :: Calls(b, id, name)
  {
    BlockReads(b);
    if Teaches(b, id) { assert Calls(b, id, GetString(b, "name").value); }
  }

  lemma LastCalledIff(blocks: seq<Json>, id: string, name: string)
    ensures LastTaught(blocks, id, name) <==> LastCalled(blocks, id, name)
  {
    forall k | 0 <= k < |blocks| ensures LastTaughtAt(blocks, id, name, k) <==> LastCalledAt(blocks, id, name, k) {
      forall j | 0 <= j < |blocks|
        ensures Teaches(blocks[j], id) <==> exists other :: Calls(blocks[j], id, other)
        ensures Teaches(blocks[j], id) && GetString(blocks[j], "name") == Some(name) <==> Calls(blocks[j], id, name) {
        CallsIff(blocks[j], id);
      }
    }
  }

  /** In every walk, the row of a call carries the name in the call; the row of a tool result carries a name exactly
      when a call with its id was emitted for its conversation before its message, and then the name in the last such
      call; no other row has a name. */
  lemma ToolNamesResolve(hash: Hash, prior: map<string, Seen>, exchanges: seq<Exchange>, k: nat, name: string)
    requires k < |Walk(hash, Start(prior), exchanges).rows|
    ensures var rows := Walk(hash, Start(prior), exchanges).rows;
            var b := rows[k].block;
            && rows[k].exchange.Exchange? && rows[k].partIndex <= k
            && (rows[k].toolName == Some(name) <==>
                  || (IsCall(b) && HasField(b, "name", JStr(name)))
                  || (IsAnswer(b) && exists id ::
                        HasField(b, "tool_use_id", JStr(id)) && id != "" &&
                          LastCalled(BlocksBefore(rows, k), id, name)))
  {
    var rows := Walk(hash, Start(prior), exchanges).rows;
    WalkNamed(hash, Start(prior), exchanges);
    assert RowNamed(rows, k);
    NamedIff(BlocksBefore(rows, k), rows[k].block, name);
  }

  lemma NamedIff(blocks: seq<Json>, b: Json, name: string)
    ensures ToolName(b, LearnTools(map[], blocks)) == Some(name) <==>
              || (IsCall(b) && HasField(b, "name", JStr(name)))
              || (IsAnswer(b) && exists id ::
                    HasField(b, "tool_use_id", JStr(id)) && id != "" && LastCalled(blocks, id, name))
  {
    BlockReads(b);
    if IsAnswer(b) {
      ResultNamed(blocks, b, name);
      if ToolCallId(b).Some? { LastCalledIff(blocks, ToolCallId(b).value, name); }
    }
  }

  // ---------- start times ----------

  /** The start time of the first exchange of a conversation. */
  function FirstStart(exchanges: seq<Exchange>, c: string): Option<string> {
    if exchanges == [] then None
    else if exchanges[0].Exchange? && exchanges[0].conversation == c then Some(exchanges[0].startedAt)
    else FirstStart(exchanges[1..], c)
  }

  /** After some exchanges, every conversation and every row has the start time of its first exchange. */
  ghost predicate Timed(done: seq<Exchange>, st: State) {
    && (forall c :: FirstStart(done, c) == if c in st.startedAt then Some(st.startedAt[c]) else None)
    && (forall k :: 0 <= k < |st.rows| ==>
          st.rows[k].exchange.Exchange? &&
          FirstStart(done, st.rows[k].exchange.conversation) == Some(st.rows[k].conversationStartedAt))
  }

  lemma {:induction false} FirstStartSnoc(done: seq<Exchange>, e: Exchange, c: string)
    ensures FirstStart(done + [e], c) ==
            if FirstStart(done, c).Some? then FirstStart(done, c)
            else if e.Exchange? && e.conversation == c then Some(e.startedAt) else None
    decreases |done|
  {
    if done == [] {
      assert done + [e] == [e] && [e][1..] == [];
    } else {
      assert (done + [e])[1..] == done[1..] + [e];
      FirstStartSnoc(done[1..], e, c);
    }
  }

  lemma EnterTimed(done: seq<Exchange>, st: State, e: Exchange)
    requires e.Exchange? && Timed(done, st)
    ensures Timed(done + [e], Enter(st, e))
  {
    forall c ensures FirstStart(done + [e], c) ==
                     if FirstStart(done, c).Some? then FirstStart(done, c)
                     else if e.Exchange? && e.conversation == c then Some(e.startedAt) else None {
      FirstStartSnoc(done, e, c);
    }
  }

  lemma MessageTimed(hash: Hash, done: seq<Exchange>, e: Exchange, cur: Cursor, m: Json, index: nat)
    requires Ready(cur.st, e) && Timed(done, cur.st)
    ensures Timed(done, VisitMessage(hash, e, cur, m, index).st)
  {
    var before, after := cur.st.rows, VisitMessage(hash, e, cur, m, index).st.rows;
    forall k | 0 <= k < |after|
      ensures after[k].exchange.Exchange? &&
              FirstStart(done, after[k].exchange.conversation) == Some(after[k].conversationStartedAt) {
      if k < |before| { assert after[k] == before[k]; } else { assert after[k] == after[|before|..][k - |before|]; }
    }
  }

  lemma {:induction false} MessagesTimed(hash: Hash, done: seq<Exchange>, e: Exchange, cur: Cursor, messages: seq<Json>,
      from: nat)
    requires Ready(cur.st, e) && from <= |messages| && Timed(done, cur.st)
    ensures Timed(done, VisitMessages(hash, e, cur, messages, from).st)
    decreases |messages| - from
  {
    if from < |messages| {
      MessageTimed(hash, done, e, cur, messages[from], from);
      MessagesTimed(hash, done, e, VisitMessage(hash, e, cur, messages[from], from), messages, from + 1);
    }
  }

  lemma {:induction false} WalkTimed(hash: Hash, done: seq<Exchange>, st: State, exchanges: seq<Exchange>)
    requires Timed(done, st)
    ensures Timed(done + exchanges, Walk(hash, st, exchanges))
    decreases |exchanges|
  {
    if exchanges == [] {
      assert done + exchanges == done;
    } else {
      var e := exchanges[0];
      if e.Exchange? {
        EnterTimed(done, st, e);
        MessagesTimed(hash, done + [e], e, Cursor(Enter(st, e), None), Full(e), 0);
      } else {
        PassedTimed(done, st, e);
      }
      WalkTimed(hash, done + [e], VisitExchange(hash, st, e), exchanges[1..]);
      assert done + [e] + exchanges[1..] == done + exchanges;
    }
  }

  lemma PassedTimed(done: seq<Exchange>, st: State, e: Exchange)
    requires e.Malformed? && Timed(done, st)
    ensures Timed(done + [e], st)
  {
    forall c ensures FirstStart(done + [e], c) == FirstStart(done, c) { FirstStartSnoc(done, e, c); }
  }

  /** In every walk, every row carries the start time of the first exchange of its conversation. */
  lemma StartTimesStand(hash: Hash, prior: map<string, Seen>, exchanges: seq<Exchange>, k: nat)
    requires k < |Walk(hash, Start(prior), exchanges).rows|
    ensures var row := Walk(hash, Start(prior), exchanges).rows[k];
            row.exchange.Exchange? && FirstStart(exchanges, row.exchange.conversation) ==
              Some(row.conversationStartedAt)
  {
    WalkTimed(hash, [], Start(prior), exchanges);
    assert [] + exchanges == exchanges;
  }
}
