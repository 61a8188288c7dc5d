/** What a message says, read off its fields alone, and what visiting it emits. */
module MessageFields {
  import opened Wrappers
  import opened CanonicalJson
  import opened MessagesWalker

  predicate FirstAt(fields: seq<Field>, key: string, k: int) {
    0 <= k < |fields| && fields[k].key == key && forall j :: 0 <= j < k ==> fields[j].key != key
  }

  /** An object whose first field of this name has this value. */
  predicate HasField(u: Json, key: string, v: Json) {
    u.JObj? && exists k :: 0 <= k < |u.fields| && FirstAt(u.fields, key, k) && u.fields[k].value == v
  }

  lemma {:induction false} FindIff(fields: seq<Field>, key: string, v: Json)
    ensures Find(fields, key) == Some(v) <==>
      exists k :: 0 <= k < |fields| && FirstAt(fields, key, k) && fields[k].value == v
  {
    if fields != [] {
      var tail := fields[1..];
      FindIff(tail, key, v);
      if fields[0].key == key {
        assert FirstAt(fields, key, 0);
      } else {
        forall k | 0 <= k < |tail| ensures FirstAt(tail, key, k) <==> FirstAt(fields, key, k + 1) {
          LaterAt(fields, key, k);
        }
        if k :| 0 <= k < |tail| && FirstAt(tail, key, k) && tail[k].value == v { assert FirstAt(fields, key, k + 1); }
        if k :|
          0 <= k < |fields| && FirstAt(fields, key, k) && fields[k].value == v { assert FirstAt(tail, key, k - 1); }
      }
    }
  }

  lemma LaterAt(fields: seq<Field>, key: string, k: nat)
    requires fields != [] && fields[0].key != key && k < |fields[1..]|
    ensures FirstAt(fields[1..], key, k) <==> FirstAt(fields, key, k + 1)
  {
    var tail := fields[1..];
    if FirstAt(tail, key, k) {
      forall j | 0 <= j < k + 1 ensures fields[j].key != key { assert j > 0 ==> fields[j] == tail[j - 1]; }
    }
    if FirstAt(fields, key, k + 1) {
      forall j | 0 <= j < k ensures tail[j].key != key { assert tail[j] == fields[j + 1]; }
    }
  }

  lemma GetIff(u: Json, key: string, v: Json)
    ensures Get(u, key) == Some(v) <==> HasField(u, key, v)
  {
    if u.JObj? { FindIff(u.fields, key, v); }
  }

  lemma GetStringIff(u: Json, key: string, s: string)
    ensures GetString(u, key) == Some(s) <==> HasField(u, key, JStr(s))
  {
    GetIff(u, key, JStr(s));
  }

  // ---------- role and content ----------

  /** A message that counts: its role is a string, and not the empty one. */
  predicate Speaks(m: Json, role: string) {
    role != "" && HasField(m, "role", JStr(role))
  }

  function TextBlock(text: string): Json {
    JObj([Field("type", JStr("text")), Field("text", JStr(text))])
  }

  /** The content of a message: an array, or a text as one block, or nothing. */
  ghost predicate Holds(m: Json, content: seq<Json>) {
    || HasField(m, "content", JArr(content))
    || (exists text :: HasField(m, "content", JStr(text)) && content == if text == "" then [] else [TextBlock(text)])
    || (content == [] && forall v: Json :: HasField(m, "content", v) ==> !v.JStr? && !v.JArr?)
  }

  lemma SpeaksIff(m: Json, role: string)
    ensures RoleOf(m) == Some(role) <==> Speaks(m, role)
  {
    GetStringIff(m, "role", role);
  }

  lemma HoldsIff(m: Json, content: seq<Json>)
    ensures Holds(m, content) <==> ContentOf(m) == content
  {
    var got := Get(m, "content");
    forall v: Json ensures HasField(m, "content", v) <==> got == Some(v) { GetIff(m, "content", v); }
  }

  // ---------- visiting one message ----------

  /** An id is the beginning of the hash of conversation, role and canonical content, sixteen characters of it. */
  lemma IdIsPrefix(hash: Hash, c: string, role: string, content: seq<Json>)
    ensures var h := hash(c + ":" + role + ":" + Canonical(JArr(content)));
            var id := MessageId(hash, c, role, content);
            id <= h && (|id| == 16 || (|id| < 16 && id == h))
  {
  }

  /** The rows of a message: one for each block of its content, in order. */
  predicate RowsAre(rows: seq<Row>, e: Exchange, m: Json, content: seq<Json>, id: string, previous: Option<string>,
      index: nat, startedAt: string)
  {
    && |rows| == |content|
    && forall k :: 0 <= k < |rows| ==>
         && rows[k].exchange == e && rows[k].message == m && rows[k].block == content[k] && rows[k].partIndex == k
         && rows[k].messageId == id && rows[k].previousId == previous && rows[k].messageIndex == index
         && rows[k].conversationStartedAt == startedAt
  }

  /** A message that counts becomes the predecessor of the next; the first time its id is met it emits one row for each
      of its blocks, and never again. */
  lemma CountingMessage(hash: Hash, e: Exchange, cur: Cursor, m: Json, index: nat, role: string, content: seq<Json>)
    requires Ready(cur.st, e) && Speaks(m, role) && Holds(m, content)
    ensures var id := MessageId(hash, e.conversation, role, content);
            var next := VisitMessage(hash, e, cur, m, index);
            && next.previous == Some(id)
            && (id in cur.st.seen ==> next.st == cur.st)
            && (id !in cur.st.seen ==>
                  && next.st.seen == cur.st.seen[id := Seen(e.conversation, index)]
                  && next.st.startedAt == cur.st.startedAt
                  && cur.st.rows <= next.st.rows
                  && RowsAre(next.st.rows[|cur.st.rows|..], e, m, content, id, cur.previous, index,
                             cur.st.startedAt[e.conversation]))
  {
    SpeaksIff(m, role);
    HoldsIff(m, content);
  }

  /** Any other message is passed over. */
  lemma OtherMessage(hash: Hash, e: Exchange, cur: Cursor, m: Json, index: nat)
    requires Ready(cur.st, e) && forall role :: !Speaks(m, role)
    ensures VisitMessage(hash, e, cur, m, index) == cur
  {
    if RoleOf(m).Some? { SpeaksIff(m, RoleOf(m).value); }
  }

  // ---------- visiting an exchange ----------

  lemma {:induction false} VisitSnoc(hash: Hash, e: Exchange, cur: Cursor, history: seq<Json>, m: Json, from: nat)
    requires Ready(cur.st, e) && from <= |history|
    ensures VisitMessages(hash, e, cur, history + [m], from) ==
            VisitMessage(hash, e, VisitMessages(hash, e, cur, history, from), m, |history|)
    decreases |history| - from
  {
    if from < |history| {
      VisitSnoc(hash, e, VisitMessage(hash, e, cur, history[from], from), history, m, from + 1);
    }
  }

  /** The answer of an exchange comes after its history. */
  lemma AnswerComesLast(hash: Hash, st: State, c: string, startedAt: string, history: seq<Json>, answer: Json)
    ensures var e := Exchange(c, startedAt, history, Some(answer));
            var heard := VisitMessages(hash, e, Cursor(Enter(st, e), None), history, 0);
            VisitExchange(hash, st, e) == VisitMessage(hash, e, heard, answer, |history|).st
  {
    var e := Exchange(c, startedAt, history, Some(answer));
    FullIs(c, startedAt, history, answer);
    VisitSnoc(hash, e, Cursor(Enter(st, e), None), history, answer, 0);
  }

  lemma FullIs(c: string, startedAt: string, history: seq<Json>, answer: Json)
    ensures Full(Exchange(c, startedAt, history, Some(answer))) == history + [answer]
  {
  }
}
