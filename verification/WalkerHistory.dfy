/**
 Replayed histories: a conversation that is sent again and again, each time longer, is emitted once, in order. A replay
 need not be the recorded message itself: only role and content count,
   whatever the form of the content and the order of keys.
 */
module WalkerHistory {
  import opened Wrappers
  import opened Text
  import opened CanonicalJson
  import opened CanonicalTheorems
  import opened MessagesWalker
  import opened MessageFields

  /** A row reduced to its place in the conversation. */
  datatype Place = Place(message: Json, block: Json, partIndex: nat, messageId: string, previousId: Option<string>,
      messageIndex: nat)

  function PlaceOf(r: Row): Place {
    Place(r.message, r.block, r.partIndex, r.messageId, r.previousId, r.messageIndex)
  }

  predicate In(r: Row, c: string) {
    r.exchange.Exchange? && r.exchange.conversation == c
  }

  /** The rows of conversation `c`. */
  function Of(rows: seq<Row>, c: string): seq<Place>
    decreases |rows|
  {
    if rows == [] then [] else (if In(rows[0], c) then [PlaceOf(rows[0])] else []) + Of(rows[1..], c)
  }

  // ---------- messages and their replays ----------

  /** The same message for the walker: equal role, and content equal up to the order of keys. */
  ghost predicate Replays(a: Json, b: Json) {
    && (forall role :: Speaks(a, role) <==> Speaks(b, role))
    && forall role, x, y :: Speaks(a, role) && Holds(a, x) && Holds(b, y) ==>
                              Wf(JArr(x)) && Wf(JArr(y)) && Meaning(JArr(x)) == Meaning(JArr(y))
  }

  lemma ReplaysIff(a: Json, b: Json)
    ensures Replays(a, b) <==>
              && RoleOf(a) == RoleOf(b)
              && (RoleOf(a).Some? ==>
                    && Wf(JArr(ContentOf(a))) && Wf(JArr(ContentOf(b)))
                    && Meaning(JArr(ContentOf(a))) == Meaning(JArr(ContentOf(b))))
  {
    AllIff(a);
    AllIff(b);
    if Replays(a, b) && RoleOf(a).Some? {
      assert Speaks(a, RoleOf(a).value) && Holds(a, ContentOf(a)) && Holds(b, ContentOf(b));
    }
    if RoleOf(a).Some? { assert Speaks(a, RoleOf(a).value); }
    if RoleOf(b).Some? { assert Speaks(b, RoleOf(b).value); }
  }

  lemma AllIff(m: Json)
    ensures forall role :: Speaks(m, role) <==> RoleOf(m) == Some(role)
    ensures forall content :: Holds(m, content) <==> ContentOf(m) == content
  {
    forall role ensures Speaks(m, role) <==> RoleOf(m) == Some(role) { SpeaksIff(m, role); }
    forall content ensures Holds(m, content) <==> ContentOf(m) == content { HoldsIff(m, content); }
  }

  lemma ReplaySameId(hash: Hash, c: string, a: Json, b: Json)
    requires Replays(a, b) && RoleOf(a).Some?
    ensures RoleOf(b) == RoleOf(a) && IdOf(hash, c, a) == IdOf(hash, c, b)
  {
    ReplaysIff(a, b);
    SameSorted(JArr(ContentOf(a)), JArr(ContentOf(b)));
  }

  /** A response body, with its id, model, reason and usage, and its replay as role and string content are one message;
      so with every role. */
  lemma AnswerReplayed(role: string, text: string, extra: seq<Field>)
    requires role != "" && text != ""
    ensures var answer := JObj([Field("role", JStr(role)), Field("content", JArr([TextBlock(text)]))] + extra);
            Replays(answer, JObj([Field("content", JStr(text)), Field("role", JStr(role))]))
  {
    var replay := [Field("content", JStr(text)), Field("role", JStr(role))];
    var answer := [Field("role", JStr(role)), Field("content", JArr([TextBlock(text)]))] + extra;
    assert FirstAt(replay, "content", 0) && FirstAt(replay, "role", 1);
    assert FirstAt(answer, "role", 0) && FirstAt(answer, "content", 1);
    GetIff(JObj(replay), "content", JStr(text));
    GetIff(JObj(replay), "role", JStr(role));
    GetIff(JObj(answer), "content", JArr([TextBlock(text)]));
    GetIff(JObj(answer), "role", JStr(role));
    BlockWf(text);
    ReplaysIff(JObj(answer), JObj(replay));
  }

  lemma BlockWf(text: string)
    ensures Wf(JArr([TextBlock(text)]))
  {
    assert "type"[1] != "text"[1];
  }

  // ---------- what should be emitted ----------

  /** The id of the last message that counts. */
  function Predecessor(hash: Hash, c: string, history: seq<Json>): Option<string> {
    if history == [] then None
    else
      var m := history[|history| - 1];
      if RoleOf(m).Some? then Some(IdOf(hash, c, m)) else Predecessor(hash, c, history[..|history| - 1])
  }

  /** The first `count` parts of a message. */
  function Places(m: Json, content: seq<Json>, count: nat, id: string, previous: Option<string>, n: nat): seq<Place>
    requires count <= |content|
  {
    if count == 0 then []
    else Places(m, content, count - 1, id, previous, n) + [Place(m, content[count - 1], count - 1, id, previous, n)]
  }

  lemma {:induction false} PlacesAre(m: Json, content: seq<Json>, count: nat, id: string,
      previous: Option<string>, n: nat)
    requires count <= |content|
    ensures |Places(m, content, count, id, previous, n)| == count
    ensures forall k :: 0 <= k < count ==>
      Places(m, content, count, id, previous, n)[k] == Place(m, content[k], k, id, previous, n)
  {
    if count > 0 { PlacesAre(m, content, count - 1, id, previous, n); }
  }

  /** The parts of a message that follows a history. */
  function PartsAfter(hash: Hash, c: string, history: seq<Json>, m: Json): seq<Place> {
    if RoleOf(m).None? then []
    else Places(m, ContentOf(m), |ContentOf(m)|, IdOf(hash, c, m), Predecessor(hash, c, history), |history|)
  }

  /** Some message of the history has this id. */
  predicate Occurs(hash: Hash, c: string, history: seq<Json>, id: string) {
    exists p :: 0 <= p < |history| && HasId(hash, c, history[p], id)
  }

  predicate HasId(hash: Hash, c: string, m: Json, id: string) {
    RoleOf(m).Some? && IdOf(hash, c, m) == id
  }

  /** The message says what an earlier one says already. */
  predicate Repeated(hash: Hash, c: string, history: seq<Json>, m: Json) {
    RoleOf(m).Some? && Occurs(hash, c, history, IdOf(hash, c, m))
  }

  function NextParts(hash: Hash, c: string, history: seq<Json>, m: Json): seq<Place> {
    if Repeated(hash, c, history, m) then [] else PartsAfter(hash, c, history, m)
  }

  /** The parts of a history, one message after another, each message where it occurs first. */
  function Conversation(hash: Hash, c: string, history: seq<Json>): seq<Place> {
    if history == [] then []
    else
      var front := history[..|history| - 1];
      Conversation(hash, c, front) + NextParts(hash, c, front, history[|history| - 1])
  }

  lemma ConversationSnoc(hash: Hash, c: string, history: seq<Json>, m: Json)
    ensures Conversation(hash, c, history + [m]) == Conversation(hash, c, history) + NextParts(hash, c, history, m)
  {
    assert (history + [m])[..|history|] == history;
  }

  // ---------- growing histories ----------

  /** The longer history repeats the shorter one, message by message. */
  ghost predicate Repeats(a: seq<Json>, b: seq<Json>) {
    |a| <= |b| && forall p :: 0 <= p < |a| ==> Replays(a[p], b[p])
  }

  /** Later exchanges of a conversation repeat all of the earlier ones, with the answer. */
  ghost predicate Grows(exchanges: seq<Exchange>) {
    forall i, j :: 0 <= i < j < |exchanges| && SameConversation(exchanges[i], exchanges[j]) ==>
      Repeats(Full(exchanges[i]), Full(exchanges[j]))
  }

  predicate SameConversation(d: Exchange, e: Exchange) {
    d.Exchange? && e.Exchange? && d.conversation == e.conversation
  }

  /** A message that counts, at position `p` of exchange `i`. */
  predicate Counts(exchanges: seq<Exchange>, i: int, p: int) {
    0 <= i < |exchanges| && exchanges[i].Exchange? && 0 <= p < |Full(exchanges[i])| &&
      RoleOf(Full(exchanges[i])[p]).Some?
  }

  function IdAt(hash: Hash, exchanges: seq<Exchange>, i: int, p: int): string
    requires Counts(exchanges, i, p)
  {
    IdOf(hash, exchanges[i].conversation, Full(exchanges[i])[p])
  }

  /** Messages of different conversations have different ids. */
  ghost predicate SeparateIds(hash: Hash, exchanges: seq<Exchange>) {
    forall i, p, j, q ::
      Counts(exchanges, i, p) && Counts(exchanges, j, q) &&
        IdAt(hash, exchanges, i, p) == IdAt(hash, exchanges, j, q) ==>
        exchanges[i].conversation == exchanges[j].conversation
  }

  /** The message at position `p` of exchange `i` is that of this role and content. */
  ghost predicate SaidAt(exchanges: seq<Exchange>, i: int, p: int, role: string, content: seq<Json>) {
    && 0 <= i < |exchanges| && exchanges[i].Exchange? && 0 <= p < |Full(exchanges[i])|
    && Speaks(Full(exchanges[i])[p], role) && Holds(Full(exchanges[i])[p], content)
  }

  /** No hash is shared across conversations. */
  ghost predicate Apart(hash: Hash, exchanges: seq<Exchange>) {
    forall i, p, r, x, j, q, s, y :: SaidAt(exchanges, i, p, r, x) && SaidAt(exchanges, j, q, s, y) ==>
      var c, d := exchanges[i].conversation, exchanges[j].conversation;
      MessageId(hash, c, r, x) == MessageId(hash, d, s, y) ==> c == d
  }

  lemma CountsSaid(exchanges: seq<Exchange>, i: int, p: int)
    requires Counts(exchanges, i, p)
    ensures var m := Full(exchanges[i])[p]; SaidAt(exchanges, i, p, RoleOf(m).value, ContentOf(m))
  {
    var m := Full(exchanges[i])[p];
    SpeaksIff(m, RoleOf(m).value);
    HoldsIff(m, ContentOf(m));
  }

  lemma ApartSeparates(hash: Hash, exchanges: seq<Exchange>)
    requires Apart(hash, exchanges)
    ensures SeparateIds(hash, exchanges)
  {
    forall i, p, j, q | Counts(exchanges, i, p) && Counts(exchanges, j, q) &&
        IdAt(hash, exchanges, i, p) == IdAt(hash, exchanges, j, q)
      ensures exchanges[i].conversation == exchanges[j].conversation {
      CountsSaid(exchanges, i, p);
      CountsSaid(exchanges, j, q);
    }
  }

  /** A history, continued where a longer one goes on. */
  function Continued(known: seq<Json>, full: seq<Json>): seq<Json> {
    if |known| <= |full| then known + full[|known|..] else known
  }

  /** The messages of `c` among the first `n` exchanges, each as it was first seen. */
  function FirstSeen(exchanges: seq<Exchange>, n: nat, c: string): seq<Json>
    requires n <= |exchanges|
  {
    if n == 0 then []
    else
      var known := FirstSeen(exchanges, n - 1, c);
      if exchanges[n - 1].Exchange? && exchanges[n - 1].conversation == c
        then Continued(known, Full(exchanges[n - 1])) else known
  }

  /** Where a message was first seen. */
  lemma {:induction false} FirstSeenSource(exchanges: seq<Exchange>, n: nat, c: string, p: nat) returns (i: nat)
    requires n <= |exchanges| && p < |FirstSeen(exchanges, n, c)|
    ensures i < n && exchanges[i].Exchange? && exchanges[i].conversation == c && p < |Full(exchanges[i])|
    ensures FirstSeen(exchanges, n, c)[p] == Full(exchanges[i])[p]
  {
    var known := FirstSeen(exchanges, n - 1, c);
    if p < |known| {
      i := FirstSeenSource(exchanges, n - 1, c, p);
    } else {
      i := n - 1;
    }
  }

  lemma {:induction false} FirstSeenCovers(exchanges: seq<Exchange>, n: nat, i: nat)
    requires i < n <= |exchanges| && exchanges[i].Exchange?
    ensures |Full(exchanges[i])| <= |FirstSeen(exchanges, n, exchanges[i].conversation)|
    decreases n
  {
    if i < n - 1 { FirstSeenCovers(exchanges, n - 1, i); }
  }

  /** What is known of a conversation, in its next exchange: replayed from the start. */
  lemma KnownIsReplayed(exchanges: seq<Exchange>, n: nat)
    requires Grows(exchanges) && n < |exchanges| && exchanges[n].Exchange?
    ensures Repeats(FirstSeen(exchanges, n, exchanges[n].conversation), Full(exchanges[n]))
  {
    var c := exchanges[n].conversation;
    var known := FirstSeen(exchanges, n, c);
    if known != [] {
      var i := FirstSeenSource(exchanges, n, c, |known| - 1);
      assert SameConversation(exchanges[i], exchanges[n]);
      forall p | 0 <= p < |known| ensures Replays(known[p], Full(exchanges[n])[p]) {
        var j := FirstSeenSource(exchanges, n, c, p);
        assert SameConversation(exchanges[j], exchanges[n]);
      }
    }
  }

  /** Any two sightings of a position show the same message. */
  lemma SightingsReplay(exchanges: seq<Exchange>, i: nat, j: nat, p: nat)
    requires Grows(exchanges) && i < |exchanges| && j < |exchanges| && SameConversation(exchanges[i], exchanges[j])
    requires p < |Full(exchanges[i])| && p < |Full(exchanges[j])| && RoleOf(Full(exchanges[i])[p]).Some?
    ensures RoleOf(Full(exchanges[j])[p]).Some?
    ensures forall hash: Hash :: IdAt(hash, exchanges, i, p) == IdAt(hash, exchanges, j, p)
  {
    var c, a, b := exchanges[i].conversation, Full(exchanges[i])[p], Full(exchanges[j])[p];
    assert SameConversation(exchanges[j], exchanges[i]);
    assert i != j ==> Replays(a, b) || Replays(b, a);
    ReplaysIff(a, b);
    ReplaysIff(b, a);
    forall hash: Hash ensures IdAt(hash, exchanges, i, p) == IdAt(hash, exchanges, j, p) {
      if Replays(a, b) { ReplaySameId(hash, c, a, b); } else if Replays(b, a) { ReplaySameId(hash, c, b, a); }
    }
  }

  // ---------- what is seen ----------

  /** A message with this id comes before position `q` of exchange `n`. */
  ghost predicate Visited(hash: Hash, exchanges: seq<Exchange>, n: nat, q: nat, id: string) {
    exists i, p :: VisitedAt(hash, exchanges, n, q, id, i, p)
  }

  predicate VisitedAt(hash: Hash, exchanges: seq<Exchange>, n: nat, q: nat, id: string, i: int, p: int) {
    Counts(exchanges, i, p) && (i < n || (i == n && p < q)) && IdAt(hash, exchanges, i, p) == id
  }

  ghost predicate SeenExactly(hash: Hash, exchanges: seq<Exchange>, n: nat, q: nat, seen: map<string, Seen>) {
    forall id :: id in seen <==> Visited(hash, exchanges, n, q, id)
  }

  /** The conversation of exchange `n` as known before it, continued by it. */
  function Whole(exchanges: seq<Exchange>, n: nat): (all: seq<Json>)
    requires n < |exchanges| && exchanges[n].Exchange?
    ensures |all| >= |Full(exchanges[n])|
  {
    Continued(FirstSeen(exchanges, n, exchanges[n].conversation), Full(exchanges[n]))
  }

  lemma WholeReplays(exchanges: seq<Exchange>, n: nat)
    requires Grows(exchanges) && n < |exchanges| && exchanges[n].Exchange?
    ensures |Whole(exchanges, n)| == |Full(exchanges[n])|
    ensures forall p :: 0 <= p < |Full(exchanges[n])| ==>
              Whole(exchanges, n)[p] == Full(exchanges[n])[p] || Replays(Whole(exchanges, n)[p], Full(exchanges[n])[p])
    ensures forall p :: |FirstSeen(exchanges, n, exchanges[n].conversation)| <= p < |Full(exchanges[n])| ==>
      Whole(exchanges, n)[p] == Full(exchanges[n])[p]
  {
    var known, full := FirstSeen(exchanges, n, exchanges[n].conversation), Full(exchanges[n]);
    KnownIsReplayed(exchanges, n);
    ContinuedAt(known, full);
    forall p | 0 <= p < |full| ensures Whole(exchanges, n)[p] == full[p] || Replays(Whole(exchanges, n)[p], full[p]) {
      if p < |known| { assert Whole(exchanges, n)[p] == known[p]; }
    }
  }

  lemma ContinuedAt(known: seq<Json>, full: seq<Json>)
    requires |known| <= |full|
    ensures |Continued(known, full)| == |full|
    ensures forall p :: 0 <= p < |known| ==> Continued(known, full)[p] == known[p]
    ensures forall p :: |known| <= p < |full| ==> Continued(known, full)[p] == full[p]
  {
  }

  lemma WholeSameId(hash: Hash, exchanges: seq<Exchange>, n: nat, p: nat)
    requires Grows(exchanges) && n < |exchanges| && exchanges[n].Exchange? && p < |Full(exchanges[n])| &&
      p < |Whole(exchanges, n)|
    ensures RoleOf(Whole(exchanges, n)[p]) == RoleOf(Full(exchanges[n])[p])
    ensures RoleOf(Full(exchanges[n])[p]).Some? ==>
              IdOf(hash, exchanges[n].conversation, Whole(exchanges, n)[p]) ==
                IdOf(hash, exchanges[n].conversation, Full(exchanges[n])[p])
  {
    WholeReplays(exchanges, n);
    var a, b := Whole(exchanges, n)[p], Full(exchanges[n])[p];
    ReplaysIff(a, b);
    if Replays(a, b) && RoleOf(b).Some? { ReplaySameId(hash, exchanges[n].conversation, a, b); }
  }

  /** A message is already seen exactly when its id occurs in what is known of the conversation, or earlier in this
      exchange. */
  lemma SeenWhenReached(hash: Hash, exchanges: seq<Exchange>, n: nat, q: nat)
    requires Grows(exchanges) && SeparateIds(hash, exchanges) && Counts(exchanges, n, q)
    ensures var known := FirstSeen(exchanges, n, exchanges[n].conversation);
            && Max(|known|, q) <= |Whole(exchanges, n)|
            && (Visited(hash, exchanges, n, q, IdAt(hash, exchanges, n, q)) <==>
                Occurs(hash, exchanges[n].conversation, Whole(exchanges, n)[..Max(|known|, q)],
                  IdAt(hash, exchanges, n, q)))
  {
    var c, id, all := exchanges[n].conversation, IdAt(hash, exchanges, n, q), Whole(exchanges, n);
    var known := FirstSeen(exchanges, n, c);
    KnownIsReplayed(exchanges, n);
    var reached := all[..Max(|known|, q)];
    if p :| 0 <= p < |reached| && HasId(hash, c, reached[p], id) {
      OccurrenceVisited(hash, exchanges, n, q, p, id);
    }
    if i, p :| VisitedAt(hash, exchanges, n, q, id, i, p) {
      VisitOccurs(hash, exchanges, n, q, i, p, id);
      assert HasId(hash, c, reached[p], id);
    }
  }

  lemma OccurrenceVisited(hash: Hash, exchanges: seq<Exchange>, n: nat, q: nat, p: nat, id: string)
    requires Grows(exchanges) && n < |exchanges| && exchanges[n].Exchange? && q <= |Full(exchanges[n])|
    requires p < Max(|FirstSeen(exchanges, n, exchanges[n].conversation)|, q)
    requires p < |Whole(exchanges, n)| && HasId(hash, exchanges[n].conversation, Whole(exchanges, n)[p], id)
    ensures Visited(hash, exchanges, n, q, id)
  {
    var c := exchanges[n].conversation;
    var known := FirstSeen(exchanges, n, c);
    WholeReplays(exchanges, n);
    if p < |known| {
      var i := FirstSeenSource(exchanges, n, c, p);
      assert VisitedAt(hash, exchanges, n, q, id, i, p);
    } else {
      assert VisitedAt(hash, exchanges, n, q, id, n, p);
    }
  }

  lemma VisitOccurs(hash: Hash, exchanges: seq<Exchange>, n: nat, q: nat, i: nat, p: nat, id: string)
    requires Grows(exchanges) && n < |exchanges| && exchanges[n].Exchange? && q <= |Full(exchanges[n])|
    requires VisitedAt(hash, exchanges, n, q, id, i, p) && exchanges[i].conversation == exchanges[n].conversation
    ensures var known := FirstSeen(exchanges, n, exchanges[n].conversation);
            p < Max(|known|, q) && p < |Whole(exchanges, n)| &&
              HasId(hash, exchanges[n].conversation, Whole(exchanges, n)[p], id)
  {
    var c := exchanges[n].conversation;
    var known := FirstSeen(exchanges, n, c);
    if i < n {
      FirstSeenCovers(exchanges, n, i);
      var j := FirstSeenSource(exchanges, n, c, p);
      SightingsReplay(exchanges, i, j, p);
      WholeReplays(exchanges, n);
      assert Whole(exchanges, n)[p] == known[p];
      assert IdAt(hash, exchanges, j, p) == id;
    } else {
      WholeReplays(exchanges, n);
      WholeSameId(hash, exchanges, n, p);
    }
  }

  lemma SeenNext(hash: Hash, exchanges: seq<Exchange>, n: nat, q: nat, seen: map<string, Seen>, next: map<string, Seen>)
    requires n < |exchanges| && exchanges[n].Exchange? && q < |Full(exchanges[n])|
    requires SeenExactly(hash, exchanges, n, q, seen)
    requires next.Keys == seen.Keys + if Counts(exchanges, n, q) then {IdAt(hash, exchanges, n, q)} else {}
    ensures SeenExactly(hash, exchanges, n, q + 1, next)
  {
    forall id ensures id in next <==> Visited(hash, exchanges, n, q + 1, id) {
      if id in seen {
        var i, p :| VisitedAt(hash, exchanges, n, q, id, i, p);
        assert VisitedAt(hash, exchanges, n, q + 1, id, i, p);
      } else if id in next {
        assert VisitedAt(hash, exchanges, n, q + 1, id, n, q);
      }
      if Visited(hash, exchanges, n, q + 1, id) {
        var i, p :| VisitedAt(hash, exchanges, n, q + 1, id, i, p);
        if !(i == n && p == q) { assert VisitedAt(hash, exchanges, n, q, id, i, p); }
      }
    }
  }

  // ---------- rows of one message ----------

  lemma {:induction false} OfAppend(a: seq<Row>, b: seq<Row>, c: string)
    ensures Of(a + b, c) == Of(a, c) + Of(b, c)
    decreases |a|
  {
    if a == [] {
      assert a + b == b && [] + Of(b, c) == Of(b, c);
    } else {
      assert (a + b)[1..] == a[1..] + b;
      OfAppend(a[1..], b, c);
      Assoc(if In(a[0], c) then [PlaceOf(a[0])] else [], Of(a[1..], c), Of(b, c));
    }
  }

  lemma {:induction false} OfUniform(rows: seq<Row>, c: string)
    requires (forall k :: 0 <= k < |rows| ==> In(rows[k], c)) || (forall k :: 0 <= k < |rows| ==> !In(rows[k], c))
    ensures Of(rows, c) == [] || |Of(rows, c)| == |rows|
    ensures (forall k :: 0 <= k < |rows| ==> !In(rows[k], c)) ==> Of(rows, c) == []
    ensures (forall k :: 0 <= k < |rows| ==> In(rows[k], c)) ==>
              |Of(rows, c)| == |rows| && forall k :: 0 <= k < |rows| ==> Of(rows, c)[k] == PlaceOf(rows[k])
    decreases |rows|
  {
    if rows != [] {
      OfUniform(rows[1..], c);
    }
  }

  lemma PartsPlaced(hash: Hash, ctx: Context, history: seq<Json>, m: Json)
    requires ctx.exchange.Exchange? && RoleOf(m).Some?
    requires var c := ctx.exchange.conversation;
      ctx.index == |history| && ctx.id == IdOf(hash, c, m) && ctx.previousId == Predecessor(hash, c, history)
    ensures Of(ExtractParts(ctx, m, ContentOf(m)), ctx.exchange.conversation) ==
      PartsAfter(hash, ctx.exchange.conversation, history, m)
  {
    OfUniform(ExtractParts(ctx, m, ContentOf(m)), ctx.exchange.conversation);
    PlacesAre(m, ContentOf(m), |ContentOf(m)|, ctx.id, ctx.previousId, |history|);
  }

  // ---------- the walk ----------

  /** Of conversation `c`, exactly what should be is emitted; `q` messages of exchange `n` are done. */
  ghost predicate EmittedFor(hash: Hash, exchanges: seq<Exchange>, n: nat, q: nat, rows: seq<Row>, c: string)
    requires n < |exchanges| && exchanges[n].Exchange? && q <= |Full(exchanges[n])|
  {
    var known := FirstSeen(exchanges, n, c);
    if c == exchanges[n].conversation then
      Max(|known|, q) <= |Whole(exchanges, n)| &&
        Of(rows, c) == Conversation(hash, c, Whole(exchanges, n)[..Max(|known|, q)])
    else Of(rows, c) == Conversation(hash, c, known)
  }

  ghost predicate Emitted(hash: Hash, exchanges: seq<Exchange>, n: nat, q: nat, rows: seq<Row>)
    requires n < |exchanges| && exchanges[n].Exchange? && q <= |Full(exchanges[n])|
  {
    forall c :: EmittedFor(hash, exchanges, n, q, rows, c)
  }

  lemma MessageEmitted(hash: Hash, exchanges: seq<Exchange>, n: nat, q: nat, cur: Cursor)
    requires Grows(exchanges) && SeparateIds(hash, exchanges)
    requires n < |exchanges| && exchanges[n].Exchange? && q < |Full(exchanges[n])| && Ready(cur.st, exchanges[n])
    requires cur.previous == Predecessor(hash, exchanges[n].conversation, Full(exchanges[n])[..q])
    requires SeenExactly(hash, exchanges, n, q, cur.st.seen) && Emitted(hash, exchanges, n, q, cur.st.rows)
    ensures var next := VisitMessage(hash, exchanges[n], cur, Full(exchanges[n])[q], q);
            && next.previous == Predecessor(hash, exchanges[n].conversation, Full(exchanges[n])[..q + 1])
            && SeenExactly(hash, exchanges, n, q + 1, next.st.seen) && Emitted(hash, exchanges, n, q + 1, next.st.rows)
  {
    var e, full := exchanges[n], Full(exchanges[n]);
    var next := VisitMessage(hash, e, cur, full[q], q);
    assert full[..q + 1][..q] == full[..q];
    SeenNext(hash, exchanges, n, q, cur.st.seen, next.st.seen);
    RowsEmitted(hash, exchanges, n, q, cur);
  }

  lemma RowsEmitted(hash: Hash, exchanges: seq<Exchange>, n: nat, q: nat, cur: Cursor)
    requires Grows(exchanges) && SeparateIds(hash, exchanges)
    requires n < |exchanges| && exchanges[n].Exchange? && q < |Full(exchanges[n])| && Ready(cur.st, exchanges[n])
    requires cur.previous == Predecessor(hash, exchanges[n].conversation, Full(exchanges[n])[..q])
    requires SeenExactly(hash, exchanges, n, q, cur.st.seen) && Emitted(hash, exchanges, n, q, cur.st.rows)
    ensures Emitted(hash, exchanges, n, q + 1, VisitMessage(hash, exchanges[n], cur, Full(exchanges[n])[q], q).st.rows)
  {
    var done, rows := q + 1, VisitMessage(hash, exchanges[n], cur, Full(exchanges[n])[q], q).st.rows;
    forall c ensures EmittedFor(hash, exchanges, n, done, rows, c) {
      assert EmittedFor(hash, exchanges, n, q, cur.st.rows, c);
      if c == exchanges[n].conversation { OwnRows(hash, exchanges, n, q, cur); }
        else { OtherRows(hash, exchanges[n], cur, q, c); }
    }
  }

  /** The rows of the message's own conversation: none, or its parts as a first occurrence. */
  lemma OwnRows(hash: Hash, exchanges: seq<Exchange>, n: nat, q: nat, cur: Cursor)
    requires Grows(exchanges) && SeparateIds(hash, exchanges)
    requires n < |exchanges| && exchanges[n].Exchange? && q < |Full(exchanges[n])| && Ready(cur.st, exchanges[n])
    requires cur.previous == Predecessor(hash, exchanges[n].conversation, Full(exchanges[n])[..q])
    requires SeenExactly(hash, exchanges, n, q, cur.st.seen)
    requires EmittedFor(hash, exchanges, n, q, cur.st.rows, exchanges[n].conversation)
    ensures EmittedFor(hash, exchanges, n, q + 1,
      VisitMessage(hash, exchanges[n], cur, Full(exchanges[n])[q], q).st.rows, exchanges[n].conversation)
  {
    var e, full, all := exchanges[n], Full(exchanges[n]), Whole(exchanges, n);
    var c := e.conversation;
    var known, next := FirstSeen(exchanges, n, c), VisitMessage(hash, e, cur, full[q], q);
    WholeReplays(exchanges, n);
    WholeSameId(hash, exchanges, n, q);
    if RoleOf(full[q]).Some? {
      SeenWhenReached(hash, exchanges, n, q);
      assert Visited(hash, exchanges, n, q, IdAt(hash, exchanges, n, q)) <==> IdOf(hash, c, full[q]) in cur.st.seen;
    }
    if q < |known| {
      if RoleOf(full[q]).Some? { assert HasId(hash, c, all[..|known|][q], IdOf(hash, c, full[q])); }
      assert next.st.rows == cur.st.rows;
    } else {
      WholePredecessor(hash, exchanges, n, q);
      NewRows(hash, e, q, cur, all[..q]);
      PrefixStep(hash, c, all, q);
      assert Max(|known|, q) == q && Max(|known|, q + 1) == q + 1;
    }
  }

  lemma PrefixStep(hash: Hash, c: string, all: seq<Json>, q: nat)
    requires q < |all|
    ensures Conversation(hash, c, all[..q + 1]) ==
      Conversation(hash, c, all[..q]) + NextParts(hash, c, all[..q], all[q])
  {
    assert all[..q + 1] == all[..q] + [all[q]];
    ConversationSnoc(hash, c, all[..q], all[q]);
  }

  lemma WholePredecessor(hash: Hash, exchanges: seq<Exchange>, n: nat, q: nat)
    requires Grows(exchanges) && n < |exchanges| && exchanges[n].Exchange? && q <= |Full(exchanges[n])|
    ensures |Whole(exchanges, n)| == |Full(exchanges[n])|
    ensures Predecessor(hash, exchanges[n].conversation, Whole(exchanges, n)[..q]) ==
      Predecessor(hash, exchanges[n].conversation, Full(exchanges[n])[..q])
    decreases q
  {
    WholeReplays(exchanges, n);
    if q > 0 {
      WholeSameId(hash, exchanges, n, q - 1);
      WholePredecessor(hash, exchanges, n, q - 1);
      assert Whole(exchanges, n)[..q][..q - 1] == Whole(exchanges, n)[..q - 1];
      assert Full(exchanges[n])[..q][..q - 1] == Full(exchanges[n])[..q - 1];
    }
  }

  /** Beyond what is known: the parts of the message, unless its id occurred before. */
  lemma NewRows(hash: Hash, e: Exchange, q: nat, cur: Cursor, before: seq<Json>)
    requires e.Exchange? && q < |Full(e)| && Ready(cur.st, e) && |before| == q
    requires cur.previous == Predecessor(hash, e.conversation, before)
    requires var m := Full(e)[q];
             RoleOf(m).Some? ==> (IdOf(hash, e.conversation, m) in cur.st.seen <==>
               Occurs(hash, e.conversation, before, IdOf(hash, e.conversation, m)))
    ensures Of(VisitMessage(hash, e, cur, Full(e)[q], q).st.rows, e.conversation) ==
            Of(cur.st.rows, e.conversation) + NextParts(hash, e.conversation, before, Full(e)[q])
  {
    var m, c := Full(e)[q], e.conversation;
    if RoleOf(m).None? || Repeated(hash, c, before, m) {
      assert Of(cur.st.rows, c) + [] == Of(cur.st.rows, c);
    } else {
      var ctx := Context(e, IdOf(hash, c, m), cur.previous, q, cur.st.startedAt[c], cur.st.tools[c]);
      OfAppend(cur.st.rows, ExtractParts(ctx, m, ContentOf(m)), c);
      PartsPlaced(hash, ctx, before, m);
    }
  }

  lemma OtherRows(hash: Hash, e: Exchange, cur: Cursor, q: nat, c: string)
    requires e.Exchange? && q < |Full(e)| && Ready(cur.st, e) && c != e.conversation
    ensures Of(VisitMessage(hash, e, cur, Full(e)[q], q).st.rows, c) == Of(cur.st.rows, c)
  {
    var m := Full(e)[q];
    if RoleOf(m).Some? {
      var ctx := Context(e, IdOf(hash, e.conversation, m), cur.previous, q, cur.st.startedAt[e.conversation],
        cur.st.tools[e.conversation]);
      var rows := ExtractParts(ctx, m, ContentOf(m));
      OfAppend(cur.st.rows, rows, c);
      OfUniform(rows, c);
      assert Of(cur.st.rows, c) + [] == Of(cur.st.rows, c);
    }
  }

  lemma {:induction false} MessagesEmitted(hash: Hash, exchanges: seq<Exchange>, n: nat, q: nat, cur: Cursor)
    requires Grows(exchanges) && SeparateIds(hash, exchanges)
    requires n < |exchanges| && exchanges[n].Exchange? && q <= |Full(exchanges[n])| && Ready(cur.st, exchanges[n])
    requires cur.previous == Predecessor(hash, exchanges[n].conversation, Full(exchanges[n])[..q])
    requires SeenExactly(hash, exchanges, n, q, cur.st.seen) && Emitted(hash, exchanges, n, q, cur.st.rows)
    ensures var next := VisitMessages(hash, exchanges[n], cur, Full(exchanges[n]), q);
            && SeenExactly(hash, exchanges, n, |Full(exchanges[n])|, next.st.seen)
            && Emitted(hash, exchanges, n, |Full(exchanges[n])|, next.st.rows)
    decreases |Full(exchanges[n])| - q
  {
    if q < |Full(exchanges[n])| {
      MessageEmitted(hash, exchanges, n, q, cur);
      MessagesEmitted(hash, exchanges, n, q + 1, VisitMessage(hash, exchanges[n], cur, Full(exchanges[n])[q], q));
    }
  }

  /** Between exchanges. */
  ghost predicate AllEmitted(hash: Hash, exchanges: seq<Exchange>, n: nat, st: State)
    requires n <= |exchanges|
  {
    && SeenExactly(hash, exchanges, n, 0, st.seen)
    && forall c :: Of(st.rows, c) == Conversation(hash, c, FirstSeen(exchanges, n, c))
  }

  lemma EntersEmitted(hash: Hash, exchanges: seq<Exchange>, n: nat, st: State)
    requires Grows(exchanges) && n < |exchanges| && exchanges[n].Exchange? && AllEmitted(hash, exchanges, n, st)
    ensures Emitted(hash, exchanges, n, 0, st.rows)
  {
    var e := exchanges[n];
    forall c ensures EmittedFor(hash, exchanges, n, 0, st.rows, c) {
      var known := FirstSeen(exchanges, n, c);
      assert Of(st.rows, c) == Conversation(hash, c, known);
      if c == e.conversation {
        KnownIsReplayed(exchanges, n);
        assert Whole(exchanges, n)[..|known|] == known;
      }
    }
  }

  lemma LeavesEmitted(hash: Hash, exchanges: seq<Exchange>, n: nat, rows: seq<Row>)
    requires Grows(exchanges) && n < |exchanges| && exchanges[n].Exchange? &&
      Emitted(hash, exchanges, n, |Full(exchanges[n])|, rows)
    ensures forall c :: Of(rows, c) == Conversation(hash, c, FirstSeen(exchanges, n + 1, c))
  {
    WholeReplays(exchanges, n);
    forall c ensures Of(rows, c) == Conversation(hash, c, FirstSeen(exchanges, n + 1, c)) {
      assert EmittedFor(hash, exchanges, n, |Full(exchanges[n])|, rows, c);
      KnownIsReplayed(exchanges, n);
      if c == exchanges[n].conversation { assert Whole(exchanges, n)[..|Full(exchanges[n])|] == Whole(exchanges, n); }
    }
  }

  lemma ExchangeEmitted(hash: Hash, exchanges: seq<Exchange>, n: nat, st: State)
    requires Grows(exchanges) && SeparateIds(hash, exchanges) && n < |exchanges| && AllEmitted(hash, exchanges, n, st)
    ensures AllEmitted(hash, exchanges, n + 1, VisitExchange(hash, st, exchanges[n]))
  {
    var e := exchanges[n];
    var next := VisitExchange(hash, st, e);
    if e.Exchange? {
      EntersEmitted(hash, exchanges, n, st);
      MessagesEmitted(hash, exchanges, n, 0, Cursor(Enter(st, e), None));
      SeenTurn(hash, exchanges, n, |Full(e)|, next.seen);
      LeavesEmitted(hash, exchanges, n, next.rows);
    } else {
      SeenTurn(hash, exchanges, n, 0, next.seen);
    }
  }

  lemma SeenTurn(hash: Hash, exchanges: seq<Exchange>, n: nat, q: nat, seen: map<string, Seen>)
    requires n < |exchanges| && SeenExactly(hash, exchanges, n, q, seen)
    requires exchanges[n].Exchange? ==> q == |Full(exchanges[n])|
    ensures SeenExactly(hash, exchanges, n + 1, 0, seen)
  {
    forall id ensures id in seen <==> Visited(hash, exchanges, n + 1, 0, id) {
      if Visited(hash, exchanges, n, q, id) {
        var i, p :| VisitedAt(hash, exchanges, n, q, id, i, p);
        assert VisitedAt(hash, exchanges, n + 1, 0, id, i, p);
      }
      if Visited(hash, exchanges, n + 1, 0, id) {
        var i, p :| VisitedAt(hash, exchanges, n + 1, 0, id, i, p);
        assert VisitedAt(hash, exchanges, n, q, id, i, p);
      }
    }
  }

  lemma {:induction false} WalkEmitted(hash: Hash, exchanges: seq<Exchange>, n: nat, st: State)
    requires Grows(exchanges) && SeparateIds(hash, exchanges) && n <= |exchanges| && AllEmitted(hash, exchanges, n, st)
    ensures AllEmitted(hash, exchanges, |exchanges|, Walk(hash, st, exchanges[n..]))
    decreases |exchanges| - n
  {
    if n < |exchanges| {
      assert exchanges[n..][1..] == exchanges[n + 1..];
      ExchangeEmitted(hash, exchanges, n, st);
      WalkEmitted(hash, exchanges, n + 1, VisitExchange(hash, st, exchanges[n]));
    }
  }

  /** Conversations interleaved in any way, each exchange replaying its conversation so far: the rows of a conversation
      are the parts of its messages as first seen, in order, each at its position and after its predecessor; a message
      that says what an earlier one of the conversation said is left out. */
  lemma ReplayedOnce(hash: Hash, exchanges: seq<Exchange>, c: string)
    requires Grows(exchanges) && Apart(hash, exchanges)
    ensures Of(Walk(hash, Start(map[]), exchanges).rows, c) ==
      Conversation(hash, c, FirstSeen(exchanges, |exchanges|, c))
  {
    ApartSeparates(hash, exchanges);
    assert exchanges[0..] == exchanges;
    WalkEmitted(hash, exchanges, 0, Start(map[]));
  }

  // ---------- when no message is left out ----------

  /** The parts of all messages of a history. */
  function AllParts(hash: Hash, c: string, history: seq<Json>): seq<Place> {
    if history == [] then []
    else
      var front := history[..|history| - 1];
      AllParts(hash, c, front) + PartsAfter(hash, c, front, history[|history| - 1])
  }

  /** The message at `n` has content, and an earlier one the same id. */
  predicate LosesAt(hash: Hash, c: string, history: seq<Json>, n: int) {
    0 <= n < |history| && Repeated(hash, c, history[..n], history[n]) && ContentOf(history[n]) != []
  }

  predicate LosesNone(hash: Hash, c: string, history: seq<Json>) {
    forall n :: 0 <= n < |history| ==> !LosesAt(hash, c, history, n)
  }

  lemma LosesNoneSnoc(hash: Hash, c: string, front: seq<Json>, m: Json)
    ensures LosesNone(hash, c, front + [m]) <==>
      LosesNone(hash, c, front) && !(Repeated(hash, c, front, m) && ContentOf(m) != [])
  {
    var all := front + [m];
    forall n | 0 <= n < |front| ensures LosesAt(hash, c, all, n) <==> LosesAt(hash, c, front, n) {
      assert all[..n] == front[..n] && all[n] == front[n];
    }
    assert all[..|front|] == front && all[|front|] == m;
    assert LosesAt(hash, c, all, |front|) <==> Repeated(hash, c, front, m) && ContentOf(m) != [];
    if LosesNone(hash, c, all) {
      forall n | 0 <= n < |front| ensures !LosesAt(hash, c, front, n) { assert !LosesAt(hash, c, all, n); }
      assert !LosesAt(hash, c, all, |front|);
    }
    if LosesNone(hash, c, front) && !LosesAt(hash, c, all, |front|) {
      forall n | 0 <= n < |all| ensures !LosesAt(hash, c, all, n) {
        if n < |front| { assert !LosesAt(hash, c, front, n); }
      }
    }
  }

  lemma NextFewer(hash: Hash, c: string, front: seq<Json>, m: Json)
    ensures |NextParts(hash, c, front, m)| <= |PartsAfter(hash, c, front, m)|
    ensures |NextParts(hash, c, front, m)| == |PartsAfter(hash, c, front, m)| <==>
      !(Repeated(hash, c, front, m) && ContentOf(m) != [])
    ensures !(Repeated(hash, c, front, m) && ContentOf(m) != []) ==>
      NextParts(hash, c, front, m) == PartsAfter(hash, c, front, m)
  {
    if RoleOf(m).Some? { PlacesAre(m, ContentOf(m), |ContentOf(m)|, IdOf(hash, c, m),
      Predecessor(hash, c, front), |front|); }
  }

  lemma {:induction false} SamePartsIff(hash: Hash, c: string, history: seq<Json>)
    ensures |Conversation(hash, c, history)| <= |AllParts(hash, c, history)|
    ensures |Conversation(hash, c, history)| == |AllParts(hash, c, history)| ==> LosesNone(hash, c, history)
    ensures LosesNone(hash, c, history) ==> Conversation(hash, c, history) == AllParts(hash, c, history)
    decreases |history|
  {
    if history != [] {
      var front, m := history[..|history| - 1], history[|history| - 1];
      assert history == front + [m];
      SamePartsIff(hash, c, front);
      LosesNoneSnoc(hash, c, front, m);
      NextFewer(hash, c, front, m);
    }
  }

  /** Every message of a conversation is emitted exactly when no message with content has the id of an earlier one:
      ids do not know positions, so saying the same thing twice keeps only the first. */
  lemma NoneLeftOutIff(hash: Hash, exchanges: seq<Exchange>, c: string)
    requires Grows(exchanges) && Apart(hash, exchanges)
    ensures var history := FirstSeen(exchanges, |exchanges|, c);
            Of(Walk(hash, Start(map[]), exchanges).rows, c) == AllParts(hash, c, history) <==>
              LosesNone(hash, c, history)
  {
    ReplayedOnce(hash, exchanges, c);
    SamePartsIff(hash, c, FirstSeen(exchanges, |exchanges|, c));
  }

  /** An exchange that says one thing twice: its parts are emitted once. */
  lemma RepeatIsLost(hash: Hash, c: string, startedAt: string, m: Json, role: string, content: seq<Json>)
    requires Speaks(m, role) && Holds(m, content) && content != []
    ensures var e := Exchange(c, startedAt, [m, m], None);
            var rows := Of(Walk(hash, Start(map[]), [e]).rows, c);
            && FirstSeen([e], 1, c) == [m, m]
            && rows == AllParts(hash, c, [m]) != AllParts(hash, c, [m, m])
  {
    SpeaksIff(m, role);
    HoldsIff(m, content);
    var e := Exchange(c, startedAt, [m, m], None);
    assert Full(e) == [m, m] && [] + [m, m][0..] == [m, m];
    assert FirstSeen([e], 0, c) == [];
    assert FirstSeen([e], 1, c) == [m, m];
    ReplayedOnce(hash, [e], c);
    assert [m, m][..1] == [m] && [m][..0] == [] && [m, m] == [m] + [m];
    ConversationSnoc(hash, c, [m], m);
    assert HasId(hash, c, [m][0], IdOf(hash, c, m));
    assert Repeated(hash, c, [m], m);
    assert !Repeated(hash, c, [], m);
    ConversationSnoc(hash, c, [], m);
    assert [] + [m] == [m];
    assert Conversation(hash, c, [m]) + [] == Conversation(hash, c, [m]);
    PlacesAre(m, ContentOf(m), |ContentOf(m)|, IdOf(hash, c, m), Predecessor(hash, c, [m]), 1);
    assert AllParts(hash, c, [m, m]) == AllParts(hash, c, [m]) + PartsAfter(hash, c, [m], m);
    assert AllParts(hash, c, [m]) == AllParts(hash, c, []) + PartsAfter(hash, c, [], m);
  }
}
