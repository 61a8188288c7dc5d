/**
 Server-sent events, after src/sse.js: an incremental parser over a text buffer.
 */
module Sse {
  import opened Wrappers
  import opened Text

  datatype Event = Event(event: string, data: string, id: Option<string>)

  datatype Separator = Separator(idx: nat, len: nat)

  predicate LfLf(s: string, k: int) {
    0 <= k && k + 2 <= |s| && s[k] == '\n' && s[k + 1] == '\n'
  }

  predicate CrLfCrLf(s: string, k: int) {
    0 <= k && k + 4 <= |s| && s[k] == '\r' && s[k + 1] == '\n' && s[k + 2] == '\r' && s[k + 3] == '\n'
  }

  /** The first blank line at or after `from`, as LF LF or CR LF CR LF. */
  function FirstSeparator(s: string, from: nat): (sep: Option<Separator>)
    ensures sep.Some? ==> from <= sep.value.idx && sep.value.len > 0 && sep.value.idx + sep.value.len <= |s|
    decreases |s| - from
  {
    if from >= |s| then None
    else if LfLf(s, from) then Some(Separator(from, 2))
    else if CrLfCrLf(s, from) then Some(Separator(from, 4))
    else FirstSeparator(s, from + 1)
  }

  lemma {:induction false} FirstSeparatorIs(s: string, from: nat, k: nat)
    requires from <= k && (LfLf(s, k) || CrLfCrLf(s, k))
    requires forall j :: from <= j < k ==> !LfLf(s, j) && !CrLfCrLf(s, j)
    ensures FirstSeparator(s, from) == Some(Separator(k, if s[k] == '\n' then 2 else 4))
    decreases k - from
  {
    if from < k { FirstSeparatorIs(s, from + 1, k); }
  }

  lemma {:induction false} NoSeparator(s: string, from: nat)
    requires forall j :: from <= j ==> !LfLf(s, j) && !CrLfCrLf(s, j)
    ensures FirstSeparator(s, from) == None
    decreases |s| - from
  {
    if from < |s| { NoSeparator(s, from + 1); }
  }

  /** Two independent searches; the smaller offset wins. */
  method FindSeparator(buf: string) returns (sep: Option<Separator>)
    ensures sep == FirstSeparator(buf, 0)
  {
    var a := IndexOf(buf, "\n\n", 0);
    var b := IndexOf(buf, "\r\n\r\n", 0);
    IndexOfFirst(buf, "\n\n", 0);
    IndexOfFirst(buf, "\r\n\r\n", 0);
    OccursAsChars(buf);
    if a == -1 && b == -1 {
      NoSeparator(buf, 0);
      return None;
    }
    FirstSeparatorIs(buf, 0, if a == -1 || (b != -1 && b <= a) then b else a);
    if a == -1 { return Some(Separator(b, 4)); }
    if b == -1 { return Some(Separator(a, 2)); }
    if a < b { return Some(Separator(a, 2)); }
    return Some(Separator(b, 4));
  }

  lemma OccursAsChars(s: string)
    ensures forall k :: OccursAt(s, "\n\n", k) == LfLf(s, k)
    ensures forall k :: OccursAt(s, "\r\n\r\n", k) == CrLfCrLf(s, k)
  {
    forall k ensures OccursAt(s, "\n\n", k) == LfLf(s, k) {
      if 0 <= k && k + 2 <= |s| { assert s[k..k + 2] == [s[k], s[k + 1]]; }
    }
    forall k ensures OccursAt(s, "\r\n\r\n", k) == CrLfCrLf(s, k) {
      if 0 <= k && k + 4 <= |s| { assert s[k..k + 4] == [s[k], s[k + 1], s[k + 2], s[k + 3]]; }
    }
  }

  /** `block.split(/\r?\n/)` */
  function SplitLines(block: string): (lines: seq<string>)
    ensures |lines| >= 1
  {
    if '\n' !in block then [block]
    else
      var i := IndexOfChar(block, '\n');
      [DropCr(block[..i])] + SplitLines(block[i + 1..])
  }

  function DropCr(s: string): string {
    if s != "" && s[|s| - 1] == '\r' then s[..|s| - 1] else s
  }

  /** The local variables of the field loop. */
  datatype Fields = Fields(event: string, data: string, id: Option<string>, hasField: bool)

  function ParseLine(f: Fields, line: string): Fields {
    if line == "" || line[0] == ':' then f
    else
      var colon := IndexOf(line, ":", 0);
      var field := if colon == -1 then line else line[..colon];
      var raw := if colon == -1 then "" else line[colon + 1..];
      var value := if StartsWith(raw, " ") then raw[1..] else raw;
      if field == "event" then f.(event := value, hasField := true)
      else if field == "data" then f.(data := if f.data == "" then value else f.data + "\n" + value, hasField := true)
      else if field == "id" then f.(id := Some(value), hasField := true)
      else if field == "retry" then f.(hasField := true)
      else f
  }

  const NO_FIELDS := Fields("message", "", None, false)

  function ParseLines(f: Fields, lines: seq<string>): Fields
    decreases |lines|
  {
    if lines == [] then f else ParseLines(ParseLine(f, lines[0]), lines[1..])
  }

  /** The event of one block, as a one-element list, or no event when no field was seen. */
  function ParseBlock(block: string): seq<Event> {
    var f := ParseLines(NO_FIELDS, SplitLines(block));
    if f.hasField then [Event(f.event, f.data, f.id)] else []
  }

  datatype Pieces = Pieces(blocks: seq<string>, rest: string)

  /** Cutting a buffer at blank lines until none is left. */
  function Cut(buf: string): Pieces
    decreases |buf|
  {
    match FirstSeparator(buf, 0)
    case None => Pieces([], buf)
    case Some(sep) =>
      var p := Cut(buf[sep.idx + sep.len..]);
      Pieces([buf[..sep.idx]] + p.blocks, p.rest)
  }

  /** The events of a list of blocks, in order. */
  function Events(blocks: seq<string>): seq<Event> {
    if blocks == [] then [] else ParseBlock(blocks[0]) + Events(blocks[1..])
  }

  method ParseBlockLoop(block: string) returns (ev: seq<Event>)
    ensures ev == ParseBlock(block)
  {
    var event, data, id, hasField := "message", "", None, false;
    var lines := SplitLines(block);
    for i := 0 to |lines|
      invariant ParseLines(Fields(event, data, id, hasField), lines[i..]) == ParseLines(NO_FIELDS, lines)
    {
      var line := lines[i];
      assert lines[i..][1..] == lines[i + 1..];
      if line == "" || StartsWith(line, ":") { continue; }
      var colon := IndexOf(line, ":", 0);
      var field := if colon == -1 then line else line[..colon];
      var value := if colon == -1 then "" else line[colon + 1..];
      if StartsWith(value, " ") { value := value[1..]; }
      if field == "event" {
        event, hasField := value, true;
      } else if field == "data" {
        data, hasField := if data == "" then value else data + "\n" + value, true;
      } else if field == "id" {
        id, hasField := Some(value), true;
      } else if field == "retry" {
        hasField := true;
      }
    }
    ev := if hasField then [Event(event, data, id)] else [];
  }

  class SseParser {
    var buffer: string

    constructor ()
      ensures buffer == ""
    {
      buffer := "";
    }

    /** Events completed by this chunk; the unfinished tail stays in the buffer. */
    method Feed(chunk: string) returns (events: seq<Event>)
      modifies this
      ensures events == Events(Cut(old(buffer) + chunk).blocks)
      ensures buffer == Cut(old(buffer) + chunk).rest
    {
      buffer := buffer + chunk;
      events := [];
      ghost var done: seq<string> := [];
      while true
        invariant events == Events(done)
        invariant Cut(old(buffer) + chunk) == Pieces(done + Cut(buffer).blocks, Cut(buffer).rest)
        decreases |buffer|
      {
        var sep := FindSeparator(buffer);
        if sep.None? {
          assert done + [] == done;
          break;
        }
        var block := buffer[..sep.value.idx];
        FeedTurn(done, buffer, sep.value);
        buffer := buffer[sep.value.idx + sep.value.len..];
        var ev := ParseBlockLoop(block);
        EventsSnoc(done, block);
        events, done := events + ev, done + [block];
      }
    }
  }

  // ---------- chunk independence ----------

  /** A blank line found in a prefix stays the first one after any extension. */
  lemma {:induction false} SeparatorStable(a: string, b: string, from: nat)
    requires FirstSeparator(a, from).Some?
    ensures FirstSeparator(a + b, from) == FirstSeparator(a, from)
    decreases |a| - from
  {
    if !LfLf(a, from) && !CrLfCrLf(a, from) {
      SeparatorStable(a, b, from + 1);
    }
  }

  lemma {:induction false} EventsAppend(a: seq<string>, b: seq<string>)
    ensures Events(a + b) == Events(a) + Events(b)
    decreases |a|
  {
    if a == [] {
      assert a + b == b;
    } else {
      EventsAppend(a[1..], b);
      assert (a + b)[0] == a[0] && (a + b)[1..] == a[1..] + b;
      Assoc(ParseBlock(a[0]), Events(a[1..]), Events(b));
    }
  }

  lemma EventsSnoc(blocks: seq<string>, block: string)
    ensures Events(blocks + [block]) == Events(blocks) + ParseBlock(block)
  {
    EventsAppend(blocks, [block]);
    assert [block][1..] == [] && ParseBlock(block) + [] == ParseBlock(block);
  }

  lemma CutStep(s: string, sep: Separator)
    requires FirstSeparator(s, 0) == Some(sep)
    ensures Cut(s).blocks == [s[..sep.idx]] + Cut(s[sep.idx + sep.len..]).blocks
    ensures Cut(s).rest == Cut(s[sep.idx + sep.len..]).rest
  {
  }

  /** One turn of the feeding loop. */
  lemma FeedTurn(done: seq<string>, buf: string, sep: Separator)
    requires FirstSeparator(buf, 0) == Some(sep)
    ensures var tail := buf[sep.idx + sep.len..];
            Pieces(done + Cut(buf).blocks, Cut(buf).rest) ==
              Pieces(done + [buf[..sep.idx]] + Cut(tail).blocks, Cut(tail).rest)
  {
    CutStep(buf, sep);
    Assoc(done, [buf[..sep.idx]], Cut(buf[sep.idx + sep.len..]).blocks);
  }

  lemma CutStepAppend(a: string, b: string, sep: Separator)
    requires FirstSeparator(a, 0) == Some(sep)
    ensures Cut(a + b).blocks == [a[..sep.idx]] + Cut(a[sep.idx + sep.len..] + b).blocks
    ensures Cut(a + b).rest == Cut(a[sep.idx + sep.len..] + b).rest
  {
    SeparatorStable(a, b, 0);
    CutStep(a + b, sep);
    assert (a + b)[..sep.idx] == a[..sep.idx] && (a + b)[sep.idx + sep.len..] == a[sep.idx + sep.len..] + b;
  }

  /** Cutting a + b is cutting a, then cutting what a left over followed by b. */
  lemma {:induction false} CutAppend(a: string, b: string)
    ensures Cut(a + b).blocks == Cut(a).blocks + Cut(Cut(a).rest + b).blocks
    ensures Cut(a + b).rest == Cut(Cut(a).rest + b).rest
    decreases |a|
  {
    if FirstSeparator(a, 0).Some? {
      var sep := FirstSeparator(a, 0).value;
      var block, tail := a[..sep.idx], a[sep.idx + sep.len..];
      CutStep(a, sep);
      CutStepAppend(a, b, sep);
      CutAppend(tail, b);
      var more := Cut(Cut(tail).rest + b);
      assert Cut(a + b).blocks == [block] + (Cut(tail).blocks + more.blocks);
      Assoc([block], Cut(tail).blocks, more.blocks);
    }
  }

  datatype Fed = Fed(events: seq<Event>, buffer: string)

  /** What a parser holding `buf` returns and keeps when fed `chunks` one by one. */
  function FeedAll(buf: string, chunks: seq<string>): Fed
    decreases |chunks|
  {
    if chunks == [] then Fed([], buf)
    else
      var p := Cut(buf + chunks[0]);
      var others := FeedAll(p.rest, chunks[1..]);
      Fed(Events(p.blocks) + others.events, others.buffer)
  }

  lemma {:induction false} CutLeavesNoSeparator(buf: string)
    ensures Cut(Cut(buf).rest) == Pieces([], Cut(buf).rest)
    decreases |buf|
  {
    if FirstSeparator(buf, 0).Some? {
      var sep := FirstSeparator(buf, 0).value;
      CutLeavesNoSeparator(buf[sep.idx + sep.len..]);
    }
  }

  /** However a text is cut into chunks, the events and the final buffer are those of one feed. */
  lemma {:induction false} ChunkIndependence(buf: string, chunks: seq<string>)
    requires FirstSeparator(buf, 0).None?
    ensures FeedAll(buf, chunks) == FeedAll(buf, [Concat(chunks)])
    decreases |chunks|
  {
    var whole := Cut(buf + Concat(chunks));
    assert FeedAll(buf, [Concat(chunks)]) == Fed(Events(whole.blocks), whole.rest) by {
      assert [Concat(chunks)][1..] == [];
      assert Events(whole.blocks) + [] == Events(whole.blocks);
    }
    if chunks == [] {
      assert buf + "" == buf;
    } else {
      var p := Cut(buf + chunks[0]);
      CutLeavesNoSeparator(buf + chunks[0]);
      ChunkIndependence(p.rest, chunks[1..]);
      var others := Cut(p.rest + Concat(chunks[1..]));
      CutAppend(buf + chunks[0], Concat(chunks[1..]));
      Assoc(buf, chunks[0], Concat(chunks[1..]));
      EventsAppend(p.blocks, others.blocks);
      assert [Concat(chunks[1..])][1..] == [];
      assert Events(others.blocks) + [] == Events(others.blocks);
    }
  }

  // ---------- round trip with a writer of the same grammar ----------

  /** A value that survives being written on a line of its own: no LF inside, no CR at its end. */
  predicate Plain(s: string) {
    '\n' !in s && DropCr(s) == s
  }

  /** Events the grammar can carry: data starting with LF loses it, and a CR before a line end is dropped, though not
      before the blank line that ends the event. */
  predicate Writable(e: Event) {
    && Plain(e.event)
    && (e.id.Some? ==> Plain(e.id.value))
    && (e.data != "" ==> e.data[0] != '\n')
    && var parts := SplitChar(e.data, '\n');
       forall k :: 0 <= k < |parts| - 1 ==> Plain(parts[k])
  }

  function FieldLine(name: string, value: string): string {
    name + ": " + value
  }

  function DataLines(parts: seq<string>): seq<string> {
    if parts == [] then [] else [FieldLine("data", parts[0])] + DataLines(parts[1..])
  }

  /** The lines before the data. */
  function HeadLines(event: string, id: Option<string>): seq<string> {
    [FieldLine("event", event)] + if id.Some? then [FieldLine("id", id.value)] else []
  }

  function EventLines(e: Event): seq<string> {
    HeadLines(e.event, e.id) + DataLines(SplitChar(e.data, '\n'))
  }

  /** Field lines, then a blank line. */
  function Serialize(e: Event): string {
    Join(EventLines(e), "\n") + "\n\n"
  }

  function SerializeAll(es: seq<Event>): string {
    if es == [] then "" else Serialize(es[0]) + SerializeAll(es[1..])
  }

  // ---------- the text as lines ----------

  predicate IsLine(l: string) {
    l != "" && l[0] != '\r' && '\n' !in l
  }

  predicate AllLines(lines: seq<string>) {
    forall k :: 0 <= k < |lines| ==> IsLine(lines[k])
  }

  /** No blank line inside: after an LF neither LF nor CR, and none at the edges. */
  predicate Solid(block: string) {
    && block != "" && block[0] != '\n' && block[0] != '\r' && block[|block| - 1] != '\n'
    && forall k :: 0 <= k < |block| - 1 && block[k] == '\n' ==> block[k + 1] != '\n' && block[k + 1] != '\r'
  }

  /** What splitting makes of lines: a CR at the end of a line is dropped, except on the last one. */
  function Dropped(lines: seq<string>): seq<string> {
    if |lines| <= 1 then lines else [DropCr(lines[0])] + Dropped(lines[1..])
  }

  lemma SolidAppend(first: string, tail: string)
    requires IsLine(first) && Solid(tail)
    ensures Solid(first + "\n" + tail)
  {
    var s, n := first + "\n" + tail, |first|;
    assert forall k :: 0 <= k < n ==> s[k] == first[k] && s[k] != '\n';
    assert s[n] == '\n';
    assert forall k :: 0 <= k < |tail| ==> s[n + 1 + k] == tail[k];
    forall k | n < k < |s| - 1 && s[k] == '\n' ensures s[k + 1] != '\n' && s[k + 1] != '\r' {
      assert tail[k - n - 1] == '\n' && s[k + 1] == tail[k - n];
    }
  }

  lemma SplitFirst(first: string, tail: string)
    requires '\n' !in first
    ensures SplitLines(first + "\n" + tail) == [DropCr(first)] + SplitLines(tail)
  {
    var s := first + "\n" + tail;
    IndexOfCharUnique(first, '\n', tail);
    assert s[..|first|] == first && s[|first| + 1..] == tail;
  }

  lemma {:induction false} JoinSolid(lines: seq<string>)
    requires lines != [] && AllLines(lines)
    ensures Solid(Join(lines, "\n")) && SplitLines(Join(lines, "\n")) == Dropped(lines)
    decreases |lines|
  {
    var first := lines[0];
    assert IsLine(first);
    if |lines| == 1 {
      assert lines == [first];
      assert first[|first| - 1] in first;
    } else {
      JoinSolid(lines[1..]);
      var tail := Join(lines[1..], "\n");
      SolidAppend(first, tail);
      SplitFirst(first, tail);
    }
  }

  lemma {:induction false} DataLinesAll(parts: seq<string>)
    requires forall k :: 0 <= k < |parts| ==> '\n' !in parts[k]
    ensures |DataLines(parts)| == |parts| && AllLines(DataLines(parts))
    ensures Dropped(DataLines(parts)) == DataLines(Dropped(parts))
    decreases |parts|
  {
    if parts != [] {
      DataLinesAll(parts[1..]);
      LineOf("data", parts[0]);
      assert DataLines(parts)[1..] == DataLines(parts[1..]);
    }
  }

  lemma LineOf(name: string, value: string)
    requires IsLine(name) && '\n' !in value
    ensures IsLine(FieldLine(name, value)) && DropCr(FieldLine(name, value)) == FieldLine(name, DropCr(value))
  {
    var line := FieldLine(name, value);
    assert line[0] == name[0];
    if value != "" {
      assert line[|line| - 1] == value[|value| - 1];
      assert line[..|line| - 1] == FieldLine(name, value[..|value| - 1]);
    }
  }

  lemma {:induction false} DroppedAppend(a: seq<string>, b: seq<string>, a': seq<string>)
    requires b != [] && |a| == |a'| && forall k :: 0 <= k < |a| ==> a'[k] == DropCr(a[k])
    ensures Dropped(a + b) == a' + Dropped(b)
    decreases |a|
  {
    if a == [] {
      assert a + b == b && a' + Dropped(b) == Dropped(b);
    } else {
      assert (a + b)[1..] == a[1..] + b && (a + b)[0] == a[0];
      DroppedAppend(a[1..], b, a'[1..]);
      assert a' == [a'[0]] + a'[1..];
    }
  }

  function DropId(id: Option<string>): Option<string> {
    if id.Some? then Some(DropCr(id.value)) else None
  }

  /** No LF where the grammar has none. */
  predicate LfFree(e: Event) {
    '\n' !in e.event && (e.id.Some? ==> '\n' !in e.id.value)
  }

  lemma EventLinesAll(e: Event)
    requires LfFree(e)
    ensures EventLines(e) != [] && AllLines(EventLines(e))
    ensures Dropped(EventLines(e)) ==
      HeadLines(DropCr(e.event), DropId(e.id)) + DataLines(Dropped(SplitChar(e.data, '\n')))
  {
    var parts := SplitChar(e.data, '\n');
    LineOf("event", e.event);
    if e.id.Some? { LineOf("id", e.id.value); }
    DataLinesAll(parts);
    DroppedAppend(HeadLines(e.event, e.id), DataLines(parts), HeadLines(DropCr(e.event), DropId(e.id)));
  }

  // ---------- the lines as fields ----------

  /** A written field line sets exactly that field. */
  lemma ParseFieldLine(f: Fields, name: string, value: string)
    requires name in ["event", "data", "id"]
    ensures ParseLine(f, FieldLine(name, value)) ==
            if name == "event" then f.(event := value, hasField := true)
            else if name == "data" then f.(data := if f.data == "" then value
              else f.data + "\n" + value, hasField := true)
            else f.(id := Some(value), hasField := true)
  {
    var line := name + ": " + value;
    IndexOfFirst(line, ":", 0);
    assert line[|name|] == ':';
    assert OccursAt(line, ":", |name|);
    forall k | 0 <= k < |name| ensures !OccursAt(line, ":", k) {
      assert line[k] == name[k] && line[k..k + 1] == [line[k]];
    }
    assert line[..|name|] == name;
    assert line[|name| + 1..] == " " + value;
    assert (" " + value)[1..] == value;
  }

  lemma {:induction false} ParseLinesAppend(f: Fields, a: seq<string>, b: seq<string>)
    ensures ParseLines(f, a + b) == ParseLines(ParseLines(f, a), b)
    decreases |a|
  {
    if a == [] {
      assert a + b == b;
    } else {
      assert (a + b)[1..] == a[1..] + b;
      ParseLinesAppend(ParseLine(f, a[0]), a[1..], b);
    }
  }

  /** Data lines collect with LF between them, leading empty ones leaving no trace. */
  function Collected(data: string, parts: seq<string>): string
    decreases |parts|
  {
    if parts == [] then data else Collected(if data == "" then parts[0] else data + "\n" + parts[0], parts[1..])
  }

  lemma {:induction false} ParseData(f: Fields, parts: seq<string>)
    requires f.hasField
    ensures ParseLines(f, DataLines(parts)) == f.(data := Collected(f.data, parts))
    decreases |parts|
  {
    if parts != [] {
      ParseFieldLine(f, "data", parts[0]);
      assert DataLines(parts)[0] == FieldLine("data", parts[0]) && DataLines(parts)[1..] == DataLines(parts[1..]);
      ParseData(ParseLine(f, DataLines(parts)[0]), parts[1..]);
    }
  }

  lemma ParseHead(event: string, id: Option<string>)
    ensures ParseLines(NO_FIELDS, HeadLines(event, id)) == Fields(event, "", id, true)
  {
    var first := [FieldLine("event", event)];
    var f := Fields(event, "", None, true);
    ParseFieldLine(NO_FIELDS, "event", event);
    assert first[1..] == [];
    assert ParseLines(NO_FIELDS, first) == f;
    if id.Some? {
      ParseLinesAppend(NO_FIELDS, first, [FieldLine("id", id.value)]);
      ParseFieldLine(f, "id", id.value);
      assert [FieldLine("id", id.value)][1..] == [];
    } else {
      assert first + [] == first;
    }
  }

  /** What comes back of a written event. */
  function Tidied(e: Event): Event {
    Event(DropCr(e.event), Collected("", Dropped(SplitChar(e.data, '\n'))), DropId(e.id))
  }

  lemma ParseWritten(e: Event)
    requires LfFree(e)
    ensures Solid(Join(EventLines(e), "\n")) && ParseBlock(Join(EventLines(e), "\n")) == [Tidied(e)]
  {
    var parts := Dropped(SplitChar(e.data, '\n'));
    EventLinesAll(e);
    JoinSolid(EventLines(e));
    ParseHead(DropCr(e.event), DropId(e.id));
    ParseLinesAppend(NO_FIELDS, HeadLines(DropCr(e.event), DropId(e.id)), DataLines(parts));
    ParseData(Fields(DropCr(e.event), "", DropId(e.id), true), parts);
  }

  // ---------- written events, cut and parsed ----------

  lemma SerializedSeparator(block: string, rest: string)
    requires Solid(block)
    ensures FirstSeparator(block + "\n\n" + rest, 0) == Some(Separator(|block|, 2))
  {
    var s := block + "\n\n" + rest;
    assert s[|block|] == '\n' && s[|block| + 1] == '\n';
    assert forall j :: 0 <= j < |block| ==> s[j] == block[j];
    forall j | 0 <= j < |block| ensures !LfLf(s, j) && !CrLfCrLf(s, j) {
      if j + 1 < |block| {
        assert s[j + 1] == block[j + 1];
        if j + 2 < |block| { assert s[j + 2] == block[j + 2]; }
      }
    }
    FirstSeparatorIs(s, 0, |block|);
  }

  lemma EventsCons(block: string, blocks: seq<string>)
    ensures Events([block] + blocks) == ParseBlock(block) + Events(blocks)
  {
    assert ([block] + blocks)[1..] == blocks;
  }

  function TidiedAll(es: seq<Event>): seq<Event> {
    if es == [] then [] else [Tidied(es[0])] + TidiedAll(es[1..])
  }

  /** Writing events and cutting the text again gives one block per event and nothing left over. */
  lemma {:induction false} CutSerialized(es: seq<Event>)
    requires forall k :: 0 <= k < |es| ==> LfFree(es[k])
    ensures Events(Cut(SerializeAll(es)).blocks) == TidiedAll(es) && Cut(SerializeAll(es)).rest == ""
    decreases |es|
  {
    if es != [] {
      ParseWritten(es[0]);
      var block, rest := Join(EventLines(es[0]), "\n"), SerializeAll(es[1..]);
      var s := block + "\n\n" + rest;
      SerializedSeparator(block, rest);
      CutStep(s, Separator(|block|, 2));
      assert s[..|block|] == block && s[|block| + 2..] == rest;
      CutSerialized(es[1..]);
      EventsCons(block, Cut(rest).blocks);
    }
  }

  // ---------- which events come back unchanged ----------

  /** What every parsed event has. */
  predicate Parsed(e: Event) {
    LfFree(e) && (e.data != "" ==> e.data[0] != '\n')
  }

  predicate ParsedFields(f: Fields) {
    Parsed(Event(f.event, f.data, f.id))
  }

  lemma SliceFree(s: string, i: nat, j: nat)
    requires i <= j <= |s| && '\n' !in s
    ensures '\n' !in s[i..j]
  {
  }

  lemma ValueParsed(f: Fields, value: string)
    requires ParsedFields(f) && '\n' !in value
    ensures ParsedFields(f.(data := if f.data == "" then value else f.data + "\n" + value, hasField := true))
  {
    if f.data == "" {
      assert value != "" ==> value[0] in value;
    } else {
      assert (f.data + "\n" + value)[0] == f.data[0];
    }
  }

  lemma LineParsed(f: Fields, line: string)
    requires ParsedFields(f) && '\n' !in line
    ensures ParsedFields(ParseLine(f, line))
  {
    if line != "" && line[0] != ':' {
      var colon := IndexOf(line, ":", 0);
      var raw := if colon == -1 then "" else line[colon + 1..];
      if colon != -1 { SliceFree(line, colon + 1, |line|); }
      if StartsWith(raw, " ") { SliceFree(raw, 1, |raw|); }
      ValueParsed(f, if StartsWith(raw, " ") then raw[1..] else raw);
    }
  }

  lemma {:induction false} LinesParsed(f: Fields, lines: seq<string>)
    requires ParsedFields(f) && forall k :: 0 <= k < |lines| ==> '\n' !in lines[k]
    ensures ParsedFields(ParseLines(f, lines))
    decreases |lines|
  {
    if lines != [] {
      LineParsed(f, lines[0]);
      LinesParsed(ParseLine(f, lines[0]), lines[1..]);
    }
  }

  lemma {:induction false} SplitLinesLfFree(block: string)
    ensures forall k :: 0 <= k < |SplitLines(block)| ==> '\n' !in SplitLines(block)[k]
    decreases |block|
  {
    if '\n' in block { SplitLinesLfFree(block[IndexOfChar(block, '\n') + 1..]); }
  }

  lemma {:induction false} EventsParsed(blocks: seq<string>)
    ensures forall k :: 0 <= k < |Events(blocks)| ==> Parsed(Events(blocks)[k])
  {
    if blocks != [] {
      EventsParsed(blocks[1..]);
      SplitLinesLfFree(blocks[0]);
      LinesParsed(NO_FIELDS, SplitLines(blocks[0]));
    }
  }

  function DropEmpty(parts: seq<string>): seq<string> {
    if parts != [] && parts[0] == "" then DropEmpty(parts[1..]) else parts
  }

  lemma {:induction false} CollectedTail(data: string, parts: seq<string>)
    requires data != ""
    ensures Collected(data, parts) == if parts == [] then data else data + "\n" + Join(parts, "\n")
    decreases |parts|
  {
    if parts != [] {
      CollectedTail(data + "\n" + parts[0], parts[1..]);
      if |parts| > 1 {
        var tail := Join(parts[1..], "\n");
        assert data + "\n" + parts[0] + "\n" + tail == data + "\n" + (parts[0] + "\n" + tail);
      }
    }
  }

  lemma {:induction false} CollectedIsJoin(parts: seq<string>)
    ensures Collected("", parts) == Join(DropEmpty(parts), "\n") && |DropEmpty(parts)| <= |parts|
    ensures (forall k :: 0 <= k < |parts| ==> '\n' !in parts[k]) ==> forall k :: 0 <= k < |DropEmpty(parts)| ==>
      '\n' !in DropEmpty(parts)[k]
    ensures |DropEmpty(parts)| == |parts| ==> DropEmpty(parts) == parts
    decreases |parts|
  {
    if parts != [] {
      if parts[0] == "" {
        CollectedIsJoin(parts[1..]);
      } else {
        CollectedTail(parts[0], parts[1..]);
      }
    }
  }

  lemma {:induction false} DroppedParts(parts: seq<string>)
    ensures |Dropped(parts)| == |parts|
    ensures forall k :: 0 <= k < |parts| ==> Dropped(parts)[k] == if k < |parts| - 1 then DropCr(parts[k]) else parts[k]
    decreases |parts|
  {
    if |parts| > 1 { DroppedParts(parts[1..]); }
  }

  /** The data comes back exactly when no line of it but the last ends with a CR. */
  lemma DataComesBackIff(data: string)
    requires data != "" ==> data[0] != '\n'
    ensures var parts := SplitChar(data, '\n');
            Collected("", Dropped(parts)) == data <==> forall k :: 0 <= k < |parts| - 1 ==> Plain(parts[k])
  {
    var parts := SplitChar(data, '\n');
    JoinSplit(data, '\n');
    DroppedParts(parts);
    PartsLfFree(data);
    CollectedIsJoin(Dropped(parts));
    if forall k :: 0 <= k < |parts| - 1 ==> Plain(parts[k]) {
      assert Dropped(parts) == parts;
      FirstPart(data);
    }
    if Collected("", Dropped(parts)) == data && DropEmpty(Dropped(parts)) != [] {
      KeptAreParts(DropEmpty(Dropped(parts)), parts, data);
      assert Dropped(parts) == parts;
    }
  }

  lemma PartsLfFree(data: string)
    ensures var parts := SplitChar(data, '\n');
            |Dropped(parts)| == |parts| && forall k :: 0 <= k < |parts| ==>
              '\n' !in parts[k] && '\n' !in Dropped(parts)[k]
  {
    var parts := SplitChar(data, '\n');
    DroppedParts(parts);
    forall k | 0 <= k < |parts| ensures '\n' !in parts[k] && '\n' !in DropCr(parts[k]) {
      assert parts[k] in parts;
    }
  }

  lemma KeptAreParts(kept: seq<string>, parts: seq<string>, data: string)
    requires kept != [] && Join(kept, "\n") == data && parts == SplitChar(data, '\n')
    requires forall k :: 0 <= k < |kept| ==> '\n' !in kept[k]
    ensures kept == parts
  {
    SplitJoin(kept, '\n');
  }

  lemma EmptyFirst(parts: seq<string>, data: string)
    requires parts != [] && parts[0] == "" && Join(parts, "\n") == data && (data != "" ==> data[0] != '\n')
    ensures |parts| == 1
  {
    if |parts| > 1 { EmptyStart(parts); }
  }

  lemma EmptyStart(parts: seq<string>)
    requires |parts| > 1 && parts[0] == ""
    ensures Join(parts, "\n") != "" && Join(parts, "\n")[0] == '\n'
  {
  }

  lemma FirstPart(data: string)
    requires data != "" ==> data[0] != '\n'
    ensures var parts := SplitChar(data, '\n'); Join(DropEmpty(parts), "\n") == data
  {
    var parts := SplitChar(data, '\n');
    JoinSplit(data, '\n');
    if parts[0] == "" {
      EmptyFirst(parts, data);
      assert parts == [""];
      assert parts[1..] == [];
    }
  }

  lemma TidiedIff(e: Event)
    requires Parsed(e)
    ensures Tidied(e) == e <==> Writable(e)
  {
    DataComesBackIff(e.data);
  }

  lemma {:induction false} TidiedAllIff(es: seq<Event>)
    requires forall k :: 0 <= k < |es| ==> Parsed(es[k])
    ensures TidiedAll(es) == es <==> forall k :: 0 <= k < |es| ==> Writable(es[k])
    decreases |es|
  {
    if es != [] {
      TidiedIff(es[0]);
      TidiedAllIff(es[1..]);
      assert es == [es[0]] + es[1..];
      assert (TidiedAll(es) == es) <==> (Tidied(es[0]) == es[0] && TidiedAll(es[1..]) == es[1..]) by {
        assert TidiedAll(es)[0] == Tidied(es[0]) && TidiedAll(es)[1..] == TidiedAll(es[1..]);
      }
      assert (forall k :: 0 <= k < |es| ==> Writable(es[k])) <==> Writable(es[0]) && forall k :: 0 <= k < |es[1..]| ==>
        Writable(es[1..][k]) by {
        assert forall k :: 0 < k < |es| ==> es[k] == es[1..][k - 1];
      }
    }
  }

  /** Written events come back whole, whatever chunks the text arrives in, exactly when the grammar can carry each. */
  lemma RoundTripIff(es: seq<Event>, chunks: seq<string>)
    requires Concat(chunks) == SerializeAll(es)
    ensures FeedAll("", chunks) == Fed(es, "") <==> forall k :: 0 <= k < |es| ==> Writable(es[k])
  {
    ChunkIndependence("", chunks);
    FeedWhole(SerializeAll(es));
    EventsParsed(Cut(SerializeAll(es)).blocks);
    if (forall k :: 0 <= k < |es| ==> Parsed(es[k])) {
      CutSerialized(es);
      TidiedAllIff(es);
    }
  }

  lemma FeedWhole(text: string)
    ensures FeedAll("", [text]) == Fed(Events(Cut(text).blocks), Cut(text).rest)
  {
    assert "" + text == text && [text][1..] == [];
    assert Events(Cut(text).blocks) + [] == Events(Cut(text).blocks);
  }
}
