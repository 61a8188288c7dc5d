/**
 The event streams that a server may send, line by line, and what the parser of src/sse.js makes of each: fields with or
 without a space or a value, comments, unknown names, and either kind of line end.
 */
module SseGrammar {
  import opened Wrappers
  import opened Text
  import opened Sse

  datatype End = Lf | CrLf

  function EndText(e: End): string {
    if e.Lf? then "\n" else "\r\n"
  }

  datatype Line = Comment(text: string) | Set(name: string, value: string, spaced: bool) | Bare(name: string)

  function LineText(l: Line): string {
    match l
    case Comment(text) => ":" + text
    case Set(name, value, spaced) => name + (if spaced then ": " else ":") + value
    case Bare(name) => name
  }

  /** A text that can stand on a line of its own. */
  predicate Tidy(s: string) {
    s != "" && '\n' !in s && s[|s| - 1] != '\r'
  }

  predicate Legal(l: Line) {
    && Tidy(LineText(l))
    && (!l.Comment? ==> l.name != "" && ':' !in l.name)
    && (l.Set? && !l.spaced ==> l.value == "" || l.value[0] != ' ')
  }

  /** Lines, each with the end that separates it from the next. */
  datatype Block = Block(lines: seq<Line>, ends: nat -> End, blank: End)

  predicate LegalBlock(b: Block) {
    forall k :: 0 <= k < |b.lines| ==> Legal(b.lines[k])
  }

  /** The lines from the `k`th on. */
  function Body(b: Block, k: nat): string
    requires k <= |b.lines|
    decreases |b.lines| - k
  {
    if k == |b.lines| then ""
    else if k == |b.lines| - 1 then LineText(b.lines[k])
    else LineText(b.lines[k]) + EndText(b.ends(k)) + Body(b, k + 1)
  }

  /** A blank line ends a block: the same line end twice. */
  function BlockText(b: Block): string {
    Body(b, 0) + (EndText(b.blank) + EndText(b.blank))
  }

  function StreamText(blocks: seq<Block>): string {
    if blocks == [] then "" else BlockText(blocks[0]) + StreamText(blocks[1..])
  }

  // ---------- what the lines say ----------

  /** The values given to a name, in order; a bare name gives the empty value. */
  function Values(lines: seq<Line>, name: string): seq<string> {
    if lines == [] then []
    else
      var l := lines[|lines| - 1];
      Values(lines[..|lines| - 1], name)
      + if l.Comment? || l.name != name then [] else if l.Bare? then [""] else [l.value]
  }

  function Last(values: seq<string>): Option<string> {
    if values == [] then None else Some(values[|values| - 1])
  }

  predicate Dispatched(lines: seq<Line>) {
    exists k :: 0 <= k < |lines| && !lines[k].Comment? && lines[k].name in ["event", "data", "id", "retry"]
  }

  /** No event without a field; else the last event name or "message", the data lines but for leading empty ones, and
      the last id. */
  function Meaning(lines: seq<Line>): seq<Event> {
    if !Dispatched(lines) then []
    else
      var name := Last(Values(lines, "event"));
      [Event(if name.Some? then name.value else "message", Join(DropEmpty(Values(lines, "data")), "\n"),
             Last(Values(lines, "id")))]
  }

  function MeaningAll(blocks: seq<Block>): seq<Event> {
    if blocks == [] then [] else Meaning(blocks[0].lines) + MeaningAll(blocks[1..])
  }

  // ---------- one line ----------

  lemma ColonFound(name: string, rest: string)
    requires ':' !in name
    ensures IndexOf(name + ":" + rest, ":", 0) == |name|
    ensures (name + ":" + rest)[..|name|] == name && (name + ":" + rest)[|name| + 1..] == rest
  {
    var line := name + ":" + rest;
    IndexOfFirst(line, ":", 0);
    assert OccursAt(line, ":", |name|);
    forall k | 0 <= k < |name| ensures !OccursAt(line, ":", k) {
      assert line[k] == name[k] && line[k..k + 1] == [line[k]];
    }
  }

  lemma NoColonFound(name: string)
    requires ':' !in name
    ensures IndexOf(name, ":", 0) == -1
  {
    IndexOfFirst(name, ":", 0);
    forall k | 0 <= k < |name| ensures !OccursAt(name, ":", k) { assert name[k..k + 1] == [name[k]]; }
  }

  /** The fields after one more line. */
  function Read(f: Fields, l: Line): Fields {
    if l.Comment? then f
    else
      var value := if l.Bare? then "" else l.value;
      if l.name == "event" then f.(event := value, hasField := true)
      else if l.name == "data" then
        f.(data := if f.data == "" then value else f.data + "\n" + value, hasField := true)
      else if l.name == "id" then f.(id := Some(value), hasField := true)
      else if l.name == "retry" then f.(hasField := true)
      else f
  }

  lemma LineRead(f: Fields, l: Line)
    requires Legal(l)
    ensures ParseLine(f, LineText(l)) == Read(f, l)
  {
    match l
    case Comment(text) =>
    case Bare(name) => BareRead(f, name);
    case Set(name, value, spaced) =>
      SetText(name, value, spaced);
      SetRead(f, name, if spaced then " " + value else value, value);
  }

  lemma SetText(name: string, value: string, spaced: bool)
    ensures LineText(Set(name, value, spaced)) == name + ":" + if spaced then " " + value else value
  {
    if spaced {
      assert ": " == ":" + " ";
      Assoc(name, ":", " ");
      Assoc(name + ":", " ", value);
    }
  }

  lemma BareRead(f: Fields, name: string)
    requires name != "" && ':' !in name
    ensures ParseLine(f, name) == Read(f, Bare(name))
  {
    NoColonFound(name);
  }

  lemma SetRead(f: Fields, name: string, raw: string, value: string)
    requires name != "" && ':' !in name
    requires raw == " " + value || (raw == value && (value == "" || value[0] != ' '))
    ensures ParseLine(f, name + ":" + raw) == Read(f, Set(name, value, true))
  {
    ColonFound(name, raw);
    assert (name + ":" + raw)[0] == name[0];
    assert (if StartsWith(raw, " ") then raw[1..] else raw) == value;
  }

  function Texts(lines: seq<Line>): seq<string> {
    seq(|lines|, k requires 0 <= k < |lines| => LineText(lines[k]))
  }

  /** The fields after all lines. */
  function ReadAll(lines: seq<Line>): Fields {
    var name := Last(Values(lines, "event"));
    Fields(if name.Some? then name.value else "message", Collected("", Values(lines, "data")),
           Last(Values(lines, "id")), Dispatched(lines))
  }

  lemma {:induction false} CollectedSnoc(data: string, parts: seq<string>, v: string)
    ensures Collected(data, parts + [v]) ==
            var before := Collected(data, parts); if before == "" then v else before + "\n" + v
    decreases |parts|
  {
    if parts == [] {
      assert parts + [v] == [v] && [v][1..] == [];
    } else {
      assert (parts + [v])[1..] == parts[1..] + [v];
      CollectedSnoc(if data == "" then parts[0] else data + "\n" + parts[0], parts[1..], v);
    }
  }

  lemma DispatchedSnoc(lines: seq<Line>, l: Line)
    ensures Dispatched(lines + [l]) <==>
            Dispatched(lines) || (!l.Comment? && l.name in ["event", "data", "id", "retry"])
  {
    var all := lines + [l];
    assert all[|lines|] == l;
    if Dispatched(lines) {
      var k :| 0 <= k < |lines| && !lines[k].Comment? && lines[k].name in ["event", "data", "id", "retry"];
      assert all[k] == lines[k];
    }
  }

  lemma ValuesSnoc(lines: seq<Line>, l: Line, name: string)
    ensures Values(lines + [l], name) ==
            if l.Comment? || l.name != name then Values(lines, name)
            else Values(lines, name) + [if l.Bare? then "" else l.value]
  {
    assert (lines + [l])[..|lines|] == lines;
    assert Values(lines, name) + [] == Values(lines, name);
  }

  lemma ReadSnoc(lines: seq<Line>, l: Line)
    ensures ReadAll(lines + [l]) == Read(ReadAll(lines), l)
  {
    DispatchedSnoc(lines, l);
    ValuesSnoc(lines, l, "event");
    ValuesSnoc(lines, l, "data");
    ValuesSnoc(lines, l, "id");
    if !l.Comment? { CollectedSnoc("", Values(lines, "data"), if l.Bare? then "" else l.value); }
  }

  lemma TextsSnoc(lines: seq<Line>, l: Line)
    ensures Texts(lines + [l]) == Texts(lines) + [LineText(l)]
  {
  }

  lemma OneMore(f: Fields, texts: seq<string>, text: string)
    ensures ParseLines(f, texts + [text]) == ParseLine(ParseLines(f, texts), text)
  {
    ParseLinesAppend(f, texts, [text]);
    assert [text][1..] == [];
  }

  lemma {:induction false} LinesRead(lines: seq<Line>)
    requires forall k :: 0 <= k < |lines| ==> Legal(lines[k])
    ensures ParseLines(NO_FIELDS, Texts(lines)) == ReadAll(lines)
    decreases |lines|
  {
    if lines != [] {
      var front, l := lines[..|lines| - 1], lines[|lines| - 1];
      assert lines == front + [l];
      LinesRead(front);
      TextsSnoc(front, l);
      OneMore(NO_FIELDS, Texts(front), LineText(l));
      LineRead(ReadAll(front), l);
      ReadSnoc(front, l);
    } else {
      NothingRead();
    }
  }

  lemma NothingRead()
    ensures ParseLines(NO_FIELDS, Texts([])) == ReadAll([])
  {
  }

  // ---------- one block ----------

  lemma SplitEnded(l: string, e: End, rest: string)
    requires Tidy(l)
    ensures Sse.SplitLines(l + EndText(e) + rest) == [l] + Sse.SplitLines(rest)
  {
    var head := if e.Lf? then l else l + "\r";
    var s := l + EndText(e) + rest;
    assert s == head + ['\n'] + rest;
    IndexOfCharUnique(head, '\n', rest);
    assert s[..|head|] == head && s[|head| + 1..] == rest;
    assert e.CrLf? ==> head[..|head| - 1] == l;
  }

  lemma SplitLast(l: string)
    requires Tidy(l)
    ensures Sse.SplitLines(l) == [l]
  {
  }

  lemma TailTexts(lines: seq<Line>, k: nat)
    requires k < |lines|
    ensures Texts(lines)[k..] == [LineText(lines[k])] + Texts(lines)[k + 1..]
    ensures k == |lines| - 1 ==> Texts(lines)[k..] == [LineText(lines[k])]
  {
  }

  lemma {:induction false} SplitBody(b: Block, k: nat)
    requires LegalBlock(b) && k < |b.lines|
    ensures Sse.SplitLines(Body(b, k)) == Texts(b.lines)[k..]
    decreases |b.lines| - k
  {
    assert Legal(b.lines[k]);
    TailTexts(b.lines, k);
    if k < |b.lines| - 1 {
      SplitBody(b, k + 1);
      SplitEnded(LineText(b.lines[k]), b.ends(k), Body(b, k + 1));
    } else {
      SplitLast(LineText(b.lines[k]));
    }
  }

  lemma BlockRead(b: Block)
    requires LegalBlock(b)
    ensures ParseBlock(Body(b, 0)) == Meaning(b.lines)
  {
    if b.lines == [] {
      assert Sse.SplitLines("") == [""] && [""][1..] == [];
    } else {
      SplitBody(b, 0);
      assert Texts(b.lines)[0..] == Texts(b.lines);
      LinesRead(b.lines);
      CollectedIsJoin(Values(b.lines, "data"));
    }
  }

  // ---------- where a block ends ----------

  predicate Free(s: string, n: nat) {
    forall j :: 0 <= j < n ==> !LfLf(s, j) && !CrLfCrLf(s, j)
  }

  /** No blank line begins inside a line, nor at its end when another line follows. */
  lemma FreeLine(l: string, more: string)
    requires Tidy(l)
    ensures Free(l + more, |l|)
  {
    var s := l + more;
    forall j | 0 <= j < |l| ensures !LfLf(s, j) && !CrLfCrLf(s, j) {
      assert s[j] == l[j] && (j + 1 < |l| ==> s[j + 1] == l[j + 1]);
    }
  }

  lemma FreeEnd(l: string, e: End, next: string, more: string, n: nat)
    requires Tidy(l) && Tidy(next) && Free(next + more, n)
    ensures Free(l + EndText(e) + (next + more), |l| + |EndText(e)| + n)
  {
    var front := l + EndText(e);
    var s := front + (next + more);
    FreeLine(l, EndText(e) + (next + more));
    assert s == l + (EndText(e) + (next + more));
    forall j | |l| <= j < |front| + n ensures !LfLf(s, j) && !CrLfCrLf(s, j) {
      if j >= |front| {
        var i := j - |front|;
        assert !LfLf(next + more, i) && !CrLfCrLf(next + more, i);
        assert s[|front|..] == next + more;
        Shifted(s, |front|, i);
      } else {
        assert s[|front|] == next[0] && (|next| > 1 ==> s[|front| + 1] == next[1]);
        assert next[|next| - 1] != '\r';
      }
    }
  }

  lemma Shifted(s: string, k: nat, i: nat)
    requires k <= |s|
    ensures LfLf(s, k + i) == LfLf(s[k..], i) && CrLfCrLf(s, k + i) == CrLfCrLf(s[k..], i)
  {
  }

  lemma BodyStarts(b: Block, k: nat) returns (rest: string)
    requires k < |b.lines|
    ensures Body(b, k) == LineText(b.lines[k]) + rest
  {
    rest := if k == |b.lines| - 1 then "" else EndText(b.ends(k)) + Body(b, k + 1);
    if k < |b.lines| - 1 { Assoc(LineText(b.lines[k]), EndText(b.ends(k)), Body(b, k + 1)); }
    else { assert LineText(b.lines[k]) + "" == LineText(b.lines[k]); }
  }

  lemma {:induction false} FreeBody(b: Block, k: nat, more: string)
    requires LegalBlock(b) && k < |b.lines|
    ensures Free(Body(b, k) + more, |Body(b, k)|)
    decreases |b.lines| - k
  {
    var l := LineText(b.lines[k]);
    assert Legal(b.lines[k]);
    if k == |b.lines| - 1 {
      FreeLine(l, more);
    } else {
      FreeBody(b, k + 1, more);
      var rest := BodyStarts(b, k + 1);
      var next := LineText(b.lines[k + 1]);
      assert Legal(b.lines[k + 1]);
      Assoc(next, rest, more);
      FreeEnd(l, b.ends(k), next, rest + more, |Body(b, k + 1)|);
      Assoc(l + EndText(b.ends(k)), Body(b, k + 1), more);
    }
  }

  lemma FreeBlock(b: Block, more: string)
    requires LegalBlock(b)
    ensures Free(Body(b, 0) + more, |Body(b, 0)|)
  {
    if b.lines != [] { FreeBody(b, 0, more); }
  }

  lemma BlockEnds(b: Block, rest: string)
    requires LegalBlock(b)
    ensures FirstSeparator(BlockText(b) + rest, 0) == Some(Separator(|Body(b, 0)|, 2 * |EndText(b.blank)|))
    ensures BlockText(b) + rest == Body(b, 0) + (EndText(b.blank) + EndText(b.blank) + rest)
  {
    var body, sep := Body(b, 0), EndText(b.blank) + EndText(b.blank);
    Assoc(body, sep, rest);
    FreeBlock(b, sep + rest);
    var s := body + (sep + rest);
    assert s[|body|..] == sep + rest;
    Shifted(s, |body|, 0);
    assert LfLf(s, |body|) || CrLfCrLf(s, |body|);
    FirstSeparatorIs(s, 0, |body|);
  }

  // ---------- whole streams ----------

  lemma {:induction false} StreamCut(blocks: seq<Block>)
    requires forall k :: 0 <= k < |blocks| ==> LegalBlock(blocks[k])
    ensures Events(Cut(StreamText(blocks)).blocks) == MeaningAll(blocks) && Cut(StreamText(blocks)).rest == ""
    decreases |blocks|
  {
    if blocks != [] {
      var b, rest := blocks[0], StreamText(blocks[1..]);
      BlockEnds(b, rest);
      BlockRead(b);
      var body, sep := Body(b, 0), EndText(b.blank) + EndText(b.blank);
      CutStep(StreamText(blocks), Separator(|body|, |sep|));
      assert (body + (sep + rest))[..|body|] == body && (body + (sep + rest))[|body| + |sep|..] == rest;
      StreamCut(blocks[1..]);
      EventsCons(body, Cut(rest).blocks);
    }
  }

  /** Every stream of legal blocks, whatever line ends it uses and in whatever chunks it arrives, gives exactly the
      events its lines describe, and keeps what comes after the last blank line. */
  lemma StreamRead(blocks: seq<Block>, tail: string, chunks: seq<string>)
    requires forall k :: 0 <= k < |blocks| ==> LegalBlock(blocks[k])
    requires Free(tail, |tail|) && Concat(chunks) == StreamText(blocks) + tail
    ensures FeedAll("", chunks) == Fed(MeaningAll(blocks), tail)
  {
    ChunkIndependence("", chunks);
    FeedWhole(StreamText(blocks) + tail);
    StreamCut(blocks);
    CutAppend(StreamText(blocks), tail);
    assert "" + tail == tail;
    NoSeparator(tail, 0);
    assert Cut(StreamText(blocks)).blocks + [] == Cut(StreamText(blocks)).blocks;
  }

  /** A blank line is seen where it stands exactly when it ends like the line before it. */
  lemma BlankLineIff(b: Block, last: End, blank: End, rest: string)
    requires LegalBlock(b) && b.lines != []
    ensures var found := FirstSeparator(Body(b, 0) + (EndText(last) + EndText(blank) + rest), 0);
            found == Some(Separator(|Body(b, 0)|, |EndText(last)| + |EndText(blank)|)) <==> last == blank
  {
    var body, ends := Body(b, 0), EndText(last) + EndText(blank);
    FreeBlock(b, ends + rest);
    var s := body + (ends + rest);
    assert s[|body|..] == ends + rest;
    Shifted(s, |body|, 0);
    if last == blank {
      FirstSeparatorIs(s, 0, |body|);
    } else {
      FoundIsBlank(s, 0);
    }
  }

  lemma {:induction false} FoundIsBlank(s: string, from: nat)
    ensures var sep := FirstSeparator(s, from); sep.Some? ==> LfLf(s, sep.value.idx) || CrLfCrLf(s, sep.value.idx)
    decreases |s| - from
  {
    if from < |s| && !LfLf(s, from) && !CrLfCrLf(s, from) { FoundIsBlank(s, from + 1); }
  }

  /** A blank line that ends in CR LF, after a line that ends in LF: two data lines become one event. */
  lemma MixedBlankLine(v: string, w: string)
    requires Tidy(v) && Tidy(w)
    ensures FeedAll("", [("data: " + v) + "\n" + ("\r" + "\n" + ("data: " + w)) + "\n\n"]) ==
            Fed([Event("message", v + "\n" + w, None)], "")
  {
    TidyData(v);
    TidyData(w);
    MixedParse("data: " + v, "data: " + w, v, w);
  }

  lemma MixedParse(a: string, b: string, v: string, w: string)
    requires Tidy(a) && Tidy(b) && b[0] != '\r' && DropCr(a) == a && a == "data: " + v && b == "data: " + w
    requires Tidy(v) && Tidy(w)
    ensures FeedAll("", [a + "\n" + ("\r" + "\n" + b) + "\n\n"]) == Fed([Event("message", v + "\n" + w, None)], "")
  {
    var body := a + "\n" + ("\r" + "\n" + b);
    var s := body + "\n\n";
    MixedSeparator(a, b);
    FeedWhole(s);
    CutStep(s, Separator(|body|, 2));
    assert s[..|body|] == body && s[|body| + 2..] == "";
    MixedBlock(a, b, v, w);
    EventsCons(body, []);
    assert [body] + [] == [body];
  }

  lemma MixedBlock(a: string, b: string, v: string, w: string)
    requires '\n' !in a && '\n' !in b && DropCr(a) == a && a == "data: " + v && b == "data: " + w && Tidy(v) && Tidy(w)
    ensures ParseBlock(a + "\n" + ("\r" + "\n" + b)) == [Event("message", v + "\n" + w, None)]
  {
    SplitFirst(a, "\r" + "\n" + b);
    SplitFirst("\r", b);
    MixedLines(v, w, [a] + ([""] + [b]));
  }

  lemma TidyData(v: string)
    requires Tidy(v)
    ensures Legal(Set("data", v, true)) && LineText(Set("data", v, true)) == "data: " + v
    ensures Tidy("data: " + v) && DropCr("data: " + v) == "data: " + v
  {
    var l := "data: " + v;
    assert l[|l| - 1] == v[|v| - 1];
  }

  lemma MixedSeparator(a: string, b: string)
    requires Tidy(a) && Tidy(b) && b[0] != '\r'
    ensures var body := a + "\n" + ("\r" + "\n" + b);
            FirstSeparator(body + "\n\n", 0) == Some(Separator(|body|, 2))
  {
    var body := a + "\n" + ("\r" + "\n" + b);
    var s := body + "\n\n";
    var n := |a|;
    assert s[n] == '\n' && s[n + 1] == '\r' && s[n + 2] == '\n' && s[n + 3] == b[0];
    forall j | 0 <= j < |body| ensures !LfLf(s, j) && !CrLfCrLf(s, j) {
      if j < n { assert s[j] == a[j] && (j + 1 < n ==> s[j + 1] == a[j + 1]); }
      if j >= n + 3 {
        assert s[j] == b[j - n - 3];
        assert j + 1 < |body| ==> s[j + 1] == b[j - n - 2];
      }
    }
    FirstSeparatorIs(s, 0, |body|);
  }

  lemma MixedLines(v: string, w: string, lines: seq<string>)
    requires Tidy(v) && Tidy(w) && lines == ["data: " + v] + ([""] + ["data: " + w])
    ensures ParseLines(NO_FIELDS, lines) == Fields("message", v + "\n" + w, None, true)
  {
    var a, b := Set("data", v, true), Set("data", w, true);
    TidyData(v);
    TidyData(w);
    LineRead(NO_FIELDS, a);
    var f := Fields("message", v, None, true);
    LineRead(f, b);
    var two := [""] + ["data: " + w];
    var one := ["data: " + w];
    assert lines[1..] == two && two[1..] == one && one[1..] == [];
    assert ParseLines(f, one) == ParseLines(Fields("message", v + "\n" + w, None, true), []);
    assert ParseLines(f, two) == ParseLines(f, one);
  }
}
