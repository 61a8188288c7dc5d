/** What attaching and detaching do to a Codex configuration file. */
module CodexTomlTheorems {
  import opened Wrappers
  import opened Text
  import opened TomlText
  import TomlGrammar
  import opened CodexToml
  import opened CodexTomlLines

  // ---------- marked blocks ----------

  predicate NoMarker(lines: Lines, marker: string) {
    forall j :: 0 <= j < |lines| ==> Trim(lines[j]) != marker
  }

  /** A block with its markers and no further end marker inside. */
  predicate IsBlock(block: Lines, begin: string, end: string) {
    && |block| >= 2 && Trim(block[0]) == begin && Trim(block[|block| - 1]) == end
    && NoMarker(block[1..|block| - 1], end)
  }

  lemma {:induction false} AfterMarkerAppend(inner: Lines, last: string, after: Lines, end: string)
    requires NoMarker(inner, end) && Trim(last) == end
    ensures AfterMarker(inner + [last] + after, end) == Some(after)
    decreases |inner|
  {
    var s := inner + [last] + after;
    if inner == [] {
      assert s[0] == last && s[1..] == after;
    } else {
      assert s[0] == inner[0] && s[1..] == inner[1..] + [last] + after;
      AfterMarkerAppend(inner[1..], last, after, end);
    }
  }

  lemma {:induction false} RemoveNoMarker(lines: Lines, begin: string, end: string)
    requires NoMarker(lines, begin)
    ensures RemoveMarked(lines, begin, end) == Some(lines)
    decreases |lines|
  {
    if lines != [] {
      RemoveNoMarker(lines[1..], begin, end);
      assert lines == [lines[0]] + lines[1..];
    }
  }

  /** The first block is found and taken out. */
  lemma RemoveBlock(block: Lines, after: Lines, begin: string, end: string)
    requires NoMarker(after, begin) && IsBlock(block, begin, end)
    ensures RemoveMarked(block + after, begin, end) == Some(after) && HasMarked(block + after, begin, end) == Some(true)
  {
    var inner, last := block[1..|block| - 1], block[|block| - 1];
    assert block[1..] == inner + [last] && (block + after)[1..] == block[1..] + after;
    AfterMarkerAppend(inner, last, after, end);
    RemoveNoMarker(after, begin, end);
  }

  lemma {:induction false} RemoveFirstBlock(before: Lines, block: Lines, after: Lines, begin: string, end: string)
    requires NoMarker(before, begin) && NoMarker(after, begin) && IsBlock(block, begin, end)
    ensures RemoveMarked(before + block + after, begin, end) == Some(before + after)
    ensures HasMarked(before + block + after, begin, end) == Some(true)
    decreases |before|
  {
    if before == [] {
      assert before + block == block && before + after == after;
      RemoveBlock(block, after, begin, end);
    } else {
      var head, tail := [before[0]], before[1..];
      assert head + tail == before;
      Assoc(head, tail, block);
      Assoc(head, tail + block, after);
      RemoveFirstBlock(tail, block, after, begin, end);
      PassLine(before[0], tail + block + after, begin, end);
      Assoc(head, tail, after);
    }
  }

  lemma PassLine(line: string, lines: Lines, begin: string, end: string)
    requires Trim(line) != begin && RemoveMarked(lines, begin, end).Some?
    ensures RemoveMarked([line] + lines, begin, end) == Some([line] + RemoveMarked(lines, begin, end).value)
    ensures HasMarked([line] + lines, begin, end) == HasMarked(lines, begin, end)
  {
    assert ([line] + lines)[1..] == lines;
  }

  predicate Subset(a: Lines, b: Lines) {
    forall l :: l in a ==> l in b
  }

  lemma {:induction false} RemoveMarkedClears(lines: Lines, begin: string, end: string)
    requires RemoveMarked(lines, begin, end).Some?
    ensures var r := RemoveMarked(lines, begin, end).value; NoMarker(r, begin) && Subset(r, lines)
    decreases |lines|
  {
    if lines != [] {
      if Trim(lines[0]) != begin {
        RemoveMarkedClears(lines[1..], begin, end);
      } else {
        var after := AfterMarker(lines[1..], end).value;
        AfterMarkerSubset(lines[1..], end);
        RemoveMarkedClears(after, begin, end);
      }
    }
  }

  lemma {:induction false} AfterMarkerSubset(lines: Lines, end: string)
    requires AfterMarker(lines, end).Some?
    ensures Subset(AfterMarker(lines, end).value, lines)
    decreases |lines|
  {
    if Trim(lines[0]) != end { AfterMarkerSubset(lines[1..], end); }
  }

  lemma NoMarkerSubset(a: Lines, b: Lines, marker: string)
    requires Subset(a, b) && NoMarker(b, marker)
    ensures NoMarker(a, marker)
  {
    forall j | 0 <= j < |a| ensures Trim(a[j]) != marker {
      assert a[j] in b;
    }
  }

  lemma {:induction false} RemoveRootSubset(g: Grammar, lines: Lines, n: nat, d: Option<Delim>)
    ensures Subset(RemoveRoot(g, lines, n, d), lines)
    decreases |lines|
  {
    if lines != [] && n != 0 {
      RemoveRootSubset(g, lines[1..], n - 1,
        if d.None? && g.isRootModelProvider(lines[0]) then None else Advance(g, lines[0], d));
    }
  }

  lemma {:induction false} SectionFilterSubset(g: Grammar, lines: Lines, skip: bool, d: Option<Delim>)
    ensures Subset(SectionFilter(g, lines, skip, d), lines)
    decreases |lines|
  {
    if lines != [] {
      if d.None? && g.isTableHeader(lines[0]) {
        SectionFilterSubset(g, lines[1..], g.isProviderTableHeader(lines[0]), None);
      } else {
        SectionFilterSubset(g, lines[1..], skip, Advance(g, lines[0], d));
      }
    }
  }

  lemma {:induction false} AssignmentFilterSubset(g: Grammar, lines: Lines, t: Table, d: Option<Delim>, dropping: bool)
    ensures Subset(AssignmentFilter(g, lines, t, d, dropping), lines)
    decreases |lines|
  {
    if lines != [] {
      var line, tail := lines[0], lines[1..];
      if d.Some? {
        AssignmentFilterSubset(g, tail, t, g.close(line, d.value), dropping);
      } else if g.isTableHeader(line) {
        AssignmentFilterSubset(g, tail, g.tableOf(line), None, false);
      } else {
        AssignmentFilterSubset(g, tail, t, g.open(line), g.isProviderAssignment(t, line));
      }
    }
  }

  /** The user's lines: plain text, no begin markers. */
  predicate Own(lines: Lines) {
    PlainLines(lines) && NoMarker(lines, ROOT_BEGIN) && NoMarker(lines, PROVIDER_BEGIN)
  }

  lemma KeptIsOwn(g: Grammar, file: Lines)
    requires PlainLines(file) && Unmarked(file).Some?
    ensures Own(Kept(g, Unmarked(file).value)) && Cleared(g, Kept(g, Unmarked(file).value))
  {
    var a := RemoveMarked(file, ROOT_BEGIN, ROOT_END).value;
    RemoveMarkedClears(file, ROOT_BEGIN, ROOT_END);
    RemoveMarkedClears(a, PROVIDER_BEGIN, PROVIDER_END);
    var own := Unmarked(file).value;
    NoMarkerSubset(own, a, ROOT_BEGIN);
    var root := RemoveRoot(g, own, NextTable(g, own, None), None);
    RemoveRootSubset(g, own, NextTable(g, own, None), None);
    SectionFilterSubset(g, root, false, None);
    AssignmentFilterSubset(g, SectionFilter(g, root, false, None), Root, None, false);
    var kept := Kept(g, own);
    NoMarkerSubset(kept, own, ROOT_BEGIN);
    NoMarkerSubset(kept, own, PROVIDER_BEGIN);
    KeptIsSettled(g, own);
  }

  // ---------- the managed blocks ----------

  lemma {:induction false} EscapedIsPlain(s: string)
    ensures PlainLine(Escaped(s))
  {
    if s != "" {
      EscapedIsPlain(s[1..]);
      EscapeCharIsPlain(s[0]);
    }
  }

  lemma EscapeCharIsPlain(c: char)
    ensures PlainLine(EscapeChar(c))
  {
  }

  lemma {:induction false} DigitsAreDigits(n: nat)
    ensures Digits(n) != "" && forall i :: 0 <= i < |Digits(n)| ==> '0' <= Digits(n)[i] <= '9'
  {
    if n >= 10 { DigitsAreDigits(n / 10); }
  }

  /** A line that is visibly no marker: it starts at once, and not the way a marker does. */
  predicate InnerLine(s: string) {
    && |s| >= 3 && !IsSpace(s[0]) && !IsSpace(s[2])
    && (s[0] == '#' ==> s[2] != 'B' && s[2] != 'E')
    && PlainLine(s)
  }

  predicate InnerLines(lines: Lines) {
    forall j :: 0 <= j < |lines| ==> InnerLine(lines[j])
  }

  lemma {:induction false} TrimEndKeeps(s: string, k: nat)
    requires k < |s| && !IsSpace(s[k])
    ensures k < |TrimEnd(s)| <= |s| && TrimEnd(s) == s[..|TrimEnd(s)|]
    decreases |s|
  {
    if IsSpace(s[|s| - 1]) {
      TrimEndKeeps(s[..|s| - 1], k);
    }
  }

  lemma InnerLineIsNoMarker(s: string)
    requires InnerLine(s)
    ensures Trim(s) != ROOT_BEGIN && Trim(s) != ROOT_END && Trim(s) != PROVIDER_BEGIN && Trim(s) != PROVIDER_END
  {
    TrimEndKeeps(s, 2);
    assert Trim(s)[0] == s[0] && Trim(s)[2] == s[2];
    assert ROOT_BEGIN[0] == '#' && ROOT_BEGIN[2] == 'B' && PROVIDER_BEGIN[0] == '#' && PROVIDER_BEGIN[2] == 'B';
    assert ROOT_END[0] == '#' && ROOT_END[2] == 'E' && PROVIDER_END[0] == '#' && PROVIDER_END[2] == 'E';
  }

  lemma MarkersAreSolid()
    ensures Trim(ROOT_BEGIN) == ROOT_BEGIN && Trim(ROOT_END) == ROOT_END
    ensures Trim(PROVIDER_BEGIN) == PROVIDER_BEGIN && Trim(PROVIDER_END) == PROVIDER_END
    ensures |ROOT_BEGIN| == 40 && |ROOT_END| == 38 && |PROVIDER_BEGIN| == 34 && |PROVIDER_END| == 32
  {
    TrimSolid(ROOT_BEGIN);
    TrimSolid(ROOT_END);
    TrimSolid(PROVIDER_BEGIN);
    TrimSolid(PROVIDER_END);
  }

  lemma RootMarkersArePlain()
    ensures PlainLine(ROOT_BEGIN) && PlainLine(ROOT_END)
  {
  }

  lemma ProviderMarkersArePlain()
    ensures PlainLine(PROVIDER_BEGIN) && PlainLine(PROVIDER_END)
  {
  }

  lemma QuotedLine(key: string, value: string)
    requires |key| >= 3 && InnerLine(key)
    ensures InnerLine(key + TomlString(value))
  {
    EscapedIsPlain(value);
  }

  lemma ThreeLines(a: string, b: string, c: string)
    requires InnerLine(a) && InnerLine(b) && InnerLine(c)
    ensures InnerLines([a, b, c])
  {
  }

  lemma AppendLines(a: Lines, b: Lines)
    requires InnerLines(a) && InnerLines(b)
    ensures InnerLines(a + b)
  {
  }

  lemma AttachedAtLine(now: string)
    ensures InnerLine("# attached_at = " + TomlString(now))
  {
    QuotedLine("# attached_at = ", now);
  }

  lemma VersionLine(version: string)
    ensures InnerLine("# version = " + TomlString(version))
  {
    QuotedLine("# version = ", version);
  }

  lemma PortLine(port: nat)
    ensures InnerLine("# port = " + Digits(port))
  {
    DigitsAreDigits(port);
    PlainAppend("# port = ", Digits(port));
  }

  lemma PlainAppend(a: string, b: string)
    requires |a| >= 3 && InnerLine(a) && forall i :: 0 <= i < |b| ==> b[i] > ' '
    ensures InnerLine(a + b)
  {
  }

  lemma PreviousInner(value: string)
    ensures InnerLine(PreviousLine(value))
  {
    QuotedLine("# previous_model_provider = ", value);
  }

  lemma ModelProviderInner(value: string)
    ensures InnerLine(ModelProviderLine(value))
  {
    QuotedLine("model_provider = ", value);
  }

  lemma RootInnerLines(now: string, version: string, port: nat, prev: Option<string>)
    ensures InnerLines(RootInner(now, version, port, prev))
  {
    var a, b, c := "# attached_at = " + TomlString(now), "# version = " + TomlString(version),
      "# port = " + Digits(port);
    AttachedAtLine(now);
    VersionLine(version);
    PortLine(port);
    ThreeLines(a, b, c);
    PreviousLines(prev);
    ModelProviderInner("collectivus");
    JoinInner([a, b, c], if prev.Some? then [PreviousLine(prev.value)] else [], ModelProviderLine("collectivus"));
  }

  lemma PreviousLines(prev: Option<string>)
    ensures InnerLines(if prev.Some? then [PreviousLine(prev.value)] else [])
  {
    if prev.Some? { PreviousInner(prev.value); }
  }

  lemma JoinInner(a: Lines, b: Lines, last: string)
    requires InnerLines(a) && InnerLines(b) && InnerLine(last)
    ensures InnerLines(a + b + [last])
  {
    AppendLines(a, b);
    AppendLines(a + b, [last]);
  }

  lemma TableLine()
    ensures InnerLine("[model_providers.collectivus]")
  {
  }

  lemma NameLine()
    ensures InnerLine("name = " + TomlString("Collectivus OpenAI Proxy"))
  {
    QuotedLine("name = ", "Collectivus OpenAI Proxy");
  }

  lemma BaseUrlLine(port: nat)
    ensures InnerLine("base_url = " + TomlString(BaseUrl(port)))
  {
    QuotedLine("base_url = ", BaseUrl(port));
  }

  lemma AuthLine()
    ensures InnerLine("requires_openai_auth = true")
  {
  }

  lemma WireApiLine()
    ensures InnerLine("wire_api = \"responses\"")
  {
  }

  lemma WebsocketsLine()
    ensures InnerLine("supports_websockets = false")
  {
  }

  lemma FlagLines()
    ensures InnerLines(PROVIDER_FLAGS)
  {
    AuthLine();
    WireApiLine();
    WebsocketsLine();
    ThreeLines("requires_openai_auth = true", "wire_api = \"responses\"", "supports_websockets = false");
  }

  lemma ProviderInnerLines(port: nat)
    ensures InnerLines(ProviderInner(port))
  {
    var a, b, c := "[model_providers.collectivus]", "name = " + TomlString("Collectivus OpenAI Proxy"),
      "base_url = " + TomlString(BaseUrl(port));
    TableLine();
    NameLine();
    BaseUrlLine(port);
    ThreeLines(a, b, c);
    FlagLines();
    AppendLines([a, b, c], PROVIDER_FLAGS);
  }

  /** A block wrapped in its markers: each kind of marker occurs only where it should. */
  lemma WrappedLines(begin: string, inner: Lines, end: string, other: string)
    requires Trim(begin) == begin && Trim(end) == end && PlainLine(begin) && PlainLine(end) && begin != "" && end != ""
    requires InnerLines(inner) && other != begin && other != end
    requires forall j :: 0 <= j < |inner| ==> Trim(inner[j]) != end && Trim(inner[j]) != other
    ensures var block := [begin] + inner + [end];
            IsBlock(block, begin, end) && PlainLines(block) && NoMarker(block, other) && block[0] != "" &&
              block[|block| - 1] != ""
  {
    var block := [begin] + inner + [end];
    assert block[1..|block| - 1] == inner;
    assert forall j :: 0 <= j < |inner| ==> PlainLine(inner[j]);
    assert forall j :: 0 < j < |block| - 1 ==> block[j] == inner[j - 1];
  }

  lemma Wrapped(begin: string, inner: Lines, end: string)
    requires (begin == ROOT_BEGIN && end == ROOT_END) || (begin == PROVIDER_BEGIN && end == PROVIDER_END)
    requires InnerLines(inner)
    ensures var block := [begin] + inner + [end];
            && IsBlock(block, begin, end) && PlainLines(block)
            && NoMarker(block, if begin == ROOT_BEGIN then PROVIDER_BEGIN else ROOT_BEGIN)
            && block[0] != "" && block[|block| - 1] != ""
  {
    MarkersAreSolid();
    RootMarkersArePlain();
    ProviderMarkersArePlain();
    forall j | 0 <= j < |inner|
      ensures Trim(inner[j]) != ROOT_BEGIN && Trim(inner[j]) != ROOT_END && Trim(inner[j]) != PROVIDER_BEGIN &&
        Trim(inner[j]) != PROVIDER_END
    {
      InnerLineIsNoMarker(inner[j]);
    }
    WrappedLines(begin, inner, end, if begin == ROOT_BEGIN then PROVIDER_BEGIN else ROOT_BEGIN);
  }

  // ---------- the attached file, read back ----------

  /** Root and provider blocks as the source writes them. */
  predicate Blocks(root: Lines, provider: Lines) {
    && IsBlock(root, ROOT_BEGIN, ROOT_END) && NoMarker(root, PROVIDER_BEGIN) && PlainLines(root)
    && IsBlock(provider, PROVIDER_BEGIN, PROVIDER_END) && NoMarker(provider, ROOT_BEGIN) && PlainLines(provider)
    && root[0] != "" && root[|root| - 1] != "" && provider[|provider| - 1] != ""
  }

  lemma BlocksAreBlocks(now: string, version: string, port: nat, prev: Option<string>)
    ensures Blocks(RootBlock(now, version, port, prev), ProviderBlock(port))
  {
    RootInnerLines(now, version, port, prev);
    Wrapped(ROOT_BEGIN, RootInner(now, version, port, prev), ROOT_END);
    ProviderInnerLines(port);
    Wrapped(PROVIDER_BEGIN, ProviderInner(port), PROVIDER_END);
  }

  /** How many leading blank lines formatting cuts off once the root block is in. */
  function CutOff(g: Grammar, kept: Lines): (k: nat)
    ensures k <= RootIndex(g, kept) && forall j :: 0 <= j < k ==> kept[j] == ""
  {
    Leading(kept[..RootIndex(g, kept)])
  }

  /** The lines before and after the root block in the written file. */
  function Before(g: Grammar, kept: Lines): Lines {
    kept[CutOff(g, kept)..RootIndex(g, kept)]
  }

  function After(g: Grammar, kept: Lines, root: Lines): Lines {
    kept[RootIndex(g, kept)..] + Spacer(InsertRoot(g, kept, root))
  }

  lemma WithBlocksParts(g: Grammar, kept: Lines, root: Lines, provider: Lines)
    ensures WithBlocks(g, kept, root, provider) ==
            kept[..CutOff(g, kept)] + (Before(g, kept) + root + (After(g, kept, root) + provider))
  {
    var i, k := RootIndex(g, kept), CutOff(g, kept);
    var front, middle, after, spacer := kept[..k], kept[k..i], kept[i..], Spacer(InsertRoot(g, kept, root));
    assert kept[..i] == front + middle;
    Assoc(front, middle, root);
    Assoc(front, middle + root, after);
    Assoc(front, middle + root + after, spacer);
    Assoc(front, middle + root + after + spacer, provider);
    Assoc(middle + root, after, spacer);
    Assoc(middle + root, after + spacer, provider);
  }

  lemma FormatAndSplit(blanks: Lines, out: Lines)
    requires AllBlank(blanks) && PlainLines(out) && out != [] && out[0] != "" && out[|out| - 1] != ""
    ensures SplitLines(FormatLines(blanks + out)) == out
  {
    DropLeadingBlanks(blanks, out);
    SplitJoined(out);
  }

  lemma PlainLinesAppend(a: Lines, b: Lines)
    requires PlainLines(a) && PlainLines(b)
    ensures PlainLines(a + b)
  {
  }

  lemma BeforeStarts(g: Grammar, kept: Lines)
    ensures Before(g, kept) != [] ==> Before(g, kept)[0] != ""
  {
    var i, k := RootIndex(g, kept), CutOff(g, kept);
    if k < i { assert Before(g, kept)[0] == kept[k] == kept[..i][k]; }
  }

  lemma ReopenedParts(blanks: Lines, before: Lines, root: Lines, after: Lines, provider: Lines)
    requires AllBlank(blanks) && PlainLines(before) && PlainLines(after) && (before != [] ==> before[0] != "") &&
      Blocks(root, provider)
    ensures SplitLines(FormatLines(blanks + (before + root + (after + provider)))) == before + root + (after + provider)
  {
    var out := before + root + (after + provider);
    assert out[0] == if before != [] then before[0] else root[0];
    assert out[|out| - 1] == provider[|provider| - 1];
    PlainLinesAppend(before, root);
    PlainLinesAppend(after, provider);
    PlainLinesAppend(before + root, after + provider);
    FormatAndSplit(blanks, out);
  }

  /** The attached file splits into exactly: some of the user's lines, the root block, the others, the provider
      block. */
  lemma Reopened(g: Grammar, kept: Lines, root: Lines, provider: Lines)
    requires PlainLines(kept) && Blocks(root, provider)
    ensures SplitLines(FormatLines(WithBlocks(g, kept, root, provider)))
            == Before(g, kept) + root + (After(g, kept, root) + provider)
  {
    var i := RootIndex(g, kept);
    var before, after := Before(g, kept), After(g, kept, root);
    WithBlocksParts(g, kept, root, provider);
    BeforeStarts(g, kept);
    assert PlainLines(before) && PlainLines(kept[i..]) && PlainLines(Spacer(InsertRoot(g, kept, root)));
    PlainLinesAppend(kept[i..], Spacer(InsertRoot(g, kept, root)));
    ReopenedParts(kept[..CutOff(g, kept)], before, root, after, provider);
  }

  lemma NoMarkerAppend(a: Lines, b: Lines, marker: string)
    requires NoMarker(a, marker) && NoMarker(b, marker)
    ensures NoMarker(a + b, marker)
  {
  }

  lemma RemoveLastBlock(before: Lines, block: Lines, begin: string, end: string)
    requires NoMarker(before, begin) && IsBlock(block, begin, end)
    ensures RemoveMarked(before + block, begin, end) == Some(before) &&
      HasMarked(before + block, begin, end) == Some(true)
  {
    RemoveFirstBlock(before, block, [], begin, end);
    assert before + block + [] == before + block && before + [] == before;
  }

  /** Taking the managed blocks out of the attached file leaves the user's lines. */
  lemma UnmarkAttached(before: Lines, root: Lines, after: Lines, provider: Lines)
    requires Blocks(root, provider)
    requires NoMarker(before, ROOT_BEGIN) && NoMarker(before, PROVIDER_BEGIN)
    requires NoMarker(after, ROOT_BEGIN) && NoMarker(after, PROVIDER_BEGIN)
    ensures var file := before + root + (after + provider);
            && Unmarked(file) == Some(before + after)
            && HasMarked(file, ROOT_BEGIN, ROOT_END) == Some(true) &&
              HasMarked(file, PROVIDER_BEGIN, PROVIDER_END) == Some(true)
  {
    var file := before + root + (after + provider);
    NoMarkerAppend(after, provider, ROOT_BEGIN);
    RemoveFirstBlock(before, root, after + provider, ROOT_BEGIN, ROOT_END);
    NoMarkerAppend(before, after, PROVIDER_BEGIN);
    Assoc(before, after, provider);
    RemoveLastBlock(before + after, provider, PROVIDER_BEGIN, PROVIDER_END);
    NoMarkerAppend(before, root, PROVIDER_BEGIN);
    NoMarkerAppend(before + root, after, PROVIDER_BEGIN);
    Assoc(before + root, after, provider);
    RemoveLastBlock(before + root + after, provider, PROVIDER_BEGIN, PROVIDER_END);
  }

  /** The previous provider as a later read finds it: a value holding U+2028 or U+2029 does not come back. */
  function Recorded(prev: Option<string>): Option<string> {
    if prev.Some? && NoSeparators(prev.value) then prev else None
  }

  predicate NoSeparators(s: string) {
    forall i :: 0 <= i < |s| ==> s[i] != '\U{2028}' && s[i] != '\U{2029}'
  }

  lemma {:induction false} EscapedOneLine(s: string)
    ensures OneLine(Escaped(s)) <==> NoSeparators(s)
  {
    if s != "" {
      EscapedOneLine(s[1..]);
      EscapeCharOneLine(s[0]);
      OneLineAppend(EscapeChar(s[0]), Escaped(s[1..]));
      assert forall i :: 0 < i < |s| ==> s[i] == s[1..][i - 1];
      assert forall i :: 0 <= i < |s[1..]| ==> s[1..][i] == s[i + 1];
    }
  }

  lemma OneLineAppend(a: string, b: string)
    ensures OneLine(a + b) <==> OneLine(a) && OneLine(b)
  {
    assert forall i :: 0 <= i < |a| ==> (a + b)[i] == a[i];
    assert forall i :: 0 <= i < |b| ==> b[i] == (a + b)[i + |a|];
  }

  lemma HexDigitVisible(n: nat)
    requires n < 16
    ensures !IsLineTerminator(HexDigit(n))
  {
  }

  lemma EscapeCharOneLine(x: char)
    ensures OneLine(EscapeChar(x)) <==> (x != '\U{2028}' && x != '\U{2029}')
  {
    if |EscapeChar(x)| == 6 {
      HexDigitVisible(x as int / 16);
      HexDigitVisible(x as int % 16);
    } else if |EscapeChar(x)| == 1 {
      assert EscapeChar(x)[0] == x;
    }
  }

  lemma TrimOneSpace(t: string)
    requires t != "" && !IsSpace(t[0])
    ensures TrimStart(" " + t) == t
  {
    assert (" " + t)[1..] == t;
  }

  lemma MatchKeyed(key: string, t: string)
    requires key != "" && !IsSpace(key[0]) && t != "" && !IsSpace(t[0])
    ensures MatchComment("# " + key + " = " + t, key) == if OneLine(t) then Some(t) else None
  {
    var line := "# " + key + " = " + t;
    var b := "= " + t;
    var a := key + " " + b;
    assert line[1..] == " " + a;
    TrimOneSpace(a);
    assert a[|key|..] == " " + b;
    TrimOneSpace(b);
    assert b[1..] == " " + t;
    TrimOneSpace(t);
  }

  lemma QuotedOneLine(value: string)
    ensures OneLine(TomlString(value)) <==> NoSeparators(value)
  {
    EscapedOneLine(value);
    OneLineAppend("\"", Escaped(value));
    OneLineAppend("\"" + Escaped(value), "\"");
  }

  lemma MatchPrevious(value: string)
    ensures MatchComment(PreviousLine(value), PREVIOUS_KEY) ==
            if NoSeparators(value) then Some(TomlString(value)) else None
  {
    assert "# previous_model_provider = " == "# " + PREVIOUS_KEY + " = ";
    MatchKeyed(PREVIOUS_KEY, TomlString(value));
    QuotedOneLine(value);
  }

  lemma {:induction false} SkipOutside(before: Lines, rest: Lines)
    ensures NoMarker(before, ROOT_BEGIN) ==> ReadPrevious(before + rest, false) == ReadPrevious(rest, false)
    ensures NoMarker(before, PROVIDER_BEGIN) ==> ReadBaseUrl(before + rest, false) == ReadBaseUrl(rest, false)
    decreases |before|
  {
    if before == [] {
      assert before + rest == rest;
    } else {
      assert (before + rest)[0] == before[0] && (before + rest)[1..] == before[1..] + rest;
      SkipOutside(before[1..], rest);
    }
  }

  lemma SkipInner(line: string, rest: Lines)
    requires InnerLine(line)
    ensures MatchComment(line, PREVIOUS_KEY) == None ==> ReadPrevious([line] + rest, true) == ReadPrevious(rest, true)
    ensures !MatchesPrefix(Assignment(Word("base_url")), line) ==>
      ReadBaseUrl([line] + rest, true) == ReadBaseUrl(rest, true)
  {
    InnerLineIsNoMarker(line);
    assert ([line] + rest)[1..] == rest;
  }

  lemma OtherComment(line: string)
    requires OtherKind(line)
    ensures MatchComment(line, PREVIOUS_KEY) == None
  {
    var a := line[2..];
    assert line[1..] == " " + a;
    TrimOneSpace(a);
    assert PREVIOUS_KEY[0] == 'p' && PREVIOUS_KEY[1] == 'r' && a[0] == line[2] && a[1] == line[3];
  }

  lemma EnterRoot(rest: Lines)
    ensures ReadPrevious([ROOT_BEGIN] + rest, false) == ReadPrevious(rest, true)
    ensures ReadPrevious([ROOT_END] + rest, true) == None
  {
    MarkersAreSolid();
    assert ([ROOT_BEGIN] + rest)[1..] == rest;
  }

  /** A comment that is not the record of the previous provider. */
  predicate OtherKind(line: string) {
    |line| >= 4 && line[0] == '#' && line[1] == ' ' && !IsSpace(line[2]) && (line[2] != 'p' || line[3] != 'r')
  }

  lemma CommentStart(front: string, t: string)
    requires OtherKind(front)
    ensures OtherKind(front + t)
  {
  }

  lemma SkipThree(a: string, b: string, c: string, rest: Lines)
    requires InnerLine(a) && InnerLine(b) && InnerLine(c) && OtherKind(a) && OtherKind(b) && OtherKind(c)
    ensures ReadPrevious([a, b, c] + rest, true) == ReadPrevious(rest, true)
  {
    OtherComment(a);
    OtherComment(b);
    OtherComment(c);
    SkipInner(a, [b] + ([c] + rest));
    SkipInner(b, [c] + rest);
    SkipInner(c, rest);
    assert [a, b, c] == [a] + ([b] + [c]);
    Assoc([a], [b] + [c], rest);
    Assoc([b], [c], rest);
  }

  lemma SkipComments(now: string, version: string, port: nat, rest: Lines)
    ensures ReadPrevious(["# attached_at = " + TomlString(now), "# version = " + TomlString(version),
      "# port = " + Digits(port)] + rest, true)
            == ReadPrevious(rest, true)
  {
    AttachedAtLine(now);
    VersionLine(version);
    PortLine(port);
    CommentStart("# attached_at = ", TomlString(now));
    CommentStart("# version = ", TomlString(version));
    CommentStart("# port = ", Digits(port));
    SkipThree("# attached_at = " + TomlString(now), "# version = " + TomlString(version),
      "# port = " + Digits(port), rest);
  }

  lemma ReadPreviousLine(value: string, rest: Lines)
    ensures ReadPrevious([PreviousLine(value)] + rest, true) ==
            if NoSeparators(value) then Some(value) else ReadPrevious(rest, true)
  {
    PreviousInner(value);
    InnerLineIsNoMarker(PreviousLine(value));
    MatchPrevious(value);
    StringRoundTrip(value);
    assert ([PreviousLine(value)] + rest)[1..] == rest;
  }

  lemma ReadAfterComments(prev: Option<string>, rest: Lines)
    ensures var p := if prev.Some? then [PreviousLine(prev.value)] else [];
            ReadPrevious(p + ([ModelProviderLine("collectivus")] + ([ROOT_END] + rest)), true) == Recorded(prev)
  {
    var m := ModelProviderLine("collectivus");
    var tail := [m] + ([ROOT_END] + rest);
    if prev.Some? {
      ReadPreviousLine(prev.value, tail);
    } else {
      assert [] + tail == tail;
    }
    ModelProviderInner("collectivus");
    SkipInner(m, [ROOT_END] + rest);
    EnterRoot(rest);
  }

  /** Regrouping `[begin] + (a + p + [m]) + [end]` before more lines. */
  lemma Regroup(begin: Lines, a: Lines, p: Lines, m: Lines, end: Lines, rest: Lines)
    ensures begin + (a + p + m) + end + rest == begin + (a + (p + (m + (end + rest))))
  {
  }

  /** The root block gives back the previous provider it was written with, when it can be recorded. */
  lemma RootBlockRecords(now: string, version: string, port: nat, prev: Option<string>, rest: Lines)
    ensures ReadPrevious(RootBlock(now, version, port, prev) + rest, false) == Recorded(prev)
  {
    var a := ["# attached_at = " + TomlString(now), "# version = " + TomlString(version), "# port = " + Digits(port)];
    var p := if prev.Some? then [PreviousLine(prev.value)] else [];
    var m := [ModelProviderLine("collectivus")];
    Regroup([ROOT_BEGIN], a, p, m, [ROOT_END], rest);
    EnterRoot(a + (p + (m + ([ROOT_END] + rest))));
    SkipComments(now, version, port, p + (m + ([ROOT_END] + rest)));
    ReadAfterComments(prev, rest);
  }

  // ---------- regular-expression facts ----------

  /** After optional space, a match of `Word(w)` first shows the first letter of `w`. */
  lemma FirstLetter(w: string, rest: Re, s: string)
    requires w != "" && Matches(Cat(SPACES, Cat(Word(w), rest)), s)
    ensures s != "" && (IsSpace(s[0]) || s[0] == w[0])
  {
    var k :| 0 <= k <= |s| && Matches(SPACES, s[..k]) && Matches(Cat(Word(w), rest), s[k..]);
    TomlGrammar.SpacesIff(s[..k]);
    var j :| 0 <= j <= |s[k..]| && Matches(Word(w), s[k..][..j]) && Matches(rest, s[k..][j..]);
    assert s[k..][..j] == w && s[k..][0] == w[0] == s[k];
    if k > 0 { assert s[..k][0] == s[0]; }
  }

  lemma NoSpaces()
    ensures Matches(SPACES, "")
  {
  }

  lemma OneSpace()
    ensures Matches(SPACES, " ")
  {
    assert " "[..1] == " " && " "[1..] == "";
    assert Matches(One(Space), " "[..1]);
    NoSpaces();
  }

  lemma KeyMatches(key: Re, name: string)
    requires Matches(key, name)
    ensures Matches(Assignment(key), name + " =")
  {
    NoSpaces();
    OneSpace();
    TomlGrammar.CatJoin(SPACES, Word("="), " ", "=");
    assert " " + "=" == " =";
    TomlGrammar.CatJoin(key, Cat(SPACES, Word("=")), name, " =");
    TomlGrammar.CatJoin(SPACES, Cat(key, Cat(SPACES, Word("="))), "", name + " =");
    assert "" + (name + " =") == name + " =";
  }

  /** `key = ...` is an assignment to a key that matches. */
  lemma AssignmentMatches(key: Re, name: string, value: string)
    requires Matches(key, name)
    ensures MatchesPrefix(Assignment(key), name + " = " + value)
  {
    KeyMatches(key, name);
    var s := name + " = " + value;
    assert s[..|name| + 2] == name + " =";
  }

  lemma BaseUrlElsewhere(line: string)
    requires line != "" && !IsSpace(line[0]) && line[0] != 'b'
    ensures !MatchesPrefix(Assignment(Word("base_url")), line)
  {
    forall k | 0 <= k <= |line| ensures !Matches(Assignment(Word("base_url")), line[..k]) {
      assert k > 0 ==> line[..k][0] == line[0];
      if Matches(Assignment(Word("base_url")), line[..k]) {
        FirstLetter("base_url", Cat(SPACES, Word("=")), line[..k]);
      }
    }
  }

  lemma {:induction false} KeyHasNoEquals(key: string, value: string)
    requires '=' !in key
    ensures ParseAssignmentString(key + "= " + TomlString(value)) == Some(value)
  {
    var line := key + "= " + TomlString(value);
    var after := " " + TomlString(value);
    assert line == key + ['='] + after;
    IndexOfCharUnique(key, '=', after);
    assert line[|key| + 1..] == after;
    StringRoundTrip(value);
  }

  lemma EnterProvider(rest: Lines)
    ensures ReadBaseUrl([PROVIDER_BEGIN] + rest, false) == ReadBaseUrl(rest, true)
  {
    MarkersAreSolid();
    assert ([PROVIDER_BEGIN] + rest)[1..] == rest;
  }

  lemma SkipTableLine(rest: Lines)
    ensures ReadBaseUrl(["[model_providers.collectivus]"] + rest, true) == ReadBaseUrl(rest, true)
  {
    TableLine();
    BaseUrlElsewhere("[model_providers.collectivus]");
    SkipInner("[model_providers.collectivus]", rest);
  }

  lemma SkipNameLine(rest: Lines)
    ensures ReadBaseUrl(["name = " + TomlString("Collectivus OpenAI Proxy")] + rest, true) == ReadBaseUrl(rest, true)
  {
    NameLine();
    BaseUrlElsewhere("name = " + TomlString("Collectivus OpenAI Proxy"));
    SkipInner("name = " + TomlString("Collectivus OpenAI Proxy"), rest);
  }

  lemma RegroupThree(begin: Lines, a: string, b: string, c: string, flags: Lines, end: Lines)
    ensures begin + ([a, b, c] + flags) + end == begin + ([a] + ([b] + ([c] + (flags + end))))
  {
  }

  lemma ProviderBlockUrl(port: nat)
    ensures ReadBaseUrl(ProviderBlock(port), false) == Some(BaseUrl(port))
  {
    var a, b, c := "[model_providers.collectivus]", "name = " + TomlString("Collectivus OpenAI Proxy"),
      "base_url = " + TomlString(BaseUrl(port));
    var rest := PROVIDER_FLAGS + [PROVIDER_END];
    RegroupThree([PROVIDER_BEGIN], a, b, c, PROVIDER_FLAGS, [PROVIDER_END]);
    EnterProvider([a] + ([b] + ([c] + rest)));
    SkipTableLine([b] + ([c] + rest));
    SkipNameLine([c] + rest);
    ReadBaseUrlLine(port, rest);
  }

  function UrlLine(port: nat): string {
    "base_url = " + TomlString(BaseUrl(port))
  }

  lemma UrlLineMatches(port: nat)
    ensures MatchesPrefix(Assignment(Word("base_url")), UrlLine(port))
  {
    AssignmentMatches(Word("base_url"), "base_url", TomlString(BaseUrl(port)));
    assert "base_url" + " = " == "base_url = ";
  }

  lemma UrlLineParses(port: nat)
    ensures ParseAssignmentString(UrlLine(port)) == Some(BaseUrl(port))
  {
    KeyHasNoEquals("base_url ", BaseUrl(port));
    assert "base_url " + "= " == "base_url = ";
  }

  lemma ReadBaseUrlLine(port: nat, rest: Lines)
    ensures ReadBaseUrl(["base_url = " + TomlString(BaseUrl(port))] + rest, true) == Some(BaseUrl(port))
  {
    BaseUrlLine(port);
    UrlLineMatches(port);
    UrlLineParses(port);
    ReadUrlHere(UrlLine(port), rest);
  }

  lemma ReadUrlHere(line: string, rest: Lines)
    requires InnerLine(line) && MatchesPrefix(Assignment(Word("base_url")), line)
    ensures ReadBaseUrl([line] + rest, true) == ParseAssignmentString(line)
  {
    InnerLineIsNoMarker(line);
    assert ([line] + rest)[0] == line;
  }

  predicate Nullable(re: Re) {
    match re
    case Word(w) => w == ""
    case One(_) => false
    case Cat(l, r) => Nullable(l) && Nullable(r)
    case Alt(l, r) => Nullable(l) || Nullable(r)
    case Star(_) => true
  }

  lemma {:induction false} BlankMatches(re: Re)
    ensures Matches(re, "") <==> Nullable(re)
  {
    match re
    case Cat(l, r) =>
      BlankMatches(l);
      BlankMatches(r);
      assert forall k :: 0 <= k <= |""| ==> ""[..k] == "" && ""[k..] == "";
      assert ""[..0] == "" && ""[0..] == "";
    case Alt(l, r) =>
      BlankMatches(l);
      BlankMatches(r);
    case _ =>
  }

  lemma NoBlankAssignment(key: Re)
    ensures !MatchesPrefix(Assignment(key), "")
  {
    assert !Nullable(Cat(key, Cat(SPACES, Word("="))));
    BlankMatches(Assignment(key));
    assert forall k :: 0 <= k <= |""| ==> ""[..k] == "";
  }

  lemma NoBlankHeader(open: string, key: Re, close: string)
    requires open != ""
    ensures !Matches(Header(open, key, close), "")
  {
    assert !Nullable(Cat(Word(open), Cat(SPACES, Cat(key, Cat(SPACES, Cat(Word(close), LINE_TAIL))))));
    BlankMatches(Header(open, key, close));
  }

  lemma TomlBlankIsInert()
    ensures BlankIsInert(TOML)
  {
    NoBlankHeader("[", DOTTED_KEY, "]");
    NoBlankHeader("[[", DOTTED_KEY, "]]");
    NoBlankAssignment(Quotable("model_provider"));
    NoBlankAssignment(PROVIDER_DOTTED_KEY);
    NoBlankAssignment(Cat(PROVIDER_KEY, KEY_TAIL));
  }

  lemma NoHeader(line: string)
    requires line != "" && !IsSpace(line[0]) && line[0] != '['
    ensures !IsTableHeader(line)
  {
    if Matches(Header("[", DOTTED_KEY, "]"), line) {
      FirstLetter("[", Cat(SPACES, Cat(DOTTED_KEY, Cat(SPACES, Cat(Word("]"), LINE_TAIL)))), line);
    }
    if Matches(Header("[[", DOTTED_KEY, "]]"), line) {
      FirstLetter("[[", Cat(SPACES, Cat(DOTTED_KEY, Cat(SPACES, Cat(Word("]]"), LINE_TAIL)))), line);
    }
  }

  /** An assignment of a one-line basic string opens nothing. */
  lemma OpensNothing(key: string, t: string)
    requires key != "" && '=' !in key && !IsSpace(key[0]) && key[0] != '#'
    requires |t| >= 2 && t[0] == '"' && (|t| == 2 || t[1] != '"')
    ensures Open(key + "= " + t) == None
  {
    var line := key + "= " + t;
    assert line == key + ['='] + (" " + t);
    IndexOfCharUnique(key, '=', " " + t);
    assert line[|key| + 1..] == " " + t;
    TrimOneSpace(t);
    assert TrimStart(line) == line && line[0] == key[0];
    assert AssignmentValue(line) == Some(t);
    assert Basic.Mark()[1] == '"' && |Basic.Mark()| == 3 && LiteralQuotes.Mark()[0] == '\'';
  }

  lemma RestoredLineIsRoot(value: string)
    ensures IsRootModelProviderLine(ModelProviderLine(value))
  {
    AssignmentMatches(Quotable("model_provider"), "model_provider", TomlString(value));
    assert "model_provider" + " = " == "model_provider = ";
  }

  lemma PlainKey()
    ensures '=' !in "model_provider " && !IsSpace("model_provider "[0]) && "model_provider "[0] != '#'
  {
  }

  lemma QuotedAssignment(key: string, value: string)
    requires key != "" && '=' !in key && !IsSpace(key[0]) && key[0] != '#'
    ensures ParseAssignmentString(key + "= " + TomlString(value)) == Some(value)
    ensures Open(key + "= " + TomlString(value)) == None
  {
    var t := TomlString(value);
    KeyHasNoEquals(key, value);
    if value != "" { assert t[1] == EscapeChar(value[0])[0]; }
    OpensNothing(key, t);
  }

  lemma RestoredLineReadsBack(value: string)
    ensures ParseAssignmentString(ModelProviderLine(value)) == Some(value)
    ensures Open(ModelProviderLine(value)) == None
  {
    assert "model_provider " + "= " == "model_provider = ";
    PlainKey();
    QuotedAssignment("model_provider ", value);
  }

  /** The restored line is a one-line root assignment that reads back its value. */
  lemma RestoredLine(value: string)
    ensures var line := ModelProviderLine(value);
            TOML.isRootModelProvider(line) && !TOML.isTableHeader(line) && TOML.open(line) == None
    ensures ParseAssignmentString(ModelProviderLine(value)) == Some(value)
  {
    RestoredLineIsRoot(value);
    RestoredLineReadsBack(value);
    NoHeader(ModelProviderLine(value));
  }

  // ---------- main results ----------

  /** Attaching succeeds: no managed block is left open. */
  predicate Attachable(content: string) {
    Unmarked(SplitLines(content)).Some?
  }

  /** The provider that attaching records: the first root value that parses, or the one recorded before. */
  function ValueToRecord(g: Grammar, content: string): Option<string>
    requires Attachable(content)
  {
    var own := Unmarked(SplitLines(content)).value;
    var removed := RemovedValue(g, own, NextTable(g, own, None), None);
    if removed.Some? then removed else ReadPrevious(SplitLines(content), false)
  }

  /** The user's own lines that attaching keeps. */
  function KeptOf(g: Grammar, content: string): Lines {
    if Unmarked(SplitLines(content)).Some? then Kept(g, Unmarked(SplitLines(content)).value) else []
  }

  /** The user's lines in the written file, with the root and provider blocks taken out. */
  function Rest(g: Grammar, kept: Lines, root: Lines): Lines {
    Before(g, kept) + After(g, kept, root)
  }

  /** The kept lines without the blank lines that formatting cuts off. */
  function Tail(g: Grammar, kept: Lines): Lines {
    kept[CutOff(g, kept)..]
  }

  lemma RestParts(g: Grammar, kept: Lines, root: Lines)
    ensures Rest(g, kept, root) == Tail(g, kept) + Spacer(InsertRoot(g, kept, root))
    ensures kept == kept[..CutOff(g, kept)] + Tail(g, kept)
    ensures Tail(g, kept) == Before(g, kept) + kept[RootIndex(g, kept)..]
  {
    var i, k := RootIndex(g, kept), CutOff(g, kept);
    assert kept[k..] == kept[k..i] + kept[i..];
    Assoc(kept[k..i], kept[i..], Spacer(InsertRoot(g, kept, root)));
  }

  lemma AppendSpacer(g: Grammar, lines: Lines, spacer: Lines)
    requires BlankIsInert(g) && (spacer == [] || spacer == [""])
    ensures Alike(g, lines + spacer, lines)
    ensures RootIndex(g, lines + spacer) == RootIndex(g, lines)
  {
    AppendBlank(g, lines, Root, None);
    AppendBlankToRoot(g, lines, None);
    RootIndexAppendBlank(g, lines);
    assert lines + [] == lines;
  }

  lemma RestIsAlike(g: Grammar, kept: Lines, root: Lines)
    requires BlankIsInert(g)
    ensures Alike(g, Rest(g, kept, root), kept) && RootIndex(g, Rest(g, kept, root)) == |Before(g, kept)|
  {
    RestParts(g, kept, root);
    DropBlanks(g, kept, CutOff(g, kept));
    AppendSpacer(g, Tail(g, kept), Spacer(InsertRoot(g, kept, root)));
  }

  lemma NoMarkerParts(g: Grammar, kept: Lines, root: Lines, marker: string)
    requires NoMarker(kept, marker) && marker != ""
    ensures NoMarker(Before(g, kept), marker) && NoMarker(After(g, kept, root), marker)
  {
    assert Trim("") == "";
  }

  lemma NoMarkers(g: Grammar, kept: Lines, root: Lines)
    requires Own(kept)
    ensures NoMarker(Before(g, kept), ROOT_BEGIN) && NoMarker(Before(g, kept), PROVIDER_BEGIN)
    ensures NoMarker(After(g, kept, root), ROOT_BEGIN) && NoMarker(After(g, kept, root), PROVIDER_BEGIN)
  {
    MarkersAreSolid();
    NoMarkerParts(g, kept, root, ROOT_BEGIN);
    NoMarkerParts(g, kept, root, PROVIDER_BEGIN);
  }

  /** Everything a later run reads off the attached file. */
  lemma ReopenAttached(g: Grammar, content: string, now: string, version: string, port: nat)
    requires Attachable(content)
    ensures var att := Attach(g, content, now, version, port);
            && att.Some? && att.value.prevValue == ValueToRecord(g, content)
            && var kept, root := KeptOf(g, content), RootBlock(now, version, port, att.value.prevValue);
               var file := SplitLines(att.value.content);
               && att.value.content == FormatLines(WithBlocks(g, kept, root, ProviderBlock(port)))
               && Own(kept) && Cleared(g, kept)
               && file == Before(g, kept) + root + (After(g, kept, root) + ProviderBlock(port))
               && Unmarked(file) == Some(Rest(g, kept, root))
               && HasMarked(file, ROOT_BEGIN, ROOT_END) == Some(true) &&
                 HasMarked(file, PROVIDER_BEGIN, PROVIDER_END) == Some(true)
               && ReadPrevious(file, false) == Recorded(att.value.prevValue)
               && ReadBaseUrl(file, false) == Some(BaseUrl(port))
  {
    var att := Attach(g, content, now, version, port).value;
    var kept, root, provider := KeptOf(g, content), RootBlock(now, version, port, att.prevValue), ProviderBlock(port);
    SplitLinesPlain(content);
    KeptIsOwn(g, SplitLines(content));
    BlocksAreBlocks(now, version, port, att.prevValue);
    Reopened(g, kept, root, provider);
    NoMarkers(g, kept, root);
    var before, after := Before(g, kept), After(g, kept, root);
    UnmarkAttached(before, root, after, provider);
    Assoc(before, root, after + provider);
    SkipOutside(before, root + (after + provider));
    RootBlockRecords(now, version, port, att.prevValue, after + provider);
    NoMarkerAppend(before, root, PROVIDER_BEGIN);
    NoMarkerAppend(before + root, after, PROVIDER_BEGIN);
    SkipOutside(before + root + after, provider);
    Assoc(before + root, after, provider);
    ProviderBlockUrl(port);
  }

  /** The attached file is recognised as attached, for every file that can be attached. */
  lemma AttachIsManaged(g: Grammar, content: string, now: string, version: string, port: nat)
    requires Attachable(content)
    ensures Attach(g, content, now, version, port).Some?
    ensures ManagedAttached(Attach(g, content, now, version, port).value.content) == Some(true)
  {
    ReopenAttached(g, content, now, version, port);
  }

  lemma FormatRest(g: Grammar, kept: Lines, root: Lines)
    ensures FormatLines(Rest(g, kept, root)) == FormatLines(kept)
  {
    RestParts(g, kept, root);
    FormatAround(kept[..CutOff(g, kept)], Tail(g, kept), Spacer(InsertRoot(g, kept, root)));
  }

  /** Blank lines on either side are cut off in formatting. */
  lemma FormatAround(before: Lines, lines: Lines, after: Lines)
    requires AllBlank(before) && AllBlank(after)
    ensures FormatLines(lines + after) == FormatLines(lines) == FormatLines(before + lines)
  {
    FormatTrims([], lines, after);
    FormatTrims(before, lines, []);
    assert [] + lines + after == lines + after;
    assert before + lines + [] == before + lines;
  }

  lemma FormatInserted(g: Grammar, kept: Lines, root: Lines, insert: Lines)
    requires BlankIsInert(g)
    ensures FormatLines(InsertRoot(g, Rest(g, kept, root), insert)) == FormatLines(InsertRoot(g, kept, insert))
  {
    RestIsAlike(g, kept, root);
    var blanks, before, end := kept[..CutOff(g, kept)], Before(g, kept), kept[RootIndex(g, kept)..];
    var sp := Spacer(InsertRoot(g, kept, root));
    InsertBetween(g, Rest(g, kept, root), before, end + sp, insert);
    assert kept[..RootIndex(g, kept)] == blanks + before;
    Assoc(before + insert, end, sp);
    Assoc(blanks, before, insert);
    Assoc(blanks, before + insert, end);
    FormatAround(blanks, before + insert + end, sp);
  }

  lemma InsertBetween(g: Grammar, lines: Lines, before: Lines, after: Lines, insert: Lines)
    requires lines == before + after && RootIndex(g, lines) == |before|
    ensures InsertRoot(g, lines, insert) == before + insert + after
  {
  }

  /** The file a detach leaves, in terms of the lines that attaching kept. */
  function Restored(g: Grammar, kept: Lines, prev: Option<string>): string {
    FormatLines(if prev.None? then kept else InsertRoot(g, kept, [ModelProviderLine(prev.value)]))
  }

  /** What a detach does with the user's lines: the recorded provider goes in again, unless the root has one already;
      a different one is left in place with a warning. */
  function DetachedTo(g: Grammar, kept: Lines, prev: Option<string>, url: Option<string>): Detachment {
    var current := RootValue(g, kept);
    if prev.Some? && current.Some? then Changed(FormatLines(kept), url, None, if current == prev then None else current)
    else Changed(Restored(g, kept, prev), url, prev, None)
  }

  /** A detach, given what it reads off the file. */
  lemma DetachReads(g: Grammar, content: string, file: Lines, rest: Lines, prev: Option<string>, url: Option<string>)
    requires file == SplitLines(content) && Unmarked(file) == Some(rest) && Cleared(g, rest)
    requires HasMarked(file, ROOT_BEGIN, ROOT_END) == Some(true) &&
      HasMarked(file, PROVIDER_BEGIN, PROVIDER_END) == Some(true)
    requires ReadPrevious(file, false) == prev && ReadBaseUrl(file, false) == url
    ensures Detach(g, content) == Some(DetachedTo(g, rest, prev, url))
  {
    ClearedIsKept(g, rest);
  }

  /** An attach, given what it reads off the file. */
  lemma AttachReads(g: Grammar, content: string, file: Lines, rest: Lines, now: string, version: string, port: nat)
    requires file == SplitLines(content) && Unmarked(file) == Some(rest) && Settled(g, rest)
    ensures var prev := ReadPrevious(file, false);
            Attach(g, content, now, version, port) ==
            Some(Attachment(FormatLines(WithBlocks(g, rest, RootBlock(now, version, port, prev), ProviderBlock(port))),
              prev))
  {
    SettledIsKept(g, rest);
  }

  lemma DetachedFromRest(g: Grammar, kept: Lines, root: Lines, prev: Option<string>, url: Option<string>)
    requires BlankIsInert(g)
    ensures DetachedTo(g, Rest(g, kept, root), prev, url) == DetachedTo(g, kept, prev, url)
  {
    RestIsAlike(g, kept, root);
    RestoredFromRest(g, kept, root, prev);
    FormatRest(g, kept, root);
  }

  /** Detaching what was attached gives the kept lines back, with the recorded provider put in again: for every file
      that can be attached. Only a root value that comes into view in the kept lines stands in the way, and there is
      none when no root value opened a multi-line string. */
  lemma DetachUndoesAttach(g: Grammar, content: string, now: string, version: string, port: nat)
    requires BlankIsInert(g) && Attachable(content)
    ensures var att := Attach(g, content, now, version, port);
            && att.Some? && att.value.prevValue == ValueToRecord(g, content)
            && Detach(g, att.value.content) ==
              Some(DetachedTo(g, KeptOf(g, content), Recorded(ValueToRecord(g, content)), Some(BaseUrl(port))))
    ensures SingleLineRoot(g, Unmarked(SplitLines(content)).value, None) ==> RootValue(g, KeptOf(g, content)) == None
  {
    ReopenAttached(g, content, now, version, port);
    var att := Attach(g, content, now, version, port).value;
    var kept, root := KeptOf(g, content), RootBlock(now, version, port, att.prevValue);
    var prev, url := Recorded(att.prevValue), Some(BaseUrl(port));
    RestIsAlike(g, kept, root);
    DetachReads(g, att.content, SplitLines(att.content), Rest(g, kept, root), prev, url);
    DetachedFromRest(g, kept, root, prev, url);
    SingleLineRootClears(g, content);
  }

  lemma SingleLineRootClears(g: Grammar, content: string)
    requires Attachable(content)
    ensures SingleLineRoot(g, Unmarked(SplitLines(content)).value, None) ==>
      NoRootValue(g, KeptOf(g, content), None) && RootValue(g, KeptOf(g, content)) == None
  {
    var own := Unmarked(SplitLines(content)).value;
    KeptIsSettled(g, own);
    if SingleLineRoot(g, own, None) { NoRootValueIdentity(g, KeptOf(g, content), None); }
  }

  lemma RestoredFromRest(g: Grammar, kept: Lines, root: Lines, prev: Option<string>)
    requires BlankIsInert(g)
    ensures Restored(g, Rest(g, kept, root), prev) == Restored(g, kept, prev)
  {
    if prev.None? {
      FormatRest(g, kept, root);
    } else {
      FormatInserted(g, kept, root, [ModelProviderLine(prev.value)]);
    }
  }

  lemma SpacedAlready(g: Grammar, kept: Lines, root: Lines)
    requires root != [] && root[|root| - 1] != ""
    ensures Spacer(Before(g, kept) + root + After(g, kept, root)) == []
  {
    var i := RootIndex(g, kept);
    var inserted := InsertRoot(g, kept, root);
    assert i == |kept| ==> inserted[|inserted| - 1] == root[|root| - 1];
    if Spacer(inserted) == [] {
      assert inserted[|inserted| - 1] == "";
    }
  }

  /** Putting the blocks into the rest of the attached file makes the attached file again. */
  lemma BlocksAgain(g: Grammar, kept: Lines, root: Lines, provider: Lines)
    requires BlankIsInert(g) && root != [] && root[|root| - 1] != ""
    ensures FormatLines(WithBlocks(g, Rest(g, kept, root), root, provider)) ==
      FormatLines(WithBlocks(g, kept, root, provider))
  {
    var before, after := Before(g, kept), After(g, kept, root);
    RestIsAlike(g, kept, root);
    InsertBetween(g, Rest(g, kept, root), before, after, root);
    SpacedAlready(g, kept, root);
    assert before + root + after + [] == before + root + after;
    Assoc(before + root, after, provider);
    WithBlocksParts(g, kept, root, provider);
    FormatAround(kept[..CutOff(g, kept)], before + root + (after + provider), []);
  }

  /** Attaching to an attached file changes nothing, exactly when the value to record has no U+2028 or U+2029 and no
      root value comes into view in the kept lines, as none does when no root value opened a multi-line string. */
  lemma AttachIdempotent(g: Grammar, content: string, now: string, version: string, port: nat)
    requires BlankIsInert(g) && Attachable(content)
    ensures var att := Attach(g, content, now, version, port);
            && att.Some?
            && (Attach(g, att.value.content, now, version, port) == att <==>
                Recordable(ValueToRecord(g, content)) && NoRootValue(g, KeptOf(g, content), None))
    ensures SingleLineRoot(g, Unmarked(SplitLines(content)).value, None) ==> NoRootValue(g, KeptOf(g, content), None)
  {
    ReopenAttached(g, content, now, version, port);
    SingleLineRootClears(g, content);
    var att := Attach(g, content, now, version, port).value;
    var kept, root := KeptOf(g, content), RootBlock(now, version, port, att.prevValue);
    RestIsAlike(g, kept, root);
    if Attach(g, att.content, now, version, port) == Some(att) { FixedPointSettles(g, content, now, version, port); }
    if NoRootValue(g, kept, None) {
      AttachReads(g, att.content, SplitLines(att.content), Rest(g, kept, root), now, version, port);
      BlocksAreBlocks(now, version, port, att.prevValue);
      BlocksAgain(g, kept, root, ProviderBlock(port));
    }
  }

  predicate Recordable(prev: Option<string>) {
    prev.None? || NoSeparators(prev.value)
  }

  /** When a second attach changes nothing, it took no root value from the user's lines. */
  lemma FixedPointSettles(g: Grammar, content: string, now: string, version: string, port: nat)
    requires BlankIsInert(g) && Attachable(content)
    requires var att := Attach(g, content, now, version, port);
             att.Some? && Attach(g, att.value.content, now, version, port) == att
    ensures NoRootValue(g, KeptOf(g, content), None)
  {
    var att := Attach(g, content, now, version, port).value;
    var kept, root := KeptOf(g, content), RootBlock(now, version, port, att.prevValue);
    var rest := Rest(g, kept, root);
    ReopenAttached(g, content, now, version, port);
    ReopenAttached(g, att.content, now, version, port);
    var again := KeptOf(g, att.content);
    assert again == Kept(g, rest);
    assert Rest(g, again, root) == rest;
    RestVisible(g, kept, root);
    RestVisible(g, again, root);
    KeptCounts(g, rest);
    RestIsAlike(g, kept, root);
  }

  lemma RestVisible(g: Grammar, kept: Lines, root: Lines)
    ensures Visible(Rest(g, kept, root)) == Visible(kept)
  {
    RestParts(g, kept, root);
    var blanks, spacer := kept[..CutOff(g, kept)], Spacer(InsertRoot(g, kept, root));
    BlanksInvisible(blanks);
    BlanksInvisible(spacer);
    VisibleAppend(blanks, Tail(g, kept));
    VisibleAppend(Tail(g, kept), spacer);
  }

  lemma {:induction false} BlanksInvisible(lines: Lines)
    requires AllBlank(lines)
    ensures Visible(lines) == 0
  {
    if lines != [] { BlanksInvisible(lines[1..]); }
  }

  // ---------- the file as the user wrote it ----------

  /** No managed block, no collectivus provider, no root model_provider. */
  predicate Untouched(g: Grammar, lines: Lines) {
    NoMarker(lines, ROOT_BEGIN) && NoMarker(lines, PROVIDER_BEGIN) && Settled(g, lines)
  }

  lemma UnmarkedIdentity(lines: Lines)
    requires NoMarker(lines, ROOT_BEGIN) && NoMarker(lines, PROVIDER_BEGIN)
    ensures Unmarked(lines) == Some(lines) && ReadPrevious(lines, false) == None
  {
    RemoveNoMarker(lines, ROOT_BEGIN, ROOT_END);
    RemoveNoMarker(lines, PROVIDER_BEGIN, PROVIDER_END);
    SkipOutside(lines, []);
    assert lines + [] == lines;
  }

  /** A file collectivus has nothing to do with comes back as its formatted lines. */
  lemma UntouchedComesBack(content: string, now: string, version: string, port: nat)
    requires Untouched(TOML, SplitLines(content))
    ensures var att := Attach(TOML, content, now, version, port);
            && att.Some? && att.value.prevValue == None
            && Detach(TOML, att.value.content) ==
               Some(Changed(FormatLines(SplitLines(content)), Some(BaseUrl(port)), None, None))
  {
    var lines := SplitLines(content);
    UnmarkedIdentity(lines);
    NoRootValueIdentity(TOML, lines, None);
    SettledIsKept(TOML, lines);
    TomlBlankIsInert();
    DetachUndoesAttach(TOML, content, now, version, port);
  }

  /** The multi-line string left open by lines with no table header in view. */
  function StateAfter(g: Grammar, lines: Lines, d: Option<Delim>): Option<Delim>
    decreases |lines|
  {
    if lines == [] then d else StateAfter(g, lines[1..], Advance(g, lines[0], d))
  }

  /** Without its root assignments a file is `rest`, and the first value among them is `value`. */
  predicate Removes(g: Grammar, lines: Lines, rest: Lines, value: Option<string>, d: Option<Delim>) {
    && SingleLineRoot(g, lines, d)
    && RemoveRoot(g, lines, NextTable(g, lines, d), d) == rest
    && RemovedValue(g, lines, NextTable(g, lines, d), d) == value
  }

  lemma RemovesHere(g: Grammar, line: string, after: Lines)
    requires g.isRootModelProvider(line) && !g.isTableHeader(line) && g.open(line) == None &&
      NoRootValue(g, after, None)
    ensures Removes(g, [line] + after, after, ParseAssignmentString(line), None)
  {
    assert ([line] + after)[1..] == after;
    NoRootValueIdentity(g, after, None);
  }

  lemma RemovesLater(g: Grammar, first: string, lines: Lines, rest: Lines, value: Option<string>, d: Option<Delim>)
    requires Removes(g, lines, rest, value, Advance(g, first, d))
    requires d.None? ==> !g.isTableHeader(first) && !g.isRootModelProvider(first)
    ensures Removes(g, [first] + lines, [first] + rest, value, d)
  {
    assert ([first] + lines)[1..] == lines;
  }

  /** Taking out the one root assignment leaves every other line where it was. */
  lemma {:induction false} RemoveOneValue(g: Grammar, before: Lines, line: string, after: Lines, d: Option<Delim>)
    requires NextTable(g, before, d) == |before| && StateAfter(g, before, d) == None
    requires g.isRootModelProvider(line) && !g.isTableHeader(line) && g.open(line) == None
    requires NoRootValue(g, before + after, d)
    ensures Removes(g, before + [line] + after, before + after, ParseAssignmentString(line), d)
    decreases |before|
  {
    if before == [] {
      assert before + [line] + after == [line] + after && before + after == after;
      RemovesHere(g, line, after);
    } else {
      var first, later := before[0], before[1..];
      FirstApart(before, [line], after);
      FirstApart(before, [], after);
      RemoveOneValue(g, later, line, after, Advance(g, first, d));
      RemovesLater(g, first, later + [line] + after, later + after, ParseAssignmentString(line), d);
    }
  }

  lemma FirstApart(a: Lines, b: Lines, c: Lines)
    requires a != []
    ensures a + b + c == [a[0]] + (a[1..] + b + c)
    ensures b == [] ==> a + c == [a[0]] + (a[1..] + c)
    ensures (a + c)[0] == a[0] && (a + c)[1..] == a[1..] + c
  {
    assert a == [a[0]] + a[1..];
    Assoc([a[0]], a[1..], b);
    Assoc([a[0]], a[1..] + b, c);
    Assoc([a[0]], a[1..], c);
  }

  /** A file whose one root assignment is `line`, outside multi-line strings and tables. */
  ghost predicate OneValue(before: Lines, line: string, after: Lines, value: string) {
    && NoMarker(before + [line] + after, ROOT_BEGIN) && NoMarker(before + [line] + after, PROVIDER_BEGIN)
    && Settled(TOML, before + after)
    && NextTable(TOML, before, None) == |before| && StateAfter(TOML, before, None) == None
    && TOML.isRootModelProvider(line) && !TOML.isTableHeader(line) && TOML.open(line) == None
    && ParseAssignmentString(line) == Some(value)
  }

  /** What attaching makes of such a file. */
  lemma ValueRead(content: string, before: Lines, line: string, after: Lines, value: string)
    requires SplitLines(content) == before + [line] + after && OneValue(before, line, after, value)
    ensures Attachable(content) && KeptOf(TOML, content) == before + after &&
      ValueToRecord(TOML, content) == Some(value)
    ensures NoRootValue(TOML, before + after, None) && RootValue(TOML, before + after) == None
  {
    UnmarkedIdentity(SplitLines(content));
    RemoveOneValue(TOML, before, line, after, None);
    SectionFilterIdentity(TOML, before + after, None);
    AssignmentFilterIdentity(TOML, before + after, Root, None);
    NoRootValueIdentity(TOML, before + after, None);
  }

  /** With one root provider, attach and detach keep every other line in order and put the value back, unless it holds
      U+2028 or U+2029: then it is lost. */
  lemma ValueComesBack(content: string, before: Lines, line: string, after: Lines, value: string, now: string,
      version: string, port: nat)
    requires SplitLines(content) == before + [line] + after && OneValue(before, line, after, value)
    ensures var att := Attach(TOML, content, now, version, port);
            && att.Some? && att.value.prevValue == Some(value)
            && var prev := if NoSeparators(value) then Some(value) else None;
               Detach(TOML, att.value.content) ==
                 Some(Changed(Restored(TOML, before + after, prev), Some(BaseUrl(port)), prev, None))
  {
    ValueRead(content, before, line, after, value);
    RecordComesBack(content, before + after, value, now, version, port);
  }

  lemma RecordComesBack(content: string, kept: Lines, value: string, now: string, version: string, port: nat)
    requires Attachable(content) && KeptOf(TOML, content) == kept && ValueToRecord(TOML, content) == Some(value)
    requires RootValue(TOML, kept) == None
    ensures var att := Attach(TOML, content, now, version, port);
            && att.Some? && att.value.prevValue == Some(value)
            && var prev := if NoSeparators(value) then Some(value) else None;
               Detach(TOML, att.value.content) ==
                 Some(Changed(Restored(TOML, kept, prev), Some(BaseUrl(port)), prev, None))
  {
    TomlBlankIsInert();
    DetachUndoesAttach(TOML, content, now, version, port);
  }

  /** An input on which attaching twice loses the provider: its name is the line separator. */
  lemma SeparatorIsLost(now: string, version: string, port: nat)
    ensures var content := ModelProviderLine("\U{2028}") + "\n";
            var att := Attach(TOML, content, now, version, port);
            && att.Some? && att.value.prevValue == Some("\U{2028}")
            && Attach(TOML, att.value.content, now, version, port) != att
  {
    var value := "\U{2028}";
    var line := ModelProviderLine(value);
    var content := line + "\n";
    OneLineFile(line, value);
    TomlBlankIsInert();
    ValueRead(content, [], line, [], value);
    AttachIdempotent(TOML, content, now, version, port);
    DetachUndoesAttach(TOML, content, now, version, port);
    assert !NoSeparators(value) by { assert value[0] == '\U{2028}'; }
  }

  lemma OneLineFile(line: string, value: string)
    requires line == ModelProviderLine(value)
    ensures SplitLines(line + "\n") == [] + [line] + [] && OneValue([], line, [], value)
  {
    ModelProviderInner(value);
    InnerLineAlone(line);
    RestoredLine(value);
    OneValueAlone(line, value);
  }

  lemma OneValueAlone(line: string, value: string)
    requires Own([line]) && ParseAssignmentString(line) == Some(value)
    requires TOML.isRootModelProvider(line) && !TOML.isTableHeader(line) && TOML.open(line) == None
    ensures [] + [line] + [] == [line] && OneValue([], line, [], value)
  {
    var none: Lines := [];
    assert none + [line] + none == [line] && none + none == none;
  }

  lemma InnerLineAlone(line: string)
    requires InnerLine(line)
    ensures Own([line]) && SplitLines(line + "\n") == [line]
  {
    InnerLineIsNoMarker(line);
    assert [line][0] == line;
    SplitJoined([line]);
  }

  // ---------- the restored value reads back ----------

  lemma {:induction false} PrefixState(g: Grammar, lines: Lines, i: nat, d: Option<Delim>)
    requires i <= NextTable(g, lines, d)
    ensures NextTable(g, lines[..i], d) == i
    ensures ReadRoot(g, lines, NextTable(g, lines, d), d) == None ==> ReadRoot(g, lines[..i], i, d) == None
    ensures i == NextTable(g, lines, d) < |lines| ==> StateAfter(g, lines[..i], d) == None
    decreases i
  {
    if i > 0 {
      PrefixState(g, lines[1..], i - 1, Advance(g, lines[0], d));
      assert lines[..i][1..] == lines[1..][..i - 1];
    }
  }

  lemma {:induction false} ReadRootAt(g: Grammar, before: Lines, line: string, after: Lines, d: Option<Delim>)
    requires NextTable(g, before, d) == |before| && ReadRoot(g, before, |before|, d) == None
    requires g.isRootModelProvider(line) && !g.isTableHeader(line) && ParseAssignmentString(line).Some?
    requires StateAfter(g, before, d).Some? ==> after == []
    ensures var lines := before + [line] + after;
            ReadRoot(g, lines, NextTable(g, lines, d), d) ==
            if StateAfter(g, before, d) == None then ParseAssignmentString(line) else None
    decreases |before|
  {
    var lines := before + [line] + after;
    if before == [] {
      assert lines[0] == line && lines[1..] == after;
    } else {
      assert lines[0] == before[0] && lines[1..] == before[1..] + [line] + after;
      ReadRootAt(g, before[1..], line, after, Advance(g, before[0], d));
    }
  }

  lemma {:induction false} DropTrailingAfter(lines: Lines, after: Lines)
    requires lines != [] && lines[|lines| - 1] != ""
    ensures DropTrailing(lines + after) == lines + DropTrailing(after)
    decreases |after|
  {
    if after == [] {
      assert lines + after == lines;
    } else if after[|after| - 1] == "" {
      assert (lines + after)[..|lines + after| - 1] == lines + after[..|after| - 1];
      DropTrailingAfter(lines, after[..|after| - 1]);
    }
  }

  lemma {:induction false} DropTrailingSubset(lines: Lines)
    ensures DropTrailing(lines) <= lines
    ensures AllBlank(lines) ==> DropTrailing(lines) == []
    decreases |lines|
  {
    if lines != [] && lines[|lines| - 1] == "" {
      DropTrailingSubset(lines[..|lines| - 1]);
    }
  }

  /** The restored file, split again: the root lines, the assignment, what follows. */
  lemma RestoredLines(g: Grammar, kept: Lines, value: string)
    requires PlainLines(kept)
    ensures SplitLines(Restored(g, kept, Some(value))) ==
            Before(g, kept) + [ModelProviderLine(value)] + DropTrailing(kept[RootIndex(g, kept)..])
  {
    var i, k := RootIndex(g, kept), CutOff(g, kept);
    var line := ModelProviderLine(value);
    ModelProviderInner(value);
    var head := Before(g, kept) + [line];
    assert kept[..i] == kept[..k] + Before(g, kept);
    assert InsertRoot(g, kept, [line]) == kept[..k] + (head + kept[i..]);
    BeforeStarts(g, kept);
    forall l | l in head + kept[i..] ensures PlainLine(l) {
      assert l in kept || l == line;
    }
    TrailingCut(kept[..k], head, kept[i..]);
  }

  lemma TrailingCut(blanks: Lines, head: Lines, after: Lines)
    requires AllBlank(blanks) && PlainLines(head + after) && head != [] && head[0] != "" && head[|head| - 1] != ""
    ensures SplitLines(FormatLines(blanks + (head + after))) == head + DropTrailing(after)
  {
    DropLeadingBlanks(blanks, head + after);
    assert DropLeading(head + after) == head + after;
    DropTrailingAfter(head, after);
    DropTrailingSubset(after);
    var out := head + DropTrailing(after);
    forall l | l in out ensures PlainLine(l) { assert l in head + after; }
    SplitJoined(out);
  }

  lemma BlanksFollow(kept: Lines, k: nat, i: nat)
    requires k <= i <= |kept| && i - k >= TrimmedLength(kept[k..])
    ensures DropTrailing(kept[i..]) == []
  {
    var tail, after := kept[k..], kept[i..];
    TrimmedLengthMeaning(tail);
    forall j | 0 <= j < |after| ensures after[j] == "" { assert after[j] == tail[i - k + j]; }
    assert AllBlank(after);
    DropTrailingSubset(after);
  }

  /** A string left open before the root's end leaves nothing but blank lines after it. */
  lemma OpenStringReachesEnd(kept: Lines)
    requires Own(kept)
    ensures StateAfter(TOML, Before(TOML, kept), None).Some? ==> DropTrailing(kept[RootIndex(TOML, kept)..]) == []
  {
    TomlBlankIsInert();
    var i, k := RootIndex(TOML, kept), CutOff(TOML, kept);
    var tail, before := Tail(TOML, kept), Before(TOML, kept);
    DropBlanks(TOML, kept, k);
    RootIndexBound(TOML, tail);
    assert tail[..i - k] == before;
    PrefixState(TOML, tail, i - k, None);
    if StateAfter(TOML, before, None).Some? { BlanksFollow(kept, k, i); }
  }

  /** The root lines before the place of the assignment hold no table header, and no value when the root has none. */
  lemma BeforeHasNoValue(kept: Lines)
    requires RootValue(TOML, kept) == None
    ensures var before := Before(TOML, kept);
            NextTable(TOML, before, None) == |before| && ReadRoot(TOML, before, |before|, None) == None
  {
    TomlBlankIsInert();
    var i, k := RootIndex(TOML, kept), CutOff(TOML, kept);
    var tail := Tail(TOML, kept);
    DropBlanks(TOML, kept, k);
    RootIndexBound(TOML, tail);
    assert tail[..i - k] == Before(TOML, kept);
    PrefixState(TOML, tail, i - k, None);
  }

  /** The restored value reads back at the root exactly when the root lines leave no multi-line string open. */
  lemma RestoredValueReadsBack(kept: Lines, value: string)
    requires Own(kept) && RootValue(TOML, kept) == None
    ensures RootValue(TOML, SplitLines(Restored(TOML, kept, Some(value)))) ==
            if StateAfter(TOML, Before(TOML, kept), None) == None then Some(value) else None
  {
    BeforeHasNoValue(kept);
    RestoredLine(value);
    RestoredLines(TOML, kept, value);
    OpenStringReachesEnd(kept);
    var after := DropTrailing(kept[RootIndex(TOML, kept)..]);
    ReadRootAt(TOML, Before(TOML, kept), ModelProviderLine(value), after, None);
  }

  lemma {:induction false} DropLeadingAlike(g: Grammar, lines: Lines)
    requires BlankIsInert(g)
    ensures Alike(g, DropLeading(lines), lines)
    decreases |lines|
  {
    if lines != [] && lines[0] == "" {
      DropBlank(g, lines);
      DropLeadingAlike(g, lines[1..]);
    }
  }

  lemma {:induction false} DropTrailingAlike(g: Grammar, lines: Lines)
    requires BlankIsInert(g)
    ensures Alike(g, DropTrailing(lines), lines)
    decreases |lines|
  {
    if lines != [] && lines[|lines| - 1] == "" {
      var front := lines[..|lines| - 1];
      assert lines == front + [""];
      AppendSpacer(g, front, [""]);
      DropTrailingAlike(g, front);
    }
  }

  /** Formatting moves nothing: the formatted file, split again, is alike for every filter. */
  lemma FormattedIsAlike(g: Grammar, lines: Lines)
    requires BlankIsInert(g) && PlainLines(lines)
    ensures Alike(g, SplitLines(FormatLines(lines)), lines)
  {
    var front := DropLeading(lines);
    DropLeadingAlike(g, lines);
    DropTrailingAlike(g, front);
    DropTrailingSubset(front);
    DropLeadingIs(lines);
    var out := DropTrailing(front);
    if out != [] {
      forall l | l in out ensures PlainLine(l) { assert l in lines; }
      SplitJoined(out);
    }
  }

  lemma OwnLines(content: string, before: Lines, line: string, after: Lines, value: string)
    requires SplitLines(content) == before + [line] + after && OneValue(before, line, after, value)
    ensures Own(before + after)
  {
    SplitLinesPlain(content);
    var file := before + [line] + after;
    forall l | l in before + after ensures l in file { }
    forall j | 0 <= j < |before + after| ensures (before + after)[j] in file { }
  }

  /** The provider that the root reads once a file was attached and detached; None when either fails. */
  function ReadAgain(content: string, now: string, version: string, port: nat): Option<Option<string>> {
    var att := Attach(TOML, content, now, version, port);
    if att.None? then None
    else
      var det := Detach(TOML, att.value.content);
      if det.None? || det.value.Unchanged? then None else Some(RootValue(TOML, SplitLines(det.value.content)))
  }

  /** What a detach restores reads back, or nothing was restored and nothing is read. */
  lemma RestoredReads(kept: Lines, value: string)
    requires Own(kept) && RootValue(TOML, kept) == None
    ensures var prev := if NoSeparators(value) then Some(value) else None;
            var closed := StateAfter(TOML, Before(TOML, kept), None) == None;
            RootValue(TOML, SplitLines(Restored(TOML, kept, prev))) ==
            if NoSeparators(value) && closed then Some(value) else None
  {
    if NoSeparators(value) {
      RestoredValueReadsBack(kept, value);
    } else {
      TomlBlankIsInert();
      FormattedIsAlike(TOML, kept);
    }
  }

  /** A root provider reads back from the file that attach and detach leave if and only if it holds no U+2028 or U+2029
      and the lines before the place it goes to leave no multi-line string open. */
  lemma ValueReadsBack(content: string, before: Lines, line: string, after: Lines, value: string, now: string,
      version: string, port: nat)
    requires SplitLines(content) == before + [line] + after && OneValue(before, line, after, value)
    ensures var closed := StateAfter(TOML, Before(TOML, before + after), None) == None;
            ReadAgain(content, now, version, port) == Some(if NoSeparators(value) && closed then Some(value) else None)
  {
    ValueComesBack(content, before, line, after, value, now, version, port);
    ReadsAsKept(content, before, line, after, value);
  }

  lemma ReadsAsKept(content: string, before: Lines, line: string, after: Lines, value: string)
    requires SplitLines(content) == before + [line] + after && OneValue(before, line, after, value)
    ensures var prev := if NoSeparators(value) then Some(value) else None;
            var closed := StateAfter(TOML, Before(TOML, before + after), None) == None;
            RootValue(TOML, SplitLines(Restored(TOML, before + after, prev))) ==
            if NoSeparators(value) && closed then Some(value) else None
  {
    ValueRead(content, before, line, after, value);
    OwnLines(content, before, line, after, value);
    RestoredReads(before + after, value);
  }

  lemma RootIndexBound(g: Grammar, lines: Lines)
    ensures RootIndex(g, lines) <= NextTable(g, lines, None)
    ensures NextTable(g, lines, None) < |lines| ==> RootIndex(g, lines) == NextTable(g, lines, None)
  {
  }
}
