/** What attaching achieves: which provider the root of the attached file reads. */
module CodexTomlEffect {
  import opened Wrappers
  import opened Text
  import opened TomlText
  import opened CodexToml
  import opened CodexTomlLines
  import opened CodexTomlTheorems
  import opened CodexTomlInputs
  import TomlGrammar

  /** The lines of the root block before its assignment. */
  function Comments(now: string, version: string, port: nat, prev: Option<string>): Lines {
    [ROOT_BEGIN]
    + (["# attached_at = " + TomlString(now), "# version = " + TomlString(version), "# port = " + Digits(port)]
       + if prev.Some? then [PreviousLine(prev.value)] else [])
  }

  lemma BlockParts(now: string, version: string, port: nat, prev: Option<string>)
    ensures RootBlock(now, version, port, prev) ==
            Comments(now, version, port, prev) + ([ModelProviderLine("collectivus")] + [ROOT_END])
  {
    var notes := ["# attached_at = " + TomlString(now), "# version = " + TomlString(version),
      "# port = " + Digits(port)]
      + if prev.Some? then [PreviousLine(prev.value)] else [];
    Assoc([ROOT_BEGIN], notes, [ModelProviderLine("collectivus")]);
    Assoc([ROOT_BEGIN] + notes, [ModelProviderLine("collectivus")], [ROOT_END]);
  }

  /** A comment at the very start of its line. */
  predicate Marked(line: string) {
    line != "" && line[0] == '#'
  }

  lemma MarkedReads(line: string)
    requires Marked(line)
    ensures !IsTableHeader(line) && !IsRootModelProviderLine(line)
  {
    NoHeader(line);
    NoRootValueAt(line);
  }

  /** A line that begins with something else is no root provider line. */
  lemma NoRootValueAt(line: string)
    requires line != "" && !IsSpace(line[0]) && line[0] != 'm' && line[0] != '"' && line[0] != '\''
    ensures !IsRootModelProviderLine(line)
  {
    if IsRootModelProviderLine(line) { RootStarts(line); }
  }

  lemma RootStarts(line: string)
    requires IsRootModelProviderLine(line)
    ensures line != "" && (IsSpace(line[0]) || line[0] == 'm' || line[0] == '"' || line[0] == '\'')
  {
    TomlGrammar.RootAssignmentIff(line);
    var key :| TomlGrammar.Names(key, "model_provider") && TomlGrammar.Sets(line, key);
    var a, b, value :| line == a + (key + (b + ("=" + value))) && TomlGrammar.Blank(a) && TomlGrammar.Blank(b);
    assert key[0] == 'm' || key[0] == '"' || key[0] == '\'';
    assert line[0] == if a == "" then key[0] else a[0];
  }

  // ---------- reading a root in parts ----------

  lemma {:induction false} ReadParts(g: Grammar, a: Lines, b: Lines, d: Option<Delim>)
    requires NextTable(g, a, d) == |a|
    ensures var first := ReadRoot(g, a, |a|, d);
            ReadRoot(g, a + b, NextTable(g, a + b, d), d) ==
            if first.Some? then first else ReadRoot(g, b, NextTable(g, b, StateAfter(g, a, d)), StateAfter(g, a, d))
    decreases |a|
  {
    if a == [] {
      assert a + b == b;
    } else {
      assert (a + b)[1..] == a[1..] + b && (a + b)[0] == a[0];
      ReadParts(g, a[1..], b, Advance(g, a[0], d));
    }
  }

  lemma {:induction false} NothingRead(g: Grammar, lines: Lines, n: nat, d: Option<Delim>)
    requires forall k :: 0 <= k < |lines| ==> !g.isRootModelProvider(lines[k])
    ensures ReadRoot(g, lines, n, d) == None
    ensures (forall k :: 0 <= k < |lines| ==> !g.isTableHeader(lines[k])) ==> NextTable(g, lines, d) == |lines|
    decreases |lines|
  {
    if lines != [] { NothingRead(g, lines[1..], if n > 0 then n - 1 else 0, Advance(g, lines[0], d)); }
  }

  /** The root lines before the place of the block read as the root of all lines does. */
  lemma BeforeReads(kept: Lines)
    ensures var before := Before(TOML, kept);
            NextTable(TOML, before, None) == |before| && ReadRoot(TOML, before, |before|, None) == RootValue(TOML, kept)
  {
    TomlBlankIsInert();
    var i, k := RootIndex(TOML, kept), CutOff(TOML, kept);
    var tail := Tail(TOML, kept);
    DropBlanks(TOML, kept, k);
    assert tail[..i - k] == Before(TOML, kept);
    FrontReads(tail, i - k);
  }

  lemma FrontReads(tail: Lines, m: nat)
    requires m == RootIndex(TOML, tail)
    ensures NextTable(TOML, tail[..m], None) == m && ReadRoot(TOML, tail[..m], m, None) == RootValue(TOML, tail)
  {
    RootIndexBound(TOML, tail);
    PrefixState(TOML, tail, m, None);
    ReadParts(TOML, tail[..m], tail[m..], None);
    assert tail == tail[..m] + tail[m..];
    RestReadsNothing(tail, m);
  }

  lemma RestReadsNothing(tail: Lines, m: nat)
    requires m == RootIndex(TOML, tail) <= |tail|
    ensures var d := StateAfter(TOML, tail[..m], None);
            ReadRoot(TOML, tail[m..], NextTable(TOML, tail[m..], d), d) == None
  {
    TomlBlankIsInert();
    var d := StateAfter(TOML, tail[..m], None);
    if NextTable(TOML, tail, None) == |tail| {
      TrimmedLengthMeaning(tail);
      forall j | 0 <= j < |tail[m..]|
        ensures !TOML.isRootModelProvider(tail[m..][j]) { assert tail[m..][j] == tail[m + j]; }
      NothingRead(TOML, tail[m..], NextTable(TOML, tail[m..], d), d);
    } else {
      PrefixState(TOML, tail, m, None);
      HeaderAtNextTable(TOML, tail, None);
      assert tail[m..][0] == tail[m];
    }
  }

  lemma CommentsRead(now: string, version: string, port: nat, prev: Option<string>, d: Option<Delim>)
    ensures var lines := Comments(now, version, port, prev);
            && NextTable(TOML, lines, d) == |lines| && ReadRoot(TOML, lines, |lines|, d) == None
            && (d == None ==> StateAfter(TOML, lines, d) == None)
  {
    var lines := Comments(now, version, port, prev);
    forall k | 0 <= k < |lines| ensures !TOML.isTableHeader(lines[k]) && !TOML.isRootModelProvider(lines[k]) {
      CommentsMarked(now, version, port, prev, k);
      MarkedReads(lines[k]);
    }
    NothingRead(TOML, lines, |lines|, d);
    if d == None {
      forall k | 0 <= k < |lines| ensures Marked(lines[k]) { CommentsMarked(now, version, port, prev, k); }
      MarkedOpensNothing(lines);
    }
  }

  lemma CommentsMarked(now: string, version: string, port: nat, prev: Option<string>, k: nat)
    requires k < |Comments(now, version, port, prev)|
    ensures Marked(Comments(now, version, port, prev)[k])
  {
    assert ROOT_BEGIN[0] == '#';
  }

  lemma {:induction false} MarkedOpensNothing(lines: Lines)
    requires forall k :: 0 <= k < |lines| ==> Marked(lines[k])
    ensures StateAfter(TOML, lines, None) == None
  {
    if lines != [] {
      TomlGrammar.CommentOpens("", lines[0][1..]);
      assert "" + ("#" + lines[0][1..]) == lines[0];
      MarkedOpensNothing(lines[1..]);
    }
  }

  lemma {:induction false} StateParts(g: Grammar, a: Lines, b: Lines, d: Option<Delim>)
    ensures StateAfter(g, a + b, d) == StateAfter(g, b, StateAfter(g, a, d))
    decreases |a|
  {
    if a == [] {
      assert a + b == b;
    } else {
      assert (a + b)[1..] == a[1..] + b;
      StateParts(g, a[1..], b, Advance(g, a[0], d));
    }
  }

  // ---------- behind the assignment ----------

  /** A line that sets no root provider, whatever string it stands in. */
  predicate Harmless(line: string) {
    line == "" || (!IsSpace(line[0]) && line[0] != 'm' && line[0] != '"' && line[0] != '\'')
  }

  lemma HarmlessReads(line: string)
    requires Harmless(line)
    ensures !IsRootModelProviderLine(line)
  {
    if line == "" { TomlBlankIsInert(); } else { NoRootValueAt(line); }
  }

  /** A text that begins harmlessly. */
  lemma HarmlessStart(front: string, value: string)
    requires front != "" && Harmless(front)
    ensures Harmless(front + TomlString(value))
  {
  }

  predicate AllHarmless(lines: Lines) {
    forall k :: 0 <= k < |lines| ==> Harmless(lines[k])
  }

  lemma ProviderIsHarmless(port: nat)
    ensures AllHarmless(ProviderBlock(port))
  {
    InnerHarmless(port);
    HarmlessWrapped(ProviderInner(port));
  }

  lemma HarmlessWrapped(inner: Lines)
    requires AllHarmless(inner)
    ensures AllHarmless([PROVIDER_BEGIN] + inner + [PROVIDER_END])
  {
    assert PROVIDER_BEGIN[0] == '#' && PROVIDER_END[0] == '#';
  }

  lemma NameHarmless()
    ensures Harmless("name = " + TomlString("Collectivus OpenAI Proxy"))
  {
    HarmlessStart("name = ", "Collectivus OpenAI Proxy");
  }

  lemma UrlHarmless(port: nat)
    ensures Harmless("base_url = " + TomlString(BaseUrl(port)))
  {
    HarmlessStart("base_url = ", BaseUrl(port));
  }

  lemma InnerHarmless(port: nat)
    ensures AllHarmless(ProviderInner(port))
  {
    var a, b, c := "[model_providers.collectivus]", "name = " + TomlString("Collectivus OpenAI Proxy"),
      "base_url = " + TomlString(BaseUrl(port));
    HeaderHarmless();
    NameHarmless();
    UrlHarmless(port);
    HarmlessLines(a, b, c);
    FlagsHarmless();
    HarmlessAppend([a, b, c], PROVIDER_FLAGS);
  }

  lemma HarmlessLines(a: string, b: string, c: string)
    requires Harmless(a) && Harmless(b) && Harmless(c)
    ensures AllHarmless([a, b, c])
  {
  }

  lemma HeaderHarmless()
    ensures Harmless("[model_providers.collectivus]")
  {
  }

  lemma FlagsHarmless()
    ensures AllHarmless(PROVIDER_FLAGS)
  {
    assert PROVIDER_FLAGS[0][0] == 'r' && PROVIDER_FLAGS[1][0] == 'w' && PROVIDER_FLAGS[2][0] == 's';
  }

  /** With a string open before the block, nothing but blank lines and the provider block follows it. */
  lemma BehindOpenString(kept: Lines, root: Lines, port: nat)
    requires Own(kept) && StateAfter(TOML, Before(TOML, kept), None).Some?
    ensures AllHarmless(After(TOML, kept, root) + ProviderBlock(port))
  {
    OpenStringReachesEnd(kept);
    var end := kept[RootIndex(TOML, kept)..];
    NothingKept(end);
    var spacer, provider := Spacer(InsertRoot(TOML, kept, root)), ProviderBlock(port);
    ProviderIsHarmless(port);
    HarmlessAppend(end, spacer);
    HarmlessAppend(end + spacer, provider);
  }

  lemma HarmlessAppend(a: Lines, b: Lines)
    requires AllHarmless(a) && AllHarmless(b)
    ensures AllHarmless(a + b)
  {
  }

  lemma {:induction false} NothingKept(lines: Lines)
    requires DropTrailing(lines) == []
    ensures AllBlank(lines)
    decreases |lines|
  {
    if lines != [] {
      NothingKept(lines[..|lines| - 1]);
      forall j | 0 <= j < |lines| ensures lines[j] ==
        "" { assert j < |lines| - 1 ==> lines[..|lines| - 1][j] == lines[j]; }
    }
  }

  // ---------- the attached file ----------

  /** The multi-line string left open just before the assignment that attaching writes. */
  function OpenBefore(kept: Lines, now: string, version: string, port: nat, prev: Option<string>): Option<Delim> {
    StateAfter(TOML, Before(TOML, kept) + Comments(now, version, port, prev), None)
  }

  lemma AssignmentReads(g: Grammar, line: string, value: string, d: Option<Delim>, rest: Lines)
    requires g.isRootModelProvider(line) && !g.isTableHeader(line) && ParseAssignmentString(line) == Some(value)
    requires d.Some? ==> forall k :: 0 <= k < |rest| ==> !g.isRootModelProvider(rest[k])
    ensures var lines := [line] + rest;
            ReadRoot(g, lines, NextTable(g, lines, d), d) == if d == None then Some(value) else None
  {
    var lines := [line] + rest;
    assert lines[1..] == rest && lines[0] == line;
    if d.Some? {
      var next := Advance(g, line, d);
      NothingRead(g, rest, NextTable(g, rest, next), next);
    }
  }

  /** The root of the attached file reads: a value that the user's own lines hold in view; else collectivus, exactly
      when no multi-line string is open where the assignment stands; else nothing. */
  lemma AttachTakesEffectIff(content: string, now: string, version: string, port: nat)
    requires Attachable(content)
    ensures var att := Attach(TOML, content, now, version, port);
            && att.Some?
            && var own := RootValue(TOML, KeptOf(TOML, content));
               RootValue(TOML, SplitLines(att.value.content)) ==
               if own.Some? then own
               else if OpenBefore(KeptOf(TOML, content), now, version, port, att.value.prevValue) == None then
                 Some("collectivus")
               else None
  {
    ReopenAttached(TOML, content, now, version, port);
    var att := Attach(TOML, content, now, version, port).value;
    BlockReads(KeptOf(TOML, content), now, version, port, att.prevValue);
  }

  lemma BlockReads(kept: Lines, now: string, version: string, port: nat, prev: Option<string>)
    requires Own(kept)
    ensures var root := RootBlock(now, version, port, prev);
            var file := Before(TOML, kept) + root + (After(TOML, kept, root) + ProviderBlock(port));
            RootValue(TOML, file) ==
            if RootValue(TOML, kept).Some? then RootValue(TOML, kept)
            else if OpenBefore(kept, now, version, port, prev) == None then Some("collectivus") else None
  {
    var before, comments, root := Before(TOML, kept), Comments(now, version, port, prev),
      RootBlock(now, version, port, prev);
    var line, more := [ModelProviderLine("collectivus")], After(TOML, kept, root) + ProviderBlock(port);
    var d := StateAfter(TOML, before, None);
    var e := StateAfter(TOML, comments, d);
    BeforeReads(kept);
    CommentsRead(now, version, port, prev, d);
    StateParts(TOML, before, comments, None);
    if d.Some? { BehindOpenString(kept, root, port); }
    EndHarmless(d, more);
    FileParts(before, comments, line, more, now, version, port, prev);
    ReadParts(TOML, before, comments + (line + ([ROOT_END] + more)), None);
    ReadParts(TOML, comments, line + ([ROOT_END] + more), d);
    RestoredLine("collectivus");
    AssignmentReads(TOML, ModelProviderLine("collectivus"), "collectivus", e, [ROOT_END] + more);
  }

  lemma EndHarmless(d: Option<Delim>, more: Lines)
    requires d.Some? ==> AllHarmless(more)
    ensures d.Some? ==> forall k :: 0 <= k < |[ROOT_END] + more| ==> !TOML.isRootModelProvider(([ROOT_END] + more)[k])
  {
    assert ROOT_END[0] == '#';
    if d.Some? {
      forall k | 0 <= k < |[ROOT_END] + more| ensures !TOML.isRootModelProvider(([ROOT_END] + more)[k]) {
        HarmlessReads(([ROOT_END] + more)[k]);
      }
    }
  }

  lemma FileParts(before: Lines, comments: Lines, line: Lines, more: Lines, now: string, version: string, port: nat,
      prev: Option<string>)
    requires comments == Comments(now, version, port, prev) && line == [ModelProviderLine("collectivus")]
    ensures before + RootBlock(now, version, port, prev) + more == before + (comments + (line + ([ROOT_END] + more)))
  {
    BlockParts(now, version, port, prev);
    var root := RootBlock(now, version, port, prev);
    Assoc(before, root, more);
    Assoc(comments, line + [ROOT_END], more);
    Assoc(line, [ROOT_END], more);
  }

  // ---------- a file on which attaching has no effect ----------

  lemma {:induction false} EscapedQuotes(s: string)
    ensures forall i :: 0 <= i < |Escaped(s)| && Escaped(s)[i] == '"' ==> i > 0 && Escaped(s)[i - 1] == '\\'
  {
    if s != "" {
      EscapedQuotes(s[1..]);
      var head, tail := EscapeChar(s[0]), Escaped(s[1..]);
      forall i | 0 <= i < |head + tail| && (head + tail)[i] == '"' ensures i > 0 && (head + tail)[i - 1] == '\\' {
        if i >= |head| { assert tail[i - |head|] == '"'; }
      }
    }
  }

  /** Inside a quoted text a backslash stands before every quote. */
  lemma InsideQuotes(front: string, v: string)
    requires '"' !in front
    ensures var line := front + TomlString(v);
            && (forall i :: 0 <= i < |front| ==> line[i] != '"')
            && (forall i :: |front| < i < |line| - 1 && line[i] == '"' ==> line[i - 1] == '\\')
  {
    EscapedQuotes(v);
    Apart(front, Escaped(v), front + TomlString(v));
  }

  lemma Apart(front: string, body: string, line: string)
    requires line == front + ("\"" + body + "\"") && '"' !in front
    requires forall i :: 0 <= i < |body| && body[i] == '"' ==> i > 0 && body[i - 1] == '\\'
    ensures forall i :: 0 <= i < |front| ==> line[i] != '"'
    ensures forall i :: |front| < i < |line| - 1 && line[i] == '"' ==> line[i - 1] == '\\'
  {
    var n := |front|;
    assert line == front + "\"" + body + "\"";
    forall i | 0 <= i < n ensures line[i] != '"' { assert line[i] == front[i]; }
    forall i | n < i < |line| - 1 ensures line[i] == body[i - n - 1] { }
    forall i | n < i < |line| - 1 && line[i] == '"' ensures line[i - 1] == '\\' {
      assert line[i - 1] == body[i - n - 2];
    }
  }

  lemma MarkAt(line: string, k: nat)
    requires OccursAt(line, Basic.Mark(), k)
    ensures k + 2 < |line| && line[k] == '"' && line[k + 1] == '"' && line[k + 2] == '"'
  {
    var mark := line[k..k + 3];
    assert mark == QUOTES;
    assert line[k] == mark[0] && line[k + 1] == mark[1] && line[k + 2] == mark[2];
  }

  /** A comment with one quoted value closes no basic string. */
  lemma QuotedStaysOpen(front: string, v: string)
    requires '"' !in front
    ensures Close(front + TomlString(v), Basic) == Some(Basic)
  {
    var line := front + TomlString(v);
    InsideQuotes(front, v);
    forall k | 0 <= k <= |line| ensures !OccursAt(line, Basic.Mark(), k) {
      if OccursAt(line, Basic.Mark(), k) { MarkAt(line, k); }
    }
  }

  lemma QuotelessStaysOpen(line: string)
    requires '"' !in line
    ensures Close(line, Basic) == Some(Basic)
  {
    forall k | 0 <= k <= |line| ensures !OccursAt(line, Basic.Mark(), k) {
      if OccursAt(line, Basic.Mark(), k) { MarkAt(line, k); }
    }
  }

  lemma {:induction false} StaysOpen(lines: Lines)
    requires forall k :: 0 <= k < |lines| ==> Close(lines[k], Basic) == Some(Basic)
    ensures StateAfter(TOML, lines, Some(Basic)) == Some(Basic)
  {
    if lines != [] { StaysOpen(lines[1..]); }
  }

  lemma {:induction false} DigitsAreQuoteless(n: nat)
    ensures '"' !in Digits(n)
  {
    if n >= 10 { DigitsAreQuoteless(n / 10); }
  }

  lemma CommentsStayOpen(now: string, version: string, port: nat)
    ensures StateAfter(TOML, Comments(now, version, port, None), Some(Basic)) == Some(Basic)
  {
    QuotelessStaysOpen(ROOT_BEGIN);
    QuotedStaysOpen("# attached_at = ", now);
    QuotedStaysOpen("# version = ", version);
    DigitsAreQuoteless(port);
    QuotelessStaysOpen("# port = " + Digits(port));
    StaysOpen(Comments(now, version, port, None));
  }

  lemma OpenFileKept()
    ensures var content := OPEN_LINE + "\n";
            && Attachable(content) && KeptOf(TOML, content) == [OPEN_LINE] && ValueToRecord(TOML, content) == None
            && RootValue(TOML, [OPEN_LINE]) == None
            && Before(TOML, [OPEN_LINE]) == [OPEN_LINE] && StateAfter(TOML, [OPEN_LINE], None) == Some(Basic)
  {
    OpenLine();
    OpenLineIsInner();
    InnerLineAlone(OPEN_LINE);
    OpenAlone(TOML, OPEN_LINE);
    UntouchedKept(OPEN_LINE + "\n", [OPEN_LINE]);
  }

  lemma UntouchedKept(content: string, lines: Lines)
    requires SplitLines(content) == lines && Untouched(TOML, lines)
    ensures Attachable(content) && KeptOf(TOML, content) == lines && ValueToRecord(TOML, content) == None
    ensures RootValue(TOML, lines) == None
  {
    UnmarkedIdentity(lines);
    NoRootValueIdentity(TOML, lines, None);
    SettledIsKept(TOML, lines);
  }

  /** A file whose only line opens a string: it can be attached, is taken for attached, and reads no provider. */
  lemma AttachHasNoEffect(now: string, version: string, port: nat)
    ensures var att := Attach(TOML, OPEN_LINE + "\n", now, version, port);
            && att.Some? && ManagedAttached(att.value.content) == Some(true)
            && RootValue(TOML, SplitLines(att.value.content)) == None
  {
    OpenFileKept();
    NoEffectOn(OPEN_LINE + "\n", now, version, port);
  }

  lemma NoEffectOn(content: string, now: string, version: string, port: nat)
    requires Attachable(content) && ValueToRecord(TOML, content) == None &&
      RootValue(TOML, KeptOf(TOML, content)) == None
    requires StateAfter(TOML, Before(TOML, KeptOf(TOML, content)), None) == Some(Basic)
    ensures var att := Attach(TOML, content, now, version, port);
            && att.Some? && ManagedAttached(att.value.content) == Some(true)
            && RootValue(TOML, SplitLines(att.value.content)) == None
  {
    TomlBlankIsInert();
    AttachTakesEffectIff(content, now, version, port);
    AttachIsManaged(TOML, content, now, version, port);
    DetachUndoesAttach(TOML, content, now, version, port);
    StateParts(TOML, Before(TOML, KeptOf(TOML, content)), Comments(now, version, port, None), None);
    CommentsStayOpen(now, version, port);
  }
}
