/** What the Codex editor removes, what it writes, and which files it refuses, line by line. */
module CodexTomlClean {
  import opened Wrappers
  import opened Text
  import opened TomlText
  import opened TomlGrammar
  import opened CodexToml
  import opened CodexTomlLines
  import opened CodexTomlTheorems

  // ---------- where a line stands ----------

  /** The multi-line string a line stands in, and the last table header before it. */
  datatype Place = Place(open: Option<Delim>, header: Option<string>)

  function NextPlace(p: Place, line: string): Place {
    if p.open == None && IsTableHeader(line) then Place(None, Some(line))
      else Place(Advance(TOML, line, p.open), p.header)
  }

  function PlaceAfter(p: Place, lines: Lines): Place
    decreases |lines|
  {
    if lines == [] then p else PlaceAfter(NextPlace(p, lines[0]), lines[1..])
  }

  function TableFor(header: Option<string>): Table {
    if header == None then Root else TableOf(header.value)
  }

  lemma {:induction false} CleanAt(lines: Lines, p: Place, i: nat)
    requires i < |lines| && NoProviderTable(TOML, lines, p.open) &&
      NoAssignment(TOML, lines, TableFor(p.header), p.open)
    ensures var q := PlaceAfter(p, lines[..i]);
            q.open == None ==>
              if IsTableHeader(lines[i]) then !IsProviderTableHeader(lines[i])
              else !IsProviderAssignment(TableFor(q.header), lines[i])
    decreases i
  {
    if i > 0 {
      CleanAt(lines[1..], NextPlace(p, lines[0]), i - 1);
      assert lines[..i][0] == lines[0] && lines[..i][1..] == lines[1..][..i - 1];
    } else {
      assert lines[..0] == [];
    }
  }

  /** The header of the collectivus provider, or of a table inside it. */
  ghost predicate HeadsProvider(line: string) {
    exists key :: ProviderPath(key) && (HeaderOf(line, "[", key, "]") || HeaderOf(line, "[[", key, "]]"))
  }

  ghost predicate SetsProvider(line: string) {
    exists key :: ProviderPath(key) && Sets(line, key)
  }

  ghost predicate SetsChild(line: string) {
    exists key :: ChildPath(key) && Sets(line, key)
  }

  /** In what attaching and detaching keep, no line outside multi-line strings is a header of the collectivus
      provider. */
  lemma NoProviderHeader(lines: Lines, i: nat)
    requires i < |Kept(TOML, lines)|
    ensures var kept := Kept(TOML, lines);
            PlaceAfter(Place(None, None), kept[..i]).open == None ==> !HeadsProvider(kept[i])
  {
    var kept := Kept(TOML, lines);
    KeptIsSettled(TOML, lines);
    CleanAt(kept, Place(None, None), i);
    ProviderIsTable(kept[i]);
    ProviderHeaderIff(kept[i]);
  }

  /** No such line before the first table sets a key of the provider. */
  lemma NoProviderKey(lines: Lines, i: nat)
    requires i < |Kept(TOML, lines)|
    ensures var kept := Kept(TOML, lines);
            var p := PlaceAfter(Place(None, None), kept[..i]);
            p == Place(None, None) && !IsTableHeader(kept[i]) ==> !SetsProvider(kept[i])
  {
    var kept := Kept(TOML, lines);
    KeptIsSettled(TOML, lines);
    CleanAt(kept, Place(None, None), i);
    DottedAssignmentIff(kept[i]);
  }

  /** No such line of a `[model_providers]` table sets one. */
  lemma NoProviderChild(lines: Lines, i: nat, header: string, key: string)
    requires i < |Kept(TOML, lines)| && Names(key, "model_providers") && HeaderOf(header, "[", key, "]")
    ensures var kept := Kept(TOML, lines);
            var p := PlaceAfter(Place(None, None), kept[..i]);
            p == Place(None, Some(header)) && !IsTableHeader(kept[i]) ==> !SetsChild(kept[i])
  {
    var kept := Kept(TOML, lines);
    KeptIsSettled(TOML, lines);
    CleanAt(kept, Place(None, None), i);
    ProvidersTable(header, key);
    if !IsProviderAssignment(ModelProviders, kept[i]) { ChildFree(kept[i]); }
  }

  lemma ProvidersTable(header: string, key: string)
    requires Names(key, "model_providers") && HeaderOf(header, "[", key, "]")
    ensures TableFor(Some(header)) == ModelProviders
  {
    NamesIff(key, "model_providers");
    HeaderJoin("[", Quotable("model_providers"), "]", header, key);
    TableIs(header);
  }

  lemma TableIs(header: string)
    requires Matches(Header("[", Quotable("model_providers"), "]"), header)
    ensures TableFor(Some(header)) == ModelProviders
  {
  }

  lemma ChildFree(line: string)
    requires !IsProviderAssignment(ModelProviders, line)
    ensures !SetsChild(line)
  {
    ChildAssignmentIff(line);
  }

  /** A header of the provider is a table header. */
  lemma ProviderIsTable(line: string)
    ensures IsProviderTableHeader(line) ==> IsTableHeader(line)
  {
    ProviderHeaderIff(line);
    TableHeaderIff(line);
    if IsProviderTableHeader(line) {
      var key :| ProviderPath(key) && (HeaderOf(line, "[", key, "]") || HeaderOf(line, "[[", key, "]]"));
      ProviderIsPath(key);
    }
  }

  lemma ProviderIsPath(key: string)
    requires ProviderPath(key)
    ensures KeyPath(key)
  {
    var m, g, h, c, more :| key == m + (g + ("." + (h + (c + more)))) && Names(m, "model_providers") &&
      Blank(g) && Blank(h)
                            && Names(c, "collectivus") && MoreParts(more);
    TwoNames();
    NameIsPart(m, "model_providers");
    NameIsPart(c, "collectivus");
    var rest := g + ("." + (h + (c + more)));
    OneMorePart(g, h, c, more, rest);
    PathOf(m, rest, key);
  }

  lemma TwoNames()
    ensures Bare("model_providers") && Bare("collectivus")
  {
  }

  lemma PathOf(p: string, more: string, key: string)
    requires key == p + more && KeyPart(p) && MoreParts(more)
    ensures KeyPath(key)
  {
  }

  lemma OneMorePart(g: string, h: string, p: string, more: string, s: string)
    requires s == g + ("." + (h + (p + more))) && Blank(g) && Blank(h) && KeyPart(p) && MoreParts(more)
    ensures MoreParts(s)
  {
    assert |more| < |s|;
  }

  lemma NameIsPart(s: string, name: string)
    requires Names(s, name) && Bare(name)
    ensures KeyPart(s)
  {
    PlainBody(name);
    assert s != name ==> s[1..|s| - 1] == name;
    assert '\'' !in name;
  }

  lemma {:induction false} PlainBody(s: string)
    requires Bare(s) || s == ""
    ensures BasicBody(s)
  {
    if s != "" {
      forall i | 0 <= i < |s[1..]| ensures s[1..][i] == s[i + 1] { }
      PlainBody(s[1..]);
    }
  }

  // ---------- files that are refused ----------

  /** A begin marker without an end marker after it, and no begin marker before. */
  predicate Unclosed(lines: Lines, begin: string, end: string, i: nat) {
    && i < |lines| && Trim(lines[i]) == begin && NoMarker(lines[..i], begin) && NoMarker(lines[i + 1..], end)
  }

  lemma {:induction false} NoEnd(lines: Lines, end: string)
    requires NoMarker(lines, end)
    ensures AfterMarker(lines, end) == None
  {
    if lines != [] { NoEnd(lines[1..], end); }
  }

  lemma NoMarkerTail(lines: Lines, marker: string)
    requires lines != [] && NoMarker(lines, marker)
    ensures NoMarker(lines[1..], marker)
  {
  }

  lemma {:induction false} UnclosedFails(lines: Lines, begin: string, end: string, i: nat)
    requires Unclosed(lines, begin, end, i)
    ensures RemoveMarked(lines, begin, end) == None && HasMarked(lines, begin, end) == None
    decreases i
  {
    var tail := lines[1..];
    if i == 0 {
      NoEnd(tail, end);
    } else {
      assert lines[..i][0] == lines[0] && lines[..i][1..] == tail[..i - 1] && lines[i + 1..] == tail[i..];
      NoMarkerTail(lines[..i], begin);
      UnclosedFails(tail, begin, end, i - 1);
    }
  }

  /** A file whose root block is never closed is refused by all three operations. */
  lemma UnclosedRoot(content: string, i: nat, now: string, version: string, port: nat)
    requires Unclosed(SplitLines(content), ROOT_BEGIN, ROOT_END, i)
    ensures Attach(TOML, content, now, version, port) == None && Detach(TOML, content) == None
    ensures ManagedAttached(content) == None
  {
    UnclosedFails(SplitLines(content), ROOT_BEGIN, ROOT_END, i);
  }

  /** So is one whose provider block is never closed, except that without a root block it simply counts as not
      attached. */
  lemma UnclosedProvider(content: string, i: nat, now: string, version: string, port: nat)
    requires Unclosed(SplitLines(content), PROVIDER_BEGIN, PROVIDER_END, i) && NoMarker(SplitLines(content), ROOT_BEGIN)
    ensures Attach(TOML, content, now, version, port) == None && Detach(TOML, content) == None
    ensures ManagedAttached(content) == Some(false)
  {
    UnclosedFails(SplitLines(content), PROVIDER_BEGIN, PROVIDER_END, i);
    RemoveNoMarker(SplitLines(content), ROOT_BEGIN, ROOT_END);
    NoneMarked(SplitLines(content), ROOT_BEGIN, ROOT_END);
  }

  lemma {:induction false} NoneMarked(lines: Lines, begin: string, end: string)
    requires NoMarker(lines, begin)
    ensures HasMarked(lines, begin, end) == Some(false)
  {
    if lines != [] { NoneMarked(lines[1..], begin, end); }
  }

  // ---------- what is written ----------

  /** The attached file: the user's lines around the root block, and the provider block at the end. */
  lemma WrittenBlocks(content: string, now: string, version: string, port: nat)
    requires Attachable(content)
    ensures var att := Attach(TOML, content, now, version, port);
            && att.Some?
            && var kept, prev := KeptOf(TOML, content), att.value.prevValue;
               var notes := ["# attached_at = " + TomlString(now), "# version = " + TomlString(version),
                             "# port = " + Digits(port)]
                 + (if prev.Some? then ["# previous_model_provider = " + TomlString(prev.value)] else []);
               var root := ["# BEGIN collectivus codex model_provider"]
                 + (notes + ["model_provider = " + TomlString("collectivus")])
                 + ["# END collectivus codex model_provider"];
               var url := TomlString("http://127.0.0.1:" + Digits(port) + "/v1");
               var table := ["[model_providers.collectivus]", "name = " + TomlString("Collectivus OpenAI Proxy"),
                             "base_url = " + url]
                 + ["requires_openai_auth = true", "wire_api = \"responses\"", "supports_websockets = false"];
               var provider := ["# BEGIN collectivus codex provider"] + table + ["# END collectivus codex provider"];
               SplitLines(att.value.content) ==
                 Before(TOML, kept) + root + (After(TOML, kept, root) + provider)
  {
    ReopenAttached(TOML, content, now, version, port);
  }
}
