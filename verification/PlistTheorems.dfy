/** Reading a property list back gives the paths it was written with. */
module PlistTheorems {
  import opened Wrappers
  import opened Text
  import opened TomlText
  import opened Plist

  // ---------- unescaping undoes escaping ----------

  /** Replacing one character works on each part. */
  lemma {:induction false} ReplaceCharAppend(a: string, b: string, p: char, sub: string)
    ensures ReplaceAll(a + b, [p], sub) == ReplaceAll(a, [p], sub) + ReplaceAll(b, [p], sub)
    decreases |a|
  {
    if a == "" {
      assert a + b == b && "" + ReplaceAll(b, [p], sub) == ReplaceAll(b, [p], sub);
    } else {
      assert (a + b)[1..] == a[1..] + b && (a + b)[0] == a[0];
      ReplaceCharAppend(a[1..], b, p, sub);
      Assoc(if a[0] == p then sub else [a[0]], ReplaceAll(a[1..], [p], sub), ReplaceAll(b, [p], sub));
    }
  }

  lemma {:induction false} ReplaceAbsent(s: string, p: char, sub: string)
    requires p !in s
    ensures ReplaceAll(s, [p], sub) == s
  {
    if s != "" {
      assert s == [s[0]] + s[1..];
      ReplaceAbsent(s[1..], p, sub);
    }
  }

  function Escape(c: char): string {
    if c == '&' then "&amp;" else if c == '<' then "&lt;" else if c == '>' then "&gt;" else [c]
  }

  lemma ReplaceOne(c: char, p: char, sub: string)
    ensures ReplaceAll([c], [p], sub) == if c == p then sub else [c]
  {
    assert [c][1..] == "" && [c] + "" == [c] && sub + "" == sub;
    assert StartsWith([c], [p]) <==> [c][0] == p;
  }

  lemma EscapeOne(c: char)
    ensures EscapeXml([c]) == Escape(c)
  {
    ReplaceOne(c, '&', "&amp;");
    ReplaceOne(c, '<', "&lt;");
    ReplaceOne(c, '>', "&gt;");
    if c == '&' {
      ReplaceAbsent("&amp;", '<', "&lt;");
      ReplaceAbsent("&amp;", '>', "&gt;");
    } else if c == '<' {
      ReplaceAbsent("&lt;", '>', "&gt;");
    }
  }

  lemma EscapeCons(c: char, t: string)
    ensures EscapeXml([c] + t) == Escape(c) + EscapeXml(t)
  {
    EscapeOne(c);
    var c1, t1 := ReplaceAll([c], "&", "&amp;"), ReplaceAll(t, "&", "&amp;");
    ReplaceCharAppend([c], t, '&', "&amp;");
    var c2, t2 := ReplaceAll(c1, "<", "&lt;"), ReplaceAll(t1, "<", "&lt;");
    ReplaceCharAppend(c1, t1, '<', "&lt;");
    ReplaceCharAppend(c2, t2, '>', "&gt;");
  }

  /** A text in which the pattern cannot start, and that no pattern can run into. */
  predicate Passes(word: string, pat: string) {
    && (forall k :: 1 <= k < |word| ==> word[k] != '&')
    && (word != "" && word[0] == '&' ==> |word| >= 2 && |pat| >= 2 && word[1] != pat[1])
  }

  lemma {:induction false} WordKept(word: string, t: string, pat: string, sub: string)
    requires pat != "" && pat[0] == '&' && Passes(word, pat)
    ensures ReplaceAll(word + t, pat, sub) == word + ReplaceAll(t, pat, sub)
    decreases |word|
  {
    if word == "" {
      assert word + t == t && word + ReplaceAll(t, pat, sub) == ReplaceAll(t, pat, sub);
    } else {
      var s := word + t;
      assert s[0] == word[0] && s[1..] == word[1..] + t && (|word| >= 2 ==> s[1] == word[1]);
      WordKept(word[1..], t, pat, sub);
      Assoc([word[0]], word[1..], ReplaceAll(t, pat, sub));
      assert word == [word[0]] + word[1..];
    }
  }

  lemma WordReplaced(t: string, pat: string, sub: string)
    requires pat != ""
    ensures ReplaceAll(pat + t, pat, sub) == sub + ReplaceAll(t, pat, sub)
  {
    assert (pat + t)[|pat|..] == t;
  }

  /** The word of a character goes through the three passes by itself. */
  lemma UnescapeCons(c: char, t: string)
    ensures UnescapeXml(Escape(c) + t) == [c] + UnescapeXml(t)
  {
    var t1 := ReplaceAll(t, "&lt;", "<");
    var t2 := ReplaceAll(t1, "&gt;", ">");
    if c == '<' {
      WordReplaced(t, "&lt;", "<");
      WordKept("<", t1, "&gt;", ">");
      WordKept("<", t2, "&amp;", "&");
    } else if c == '>' {
      WordKept("&gt;", t, "&lt;", "<");
      WordReplaced(t1, "&gt;", ">");
      WordKept(">", t2, "&amp;", "&");
    } else if c == '&' {
      WordKept("&amp;", t, "&lt;", "<");
      WordKept("&amp;", t1, "&gt;", ">");
      WordReplaced(t2, "&amp;", "&");
    } else {
      WordKept([c], t, "&lt;", "<");
      WordKept([c], t1, "&gt;", ">");
      WordKept([c], t2, "&amp;", "&");
    }
  }

  lemma {:induction false} EscapeRoundTrip(v: string)
    ensures UnescapeXml(EscapeXml(v)) == v
  {
    if v != "" {
      assert v == [v[0]] + v[1..];
      EscapeCons(v[0], v[1..]);
      UnescapeCons(v[0], EscapeXml(v[1..]));
      EscapeRoundTrip(v[1..]);
    }
  }

  lemma {:induction false} EscapedHasNoTag(v: string)
    ensures '<' !in EscapeXml(v) && '>' !in EscapeXml(v)
  {
    if v != "" {
      assert v == [v[0]] + v[1..];
      EscapeCons(v[0], v[1..]);
      EscapedHasNoTag(v[1..]);
    }
  }

  // ---------- what the search passes over ----------

  lemma {:induction false} SkipPlain(shape: Shape, a: string, s: string)
    requires '<' !in a
    ensures First(shape, a + s) == First(shape, s)
    decreases |a|
  {
    if a == "" {
      assert a + s == s;
    } else {
      assert (a + s)[1..] == a[1..] + s && (a + s)[0] == a[0] && a[0] in a;
      SkipPlain(shape, a[1..], s);
    }
  }

  lemma SkipTag(shape: Shape, tag: string, s: string)
    requires tag != "" && tag[0] != 'k' && '<' !in tag
    ensures First(shape, "<" + tag + ">" + s) == First(shape, s)
  {
    var all := "<" + tag + ">" + s;
    assert all[1] == tag[0] && all[1..] == (tag + ">") + s;
    SkipPlain(shape, tag + ">", s);
  }

  lemma OtherKey(name: string, s: string, key: string)
    requires '<' !in name && '<' !in key && name != key
    ensures KeyHere("<key>" + name + "</key>" + s, key).None?
  {
    var t := name + ("</key>" + s);
    assert "<key>" + name + "</key>" + s == "<key>" + t;
    assert ("<key>" + t)[5..] == t;
    UntilTagIs(name, "</key>" + s);
    if StartsWith(t, key) && StartsWith(t[|key|..], "</key>") {
      var u := t[|key|..];
      assert t == key + u;
      UntilTagIs(key, u);
      assert false;
    }
  }

  lemma SkipKey(shape: Shape, name: string, s: string)
    requires '<' !in name && '<' !in shape.key && name != shape.key
    ensures First(shape, "<key>" + name + "</key>" + s) == First(shape, s)
  {
    var all := "<key>" + name + "</key>" + s;
    OtherKey(name, s, shape.key);
    assert all[1..] == ("key>" + name) + ("<" + "/key" + ">" + s);
    SkipPlain(shape, "key>" + name, "<" + "/key" + ">" + s);
    SkipTag(shape, "/key", s);
  }

  predicate Indent(s: string) {
    forall k :: 0 <= k < |s| ==> s[k] == ' '
  }

  /** Lines whose tags are tags and whose names and values hold none. */
  predicate Tidy(line: Line) {
    && Indent(line.indent)
    && match line
       case TagLine(_, tag) => tag != "" && tag[0] != 'k' && '<' !in tag
       case KeyLine(_, name) => '<' !in name
       case StringLine(_, value) => '<' !in value
  }

  lemma SkipLine(shape: Shape, line: Line, s: string)
    requires Tidy(line) && '<' !in shape.key && (line.KeyLine? ==> line.name != shape.key)
    ensures First(shape, Print(line) + "\n" + s) == First(shape, s)
  {
    var t := "\n" + s;
    SkipPlain(shape, "\n", s);
    match line
    case TagLine(indent, tag) =>
      Parts(indent, "<", tag, ">", s);
      SkipPlain(shape, indent, "<" + tag + ">" + t);
      SkipTag(shape, tag, t);
    case KeyLine(indent, name) =>
      Parts(indent, "<key>", name, "</key>", s);
      SkipPlain(shape, indent, "<key>" + name + "</key>" + t);
      SkipKey(shape, name, t);
    case StringLine(indent, value) =>
      Parts(indent, "<string>", value, "</string>", s);
      StringParts(value, t);
      SkipString(shape, indent, value, t);
  }

  lemma Parts(indent: string, a: string, b: string, c: string, s: string)
    ensures indent + a + b + c + "\n" + s == indent + (a + b + c + ("\n" + s))
  {
    Assoc(indent, a, b);
    Assoc(indent, a + b, c);
    Assoc(indent + (a + b + c), "\n", s);
    Assoc(indent, a + b + c, "\n" + s);
  }

  lemma StringParts(value: string, t: string)
    ensures "<string>" + value + "</string>" + t == "<" + "string" + ">" + (value + ("<" + "/string" + ">" + t))
  {
    assert "<" + "string" + ">" == "<string>" && "<" + "/string" + ">" == "</string>";
    Assoc("<string>", value, "</string>");
    Assoc("<string>", value + "</string>", t);
    Assoc(value, "</string>", t);
  }

  lemma SkipString(shape: Shape, indent: string, value: string, t: string)
    requires '<' !in indent && '<' !in value
    ensures First(shape, indent + ("<" + "string" + ">" + (value + ("<" + "/string" + ">" + t)))) == First(shape, t)
  {
    var u := "<" + "/string" + ">" + t;
    SkipPlain(shape, indent, "<" + "string" + ">" + (value + u));
    SkipTag(shape, "string", value + u);
    SkipPlain(shape, value, u);
    SkipTag(shape, "/string", t);
  }

  /** The text of some lines. */
  function Body(lines: seq<Line>): string {
    if lines == [] then "" else Print(lines[0]) + "\n" + Body(lines[1..])
  }

  lemma JoinCons(first: string, tail: seq<string>)
    requires tail != []
    ensures Join([first] + tail, "\n") == first + "\n" + Join(tail, "\n")
  {
    assert ([first] + tail)[1..] == tail;
  }

  lemma {:induction false} BodyIsJoin(lines: seq<Line>)
    ensures Join(PrintAll(lines) + [""], "\n") == Body(lines)
  {
    if lines != [] {
      var tail := PrintAll(lines[1..]) + [""];
      BodyIsJoin(lines[1..]);
      assert PrintAll(lines) == [Print(lines[0])] + PrintAll(lines[1..]);
      Assoc([Print(lines[0])], PrintAll(lines[1..]), [""]);
      JoinCons(Print(lines[0]), tail);
    }
  }

  lemma BodyCons(line: Line, lines: seq<Line>)
    ensures Body([line] + lines) == Print(line) + "\n" + Body(lines)
  {
    assert ([line] + lines)[1..] == lines;
  }

  predicate Passed(shape: Shape, lines: seq<Line>) {
    forall k :: 0 <= k < |lines| ==> Tidy(lines[k]) && (lines[k].KeyLine? ==> lines[k].name != shape.key)
  }

  lemma {:induction false} SkipLines(shape: Shape, a: seq<Line>, b: seq<Line>)
    requires '<' !in shape.key && Passed(shape, a)
    ensures First(shape, Body(a + b)) == First(shape, Body(b))
    decreases |a|
  {
    if a == [] {
      assert a + b == b;
    } else {
      assert (a + b)[1..] == a[1..] + b && (a + b)[0] == a[0];
      SkipLine(shape, a[0], Body(a[1..] + b));
      SkipLines(shape, a[1..], b);
    }
  }

  // ---------- what the search finds ----------

  lemma {:induction false} SpacesTrimmed(indent: string, s: string)
    requires Indent(indent) && s != "" && s[0] == '<'
    ensures TrimStart(indent + s) == s
  {
    if indent == "" {
      assert indent + s == s;
    } else {
      assert (indent + s)[1..] == indent[1..] + s && (indent + s)[0] == ' ';
      SpacesTrimmed(indent[1..], s);
    }
  }

  lemma KeyFound(key: string, indent: string, s: string)
    requires Indent(indent) && s != "" && s[0] == '<'
    ensures KeyHere("<key>" + key + "</key>\n" + indent + s, key) == Some(s)
  {
    var u := "\n" + (indent + s);
    var t := "</key>" + u;
    assert "<key>" + key + "</key>\n" + indent + s == "<key>" + (key + t);
    assert ("<key>" + (key + t))[5..] == key + t && (key + t)[|key|..] == t && t[6..] == u;
    assert u[1..] == indent + s && u[0] == '\n';
    SpacesTrimmed(indent, s);
  }

  lemma {:induction false} UntilTagIs(v: string, s: string)
    requires '<' !in v && s != "" && s[0] == '<'
    ensures UntilTag(v + s) == v
  {
    if v == "" {
      assert v + s == s;
    } else {
      assert (v + s)[1..] == v[1..] + s && (v + s)[0] == v[0] && v[0] in v;
      UntilTagIs(v[1..], s);
      assert v == [v[0]] + v[1..];
    }
  }

  lemma StringFound(v: string, s: string)
    requires '<' !in v
    ensures StringHere("<string>" + (v + ("</string>" + s))) == Some(Hit(v, s))
  {
    var t := "</string>" + s;
    assert ("<string>" + (v + t))[8..] == v + t;
    UntilTagIs(v, t);
    assert (v + t)[|v|..] == t && t[9..] == s;
  }

  lemma FindString(key: string, i: string, j: string, v: string, lines: seq<Line>)
    requires Indent(i) && Indent(j) && '<' !in v && '<' !in key
    ensures First(StringOf(key), Body([KeyLine(i, key), StringLine(j, v)] + lines)) == Some(v)
  {
    var rest := "\n" + Body(lines);
    var s := "<string>" + (v + ("</string>" + rest));
    assert [KeyLine(i, key), StringLine(j, v)] + lines == [KeyLine(i, key)] + ([StringLine(j, v)] + lines);
    BodyCons(KeyLine(i, key), [StringLine(j, v)] + lines);
    BodyCons(StringLine(j, v), lines);
    Parts(j, "<string>", v, "</string>", Body(lines));
    Assoc("<string>", v + "</string>", rest);
    Assoc("<string>", v, "</string>");
    Assoc(v, "</string>", rest);
    KeyLineFound(StringOf(key), i, j, s);
    StringFound(v, rest);
  }

  /** A key line leads the search to the line after it. */
  lemma KeyLineFound(shape: Shape, i: string, j: string, s: string)
    requires Indent(i) && Indent(j) && s != "" && s[0] == '<' && '<' !in shape.key
    ensures var text := Print(KeyLine(i, shape.key)) + "\n" + (j + s);
            var here := "<key>" + shape.key + "</key>\n" + j + s;
            First(shape, text) == First(shape, here) && KeyHere(here, shape.key) == Some(s)
  {
    var key := shape.key;
    Parts(i, "<key>", key, "</key>", j + s);
    Break("<key>" + key, j, s);
    SkipPlain(shape, i, "<key>" + key + "</key>\n" + j + s);
    KeyFound(key, j, s);
  }

  lemma Break(a: string, j: string, s: string)
    ensures a + "</key>" + ("\n" + (j + s)) == a + "</key>\n" + j + s
  {
    assert "</key>" + "\n" == "</key>\n";
    Assoc(a + "</key>", "\n", j + s);
    Assoc(a, "</key>", "\n");
    Assoc(a + "</key>\n", j, s);
  }

  // ---------- the array ----------

  /** `front` is passed over when looking for the closing tag. */
  predicate Leads(front: string, s: string) {
    Before(s, "</array>").Some? ==> Before(front + s, "</array>") == Some(front + Before(s, "</array>").value)
  }

  lemma {:induction false} PlainLeads(a: string, s: string)
    requires '<' !in a
    ensures Leads(a, s)
    decreases |a|
  {
    if a == "" {
      assert a + s == s;
      assert Before(s, "</array>").Some? ==> a + Before(s, "</array>").value == Before(s, "</array>").value;
    } else {
      assert (a + s)[1..] == a[1..] + s && (a + s)[0] == a[0] && a[0] in a;
      PlainLeads(a[1..], s);
      assert a == [a[0]] + a[1..];
      if Before(s, "</array>").Some? { Assoc([a[0]], a[1..], Before(s, "</array>").value); }
    }
  }

  lemma TagLeads(tag: string, s: string)
    requires |tag| >= 2 && (tag[0] != '/' || tag[1] != 'a') && '<' !in tag
    ensures Leads("<" + tag + ">", s)
  {
    var all := "<" + tag + ">" + s;
    assert all[1..] == (tag + ">") + s && all[1] == tag[0] && all[2] == tag[1];
    PlainLeads(tag + ">", s);
    assert "<" + tag + ">" == "<" + (tag + ">");
    assert Before(s, "</array>").Some? ==>
      ['<'] + ((tag + ">") + Before(s, "</array>").value) == "<" + tag + ">" + Before(s, "</array>").value;
  }

  lemma LeadsAppend(a: string, b: string, s: string)
    requires Leads(a, b + s) && Leads(b, s)
    ensures Leads(a + b, s)
  {
    Assoc(a, b, s);
    if Before(s, "</array>").Some? { Assoc(a, b, Before(s, "</array>").value); }
  }

  /** An item as it stands in the array: a line break, an indent and a string. */
  function Item(v: string): string {
    "\n    " + ("<string>" + (v + "</string>"))
  }

  lemma ItemLeads(v: string, s: string)
    requires '<' !in v
    ensures Leads(Item(v), s)
  {
    TagLeads("/string", s);
    assert "<" + "/string" + ">" == "</string>" && "<" + "string" + ">" == "<string>";
    PlainLeads(v, "</string>" + s);
    LeadsAppend(v, "</string>", s);
    TagLeads("string", v + "</string>" + s);
    LeadsAppend("<string>", v + "</string>", s);
    PlainLeads("\n    ", "<string>" + (v + "</string>") + s);
    LeadsAppend("\n    ", "<string>" + (v + "</string>"), s);
  }

  function Items(vs: seq<string>): string {
    if vs == [] then "" else Item(vs[0]) + Items(vs[1..])
  }

  predicate NoTags(vs: seq<string>) {
    forall k :: 0 <= k < |vs| ==> '<' !in vs[k]
  }

  lemma {:induction false} ItemsLead(vs: seq<string>, s: string)
    requires NoTags(vs)
    ensures Leads(Items(vs), s)
  {
    if vs == [] {
      PlainLeads("", s);
    } else {
      ItemsLead(vs[1..], s);
      ItemLeads(vs[0], Items(vs[1..]) + s);
      LeadsAppend(Item(vs[0]), Items(vs[1..]), s);
    }
  }

  lemma {:induction false} StringsPlain(a: string, s: string)
    requires '<' !in a
    ensures AllStrings(a + s) == AllStrings(s)
    decreases |a|
  {
    if a == "" {
      assert a + s == s;
    } else {
      assert (a + s)[1..] == a[1..] + s && (a + s)[0] == a[0] && a[0] in a;
      StringsPlain(a[1..], s);
    }
  }

  lemma {:induction false} ItemsRead(vs: seq<string>, s: string)
    requires NoTags(vs) && '<' !in s
    ensures AllStrings(Items(vs) + s) == vs
    decreases |vs|
  {
    if vs == [] {
      StringsPlain(s, "");
      assert "" + s == s && s + "" == s;
    } else {
      var more := Items(vs[1..]) + s;
      var u := "<string>" + (vs[0] + ("</string>" + more));
      ItemThen(vs[0], Items(vs[1..]), s);
      StringsPlain("\n    ", u);
      StringFound(vs[0], more);
      ItemsRead(vs[1..], s);
      assert vs == [vs[0]] + vs[1..];
    }
  }

  lemma ItemThen(v: string, items: string, s: string)
    ensures Item(v) + items + s == "\n    " + ("<string>" + (v + ("</string>" + (items + s))))
  {
    Assoc(Item(v), items, s);
    var more := items + s;
    Assoc("\n    ", "<string>" + (v + "</string>"), more);
    Assoc("<string>", v + "</string>", more);
    Assoc(v, "</string>", more);
  }

  function ItemLines(vs: seq<string>): seq<Line> {
    seq(|vs|, k requires 0 <= k < |vs| => StringLine("    ", vs[k]))
  }

  lemma {:induction false} ItemLinesText(vs: seq<string>, lines: seq<Line>)
    ensures "\n" + Body(ItemLines(vs) + lines) == Items(vs) + ("\n" + Body(lines))
    decreases |vs|
  {
    if vs == [] {
      assert ItemLines(vs) + lines == lines && "" + ("\n" + Body(lines)) == "\n" + Body(lines);
    } else {
      var rest := ItemLines(vs[1..]) + lines;
      assert ItemLines(vs) + lines == [StringLine("    ", vs[0])] + rest;
      BodyCons(StringLine("    ", vs[0]), rest);
      ItemLinesText(vs[1..], lines);
      ItemText(vs[0], Body(rest));
      Assoc(Item(vs[0]), Items(vs[1..]), "\n" + Body(lines));
    }
  }

  lemma ItemText(v: string, s: string)
    ensures "\n" + (Print(StringLine("    ", v)) + "\n" + s) == Item(v) + ("\n" + s)
  {
    assert Print(StringLine("    ", v)) == "    " + ("<string>" + (v + "</string>"));
    assert "\n" + ("    " + ("<string>" + (v + "</string>"))) == Item(v);
  }

  /** The text between the array tags. */
  lemma FindArray(key: string, vs: seq<string>, lines: seq<Line>)
    requires '<' !in key && NoTags(vs)
    ensures var all := [KeyLine("  ", key), TagLine("  ", "array")] +
      (ItemLines(vs) + ([TagLine("  ", "/array")] + lines));
            First(ArrayOf(key), Body(all)) == Some(Items(vs) + "\n  ")
  {
    var close := [TagLine("  ", "/array")] + lines;
    var tail := ItemLines(vs) + close;
    var s := "<array>" + ("\n" + Body(tail));
    assert [KeyLine("  ", key), TagLine("  ", "array")] + tail ==
      [KeyLine("  ", key)] + ([TagLine("  ", "array")] + tail);
    BodyCons(KeyLine("  ", key), [TagLine("  ", "array")] + tail);
    BodyCons(TagLine("  ", "array"), tail);
    ArrayLine(Body(tail));
    KeyLineFound(ArrayOf(key), "  ", "  ", s);
    assert s[7..] == "\n" + Body(tail);
    ItemLinesText(vs, close);
    CloseFound(lines);
    ItemsLead(vs, "\n" + Body(close));
  }

  lemma ArrayLine(body: string)
    ensures Print(TagLine("  ", "array")) + "\n" + body == "  " + ("<array>" + ("\n" + body))
  {
    assert Print(TagLine("  ", "array")) == "  " + "<array>";
  }

  lemma CloseHere(text: string)
    ensures Before("\n  " + ("</array>" + text), "</array>") == Some("\n  ")
  {
    var rest := "</array>" + text;
    assert StartsWith(rest, "</array>");
    PlainLeads("\n  ", rest);
    assert "\n  " + "" == "\n  ";
  }

  lemma CloseFound(lines: seq<Line>)
    ensures Before("\n" + Body([TagLine("  ", "/array")] + lines), "</array>") == Some("\n  ")
  {
    var text := "\n" + Body(lines);
    BodyCons(TagLine("  ", "/array"), lines);
    assert "<" + "/array" + ">" == "</array>";
    Parts("  ", "<", "/array", ">", Body(lines));
    assert "\n" + "  " == "\n  ";
    Assoc("\n", "  ", "</array>" + text);
    CloseHere(text);
  }

  // ---------- the whole document ----------

  predicate IsTag(tag: string) {
    tag != "" && tag[0] != 'k' && '<' !in tag
  }

  lemma XmlTag()
    ensures IsTag(XML_TAG)
  {
  }

  lemma PublicId()
    ensures '<' !in PUBLIC_ID
  {
  }

  lemma SystemId()
    ensures '<' !in SYSTEM_ID
  {
    assert '<' !in SITE && '<' !in DTD;
  }

  lemma DoctypeTag()
    ensures IsTag(DOCTYPE_TAG)
  {
    PublicId();
    SystemId();
    DoctypeParts(PUBLIC_ID, SYSTEM_ID);
  }

  lemma DoctypeParts(a: string, b: string)
    requires '<' !in a && '<' !in b
    ensures IsTag("!DOCTYPE plist PUBLIC " + a + b)
  {
  }

  lemma PlistTag()
    ensures IsTag("plist version=\"1.0\"")
  {
  }

  lemma TagPassed(shape: Shape, tag: string)
    requires IsTag(tag)
    ensures Passed(shape, [TagLine("", tag)])
  {
  }

  lemma PassedAppend(shape: Shape, a: seq<Line>, b: seq<Line>)
    requires Passed(shape, a) && Passed(shape, b)
    ensures Passed(shape, a + b)
  {
  }

  lemma HeadingPassed(shape: Shape)
    ensures Passed(shape, Heading())
  {
    XmlTag();
    DoctypeTag();
    PlistTag();
    var a, b, c, d := [TagLine("", XML_TAG)], [TagLine("", DOCTYPE_TAG)], [TagLine("", "plist version=\"1.0\"")],
      [TagLine("", "dict")];
    TagPassed(shape, XML_TAG);
    TagPassed(shape, DOCTYPE_TAG);
    TagPassed(shape, "plist version=\"1.0\"");
    TagPassed(shape, "dict");
    PassedAppend(shape, a, b);
    PassedAppend(shape, a + b, c);
    PassedAppend(shape, a + b + c, d);
    assert Heading() == a + b + c + d;
  }

  lemma PreamblePassed(shape: Shape, o: Options)
    requires |shape.key| > 5
    ensures Passed(shape, Preamble(o))
  {
    HeadingPassed(shape);
    EscapedHasNoTag(o.agentLabel);
    LabelPassed(shape, EscapeXml(o.agentLabel));
    PassedAppend(shape, Heading(), [KeyLine("  ", "Label"), StringLine("  ", EscapeXml(o.agentLabel))]);
  }

  lemma LabelPassed(shape: Shape, value: string)
    requires |shape.key| > 5 && '<' !in value
    ensures Passed(shape, [KeyLine("  ", "Label"), StringLine("  ", value)])
  {
  }

  function ArgumentTexts(o: Options): seq<string> {
    [EscapeXml(o.nodePath), EscapeXml(o.binPath), "--config", EscapeXml(o.configPath)]
  }

  lemma ArgumentsTidy(o: Options)
    ensures NoTags(ArgumentTexts(o))
  {
    EscapedHasNoTag(o.nodePath);
    EscapedHasNoTag(o.binPath);
    EscapedHasNoTag(o.configPath);
  }

  lemma ArgumentLines(o: Options, lines: seq<Line>)
    ensures Arguments(o) + lines ==
            [KeyLine("  ", "ProgramArguments"), TagLine("  ", "array")] +
              (ItemLines(ArgumentTexts(o)) + ([TagLine("  ", "/array")] + lines))
  {
    var head, items, close := [KeyLine("  ", "ProgramArguments"), TagLine("  ", "array")], ItemLines(ArgumentTexts(o)),
      [TagLine("  ", "/array")];
    assert Arguments(o) == head + (items + close);
    Assoc(head, items + close, lines);
    Assoc(items, close, lines);
  }

  lemma ItemLinesPassed(shape: Shape, vs: seq<string>)
    requires NoTags(vs)
    ensures Passed(shape, ItemLines(vs))
  {
  }

  lemma ArrayOpens(shape: Shape)
    requires |shape.key| != 16
    ensures Passed(shape, [KeyLine("  ", "ProgramArguments"), TagLine("  ", "array")])
  {
  }

  lemma ArgumentsPassed(shape: Shape, o: Options, lines: seq<Line>)
    requires |shape.key| != 16 && '<' !in shape.key
    ensures First(shape, Body(Arguments(o) + lines)) == First(shape, Body(lines))
  {
    var close := [TagLine("  ", "/array")];
    ArgumentLines(o, lines);
    ArgumentsTidy(o);
    ArrayOpens(shape);
    ItemLinesPassed(shape, ArgumentTexts(o));
    SkipLines(shape, [KeyLine("  ", "ProgramArguments"), TagLine("  ", "array")],
      ItemLines(ArgumentTexts(o)) + (close + lines));
    SkipLines(shape, ItemLines(ArgumentTexts(o)), close + lines);
    SkipLines(shape, close, lines);
  }

  lemma FlagsPassed(shape: Shape, o: Options)
    requires |shape.key| > 9
    ensures Passed(shape, Flags(o))
  {
    FlagPassed(shape, "RunAtLoad", o.runAtLoad);
    FlagPassed(shape, "KeepAlive", o.keepAlive);
    PassedAppend(shape, [KeyLine("  ", "RunAtLoad"), TagLine("  ", Flag(o.runAtLoad))],
      [KeyLine("  ", "KeepAlive"), TagLine("  ", Flag(o.keepAlive))]);
    assert Flags(o) == [KeyLine("  ", "RunAtLoad"), TagLine("  ", Flag(o.runAtLoad))] +
      [KeyLine("  ", "KeepAlive"), TagLine("  ", Flag(o.keepAlive))];
  }

  lemma FlagPassed(shape: Shape, name: string, b: bool)
    requires |shape.key| > |name| && '<' !in name
    ensures Passed(shape, [KeyLine("  ", name), TagLine("  ", Flag(b))])
  {
    assert IsTag("true/") && IsTag("false/");
  }

  lemma ArgumentsFound(o: Options, lines: seq<Line>)
    ensures First(ArrayOf("ProgramArguments"), Body(Preamble(o) + (Arguments(o) + lines))) ==
      Some(Items(ArgumentTexts(o)) + "\n  ")
  {
    PreamblePassed(ArrayOf("ProgramArguments"), o);
    SkipLines(ArrayOf("ProgramArguments"), Preamble(o), Arguments(o) + lines);
    ArgumentsTidy(o);
    ArgumentLines(o, lines);
    FindArray("ProgramArguments", ArgumentTexts(o), lines);
  }

  lemma ConfigUnescaped()
    ensures UnescapeXml("--config") == "--config"
  {
    var v := "--config";
    WordKept(v, "", "&lt;", "<");
    WordKept(v, "", "&gt;", ">");
    WordKept(v, "", "&amp;", "&");
    assert v + "" == v;
  }

  lemma ArgumentsRead(o: Options)
    ensures UnescapeAll(AllStrings(Items(ArgumentTexts(o)) + "\n  ")) ==
      [o.nodePath, o.binPath, "--config", o.configPath]
  {
    ArgumentsTidy(o);
    ItemsRead(ArgumentTexts(o), "\n  ");
    EscapeRoundTrip(o.nodePath);
    EscapeRoundTrip(o.binPath);
    EscapeRoundTrip(o.configPath);
    ConfigUnescaped();
    FourUnescaped(EscapeXml(o.nodePath), EscapeXml(o.binPath), "--config", EscapeXml(o.configPath));
  }

  lemma FourUnescaped(a: string, b: string, c: string, d: string)
    ensures UnescapeAll([a, b, c, d]) == [UnescapeXml(a), UnescapeXml(b), UnescapeXml(c), UnescapeXml(d)]
  {
  }

  function PathLines(key: string, path: string): seq<Line> {
    [KeyLine("  ", key), StringLine("  ", EscapeXml(path))]
  }

  lemma PathFound(key: string, path: string, lines: seq<Line>)
    requires '<' !in key
    ensures First(StringOf(key), Body(PathLines(key, path) + lines)) == Some(EscapeXml(path))
  {
    EscapedHasNoTag(path);
    FindString(key, "  ", "  ", EscapeXml(path), lines);
  }

  lemma PathPassed(shape: Shape, key: string, path: string, lines: seq<Line>)
    requires '<' !in key && '<' !in shape.key && key != shape.key
    ensures First(shape, Body(PathLines(key, path) + lines)) == First(shape, Body(lines))
  {
    EscapedHasNoTag(path);
    SkipLines(shape, PathLines(key, path), lines);
  }

  lemma FirstPathFound(o: Options, path: string, lines: seq<Line>)
    ensures var text := Body(Preamble(o) + (Arguments(o) + (Flags(o) + (PathLines("StandardOutPath", path) + lines))));
            First(StringOf("StandardOutPath"), text) == Some(EscapeXml(path))
  {
    FixedPassed(StringOf("StandardOutPath"), o, PathLines("StandardOutPath", path) + lines);
    PathFound("StandardOutPath", path, lines);
  }

  lemma SecondPathFound(o: Options, first: string, path: string, lines: seq<Line>)
    ensures var rest := PathLines("StandardOutPath", first) + (PathLines("StandardErrorPath", path) + lines);
            First(StringOf("StandardErrorPath"), Body(Preamble(o) + (Arguments(o) + (Flags(o) + rest)))) ==
            Some(EscapeXml(path))
  {
    var rest := PathLines("StandardOutPath", first) + (PathLines("StandardErrorPath", path) + lines);
    FixedPassed(StringOf("StandardErrorPath"), o, rest);
    BehindFirstPath(first, path, lines);
  }

  lemma BehindFirstPath(first: string, path: string, lines: seq<Line>)
    ensures First(StringOf("StandardErrorPath"), Body(PathLines("StandardOutPath", first)
                  + (PathLines("StandardErrorPath", path) + lines))) == Some(EscapeXml(path))
  {
    PathPassed(StringOf("StandardErrorPath"), "StandardOutPath", first, PathLines("StandardErrorPath", path) + lines);
    PathFound("StandardErrorPath", path, lines);
  }

  lemma PathsFound(o: Options, stdoutPath: string, stderrPath: string, lines: seq<Line>)
    ensures var text := Body(Preamble(o) + (Arguments(o) + (Flags(o) + (Paths(stdoutPath, stderrPath) + lines))));
            && First(StringOf("StandardOutPath"), text) == Some(EscapeXml(stdoutPath))
            && First(StringOf("StandardErrorPath"), text) == Some(EscapeXml(stderrPath))
  {
    var first, second := PathLines("StandardOutPath", stdoutPath), PathLines("StandardErrorPath", stderrPath);
    assert Paths(stdoutPath, stderrPath) == first + second;
    Assoc(first, second, lines);
    FirstPathFound(o, stdoutPath, second + lines);
    SecondPathFound(o, stdoutPath, stderrPath, lines);
  }

  lemma FixedPassed(shape: Shape, o: Options, lines: seq<Line>)
    requires |shape.key| > 9 && |shape.key| != 16 && '<' !in shape.key
    ensures First(shape, Body(Preamble(o) + (Arguments(o) + (Flags(o) + lines)))) == First(shape, Body(lines))
  {
    PreamblePassed(shape, o);
    FlagsPassed(shape, o);
    SkipLines(shape, Preamble(o), Arguments(o) + (Flags(o) + lines));
    ArgumentsPassed(shape, o, Flags(o) + lines);
    SkipLines(shape, Flags(o), lines);
  }

  /** What is read back of a property list, for all strings. */
  lemma ReadBack(join: JoinPath, o: Options)
    requires Complete(o)
    ensures var xml := BuildPlist(join, o);
            && xml.Some?
            && ParsePlistFields(xml.value) == Fields(
                 AfterConfig([o.nodePath, o.binPath, "--config", o.configPath]),
                 Some(join(o.logDir, "collectivus.log")), Some(join(o.logDir, "collectivus.err.log")))
  {
    var stdoutPath, stderrPath := join(o.logDir, "collectivus.log"), join(o.logDir, "collectivus.err.log");
    var last := Environment(o.env) + [TagLine("", "/dict"), TagLine("", "/plist")];
    BodyIsJoin(Document(o, stdoutPath, stderrPath));
    ArgumentsFound(o, Flags(o) + (Paths(stdoutPath, stderrPath) + last));
    ArgumentsRead(o);
    PathsFound(o, stdoutPath, stderrPath, last);
    EscapeRoundTrip(stdoutPath);
    EscapeRoundTrip(stderrPath);
  }

  /** The configuration path comes back exactly when no earlier argument is taken for the flag, or what follows that one
      happens to be the same path. */
  lemma ConfigPathIff(join: JoinPath, o: Options)
    requires Complete(o)
    ensures ParsePlistFields(BuildPlist(join, o).value).configPath == Some(o.configPath) <==>
            if o.nodePath == "--config" then o.binPath == o.configPath
            else o.binPath == "--config" ==> o.configPath == "--config"
  {
    ReadBack(join, o);
    var items := [o.nodePath, o.binPath, "--config", o.configPath];
    assert items[1..] == [o.binPath, "--config", o.configPath] && items[1..][1..] == ["--config", o.configPath];
    assert AfterConfig(["--config", o.configPath]) == Some(o.configPath);
  }

  /** A node path that reads as the flag hides the configuration path. */
  lemma FlagAsNodePath(join: JoinPath)
    ensures var o := Options("label", "--config", "bin", "config", "logs", None, true, true);
            ParsePlistFields(BuildPlist(join, o).value).configPath != Some(o.configPath)
  {
    ConfigPathIff(join, Options("label", "--config", "bin", "config", "logs", None, true, true));
  }
}
