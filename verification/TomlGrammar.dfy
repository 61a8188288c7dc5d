/** The lines that the expressions of the Codex editor recognise, spelled out as texts. */
module TomlGrammar {
  import opened Wrappers
  import opened Text
  import opened TomlText

  // ---------- pieces of a line ----------

  predicate Blank(s: string) {
    forall i :: 0 <= i < |s| ==> IsSpace(s[i])
  }

  /** Between double quotes: no quote and no backslash, but a backslash may take one character of the line along. */
  predicate BasicBody(s: string) {
    || s == ""
    || (s[0] != '"' && s[0] != '\\' && BasicBody(s[1..]))
    || (s[0] == '\\' && |s| >= 2 && !IsLineTerminator(s[1]) && BasicBody(s[2..]))
  }

  predicate Bare(s: string) {
    s != "" && forall i :: 0 <= i < |s| ==>
                 'A' <= s[i] <= 'Z' || 'a' <= s[i] <= 'z' || '0' <= s[i] <= '9' || s[i] == '_' || s[i] == '-'
  }

  predicate Quoted(s: string, quote: char) {
    |s| >= 2 && s[0] == quote && s[|s| - 1] == quote
  }

  /** One part of a key: bare, in double quotes or in single quotes. */
  predicate KeyPart(s: string) {
    || Bare(s)
    || (Quoted(s, '"') && BasicBody(s[1..|s| - 1]))
    || (Quoted(s, '\'') && '\'' !in s[1..|s| - 1])
  }

  /** More parts of a key, a dot before each, with room around it. */
  ghost predicate MoreParts(s: string)
    decreases |s|
  {
    s == "" || exists g, h, p, more ::
                 |more| < |s| && s == g + ("." + (h + (p + more))) && Blank(g) && Blank(h) && KeyPart(p) &&
                   MoreParts(more)
  }

  ghost predicate KeyPath(s: string) {
    exists p, more :: s == p + more && KeyPart(p) && MoreParts(more)
  }

  /** A name as it is, or in either kind of quotes. */
  predicate Names(s: string, name: string) {
    s == name || s == "\"" + name + "\"" || s == "'" + name + "'"
  }

  /** A key of the collectivus provider: `model_providers.collectivus`, possibly with more parts. */
  ghost predicate ProviderPath(s: string) {
    exists m, g, h, c, more :: s == m + (g + ("." + (h + (c + more)))) && Names(m, "model_providers") &&
      Blank(g) && Blank(h)
                               && Names(c, "collectivus") && MoreParts(more)
  }

  /** The same inside `[model_providers]`. */
  ghost predicate ChildPath(s: string) {
    exists c, more :: s == c + more && Names(c, "collectivus") && MoreParts(more)
  }

  /** The end of a header line: room, and perhaps a comment. */
  ghost predicate Tail(s: string) {
    exists g, c :: s == g + c && Blank(g) && Comment(c)
  }

  predicate Comment(s: string) {
    s == "" || (s[0] == '#' && OneLine(s[1..]))
  }

  /** `[key]` or `[[key]]`, with room around each part. */
  ghost predicate HeaderOf(line: string, open: string, key: string, close: string) {
    exists a, b, c, d :: line == a + (open + (b + (key + (c + (close + d))))) && Blank(a) && Blank(b) &&
      Blank(c) && Tail(d)
  }

  /** The line sets `key`. */
  ghost predicate Sets(line: string, key: string) {
    exists a, b, value :: line == a + (key + (b + ("=" + value))) && Blank(a) && Blank(b)
  }

  // ---------- expressions and texts ----------

  lemma CatCut(l: Re, r: Re, s: string) returns (u: string, v: string)
    requires Matches(Cat(l, r), s)
    ensures s == u + v && Matches(l, u) && Matches(r, v)
  {
    var k :| 0 <= k <= |s| && Matches(l, s[..k]) && Matches(r, s[k..]);
    u, v := s[..k], s[k..];
  }

  lemma CatJoin(l: Re, r: Re, u: string, v: string)
    requires Matches(l, u) && Matches(r, v)
    ensures Matches(Cat(l, r), u + v)
  {
    assert (u + v)[..|u|] == u && (u + v)[|u|..] == v;
  }

  lemma {:induction false} StarIff(cls: Class, s: string)
    ensures Matches(Star(One(cls)), s) <==> forall i :: 0 <= i < |s| ==> cls.Admits(s[i])
    decreases |s|
  {
    var star := Star(One(cls));
    if s != "" {
      StarIff(cls, s[1..]);
      if Matches(star, s) {
        var k :| 0 < k <= |s| && Matches(One(cls), s[..k]) && Matches(star, s[k..]);
        assert k == 1 && s[..1][0] == s[0];
        forall i | 0 <= i < |s| ensures cls.Admits(s[i]) { assert i > 0 ==> s[1..][i - 1] == s[i]; }
      }
      if forall i :: 0 <= i < |s| ==> cls.Admits(s[i]) {
        assert Matches(One(cls), s[..1]);
        forall i | 0 <= i < |s| - 1 ensures cls.Admits(s[1..][i]) { assert s[1..][i] == s[i + 1]; }
      }
    }
  }

  lemma SpacesIff(s: string)
    ensures Matches(SPACES, s) <==> Blank(s)
  {
    StarIff(Space, s);
  }

  lemma BareIff(s: string)
    ensures Matches(BARE_KEY, s) <==> Bare(s)
  {
    if Matches(BARE_KEY, s) {
      var u, v := CatCut(One(KeyChar), Star(One(KeyChar)), s);
      StarIff(KeyChar, v);
      forall i | 0 <= i < |s| ensures KeyChar.Admits(s[i]) { assert s[i] == if i == 0 then u[0] else v[i - 1]; }
    }
    if Bare(s) {
      StarIff(KeyChar, s[1..]);
      assert s == s[..1] + s[1..];
      CatJoin(One(KeyChar), Star(One(KeyChar)), s[..1], s[1..]);
    }
  }

  const BASIC_ITEM := Alt(Cat(Word("\\"), One(AnyChar)), One(NoneOf("\"\\")))

  lemma ItemIs(s: string)
    ensures Matches(BASIC_ITEM, s) <==>
            (|s| == 2 && s[0] == '\\' && !IsLineTerminator(s[1])) || (|s| == 1 && s[0] != '"' && s[0] != '\\')
  {
    if Matches(Cat(Word("\\"), One(AnyChar)), s) {
      var u, v := CatCut(Word("\\"), One(AnyChar), s);
      assert s[0] == u[0] && s[1] == v[0];
    }
    if |s| == 2 && s[0] == '\\' && !IsLineTerminator(s[1]) {
      assert s == "\\" + s[1..];
      CatJoin(Word("\\"), One(AnyChar), "\\", s[1..]);
    }
    assert |s| == 1 ==> (Matches(One(NoneOf("\"\\")), s) <==> s[0] != '"' && s[0] != '\\');
  }

  lemma {:induction false} BodyIff(s: string)
    ensures Matches(Star(BASIC_ITEM), s) <==> BasicBody(s)
    decreases |s|
  {
    if s != "" {
      forall k | 0 < k <= |s| ensures Matches(BASIC_ITEM, s[..k]) <==>
          (k == 2 && s[0] == '\\' && !IsLineTerminator(s[1])) || (k == 1 && s[0] != '"' && s[0] != '\\') {
        ItemIs(s[..k]);
      }
      BodyIff(s[1..]);
      if |s| >= 2 { BodyIff(s[2..]); }
    }
  }

  lemma QuotedCut(q: char, body: Re, s: string)
    requires Matches(Cat(Word([q]), Cat(body, Word([q]))), s)
    ensures Quoted(s, q) && Matches(body, s[1..|s| - 1])
  {
    var u, v := CatCut(Word([q]), Cat(body, Word([q])), s);
    var b, w := CatCut(body, Word([q]), v);
    assert u == [q] && w == [q] && s == [q] + (b + [q]);
    assert s[1..|s| - 1] == b;
  }

  lemma Unwrapped(q: char, s: string)
    requires Quoted(s, q)
    ensures s == [q] + (s[1..|s| - 1] + [q])
  {
  }

  lemma QuotedJoin(q: char, body: Re, s: string)
    requires Quoted(s, q) && Matches(body, s[1..|s| - 1])
    ensures Matches(Cat(Word([q]), Cat(body, Word([q]))), s)
  {
    var b := s[1..|s| - 1];
    Unwrapped(q, s);
    CatJoin(body, Word([q]), b, [q]);
    CatJoin(Word([q]), Cat(body, Word([q])), [q], b + [q]);
  }

  lemma BasicKeyIff(s: string)
    ensures Matches(BASIC_KEY, s) <==> Quoted(s, '"') && BasicBody(s[1..|s| - 1])
  {
    var re := Cat(Word(['"']), Cat(Star(BASIC_ITEM), Word(['"'])));
    assert BASIC_KEY == re;
    if Matches(re, s) {
      QuotedCut('"', Star(BASIC_ITEM), s);
      BodyIff(s[1..|s| - 1]);
    }
    if Quoted(s, '"') && BasicBody(s[1..|s| - 1]) {
      BodyIff(s[1..|s| - 1]);
      QuotedJoin('"', Star(BASIC_ITEM), s);
    }
  }

  lemma LiteralKeyIff(s: string)
    ensures Matches(LITERAL_KEY, s) <==> Quoted(s, '\'') && '\'' !in s[1..|s| - 1]
  {
    var star := Star(One(NoneOf("'")));
    var re := Cat(Word(['\'']), Cat(star, Word(['\''])));
    assert LITERAL_KEY == re;
    if Matches(re, s) {
      QuotedCut('\'', star, s);
      NoQuote(s[1..|s| - 1]);
    }
    if Quoted(s, '\'') && '\'' !in s[1..|s| - 1] {
      NoQuote(s[1..|s| - 1]);
      QuotedJoin('\'', star, s);
    }
  }

  lemma NoQuote(s: string)
    ensures Matches(Star(One(NoneOf("'"))), s) <==> '\'' !in s
  {
    StarIff(NoneOf("'"), s);
    assert forall c :: NoneOf("'").Admits(c) <==> c != '\'';
  }

  lemma KeyPartIff(s: string)
    ensures Matches(KEY_PART, s) <==> KeyPart(s)
  {
    BareIff(s);
    BasicKeyIff(s);
    LiteralKeyIff(s);
    assert Matches(Alt(LITERAL_KEY, BARE_KEY), s) <==> Matches(LITERAL_KEY, s) || Matches(BARE_KEY, s);
  }

  const DOT_PART := Cat(SPACES, Cat(Word("."), Cat(SPACES, KEY_PART)))

  lemma DotCut(s: string) returns (g: string, h: string, p: string)
    requires Matches(DOT_PART, s)
    ensures s == g + ("." + (h + p)) && Blank(g) && Blank(h) && KeyPart(p)
  {
    var s1, s2, dot;
    g, s1 := CatCut(SPACES, Cat(Word("."), Cat(SPACES, KEY_PART)), s);
    dot, s2 := CatCut(Word("."), Cat(SPACES, KEY_PART), s1);
    h, p := CatCut(SPACES, KEY_PART, s2);
    SpacesIff(g);
    SpacesIff(h);
    KeyPartIff(p);
  }

  lemma DotJoin(g: string, h: string, p: string)
    requires Blank(g) && Blank(h) && KeyPart(p)
    ensures Matches(DOT_PART, g + ("." + (h + p)))
  {
    SpacesIff(g);
    SpacesIff(h);
    KeyPartIff(p);
    CatJoin(SPACES, KEY_PART, h, p);
    CatJoin(Word("."), Cat(SPACES, KEY_PART), ".", h + p);
    CatJoin(SPACES, Cat(Word("."), Cat(SPACES, KEY_PART)), g, "." + (h + p));
  }

  lemma Regroup(g: string, h: string, p: string, more: string)
    ensures g + ("." + (h + p)) + more == g + ("." + (h + (p + more)))
  {
    Assoc(h, p, more);
    Assoc(".", h + p, more);
    Assoc(g, "." + (h + p), more);
  }

  lemma MoreCut(g: string, h: string, p: string, more: string, s: string)
    requires s == g + ("." + (h + p)) + more && more != s && Blank(g) && Blank(h) && KeyPart(p) && MoreParts(more)
    ensures MoreParts(s)
  {
    Regroup(g, h, p, more);
  }

  lemma MoreJoin(g: string, h: string, p: string, more: string, s: string)
    requires s == g + ("." + (h + (p + more))) && Blank(g) && Blank(h) && KeyPart(p) && Matches(KEY_TAIL, more)
    ensures Matches(KEY_TAIL, s)
  {
    DotJoin(g, h, p);
    Regroup(g, h, p, more);
    var front := g + ("." + (h + p));
    assert s[..|front|] == front && s[|front|..] == more;
  }

  lemma TailCut(s: string) returns (u: string, v: string)
    requires s != "" && Matches(KEY_TAIL, s)
    ensures s == u + v && |v| < |s| && Matches(DOT_PART, u) && Matches(KEY_TAIL, v)
  {
    var k :| 0 < k <= |s| && Matches(DOT_PART, s[..k]) && Matches(KEY_TAIL, s[k..]);
    u, v := s[..k], s[k..];
  }

  lemma {:induction false} MorePartsCut(s: string)
    requires Matches(KEY_TAIL, s)
    ensures MoreParts(s)
    decreases |s|
  {
    if s != "" {
      var u, v := TailCut(s);
      MorePartsCut(v);
      var g, h, p := DotCut(u);
      MoreCut(g, h, p, v, s);
    }
  }

  lemma {:induction false} MorePartsJoin(s: string)
    requires MoreParts(s)
    ensures Matches(KEY_TAIL, s)
    decreases |s|
  {
    if s != "" {
      var g, h, p, more :| |more| < |s| && s == g + ("." + (h + (p + more))) && Blank(g) && Blank(h) && KeyPart(p)
        && MoreParts(more);
      MorePartsJoin(more);
      MoreJoin(g, h, p, more, s);
    }
  }

  lemma MorePartsIff(s: string)
    ensures Matches(KEY_TAIL, s) <==> MoreParts(s)
  {
    if Matches(KEY_TAIL, s) { MorePartsCut(s); }
    if MoreParts(s) { MorePartsJoin(s); }
  }

  lemma KeyPathIff(s: string)
    ensures Matches(DOTTED_KEY, s) <==> KeyPath(s)
  {
    if Matches(DOTTED_KEY, s) {
      var p, more := CatCut(KEY_PART, KEY_TAIL, s);
      KeyPartIff(p);
      MorePartsIff(more);
    }
    if KeyPath(s) {
      var p, more :| s == p + more && KeyPart(p) && MoreParts(more);
      KeyPartIff(p);
      MorePartsIff(more);
      CatJoin(KEY_PART, KEY_TAIL, p, more);
    }
  }

  lemma NamesIff(s: string, name: string)
    ensures Matches(Quotable(name), s) <==> Names(s, name)
  {
    var q, r := Word("\"" + name + "\""), Word("'" + name + "'");
    assert Quotable(name) == Alt(Word(name), Alt(q, r));
    assert Matches(Alt(q, r), s) <==> Matches(q, s) || Matches(r, s);
  }

  const CHILD_KEY := Cat(PROVIDER_KEY, KEY_TAIL)

  lemma ChildPathIff(s: string)
    ensures Matches(CHILD_KEY, s) <==> ChildPath(s)
  {
    if Matches(CHILD_KEY, s) {
      var c, more := CatCut(PROVIDER_KEY, KEY_TAIL, s);
      NamesIff(c, "collectivus");
      MorePartsIff(more);
    }
    if ChildPath(s) {
      var c, more :| s == c + more && Names(c, "collectivus") && MoreParts(more);
      NamesIff(c, "collectivus");
      MorePartsIff(more);
      CatJoin(PROVIDER_KEY, KEY_TAIL, c, more);
    }
  }

  const DOT_CHILD := Cat(SPACES, Cat(Word("."), Cat(SPACES, CHILD_KEY)))

  lemma ProviderCut(s: string)
    requires Matches(PROVIDER_DOTTED_KEY, s)
    ensures ProviderPath(s)
  {
    var m, s1 := CatCut(Quotable("model_providers"), DOT_CHILD, s);
    var g, s2 := CatCut(SPACES, Cat(Word("."), Cat(SPACES, CHILD_KEY)), s1);
    var dot, s3 := CatCut(Word("."), Cat(SPACES, CHILD_KEY), s2);
    var h, s4 := CatCut(SPACES, CHILD_KEY, s3);
    NamesIff(m, "model_providers");
    SpacesIff(g);
    SpacesIff(h);
    ChildPathIff(s4);
  }

  lemma ProviderJoin(s: string)
    requires ProviderPath(s)
    ensures Matches(PROVIDER_DOTTED_KEY, s)
  {
    var m, g, h, c, more :| s == m + (g + ("." + (h + (c + more)))) && Names(m, "model_providers") &&
      Blank(g) && Blank(h)
                            && Names(c, "collectivus") && MoreParts(more);
    ChildPathIff(c + more);
    NamesIff(m, "model_providers");
    SpacesIff(g);
    SpacesIff(h);
    CatJoin(SPACES, CHILD_KEY, h, c + more);
    CatJoin(Word("."), Cat(SPACES, CHILD_KEY), ".", h + (c + more));
    CatJoin(SPACES, Cat(Word("."), Cat(SPACES, CHILD_KEY)), g, "." + (h + (c + more)));
    CatJoin(Quotable("model_providers"), DOT_CHILD, m, g + ("." + (h + (c + more))));
  }

  lemma ProviderPathIff(s: string)
    ensures Matches(PROVIDER_DOTTED_KEY, s) <==> ProviderPath(s)
  {
    if Matches(PROVIDER_DOTTED_KEY, s) { ProviderCut(s); }
    if ProviderPath(s) { ProviderJoin(s); }
  }

  lemma TailIff(s: string)
    ensures Matches(LINE_TAIL, s) <==> Tail(s)
  {
    forall c ensures Matches(Alt(Word(""), Cat(Word("#"), Star(One(AnyChar)))), c) <==> Comment(c) { CommentIff(c); }
    forall g ensures Matches(SPACES, g) <==> Blank(g) { SpacesIff(g); }
    if Matches(LINE_TAIL, s) {
      var g, c := CatCut(SPACES, Alt(Word(""), Cat(Word("#"), Star(One(AnyChar)))), s);
    }
    if Tail(s) {
      var g, c :| s == g + c && Blank(g) && Comment(c);
      CatJoin(SPACES, Alt(Word(""), Cat(Word("#"), Star(One(AnyChar)))), g, c);
    }
  }

  lemma CommentIff(c: string)
    ensures Matches(Alt(Word(""), Cat(Word("#"), Star(One(AnyChar)))), c) <==> Comment(c)
  {
    var star := Star(One(AnyChar));
    if Matches(Cat(Word("#"), star), c) {
      var u, v := CatCut(Word("#"), star, c);
      StarIff(AnyChar, v);
      assert c[1..] == v;
    }
    if c != "" && Comment(c) {
      StarIff(AnyChar, c[1..]);
      CatJoin(Word("#"), star, "#", c[1..]);
      assert c == "#" + c[1..];
    }
  }

  lemma HeaderCut(open: string, key: Re, close: string, line: string) returns (k: string)
    requires Matches(Header(open, key, close), line)
    ensures Matches(key, k) && HeaderOf(line, open, k, close)
  {
    var r1 := Cat(Word(close), LINE_TAIL);
    var r2 := Cat(SPACES, r1);
    var r3 := Cat(key, r2);
    var r4 := Cat(SPACES, r3);
    var a, s1 := CatCut(SPACES, Cat(Word(open), r4), line);
    var o, s2 := CatCut(Word(open), r4, s1);
    var b, s3 := CatCut(SPACES, r3, s2);
    var s4, s5, cl, c, d;
    k, s4 := CatCut(key, r2, s3);
    c, s5 := CatCut(SPACES, r1, s4);
    cl, d := CatCut(Word(close), LINE_TAIL, s5);
    SpacesIff(a);
    SpacesIff(b);
    SpacesIff(c);
    TailIff(d);
  }

  lemma HeaderJoin(open: string, key: Re, close: string, line: string, k: string)
    requires Matches(key, k) && HeaderOf(line, open, k, close)
    ensures Matches(Header(open, key, close), line)
  {
    var a, b, c, d :| line == a + (open + (b + (k + (c + (close + d))))) && Blank(a) && Blank(b) && Blank(c) && Tail(d);
    SpacesIff(a);
    SpacesIff(b);
    SpacesIff(c);
    TailIff(d);
    var r1 := Cat(Word(close), LINE_TAIL);
    var r2 := Cat(SPACES, r1);
    var r3 := Cat(key, r2);
    var r4 := Cat(SPACES, r3);
    CatJoin(Word(close), LINE_TAIL, close, d);
    CatJoin(SPACES, r1, c, close + d);
    CatJoin(key, r2, k, c + (close + d));
    CatJoin(SPACES, r3, b, k + (c + (close + d)));
    CatJoin(Word(open), r4, open, b + (k + (c + (close + d))));
    CatJoin(SPACES, Cat(Word(open), r4), a, open + (b + (k + (c + (close + d)))));
  }

  lemma SetsCut(key: Re, line: string) returns (k: string)
    requires MatchesPrefix(Assignment(key), line)
    ensures Matches(key, k) && Sets(line, k)
  {
    var n :| 0 <= n <= |line| && Matches(Assignment(key), line[..n]);
    var a, b;
    a, k, b := AssignmentCut(key, line[..n]);
    assert line == line[..n] + line[n..];
    AssignmentText(a, k, b, line[n..]);
  }

  lemma AssignmentCut(key: Re, front: string) returns (a: string, k: string, b: string)
    requires Matches(Assignment(key), front)
    ensures front == a + (k + (b + "=")) && Blank(a) && Blank(b) && Matches(key, k)
  {
    var s1, s2, eq;
    a, s1 := CatCut(SPACES, Cat(key, Cat(SPACES, Word("="))), front);
    k, s2 := CatCut(key, Cat(SPACES, Word("=")), s1);
    b, eq := CatCut(SPACES, Word("="), s2);
    SpacesIff(a);
    SpacesIff(b);
  }

  lemma AssignmentText(a: string, k: string, b: string, value: string)
    ensures a + (k + (b + "=")) + value == a + (k + (b + ("=" + value)))
  {
    Assoc(b, "=", value);
    Assoc(k, b + "=", value);
    Assoc(a, k + (b + "="), value);
  }

  lemma SetsJoin(key: Re, line: string, k: string)
    requires Matches(key, k) && Sets(line, k)
    ensures MatchesPrefix(Assignment(key), line)
  {
    var a, b, value :| line == a + (k + (b + ("=" + value))) && Blank(a) && Blank(b);
    SpacesIff(a);
    SpacesIff(b);
    var r1 := Cat(SPACES, Word("="));
    CatJoin(SPACES, Word("="), b, "=");
    CatJoin(key, r1, k, b + "=");
    CatJoin(SPACES, Cat(key, r1), a, k + (b + "="));
    var front := a + (k + (b + "="));
    AssignmentText(a, k, b, value);
    assert line[..|front|] == front;
  }

  // ---------- the lines recognised ----------

  /** A table header is a key path in single or double brackets, with room anywhere between and perhaps a comment. */
  lemma TableHeaderIff(line: string)
    ensures IsTableHeader(line) <==>
            exists key :: KeyPath(key) && (HeaderOf(line, "[", key, "]") || HeaderOf(line, "[[", key, "]]"))
  {
    forall key ensures Matches(DOTTED_KEY, key) <==> KeyPath(key) { KeyPathIff(key); }
    HeaderIff(DOTTED_KEY, line);
    assert HasHeader(DOTTED_KEY, line) <==>
      exists key :: KeyPath(key) && (HeaderOf(line, "[", key, "]") || HeaderOf(line, "[[", key, "]]"));
  }

  lemma OneHeaderIff(open: string, key: Re, close: string, line: string)
    ensures Matches(Header(open, key, close), line) <==> exists k :: Matches(key, k) && HeaderOf(line, open, k, close)
  {
    if Matches(Header(open, key, close), line) { var k := HeaderCut(open, key, close, line); }
    if k :| Matches(key, k) && HeaderOf(line, open, k, close) { HeaderJoin(open, key, close, line, k); }
  }

  ghost predicate HasHeader(key: Re, line: string) {
    exists k :: Matches(key, k) && (HeaderOf(line, "[", k, "]") || HeaderOf(line, "[[", k, "]]"))
  }

  lemma HeaderIff(key: Re, line: string)
    ensures Matches(Header("[", key, "]"), line) || Matches(Header("[[", key, "]]"), line) <==> HasHeader(key, line)
  {
    OneHeaderIff("[", key, "]", line);
    OneHeaderIff("[[", key, "]]", line);
  }

  /** The header of the collectivus provider, or of a table inside it. */
  lemma ProviderHeaderIff(line: string)
    ensures IsProviderTableHeader(line) <==>
            exists key :: ProviderPath(key) && (HeaderOf(line, "[", key, "]") || HeaderOf(line, "[[", key, "]]"))
  {
    forall key ensures Matches(PROVIDER_DOTTED_KEY, key) <==> ProviderPath(key) { ProviderPathIff(key); }
    HeaderIff(PROVIDER_DOTTED_KEY, line);
  }

  /** The header of the table of providers, in single brackets only. */
  lemma ProvidersHeaderIff(line: string)
    ensures IsModelProvidersHeader(line) <==>
            exists key :: Names(key, "model_providers") && HeaderOf(line, "[", key, "]")
  {
    var re := Quotable("model_providers");
    forall key ensures Matches(re, key) <==> Names(key, "model_providers") { NamesIff(key, "model_providers"); }
    OneHeaderIff("[", re, "]", line);
  }

  lemma SetsIff(key: Re, line: string)
    ensures MatchesPrefix(Assignment(key), line) <==> exists k :: Matches(key, k) && Sets(line, k)
  {
    if MatchesPrefix(Assignment(key), line) { var k := SetsCut(key, line); }
    if k :| Matches(key, k) && Sets(line, k) { SetsJoin(key, line, k); }
  }

  lemma RootAssignmentIff(line: string)
    ensures IsRootModelProviderLine(line) <==> exists key :: Names(key, "model_provider") && Sets(line, key)
  {
    var re := Quotable("model_provider");
    forall key ensures Matches(re, key) <==> Names(key, "model_provider") { NamesIff(key, "model_provider"); }
    SetsIff(re, line);
  }

  lemma DottedAssignmentIff(line: string)
    ensures IsProviderDottedAssignment(line) <==> exists key :: ProviderPath(key) && Sets(line, key)
  {
    forall key ensures Matches(PROVIDER_DOTTED_KEY, key) <==> ProviderPath(key) { ProviderPathIff(key); }
    SetsIff(PROVIDER_DOTTED_KEY, line);
  }

  lemma ChildAssignmentIff(line: string)
    ensures IsProviderChildAssignment(line) <==> exists key :: ChildPath(key) && Sets(line, key)
  {
    forall key ensures Matches(CHILD_KEY, key) <==> ChildPath(key) { ChildPathIff(key); }
    SetsIff(CHILD_KEY, line);
  }

  lemma BaseUrlIff(line: string)
    ensures MatchesPrefix(Assignment(Word("base_url")), line) <==> Sets(line, "base_url")
  {
    SetsIff(Word("base_url"), line);
  }

  // ---------- values ----------

  lemma {:induction false} StartTrimmed(room: string, s: string)
    requires Blank(room) && s != "" && !IsSpace(s[0])
    ensures TrimStart(room + s) == s
    decreases |room|
  {
    if room == "" {
      assert room + s == s;
    } else {
      assert (room + s)[1..] == room[1..] + s;
      StartTrimmed(room[1..], s);
    }
  }

  /** Trimming at the end takes nothing from a text that ends visibly. */
  lemma {:induction false} EndTrimmed(s: string, rest: string) returns (kept: string)
    requires s != "" && !IsSpace(s[|s| - 1])
    ensures TrimEnd(s + rest) == s + kept && kept <= rest
    decreases |rest|
  {
    var t := s + rest;
    if rest != "" && IsSpace(rest[|rest| - 1]) {
      assert t[..|t| - 1] == s + rest[..|rest| - 1];
      kept := EndTrimmed(s, rest[..|rest| - 1]);
    } else {
      kept := rest;
    }
  }

  lemma AfterEquals(key: string, value: string)
    requires '=' !in key
    ensures '=' in key + ("=" + value)
    ensures (key + ("=" + value))[IndexOfChar(key + ("=" + value), '=') + 1..] == value
  {
    assert key + ("=" + value) == key + ['='] + value;
    IndexOfCharUnique(key, '=', value);
  }

  /** A value in double quotes is read whatever follows it. */
  lemma QuotedValue(key: string, room: string, v: string, rest: string)
    requires '=' !in key && Blank(room)
    ensures ParseAssignmentString(key + ("=" + (room + (TomlString(v) + rest)))) == Some(v)
  {
    AfterEquals(key, room + (TomlString(v) + rest));
    StartTrimmed(room, TomlString(v) + rest);
    var kept := EndTrimmed(TomlString(v), rest);
    BasicRead(room + (TomlString(v) + rest), v, kept);
  }

  lemma BasicRead(value: string, v: string, kept: string)
    requires Trim(value) == TomlString(v) + kept
    ensures ParseTomlString(value) == Some(v)
  {
    var t := TomlString(v) + kept;
    AfterQuote(Escaped(v), kept);
    EscapedCloses(v, kept);
    EscapedReads(v);
  }

  lemma AfterQuote(body: string, kept: string)
    ensures var t := "\"" + body + "\"" + kept; t[1..] == body + ("\"" + kept) && t[1..][..|body|] == body
  {
  }

  /** A value in single quotes is read as it stands. */
  lemma LiteralValue(key: string, room: string, v: string, rest: string)
    requires '=' !in key && Blank(room) && '\'' !in v
    ensures ParseAssignmentString(key + ("=" + (room + ("'" + v + "'" + rest)))) == Some(v)
  {
    var quoted := "'" + v + "'";
    AfterEquals(key, room + (quoted + rest));
    StartTrimmed(room, quoted + rest);
    var kept := EndTrimmed(quoted, rest);
    LiteralRead(room + (quoted + rest), v, kept);
  }

  lemma LiteralRead(value: string, v: string, kept: string)
    requires Trim(value) == "'" + v + "'" + kept && '\'' !in v
    ensures ParseTomlString(value) == Some(v)
  {
    LiteralCloses(v, kept);
  }

  lemma LiteralCloses(v: string, kept: string)
    requires '\'' !in v
    ensures var t := "'" + v + "'" + kept;
            t[0] == '\'' && '\'' in t[1..] && t[1..][..IndexOfChar(t[1..], '\'')] == v
  {
    var t := "'" + v + "'" + kept;
    assert t[1..] == v + ['\''] + kept;
    IndexOfCharUnique(v, '\'', kept);
  }

  /** Any other value is none. */
  lemma OtherValue(key: string, room: string, value: string)
    requires '=' !in key && Blank(room) && value != "" && !IsSpace(value[0]) && value[0] != '"' && value[0] != '\''
    ensures ParseAssignmentString(key + ("=" + (room + value))) == None
  {
    AfterEquals(key, room + value);
    StartTrimmed(room, value);
    var kept := EndTrimmed(value[..1], value[1..]);
    assert value[..1] + value[1..] == value;
  }

  // ---------- multi-line strings ----------

  /** A value that begins with three quotes opens a multi-line string, unless it is closed on the same line. */
  lemma AssignedOpens(front: string, key: string, room: string, d: Delim, v: string)
    requires Blank(front) && '=' !in front && key != "" && !IsSpace(key[0]) && key[0] != '#' &&
      '=' !in key && Blank(room)
    ensures Open(front + key + ("=" + (room + (d.Mark() + v)))) == if HasClosing(v, d) then None else Some(d)
  {
    var value := d.Mark() + v;
    MarkVisible(d, v);
    AssignedValue(front, key, room, value);
    OpensIf(front + key + ("=" + (room + value)), d, v);
  }

  lemma MarkVisible(d: Delim, v: string)
    ensures var value := d.Mark() + v; value != "" && !IsSpace(value[0])
  {
  }

  lemma AssignedValue(front: string, key: string, room: string, value: string)
    requires Blank(front) && '=' !in front && key != "" && !IsSpace(key[0]) && key[0] != '#' &&
      '=' !in key && Blank(room)
    requires value != "" && !IsSpace(value[0])
    ensures AssignmentValue(front + key + ("=" + (room + value))) == Some(value)
  {
    AfterEquals(front + key, room + value);
    StartTrimmed(room, value);
    Assoc(front, key, "=" + (room + value));
    KeyFirst(front, key, "=" + (room + value));
    Assigned(front + key + ("=" + (room + value)), room + value, value);
  }

  lemma KeyFirst(front: string, key: string, rest: string)
    requires Blank(front) && key != "" && !IsSpace(key[0]) && key[0] != '#'
    ensures !StartsWith(TrimStart(front + (key + rest)), "#")
  {
    StartTrimmed(front, key + rest);
    assert (key + rest)[0] == key[0];
  }

  lemma Assigned(line: string, rest: string, value: string)
    requires !StartsWith(TrimStart(line), "#") && '=' in line && line[IndexOfChar(line, '=') + 1..] == rest
    requires TrimStart(rest) == value
    ensures AssignmentValue(line) == Some(value)
  {
  }

  lemma OpensIf(line: string, d: Delim, v: string)
    requires AssignmentValue(line) == Some(d.Mark() + v) ||
      (AssignmentValue(line) == None && TrimStart(line) == d.Mark() + v)
    ensures Open(line) == if HasClosing(v, d) then None else Some(d)
  {
    MarkFirst(d, v);
  }

  lemma MarkFirst(d: Delim, v: string)
    ensures var value := d.Mark() + v;
            value[3..] == v && (StartsWith(value, Basic.Mark()) <==> d.Basic?)
            && (StartsWith(value, LiteralQuotes.Mark()) <==> d.LiteralQuotes?)
  {
    var value := d.Mark() + v;
    assert value[0] == d.Mark()[0] && |d.Mark()| == 3;
    assert value[..3] == d.Mark();
  }

  /** So does a line that begins with them and sets nothing. */
  lemma BareOpens(room: string, d: Delim, v: string)
    requires Blank(room) && '=' !in room && '=' !in v
    ensures Open(room + (d.Mark() + v)) == if HasClosing(v, d) then None else Some(d)
  {
    StartTrimmed(room, d.Mark() + v);
    assert '=' !in d.Mark() && d.Mark()[0] != '#';
    OpensIf(room + (d.Mark() + v), d, v);
  }

  /** A comment opens nothing. */
  lemma CommentOpens(room: string, text: string)
    requires Blank(room)
    ensures Open(room + ("#" + text)) == None
  {
    StartTrimmed(room, "#" + text);
    assert ("#" + text)[0] == '#';
  }
}
