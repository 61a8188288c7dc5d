/** Files on which attaching, detaching and restoring fall short of what they promise: one for each exact condition. */
module CodexTomlInputs {
  import opened Wrappers
  import opened Text
  import opened TomlText
  import TomlGrammar
  import opened CodexToml
  import opened CodexTomlLines
  import opened CodexTomlTheorems

  const QUOTES := "\"\"\""

  // ---------- single lines ----------

  lemma {:induction false} CatParts(l: Re, r: Re, s: string) returns (k: nat)
    requires Matches(Cat(l, r), s)
    ensures k <= |s| && Matches(l, s[..k]) && Matches(r, s[k..])
  {
    k :| 0 <= k <= |s| && Matches(l, s[..k]) && Matches(r, s[k..]);
  }

  /** An assignment holds an equals sign. */
  lemma EqualsInside(key: Re, s: string)
    requires Matches(Assignment(key), s)
    ensures '=' in s
  {
    var a := CatParts(SPACES, Cat(key, Cat(SPACES, Word("="))), s);
    var b := CatParts(key, Cat(SPACES, Word("=")), s[a..]);
    var c := CatParts(SPACES, Word("="), s[a..][b..]);
    assert s[a..][b..][c..] == "=";
    assert s[a + b + c] == s[a..][b..][c..][0];
  }

  lemma NoEquals(key: Re, s: string)
    requires '=' !in s
    ensures !MatchesPrefix(Assignment(key), s)
  {
    forall k | 0 <= k <= |s| ensures !Matches(Assignment(key), s[..k]) {
      if Matches(Assignment(key), s[..k]) { EqualsInside(key, s[..k]); }
    }
  }

  /** Without leading space, an assignment begins with its key. */
  lemma KeyFirst(key: Re, s: string) returns (j: nat)
    requires MatchesPrefix(Assignment(key), s) && s != "" && !IsSpace(s[0])
    ensures j <= |s| && Matches(key, s[..j])
  {
    var k :| 0 <= k <= |s| && Matches(Assignment(key), s[..k]);
    var p := s[..k];
    var a := CatParts(SPACES, Cat(key, Cat(SPACES, Word("="))), p);
    assert a > 0 ==> p[..a][0] == s[0];
    TomlGrammar.SpacesIff(p[..a]);
    assert p[0..] == p;
    j := CatParts(key, Cat(SPACES, Word("=")), p);
    assert p[..j] == s[..j];
  }

  lemma QuotableWords(name: string, s: string)
    requires Matches(Quotable(name), s)
    ensures s == name || s == "\"" + name + "\"" || s == "'" + name + "'"
  {
    var q, r := Word("\"" + name + "\""), Word("'" + name + "'");
    assert Quotable(name) == Alt(Word(name), Alt(q, r));
    if !Matches(Word(name), s) {
      assert Matches(Alt(q, r), s);
      assert Matches(q, s) || Matches(r, s);
    }
  }

  /** `x = ...` is no assignment that the filters look for. */
  lemma OtherKey(s: string)
    requires s != "" && s[0] == 'x'
    ensures !IsRootModelProviderLine(s) && !IsProviderDottedAssignment(s)
  {
    if IsRootModelProviderLine(s) {
      var j := KeyFirst(Quotable("model_provider"), s);
      assert j > 0 ==> s[..j][0] == s[0];
      QuotableWords("model_provider", s[..j]);
    }
    if IsProviderDottedAssignment(s) {
      var i := DottedFirst(s);
      assert i > 0 ==> s[..i][0] == s[0];
      QuotableWords("model_providers", s[..i]);
    }
  }

  /** Without leading space, a dotted provider assignment begins with the name of the providers' table. */
  lemma DottedFirst(s: string) returns (i: nat)
    requires IsProviderDottedAssignment(s) && s != "" && !IsSpace(s[0])
    ensures i <= |s| && Matches(Quotable("model_providers"), s[..i])
  {
    var j := KeyFirst(PROVIDER_DOTTED_KEY, s);
    i := CatParts(Quotable("model_providers"),
      Cat(SPACES, Cat(Word("."), Cat(SPACES, Cat(PROVIDER_KEY, KEY_TAIL)))), s[..j]);
    assert s[..j][..i] == s[..i];
  }

  /** A root model_provider line is no dotted provider assignment. */
  lemma RootIsNotDotted(value: string)
    ensures !IsProviderDottedAssignment(ModelProviderLine(value))
  {
    var s := ModelProviderLine(value);
    assert s[0] == 'm' && s[14] == ' ';
    if IsProviderDottedAssignment(s) {
      var i := DottedFirst(s);
      QuotableWords("model_providers", s[..i]);
      DottedWord(s, i);
      assert false;
    }
  }

  lemma DottedWord(s: string, i: nat)
    requires i <= |s| && |s| > 14 && s[0] == 'm' && s[14] == ' '
    ensures s[..i] != "model_providers" && s[..i] != "\"model_providers\"" && s[..i] != "'model_providers'"
  {
    assert "model_providers"[14] == 's';
    if i > 14 { assert s[..i][14] == s[14]; }
    if i > 0 { assert s[..i][0] == s[0]; }
  }

  lemma NothingCloses()
    ensures !HasClosing("", Basic) && !HasClosing("[a]", Basic)
  {
    assert Basic.Mark() == QUOTES && |QUOTES| == 3;
    assert "[a]"[0..3] == "[a]" && "[a]"[0] != QUOTES[0];
  }

  /** `key = """` opens a string. */
  lemma AssignmentOpens(key: string)
    requires key != "" && '=' !in key && !IsSpace(key[0]) && key[0] != '#'
    ensures Open(key + "= " + QUOTES) == Some(Basic)
  {
    var line := key + "= " + QUOTES;
    assert line == key + ['='] + (" " + QUOTES);
    IndexOfCharUnique(key, '=', " " + QUOTES);
    assert line[|key| + 1..] == " " + QUOTES;
    TrimOneSpace(QUOTES);
    assert TrimStart(line) == line && line[0] == key[0];
    assert AssignmentValue(line) == Some(QUOTES);
    assert QUOTES[3..] == "";
    NothingCloses();
  }

  /** The quotes alone open a string, and close one. */
  lemma QuotesAlone()
    ensures Open(QUOTES) == Some(Basic) && Close(QUOTES, Basic) == None && Close("[a]", Basic) == Some(Basic)
    ensures !IsTableHeader(QUOTES) && !IsRootModelProviderLine(QUOTES) && !IsProviderDottedAssignment(QUOTES)
  {
    NothingCloses();
    assert TrimStart(QUOTES) == QUOTES && QUOTES[3..] == "";
    assert '=' !in QUOTES;
    assert AssignmentValue(QUOTES) == None;
    assert QUOTES[0..3] == QUOTES && BackslashesBefore(QUOTES, 0) == 0;
    assert OccursAt(QUOTES, Basic.Mark(), 0);
    NoHeader(QUOTES);
    NoEquals(Quotable("model_provider"), QUOTES);
    NoEquals(PROVIDER_DOTTED_KEY, QUOTES);
  }

  /** Nothing before, nothing after. */
  lemma EmptyBefore(r: Re, s: string)
    requires Matches(r, s)
    ensures Matches(Cat(SPACES, r), s)
  {
    NoSpaces();
    TomlGrammar.CatJoin(SPACES, r, "", s);
    assert "" + s == s;
  }

  lemma NoTail()
    ensures Matches(LINE_TAIL, "")
  {
    EmptyBefore(Alt(Word(""), Cat(Word("#"), Star(One(AnyChar)))), "");
  }

  lemma CloseMatches()
    ensures Matches(Cat(SPACES, Cat(Word("]"), LINE_TAIL)), "]")
  {
    NoTail();
    TomlGrammar.CatJoin(Word("]"), LINE_TAIL, "]", "");
    assert "]" + "" == "]";
    EmptyBefore(Cat(Word("]"), LINE_TAIL), "]");
  }

  lemma OpenMatches(inner: Re, s: string)
    requires Matches(inner, s)
    ensures Matches(Cat(SPACES, Cat(Word("["), Cat(SPACES, inner))), "[" + s)
  {
    EmptyBefore(inner, s);
    TomlGrammar.CatJoin(Word("["), Cat(SPACES, inner), "[", s);
    EmptyBefore(Cat(Word("["), Cat(SPACES, inner)), "[" + s);
  }

  lemma HeaderMatches(key: Re, name: string)
    requires Matches(key, name)
    ensures Matches(Header("[", key, "]"), "[" + (name + "]"))
  {
    CloseMatches();
    TomlGrammar.CatJoin(key, Cat(SPACES, Cat(Word("]"), LINE_TAIL)), name, "]");
    OpenMatches(Cat(key, Cat(SPACES, Cat(Word("]"), LINE_TAIL))), name + "]");
  }

  lemma KeyA()
    ensures Matches(DOTTED_KEY, "a")
  {
    assert Matches(One(KeyChar), "a") && Matches(Star(One(KeyChar)), "") && Matches(KEY_TAIL, "");
    TomlGrammar.CatJoin(One(KeyChar), Star(One(KeyChar)), "a", "");
    assert "a" + "" == "a";
    assert Matches(BARE_KEY, "a");
    assert Matches(Alt(LITERAL_KEY, BARE_KEY), "a");
    TomlGrammar.CatJoin(KEY_PART, KEY_TAIL, "a", "");
  }

  lemma TableA()
    ensures IsTableHeader("[a]")
  {
    KeyA();
    HeaderMatches(DOTTED_KEY, "a");
    assert "[" + ("a" + "]") == "[a]";
  }

  // ---------- a restored provider that is not read back ----------

  /** A file of one line that opens a string. */
  lemma OpenAlone(g: Grammar, open: string)
    requires open != "" && !g.isTableHeader(open) && !g.isRootModelProvider(open) && !g.isProviderAssignment(Root, open)
    requires g.open(open).Some?
    ensures Settled(g, [open]) && Before(g, [open]) == [open] && StateAfter(g, [open], None) == g.open(open)
  {
    assert [open][1..] == [] && [open][..1] == [open] && [open][0] == open;
    var none: Lines := [];
    assert NextTable(g, none, g.open(open)) == 0 && StateAfter(g, none, g.open(open)) == g.open(open);
    assert NextTable(g, [open], None) == 1;
    assert RootIndex(g, [open]) == 1 && CutOff(g, [open]) == 0;
  }

  /** A root assignment before such a line. */
  lemma OpenRoot(g: Grammar, value: string, line: string, open: string)
    requires !g.isTableHeader(line) && g.isRootModelProvider(line) && ParseAssignmentString(line) == Some(value)
    ensures RootValue(g, [line, open]) == Some(value)
  {
    assert NextTable(g, [line, open], None) > 0;
  }

  const OPEN_LINE := "x = " + QUOTES

  lemma OpenLine()
    ensures Open(OPEN_LINE) == Some(Basic) && !IsRootModelProviderLine(OPEN_LINE) && !IsTableHeader(OPEN_LINE)
    ensures OPEN_LINE != "" && !IsProviderDottedAssignment(OPEN_LINE)
  {
    assert "x " + "= " == "x = ";
    AssignmentOpens("x ");
    OtherKey(OPEN_LINE);
    NoHeader(OPEN_LINE);
  }

  lemma OpenLineIsInner()
    ensures InnerLine(OPEN_LINE)
  {
  }

  lemma OpenFile(value: string)
    ensures var file := [ModelProviderLine(value), OPEN_LINE];
            && SplitLines(Join(file, "\n") + "\n") == [] + [ModelProviderLine(value)] + [OPEN_LINE]
            && OneValue([], ModelProviderLine(value), [OPEN_LINE], value) && RootValue(TOML, file) == Some(value)
            && StateAfter(TOML, Before(TOML, [] + [OPEN_LINE]), None).Some?
  {
    var line := ModelProviderLine(value);
    var none: Lines := [];
    assert none + [line] + [OPEN_LINE] == [line, OPEN_LINE] && none + [OPEN_LINE] == [OPEN_LINE];
    OpenLineIsInner();
    ModelProviderInner(value);
    InnerFile([line, OPEN_LINE]);
    OpenLine();
    RestoredLine(value);
    OpenAlone(TOML, OPEN_LINE);
    OpenRoot(TOML, value, line, OPEN_LINE);
  }

  /** A file whose provider is not read back after attach and detach: the line that detach writes goes after the line
      that opens a string. */
  lemma RestoredIsUnread(value: string, now: string, version: string, port: nat)
    ensures var content := Join([ModelProviderLine(value), OPEN_LINE], "\n") + "\n";
            RootValue(TOML, SplitLines(content)) == Some(value) && ReadAgain(content, now, version, port) == Some(None)
  {
    var content := Join([ModelProviderLine(value), OPEN_LINE], "\n") + "\n";
    OpenFile(value);
    ValueReadsBack(content, [], ModelProviderLine(value), [OPEN_LINE], value, now, version, port);
  }

  // ---------- a root value that comes into view ----------

  const OPENING := "model_provider = " + QUOTES

  lemma OpeningLine()
    ensures IsRootModelProviderLine(OPENING) && !IsTableHeader(OPENING) && Open(OPENING) == Some(Basic)
  {
    assert "model_provider " + "= " == "model_provider = ";
    PlainKey();
    AssignmentOpens("model_provider ");
    AssignmentMatches(Quotable("model_provider"), "model_provider", QUOTES);
    assert "model_provider" + " = " == "model_provider = ";
    NoHeader(OPENING);
  }

  /** The first line goes, its string stays: what closed the string now opens one, which hides the table, and the value
      in the table is a root value. */
  lemma ValueComesIntoView(value: string)
    ensures var kept := [QUOTES, "[a]", QUOTES, ModelProviderLine(value)];
            && Kept(TOML, [OPENING] + kept) == kept
            && !NoRootValue(TOML, kept, None) && !SingleLineRoot(TOML, [OPENING] + kept, None)
  {
    var line := ModelProviderLine(value);
    var v := [line];
    var b := [QUOTES] + v;
    var t := ["[a]"] + b;
    var kept := [QUOTES] + t;
    assert kept == [QUOTES, "[a]", QUOTES, line];
    assert v[1..] == [] && b[1..] == v && t[1..] == b && kept[1..] == t && ([OPENING] + kept)[1..] == kept;
    OpeningLine();
    QuotesAlone();
    TableA();
    RestoredLine(value);
    RootIsNotDotted(value);
    RootOfFile(kept, t);
    FilteredFile(line, v, b, t, kept);
  }

  lemma RootOfFile(kept: Lines, t: Lines)
    requires kept == [QUOTES] + t && t != [] && t[0] == "[a]"
    requires IsRootModelProviderLine(OPENING) && !IsTableHeader(OPENING) && Open(OPENING) == Some(Basic)
    requires Close(QUOTES, Basic) == None && !IsRootModelProviderLine(QUOTES) && IsTableHeader("[a]")
    ensures var file := [OPENING] + kept;
            RemoveRoot(TOML, file, NextTable(TOML, file, None), None) == kept && !SingleLineRoot(TOML, file, None)
  {
    var file := [OPENING] + kept;
    assert file[1..] == kept && kept[1..] == t;
    assert NextTable(TOML, t, None) == 0;
    assert NextTable(TOML, kept, Some(Basic)) == 1;
    assert NextTable(TOML, file, None) == 2;
    assert RemoveRoot(TOML, t, 0, Advance(TOML, QUOTES, None)) == t;
    assert RemoveRoot(TOML, kept, 1, None) == [QUOTES] + t;
  }

  lemma FilteredFile(line: string, v: Lines, b: Lines, t: Lines, kept: Lines)
    requires v == [line] && b == [QUOTES] + v && t == ["[a]"] + b && kept == [QUOTES] + t
    requires Open(QUOTES) == Some(Basic) && Close(QUOTES, Basic) == None && Close("[a]", Basic) == Some(Basic)
    requires !IsTableHeader(QUOTES) && !IsRootModelProviderLine(QUOTES) && !IsProviderDottedAssignment(QUOTES)
    requires IsRootModelProviderLine(line) && !IsTableHeader(line) && !IsProviderDottedAssignment(line)
    ensures AssignmentFilter(TOML, SectionFilter(TOML, kept, false, None), Root, None, false) == kept
    ensures !NoRootValue(TOML, kept, None)
  {
    assert v[1..] == [] && b[1..] == v && t[1..] == b && kept[1..] == t;
    assert SectionFilter(TOML, v, false, None) == v;
    assert SectionFilter(TOML, b, false, Some(Basic)) == b;
    assert SectionFilter(TOML, t, false, Some(Basic)) == t;
    assert SectionFilter(TOML, kept, false, None) == kept;
    assert AssignmentFilter(TOML, v, Root, None, false) == v;
    assert AssignmentFilter(TOML, b, Root, Some(Basic), false) == b;
    assert AssignmentFilter(TOML, t, Root, Some(Basic), false) == t;
    assert !NoRootValue(TOML, v, None);
    assert !NoRootValue(TOML, b, Some(Basic));
    assert !NoRootValue(TOML, t, Some(Basic));
  }

  lemma LinesAreInner(value: string)
    ensures InnerLine(OPENING) && InnerLine(QUOTES) && InnerLine("[a]") && InnerLine(ModelProviderLine(value))
  {
    OpeningIsInner();
    ModelProviderInner(value);
  }

  lemma OpeningIsInner()
    ensures InnerLine(OPENING)
  {
  }

  lemma InnerFile(file: Lines)
    requires file != [] && InnerLines(file)
    ensures Own(file) && SplitLines(Join(file, "\n") + "\n") == file
  {
    forall l | l in file ensures PlainLine(l) {
      var j :| 0 <= j < |file| && file[j] == l;
      assert InnerLine(file[j]);
    }
    forall j | 0 <= j < |file| ensures Trim(file[j]) != ROOT_BEGIN && Trim(file[j]) != PROVIDER_BEGIN {
      assert InnerLine(file[j]);
      InnerLineIsNoMarker(file[j]);
    }
    SplitJoined(file);
  }

  /** An input on which attaching twice differs: a root value that opens a string, and another value behind a table. */
  lemma SecondAttachDiffers(value: string, now: string, version: string, port: nat)
    ensures var file := [OPENING] + [QUOTES, "[a]", QUOTES, ModelProviderLine(value)];
            var att := Attach(TOML, Join(file, "\n") + "\n", now, version, port);
            att.Some? && Attach(TOML, att.value.content, now, version, port) != att
  {
    var kept := [QUOTES, "[a]", QUOTES, ModelProviderLine(value)];
    var file := [OPENING] + kept;
    var content := Join(file, "\n") + "\n";
    LinesAreInner(value);
    InnerFile(file);
    UnmarkedIdentity(file);
    ValueComesIntoView(value);
    TomlBlankIsInert();
    assert Attachable(content) && KeptOf(TOML, content) == kept;
    AttachIdempotent(TOML, content, now, version, port);
  }
}
