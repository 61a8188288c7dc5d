/**
 Include/exclude glob filters, after src/gascity/template_filter.js: patterns are compiled to
 regular-expression text, and the text is what gets matched.
 */
module TemplateFilter {
  import opened Wrappers
  import opened Text

  // ---------- regular expressions: the fragment of ECMAScript syntax that is needed ----------

  datatype Atom = AnyChar | NoneOf(chars: string) | Literal(c: char) {
    /** `.` refuses line terminators; a negated class does not. */
    predicate Admits(x: char) {
      match this
      case AnyChar => !IsLineTerminator(x)
      case NoneOf(chars) => x !in chars
      case Literal(c) => x == c
    }
  }

  datatype Item = One(atom: Atom) | Many(atom: Atom)

  const SYNTAX_CHARS := "^$\\.*+?()[]{}|"

  datatype Lexed = Lexed(atom: Atom, rest: string)

  /** One atom off the front of the text. */
  function ParseAtom(s: string): (r: Option<Lexed>)
    ensures r.Some? ==> |r.value.rest| < |s|
  {
    if s == "" then None
    else if s[0] == '.' then Some(Lexed(AnyChar, s[1..]))
    else if s[0] == '\\' then
      if |s| > 1 && s[1] in SYNTAX_CHARS then Some(Lexed(Literal(s[1]), s[2..])) else None
    else if s[0] == '[' then
      if |s| > 1 && s[1] == '^' && ']' in s then
        var close := IndexOfChar(s, ']');
        if close >= 2 then Some(Lexed(NoneOf(s[2..close]), s[close + 1..])) else None
      else None
    else if s[0] in SYNTAX_CHARS then None
    else Some(Lexed(Literal(s[0]), s[1..]))
  }

  /** Atoms, each perhaps starred, up to the closing `$`. */
  function ParseItems(s: string): Option<seq<Item>>
    decreases |s|
  {
    if s == "$" then Some([])
    else
      var a := ParseAtom(s);
      if a.None? then None
      else if StartsWith(a.value.rest, "*") then
        var tail := ParseItems(a.value.rest[1..]);
        if tail.None? then None else Some([Many(a.value.atom)] + tail.value)
      else
        var tail := ParseItems(a.value.rest);
        if tail.None? then None else Some([One(a.value.atom)] + tail.value)
  }

  function ParseRegex(text: string): Option<seq<Item>> {
    if StartsWith(text, "^") then ParseItems(text[1..]) else None
  }

  /** The items match all of `t`. */
  predicate Accepts(items: seq<Item>, t: string)
    decreases |items| + |t|
  {
    if items == [] then t == ""
    else match items[0]
      case One(a) => t != "" && a.Admits(t[0]) && Accepts(items[1..], t[1..])
      case Many(a) => Accepts(items[1..], t) || (t != "" && a.Admits(t[0]) && Accepts(items, t[1..]))
  }

  /** `new RegExp(text).test(t)` */
  predicate Test(text: string, t: string) {
    ParseRegex(text).Some? && Accepts(ParseRegex(text).value, t)
  }

  // ---------- the compiler ----------

  const REGEX_META := ".+()[]{}|^$\\"

  /** The text appended for the pattern, without the anchors. */
  function Compiled(pattern: string): string
    decreases |pattern|
  {
    if pattern == "" then ""
    else if StartsWith(pattern, "**") then ".*" + Compiled(pattern[2..])
    else if pattern[0] == '*' then "[^/]*" + Compiled(pattern[1..])
    else if pattern[0] == '?' then "[^/]" + Compiled(pattern[1..])
    else if pattern[0] in REGEX_META then ['\\', pattern[0]] + Compiled(pattern[1..])
    else [pattern[0]] + Compiled(pattern[1..])
  }

  method GlobToRegex(pattern: string) returns (re: string)
    ensures re == "^" + Compiled(pattern) + "$"
  {
    re := "^";
    var i := 0;
    assert pattern[0..] == pattern;
    while i < |pattern|
      invariant 0 <= i <= |pattern|
      invariant re + Compiled(pattern[i..]) == "^" + Compiled(pattern)
    {
      var ch := pattern[i];
      ghost var rest := pattern[i..];
      ghost var before := re;
      if ch == '*' {
        if i + 1 < |pattern| && pattern[i + 1] == '*' {
          assert rest[..2] == "**" && rest[2..] == pattern[i + 2..];
          Assoc(re, ".*", Compiled(pattern[i + 2..]));
          re := re + ".*";
          i := i + 2;
        } else {
          assert |rest| > 1 ==> rest[1] != "**"[1];
          assert rest[1..] == pattern[i + 1..];
          Assoc(re, "[^/]*", Compiled(pattern[i + 1..]));
          re := re + "[^/]*";
          i := i + 1;
        }
      } else if ch == '?' {
        assert rest[1..] == pattern[i + 1..];
        Assoc(re, "[^/]", Compiled(pattern[i + 1..]));
        re := re + "[^/]";
        i := i + 1;
      } else if ch in REGEX_META {
        assert rest[1..] == pattern[i + 1..];
        Assoc(re, ['\\', ch], Compiled(pattern[i + 1..]));
        re := re + ['\\', ch];
        i := i + 1;
      } else {
        assert rest[1..] == pattern[i + 1..];
        Assoc(re, [ch], Compiled(pattern[i + 1..]));
        re := re + [ch];
        i := i + 1;
      }
    }
    assert re + Compiled("") == re;
    re := re + "$";
  }

  // ---------- what the patterns mean ----------

  /** The documented grammar, independent of regular expressions. */
  ghost predicate GlobMatches(pattern: string, t: string)
    decreases |pattern|
  {
    if pattern == "" then t == ""
    else if StartsWith(pattern, "**") then exists k :: 0 <= k <= |t| && GlobMatches(pattern[2..], t[k..])
    else if pattern[0] == '*' then exists k :: 0 <= k <= |t| && '/' !in t[..k] && GlobMatches(pattern[1..], t[k..])
    else t != "" && (if pattern[0] == '?' then t[0] != '/' else t[0] == pattern[0]) && GlobMatches(pattern[1..], t[1..])
  }

  /** What the compiled form makes of it: `**` stays within a line. */
  ghost predicate LineMatches(pattern: string, t: string)
    decreases |pattern|
  {
    if pattern == "" then t == ""
    else if StartsWith(pattern, "**")
      then exists k :: 0 <= k <= |t| && OneLine(t[..k]) && LineMatches(pattern[2..], t[k..])
    else if pattern[0] == '*' then exists k :: 0 <= k <= |t| && '/' !in t[..k] && LineMatches(pattern[1..], t[k..])
    else t != "" && (if pattern[0] == '?' then t[0] != '/' else t[0] == pattern[0]) && LineMatches(pattern[1..], t[1..])
  }

  /** The items a pattern compiles to. */
  function Items(pattern: string): seq<Item>
    decreases |pattern|
  {
    if pattern == "" then []
    else if StartsWith(pattern, "**") then [Many(AnyChar)] + Items(pattern[2..])
    else if pattern[0] == '*' then [Many(NoneOf("/"))] + Items(pattern[1..])
    else if pattern[0] == '?' then [One(NoneOf("/"))] + Items(pattern[1..])
    else [One(Literal(pattern[0]))] + Items(pattern[1..])
  }

  /** Compiled text never begins with a star, so it cannot alter the atom before it. */
  lemma CompiledNotStar(pattern: string)
    ensures Compiled(pattern) + "$" != "" && (Compiled(pattern) + "$")[0] != '*'
  {
  }

  lemma ParseNoneOfSlash(tail: string)
    ensures ParseAtom("[^/]" + tail) == Some(Lexed(NoneOf("/"), tail))
  {
    var s := "[^/]" + tail;
    IndexOfCharUnique("[^/", ']', tail);
    assert s == "[^/" + [']'] + tail;
    assert s[2..3] == "/" && s[4..] == tail;
  }

  lemma ParsePlainItem(s: string, atom: Atom, tail: string)
    requires s != "$" && tail != "" && tail[0] != '*' && ParseAtom(s) == Some(Lexed(atom, tail))
    requires ParseItems(tail).Some?
    ensures ParseItems(s) == Some([One(atom)] + ParseItems(tail).value)
  {
  }

  lemma ParseStarredItem(s: string, atom: Atom, tail: string)
    requires s != "$" && ParseAtom(s) == Some(Lexed(atom, "*" + tail))
    requires ParseItems(tail).Some?
    ensures ParseItems(s) == Some([Many(atom)] + ParseItems(tail).value)
  {
    assert ("*" + tail)[1..] == tail;
  }

  /** The emitted text reads back as the intended items. */
  lemma {:induction false} ParseCompiled(pattern: string)
    ensures ParseItems(Compiled(pattern) + "$") == Some(Items(pattern))
    decreases |pattern|
  {
    if pattern != "" {
      var n := if StartsWith(pattern, "**") then 2 else 1;
      ParseCompiled(pattern[n..]);
      CompiledNotStar(pattern[n..]);
      ParseCompiledItem(pattern, Compiled(pattern[n..]) + "$");
    }
  }

  lemma ParseAnyStar(s: string, tail: string)
    requires s == ".*" + tail && ParseItems(tail).Some?
    ensures ParseItems(s) == Some([Many(AnyChar)] + ParseItems(tail).value)
  {
    assert s[1..] == "*" + tail;
    ParseStarredItem(s, AnyChar, tail);
  }

  lemma ParseSegmentStar(s: string, tail: string)
    requires s == "[^/]*" + tail && ParseItems(tail).Some?
    ensures ParseItems(s) == Some([Many(NoneOf("/"))] + ParseItems(tail).value)
  {
    Assoc("[^/]", "*", tail);
    assert "[^/]" + "*" == "[^/]*";
    ParseNoneOfSlash("*" + tail);
    ParseStarredItem(s, NoneOf("/"), tail);
  }

  lemma ParseCompiledItem(pattern: string, tail: string)
    requires pattern != ""
    requires tail == Compiled(pattern[if StartsWith(pattern, "**") then 2 else 1..]) + "$"
    requires ParseItems(tail).Some? && tail != "" && tail[0] != '*'
    ensures var n := if StartsWith(pattern, "**") then 2 else 1;
            ParseItems(Compiled(pattern) + "$") == Some(Items(pattern)[..1] + ParseItems(tail).value)
  {
    var s := Compiled(pattern) + "$";
    if StartsWith(pattern, "**") {
      Assoc(".*", Compiled(pattern[2..]), "$");
      ParseAnyStar(s, tail);
    } else if pattern[0] == '*' {
      Assoc("[^/]*", Compiled(pattern[1..]), "$");
      ParseSegmentStar(s, tail);
    } else if pattern[0] == '?' {
      Assoc("[^/]", Compiled(pattern[1..]), "$");
      ParseNoneOfSlash(tail);
      ParsePlainItem(s, NoneOf("/"), tail);
    } else if pattern[0] in REGEX_META {
      Assoc(['\\', pattern[0]], Compiled(pattern[1..]), "$");
      assert s[2..] == tail;
      ParsePlainItem(s, Literal(pattern[0]), tail);
    } else {
      Assoc([pattern[0]], Compiled(pattern[1..]), "$");
      assert s[1..] == tail;
      ParsePlainItem(s, Literal(pattern[0]), tail);
    }
  }

  predicate Admitted(a: Atom, s: string) {
    forall i :: 0 <= i < |s| ==> a.Admits(s[i])
  }

  lemma AdmittedIs(s: string)
    ensures Admitted(AnyChar, s) <==> OneLine(s)
    ensures Admitted(NoneOf("/"), s) <==> '/' !in s
  {
  }

  lemma {:induction false} ManyAccepts(a: Atom, rest: seq<Item>, t: string)
    ensures Accepts([Many(a)] + rest, t) <==>
            exists k :: 0 <= k <= |t| && Admitted(a, t[..k]) && Accepts(rest, t[k..])
    decreases |t|
  {
    var items := [Many(a)] + rest;
    assert items[1..] == rest && t[0..] == t;
    if t != "" && a.Admits(t[0]) {
      ManyAccepts(a, rest, t[1..]);
      if k :| 0 <= k <= |t[1..]| && Admitted(a, t[1..][..k]) && Accepts(rest, t[1..][k..]) {
        assert t[1..][k..] == t[k + 1..] && t[..k + 1] == [t[0]] + t[1..][..k];
        assert Admitted(a, t[..k + 1]);
      }
      if k :| 0 < k <= |t| && Admitted(a, t[..k]) && Accepts(rest, t[k..]) {
        assert t[1..][k - 1..] == t[k..] && t[1..][..k - 1] == t[..k][1..];
        assert Admitted(a, t[1..][..k - 1]);
      }
    }
  }

  lemma {:induction false} ItemsMeaning(pattern: string, t: string)
    ensures Accepts(Items(pattern), t) <==> LineMatches(pattern, t)
    decreases |pattern|
  {
    if pattern == "" {
    } else if StartsWith(pattern, "**") {
      ManyAccepts(AnyChar, Items(pattern[2..]), t);
      forall k | 0 <= k <= |t| ensures Accepts(Items(pattern[2..]), t[k..]) <==> LineMatches(pattern[2..], t[k..]) {
        ItemsMeaning(pattern[2..], t[k..]);
      }
      forall k | 0 <= k <= |t| ensures OneLine(t[..k]) <==> Admitted(AnyChar, t[..k]) { AdmittedIs(t[..k]); }
    } else if pattern[0] == '*' {
      ManyAccepts(NoneOf("/"), Items(pattern[1..]), t);
      forall k | 0 <= k <= |t| ensures Accepts(Items(pattern[1..]), t[k..]) <==> LineMatches(pattern[1..], t[k..]) {
        ItemsMeaning(pattern[1..], t[k..]);
      }
      forall k | 0 <= k <= |t| ensures '/' !in t[..k] <==> Admitted(NoneOf("/"), t[..k]) { AdmittedIs(t[..k]); }
    } else if t != "" {
      ItemsMeaning(pattern[1..], t[1..]);
    }
  }

  /** The two readings differ only in what `**` may cross. */
  lemma {:induction false} LineMatchesIsGlob(pattern: string, t: string)
    ensures LineMatches(pattern, t) ==> GlobMatches(pattern, t)
    ensures OneLine(t) || !HasDoubleStar(pattern) ==> (LineMatches(pattern, t) <==> GlobMatches(pattern, t))
    decreases |pattern|
  {
    if pattern == "" {
    } else if StartsWith(pattern, "**") {
      assert OccursAt(pattern, "**", 0);
      forall k | 0 <= k <= |t| ensures LineMatches(pattern[2..], t[k..]) ==> GlobMatches(pattern[2..], t[k..]) {
        LineMatchesIsGlob(pattern[2..], t[k..]);
      }
      if OneLine(t) {
        forall k | 0 <= k <= |t| ensures OneLine(t[..k]) &&
          (LineMatches(pattern[2..], t[k..]) <==> GlobMatches(pattern[2..], t[k..])) {
          LineMatchesIsGlob(pattern[2..], t[k..]);
        }
      }
    } else {
      DoubleStarTail(pattern);
      forall k | 0 <= k <= |t|
        ensures LineMatches(pattern[1..], t[k..]) ==> GlobMatches(pattern[1..], t[k..])
        ensures OneLine(t) || !HasDoubleStar(pattern) ==>
          (LineMatches(pattern[1..], t[k..]) <==> GlobMatches(pattern[1..], t[k..]))
      {
        LineMatchesIsGlob(pattern[1..], t[k..]);
      }
    }
  }

  predicate HasDoubleStar(pattern: string) {
    exists i :: 0 <= i < |pattern| && OccursAt(pattern, "**", i)
  }

  lemma DoubleStarTail(pattern: string)
    requires pattern != "" && !StartsWith(pattern, "**")
    ensures HasDoubleStar(pattern) <==> HasDoubleStar(pattern[1..])
  {
    if i :| 0 <= i < |pattern| && OccursAt(pattern, "**", i) {
      assert i > 0 && pattern[1..][i - 1..i + 1] == pattern[i..i + 2];
      assert OccursAt(pattern[1..], "**", i - 1);
    }
    if i :| 0 <= i < |pattern[1..]| && OccursAt(pattern[1..], "**", i) {
      assert pattern[i + 1..i + 3] == pattern[1..][i..i + 2];
      assert OccursAt(pattern, "**", i + 1);
    }
  }

  /** The regular expression emitted for a pattern. */
  function RegexOf(pattern: string): string {
    "^" + Compiled(pattern) + "$"
  }

  /** On every template, matching the emitted regular expression is matching the pattern line-wise. */
  lemma CompilationMeaning(pattern: string, t: string)
    ensures Test(RegexOf(pattern), t) <==> LineMatches(pattern, t)
  {
    ParseCompiled(pattern);
    assert RegexOf(pattern)[1..] == Compiled(pattern) + "$";
    ItemsMeaning(pattern, t);
  }

  /** On one-line text, matching the emitted regular expression is matching the pattern. */
  lemma CompilationPreservesMeaning(pattern: string, t: string)
    requires OneLine(t)
    ensures Test(RegexOf(pattern), t) <==> GlobMatches(pattern, t)
  {
    CompilationMeaning(pattern, t);
    LineMatchesIsGlob(pattern, t);
  }

  lemma CaptureAll(t: string)
    ensures GlobMatches("**", t) && AnyGlob(CAPTURE_ALL, t)
    ensures LineMatches("**", t) <==> OneLine(t)
  {
    assert "**"[2..] == "" && GlobMatches("", t[|t|..]);
    assert CAPTURE_ALL[0] == "**";
    assert t[..|t|] == t && (OneLine(t) ==> LineMatches("", t[|t|..]));
    if k :| 0 <= k <= |t| && OneLine(t[..k]) && LineMatches("", t[k..]) { assert k == |t|; }
  }

  /** `**` compiles to `.*`, which stops at a line terminator: exactly the one-line templates are judged rightly by all
      patterns. */
  lemma MeaningPreservedIff(t: string)
    ensures (forall pattern :: Test(RegexOf(pattern), t) <==> GlobMatches(pattern, t)) <==> OneLine(t)
  {
    if OneLine(t) {
      forall pattern ensures Test(RegexOf(pattern), t) <==> GlobMatches(pattern, t) {
        CompilationPreservesMeaning(pattern, t);
      }
    } else {
      CompilationMeaning("**", t);
      CaptureAll(t);
    }
  }

  // ---------- patterns judged rightly on all templates ----------

  /** Line breaks that follow a slash. */
  function Marks(t: string): nat {
    if |t| < 2 then 0 else (if t[0] == '/' && t[1] == '\n' then 1 else 0) + Marks(t[1..])
  }

  lemma {:induction false} MarksAppend(a: string, b: string)
    ensures Marks(a) + Marks(b) <= Marks(a + b) <= Marks(a) + Marks(b) + 1
    ensures a != "" && a[|a| - 1] != '/' ==> Marks(a + b) == Marks(a) + Marks(b)
    decreases |a|
  {
    if a == "" {
      assert a + b == b;
    } else {
      assert (a + b)[1..] == a[1..] + b;
      MarksAppend(a[1..], b);
      if |a| == 1 { assert a[1..] + b == b; }
    }
  }

  lemma {:induction false} NoMarks(a: string)
    requires '/' !in a || '\n' !in a
    ensures Marks(a) == 0
  {
    if |a| >= 2 {
      assert a[0] in a && a[1] in a;
      NoMarks(a[1..]);
    }
  }

  /** Each part of a pattern takes in at most one mark. */
  lemma {:induction false} MarksBounded(pattern: string, t: string)
    requires LineMatches(pattern, t)
    ensures Marks(t) <= |pattern|
    decreases |pattern|
  {
    if pattern == "" {
    } else if StartsWith(pattern, "**") {
      var k :| 0 <= k <= |t| && OneLine(t[..k]) && LineMatches(pattern[2..], t[k..]);
      MarksBounded(pattern[2..], t[k..]);
      OneMark(t, k);
    } else if pattern[0] == '*' {
      var k :| 0 <= k <= |t| && '/' !in t[..k] && LineMatches(pattern[1..], t[k..]);
      MarksBounded(pattern[1..], t[k..]);
      OneMark(t, k);
    } else {
      MarksBounded(pattern[1..], t[1..]);
      OneMark(t, 1);
    }
  }

  lemma OneMark(t: string, k: nat)
    requires k <= |t| && ('/' !in t[..k] || OneLine(t[..k]) || k <= 1)
    ensures Marks(t) <= Marks(t[k..]) + 1
  {
    assert t == t[..k] + t[k..];
    MarksAppend(t[..k], t[k..]);
    if k > 1 { NoMarks(t[..k]); }
  }

  function Breaks(n: nat): string {
    if n == 0 then "" else "/\n" + Breaks(n - 1)
  }

  lemma {:induction false} BreaksMarks(n: nat)
    ensures Marks(Breaks(n)) == n
  {
    if n > 0 {
      var s := "/\n" + Breaks(n - 1);
      BreaksMarks(n - 1);
      assert s[1..] == "\n" + Breaks(n - 1);
      MarksAppend("\n", Breaks(n - 1));
    }
  }

  /** A template the pattern stands for, with `n` broken lines for every `**`. */
  function Instance(pattern: string, n: nat): string
    decreases |pattern|
  {
    if pattern == "" then ""
    else if StartsWith(pattern, "**") then Breaks(n) + Instance(pattern[2..], n)
    else if pattern[0] == '*' then Instance(pattern[1..], n)
    else (if pattern[0] == '?' then "a" else [pattern[0]]) + Instance(pattern[1..], n)
  }

  lemma {:induction false} InstanceMatches(pattern: string, n: nat)
    ensures GlobMatches(pattern, Instance(pattern, n))
    ensures HasDoubleStar(pattern) ==> Marks(Instance(pattern, n)) >= n
    decreases |pattern|
  {
    if pattern == "" {
    } else if StartsWith(pattern, "**") {
      var tail := Instance(pattern[2..], n);
      InstanceMatches(pattern[2..], n);
      assert (Breaks(n) + tail)[|Breaks(n)|..] == tail;
      BreaksMarks(n);
      MarksAppend(Breaks(n), tail);
    } else {
      var tail := Instance(pattern[1..], n);
      InstanceMatches(pattern[1..], n);
      DoubleStarTail(pattern);
      if pattern[0] == '*' {
        assert tail[0..] == tail && '/' !in tail[..0];
      } else {
        var c := if pattern[0] == '?' then "a" else [pattern[0]];
        assert (c + tail)[1..] == tail;
        MarksAppend(c, tail);
      }
    }
  }

  /** A pattern is judged rightly on all templates exactly when it holds no `**`. */
  lemma PatternPreservedIff(pattern: string)
    ensures (forall t :: Test(RegexOf(pattern), t) <==> GlobMatches(pattern, t)) <==> !HasDoubleStar(pattern)
  {
    if HasDoubleStar(pattern) {
      var t := Instance(pattern, |pattern| + 1);
      InstanceMatches(pattern, |pattern| + 1);
      CompilationMeaning(pattern, t);
      if LineMatches(pattern, t) { MarksBounded(pattern, t); }
      assert !(Test(RegexOf(pattern), t) <==> GlobMatches(pattern, t));
    } else {
      forall t ensures Test(RegexOf(pattern), t) <==> GlobMatches(pattern, t) {
        CompilationMeaning(pattern, t);
        LineMatchesIsGlob(pattern, t);
      }
    }
  }

  // ---------- filters ----------

  /** A compiled filter: the regular expressions of both lists. */
  datatype Filter = Filter(inc: seq<string>, exc: seq<string>)

  const CAPTURE_ALL: seq<string> := ["**"]

  function IncludeList(inc: Option<seq<string>>): seq<string> {
    if inc.None? || inc.value == [] then CAPTURE_ALL else inc.value
  }

  method CompileFilter(inc: Option<seq<string>>, exc: Option<seq<string>>) returns (f: Filter)
    ensures |f.inc| == |IncludeList(inc)| && forall i :: 0 <= i < |f.inc| ==> f.inc[i] == RegexOf(IncludeList(inc)[i])
    ensures exc.None? ==> f.exc == []
    ensures exc.Some? ==> |f.exc| == |exc.value| && forall i :: 0 <= i < |f.exc| ==> f.exc[i] == RegexOf(exc.value[i])
  {
    var incRegexes := CompileAll(IncludeList(inc));
    var excRegexes := CompileAll(if exc.None? then [] else exc.value);
    f := Filter(incRegexes, excRegexes);
  }

  method CompileAll(patterns: seq<string>) returns (regexes: seq<string>)
    ensures |regexes| == |patterns| && forall i :: 0 <= i < |patterns| ==> regexes[i] == RegexOf(patterns[i])
  {
    regexes := [];
    for n := 0 to |patterns|
      invariant |regexes| == n && forall i :: 0 <= i < n ==> regexes[i] == RegexOf(patterns[i])
    {
      var re := GlobToRegex(patterns[n]);
      regexes := regexes + [re];
    }
  }

  predicate AnyTest(regexes: seq<string>, t: string) {
    exists i :: 0 <= i < |regexes| && Test(regexes[i], t)
  }

  ghost predicate AnyLine(patterns: seq<string>, t: string) {
    exists i :: 0 <= i < |patterns| && LineMatches(patterns[i], t)
  }

  ghost predicate AnyGlob(patterns: seq<string>, t: string) {
    exists i :: 0 <= i < |patterns| && GlobMatches(patterns[i], t)
  }

  /** The predicate a filter stands for; an absent template is the empty one. */
  method Matches(f: Filter, template: Option<string>) returns (captured: bool)
    ensures var t := if template.None? then "" else template.value;
            captured <==> AnyTest(f.inc, t) && !AnyTest(f.exc, t)
  {
    var t := if template.None? then "" else template.value;
    for n := 0 to |f.exc|
      invariant forall i :: 0 <= i < n ==> !Test(f.exc[i], t)
    {
      if Test(f.exc[n], t) { return false; }
    }
    for n := 0 to |f.inc|
      invariant forall i :: 0 <= i < n ==> !Test(f.inc[i], t)
    {
      if Test(f.inc[n], t) { return true; }
    }
    return false;
  }

  lemma AnyMeaning(patterns: seq<string>, regexes: seq<string>, t: string)
    requires |regexes| == |patterns| && forall i :: 0 <= i < |patterns| ==> regexes[i] == RegexOf(patterns[i])
    ensures AnyTest(regexes, t) <==> AnyLine(patterns, t)
    ensures OneLine(t) ==> (AnyLine(patterns, t) <==> AnyGlob(patterns, t))
  {
    forall i | 0 <= i < |patterns|
      ensures Test(regexes[i], t) <==> LineMatches(patterns[i], t)
      ensures OneLine(t) ==> (LineMatches(patterns[i], t) <==> GlobMatches(patterns[i], t))
    {
      CompilationMeaning(patterns[i], t);
      LineMatchesIsGlob(patterns[i], t);
    }
  }

  /** Compiling and asking: some include pattern matches and no exclude pattern does, with `**` within a line; on
      one-line templates that is the documented meaning. Without lists exactly the one-line templates are captured. */
  method CompileAndMatch(inc: Option<seq<string>>, exc: Option<seq<string>>, template: Option<string>)
    returns (captured: bool)
    ensures var t := if template.None? then "" else template.value;
            && (captured <==> AnyLine(IncludeList(inc), t) && (exc.Some? ==> !AnyLine(exc.value, t)))
            && (OneLine(t) ==> (captured <==> AnyGlob(IncludeList(inc), t) && (exc.Some? ==> !AnyGlob(exc.value, t))))
            && ((inc.None? || inc.value == []) && exc.None? ==> (captured <==> OneLine(t)))
  {
    var f := CompileFilter(inc, exc);
    captured := Matches(f, template);
    ghost var t := if template.None? then "" else template.value;
    AnyMeaning(IncludeList(inc), f.inc, t);
    if exc.Some? { AnyMeaning(exc.value, f.exc, t); }
    CaptureAll(t);
    assert CAPTURE_ALL == ["**"] && (LineMatches(CAPTURE_ALL[0], t) <==> AnyLine(CAPTURE_ALL, t));
  }
}
