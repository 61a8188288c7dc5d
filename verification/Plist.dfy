/**
 Writing the LaunchAgent property list, after src/daemon/macos.js, and reading it back, after src/cli/common.js.
 */
module Plist {
  import opened Wrappers
  import opened Text
  import opened TomlText

  // ---------- escaping ----------

  /** `s.replace(/pat/g, sub)` for a literal pattern. */
  function ReplaceAll(s: string, pat: string, sub: string): string
    requires pat != ""
    decreases |s|
  {
    if s == "" then ""
    else if StartsWith(s, pat) then sub + ReplaceAll(s[|pat|..], pat, sub)
    else [s[0]] + ReplaceAll(s[1..], pat, sub)
  }

  /** Three passes, the ampersand first. */
  function EscapeXml(value: string): string {
    ReplaceAll(ReplaceAll(ReplaceAll(value, "&", "&amp;"), "<", "&lt;"), ">", "&gt;")
  }

  /** Three passes, the ampersand last. */
  function UnescapeXml(value: string): string {
    ReplaceAll(ReplaceAll(ReplaceAll(value, "&lt;", "<"), "&gt;", ">"), "&amp;", "&")
  }

  // ---------- the document ----------

  datatype Options = Options(
    agentLabel: string, nodePath: string, binPath: string, configPath: string, logDir: string,
    env: Option<seq<(string, string)>>, keepAlive: bool, runAtLoad: bool)

  /** The lines of the document; names and values stand as they are printed. */
  datatype Line = TagLine(indent: string, tag: string) | KeyLine(indent: string,
      name: string) | StringLine(indent: string, value: string)

  function Print(line: Line): string {
    match line
    case TagLine(indent, tag) => indent + "<" + tag + ">"
    case KeyLine(indent, name) => indent + "<key>" + name + "</key>"
    case StringLine(indent, value) => indent + "<string>" + value + "</string>"
  }

  function PrintAll(lines: seq<Line>): seq<string> {
    seq(|lines|, k requires 0 <= k < |lines| => Print(lines[k]))
  }

  const XML_TAG := "?xml version=\"1.0\" encoding=\"UTF-8\"?"
  const PUBLIC_ID := "\"-//Apple//DTD PLIST 1.0//EN\" "
  const SITE := "\"http://www.apple.com"
  const DTD := "/DTDs/PropertyList-1.0.dtd\""
  const SYSTEM_ID := SITE + DTD
  const DOCTYPE_TAG := "!DOCTYPE plist PUBLIC " + PUBLIC_ID + SYSTEM_ID

  function Flag(b: bool): string {
    if b then "true/" else "false/"
  }

  function Heading(): seq<Line> {
    [TagLine("", XML_TAG), TagLine("", DOCTYPE_TAG), TagLine("", "plist version=\"1.0\""), TagLine("", "dict")]
  }

  /** The part of the document before the program arguments. */
  function Preamble(o: Options): seq<Line> {
    Heading() + [KeyLine("  ", "Label"), StringLine("  ", EscapeXml(o.agentLabel))]
  }

  function Arguments(o: Options): seq<Line> {
    [KeyLine("  ", "ProgramArguments"), TagLine("  ", "array"), StringLine("    ", EscapeXml(o.nodePath)),
      StringLine("    ", EscapeXml(o.binPath)),
     StringLine("    ", "--config"), StringLine("    ", EscapeXml(o.configPath)), TagLine("  ", "/array")]
  }

  function Flags(o: Options): seq<Line> {
    [KeyLine("  ", "RunAtLoad"), TagLine("  ", Flag(o.runAtLoad)), KeyLine("  ", "KeepAlive"),
      TagLine("  ", Flag(o.keepAlive))]
  }

  function Paths(stdoutPath: string, stderrPath: string): seq<Line> {
    [KeyLine("  ", "StandardOutPath"), StringLine("  ", EscapeXml(stdoutPath)), KeyLine("  ", "StandardErrorPath"),
      StringLine("  ", EscapeXml(stderrPath))]
  }

  function Entries(env: seq<(string, string)>): seq<Line> {
    if env == [] then []
    else Entries(env[..|env| - 1]) +
         [KeyLine("    ", EscapeXml(env[|env| - 1].0)), StringLine("    ", EscapeXml(env[|env| - 1].1))]
  }

  function Environment(env: Option<seq<(string, string)>>): seq<Line> {
    if env.None? then []
    else
      [KeyLine("  ", "EnvironmentVariables")] +
      if env.value == [] then [TagLine("  ", "dict/")]
        else [TagLine("  ", "dict")] + Entries(env.value) + [TagLine("  ", "/dict")]
  }

  function Document(o: Options, stdoutPath: string, stderrPath: string): seq<Line> {
    Preamble(o) + (Arguments(o) + (Flags(o) + (Paths(stdoutPath, stderrPath) +
      (Environment(o.env) + [TagLine("", "/dict"), TagLine("", "/plist")]))))
  }

  /** `path.join` is a parameter. */
  type JoinPath = (string, string) -> string

  predicate Complete(o: Options) {
    o.agentLabel != "" && o.nodePath != "" && o.binPath != "" && o.configPath != "" && o.logDir != ""
  }

  function BuildPlist(join: JoinPath, o: Options): Option<string> {
    if !Complete(o) then None
    else Some(Join(PrintAll(Document(o, join(o.logDir, "collectivus.log"),
      join(o.logDir, "collectivus.err.log"))) + [""], "\n"))
  }

  // ---------- reading ----------

  /** The rest of the text after a literal at its front. */
  function Eat(s: string, literal: string): Option<string> {
    if StartsWith(s, literal) then Some(s[|literal|..]) else None
  }

  /** `[^<]*` */
  function UntilTag(s: string): (v: string)
    ensures v <= s
  {
    if s == "" || s[0] == '<' then "" else [s[0]] + UntilTag(s[1..])
  }

  datatype Hit = Hit(value: string, rest: string)

  /** `<string>([^<]*)</string>` at the front. */
  function StringHere(s: string): (h: Option<Hit>)
    ensures h.Some? ==> |h.value.rest| < |s|
  {
    var t := Eat(s, "<string>");
    if t.None? then None
    else
      var v := UntilTag(t.value);
      var rest := Eat(t.value[|v|..], "</string>");
      if rest.None? then None else Some(Hit(v, rest.value))
  }

  /** `<key>KEY</key>\s*` at the front. */
  function KeyHere(s: string, key: string): Option<string> {
    var t := Eat(s, "<key>");
    if t.None? then None
    else
      var u := Eat(t.value, key);
      if u.None? then None
      else
        var v := Eat(u.value, "</key>");
        if v.None? then None else Some(TrimStart(v.value))
  }

  /** Everything before the first occurrence of a literal. */
  function Before(s: string, literal: string): Option<string> {
    if StartsWith(s, literal) then Some("")
    else if s == "" then None
    else
      var more := Before(s[1..], literal);
      if more.None? then None else Some([s[0]] + more.value)
  }

  /** A key and what follows it. */
  datatype Shape = StringOf(key: string) | ArrayOf(key: string)

  function MatchHere(shape: Shape, s: string): Option<string> {
    var t := KeyHere(s, shape.key);
    if t.None? then None
    else if shape.StringOf? then
      var h := StringHere(t.value);
      if h.None? then None else Some(h.value.value)
    else
      var u := Eat(t.value, "<array>");
      if u.None? then None else Before(u.value, "</array>")
  }

  /** The leftmost match. */
  function First(shape: Shape, s: string): Option<string> {
    if MatchHere(shape, s).Some? then MatchHere(shape, s)
    else if s == "" then None
    else First(shape, s[1..])
  }

  /** `matchAll` */
  function AllStrings(s: string): seq<string>
    decreases |s|
  {
    if s == "" then []
    else
      var h := StringHere(s);
      if h.Some? then [h.value.value] + AllStrings(h.value.rest) else AllStrings(s[1..])
  }

  function UnescapeAll(items: seq<string>): seq<string> {
    seq(|items|, k requires 0 <= k < |items| => UnescapeXml(items[k]))
  }

  /** The item after the first `--config`. */
  function AfterConfig(items: seq<string>): Option<string> {
    if items == [] then None
    else if items[0] == "--config" then if |items| > 1 then Some(items[1]) else None
    else AfterConfig(items[1..])
  }

  datatype Fields = Fields(configPath: Option<string>, stdoutPath: Option<string>, stderrPath: Option<string>)

  function UnescapeOption(s: Option<string>): Option<string> {
    if s.None? then None else Some(UnescapeXml(s.value))
  }

  function ParsePlistFields(xml: string): Fields {
    var inside := First(ArrayOf("ProgramArguments"), xml);
    Fields(if inside.None? then None else AfterConfig(UnescapeAll(AllStrings(inside.value))),
           UnescapeOption(First(StringOf("StandardOutPath"), xml)),
           UnescapeOption(First(StringOf("StandardErrorPath"), xml)))
  }

  // ---------- the imperative forms ----------

  method EnvironmentLines(env: seq<(string, string)>) returns (lines: seq<string>)
    ensures lines == PrintAll(Environment(Some(env)))
  {
    var head := KeyLine("  ", "EnvironmentVariables");
    if env == [] {
      lines := [Print(head), Print(TagLine("  ", "dict/"))];
      return;
    }
    lines := [Print(head), Print(TagLine("  ", "dict"))];
    ghost var doc := [head, TagLine("  ", "dict")];
    for k := 0 to |env|
      invariant doc == [head, TagLine("  ", "dict")] + Entries(env[..k])
      invariant lines == PrintAll(doc)
    {
      var name, value := KeyLine("    ", EscapeXml(env[k].0)), StringLine("    ", EscapeXml(env[k].1));
      assert env[..k + 1][..k] == env[..k];
      Assoc([head, TagLine("  ", "dict")], Entries(env[..k]), [name, value]);
      PrintAppend(doc, [name, value]);
      lines := lines + [Print(name), Print(value)];
      doc := doc + [name, value];
    }
    assert env[..|env|] == env;
    PrintAppend(doc, [TagLine("  ", "/dict")]);
    lines := lines + [Print(TagLine("  ", "/dict"))];
    EnvironmentIs(env);
  }

  lemma EnvironmentIs(env: seq<(string, string)>)
    requires env != []
    ensures Environment(Some(env)) ==
      [KeyLine("  ", "EnvironmentVariables"), TagLine("  ", "dict")] + Entries(env) + [TagLine("  ", "/dict")]
  {
    Assoc([KeyLine("  ", "EnvironmentVariables")], [TagLine("  ", "dict")] + Entries(env), [TagLine("  ", "/dict")]);
    Assoc([KeyLine("  ", "EnvironmentVariables")], [TagLine("  ", "dict")], Entries(env));
  }

  function Fixed(o: Options, stdoutPath: string, stderrPath: string): seq<Line> {
    Preamble(o) + (Arguments(o) + (Flags(o) + Paths(stdoutPath, stderrPath)))
  }

  method BuildPlistLines(join: JoinPath, o: Options) returns (text: Option<string>)
    ensures text == BuildPlist(join, o)
  {
    if !Complete(o) { return None; }
    var stdoutPath, stderrPath := join(o.logDir, "collectivus.log"), join(o.logDir, "collectivus.err.log");
    var lines := PrintAll(Fixed(o, stdoutPath, stderrPath));
    if o.env.Some? {
      var env := EnvironmentLines(o.env.value);
      lines := lines + env;
    }
    DocumentPrinted(o, stdoutPath, stderrPath, lines);
    lines := lines + [Print(TagLine("", "/dict")), Print(TagLine("", "/plist"))] + [""];
    text := Some(Join(lines, "\n"));
  }

  lemma PrintAppend(a: seq<Line>, b: seq<Line>)
    ensures PrintAll(a + b) == PrintAll(a) + PrintAll(b)
  {
  }

  lemma DocumentPrinted(o: Options, stdoutPath: string, stderrPath: string, lines: seq<string>)
    requires lines == PrintAll(Fixed(o, stdoutPath, stderrPath)) + if o.env.Some?
      then PrintAll(Environment(o.env)) else []
    ensures PrintAll(Document(o, stdoutPath, stderrPath)) ==
      lines + [Print(TagLine("", "/dict")), Print(TagLine("", "/plist"))]
  {
    var a, b, c, d, e, f := Preamble(o), Arguments(o), Flags(o), Paths(stdoutPath, stderrPath), Environment(o.env),
      [TagLine("", "/dict"), TagLine("", "/plist")];
    Regroup(a, b, c, d, e, f);
    PrintAppend((a + (b + (c + d))) + e, f);
    PrintAppend(a + (b + (c + d)), e);
  }

  lemma Regroup(a: seq<Line>, b: seq<Line>, c: seq<Line>, d: seq<Line>, e: seq<Line>, f: seq<Line>)
    ensures a + (b + (c + (d + (e + f)))) == (a + (b + (c + d))) + e + f
  {
    Assoc(c, d, e + f);
    Assoc(b, c + d, e + f);
    Assoc(a, b + (c + d), e + f);
    Assoc(a + (b + (c + d)), e, f);
  }
}
