/**
 Characters, strings and single lines as src/codex/toml-config.js reads them: whitespace trimming,
 JSON and TOML string values, the regular expressions that classify lines, and multi-line strings.
 */
module TomlText {
  import opened Wrappers
  import opened Text

  // ---------- whitespace ----------

  /** What `\s` matches and `trim` removes. */
  predicate IsSpace(c: char) {
    || IsLineTerminator(c) || c == '\t' || c == '\U{B}' || c == '\U{C}' || c == ' ' || c == '\U{A0}'
    || c == '\U{1680}' || '\U{2000}' <= c <= '\U{200A}' || c == '\U{202F}' || c == '\U{205F}' || c == '\U{3000}'
    || c == '\U{FEFF}'
  }

  function TrimStart(s: string): string {
    if s != "" && IsSpace(s[0]) then TrimStart(s[1..]) else s
  }

  function TrimEnd(s: string): string {
    if s != "" && IsSpace(s[|s| - 1]) then TrimEnd(s[..|s| - 1]) else s
  }

  function Trim(s: string): string {
    TrimEnd(TrimStart(s))
  }

  // ---------- string values ----------

  function HexDigit(n: nat): char
    requires n < 16
  {
    "0123456789abcdef"[n]
  }

  function HexValue(c: char): Option<nat> {
    if '0' <= c <= '9' then Some(c as int - '0' as int)
    else if 'a' <= c <= 'f' then Some(c as int - 'a' as int + 10)
    else if 'A' <= c <= 'F' then Some(c as int - 'A' as int + 10)
    else None
  }

  function EscapeChar(c: char): string {
    if c == '"' then "\\\""
    else if c == '\\' then "\\\\"
    else if c == '\U{8}' then "\\b"
    else if c == '\t' then "\\t"
    else if c == '\n' then "\\n"
    else if c == '\U{C}' then "\\f"
    else if c == '\r' then "\\r"
    else if c < ' ' then "\\u00" + [HexDigit(c as int / 16), HexDigit(c as int % 16)]
    else [c]
  }

  function Escaped(s: string): string {
    if s == "" then "" else EscapeChar(s[0]) + Escaped(s[1..])
  }

  /** `JSON.stringify` of a string. */
  function TomlString(s: string): string {
    "\"" + Escaped(s) + "\""
  }

  /** The character a one-letter escape stands for. */
  function SimpleEscape(c: char): Option<char> {
    if c == '"' || c == '\\' || c == '/' then Some(c)
    else if c == 'b' then Some('\U{8}')
    else if c == 't' then Some('\t')
    else if c == 'n' then Some('\n')
    else if c == 'f' then Some('\U{C}')
    else if c == 'r' then Some('\r')
    else None
  }

  /** The value of four hexadecimal digits when it is a character by itself. */
  function UnicodeEscape(a: char, b: char, c: char, d: char): Option<char> {
    if HexValue(a).None? || HexValue(b).None? || HexValue(c).None? || HexValue(d).None? then None
    else
      var n := 4096 * HexValue(a).value + 256 * HexValue(b).value + 16 * HexValue(c).value + HexValue(d).value;
      if 0 <= n < 0xD800 || 0xE000 <= n < 0x10000 then Some(n as char) else None
  }

  /** `JSON.parse` of the text between two quotes. */
  function Unescaped(s: string): Option<string>
    decreases |s|
  {
    if s == "" then Some("")
    else if s[0] == '\\' then
      if |s| >= 2 && SimpleEscape(s[1]).Some? then Prepend(SimpleEscape(s[1]).value, Unescaped(s[2..]))
      else if |s| >= 6 && s[1] == 'u' && UnicodeEscape(s[2], s[3], s[4], s[5]).Some? then
        Prepend(UnicodeEscape(s[2], s[3], s[4], s[5]).value, Unescaped(s[6..]))
      else None
    else if s[0] < ' ' || s[0] == '"' then None
    else Prepend(s[0], Unescaped(s[1..]))
  }

  function Prepend(c: char, tail: Option<string>): Option<string> {
    if tail.None? then None else Some([c] + tail.value)
  }

  /** The offset of the quote that closes a basic string: backslashes take the next character along. */
  function ClosingQuote(s: string): (i: Option<nat>)
    ensures i.Some? ==> i.value < |s|
    decreases |s|
  {
    if s == "" then None
    else if s[0] == '"' then Some(0)
    else if s[0] == '\\' then
      if |s| < 2 || IsLineTerminator(s[1]) then None
      else var i := ClosingQuote(s[2..]); if i.None? then None else Some(i.value + 2)
    else var i := ClosingQuote(s[1..]); if i.None? then None else Some(i.value + 1)
  }

  /** A quoted value at the front of the text; anything after it is ignored. */
  function ParseTomlString(value: string): Option<string> {
    var t := Trim(value);
    if t == "" then None
    else if t[0] == '"' then
      var i := ClosingQuote(t[1..]);
      if i.None? then None else Unescaped(t[1..][..i.value])
    else if t[0] == '\'' then
      if '\'' in t[1..] then Some(t[1..][..IndexOfChar(t[1..], '\'')]) else None
    else None
  }

  function ParseAssignmentString(line: string): Option<string> {
    if '=' in line then ParseTomlString(line[IndexOfChar(line, '=') + 1..]) else None
  }

  // ---------- regular expressions ----------

  datatype Class = Space | AnyChar | KeyChar | NoneOf(chars: string) {
    predicate Admits(c: char) {
      match this
      case Space => IsSpace(c)
      case AnyChar => !IsLineTerminator(c)
      case KeyChar => 'A' <= c <= 'Z' || 'a' <= c <= 'z' || '0' <= c <= '9' || c == '_' || c == '-'
      case NoneOf(chars) => c !in chars
    }
  }

  datatype Re = Word(w: string) | One(cls: Class) | Cat(l: Re, r: Re) | Alt(l: Re, r: Re) | Star(body: Re)

  /** `s` as a whole belongs to the language of `re`. */
  predicate Matches(re: Re, s: string)
    decreases re, |s|
  {
    match re
    case Word(w) => s == w
    case One(cls) => |s| == 1 && cls.Admits(s[0])
    case Cat(l, r) => exists k :: 0 <= k <= |s| && Matches(l, s[..k]) && Matches(r, s[k..])
    case Alt(l, r) => Matches(l, s) || Matches(r, s)
    case Star(body) => s == "" || exists k :: 0 < k <= |s| && Matches(body, s[..k]) && Matches(re, s[k..])
  }

  /** `/^re/.test(s)` */
  predicate MatchesPrefix(re: Re, s: string) {
    exists k :: 0 <= k <= |s| && Matches(re, s[..k])
  }

  const SPACES := Star(One(Space))
  const BASIC_KEY := Cat(Word("\""), Cat(Star(Alt(Cat(Word("\\"), One(AnyChar)), One(NoneOf("\"\\")))), Word("\"")))
  const LITERAL_KEY := Cat(Word("'"), Cat(Star(One(NoneOf("'"))), Word("'")))
  const BARE_KEY := Cat(One(KeyChar), Star(One(KeyChar)))
  const KEY_PART := Alt(BASIC_KEY, Alt(LITERAL_KEY, BARE_KEY))
  const KEY_TAIL := Star(Cat(SPACES, Cat(Word("."), Cat(SPACES, KEY_PART))))
  const DOTTED_KEY := Cat(KEY_PART, KEY_TAIL)
  const LINE_TAIL := Cat(SPACES, Alt(Word(""), Cat(Word("#"), Star(One(AnyChar)))))

  function Quotable(name: string): Re {
    Alt(Word(name), Alt(Word("\"" + name + "\""), Word("'" + name + "'")))
  }

  const PROVIDER_KEY := Quotable("collectivus")
  const PROVIDER_DOTTED_KEY :=
    Cat(Quotable("model_providers"), Cat(SPACES, Cat(Word("."), Cat(SPACES, Cat(PROVIDER_KEY, KEY_TAIL)))))

  /** `^\s*[\s*key\s*]\s*(#.*)?$`, with single or double brackets. */
  function Header(open: string, key: Re, close: string): Re {
    Cat(SPACES, Cat(Word(open), Cat(SPACES, Cat(key, Cat(SPACES, Cat(Word(close), LINE_TAIL))))))
  }

  /** `^\s*key\s*=` */
  function Assignment(key: Re): Re {
    Cat(SPACES, Cat(key, Cat(SPACES, Word("="))))
  }

  predicate IsTableHeader(line: string) {
    Matches(Header("[", DOTTED_KEY, "]"), line) || Matches(Header("[[", DOTTED_KEY, "]]"), line)
  }

  predicate IsProviderTableHeader(line: string) {
    Matches(Header("[", PROVIDER_DOTTED_KEY, "]"), line) || Matches(Header("[[", PROVIDER_DOTTED_KEY, "]]"), line)
  }

  predicate IsModelProvidersHeader(line: string) {
    Matches(Header("[", Quotable("model_providers"), "]"), line)
  }

  predicate IsRootModelProviderLine(line: string) {
    MatchesPrefix(Assignment(Quotable("model_provider")), line)
  }

  predicate IsProviderDottedAssignment(line: string) {
    MatchesPrefix(Assignment(PROVIDER_DOTTED_KEY), line)
  }

  predicate IsProviderChildAssignment(line: string) {
    MatchesPrefix(Assignment(Cat(PROVIDER_KEY, KEY_TAIL)), line)
  }

  // ---------- multi-line strings ----------

  datatype Delim = Basic | LiteralQuotes {
    function Mark(): string {
      if this.Basic? then "\"\"\"" else "'''"
    }
  }

  /** An odd run of backslashes ends just before `index`. */
  function BackslashesBefore(s: string, index: nat): nat
    requires index <= |s|
  {
    if index > 0 && s[index - 1] == '\\' then 1 + BackslashesBefore(s, index - 1) else 0
  }

  /** The delimiter occurs; in a basic string, at some unescaped place. */
  predicate HasClosing(value: string, d: Delim) {
    exists k :: 0 <= k <= |value| && OccursAt(value, d.Mark(), k)
                && (d.Basic? ==> BackslashesBefore(value, k) % 2 == 0)
  }

  function Close(line: string, d: Delim): Option<Delim> {
    if HasClosing(line, d) then None else Some(d)
  }

  function AssignmentValue(line: string): Option<string> {
    if StartsWith(TrimStart(line), "#") then None
    else if '=' in line then Some(TrimStart(line[IndexOfChar(line, '=') + 1..]))
    else None
  }

  /** The multi-line string this line opens and leaves open. */
  function Open(line: string): Option<Delim> {
    var value := if AssignmentValue(line).Some? then AssignmentValue(line).value else TrimStart(line);
    if StartsWith(value, Basic.Mark()) then
      if HasClosing(value[3..], Basic) then None else Some(Basic)
    else if StartsWith(value, LiteralQuotes.Mark()) then
      if HasClosing(value[3..], LiteralQuotes) then None else Some(LiteralQuotes)
    else None
  }

  method IsEscaped(value: string, index: nat) returns (escaped: bool)
    requires index <= |value|
    ensures escaped <==> BackslashesBefore(value, index) % 2 == 1
  {
    var backslashes := 0;
    var i := index;
    while i > 0 && value[i - 1] == '\\'
      invariant 0 <= i <= index
      invariant backslashes + BackslashesBefore(value, i) == BackslashesBefore(value, index)
    {
      backslashes, i := backslashes + 1, i - 1;
    }
    escaped := backslashes % 2 == 1;
  }

  method HasClosingMultilineString(value: string, d: Delim) returns (closing: bool)
    ensures closing <==> HasClosing(value, d)
  {
    var mark := d.Mark();
    var index := IndexOf(value, mark, 0);
    IndexOfFirst(value, mark, 0);
    if d.LiteralQuotes? { return index != -1; }
    while index != -1
      invariant index == -1 || (0 <= index && OccursAt(value, mark, index))
      invariant forall k :: 0 <= k && (index == -1 || k < index) && OccursAt(value, mark, k) ==>
                  k <= |value| && BackslashesBefore(value, k) % 2 != 0
      decreases if index == -1 then -1 else |value| - index
    {
      var escaped := IsEscaped(value, index);
      if !escaped { return true; }
      IndexOfFirst(value, mark, index + 1);
      index := IndexOf(value, mark, index + 1);
    }
    return false;
  }

  // ---------- facts about strings ----------

  /** Reading past `front` moves the closing quote by its length. */
  predicate Shifts(front: string, tail: string) {
    ClosingQuote(tail).Some? ==> ClosingQuote(front + tail) == Some(|front| + ClosingQuote(tail).value)
  }

  lemma PlainCharShifts(c: char, tail: string)
    requires c != '"' && c != '\\'
    ensures Shifts([c], tail)
  {
    assert ([c] + tail)[1..] == tail;
  }

  lemma EscapePairShifts(c: char, tail: string)
    requires !IsLineTerminator(c)
    ensures Shifts(['\\', c], tail)
  {
    assert (['\\', c] + tail)[2..] == tail;
  }

  lemma EscapedCharScans(c: char, tail: string)
    ensures Shifts(EscapeChar(c), tail)
    ensures Unescaped(EscapeChar(c) + tail) == Prepend(c, Unescaped(tail))
  {
    var s := EscapeChar(c) + tail;
    if |EscapeChar(c)| == 1 {
      PlainCharShifts(c, tail);
      assert s[1..] == tail;
    } else if |EscapeChar(c)| == 2 {
      EscapePairShifts(EscapeChar(c)[1], tail);
      assert EscapeChar(c) == ['\\', EscapeChar(c)[1]];
      assert s[2..] == tail;
    } else {
      EscapedControlScans(c, tail);
    }
  }

  lemma UnicodeEscapeShifts(a: char, b: char, c: char, d: char, tail: string)
    requires forall x :: x in [a, b, c, d] ==> x != '"' && x != '\\'
    ensures Shifts(['\\', 'u', a, b, c, d], tail)
  {
    var t4 := [d] + tail;
    var t3 := [c] + t4;
    var t2 := [b] + t3;
    var t1 := [a] + t2;
    assert d in [a, b, c, d] && c in [a, b, c, d] && b in [a, b, c, d] && a in [a, b, c, d];
    PlainCharShifts(d, tail);
    PlainCharShifts(c, t4);
    PlainCharShifts(b, t3);
    PlainCharShifts(a, t2);
    EscapePairShifts('u', t1);
    assert ['\\', 'u', a, b, c, d] == ['\\', 'u'] + ([a] + ([b] + ([c] + [d])));
    Assoc(['\\', 'u'], [a] + ([b] + ([c] + [d])), tail);
    Assoc([a], [b] + ([c] + [d]), tail);
    Assoc([b], [c] + [d], tail);
    Assoc([c], [d], tail);
  }

  lemma HexControl(n: nat)
    requires n < 32
    ensures UnicodeEscape('0', '0', HexDigit(n / 16), HexDigit(n % 16)) == Some(n as char)
  {
    assert HexValue(HexDigit(n / 16)) == Some(n / 16) && HexValue(HexDigit(n % 16)) == Some(n % 16);
  }

  lemma EscapedControlScans(c: char, tail: string)
    requires |EscapeChar(c)| == 6
    ensures Shifts(EscapeChar(c), tail)
    ensures Unescaped(EscapeChar(c) + tail) == Prepend(c, Unescaped(tail))
  {
    var h, l := HexDigit(c as int / 16), HexDigit(c as int % 16);
    assert EscapeChar(c) == ['\\', 'u', '0', '0', h, l];
    UnicodeEscapeShifts('0', '0', h, l, tail);
    HexControl(c as int);
    UnescapedUnicode('0', '0', h, l, tail);
  }

  lemma UnescapedUnicode(a: char, b: char, c: char, d: char, tail: string)
    requires UnicodeEscape(a, b, c, d).Some?
    ensures Unescaped(['\\', 'u', a, b, c, d] + tail) == Prepend(UnicodeEscape(a, b, c, d).value, Unescaped(tail))
  {
    var s := ['\\', 'u', a, b, c, d] + tail;
    assert s[6..] == tail && s[1] == 'u' && s[2] == a && s[3] == b && s[4] == c && s[5] == d;
  }

  /** Quoting and then parsing a string gives it back, and the quote found is the last one. */
  lemma EscapedScans(s: string)
    ensures ClosingQuote(Escaped(s) + "\"") == Some(|Escaped(s)|)
    ensures Unescaped(Escaped(s)) == Some(s)
  {
    EscapedCloses(s, "");
    assert "\"" + "" == "\"";
    EscapedReads(s);
  }

  lemma {:induction false} EscapedReads(s: string)
    ensures Unescaped(Escaped(s)) == Some(s)
  {
    if s != "" {
      EscapedReads(s[1..]);
      EscapedCharScans(s[0], Escaped(s[1..]));
      assert [s[0]] + s[1..] == s;
    }
  }

  /** The first quote after an escaped text closes it, whatever follows. */
  lemma {:induction false} EscapedCloses(s: string, t: string)
    ensures ClosingQuote(Escaped(s) + ("\"" + t)) == Some(|Escaped(s)|)
  {
    if s == "" {
      assert "" + ("\"" + t) == "\"" + t;
    } else {
      EscapedCloses(s[1..], t);
      EscapedCharScans(s[0], Escaped(s[1..]) + ("\"" + t));
      Assoc(EscapeChar(s[0]), Escaped(s[1..]), "\"" + t);
    }
  }

  /** Text that starts and ends with visible characters is left alone by trim. */
  lemma TrimSolid(s: string)
    requires s != "" && !IsSpace(s[0]) && !IsSpace(s[|s| - 1])
    ensures Trim(s) == s && TrimStart(s) == s
  {
  }

  lemma StringRoundTrip(s: string)
    ensures ParseTomlString(" " + TomlString(s)) == Some(s)
    ensures ParseTomlString(TomlString(s)) == Some(s)
  {
    var t := TomlString(s);
    EscapedScans(s);
    TrimSolid(t);
    assert (" " + t)[1..] == t;
    assert t[1..] == Escaped(s) + "\"";
    assert t[1..][..|Escaped(s)|] == Escaped(s);
  }
}
