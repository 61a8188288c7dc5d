/** Every way to spell a basic string, and what the parser makes of it. */
module TomlStrings {
  import opened Wrappers
  import opened Text
  import opened TomlText
  import opened TomlGrammar

  const SHORT_LETTERS := "\"\\/bfnrt"
  const SHORT_MEANINGS := "\"\\/\U{8}\U{C}\n\r\t"
  const LOWER_DIGITS := "0123456789abcdef"
  const UPPER_DIGITS := "0123456789ABCDEF"

  /** One character of a string: as it is, by a letter, or by four hexadecimal digits in either case. */
  datatype Piece = Plain(ch: char) | Short(k: nat) | Coded(a: Digit, b: Digit, c: Digit, d: Digit)

  datatype Digit = Digit(value: nat, upper: bool)

  predicate IsDigit(d: Digit) {
    d.value < 16
  }

  function DigitText(d: Digit): char
    requires IsDigit(d)
  {
    if d.upper then UPPER_DIGITS[d.value] else LOWER_DIGITS[d.value]
  }

  function Code(p: Piece): nat
    requires p.Coded?
  {
    4096 * p.a.value + 256 * p.b.value + 16 * p.c.value + p.d.value
  }

  /** No quote, no backslash and no control character as it is; a code that is a character by itself. */
  predicate Spells(p: Piece) {
    match p
    case Plain(c) => c >= ' ' && c != '"' && c != '\\'
    case Short(k) => k < 8
    case Coded(a, b, c, d) =>
      IsDigit(a) && IsDigit(b) && IsDigit(c) && IsDigit(d) && (Code(p) < 0xD800 || Code(p) >= 0xE000)
  }

  function Spelling(p: Piece): string
    requires Spells(p)
  {
    match p
    case Plain(c) => [c]
    case Short(k) => ['\\', SHORT_LETTERS[k]]
    case Coded(a, b, c, d) => ['\\', 'u', DigitText(a), DigitText(b), DigitText(c), DigitText(d)]
  }

  function Meant(p: Piece): char
    requires Spells(p)
  {
    match p
    case Plain(c) => c
    case Short(k) => SHORT_MEANINGS[k]
    case Coded(_, _, _, _) => Code(p) as char
  }

  predicate AllSpell(pieces: seq<Piece>) {
    forall k :: 0 <= k < |pieces| ==> Spells(pieces[k])
  }

  function Spelled(pieces: seq<Piece>): string
    requires AllSpell(pieces)
  {
    if pieces == [] then "" else Spelling(pieces[0]) + Spelled(pieces[1..])
  }

  function MeantAll(pieces: seq<Piece>): string
    requires AllSpell(pieces)
  {
    if pieces == [] then "" else [Meant(pieces[0])] + MeantAll(pieces[1..])
  }

  lemma DigitReads(d: Digit)
    requires IsDigit(d)
    ensures HexValue(DigitText(d)) == Some(d.value) && DigitText(d) != '"' && DigitText(d) != '\\'
  {
  }

  lemma ShortReads(k: nat)
    requires k < 8
    ensures SimpleEscape(SHORT_LETTERS[k]) == Some(SHORT_MEANINGS[k]) && !IsLineTerminator(SHORT_LETTERS[k])
  {
  }

  lemma CodedReads(p: Piece, tail: string)
    requires p.Coded? && Spells(p)
    ensures Unescaped(Spelling(p) + tail) == Prepend(Meant(p), Unescaped(tail)) && Shifts(Spelling(p), tail)
  {
    DigitReads(p.a);
    DigitReads(p.b);
    DigitReads(p.c);
    DigitReads(p.d);
    var a, b, c, d := DigitText(p.a), DigitText(p.b), DigitText(p.c), DigitText(p.d);
    assert UnicodeEscape(a, b, c, d) == Some(Code(p) as char);
    UnescapedUnicode(a, b, c, d, tail);
    UnicodeEscapeShifts(a, b, c, d, tail);
  }

  lemma PieceReads(p: Piece, tail: string)
    requires Spells(p)
    ensures Unescaped(Spelling(p) + tail) == Prepend(Meant(p), Unescaped(tail)) && Shifts(Spelling(p), tail)
  {
    match p
    case Plain(c) =>
      PlainCharShifts(c, tail);
      assert ([c] + tail)[1..] == tail;
    case Short(k) =>
      ShortReads(k);
      EscapePairShifts(SHORT_LETTERS[k], tail);
      assert (['\\', SHORT_LETTERS[k]] + tail)[2..] == tail;
    case Coded(_, _, _, _) => CodedReads(p, tail);
  }

  lemma {:induction false} SpelledReads(pieces: seq<Piece>)
    requires AllSpell(pieces)
    ensures Unescaped(Spelled(pieces)) == Some(MeantAll(pieces))
  {
    if pieces != [] {
      PieceReads(pieces[0], Spelled(pieces[1..]));
      SpelledReads(pieces[1..]);
    }
  }

  lemma {:induction false} SpelledCloses(pieces: seq<Piece>, t: string)
    requires AllSpell(pieces)
    ensures ClosingQuote(Spelled(pieces) + ("\"" + t)) == Some(|Spelled(pieces)|)
  {
    if pieces == [] {
      assert "" + ("\"" + t) == "\"" + t;
    } else {
      SpelledCloses(pieces[1..], t);
      PieceReads(pieces[0], Spelled(pieces[1..]) + ("\"" + t));
      Assoc(Spelling(pieces[0]), Spelled(pieces[1..]), "\"" + t);
    }
  }

  /** A value in double quotes means what its pieces mean, however they are spelled and whatever follows. */
  lemma SpelledValue(key: string, room: string, pieces: seq<Piece>, rest: string)
    requires '=' !in key && Blank(room) && AllSpell(pieces)
    ensures ParseAssignmentString(key + ("=" + (room + ("\"" + Spelled(pieces) + "\"" + rest)))) ==
      Some(MeantAll(pieces))
  {
    var quoted := "\"" + Spelled(pieces) + "\"";
    AfterEquals(key, room + (quoted + rest));
    StartTrimmed(room, quoted + rest);
    var kept := EndTrimmed(quoted, rest);
    SpelledTrimmed(room + (quoted + rest), pieces, kept);
  }

  lemma SpelledTrimmed(value: string, pieces: seq<Piece>, kept: string)
    requires AllSpell(pieces) && Trim(value) == "\"" + Spelled(pieces) + "\"" + kept
    ensures ParseTomlString(value) == Some(MeantAll(pieces))
  {
    AfterQuote(Spelled(pieces), kept);
    SpelledCloses(pieces, kept);
    SpelledReads(pieces);
  }

  /** Nothing else is a string: a control character, a quote, or a backslash before anything but these letters. */
  lemma {:induction false} SpelledOnly(pieces: seq<Piece>, c: char, tail: string)
    requires AllSpell(pieces) && (c < ' ' || c == '"')
    ensures Unescaped(Spelled(pieces) + ([c] + tail)) == None
  {
    if pieces == [] {
      assert "" + ([c] + tail) == [c] + tail;
    } else {
      SpelledOnly(pieces[1..], c, tail);
      PieceReads(pieces[0], Spelled(pieces[1..]) + ([c] + tail));
      Assoc(Spelling(pieces[0]), Spelled(pieces[1..]), [c] + tail);
    }
  }

  lemma {:induction false} EscapedOnly(pieces: seq<Piece>, c: char, tail: string)
    requires AllSpell(pieces) && c !in SHORT_LETTERS && c != 'u'
    ensures Unescaped(Spelled(pieces) + (['\\', c] + tail)) == None
  {
    if pieces == [] {
      assert "" + (['\\', c] + tail) == ['\\', c] + tail;
      assert SHORT_LETTERS == "\"\\/bfnrt" && SHORT_LETTERS[0] == '"' && SHORT_LETTERS[1] == '\\' &&
        SHORT_LETTERS[2] == '/';
      assert SHORT_LETTERS[3] == 'b' && SHORT_LETTERS[4] == 'f' && SHORT_LETTERS[5] == 'n' && SHORT_LETTERS[6] == 'r'
        && SHORT_LETTERS[7] == 't';
    } else {
      EscapedOnly(pieces[1..], c, tail);
      PieceReads(pieces[0], Spelled(pieces[1..]) + (['\\', c] + tail));
      Assoc(Spelling(pieces[0]), Spelled(pieces[1..]), ['\\', c] + tail);
    }
  }

  /** The white space of the language, by code. */
  lemma SpaceCodes(c: char)
    ensures IsSpace(c) <==>
            var n := c as int;
            || 9 <= n <= 13 || n == 32 || n == 160 || n == 0x1680 || 0x2000 <= n <= 0x200A || n == 0x2028 || n == 0x2029
            || n == 0x202F || n == 0x205F || n == 0x3000 || n == 0xFEFF
  {
  }
}
