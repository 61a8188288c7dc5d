/** Reading JSON text without white space, and that what is printed is such text and reads back as the value. */
module JsonText {
  import opened Wrappers
  import opened Text
  import opened TomlText
  import opened CanonicalJson

  datatype Got<T> = Got(value: T, rest: string)

  // ---------- the grammar ----------

  /** How far a number reaches. */
  function NumberLength(s: string): (n: nat)
    ensures n <= |s|
  {
    if s != "" && IsNumberChar(s[0]) then 1 + NumberLength(s[1..]) else 0
  }

  function ReadQuoted(s: string): (r: Option<Got<string>>)
    ensures r.Some? ==> |r.value.rest| < |s|
  {
    if s == "" || s[0] != '"' then None
    else
      var i := ClosingQuote(s[1..]);
      if i.None? || Unescaped(s[1..][..i.value]).None? then None
      else Some(Got(Unescaped(s[1..][..i.value]).value, s[1..][i.value + 1..]))
  }

  function ReadValue(s: string): (r: Option<Got<Json>>)
    ensures r.Some? ==> |r.value.rest| < |s|
    decreases |s|, 0
  {
    if s == "" then None
    else if s[0] == 'n' then if StartsWith(s, "null") then Some(Got(JNull, s[4..])) else None
    else if s[0] == 't' then if StartsWith(s, "true") then Some(Got(JBool(true), s[4..])) else None
    else if s[0] == 'f' then if StartsWith(s, "false") then Some(Got(JBool(false), s[5..])) else None
    else if s[0] == '"' then
      var q := ReadQuoted(s);
      if q.None? then None else Some(Got(JStr(q.value.value), q.value.rest))
    else if s[0] == '[' then
      var items := ReadArray(s[1..]);
      if items.None? then None else Some(Got(JArr(items.value.value), items.value.rest))
    else if s[0] == '{' then
      var fields := ReadObject(s[1..]);
      if fields.None? then None else Some(Got(JObj(fields.value.value), fields.value.rest))
    else
      var n := NumberLength(s);
      if IsNumberText(s[..n]) then Some(Got(JNum(s[..n]), s[n..])) else None
  }

  /** After the opening bracket. */
  function ReadArray(s: string): (r: Option<Got<seq<Json>>>)
    ensures r.Some? ==> |r.value.rest| < |s|
    decreases |s|, 1
  {
    if s != "" && s[0] == ']' then Some(Got([], s[1..]))
    else
      var first := ReadValue(s);
      if first.None? then None
      else
        var more := ReadItems(first.value.rest);
        if more.None? then None else Some(Got([first.value.value] + more.value.value, more.value.rest))
  }

  /** After a value of an array. */
  function ReadItems(s: string): (r: Option<Got<seq<Json>>>)
    ensures r.Some? ==> |r.value.rest| < |s|
    decreases |s|, 0
  {
    if s == "" then None
    else if s[0] == ']' then Some(Got([], s[1..]))
    else if s[0] != ',' then None
    else
      var first := ReadValue(s[1..]);
      if first.None? then None
      else
        var more := ReadItems(first.value.rest);
        if more.None? then None else Some(Got([first.value.value] + more.value.value, more.value.rest))
  }

  function ReadField(s: string): (r: Option<Got<Field>>)
    ensures r.Some? ==> |r.value.rest| < |s|
    decreases |s|, 1
  {
    var key := ReadQuoted(s);
    if key.None? || key.value.rest == "" || key.value.rest[0] != ':' then None
    else
      var value := ReadValue(key.value.rest[1..]);
      if value.None? then None else Some(Got(Field(key.value.value, value.value.value), value.value.rest))
  }

  function ReadObject(s: string): (r: Option<Got<seq<Field>>>)
    ensures r.Some? ==> |r.value.rest| < |s|
    decreases |s|, 2
  {
    if s != "" && s[0] == '}' then Some(Got([], s[1..]))
    else
      var first := ReadField(s);
      if first.None? then None
      else
        var more := ReadFields(first.value.rest);
        if more.None? then None else Some(Got([first.value.value] + more.value.value, more.value.rest))
  }

  function ReadFields(s: string): (r: Option<Got<seq<Field>>>)
    ensures r.Some? ==> |r.value.rest| < |s|
    decreases |s|, 0
  {
    if s == "" then None
    else if s[0] == '}' then Some(Got([], s[1..]))
    else if s[0] != ',' then None
    else
      var first := ReadField(s[1..]);
      if first.None? then None
      else
        var more := ReadFields(first.value.rest);
        if more.None? then None else Some(Got([first.value.value] + more.value.value, more.value.rest))
  }

  // ---------- printed text, piece by piece ----------

  /** What can follow a value. */
  predicate Ends(t: string) {
    t == "" || t[0] == ',' || t[0] == ']' || t[0] == '}'
  }

  lemma QuotedParts(s: string, t: string)
    ensures TomlString(s) + t == "\"" + (Escaped(s) + ("\"" + t))
  {
    Assoc("\"", Escaped(s), "\"");
    Assoc("\"", Escaped(s) + "\"", t);
    Assoc(Escaped(s), "\"", t);
  }

  /** An array after its opening bracket, and what follows it. */
  function ArrayRest(a: seq<Json>, s: string): string {
    if a == [] then "]" + s else Print(a[0]) + (PrintItems(a[1..]) + s)
  }

  lemma ArrayParts(a: seq<Json>, s: string)
    ensures Print(JArr(a)) + s == "[" + ArrayRest(a, s)
  {
    if a == [] {
      assert "[]" + s == "[" + ("]" + s);
    } else {
      Assoc("[", Print(a[0]), PrintItems(a[1..]));
      Assoc("[", Print(a[0]) + PrintItems(a[1..]), s);
      Assoc(Print(a[0]), PrintItems(a[1..]), s);
    }
  }

  lemma ItemsParts(a: seq<Json>, s: string)
    requires a != []
    ensures PrintItems(a) + s == "," + (Print(a[0]) + (PrintItems(a[1..]) + s))
  {
    Assoc(",", Print(a[0]), PrintItems(a[1..]));
    Assoc(",", Print(a[0]) + PrintItems(a[1..]), s);
    Assoc(Print(a[0]), PrintItems(a[1..]), s);
  }

  function PrintField(f: Field): string {
    TomlString(f.key) + ":" + Print(f.value)
  }

  lemma FieldParts(f: Field, s: string)
    ensures PrintField(f) + s == TomlString(f.key) + (":" + (Print(f.value) + s))
  {
    var k, v := TomlString(f.key), Print(f.value);
    Assoc(k, ":", v);
    Assoc(k, ":" + v, s);
    Assoc(":", v, s);
  }

  /** An object after its opening brace, and what follows it. */
  function ObjectRest(a: seq<Field>, s: string): string {
    if a == [] then "}" + s else PrintField(a[0]) + (PrintFields(a[1..]) + s)
  }

  lemma ObjectParts(a: seq<Field>, s: string)
    ensures Print(JObj(a)) + s == "{" + ObjectRest(a, s)
  {
    if a == [] {
      assert "{}" + s == "{" + ("}" + s);
    } else {
      var k, v, more := TomlString(a[0].key), Print(a[0].value), PrintFields(a[1..]);
      FieldText("{", k, v, more);
      Assoc("{", PrintField(a[0]) + more, s);
      Assoc(PrintField(a[0]), more, s);
    }
  }

  lemma FieldText(p: string, k: string, v: string, more: string)
    ensures p + k + ":" + v + more == p + ((k + ":" + v) + more)
  {
    Assoc(p, k, ":");
    Assoc(p, k + ":", v);
    Assoc(p, k + ":" + v, more);
  }

  lemma FieldsParts(a: seq<Field>, s: string)
    requires a != []
    ensures PrintFields(a) + s == "," + (PrintField(a[0]) + (PrintFields(a[1..]) + s))
  {
    var more := PrintFields(a[1..]);
    FieldText(",", TomlString(a[0].key), Print(a[0].value), more);
    Assoc(",", PrintField(a[0]) + more, s);
    Assoc(PrintField(a[0]), more, s);
  }

  // ---------- reading back ----------

  lemma QuotedBack(v: string, t: string)
    ensures ReadQuoted(TomlString(v) + t) == Some(Got(v, t))
  {
    var x := Escaped(v);
    QuotedParts(v, t);
    EscapedCloses(v, t);
    EscapedReads(v);
    var s := "\"" + (x + ("\"" + t));
    assert s[1..] == x + ("\"" + t);
    assert s[1..][..|x|] == x && s[1..][|x| + 1..] == t;
  }

  lemma {:induction false} NumberBack(text: string, t: string)
    requires (forall k :: 0 <= k < |text| ==> IsNumberChar(text[k])) && Ends(t)
    ensures NumberLength(text + t) == |text|
    decreases |text|
  {
    if text != "" {
      assert (text + t)[1..] == text[1..] + t;
      NumberBack(text[1..], t);
    } else {
      assert text + t == t;
    }
  }

  lemma NumberOpens(text: NumberText, t: string)
    requires Ends(t)
    ensures ReadValue(text + t) == Some(Got(JNum(text), t))
  {
    var s := text + t;
    NumberBack(text, t);
    assert s[0] == text[0] && s[..|text|] == text && s[|text|..] == t;
  }

  lemma QuoteOpens(s: string, v: string, t: string)
    requires s != "" && s[0] == '"' && ReadQuoted(s) == Some(Got(v, t))
    ensures ReadValue(s) == Some(Got(JStr(v), t))
  {
  }

  lemma BracketOpens(rest: string, items: seq<Json>, t: string)
    requires ReadArray(rest) == Some(Got(items, t))
    ensures ReadValue("[" + rest) == Some(Got(JArr(items), t))
  {
    assert ("[" + rest)[1..] == rest && ("[" + rest)[0] == '[';
  }

  lemma BraceOpens(rest: string, fields: seq<Field>, t: string)
    requires ReadObject(rest) == Some(Got(fields, t))
    ensures ReadValue("{" + rest) == Some(Got(JObj(fields), t))
  {
    assert ("{" + rest)[1..] == rest && ("{" + rest)[0] == '{';
  }

  /** Any value, printed, reads back, and the reader stops right behind it. */
  lemma {:induction false} ReadsBack(u: Json, t: string)
    requires Ends(t)
    ensures ReadValue(Print(u) + t) == Some(Got(u, t))
    decreases u, 0
  {
    match u
    case JNull => WordBack("null", t);
    case JBool(b) => WordBack(Print(u), t);
    case JNum(text) => NumberOpens(text, t);
    case JStr(v) =>
      QuotedBack(v, t);
      QuoteOpens(TomlString(v) + t, v, t);
    case JArr(items) =>
      ArrayParts(items, t);
      ArrayBack(items, t);
      BracketOpens(ArrayRest(items, t), items, t);
    case JObj(fields) =>
      ObjectParts(fields, t);
      ObjectBack(fields, t);
      BraceOpens(ObjectRest(fields, t), fields, t);
  }

  lemma WordBack(w: string, t: string)
    requires w == "null" || w == "true" || w == "false"
    ensures ReadValue(w + t) == Some(Got(if w == "null" then JNull else JBool(w == "true"), t))
  {
    assert (w + t)[0] == w[0] && w <= w + t && (w + t)[|w|..] == t;
  }

  /** A value begins with no bracket or brace that closes. */
  lemma ValueStarts(u: Json, t: string)
    ensures Print(u) != "" && (Print(u) + t)[0] == Print(u)[0] && Print(u)[0] != ']' && Print(u)[0] != '}'
  {
  }

  lemma {:induction false} ArrayBack(a: seq<Json>, t: string)
    requires Ends(t)
    ensures ReadArray(ArrayRest(a, t)) == Some(Got(a, t))
    decreases a, 0
  {
    if a == [] {
      assert ("]" + t)[1..] == t;
    } else {
      var rest := PrintItems(a[1..]) + t;
      ValueStarts(a[0], rest);
      ReadsBack(a[0], rest);
      ItemsBack(a[1..], t);
      assert a == [a[0]] + a[1..];
    }
  }

  lemma {:induction false} ItemsBack(a: seq<Json>, t: string)
    requires Ends(t)
    ensures Ends(PrintItems(a) + t) && ReadItems(PrintItems(a) + t) == Some(Got(a, t))
    decreases a, 0
  {
    if a == [] {
      assert ("]" + t)[1..] == t;
    } else {
      var rest := PrintItems(a[1..]) + t;
      ItemsParts(a, t);
      ItemsBack(a[1..], t);
      ReadsBack(a[0], rest);
      NextItem(Print(a[0]) + rest, a[0], a[1..], rest, t);
      assert a == [a[0]] + a[1..];
    }
  }

  lemma NextItem(s: string, u: Json, more: seq<Json>, rest: string, t: string)
    requires ReadValue(s) == Some(Got(u, rest)) && ReadItems(rest) == Some(Got(more, t))
    ensures ReadItems("," + s) == Some(Got([u] + more, t))
  {
    assert ("," + s)[1..] == s;
  }

  lemma {:induction false} FieldBack(f: Field, t: string)
    requires Ends(t)
    ensures ReadField(PrintField(f) + t) == Some(Got(f, t)) && (PrintField(f) + t)[0] == '"'
    decreases f, 1
  {
    var value := Print(f.value) + t;
    FieldParts(f, t);
    QuotedBack(f.key, ":" + value);
    QuotedParts(f.key, ":" + value);
    ReadsBack(f.value, t);
    assert (":" + value)[1..] == value;
  }

  lemma {:induction false} ObjectBack(a: seq<Field>, t: string)
    requires Ends(t)
    ensures ReadObject(ObjectRest(a, t)) == Some(Got(a, t))
    decreases a, 0
  {
    if a == [] {
      assert ("}" + t)[1..] == t;
    } else {
      var rest := PrintFields(a[1..]) + t;
      FieldsBack(a[1..], t);
      FieldBack(a[0], rest);
      FirstField(PrintField(a[0]) + rest, a[0], a[1..], rest, t);
      assert a == [a[0]] + a[1..];
    }
  }

  lemma {:induction false} FieldsBack(a: seq<Field>, t: string)
    requires Ends(t)
    ensures Ends(PrintFields(a) + t) && ReadFields(PrintFields(a) + t) == Some(Got(a, t))
    decreases a, 0
  {
    if a == [] {
      assert ("}" + t)[1..] == t;
    } else {
      var rest := PrintFields(a[1..]) + t;
      FieldsParts(a, t);
      FieldsBack(a[1..], t);
      FieldBack(a[0], rest);
      NextField(PrintField(a[0]) + rest, a[0], a[1..], rest, t);
      assert a == [a[0]] + a[1..];
    }
  }

  lemma FirstField(s: string, f: Field, more: seq<Field>, rest: string, t: string)
    requires s != "" && s[0] == '"' && ReadField(s) == Some(Got(f, rest)) && ReadFields(rest) == Some(Got(more, t))
    ensures ReadObject(s) == Some(Got([f] + more, t))
  {
  }

  lemma NextField(s: string, f: Field, more: seq<Field>, rest: string, t: string)
    requires ReadField(s) == Some(Got(f, rest)) && ReadFields(rest) == Some(Got(more, t))
    ensures ReadFields("," + s) == Some(Got([f] + more, t))
  {
    assert ("," + s)[1..] == s;
  }
}
