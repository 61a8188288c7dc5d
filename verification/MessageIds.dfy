/** What the hashed text of a message tells: always the content, and conversation and role up to the place of a
    colon. */
module MessageIds {
  import opened Text
  import opened TomlText
  import opened CanonicalJson
  import opened CanonicalTheorems
  import opened JsonText
  import opened MessagesWalker

  /** Two contents get the same id under every hash exactly when they differ at most in the order of keys. */
  lemma SameIdIff(conversation: string, role: string, a: seq<Json>, b: seq<Json>)
    requires Wf(JArr(a)) && Wf(JArr(b))
    ensures (forall hash: Hash :: MessageId(hash, conversation, role, a) == MessageId(hash, conversation, role, b)) <==>
            Meaning(JArr(a)) == Meaning(JArr(b))
  {
    CanonicalIff(JArr(a), JArr(b));
    var p, q := Preimage(conversation, role, a), Preimage(conversation, role, b);
    if Canonical(JArr(a)) != Canonical(JArr(b)) {
      var front := conversation + ":" + role + ":";
      if p == q { Cancel(front, Canonical(JArr(a)), Canonical(JArr(b))); }
      var hash: Hash := (s: string) => if s == p then "0" else "1";
      assert MessageId(hash, conversation, role, a) == "0" && MessageId(hash, conversation, role, b) == "1";
    }
  }

  // ---------- scanning printed values ----------

  /** Outside strings with some brackets open, inside a string, or after a backslash in one. */
  datatype Scan = Out(depth: nat) | In(depth: nat) | Esc(depth: nat) | Fail

  /** Outside strings there are no backslashes, and nothing follows the last closing bracket. */
  function Next(st: Scan, c: char): Scan {
    match st
    case Fail => Fail
    case Esc(d) => In(d)
    case In(d) => if c == '"' then Out(d) else if c == '\\' then Esc(d) else In(d)
    case Out(d) =>
      if d == 0 || c == '\\' then Fail
      else if c == '"' then In(d)
      else if c == '[' || c == '{' then Out(d + 1)
      else if c == ']' || c == '}' then Out(d - 1)
      else Out(d)
  }

  function After(st: Scan, s: string): Scan
    decreases |s|
  {
    if s == "" then st else After(Next(st, s[0]), s[1..])
  }

  lemma {:induction false} AfterAppend(st: Scan, a: string, b: string)
    ensures After(st, a + b) == After(After(st, a), b)
    decreases |a|
  {
    if a == "" {
      assert a + b == b;
    } else {
      assert (a + b)[0] == a[0] && (a + b)[1..] == a[1..] + b;
      AfterAppend(Next(st, a[0]), a[1..], b);
    }
  }

  lemma AfterOne(st: Scan, c: char)
    ensures After(st, [c]) == Next(st, c)
  {
    assert [c][1..] == "";
  }

  lemma {:induction false} AfterFail(s: string)
    ensures After(Fail, s) == Fail
    decreases |s|
  {
    if s != "" { AfterFail(s[1..]); }
  }

  /** Characters that no state takes notice of. */
  predicate Dull(c: char) {
    c != '"' && c != '\\' && c != '[' && c != '{' && c != ']' && c != '}'
  }

  lemma {:induction false} AfterDull(st: Scan, s: string)
    requires (st.Out? && st.depth > 0) || st.In?
    requires forall k :: 0 <= k < |s| ==> Dull(s[k])
    ensures After(st, s) == st
    decreases |s|
  {
    if s != "" { AfterDull(st, s[1..]); }
  }

  /** An escaped character, scanned inside a string. */
  lemma EscapeInside(c: char, d: nat)
    ensures After(In(d), EscapeChar(c)) == In(d)
  {
    var e := EscapeChar(c);
    if |e| == 1 {
      assert e == [e[0]];
      AfterOne(In(d), e[0]);
    } else {
      var tail := e[2..];
      assert e == [e[0]] + ([e[1]] + tail);
      AfterAppend(In(d), [e[0]], [e[1]] + tail);
      AfterAppend(Esc(d), [e[1]], tail);
      AfterOne(In(d), e[0]);
      AfterOne(Esc(d), e[1]);
      if |e| == 6 { assert tail == ['0', '0', HexDigit(c as int / 16), HexDigit(c as int % 16)]; }
      AfterDull(In(d), tail);
    }
  }

  /** The same, scanned outside: a backslash fails, and a quote is always behind one. */
  lemma EscapeOutside(c: char, d: nat)
    ensures var st := After(Out(d), EscapeChar(c)); st.Fail? || st.Out?
  {
    var e := EscapeChar(c);
    assert e == [e[0]] + e[1..];
    AfterAppend(Out(d), [e[0]], e[1..]);
    AfterOne(Out(d), e[0]);
    if |e| > 1 { AfterFail(e[1..]); } else { assert e[1..] == ""; }
  }

  lemma {:induction false} EscapedInside(s: string, d: nat)
    ensures After(In(d), Escaped(s)) == In(d)
  {
    if s != "" {
      AfterAppend(In(d), EscapeChar(s[0]), Escaped(s[1..]));
      EscapeInside(s[0], d);
      EscapedInside(s[1..], d);
    }
  }

  lemma {:induction false} EscapedOutside(s: string, d: nat)
    ensures var st := After(Out(d), Escaped(s)); st.Fail? || st.Out?
    decreases |s|
  {
    if s != "" {
      AfterAppend(Out(d), EscapeChar(s[0]), Escaped(s[1..]));
      EscapeOutside(s[0], d);
      var st := After(Out(d), EscapeChar(s[0]));
      if st.Out? { EscapedOutside(s[1..], st.depth); } else { AfterFail(Escaped(s[1..])); }
    }
  }

  /** A printed string read as one, and read from within a string. */
  lemma StringScans(s: string, d: nat)
    ensures d > 0 ==> After(Out(d), TomlString(s)) == Out(d)
    ensures Inverted(After(In(d), TomlString(s)))
  {
    Assoc("\"", Escaped(s), "\"");
    AfterAppend(Out(d), "\"", Escaped(s) + "\"");
    AfterAppend(In(d), "\"", Escaped(s) + "\"");
    AfterOne(Out(d), '"');
    AfterOne(In(d), '"');
    EscapedInside(s, d);
    AfterAppend(In(d), Escaped(s), "\"");
    EscapedOutside(s, d);
    AfterAppend(Out(d), Escaped(s), "\"");
    var st := After(Out(d), Escaped(s));
    if st.Out? { AfterOne(st, '"'); } else { AfterFail("\""); }
  }

  /** Where a scan that began inside a string may be after whole values: inside one again, or nowhere. */
  predicate Inverted(st: Scan) {
    st.In? || st.Fail?
  }

  /** `s` keeps the depth outside strings, and leads from inside a string to inside one. */
  ghost predicate Balanced(s: string) {
    && (forall d: nat :: d > 0 ==> After(Out(d), s) == Out(d))
    && (forall d: nat :: Inverted(After(In(d), s)))
  }

  lemma BalancedAppend(a: string, b: string)
    requires Balanced(a) && Balanced(b)
    ensures Balanced(a + b)
  {
    forall d: nat | d > 0 ensures After(Out(d), a + b) == Out(d) { AfterAppend(Out(d), a, b); }
    forall d: nat ensures Inverted(After(In(d), a + b)) {
      AfterAppend(In(d), a, b);
      InvertedOn(After(In(d), a), b);
    }
  }

  lemma InvertedOn(st: Scan, b: string)
    requires Inverted(st) && Balanced(b)
    ensures Inverted(After(st, b))
  {
    if st.Fail? { AfterFail(b); } else { assert st == In(st.depth); }
  }

  lemma DullBalanced(s: string)
    requires forall k :: 0 <= k < |s| ==> Dull(s[k])
    ensures Balanced(s)
  {
    forall d: nat | d > 0 ensures After(Out(d), s) == Out(d) { AfterDull(Out(d), s); }
    forall d: nat ensures Inverted(After(In(d), s)) { AfterDull(In(d), s); }
  }

  lemma StringBalanced(s: string)
    ensures Balanced(TomlString(s))
  {
    forall d: nat ensures (d > 0 ==> After(Out(d), TomlString(s)) == Out(d)) && Inverted(After(In(d), TomlString(s))) {
      StringScans(s, d);
    }
  }

  lemma Closes(d: nat, s: string, close: char)
    requires (close == ']' || close == '}') && Balanced(s)
    ensures After(Out(d + 1), s + [close]) == Out(d)
  {
    AfterAppend(Out(d + 1), s, [close]);
    assert After(Out(d + 1), s) == Out(d + 1);
    AfterOne(Out(d + 1), close);
  }

  lemma ClosesInside(d: nat, s: string, close: char)
    requires (close == ']' || close == '}') && Balanced(s)
    ensures Inverted(After(In(d), s + [close]))
  {
    AfterAppend(In(d), s, [close]);
    var st := After(In(d), s);
    if st.In? { AfterOne(st, close); } else { AfterFail([close]); }
  }

  lemma Opens(open: char, tail: string, d: nat)
    requires open == '[' || open == '{'
    ensures d > 0 ==> After(Out(d), [open] + tail) == After(Out(d + 1), tail)
    ensures After(In(d), [open] + tail) == After(In(d), tail)
  {
    assert ([open] + tail)[1..] == tail;
  }

  /** A balanced text in brackets. */
  lemma Bracketed(open: char, s: string, close: char)
    requires (open == '[' || open == '{') && (close == ']' || close == '}') && Balanced(s)
    ensures Balanced([open] + (s + [close]))
  {
    var text := [open] + (s + [close]);
    forall d: nat | d > 0 ensures After(Out(d), text) == Out(d) {
      Opens(open, s + [close], d);
      Closes(d, s, close);
    }
    forall d: nat ensures Inverted(After(In(d), text)) {
      Opens(open, s + [close], d);
      ClosesInside(d, s, close);
    }
  }

  // ---------- values ----------

  /** The items without the closing bracket. */
  function ItemsText(items: seq<Json>): string {
    if items == [] then "" else "," + (Print(items[0]) + ItemsText(items[1..]))
  }

  function FieldsText(fields: seq<Field>): string {
    if fields == [] then "" else "," + (PrintField(fields[0]) + FieldsText(fields[1..]))
  }

  lemma {:induction false} ItemsTextIs(items: seq<Json>)
    ensures PrintItems(items) == ItemsText(items) + "]"
  {
    if items != [] {
      ItemsTextIs(items[1..]);
      Assoc(",", Print(items[0]), ItemsText(items[1..]) + "]");
      Assoc(Print(items[0]), ItemsText(items[1..]), "]");
      Assoc(",", Print(items[0]) + ItemsText(items[1..]), "]");
    }
  }

  lemma {:induction false} FieldsTextIs(fields: seq<Field>)
    ensures PrintFields(fields) == FieldsText(fields) + "}"
  {
    if fields != [] {
      var k, v, more := TomlString(fields[0].key), Print(fields[0].value), FieldsText(fields[1..]);
      FieldsTextIs(fields[1..]);
      FieldText(",", k, v, more + "}");
      Assoc(PrintField(fields[0]), more, "}");
      Assoc(",", PrintField(fields[0]) + more, "}");
    }
  }

  /** The inside of an array. */
  function ArrayInside(items: seq<Json>): string {
    if items == [] then "" else Print(items[0]) + ItemsText(items[1..])
  }

  function ObjectInside(fields: seq<Field>): string {
    if fields == [] then "" else PrintField(fields[0]) + FieldsText(fields[1..])
  }

  lemma ArrayText(items: seq<Json>)
    ensures Print(JArr(items)) == "[" + (ArrayInside(items) + "]")
  {
    if items == [] {
      assert "" + "]" == "]" && "[" + "]" == "[]";
    } else {
      ItemsTextIs(items[1..]);
      Assoc(Print(items[0]), ItemsText(items[1..]), "]");
      Assoc("[", Print(items[0]), ItemsText(items[1..]) + "]");
    }
  }

  lemma ObjectText(fields: seq<Field>)
    ensures Print(JObj(fields)) == "{" + (ObjectInside(fields) + "}")
  {
    if fields == [] {
      assert "" + "}" == "}" && "{" + "}" == "{}";
    } else {
      FieldsTextIs(fields[1..]);
      FieldText("{", TomlString(fields[0].key), Print(fields[0].value), FieldsText(fields[1..]) + "}");
      Assoc(PrintField(fields[0]), FieldsText(fields[1..]), "}");
    }
  }

  lemma {:induction false} PrintBalanced(u: Json)
    ensures Balanced(Print(u))
  {
    match u
    case JNum(text) => NumberBalanced(text);
    case JStr(s) => StringBalanced(s);
    case JArr(items) =>
      ArrayBalanced(items);
      ArrayText(items);
      Bracketed('[', ArrayInside(items), ']');
    case JObj(fields) =>
      ObjectBalanced(fields);
      ObjectText(fields);
      Bracketed('{', ObjectInside(fields), '}');
    case _ => DullBalanced(Print(u));
  }

  lemma NumberBalanced(text: NumberText)
    ensures Balanced(text)
  {
    assert forall k :: 0 <= k < |text| ==> IsNumberChar(text[k]);
    DullBalanced(text);
  }

  lemma {:induction false} ArrayBalanced(items: seq<Json>)
    ensures Balanced(ArrayInside(items))
    decreases items, 1
  {
    DullBalanced("");
    if items != [] {
      PrintBalanced(items[0]);
      ItemsBalanced(items[1..]);
      BalancedAppend(Print(items[0]), ItemsText(items[1..]));
    }
  }

  lemma {:induction false} ItemsBalanced(items: seq<Json>)
    ensures Balanced(ItemsText(items))
    decreases items, 0
  {
    DullBalanced("");
    DullBalanced(",");
    if items != [] {
      PrintBalanced(items[0]);
      ItemsBalanced(items[1..]);
      BalancedAppend(Print(items[0]), ItemsText(items[1..]));
      BalancedAppend(",", Print(items[0]) + ItemsText(items[1..]));
    }
  }

  lemma {:induction false} ObjectBalanced(fields: seq<Field>)
    ensures Balanced(ObjectInside(fields))
    decreases fields, 1
  {
    DullBalanced("");
    if fields != [] {
      FieldBalanced(fields[0]);
      FieldsBalanced(fields[1..]);
      BalancedAppend(PrintField(fields[0]), FieldsText(fields[1..]));
    }
  }

  lemma {:induction false} FieldsBalanced(fields: seq<Field>)
    ensures Balanced(FieldsText(fields))
    decreases fields, 0
  {
    DullBalanced("");
    DullBalanced(",");
    if fields != [] {
      FieldBalanced(fields[0]);
      FieldsBalanced(fields[1..]);
      BalancedAppend(PrintField(fields[0]), FieldsText(fields[1..]));
      BalancedAppend(",", PrintField(fields[0]) + FieldsText(fields[1..]));
    }
  }

  lemma {:induction false} FieldBalanced(f: Field)
    ensures Balanced(PrintField(f))
    decreases f, 0
  {
    StringBalanced(f.key);
    DullBalanced(":");
    PrintBalanced(f.value);
    BalancedAppend(TomlString(f.key), ":");
    BalancedAppend(TomlString(f.key) + ":", Print(f.value));
  }

  // ---------- the last array of a text ----------

  /** No array text ends in a colon and another array text. */
  lemma NoArrayInside(a: seq<Json>, u: string, b: seq<Json>)
    ensures Print(JArr(a)) != u + (":" + Print(JArr(b)))
  {
    var x, y := Print(JArr(a)), Print(JArr(b));
    ArrayText(a);
    if x == u + (":" + y) {
      assert x[0] == '[' && (u + (":" + y))[|u|] == ':';
      assert u != "" ==> u[0] == '[' && u == "[" + u[1..];
      var front := u[1..] + ":";
      Assoc("[", u[1..], ":" + y);
      Assoc(u[1..], ":", y);
      Cancel("[", ArrayInside(a) + "]", front + y);
      ScansDiffer(a, u[1..], b);
      assert false;
    }
  }

  lemma ScansDiffer(a: seq<Json>, v: string, b: seq<Json>)
    ensures ArrayInside(a) + "]" != v + ":" + Print(JArr(b))
  {
    ArrayBalanced(a);
    Closes(0, ArrayInside(a), ']');
    ColonThenArray(v, b);
  }

  lemma ColonThenArray(v: string, b: seq<Json>)
    ensures After(Out(1), v + ":" + Print(JArr(b))) != Out(0)
  {
    var st := After(Out(1), v);
    PrintBalanced(JArr(b));
    AfterAppend(Out(1), v + ":", Print(JArr(b)));
    AfterAppend(Out(1), v, ":");
    AfterOne(st, ':');
    NotClosedBy(Next(st, ':'), Print(JArr(b)), b);
  }

  /** Scanning an array text after a colon never leads to the end of another one. */
  lemma NotClosedBy(st: Scan, y: string, b: seq<Json>)
    requires Balanced(y) && y == Print(JArr(b)) && !st.Esc?
    ensures After(st, y) != Out(0)
  {
    match st
    case Fail => AfterFail(y);
    case In(d) => assert Inverted(After(In(d), y));
    case Out(d) =>
      if d == 0 {
        ArrayText(b);
        assert y == [y[0]] + y[1..];
        AfterAppend(Out(0), [y[0]], y[1..]);
        AfterOne(Out(0), y[0]);
        AfterFail(y[1..]);
      }
  }

  /** What follows the last colon before an array text is determined. */
  lemma LastArray(p: string, a: seq<Json>, q: string, b: seq<Json>)
    requires p + (":" + Print(JArr(a))) == q + (":" + Print(JArr(b)))
    ensures p == q && a == b
  {
    NotShorter(p, a, q, b);
    NotShorter(q, b, p, a);
    var x, y := Print(JArr(a)), Print(JArr(b));
    assert p == (p + (":" + x))[..|p|] && q == (q + (":" + y))[..|q|];
    Cancel(p, ":" + x, ":" + y);
    Cancel(":", x, y);
    assert x + "" == y + "";
    PrintInjective(JArr(a), JArr(b), "", "");
  }

  lemma NotShorter(p: string, a: seq<Json>, q: string, b: seq<Json>)
    requires p + (":" + Print(JArr(a))) == q + (":" + Print(JArr(b)))
    ensures |p| >= |q|
  {
    if |p| < |q| {
      var x, y := Print(JArr(a)), Print(JArr(b));
      var all := p + (":" + x);
      var rest := q[|p|..];
      assert all[..|q|] == q && q == p + rest;
      Assoc(p, rest, ":" + y);
      Cancel(p, ":" + x, rest + (":" + y));
      ColonFirst(x, rest, ":" + y);
      NoArrayInside(a, rest[1..], b);
      assert false;
    }
  }

  lemma ColonFirst(x: string, rest: string, tail: string)
    requires ":" + x == rest + tail && rest != ""
    ensures x == rest[1..] + tail
  {
    assert (":" + x)[1..] == x && (rest + tail)[1..] == rest[1..] + tail;
  }

  // ---------- main results ----------

  lemma PreimageParts(c: string, r: string, content: seq<Json>)
    ensures Preimage(c, r, content) == (c + ":" + r) + (":" + Print(JArr(SortItems(content))))
  {
    Assoc(c + ":" + r, ":", Canonical(JArr(content)));
  }

  /** The hashed text always determines the content, and conversation and role together: two messages share it exactly
      when their contents differ at most in the order of keys and conversation, colon and role read the same. */
  lemma PreimageIff(c: string, r: string, a: seq<Json>, d: string, s: string, b: seq<Json>)
    requires Wf(JArr(a)) && Wf(JArr(b))
    ensures Preimage(c, r, a) == Preimage(d, s, b) <==>
            c + ":" + r == d + ":" + s && Meaning(JArr(a)) == Meaning(JArr(b))
  {
    CanonicalIff(JArr(a), JArr(b));
    PreimageParts(c, r, a);
    PreimageParts(d, s, b);
    if Preimage(c, r, a) == Preimage(d, s, b) {
      LastArray(c + ":" + r, SortItems(a), d + ":" + s, SortItems(b));
    }
  }

  /** The hashed text of an empty message is never that of a message with content, whatever the conversations and roles:
      only a collision of the hash can give them one id. */
  lemma EmptyApart(c: string, r: string, d: string, s: string, content: seq<Json>)
    requires content != []
    ensures Preimage(c, r, []) != Preimage(d, s, content)
  {
    PreimageParts(c, r, []);
    PreimageParts(d, s, content);
    if Preimage(c, r, []) == Preimage(d, s, content) {
      LastArray(c + ":" + r, SortItems([]), d + ":" + s, SortItems(content));
      assert false;
    }
  }

  /** Another pair of names that makes the same text before the content. */
  predicate Confuses(c: string, r: string, d: string, s: string) {
    (d != c || s != r) && c + ":" + r == d + ":" + s
  }

  /** Splitting the text at a colon, other than the one between the names. */
  lemma OtherSplit(c: string, r: string, p: nat) returns (d: string, s: string)
    requires var t := c + ":" + r; p < |t| && p != |c| && t[p] == ':'
    ensures Confuses(c, r, d, s) && |d| == p && |s| == |c + ":" + r| - 1 - p
  {
    var t := c + ":" + r;
    d, s := t[..p], t[p + 1..];
    assert t == d + ":" + s;
  }

  lemma SameSplit(c: string, r: string, d: string, s: string)
    requires c + ":" + r == d + ":" + s && |c| == |d|
    ensures c == d && r == s
  {
    assert c == (c + ":" + r)[..|c|] && d == (d + ":" + s)[..|d|];
    Cancel(c + ":", r, s);
  }

  /** Confused names split the text at another colon. */
  lemma SplitHasColon(c: string, r: string, d: string, s: string)
    requires Confuses(c, r, d, s)
    ensures |d| < |c| ==> c[|d|] == ':'
    ensures |d| >= |c| ==> |c| < |d| <= |c| + |r| && r[|d| - |c| - 1] == ':'
    ensures |c| + |r| == |d| + |s|
  {
    var t, u, p := c + ":" + r, d + ":" + s, |d|;
    assert |t| == |u|;
    if p == |c| { SameSplit(c, r, d, s); }
    assert u[p] == ':' && t[p] == ':';
    if p < |c| { assert c[p] == t[p]; } else { assert r[p - |c| - 1] == t[p]; }
  }

  lemma ConfusedIff(c: string, r: string)
    ensures (exists d, s :: Confuses(c, r, d, s)) <==> ':' in c || ':' in r
  {
    var t := c + ":" + r;
    if ':' in c {
      var k :| 0 <= k < |c| && c[k] == ':';
      assert t[k] == c[k];
      var d, s := OtherSplit(c, r, k);
    } else if ':' in r {
      var k :| 0 <= k < |r| && r[k] == ':';
      assert t[|c| + 1 + k] == r[k];
      var d, s := OtherSplit(c, r, |c| + 1 + k);
    } else if d, s :| Confuses(c, r, d, s) {
      SplitHasColon(c, r, d, s);
    }
  }

  /** The same among names that messages have: none is empty. */
  lemma ConfusedInUseIff(c: string, r: string)
    requires c != "" && r != ""
    ensures (exists d, s :: Confuses(c, r, d, s) && d != "" && s != "") <==> ':' in c[1..] || ':' in r[..|r| - 1]
  {
    var t := c + ":" + r;
    if ':' in c[1..] {
      var k :| 0 <= k < |c[1..]| && c[1..][k] == ':';
      assert t[k + 1] == c[k + 1];
      var d, s := OtherSplit(c, r, k + 1);
    } else if ':' in r[..|r| - 1] {
      var k :| 0 <= k < |r| - 1 && r[..|r| - 1][k] == ':';
      assert t[|c| + 1 + k] == r[k];
      var d, s := OtherSplit(c, r, |c| + 1 + k);
    } else if d, s :| Confuses(c, r, d, s) && d != "" && s != "" {
      SplitInUse(c, r, d, s);
    }
  }

  lemma SplitInUse(c: string, r: string, d: string, s: string)
    requires Confuses(c, r, d, s) && c != "" && r != "" && d != "" && s != ""
    ensures ':' in c[1..] || ':' in r[..|r| - 1]
  {
    SplitHasColon(c, r, d, s);
    if |d| < |c| { assert c[1..][|d| - 1] == ':'; } else { assert r[..|r| - 1][|d| - |c| - 1] == ':'; }
  }

  /** Another conversation and role, with the same hashed text. */
  predicate Shares(c: string, r: string, d: string, s: string, content: seq<Json>) {
    (d != c || s != r) && Preimage(c, r, content) == Preimage(d, s, content)
  }

  /** The names of a message leave room for another conversation and role with the same hashed text exactly when one of
      them holds a colon, whatever the content; among names that messages have, exactly when a colon in one of them
      leaves something on both sides. */
  lemma ColonIff(c: string, r: string, content: seq<Json>)
    requires Wf(JArr(content))
    ensures (exists d, s :: Shares(c, r, d, s, content)) <==> ':' in c || ':' in r
    ensures c != "" && r != "" ==>
              ((exists d, s :: Shares(c, r, d, s, content) && d != "" && s != "") <==>
               ':' in c[1..] || ':' in r[..|r| - 1])
  {
    ConfusedIff(c, r);
    forall d, s ensures Shares(c, r, d, s, content) <==> Confuses(c, r, d, s) {
      PreimageIff(c, r, content, d, s, content);
    }
    if c != "" && r != "" { ConfusedInUseIff(c, r); }
  }

  /** Two messages with one hashed text, and so one id under every hash. */
  lemma ColonCollision(x: seq<Json>)
    ensures Preimage("a", "b:c", x) == Preimage("a:b", "c", x)
  {
    assert "a" + ":" + "b:c" + ":" == "a:b" + ":" + "c" + ":";
  }
}
