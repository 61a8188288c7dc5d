/** Which of two package versions is newer, after src/update.js, against section 11 of Semantic Versioning 2.0.0. */
module Version {
  import opened Wrappers
  import opened Text
  import opened CanonicalJson

  datatype Parsed = Parsed(major: nat, minor: nat, patch: nat, prerelease: string)

  function DigitsPrefix(s: string): (d: string)
    ensures d <= s && AllDigits(d) && (|d| < |s| ==> !('0' <= s[|d|] <= '9'))
  {
    if s != "" && '0' <= s[0] <= '9' then [s[0]] + DigitsPrefix(s[1..]) else ""
  }

  predicate IsPrereleaseChar(c: char) {
    '0' <= c <= '9' || 'A' <= c <= 'Z' || 'a' <= c <= 'z' || c == '.' || c == '-'
  }

  predicate IsPrerelease(s: string) {
    s != "" && forall k :: 0 <= k < |s| ==> IsPrereleaseChar(s[k])
  }

  datatype Number = Number(value: nat, rest: string)

  /** `(\d+)` at the front. */
  function ReadNumber(s: string): Option<Number> {
    var d := DigitsPrefix(s);
    if d == "" then None else Some(Number(Decimal(d), s[|d|..]))
  }

  function AfterDot(s: string): Option<Number> {
    if s != "" && s[0] == '.' then ReadNumber(s[1..]) else None
  }

  function ParseVersion(value: string): Option<Parsed> {
    var a := ReadNumber(value);
    if a.None? then None
    else
      var b := AfterDot(a.value.rest);
      if b.None? then None
      else
        var c := AfterDot(b.value.rest);
        if c.None? then None
        else
          var tail := c.value.rest;
          if tail == "" then Some(Parsed(a.value.value, b.value.value, c.value.value, ""))
          else if tail[0] == '-' && IsPrerelease(tail[1..])
            then Some(Parsed(a.value.value, b.value.value, c.value.value, tail[1..]))
          else None
  }

  // ---------- precedence, section 11 of Semantic Versioning 2.0.0 ----------

  /** An identifier as it is compared: by number when all digits, else by text. */
  datatype Identifier = Numeric(n: nat) | Alphanumeric(s: string)

  function IdentifierOf(s: string): Identifier {
    if s != "" && AllDigits(s) then Numeric(Decimal(s)) else Alphanumeric(s)
  }

  function Identifiers(prerelease: string): seq<Identifier> {
    var parts := SplitChar(prerelease, '.');
    seq(|parts|, k requires 0 <= k < |parts| => IdentifierOf(parts[k]))
  }

  /** 11.4.1 to 11.4.3 */
  predicate IdentifierLess(a: Identifier, b: Identifier) {
    match (a, b)
    case (Numeric(m), Numeric(n)) => m < n
    case (Numeric(_), Alphanumeric(_)) => true
    case (Alphanumeric(_), Numeric(_)) => false
    case (Alphanumeric(s), Alphanumeric(t)) => Before(s, t)
  }

  /** 11.4.4: `k` is the first place where the lists differ, and there `a` is lower or ends. */
  predicate LowerAt(a: seq<Identifier>, b: seq<Identifier>, k: int) {
    && 0 <= k < |b| && k <= |a| && a[..k] == b[..k]
    && (k == |a| || IdentifierLess(a[k], b[k]))
  }

  predicate Lower(a: seq<Identifier>, b: seq<Identifier>) {
    exists k :: 0 <= k < |b| && LowerAt(a, b, k)
  }

  /** 11.2 and 11.3 */
  predicate Precedes(a: Parsed, b: Parsed) {
    if a.major != b.major then a.major < b.major
    else if a.minor != b.minor then a.minor < b.minor
    else if a.patch != b.patch then a.patch < b.patch
    else if b.prerelease == "" then a.prerelease != ""
    else a.prerelease != "" && Lower(Identifiers(a.prerelease), Identifiers(b.prerelease))
  }

  predicate Newer(candidate: string, current: string) {
    ParseVersion(candidate).Some? && ParseVersion(current).Some? &&
      Precedes(ParseVersion(current).value, ParseVersion(candidate).value)
  }

  // ---------- the imperative form ----------

  method ComparePrerelease(a: string, b: string) returns (r: int)
    ensures r < 0 <==> Lower(Identifiers(a), Identifiers(b))
    ensures r > 0 <==> Lower(Identifiers(b), Identifiers(a))
  {
    var aa, bb := SplitChar(a, '.'), SplitChar(b, '.');
    ghost var x, y := Identifiers(a), Identifiers(b);
    var len := if |aa| > |bb| then |aa| else |bb|;
    for i := 0 to len
      invariant i <= |aa| && i <= |bb|
      invariant x[..i] == y[..i]
    {
      if i == |aa| {
        Decides(x, y, i);
        return -1;
      }
      if i == |bb| {
        Decides(y, x, i);
        return 1;
      }
      r := CompareIdentifiers(aa[i], bb[i]);
      if r != 0 {
        if r < 0 { Decides(x, y, i); } else { Decides(y, x, i); }
        return;
      }
    }
    assert x == x[..|aa|] && y == y[..|bb|];
    SameIsNotLower(x);
    return 0;
  }

  method CompareIdentifiers(av: string, bv: string) returns (r: int)
    ensures r < 0 <==> IdentifierLess(IdentifierOf(av), IdentifierOf(bv))
    ensures r > 0 <==> IdentifierLess(IdentifierOf(bv), IdentifierOf(av))
    ensures r == 0 <==> IdentifierOf(av) == IdentifierOf(bv)
  {
    BeforeTotal(av, bv);
    BeforeAsymmetric(av, bv);
    var an: Option<int> := if av != "" && AllDigits(av) then Some(Decimal(av)) else None;
    var bn: Option<int> := if bv != "" && AllDigits(bv) then Some(Decimal(bv)) else None;
    if an.Some? && bn.Some? { return an.value - bn.value; }
    if an.Some? { return -1; }
    if bn.Some? { return 1; }
    if av != bv { return if Before(av, bv) then -1 else 1; }
    return 0;
  }

  method IsNewerVersion(candidate: string, current: string) returns (newer: bool)
    ensures newer == Newer(candidate, current)
  {
    var next, base := ParseVersion(candidate), ParseVersion(current);
    if next.None? || base.None? { return false; }
    for k := 0 to 3
      invariant forall j :: 0 <= j < k ==> Part(next.value, j) == Part(base.value, j)
    {
      if Part(next.value, k) > Part(base.value, k) {
        PartDecides(base.value, next.value, k);
        return true;
      }
      if Part(next.value, k) < Part(base.value, k) {
        PartDecides(next.value, base.value, k);
        return false;
      }
    }
    PartsEqual(base.value, next.value);
    if next.value.prerelease == base.value.prerelease {
      SameIsNotLower(Identifiers(base.value.prerelease));
      return false;
    }
    if next.value.prerelease == "" { return base.value.prerelease != ""; }
    if base.value.prerelease == "" { return false; }
    var r := ComparePrerelease(next.value.prerelease, base.value.prerelease);
    return r > 0;
  }

  /** The three numbers by position. */
  function Part(v: Parsed, k: int): nat {
    if k == 0 then v.major else if k == 1 then v.minor else v.patch
  }

  lemma PartDecides(a: Parsed, b: Parsed, k: int)
    requires 0 <= k < 3 && Part(a, k) < Part(b, k) && forall j :: 0 <= j < k ==> Part(a, j) == Part(b, j)
    ensures Precedes(a, b) && !Precedes(b, a)
  {
    assert k > 0 ==> Part(a, 0) == Part(b, 0);
    assert k > 1 ==> Part(a, 1) == Part(b, 1);
  }

  lemma PartsEqual(a: Parsed, b: Parsed)
    requires forall j :: 0 <= j < 3 ==> Part(a, j) == Part(b, j)
    ensures a.major == b.major && a.minor == b.minor && a.patch == b.patch
  {
    assert Part(a, 0) == Part(b, 0) && Part(a, 1) == Part(b, 1) && Part(a, 2) == Part(b, 2);
  }

  // ---------- the order of identifiers ----------

  lemma IdentifiersOrdered(a: Identifier, b: Identifier)
    ensures !(IdentifierLess(a, b) && IdentifierLess(b, a)) && !IdentifierLess(a, a)
    ensures a == b || IdentifierLess(a, b) || IdentifierLess(b, a)
  {
    if a.Alphanumeric? { BeforeAsymmetric(a.s, a.s); }
    if a.Alphanumeric? && b.Alphanumeric? {
      BeforeTotal(a.s, b.s);
      BeforeAsymmetric(a.s, b.s);
    }
  }

  lemma IdentifiersTransitive(a: Identifier, b: Identifier, c: Identifier)
    requires IdentifierLess(a, b) && IdentifierLess(b, c)
    ensures IdentifierLess(a, c)
  {
    if a.Alphanumeric? && b.Alphanumeric? && c.Alphanumeric? { BeforeTransitive(a.s, b.s, c.s); }
  }

  lemma SameIsNotLower(a: seq<Identifier>)
    ensures !Lower(a, a)
  {
    forall k | 0 <= k < |a| ensures !LowerAt(a, a, k) {
      IdentifiersOrdered(a[k], a[k]);
    }
  }

  /** A first difference decides for one side only. */
  lemma Decides(a: seq<Identifier>, b: seq<Identifier>, k: nat)
    requires LowerAt(a, b, k)
    ensures Lower(a, b) && !Lower(b, a)
  {
    forall j | 0 <= j < |a| ensures !LowerAt(b, a, j) {
      if j < k {
        assert a[..k][j] == b[..k][j];
        IdentifiersOrdered(a[j], a[j]);
      } else if j == k {
        IdentifiersOrdered(a[k], b[k]);
      } else {
        assert a[..j][k] == a[k] && (j <= |b| ==> b[..j][k] == b[k]);
        IdentifiersOrdered(a[k], a[k]);
      }
    }
  }

  lemma {:induction false} FirstDifference(a: seq<Identifier>, b: seq<Identifier>, from: nat) returns (k: nat)
    requires from <= |a| && from <= |b| && a[..from] == b[..from] && a != b
    ensures k <= |a| && k <= |b| && a[..k] == b[..k] && (k < |a| || k < |b|) && (k < |a| && k < |b| ==> a[k] != b[k])
    decreases |a| - from
  {
    if from < |a| && from < |b| && a[from] == b[from] {
      assert a[..from + 1] == a[..from] + [a[from]] && b[..from + 1] == b[..from] + [b[from]];
      k := FirstDifference(a, b, from + 1);
    } else {
      k := from;
      assert a == a[..|a|] && b == b[..|b|];
    }
  }

  lemma LowerTotal(a: seq<Identifier>, b: seq<Identifier>)
    ensures a == b || Lower(a, b) || Lower(b, a)
    ensures !(Lower(a, b) && Lower(b, a))
  {
    if a == b {
      SameIsNotLower(a);
    } else {
      var k := FirstDifference(a, b, 0);
      if k < |a| && k < |b| { IdentifiersOrdered(a[k], b[k]); }
      if k == |a| || (k < |b| && IdentifierLess(a[k], b[k])) { Decides(a, b, k); } else { Decides(b, a, k); }
    }
  }

  lemma LowerTransitive(a: seq<Identifier>, b: seq<Identifier>, c: seq<Identifier>)
    requires Lower(a, b) && Lower(b, c)
    ensures Lower(a, c)
  {
    var j :| 0 <= j < |b| && LowerAt(a, b, j);
    var k :| 0 <= k < |c| && LowerAt(b, c, k);
    var m := if j < k then j else k;
    assert a[..m] == b[..j][..m] && b[..m] == b[..k][..m] && c[..m] == c[..k][..m] && b[..j][..m] == b[..m];
    if j < k {
      assert b[j] == b[..k][j] && c[j] == c[..k][j];
    } else if k < j {
      assert a[k] == a[..j][k] && b[k] == b[..j][k];
    } else if j < |a| {
      IdentifiersTransitive(a[j], b[j], c[j]);
    }
    assert LowerAt(a, c, m);
  }

  // ---------- main results ----------

  lemma PrecedesTransitive(a: Parsed, b: Parsed, c: Parsed)
    requires Precedes(a, b) && Precedes(b, c)
    ensures Precedes(a, c)
  {
    if a.prerelease != "" && b.prerelease != "" && c.prerelease != "" &&
      Lower(Identifiers(a.prerelease), Identifiers(b.prerelease))
      && Lower(Identifiers(b.prerelease), Identifiers(c.prerelease))
    {
      LowerTransitive(Identifiers(a.prerelease), Identifiers(b.prerelease), Identifiers(c.prerelease));
    }
  }

  /** Versions of equal precedence: same numbers, and identifiers that compare as equal. */
  predicate SameRank(a: Parsed, b: Parsed) {
    && a.major == b.major && a.minor == b.minor && a.patch == b.patch && (a.prerelease == "" <==> b.prerelease == "")
    && Identifiers(a.prerelease) == Identifiers(b.prerelease)
  }

  /** Exactly one holds: lower, higher, or of the same rank. */
  lemma Trichotomy(a: Parsed, b: Parsed)
    ensures !(Precedes(a, b) && Precedes(b, a))
    ensures SameRank(a, b) <==> !Precedes(a, b) && !Precedes(b, a)
  {
    LowerTotal(Identifiers(a.prerelease), Identifiers(b.prerelease));
  }

  /** On all strings the comparison is a strict order; on parseable ones, incomparability is transitive as well. */
  lemma StrictWeakOrder(a: string, b: string, c: string)
    ensures !Newer(a, a) && !(Newer(a, b) && Newer(b, a)) && (Newer(a, b) && Newer(b, c) ==> Newer(a, c))
    ensures ParseVersion(b).Some? && !Newer(a, b) && !Newer(b, a) && !Newer(b, c) && !Newer(c, b) ==>
      !Newer(a, c) && !Newer(c, a)
  {
    var x, y, z := ParseVersion(a), ParseVersion(b), ParseVersion(c);
    if x.Some? { Trichotomy(x.value, x.value); }
    if x.Some? && y.Some? { Trichotomy(x.value, y.value); }
    if y.Some? && z.Some? { Trichotomy(y.value, z.value); }
    if x.Some? && z.Some? { Trichotomy(x.value, z.value); }
    if Newer(a, b) && Newer(b, c) { PrecedesTransitive(z.value, y.value, x.value); }
  }

  lemma {:induction false} DigitsThen(d: string, s: string)
    requires AllDigits(d) && (s == "" || !('0' <= s[0] <= '9'))
    ensures DigitsPrefix(d + s) == d
  {
    if d == "" {
      assert d + s == s;
    } else {
      assert (d + s)[1..] == d[1..] + s && (d + s)[0] == d[0];
      DigitsThen(d[1..], s);
      assert d == [d[0]] + d[1..];
    }
  }

  lemma ReadDigits(d: string, s: string)
    requires d != "" && AllDigits(d) && (s == "" || !('0' <= s[0] <= '9'))
    ensures ReadNumber(d + s) == Some(Number(Decimal(d), s))
  {
    DigitsThen(d, s);
    assert (d + s)[|d|..] == s;
  }

  // ---------- writing versions ----------

  function Write(v: Parsed): string {
    Digits(v.major) + ("." + (Digits(v.minor) +
      ("." + (Digits(v.patch) + if v.prerelease == "" then "" else "-" + v.prerelease))))
  }

  lemma AfterDotReads(d: string, s: string)
    requires d != "" && AllDigits(d) && (s == "" || !('0' <= s[0] <= '9'))
    ensures AfterDot("." + (d + s)) == Some(Number(Decimal(d), s))
  {
    ReadDigits(d, s);
    assert ("." + (d + s))[1..] == d + s;
  }

  lemma ParseFrom(value: string, a: Number, b: Number, c: Number, pre: string)
    requires ReadNumber(value) == Some(a) && AfterDot(a.rest) == Some(b) && AfterDot(b.rest) == Some(c)
    requires c.rest == (if pre == "" then "" else "-" + pre) && (pre == "" || IsPrerelease(pre))
    ensures ParseVersion(value) == Some(Parsed(a.value, b.value, c.value, pre))
  {
    assert pre != "" ==> c.rest[1..] == pre;
  }

  /** Parsing what is written gives the version back. */
  lemma WriteThenParse(v: Parsed)
    requires v.prerelease == "" || IsPrerelease(v.prerelease)
    ensures ParseVersion(Write(v)) == Some(v)
  {
    var tail := if v.prerelease == "" then "" else "-" + v.prerelease;
    var c := "." + (Digits(v.patch) + tail);
    var b := "." + (Digits(v.minor) + c);
    DigitsRead(v.major);
    DigitsRead(v.minor);
    DigitsRead(v.patch);
    ReadDigits(Digits(v.major), b);
    AfterDotReads(Digits(v.minor), c);
    AfterDotReads(Digits(v.patch), tail);
    ParseFrom(Write(v), Number(v.major, b), Number(v.minor, c), Number(v.patch, tail), v.prerelease);
  }

  /** An unparseable version is comparable to nothing, so for other strings incomparability is not transitive. */
  lemma UnparseableBridges()
    ensures var one, two := Write(Parsed(1, 0, 0, "")), Write(Parsed(2, 0, 0, ""));
            !Newer(one, "x") && !Newer("x", one) && !Newer("x", two) && !Newer(two, "x") && Newer(two, one)
  {
    WriteThenParse(Parsed(1, 0, 0, ""));
    WriteThenParse(Parsed(2, 0, 0, ""));
    assert DigitsPrefix("x") == "";
    assert ParseVersion("x").None?;
  }
}
