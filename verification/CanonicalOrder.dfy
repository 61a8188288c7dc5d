/** In which order canonical JSON writes the keys of an object. */
module CanonicalOrder {
  import opened Text
  import opened CanonicalJson
  import opened CanonicalTheorems

  /** The UTF-16 code units of a character. */
  function CodeUnits(c: char): seq<nat> {
    var n := c as int;
    if n < 0x10000 then [n] else [0xD800 + (n - 0x10000) / 0x400, 0xDC00 + (n - 0x10000) % 0x400]
  }

  predicate SmallerUnits(c: char, d: char) {
    var x, y := CodeUnits(c), CodeUnits(d);
    x[0] < y[0] || (x[0] == y[0] && |x| == 2 && |y| == 2 && x[1] < y[1])
  }

  lemma RankIsUnits(c: char, d: char)
    ensures Rank(c) < Rank(d) <==> SmallerUnits(c, d)
  {
  }

  /** At the first difference `a` ends, or has the smaller code units. */
  predicate DiffersAt(a: string, b: string, k: int) {
    0 <= k <= |a| && k < |b| && a[..k] == b[..k] && (k == |a| || SmallerUnits(a[k], b[k]))
  }

  predicate UnitsBefore(a: string, b: string) {
    exists k :: 0 <= k <= |a| && DiffersAt(a, b, k)
  }

  lemma {:induction false} BeforeIff(a: string, b: string)
    ensures Before(a, b) <==> UnitsBefore(a, b)
  {
    if a == "" || b == "" {
      assert b != "" ==> DiffersAt(a, b, 0);
    } else {
      RankIsUnits(a[0], b[0]);
      if Rank(a[0]) < Rank(b[0]) {
        assert DiffersAt(a, b, 0);
      } else {
        if a[0] == b[0] { BeforeIff(a[1..], b[1..]); }
        LaterBefore(a, b);
      }
    }
  }

  /** Unless they differ at once, what follows decides. */
  lemma LaterBefore(a: string, b: string)
    requires a != "" && b != "" && !SmallerUnits(a[0], b[0])
    ensures UnitsBefore(a, b) <==> a[0] == b[0] && UnitsBefore(a[1..], b[1..])
  {
    if k :| 0 <= k <= |a| && DiffersAt(a, b, k) {
      assert k > 0;
      assert a[0] == a[..k][0] == b[..k][0] == b[0];
      LaterDifference(a, b, k);
    }
    if a[0] == b[0] && UnitsBefore(a[1..], b[1..]) {
      var k :| 0 <= k <= |a[1..]| && DiffersAt(a[1..], b[1..], k);
      LaterDifference(a, b, k + 1);
    }
  }

  lemma LaterDifference(a: string, b: string, k: nat)
    requires 0 < k <= |a| && b != "" && a[0] == b[0]
    ensures DiffersAt(a, b, k) <==> DiffersAt(a[1..], b[1..], k - 1)
  {
    if k < |b| {
      assert a[..k] == [a[0]] + a[1..][..k - 1] && b[..k] == [b[0]] + b[1..][..k - 1];
    }
  }

  /** Array indices first, by value; then the other keys, by code units. */
  predicate KeyBefore(a: string, b: string) {
    if IsIndex(a) && IsIndex(b) then Decimal(a) < Decimal(b)
    else if IsIndex(a) || IsIndex(b) then IsIndex(a)
    else UnitsBefore(a, b)
  }

  predicate InOrder(fields: seq<Field>) {
    forall i, j :: 0 <= i < j < |fields| ==> KeyBefore(fields[i].key, fields[j].key)
  }

  // ---------- indices ----------

  lemma {:induction false} DecimalGrows(s: string)
    requires s != "" && AllDigits(s) && s[0] != '0'
    ensures Decimal(s) > 0 && (|s| > 1 ==> Decimal(s) >= 10)
    decreases |s|
  {
    if |s| > 1 { DecimalGrows(s[..|s| - 1]); } else { assert s[..0] == ""; }
  }

  lemma {:induction false} DecimalInjective(a: string, b: string)
    requires a != "" && b != "" && AllDigits(a) && AllDigits(b) && Decimal(a) == Decimal(b)
    requires (a == "0" || a[0] != '0') && (b == "0" || b[0] != '0')
    ensures a == b
    decreases |a|
  {
    if a[0] != '0' { DecimalGrows(a); }
    if b[0] != '0' { DecimalGrows(b); }
    var p, q := a[..|a| - 1], b[..|b| - 1];
    assert a == p + [a[|a| - 1]] && b == q + [b[|b| - 1]];
    LastDigit(Decimal(p), a[|a| - 1], Decimal(q), b[|b| - 1]);
    if |a| > 1 && |b| > 1 { DecimalInjective(p, q); }
  }

  lemma LastDigit(m: nat, c: char, n: nat, d: char)
    requires '0' <= c <= '9' && '0' <= d <= '9'
    requires 10 * m + (c as int - '0' as int) == 10 * n + (d as int - '0' as int)
    ensures m == n && c == d
  {
  }

  lemma {:induction false} DigitsStart(n: nat)
    ensures Digits(n) == "0" || Digits(n)[0] != '0'
  {
    if n >= 10 { DigitsStart(n / 10); }
  }

  /** Array indices are the decimal numbers below 2^32 - 1. */
  lemma IsIndexIff(key: string)
    ensures IsIndex(key) <==> exists n: nat :: n < 4294967295 && key == Digits(n)
  {
    if IsIndex(key) {
      var n := Decimal(key);
      DigitsRead(n);
      DigitsStart(n);
      DecimalInjective(key, Digits(n));
    }
    if n: nat :| n < 4294967295 && key == Digits(n) {
      DigitsRead(n);
      DigitsStart(n);
    }
  }

  // ---------- building the object ----------

  /** A field put into an ordered object: the others of its kind come before it. */
  lemma {:induction false} PutInOrder(out: seq<Field>, f: Field)
    requires InOrder(out) && forall x :: x in out ==> x.key != f.key
    requires forall x :: x in out && !IsIndex(x.key) && !IsIndex(f.key) ==> UnitsBefore(x.key, f.key)
    ensures InOrder(Put(out, f))
  {
    if f.key == PROTO {
    } else if out == [] || EnumeratedBefore(f.key, out[0].key) {
      ConsInOrder(f, out);
    } else {
      var head, tail := out[0], out[1..];
      assert head in out && out == [head] + tail;
      PutInOrder(tail, f);
      PutMembers(tail, f);
      NotEnumerated(head.key, f.key);
      forall x | x in Put(tail, f) ensures KeyBefore(head.key, x.key) {
        if x in tail {
          var j :| 0 <= j < |tail| && tail[j] == x;
          assert x == out[j + 1];
        }
      }
      ConsFirst(head, Put(tail, f));
    }
  }

  lemma NotEnumerated(a: string, b: string)
    requires a != b && !EnumeratedBefore(b, a) && (!IsIndex(a) && !IsIndex(b) ==> UnitsBefore(a, b))
    ensures KeyBefore(a, b)
  {
    if IsIndex(a) && IsIndex(b) && Decimal(a) == Decimal(b) { DecimalInjective(a, b); }
  }

  lemma ConsFirst(f: Field, fields: seq<Field>)
    requires InOrder(fields) && forall x :: x in fields ==> KeyBefore(f.key, x.key)
    ensures InOrder([f] + fields)
  {
    var all := [f] + fields;
    forall i, j | 0 <= i < j < |all| ensures KeyBefore(all[i].key, all[j].key) {
      assert all[j] == fields[j - 1] && fields[j - 1] in fields;
      assert i > 0 ==> all[i] == fields[i - 1];
    }
  }

  lemma ConsInOrder(f: Field, out: seq<Field>)
    requires InOrder(out) && (out != [] ==> EnumeratedBefore(f.key, out[0].key))
    ensures InOrder([f] + out)
  {
    forall x | x in out ensures KeyBefore(f.key, x.key) {
      var j :| 0 <= j < |out| && out[j] == x;
      assert j > 0 ==> KeyBefore(out[0].key, out[j].key);
    }
    ConsFirst(f, out);
  }

  lemma {:induction false} PutAllInOrder(out: seq<Field>, fields: seq<Field>)
    requires InOrder(out) && Sorted(fields) && forall x, y :: x in out && y in fields ==> Before(x.key, y.key)
    ensures InOrder(PutAll(out, fields))
    decreases |fields|
  {
    if fields != [] {
      var head, tail := fields[0], fields[1..];
      assert fields == [head] + tail && head in fields;
      forall x | x in out ensures UnitsBefore(x.key, head.key) && x.key != head.key {
        BeforeIff(x.key, head.key);
        BeforeAsymmetric(x.key, head.key);
      }
      PutInOrder(out, head);
      PutMembers(out, head);
      forall x, y | x in Put(out, head) && y in tail ensures Before(x.key, y.key) {
        var j :| 0 <= j < |tail| && tail[j] == y;
        assert y == fields[j + 1] && y in fields;
      }
      PutAllInOrder(Put(out, head), tail);
    }
  }

  lemma ObjectOrder(fields: seq<Field>)
    requires Wf(JObj(fields))
    ensures var out := PutAll([], SortFields(SortValues(fields)));
            InOrder(out) && forall f :: f in out ==> f in SortValues(fields)
  {
    SortValuesAt(fields);
    var values := SortValues(fields);
    assert Distinct(values);
    SortSorts(values);
    SortedDistinct(SortFields(values));
    PutAllInOrder([], SortFields(values));
    PutAllFields([], SortFields(values));
  }

  /** Every object inside lists its keys in order. */
  predicate WellOrdered(u: Json) {
    match u
    case JArr(items) => forall i :: 0 <= i < |items| ==> WellOrdered(items[i])
    case JObj(fields) => InOrder(fields) && forall i :: 0 <= i < |fields| ==> WellOrdered(fields[i].value)
    case _ => true
  }

  /** Canonical JSON lists the keys in order, at every depth. */
  lemma {:induction false} CanonicalOrder(u: Json)
    requires Wf(u)
    ensures WellOrdered(SortKeys(u))
    decreases u
  {
    match u
    case JArr(items) => ItemsOrder(items);
    case JObj(fields) =>
      ObjectOrder(fields);
      SortValuesAt(fields);
      var out := SortKeys(u).fields;
      forall i | 0 <= i < |out| ensures WellOrdered(out[i].value) {
        assert out[i] in SortValues(fields);
        var j :| 0 <= j < |fields| && SortValues(fields)[j] == out[i];
        CanonicalOrder(fields[j].value);
      }
    case _ =>
  }

  lemma {:induction false} ItemsOrder(items: seq<Json>)
    requires forall i :: 0 <= i < |items| ==> Wf(items[i])
    ensures forall i :: 0 <= i < |SortItems(items)| ==> WellOrdered(SortItems(items)[i])
    decreases items
  {
    if items != [] {
      CanonicalOrder(items[0]);
      ItemsOrder(items[1..]);
    }
  }
}
