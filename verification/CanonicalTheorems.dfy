/** Canonical JSON tells values apart exactly when they differ by more than the order of keys. */
module CanonicalTheorems {
  import opened Wrappers
  import opened Text
  import opened TomlText
  import opened CanonicalJson
  import opened JsonText

  // ---------- the entries of an object ----------

  lemma {:induction false} EntriesFrom(fields: seq<Field>, k: string) returns (i: nat)
    requires k in Entries(fields)
    ensures i < |fields| && fields[i].key == k && k != PROTO && Entries(fields)[k] == Meaning(fields[i].value)
  {
    if fields[0].key == k && k != PROTO {
      i := 0;
    } else {
      i := EntriesFrom(fields[1..], k);
      i := i + 1;
    }
  }

  lemma {:induction false} EntriesAt(fields: seq<Field>, i: nat)
    requires Distinct(fields) && i < |fields| && fields[i].key != PROTO
    ensures fields[i].key in Entries(fields) && Entries(fields)[fields[i].key] == Meaning(fields[i].value)
  {
    if i > 0 {
      assert fields[0].key != fields[i].key;
      EntriesAt(fields[1..], i - 1);
    }
  }

  /** The fields of `a` that count are fields of `b`. */
  predicate Within(a: seq<Field>, b: seq<Field>) {
    forall i :: 0 <= i < |a| && a[i].key != PROTO ==> a[i] in b
  }

  lemma EntriesWithin(a: seq<Field>, b: seq<Field>)
    requires Distinct(a) && Distinct(b) && Within(a, b)
    ensures forall k :: k in Entries(a) ==> k in Entries(b) && Entries(b)[k] == Entries(a)[k]
  {
    forall k | k in Entries(a) ensures k in Entries(b) && Entries(b)[k] == Entries(a)[k] {
      var i := EntriesFrom(a, k);
      assert a[i] in b;
      var j :| 0 <= j < |b| && b[j] == a[i];
      EntriesAt(b, j);
    }
  }

  // ---------- sorting ----------

  predicate Sorted(fields: seq<Field>) {
    forall i, j :: 0 <= i < j < |fields| ==> Before(fields[i].key, fields[j].key)
  }

  ghost predicate SameMembers(a: seq<Field>, b: seq<Field>) {
    forall f :: f in a <==> f in b
  }

  lemma SortedDistinct(fields: seq<Field>)
    requires Sorted(fields)
    ensures Distinct(fields)
  {
    forall i, j | 0 <= i < j < |fields| ensures fields[i].key != fields[j].key {
      BeforeAsymmetric(fields[i].key, fields[j].key);
    }
  }

  lemma {:induction false} InsertMembers(f: Field, sorted: seq<Field>)
    ensures forall x :: x in Insert(f, sorted) <==> x == f || x in sorted
  {
    if sorted != [] && !Before(f.key, sorted[0].key) {
      InsertMembers(f, sorted[1..]);
      assert sorted == [sorted[0]] + sorted[1..];
    }
  }

  lemma ConsSorted(f: Field, fields: seq<Field>)
    requires Sorted(fields) && forall x :: x in fields ==> Before(f.key, x.key)
    ensures Sorted([f] + fields)
  {
    var all := [f] + fields;
    forall i, j | 0 <= i < j < |all| ensures Before(all[i].key, all[j].key) {
      assert all[j] == fields[j - 1];
      assert fields[j - 1] in fields;
      assert i > 0 ==> all[i] == fields[i - 1];
    }
  }

  lemma {:induction false} InsertSorted(f: Field, sorted: seq<Field>)
    requires Sorted(sorted) && forall x :: x in sorted ==> x.key != f.key
    ensures Sorted(Insert(f, sorted))
  {
    if sorted == [] || Before(f.key, sorted[0].key) {
      forall x | x in sorted ensures Before(f.key, x.key) {
        var i :| 0 <= i < |sorted| && sorted[i] == x;
        if i > 0 { BeforeTransitive(f.key, sorted[0].key, x.key); }
      }
      ConsSorted(f, sorted);
    } else {
      var head, tail := sorted[0], sorted[1..];
      assert head in sorted;
      InsertSorted(f, tail);
      InsertMembers(f, tail);
      BeforeTotal(f.key, head.key);
      forall x | x in Insert(f, tail) ensures Before(head.key, x.key) {
        assert x == f || x in tail;
      }
      ConsSorted(head, Insert(f, tail));
    }
  }

  lemma {:induction false} SortSorts(fields: seq<Field>)
    requires Distinct(fields)
    ensures Sorted(SortFields(fields)) && SameMembers(SortFields(fields), fields)
  {
    if fields != [] {
      var head, tail := fields[0], fields[1..];
      SortSorts(tail);
      InsertMembers(head, SortFields(tail));
      InsertSorted(head, SortFields(tail));
      assert fields == [head] + tail;
    }
  }

  lemma {:induction false} SortedUnique(a: seq<Field>, b: seq<Field>)
    requires Sorted(a) && Sorted(b) && SameMembers(a, b)
    ensures a == b
  {
    assert b != [] ==> b[0] in b;
    if a != [] {
      assert a[0] in a;
      LeastFirst(a, b);
      TailMembers(a, b);
      TailMembers(b, a);
      SortedUnique(a[1..], b[1..]);
      assert a == [a[0]] + a[1..] && b == [b[0]] + b[1..];
    }
  }

  lemma LeastFirst(a: seq<Field>, b: seq<Field>)
    requires Sorted(a) && Sorted(b) && SameMembers(a, b) && a != []
    ensures b != [] && a[0] == b[0]
  {
    assert a[0] in b;
    assert b[0] in a;
    BeforeAsymmetric(a[0].key, b[0].key);
  }

  lemma TailMembers(a: seq<Field>, b: seq<Field>)
    requires Sorted(a) && Sorted(b) && SameMembers(a, b) && a != [] && b != [] && a[0] == b[0]
    ensures forall f :: f in a[1..] ==> f in b[1..]
  {
    SortedDistinct(a);
    forall f | f in a[1..] ensures f in b[1..] {
      assert f in b;
      assert b == [b[0]] + b[1..];
    }
  }

  // ---------- building the object ----------

  /** The fields that assignment keeps. */
  function Real(fields: seq<Field>): seq<Field> {
    if fields == [] then []
    else (if fields[0].key == PROTO then [] else [fields[0]]) + Real(fields[1..])
  }

  lemma {:induction false} RealMembers(fields: seq<Field>)
    ensures forall f :: f in Real(fields) <==> f in fields && f.key != PROTO
  {
    if fields != [] {
      RealMembers(fields[1..]);
      assert fields == [fields[0]] + fields[1..];
    }
  }

  lemma {:induction false} RealSorted(fields: seq<Field>)
    requires Sorted(fields)
    ensures Sorted(Real(fields))
  {
    if fields != [] {
      RealSorted(fields[1..]);
      RealMembers(fields[1..]);
      assert [] + Real(fields[1..]) == Real(fields[1..]);
      if fields[0].key != PROTO { ConsSorted(fields[0], Real(fields[1..])); }
    }
  }

  lemma {:induction false} PutAllReal(out: seq<Field>, fields: seq<Field>)
    ensures PutAll(out, fields) == PutAll(out, Real(fields))
    decreases |fields|
  {
    if fields != [] {
      var more := Real(fields[1..]);
      PutAllReal(Put(out, fields[0]), fields[1..]);
      assert [] + more == more && ([fields[0]] + more)[1..] == more;
    }
  }

  lemma {:induction false} PutMembers(out: seq<Field>, f: Field)
    ensures forall x :: x in Put(out, f) <==> x in out || (x == f && f.key != PROTO)
  {
    if out != [] && f.key != PROTO && !EnumeratedBefore(f.key, out[0].key) {
      PutMembers(out[1..], f);
      assert out == [out[0]] + out[1..];
    }
  }

  lemma ConsDistinct(f: Field, fields: seq<Field>)
    requires Distinct(fields) && forall x :: x in fields ==> x.key != f.key
    ensures Distinct([f] + fields)
  {
    var all := [f] + fields;
    forall i, j | 0 <= i < j < |all| ensures all[i].key != all[j].key {
      assert all[j] == fields[j - 1];
      assert fields[j - 1] in fields;
      assert i > 0 ==> all[i] == fields[i - 1];
    }
  }

  lemma {:induction false} PutDistinct(out: seq<Field>, f: Field)
    requires Distinct(out) && forall x :: x in out ==> x.key != f.key
    ensures Distinct(Put(out, f))
  {
    if f.key != PROTO {
      if out == [] || EnumeratedBefore(f.key, out[0].key) {
        ConsDistinct(f, out);
      } else {
        var head, tail := out[0], out[1..];
        assert head in out;
        PutDistinct(tail, f);
        PutMembers(tail, f);
        forall x | x in Put(tail, f) ensures x.key != head.key {
          assert x in tail || x == f;
        }
        ConsDistinct(head, Put(tail, f));
      }
    }
  }

  lemma {:induction false} PutAllFields(out: seq<Field>, fields: seq<Field>)
    requires Distinct(out) && Distinct(fields)
    requires forall x, y :: x in out && y in fields ==> x.key != y.key
    ensures Distinct(PutAll(out, fields))
    ensures forall x :: x in PutAll(out, fields) <==> x in out || (x in fields && x.key != PROTO)
    decreases |fields|
  {
    if fields != [] {
      var head, tail := fields[0], fields[1..];
      assert fields == [head] + tail && head in fields;
      PutDistinct(out, head);
      PutMembers(out, head);
      forall x, y | x in Put(out, head) && y in tail ensures x.key != y.key {
        var j :| 0 <= j < |tail| && tail[j] == y;
        assert y == fields[j + 1];
      }
      PutAllFields(Put(out, head), tail);
    }
  }

  // ---------- the sorted value means the same ----------

  lemma {:induction false} SortValuesAt(fields: seq<Field>)
    ensures |SortValues(fields)| == |fields|
    ensures forall i :: 0 <= i < |fields| ==> SortValues(fields)[i] == Field(fields[i].key, SortKeys(fields[i].value))
  {
    if fields != [] { SortValuesAt(fields[1..]); }
  }

  lemma {:induction false} SortKeysMeaning(u: Json)
    requires Wf(u)
    ensures Meaning(SortKeys(u)) == Meaning(u)
  {
    match u
    case JArr(items) => SortItemsMeaning(items);
    case JObj(fields) =>
      SortValuesMeaning(fields);
      ObjectMeaning(SortValues(fields));
    case _ =>
  }

  lemma {:induction false} SortItemsMeaning(items: seq<Json>)
    requires forall i :: 0 <= i < |items| ==> Wf(items[i])
    ensures Meanings(SortItems(items)) == Meanings(items)
  {
    if items != [] {
      SortKeysMeaning(items[0]);
      SortItemsMeaning(items[1..]);
    }
  }

  lemma {:induction false} SortValuesMeaning(fields: seq<Field>)
    requires Distinct(fields) && forall i :: 0 <= i < |fields| ==> Wf(fields[i].value)
    ensures Distinct(SortValues(fields)) && Entries(SortValues(fields)) == Entries(fields)
  {
    SortValuesAt(fields);
    if fields != [] {
      SortKeysMeaning(fields[0].value);
      SortValuesMeaning(fields[1..]);
    }
  }

  lemma ObjectMeaning(fields: seq<Field>)
    requires Distinct(fields)
    ensures Entries(PutAll([], SortFields(fields))) == Entries(fields)
  {
    var sorted := SortFields(fields);
    SortSorts(fields);
    SortedDistinct(sorted);
    PutAllFields([], sorted);
    var out := PutAll([], sorted);
    forall i | 0 <= i < |out| ensures out[i] in fields { assert out[i] in out; }
    forall i | 0 <= i < |fields| && fields[i].key != PROTO ensures fields[i] in out { assert fields[i] in sorted; }
    EntriesWithin(out, fields);
    EntriesWithin(fields, out);
  }

  // ---------- values that mean the same are sorted alike ----------

  lemma {:induction false} SameSorted(u: Json, v: Json)
    requires Wf(u) && Wf(v) && Meaning(u) == Meaning(v)
    ensures SortKeys(u) == SortKeys(v)
    decreases u
  {
    match u
    case JArr(items) => SameItems(items, v.items);
    case JObj(fields) =>
      SameFields(fields, v.fields);
      FieldsBack(fields, v.fields);
      SameObject(SortValues(fields), SortValues(v.fields));
    case _ =>
  }

  lemma {:induction false} SameItems(a: seq<Json>, b: seq<Json>)
    requires (forall i :: 0 <= i < |a| ==> Wf(a[i])) && (forall i :: 0 <= i < |b| ==> Wf(b[i]))
    requires Meanings(a) == Meanings(b)
    ensures SortItems(a) == SortItems(b)
    decreases a
  {
    if a != [] {
      assert b != [];
      assert Meanings(a)[0] == Meanings(b)[0] && Meanings(a)[1..] == Meanings(b)[1..];
      SameSorted(a[0], b[0]);
      SameItems(a[1..], b[1..]);
    }
  }

  /** Every field of `a` that counts, once sorted, is a field of `b`. */
  lemma {:induction false} SameFields(a: seq<Field>, b: seq<Field>)
    requires Wf(JObj(a)) && Wf(JObj(b)) && Entries(a) == Entries(b)
    ensures Within(SortValues(a), SortValues(b))
    decreases a
  {
    SortValuesAt(a);
    SortValuesAt(b);
    forall i | 0 <= i < |a| && a[i].key != PROTO ensures SortValues(a)[i] in SortValues(b) {
      EntriesAt(a, i);
      var j := EntriesFrom(b, a[i].key);
      SameSorted(a[i].value, b[j].value);
      assert SortValues(b)[j] == SortValues(a)[i];
    }
  }

  lemma FieldsBack(a: seq<Field>, b: seq<Field>)
    requires Wf(JObj(a)) && Wf(JObj(b)) && Entries(a) == Entries(b) && Within(SortValues(a), SortValues(b))
    ensures Distinct(SortValues(a)) && Distinct(SortValues(b)) && Within(SortValues(b), SortValues(a))
  {
    SortValuesAt(a);
    SortValuesAt(b);
    forall j | 0 <= j < |b| && b[j].key != PROTO ensures SortValues(b)[j] in SortValues(a) {
      EntriesAt(b, j);
      var i := EntriesFrom(a, b[j].key);
      assert SortValues(a)[i] in SortValues(b);
      var k :| 0 <= k < |b| && SortValues(b)[k] == SortValues(a)[i];
      assert k == j;
    }
  }

  lemma SameObject(a: seq<Field>, b: seq<Field>)
    requires Distinct(a) && Distinct(b) && Within(a, b) && Within(b, a)
    ensures PutAll([], SortFields(a)) == PutAll([], SortFields(b))
  {
    var x, y := SortFields(a), SortFields(b);
    SortSorts(a);
    SortSorts(b);
    RealSorted(x);
    RealSorted(y);
    RealMembers(x);
    RealMembers(y);
    WithinMembers(a, b);
    WithinMembers(b, a);
    SortedUnique(Real(x), Real(y));
    PutAllReal([], x);
    PutAllReal([], y);
  }

  lemma WithinMembers(a: seq<Field>, b: seq<Field>)
    requires Within(a, b)
    ensures forall f :: f in a && f.key != PROTO ==> f in b
  {
  }

  // ---------- printing loses nothing ----------

  /** Printed text, with whatever may follow it, determines the value. */
  lemma PrintInjective(u: Json, v: Json, s: string, t: string)
    requires Print(u) + s == Print(v) + t && Ends(s) && Ends(t)
    ensures u == v && s == t
  {
    ReadsBack(u, s);
    ReadsBack(v, t);
  }

  // ---------- main results ----------

  /** The canonical texts of two values are equal exactly when the values differ at most in the order of keys
      (and in `__proto__` keys, which sorting drops). */
  lemma CanonicalIff(u: Json, v: Json)
    requires Wf(u) && Wf(v)
    ensures Canonical(u) == Canonical(v) <==> Meaning(u) == Meaning(v)
  {
    if Meaning(u) == Meaning(v) {
      SameSorted(u, v);
    } else if Canonical(u) == Canonical(v) {
      assert Canonical(u) + "" == Canonical(v) + "";
      PrintInjective(SortKeys(u), SortKeys(v), "", "");
      SortKeysMeaning(u);
      SortKeysMeaning(v);
      assert false;
    }
  }

  /** The dropped key: two values that differ, with one canonical text. */
  lemma ProtoIsLost()
    ensures var u, v := JObj([Field(PROTO, JNull)]), JObj([]);
            Wf(u) && Wf(v) && u != v && Canonical(u) == Canonical(v)
  {
    CanonicalIff(JObj([Field(PROTO, JNull)]), JObj([]));
    assert Entries([Field(PROTO, JNull)]) == Entries([]);
  }
}
