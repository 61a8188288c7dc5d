/**
 The content hash of messages: canonical JSON, after src/cli/messages-parquet.js and src/cli/messages-walker.js.
 An object is the list of its fields in enumeration order; a number is the text that JavaScript prints for it.
 */
module CanonicalJson {
  import opened Text
  import opened TomlText

  predicate IsNumberChar(c: char) {
    '0' <= c <= '9' || c == '-' || c == '+' || c == '.' || c == 'e'
  }

  predicate IsNumberText(s: string) {
    s != "" && ('0' <= s[0] <= '9' || s[0] == '-') && forall k :: 0 <= k < |s| ==> IsNumberChar(s[k])
  }

  type NumberText = s: string | IsNumberText(s) witness "0"

  datatype Json =
    | JNull
    | JBool(b: bool)
    | JNum(text: NumberText)
    | JStr(s: string)
    | JArr(items: seq<Json>)
    | JObj(fields: seq<Field>)

  datatype Field = Field(key: string, value: Json)

  predicate Distinct(fields: seq<Field>) {
    forall i, j :: 0 <= i < j < |fields| ==> fields[i].key != fields[j].key
  }

  /** No object holds a key twice. */
  predicate Wf(u: Json) {
    match u
    case JArr(items) => forall i :: 0 <= i < |items| ==> Wf(items[i])
    case JObj(fields) => Distinct(fields) && forall i :: 0 <= i < |fields| ==> Wf(fields[i].value)
    case _ => true
  }

  // ---------- the order of keys ----------

  /** Orders characters as their UTF-16 code units do: surrogate pairs come before U+E000. */
  function Rank(c: char): int {
    if '\U{E000}' <= c <= '\U{FFFF}' then c as int + 0x110000 else c as int
  }

  /** The default order of `Array.prototype.sort`. */
  predicate Before(a: string, b: string) {
    if b == "" then false
    else if a == "" then true
    else Rank(a[0]) < Rank(b[0]) || (a[0] == b[0] && Before(a[1..], b[1..]))
  }

  lemma {:induction false} BeforeTotal(a: string, b: string)
    ensures a == b || Before(a, b) || Before(b, a)
  {
    if a != "" && b != "" && a[0] == b[0] {
      BeforeTotal(a[1..], b[1..]);
      assert a == [a[0]] + a[1..] && b == [b[0]] + b[1..];
    }
  }

  lemma {:induction false} BeforeAsymmetric(a: string, b: string)
    ensures !(Before(a, b) && Before(b, a))
  {
    if a != "" && b != "" && a[0] == b[0] { BeforeAsymmetric(a[1..], b[1..]); }
  }

  lemma {:induction false} BeforeTransitive(a: string, b: string, c: string)
    requires Before(a, b) && Before(b, c)
    ensures Before(a, c)
  {
    if a != "" && a[0] == b[0] && b[0] == c[0] { BeforeTransitive(a[1..], b[1..], c[1..]); }
  }

  function Insert(f: Field, sorted: seq<Field>): seq<Field> {
    if sorted == [] || Before(f.key, sorted[0].key) then [f] + sorted
    else [sorted[0]] + Insert(f, sorted[1..])
  }

  function SortFields(fields: seq<Field>): seq<Field> {
    if fields == [] then [] else Insert(fields[0], SortFields(fields[1..]))
  }

  // ---------- building the sorted object ----------

  const PROTO := "__proto__"

  predicate AllDigits(s: string) {
    forall k :: 0 <= k < |s| ==> '0' <= s[k] <= '9'
  }

  function Decimal(s: string): nat
    requires AllDigits(s)
  {
    if s == "" then 0 else 10 * Decimal(s[..|s| - 1]) + (s[|s| - 1] as int - '0' as int)
  }

  lemma {:induction false} DigitsRead(n: nat)
    ensures Digits(n) != "" && AllDigits(Digits(n)) && Decimal(Digits(n)) == n
  {
    if n < 10 {
      assert Digits(n)[..0] == "" && Decimal("") == 0;
    } else {
      DigitsRead(n / 10);
      assert Digits(n)[..|Digits(n)| - 1] == Digits(n / 10);
    }
  }

  /** Array indices: objects enumerate them first, in numeric order. */
  predicate IsIndex(key: string) {
    key != "" && AllDigits(key) && (key == "0" || key[0] != '0') && Decimal(key) < 0xFFFF_FFFF
  }

  predicate EnumeratedBefore(a: string, b: string) {
    IsIndex(a) && (!IsIndex(b) || Decimal(a) < Decimal(b))
  }

  /** `out[key] = value` for a key not yet in `out`: `__proto__` is not a field, it sets the prototype. */
  function Put(out: seq<Field>, f: Field): seq<Field> {
    if f.key == PROTO then out
    else if out == [] || EnumeratedBefore(f.key, out[0].key) then [f] + out
    else [out[0]] + Put(out[1..], f)
  }

  function PutAll(out: seq<Field>, fields: seq<Field>): seq<Field>
    decreases |fields|
  {
    if fields == [] then out else PutAll(Put(out, fields[0]), fields[1..])
  }

  function SortKeys(u: Json): Json {
    match u
    case JArr(items) => JArr(SortItems(items))
    case JObj(fields) => JObj(PutAll([], SortFields(SortValues(fields))))
    case _ => u
  }

  function SortItems(items: seq<Json>): seq<Json> {
    if items == [] then [] else [SortKeys(items[0])] + SortItems(items[1..])
  }

  function SortValues(fields: seq<Field>): seq<Field> {
    if fields == [] then [] else [Field(fields[0].key, SortKeys(fields[0].value))] + SortValues(fields[1..])
  }

  // ---------- printing ----------

  /** `JSON.stringify` */
  function Print(u: Json): string {
    match u
    case JNull => "null"
    case JBool(b) => if b then "true" else "false"
    case JNum(text) => text
    case JStr(s) => TomlString(s)
    case JArr(items) => if items == [] then "[]" else "[" + Print(items[0]) + PrintItems(items[1..])
    case JObj(fields) =>
      if fields == [] then "{}"
      else "{" + TomlString(fields[0].key) + ":" + Print(fields[0].value) + PrintFields(fields[1..])
  }

  function PrintItems(items: seq<Json>): string {
    if items == [] then "]" else "," + Print(items[0]) + PrintItems(items[1..])
  }

  function PrintFields(fields: seq<Field>): string {
    if fields == [] then "}"
    else "," + TomlString(fields[0].key) + ":" + Print(fields[0].value) + PrintFields(fields[1..])
  }

  function Canonical(u: Json): string {
    Print(SortKeys(u))
  }

  // ---------- values up to the order of keys ----------

  /** What a value says, whatever the order of its keys; `__proto__` keys do not count. */
  datatype Tree =
    | TNull
    | TBool(b: bool)
    | TNum(text: NumberText)
    | TStr(s: string)
    | TArr(items: seq<Tree>)
    | TObj(entries: map<string, Tree>)

  function Meaning(u: Json): Tree {
    match u
    case JNull => TNull
    case JBool(b) => TBool(b)
    case JNum(text) => TNum(text)
    case JStr(s) => TStr(s)
    case JArr(items) => TArr(Meanings(items))
    case JObj(fields) => TObj(Entries(fields))
  }

  function Meanings(items: seq<Json>): seq<Tree> {
    if items == [] then [] else [Meaning(items[0])] + Meanings(items[1..])
  }

  function Entries(fields: seq<Field>): map<string, Tree> {
    if fields == [] then map[]
    else if fields[0].key == PROTO then Entries(fields[1..])
    else Entries(fields[1..])[fields[0].key := Meaning(fields[0].value)]
  }
}
