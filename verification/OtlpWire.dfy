/**
 Log export requests written out byte by byte, as protobuf messages of the OTLP logs schema, and what the decoders of
 src/otlp/logs.js make of them: fields in any order, repeated or missing, with fields of unknown numbers between them.
 */
module OtlpWire {
  import opened Wrappers
  import opened Text
  import opened Protobuf
  import opened OtlpLogs

  // ---------- the wire ----------

  /** A field of a number that the schema of its message does not have. */
  datatype Unread = Unread(num: nat, wire: Wire)

  datatype RecordField =
    | TimeUnixNano(n: nat)
    | SeverityNumber(n: nat)
    | SeverityText(b: bytes)
    | Body(b: bytes)
    | Attribute(b: bytes)
    | DroppedAttributesCount(n: nat)
    | Flags(n: nat)
    | TraceId(b: bytes)
    | SpanId(b: bytes)
    | ObservedTimeUnixNano(n: nat)
    | EventName(b: bytes)
    | RecordOther(u: Unread)

  datatype ScopeField = Scope(b: bytes) | Record(fields: seq<RecordField>) | ScopeUrl(b: bytes) | ScopeOther(u: Unread)

  datatype ResourceField =
    | Resource(b: bytes)
    | Scopes(fields: seq<ScopeField>)
    | ResourceUrl(b: bytes)
    | ResourceOther(u: Unread)

  datatype RequestField = Resources(fields: seq<ResourceField>) | RequestOther(u: Unread)

  /** A length and that many bytes. */
  function Sized(b: bytes): bytes {
    EncVarint(|b|) + b
  }

  function UnreadBytes(u: Unread): bytes {
    match u.wire
    case WireVarint(n) => EncVarint(8 * u.num) + EncVarint(n)
    case WireI64(raw) => EncVarint(8 * u.num + 1) + raw
    case WireLen(payload) => EncVarint(8 * u.num + 2) + Sized(payload)
    case WireI32(raw) => EncVarint(8 * u.num + 5) + raw
  }

  predicate Wellformed(u: Unread, known: set<nat>) {
    && u.num !in known && u.num < 0x2000_0000
    && (u.wire.WireI64? ==> |u.wire.raw| == 8) && (u.wire.WireI32? ==> |u.wire.raw| == 4)
  }

  /** The tag byte of a field is eight times its number plus its wire type: 0 varint, 1 eight bytes, 2 sized, 5 four
      bytes. */
  function RecordFieldBytes(f: RecordField): bytes {
    match f
    case TimeUnixNano(n) => [0x09] + EncLittleEndian(n, 8)
    case SeverityNumber(n) => [0x10] + EncVarint(n)
    case SeverityText(b) => [0x1A] + Sized(b)
    case Body(b) => [0x2A] + Sized(b)
    case Attribute(b) => [0x32] + Sized(b)
    case DroppedAttributesCount(n) => [0x38] + EncVarint(n)
    case Flags(n) => [0x45] + EncLittleEndian(n, 4)
    case TraceId(b) => [0x4A] + Sized(b)
    case SpanId(b) => [0x52] + Sized(b)
    case ObservedTimeUnixNano(n) => [0x59] + EncLittleEndian(n, 8)
    case EventName(b) => [0x62] + Sized(b)
    case RecordOther(u) => UnreadBytes(u)
  }

  function RecordBytes(fields: seq<RecordField>): bytes {
    if fields == [] then [] else RecordFieldBytes(fields[0]) + RecordBytes(fields[1..])
  }

  function ScopeFieldBytes(f: ScopeField): bytes {
    match f
    case Scope(b) => [0x0A] + Sized(b)
    case Record(fields) => [0x12] + Sized(RecordBytes(fields))
    case ScopeUrl(b) => [0x1A] + Sized(b)
    case ScopeOther(u) => UnreadBytes(u)
  }

  function ScopeBytes(fields: seq<ScopeField>): bytes {
    if fields == [] then [] else ScopeFieldBytes(fields[0]) + ScopeBytes(fields[1..])
  }

  function ResourceFieldBytes(f: ResourceField): bytes {
    match f
    case Resource(b) => [0x0A] + Sized(b)
    case Scopes(fields) => [0x12] + Sized(ScopeBytes(fields))
    case ResourceUrl(b) => [0x1A] + Sized(b)
    case ResourceOther(u) => UnreadBytes(u)
  }

  function ResourceBytes(fields: seq<ResourceField>): bytes {
    if fields == [] then [] else ResourceFieldBytes(fields[0]) + ResourceBytes(fields[1..])
  }

  function RequestFieldBytes(f: RequestField): bytes {
    match f
    case Resources(fields) => [0x0A] + Sized(ResourceBytes(fields))
    case RequestOther(u) => UnreadBytes(u)
  }

  function RequestBytes(fields: seq<RequestField>): bytes {
    if fields == [] then [] else RequestFieldBytes(fields[0]) + RequestBytes(fields[1..])
  }

  // ---------- fields in range ----------

  predicate RecordFieldOk(f: RecordField) {
    match f
    case TimeUnixNano(n) => n < Pow2(64)
    case ObservedTimeUnixNano(n) => n < Pow2(64)
    case Flags(n) => n < Pow2(32)
    case RecordOther(u) => Wellformed(u, {1, 2, 3, 5, 6, 7, 8, 9, 10, 11, 12})
    case _ => true
  }

  predicate ScopeFieldOk(f: ScopeField) {
    match f
    case Record(fields) => forall k :: 0 <= k < |fields| ==> RecordFieldOk(fields[k])
    case ScopeOther(u) => Wellformed(u, {1, 2, 3})
    case _ => true
  }

  predicate ResourceFieldOk(f: ResourceField) {
    match f
    case Scopes(fields) => forall k :: 0 <= k < |fields| ==> ScopeFieldOk(fields[k])
    case ResourceOther(u) => Wellformed(u, {1, 2, 3})
    case _ => true
  }

  predicate RequestFieldOk(f: RequestField) {
    match f
    case Resources(fields) => forall k :: 0 <= k < |fields| ==> ResourceFieldOk(fields[k])
    case RequestOther(u) => Wellformed(u, {1})
  }

  // ---------- what the fields say ----------

  /** A later value replaces an earlier one, attributes collect, unread fields say nothing. */
  function RecordOf(fields: seq<RecordField>): LogRecord {
    if fields == [] then NO_RECORD
    else
      var out := RecordOf(fields[..|fields| - 1]);
      match fields[|fields| - 1]
      case TimeUnixNano(n) => out.(timeUnixNano := Some(n))
      case SeverityNumber(n) => out.(severityNumber := Some(n))
      case SeverityText(b) => out.(severityText := Some(b))
      case Body(b) => out.(body := Some(b))
      case Attribute(b) => out.(attributes := out.attributes + [b])
      case DroppedAttributesCount(n) => out.(droppedAttributesCount := Some(n))
      case Flags(n) => out.(flags := Some(n))
      case TraceId(b) => out.(traceId := Some(b))
      case SpanId(b) => out.(spanId := Some(b))
      case ObservedTimeUnixNano(n) => out.(observedTimeUnixNano := Some(n))
      case EventName(b) => out.(eventName := Some(b))
      case RecordOther(_) => out
  }

  function ScopeOf(fields: seq<ScopeField>): ScopeLogs {
    if fields == [] then NO_SCOPE
    else
      var out := ScopeOf(fields[..|fields| - 1]);
      match fields[|fields| - 1]
      case Scope(b) => out.(scope := Some(b))
      case Record(inner) => out.(logRecords := out.logRecords + [RecordOf(inner)])
      case ScopeUrl(b) => out.(schemaUrl := Some(b))
      case ScopeOther(_) => out
  }

  function ResourceOf(fields: seq<ResourceField>): ResourceLogs {
    if fields == [] then NO_RESOURCE
    else
      var out := ResourceOf(fields[..|fields| - 1]);
      match fields[|fields| - 1]
      case Resource(b) => out.(resource := Some(b))
      case Scopes(inner) => out.(scopeLogs := out.scopeLogs + [ScopeOf(inner)])
      case ResourceUrl(b) => out.(schemaUrl := Some(b))
      case ResourceOther(_) => out
  }

  function RequestOf(fields: seq<RequestField>): seq<ResourceLogs> {
    if fields == [] then []
    else
      var out := RequestOf(fields[..|fields| - 1]);
      match fields[|fields| - 1]
      case Resources(inner) => out + [ResourceOf(inner)]
      case RequestOther(_) => out
  }

  // ---------- as field trees ----------

  function RecordNode(f: RecordField): Node {
    match f
    case TimeUnixNano(n) => Number(1, n)
    case SeverityNumber(n) => Number(2, n)
    case SeverityText(b) => Bytes(3, b)
    case Body(b) => Bytes(5, b)
    case Attribute(b) => Bytes(6, b)
    case DroppedAttributesCount(n) => Number(7, n)
    case Flags(n) => Number(8, n)
    case TraceId(b) => Bytes(9, b)
    case SpanId(b) => Bytes(10, b)
    case ObservedTimeUnixNano(n) => Number(11, n)
    case EventName(b) => Bytes(12, b)
    case RecordOther(u) => Foreign(u.num, u.wire)
  }

  function RecordTree(fields: seq<RecordField>): seq<Node> {
    if fields == [] then [] else [RecordNode(fields[0])] + RecordTree(fields[1..])
  }

  function ScopeNode(f: ScopeField): Node {
    match f
    case Scope(b) => Bytes(1, b)
    case Record(fields) => Message(2, RecordTree(fields))
    case ScopeUrl(b) => Bytes(3, b)
    case ScopeOther(u) => Foreign(u.num, u.wire)
  }

  function ScopeTree(fields: seq<ScopeField>): seq<Node> {
    if fields == [] then [] else [ScopeNode(fields[0])] + ScopeTree(fields[1..])
  }

  function ResourceNode(f: ResourceField): Node {
    match f
    case Resource(b) => Bytes(1, b)
    case Scopes(fields) => Message(2, ScopeTree(fields))
    case ResourceUrl(b) => Bytes(3, b)
    case ResourceOther(u) => Foreign(u.num, u.wire)
  }

  function ResourceTree(fields: seq<ResourceField>): seq<Node> {
    if fields == [] then [] else [ResourceNode(fields[0])] + ResourceTree(fields[1..])
  }

  function RequestNode(f: RequestField): Node {
    match f
    case Resources(fields) => Message(1, ResourceTree(fields))
    case RequestOther(u) => Foreign(u.num, u.wire)
  }

  function RequestTree(fields: seq<RequestField>): seq<Node> {
    if fields == [] then [] else [RequestNode(fields[0])] + RequestTree(fields[1..])
  }

  function NodeBytes(level: Level, node: Node): bytes {
    EncTag(node.num, WireType(level, node)) + EncValue(level, node)
  }

  lemma UnreadEncoded(level: Level, u: Unread, known: set<nat>)
    requires Wellformed(u, known) && (forall num: nat :: num !in known ==> KindOf(level, num) == Unknown)
    ensures UnreadBytes(u) == NodeBytes(level, Foreign(u.num, u.wire)) && Fits(level, Foreign(u.num, u.wire))
  {
  }

  lemma RecordFieldEncoded(f: RecordField)
    requires RecordFieldOk(f)
    ensures RecordFieldBytes(f) == NodeBytes(RecordLevel, RecordNode(f)) && Fits(RecordLevel, RecordNode(f))
  {
    if f.RecordOther? { UnreadEncoded(RecordLevel, f.u, {1, 2, 3, 5, 6, 7, 8, 9, 10, 11, 12}); }
  }

  lemma {:induction false} RecordEncoded(fields: seq<RecordField>)
    requires forall k :: 0 <= k < |fields| ==> RecordFieldOk(fields[k])
    ensures RecordBytes(fields) == EncNodes(RecordLevel, RecordTree(fields)) && AllFit(RecordLevel, RecordTree(fields))
  {
    if fields != [] {
      RecordFieldEncoded(fields[0]);
      RecordEncoded(fields[1..]);
      assert RecordTree(fields)[1..] == RecordTree(fields[1..]);
    }
  }

  lemma ScopeFieldEncoded(f: ScopeField)
    requires ScopeFieldOk(f)
    ensures ScopeFieldBytes(f) == NodeBytes(ScopeLevel, ScopeNode(f)) && Fits(ScopeLevel, ScopeNode(f))
  {
    match f
    case Record(fields) => RecordEncoded(fields);
    case ScopeOther(u) => UnreadEncoded(ScopeLevel, u, {1, 2, 3});
    case _ =>
  }

  lemma {:induction false} ScopeEncoded(fields: seq<ScopeField>)
    requires forall k :: 0 <= k < |fields| ==> ScopeFieldOk(fields[k])
    ensures ScopeBytes(fields) == EncNodes(ScopeLevel, ScopeTree(fields)) && AllFit(ScopeLevel, ScopeTree(fields))
  {
    if fields != [] {
      ScopeFieldEncoded(fields[0]);
      ScopeEncoded(fields[1..]);
      assert ScopeTree(fields)[1..] == ScopeTree(fields[1..]);
    }
  }

  lemma ResourceFieldEncoded(f: ResourceField)
    requires ResourceFieldOk(f)
    ensures ResourceFieldBytes(f) == NodeBytes(ResourceLevel, ResourceNode(f)) && Fits(ResourceLevel, ResourceNode(f))
  {
    match f
    case Scopes(fields) => ScopeEncoded(fields);
    case ResourceOther(u) => UnreadEncoded(ResourceLevel, u, {1, 2, 3});
    case _ =>
  }

  lemma {:induction false} ResourceEncoded(fields: seq<ResourceField>)
    requires forall k :: 0 <= k < |fields| ==> ResourceFieldOk(fields[k])
    ensures ResourceBytes(fields) == EncNodes(ResourceLevel, ResourceTree(fields)) &&
            AllFit(ResourceLevel, ResourceTree(fields))
  {
    if fields != [] {
      ResourceFieldEncoded(fields[0]);
      ResourceEncoded(fields[1..]);
      assert ResourceTree(fields)[1..] == ResourceTree(fields[1..]);
    }
  }

  lemma RequestFieldEncoded(f: RequestField)
    requires RequestFieldOk(f)
    ensures RequestFieldBytes(f) == NodeBytes(RequestLevel, RequestNode(f)) && Fits(RequestLevel, RequestNode(f))
  {
    match f
    case Resources(fields) => ResourceEncoded(fields);
    case RequestOther(u) => UnreadEncoded(RequestLevel, u, {1});
  }

  lemma {:induction false} RequestEncoded(fields: seq<RequestField>)
    requires forall k :: 0 <= k < |fields| ==> RequestFieldOk(fields[k])
    ensures RequestBytes(fields) == EncNodes(RequestLevel, RequestTree(fields)) &&
            AllFit(RequestLevel, RequestTree(fields))
  {
    if fields != [] {
      RequestFieldEncoded(fields[0]);
      RequestEncoded(fields[1..]);
      assert RequestTree(fields)[1..] == RequestTree(fields[1..]);
    }
  }

  // ---------- what the trees build ----------

  lemma {:induction false} FoldRecordAppend(out: LogRecord, a: seq<Node>, b: seq<Node>)
    ensures FoldRecord(out, a + b) == FoldRecord(FoldRecord(out, a), b)
    decreases |a|
  {
    if a == [] {
      assert a + b == b;
    } else {
      assert (a + b)[1..] == a[1..] + b;
      FoldRecordAppend(SetRecordField(out, a[0]), a[1..], b);
    }
  }

  lemma {:induction false} RecordTreeSnoc(fields: seq<RecordField>, f: RecordField)
    ensures RecordTree(fields + [f]) == RecordTree(fields) + [RecordNode(f)]
    decreases |fields|
  {
    if fields == [] {
      assert fields + [f] == [f] && [f][1..] == [];
    } else {
      assert (fields + [f])[1..] == fields[1..] + [f];
      RecordTreeSnoc(fields[1..], f);
    }
  }

  lemma {:induction false} RecordBuilt(fields: seq<RecordField>)
    ensures FoldRecord(NO_RECORD, Known(RecordTree(fields))) == RecordOf(fields)
    decreases |fields|
  {
    if fields != [] {
      var front, f := fields[..|fields| - 1], fields[|fields| - 1];
      assert fields == front + [f];
      RecordBuilt(front);
      RecordTreeSnoc(front, f);
      KnownAppend(RecordTree(front), [RecordNode(f)]);
      FoldRecordAppend(NO_RECORD, Known(RecordTree(front)), Known([RecordNode(f)]));
      assert [RecordNode(f)][1..] == [];
    }
  }

  lemma {:induction false} FoldScopeAppend(out: ScopeLogs, a: seq<Node>, b: seq<Node>)
    ensures FoldScope(out, a + b) == FoldScope(FoldScope(out, a), b)
    decreases |a|
  {
    if a == [] {
      assert a + b == b;
    } else {
      assert (a + b)[1..] == a[1..] + b;
      FoldScopeAppend(SetScopeField(out, a[0]), a[1..], b);
    }
  }

  lemma {:induction false} ScopeTreeSnoc(fields: seq<ScopeField>, f: ScopeField)
    ensures ScopeTree(fields + [f]) == ScopeTree(fields) + [ScopeNode(f)]
    decreases |fields|
  {
    if fields == [] {
      assert fields + [f] == [f] && [f][1..] == [];
    } else {
      assert (fields + [f])[1..] == fields[1..] + [f];
      ScopeTreeSnoc(fields[1..], f);
    }
  }

  lemma {:induction false} ScopeBuilt(fields: seq<ScopeField>)
    ensures FoldScope(NO_SCOPE, Known(ScopeTree(fields))) == ScopeOf(fields)
    decreases |fields|
  {
    if fields != [] {
      var front, f := fields[..|fields| - 1], fields[|fields| - 1];
      assert fields == front + [f];
      ScopeBuilt(front);
      ScopeTreeSnoc(front, f);
      KnownAppend(ScopeTree(front), [ScopeNode(f)]);
      FoldScopeAppend(NO_SCOPE, Known(ScopeTree(front)), Known([ScopeNode(f)]));
      KnownSingle(ScopeNode(f));
      if f.Record? { RecordBuilt(f.fields); }
      assert forall node: Node :: [node][1..] == [];
    }
  }

  lemma {:induction false} FoldResourceAppend(out: ResourceLogs, a: seq<Node>, b: seq<Node>)
    ensures FoldResource(out, a + b) == FoldResource(FoldResource(out, a), b)
    decreases |a|
  {
    if a == [] {
      assert a + b == b;
    } else {
      assert (a + b)[1..] == a[1..] + b;
      FoldResourceAppend(SetResourceField(out, a[0]), a[1..], b);
    }
  }

  lemma {:induction false} ResourceTreeSnoc(fields: seq<ResourceField>, f: ResourceField)
    ensures ResourceTree(fields + [f]) == ResourceTree(fields) + [ResourceNode(f)]
    decreases |fields|
  {
    if fields == [] {
      assert fields + [f] == [f] && [f][1..] == [];
    } else {
      assert (fields + [f])[1..] == fields[1..] + [f];
      ResourceTreeSnoc(fields[1..], f);
    }
  }

  lemma {:induction false} ResourceBuilt(fields: seq<ResourceField>)
    ensures FoldResource(NO_RESOURCE, Known(ResourceTree(fields))) == ResourceOf(fields)
    decreases |fields|
  {
    if fields != [] {
      var front, f := fields[..|fields| - 1], fields[|fields| - 1];
      assert fields == front + [f];
      ResourceBuilt(front);
      ResourceTreeSnoc(front, f);
      KnownAppend(ResourceTree(front), [ResourceNode(f)]);
      FoldResourceAppend(NO_RESOURCE, Known(ResourceTree(front)), Known([ResourceNode(f)]));
      KnownSingle(ResourceNode(f));
      if f.Scopes? { ScopeBuilt(f.fields); }
      assert forall node: Node :: [node][1..] == [];
    }
  }

  lemma {:induction false} FoldRequestAppend(out: seq<ResourceLogs>, a: seq<Node>, b: seq<Node>)
    ensures FoldRequest(out, a + b) == FoldRequest(FoldRequest(out, a), b)
    decreases |a|
  {
    if a == [] {
      assert a + b == b;
    } else {
      assert (a + b)[1..] == a[1..] + b;
      FoldRequestAppend(if a[0].Message? then out + [FoldResource(NO_RESOURCE, a[0].body)] else out, a[1..], b);
    }
  }

  lemma {:induction false} RequestTreeSnoc(fields: seq<RequestField>, f: RequestField)
    ensures RequestTree(fields + [f]) == RequestTree(fields) + [RequestNode(f)]
    decreases |fields|
  {
    if fields == [] {
      assert fields + [f] == [f] && [f][1..] == [];
    } else {
      assert (fields + [f])[1..] == fields[1..] + [f];
      RequestTreeSnoc(fields[1..], f);
    }
  }

  lemma {:induction false} RequestBuilt(fields: seq<RequestField>)
    ensures FoldRequest([], Known(RequestTree(fields))) == RequestOf(fields)
    decreases |fields|
  {
    if fields != [] {
      var front, f := fields[..|fields| - 1], fields[|fields| - 1];
      assert fields == front + [f];
      RequestBuilt(front);
      RequestTreeSnoc(front, f);
      KnownAppend(RequestTree(front), [RequestNode(f)]);
      FoldRequestAppend([], Known(RequestTree(front)), Known([RequestNode(f)]));
      KnownSingle(RequestNode(f));
      if f.Resources? { ResourceBuilt(f.fields); }
      assert forall node: Node :: [node][1..] == [];
    }
  }

  // ---------- reading ----------

  /** A log record reads as its fields say, in any order, whatever fields of other numbers stand between them. */
  lemma RecordRead(fields: seq<RecordField>)
    requires forall k :: 0 <= k < |fields| ==> RecordFieldOk(fields[k])
    ensures RecordFrom(NO_RECORD, RecordBytes(fields)) == Some(RecordOf(fields))
  {
    RecordEncoded(fields);
    DecodeEncodedNodes(RecordLevel, RecordTree(fields));
    RecordBuilt(fields);
  }

  /** A request body reads as its fields say, at every depth. */
  lemma RequestRead(fields: seq<RequestField>)
    requires forall k :: 0 <= k < |fields| ==> RequestFieldOk(fields[k])
    ensures Decode(RequestBytes(fields)) == Some(RequestOf(fields))
  {
    RequestEncoded(fields);
    DecodeEncodedNodes(RequestLevel, RequestTree(fields));
    RequestBuilt(fields);
  }
}
