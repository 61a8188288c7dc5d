/**
 OTLP log export requests, after src/otlp/logs.js: four nested message decoders over the wire reader.
 The specification reads a message as a tree of fields under a schema; the decoders of the source are
 methods proved to build their records from that tree. Payloads that the source hands to the decoders
 of src/otlp/common.js (text, attribute, value, resource and scope bytes) are kept as bytes.
 */
module OtlpLogs {
  import opened Wrappers
  import opened Text
  import opened Protobuf

  // ---------- field trees ----------

  datatype Level = RequestLevel | ResourceLevel | ScopeLevel | RecordLevel

  /** How a decoder reads a field number; it does not consult the wire type of a known field. */
  datatype Kind = Unknown | AsVarint | AsFixed64 | AsFixed32 | AsBytes | AsMessage(level: Level)

  function KindOf(level: Level, num: nat): Kind {
    match level
    case RequestLevel => if num == 1 then AsMessage(ResourceLevel) else Unknown
    case ResourceLevel => if num == 2 then AsMessage(ScopeLevel) else if num in {1, 3} then AsBytes else Unknown
    case ScopeLevel => if num == 2 then AsMessage(RecordLevel) else if num in {1, 3} then AsBytes else Unknown
    case RecordLevel =>
      if num in {1, 11} then AsFixed64
      else if num in {2, 7} then AsVarint
      else if num == 8 then AsFixed32
      else if num in {3, 5, 6, 9, 10, 12} then AsBytes
      else Unknown
  }

  datatype Wire = WireVarint(n: nat) | WireI64(raw: bytes) | WireLen(payload: bytes) | WireI32(raw: bytes)

  /** A field of a message; `Foreign` is one the schema does not know. */
  datatype Node =
    | Number(num: nat, n: nat)
    | Bytes(num: nat, payload: bytes)
    | Message(num: nat, body: seq<Node>)
    | Foreign(num: nat, wire: Wire)

  /** What one field adds to the message, if anything, and the bytes after it. */
  datatype Field = Field(nodes: seq<Node>, rest: bytes)

  /** The value of a field whose tag has been read. */
  function DecodeValue(level: Level, tag: Tag, s: bytes): (r: Option<Field>)
    ensures r.Some? ==> |r.value.rest| <= |s|
    decreases |s|, 0
  {
    var num := tag.fieldNumber;
    match KindOf(level, num)
    case AsVarint =>
      var v := Varint(s);
      if v.None? then None else Some(Field([Number(num, v.value.value)], v.value.rest))
    case AsFixed64 =>
      var v := ReadFixed(s, 8);
      if v.None? then None else Some(Field([Number(num, v.value.value)], v.value.rest))
    case AsFixed32 =>
      var v := ReadFixed(s, 4);
      if v.None? then None else Some(Field([Number(num, v.value.value)], v.value.rest))
    case AsBytes =>
      var b := ReadBytes(s);
      if b.None? then None else Some(Field([Bytes(num, b.value.value)], b.value.rest))
    case AsMessage(inner) =>
      var b := ReadBytes(s);
      if b.None? then None
      else
        var body := DecodeNodes(inner, b.value.value);
        if body.None? then None else Some(Field([Message(num, body.value)], b.value.rest))
    case Unknown =>
      var rest := Skip(s, tag.wireType);
      if rest.None? then None else Some(Field([], rest.value))
  }

  /** A whole message: its known fields in order, or None when reading fails. */
  function DecodeNodes(level: Level, s: bytes): Option<seq<Node>>
    decreases |s|, 1
  {
    if s == [] then Some([])
    else
      var tag := ReadTag(s);
      if tag.None? then None
      else
        var f := DecodeValue(level, tag.value.value, tag.value.rest);
        if f.None? then None
        else
          var more := DecodeNodes(level, f.value.rest);
          if more.None? then None else Some(f.value.nodes + more.value)
  }

  // ---------- encoding ----------

  function WireType(level: Level, node: Node): nat {
    match node
    case Number(num, _) =>
      if KindOf(level, num) == AsFixed64 then WIRE_I64 else if KindOf(level, num) == AsFixed32 then WIRE_I32
        else WIRE_VARINT
    case Bytes(_, _) => WIRE_LEN
    case Message(_, _) => WIRE_LEN
    case Foreign(_, wire) =>
      match wire
      case WireVarint(_) => WIRE_VARINT
      case WireI64(_) => WIRE_I64
      case WireLen(_) => WIRE_LEN
      case WireI32(_) => WIRE_I32
  }

  function EncValue(level: Level, node: Node): bytes
    decreases node, 0
  {
    match node
    case Number(num, n) =>
      if KindOf(level, num) == AsFixed64 then EncLittleEndian(n, 8)
      else if KindOf(level, num) == AsFixed32 then EncLittleEndian(n, 4)
      else EncVarint(n)
    case Bytes(_, payload) => EncBytes(payload)
    case Message(num, body) =>
      if KindOf(level, num).AsMessage? then EncBytes(EncNodes(KindOf(level, num).level, body)) else []
    case Foreign(_, wire) =>
      match wire
      case WireVarint(n) => EncVarint(n)
      case WireI64(raw) => raw
      case WireLen(payload) => EncBytes(payload)
      case WireI32(raw) => raw
  }

  function EncNodes(level: Level, nodes: seq<Node>): bytes
    decreases nodes, 1
  {
    if nodes == [] then []
    else EncTag(nodes[0].num, WireType(level, nodes[0])) + EncValue(level, nodes[0]) + EncNodes(level, nodes[1..])
  }

  /** Each field fits the schema at its level; foreign fields use numbers the schema does not know. */
  predicate Fits(level: Level, node: Node)
    decreases node, 0
  {
    && node.num < 0x2000_0000
    && match node
       case Number(num, n) =>
         || KindOf(level, num) == AsVarint
         || (KindOf(level, num) == AsFixed64 && n < Pow2(64))
         || (KindOf(level, num) == AsFixed32 && n < Pow2(32))
       case Bytes(num, _) => KindOf(level, num) == AsBytes
       case Message(num, body) => KindOf(level, num).AsMessage? && AllFit(KindOf(level, num).level, body)
       case Foreign(num, wire) =>
         && KindOf(level, num) == Unknown
         && (wire.WireI64? ==> |wire.raw| == 8)
         && (wire.WireI32? ==> |wire.raw| == 4)
  }

  predicate AllFit(level: Level, nodes: seq<Node>)
    decreases nodes, 1
  {
    nodes == [] || (Fits(level, nodes[0]) && AllFit(level, nodes[1..]))
  }

  /** The message without its foreign fields, at every depth. */
  function Known(nodes: seq<Node>): seq<Node>
    decreases nodes
  {
    if nodes == [] then []
    else match nodes[0]
      case Foreign(_, _) => Known(nodes[1..])
      case Message(num, body) => [Message(num, Known(body))] + Known(nodes[1..])
      case _ => [nodes[0]] + Known(nodes[1..])
  }

  lemma KnownSingle(node: Node)
    ensures Known([node]) == match node
                             case Foreign(_, _) => []
                             case Message(num, body) => [Message(num, Known(body))]
                             case _ => [node]
  {
    assert [node][1..] == [];
  }

  lemma DecodeEncodedNumber(level: Level, num: nat, n: nat, rest: bytes)
    requires Fits(level, Number(num, n))
    ensures DecodeValue(level, Tag(num, WireType(level, Number(num, n))), EncValue(level, Number(num, n)) + rest)
            == Some(Field([Number(num, n)], rest))
  {
    if KindOf(level, num) == AsVarint {
      VarintRoundTrip(n, rest);
    } else if KindOf(level, num) == AsFixed64 {
      FixedRoundTrip(n, 8, rest);
    } else {
      FixedRoundTrip(n, 4, rest);
    }
  }

  lemma SkipEncodedForeign(level: Level, num: nat, wire: Wire, rest: bytes)
    requires Fits(level, Foreign(num, wire))
    ensures DecodeValue(level, Tag(num, WireType(level, Foreign(num, wire))),
      EncValue(level, Foreign(num, wire)) + rest)
            == Some(Field([], rest))
  {
    match wire
    case WireVarint(n) => VarintRoundTrip(n, rest);
    case WireI64(raw) => assert (raw + rest)[8..] == rest;
    case WireLen(payload) => BytesRoundTrip(payload, rest);
    case WireI32(raw) => assert (raw + rest)[4..] == rest;
  }

  lemma {:induction false} DecodeEncodedNode(level: Level, node: Node, rest: bytes)
    requires Fits(level, node)
    ensures DecodeValue(level, Tag(node.num, WireType(level, node)), EncValue(level, node) + rest)
            == Some(Field(Known([node]), rest))
    decreases node, 0
  {
    KnownSingle(node);
    match node
    case Number(num, n) => DecodeEncodedNumber(level, num, n, rest);
    case Bytes(_, payload) => BytesRoundTrip(payload, rest);
    case Foreign(num, wire) => SkipEncodedForeign(level, num, wire, rest);
    case Message(num, body) =>
      var inner := KindOf(level, num).level;
      BytesRoundTrip(EncNodes(inner, body), rest);
      DecodeEncodedNodes(inner, body);
  }

  lemma KnownCons(node: Node, nodes: seq<Node>)
    ensures Known([node] + nodes) == Known([node]) + Known(nodes)
  {
    assert ([node] + nodes)[1..] == nodes && [node][1..] == [];
  }

  lemma DecodeFirst(level: Level, s: bytes)
    requires ReadTag(s).Some? && DecodeValue(level, ReadTag(s).value.value, ReadTag(s).value.rest).Some?
    ensures var f := DecodeValue(level, ReadTag(s).value.value, ReadTag(s).value.rest).value;
            var more := DecodeNodes(level, f.rest);
            DecodeNodes(level, s) == if more.None? then None else Some(f.nodes + more.value)
  {
  }

  /** The tag in front of an encoded field. */
  lemma TagStep(level: Level, node: Node, tail: bytes)
    requires Fits(level, node)
    ensures var value := EncValue(level, node) + tail;
            ReadTag(EncTag(node.num, WireType(level, node)) + value) ==
              Some(Got(Tag(node.num, WireType(level, node)), value))
  {
    TagRoundTrip(node.num, WireType(level, node), EncValue(level, node) + tail);
  }

  /** One field in front of decoded ones. */
  lemma DecodeStep(level: Level, node: Node, tail: bytes, more: seq<Node>)
    requires Fits(level, node) && DecodeNodes(level, tail) == Some(more)
    requires DecodeValue(level, Tag(node.num, WireType(level, node)), EncValue(level, node) + tail) ==
      Some(Field(Known([node]), tail))
    ensures DecodeNodes(level, EncTag(node.num, WireType(level, node)) + EncValue(level, node) + tail) ==
      Some(Known([node]) + more)
  {
    TagStep(level, node, tail);
    Assoc(EncTag(node.num, WireType(level, node)), EncValue(level, node), tail);
    DecodeFirst(level, EncTag(node.num, WireType(level, node)) + (EncValue(level, node) + tail));
  }

  /** Decoding what was encoded gives the known fields back, foreign ones dropped at every depth. */
  lemma {:induction false} DecodeEncodedNodes(level: Level, nodes: seq<Node>)
    requires AllFit(level, nodes)
    ensures DecodeNodes(level, EncNodes(level, nodes)) == Some(Known(nodes))
    decreases nodes, 1
  {
    if nodes != [] {
      var node, tail := nodes[0], nodes[1..];
      FirstFits(level, nodes);
      DecodeEncodedNode(level, node, EncNodes(level, tail));
      DecodeEncodedNodes(level, tail);
      DecodeStep(level, node, EncNodes(level, tail), Known(tail));
      KnownFirst(nodes);
    }
  }

  lemma FirstFits(level: Level, nodes: seq<Node>)
    requires AllFit(level, nodes) && nodes != []
    ensures Fits(level, nodes[0]) && AllFit(level, nodes[1..])
    ensures EncNodes(level, nodes) ==
      EncTag(nodes[0].num, WireType(level, nodes[0])) + EncValue(level, nodes[0]) + EncNodes(level, nodes[1..])
  {
  }

  lemma KnownFirst(nodes: seq<Node>)
    requires nodes != []
    ensures Known(nodes) == Known([nodes[0]]) + Known(nodes[1..])
  {
    assert nodes == [nodes[0]] + nodes[1..];
    KnownCons(nodes[0], nodes[1..]);
  }

  lemma {:induction false} EncNodesAppend(level: Level, a: seq<Node>, b: seq<Node>)
    ensures EncNodes(level, a + b) == EncNodes(level, a) + EncNodes(level, b)
    ensures AllFit(level, a) && AllFit(level, b) ==> AllFit(level, a + b)
    decreases |a|
  {
    if a == [] {
      assert a + b == b;
    } else {
      EncNodesAppend(level, a[1..], b);
      assert (a + b)[1..] == a[1..] + b;
      Assoc(EncTag(a[0].num, WireType(level, a[0])) + EncValue(level, a[0]), EncNodes(level, a[1..]),
        EncNodes(level, b));
    }
  }

  // ---------- records ----------

  datatype LogRecord = LogRecord(
    timeUnixNano: Option<nat>, severityNumber: Option<nat>, severityText: Option<bytes>, body: Option<bytes>,
    attributes: seq<bytes>, droppedAttributesCount: Option<nat>, flags: Option<nat>, traceId: Option<bytes>,
    spanId: Option<bytes>, observedTimeUnixNano: Option<nat>, eventName: Option<bytes>)

  datatype ScopeLogs = ScopeLogs(scope: Option<bytes>, logRecords: seq<LogRecord>, schemaUrl: Option<bytes>)

  datatype ResourceLogs = ResourceLogs(resource: Option<bytes>, scopeLogs: seq<ScopeLogs>, schemaUrl: Option<bytes>)

  const NO_RECORD := LogRecord(None, None, None, None, [], None, None, None, None, None, None)
  const NO_SCOPE := ScopeLogs(None, [], None)
  const NO_RESOURCE := ResourceLogs(None, [], None)

  /** A repeated assignment overwrites, a repeated attribute accumulates. */
  function SetRecordField(out: LogRecord, node: Node): LogRecord {
    match node
    case Number(num, n) =>
      if num == 1 then out.(timeUnixNano := Some(n))
      else if num == 2 then out.(severityNumber := Some(n))
      else if num == 7 then out.(droppedAttributesCount := Some(n))
      else if num == 8 then out.(flags := Some(n))
      else out.(observedTimeUnixNano := Some(n))
    case Bytes(num, b) =>
      if num == 3 then out.(severityText := Some(b))
      else if num == 5 then out.(body := Some(b))
      else if num == 6 then out.(attributes := out.attributes + [b])
      else if num == 9 then out.(traceId := Some(b))
      else if num == 10 then out.(spanId := Some(b))
      else out.(eventName := Some(b))
    case _ => out
  }

  function SetScopeField(out: ScopeLogs, node: Node): ScopeLogs {
    match node
    case Bytes(num, b) => if num == 1 then out.(scope := Some(b)) else out.(schemaUrl := Some(b))
    case Message(_, body) => out.(logRecords := out.logRecords + [FoldRecord(NO_RECORD, body)])
    case _ => out
  }

  function SetResourceField(out: ResourceLogs, node: Node): ResourceLogs {
    match node
    case Bytes(num, b) => if num == 1 then out.(resource := Some(b)) else out.(schemaUrl := Some(b))
    case Message(_, body) => out.(scopeLogs := out.scopeLogs + [FoldScope(NO_SCOPE, body)])
    case _ => out
  }

  function FoldRecord(out: LogRecord, nodes: seq<Node>): LogRecord
    decreases |nodes|
  {
    if nodes == [] then out else FoldRecord(SetRecordField(out, nodes[0]), nodes[1..])
  }

  function FoldScope(out: ScopeLogs, nodes: seq<Node>): ScopeLogs
    decreases |nodes|
  {
    if nodes == [] then out else FoldScope(SetScopeField(out, nodes[0]), nodes[1..])
  }

  function FoldResource(out: ResourceLogs, nodes: seq<Node>): ResourceLogs
    decreases |nodes|
  {
    if nodes == [] then out else FoldResource(SetResourceField(out, nodes[0]), nodes[1..])
  }

  function FoldRequest(out: seq<ResourceLogs>, nodes: seq<Node>): seq<ResourceLogs>
    decreases |nodes|
  {
    if nodes == [] then out
    else FoldRequest(if nodes[0].Message? then out + [FoldResource(NO_RESOURCE, nodes[0].body)] else out, nodes[1..])
  }

  /** A record under construction, completed from the bytes still to be read; None is a thrown error. */
  function RecordFrom(out: LogRecord, s: bytes): Option<LogRecord> {
    var nodes := DecodeNodes(RecordLevel, s);
    if nodes.None? then None else Some(FoldRecord(out, nodes.value))
  }

  function ScopeFrom(out: ScopeLogs, s: bytes): Option<ScopeLogs> {
    var nodes := DecodeNodes(ScopeLevel, s);
    if nodes.None? then None else Some(FoldScope(out, nodes.value))
  }

  function ResourceFrom(out: ResourceLogs, s: bytes): Option<ResourceLogs> {
    var nodes := DecodeNodes(ResourceLevel, s);
    if nodes.None? then None else Some(FoldResource(out, nodes.value))
  }

  function RequestFrom(out: seq<ResourceLogs>, s: bytes): Option<seq<ResourceLogs>> {
    var nodes := DecodeNodes(RequestLevel, s);
    if nodes.None? then None else Some(FoldRequest(out, nodes.value))
  }

  /** One turn of a decoding loop: the first field is read, or reading fails. */
  predicate FirstField(level: Level, s: bytes, f: Option<Field>) {
    s != [] && f == (if ReadTag(s).None? then None
      else DecodeValue(level, ReadTag(s).value.value, ReadTag(s).value.rest))
  }

  lemma DecodeNodesStep(level: Level, s: bytes, f: Option<Field>)
    requires FirstField(level, s, f)
    ensures f.None? ==> DecodeNodes(level, s).None?
    ensures f.Some? ==>
              && |f.value.nodes| <= 1 && |f.value.rest| < |s|
              && DecodeNodes(level, s) == (var more := DecodeNodes(level, f.value.rest);
                                           if more.None? then None else Some(f.value.nodes + more.value))
  {
  }

  lemma RecordStep(out: LogRecord, s: bytes, f: Option<Field>)
    requires FirstField(RecordLevel, s, f)
    ensures f.None? ==> RecordFrom(out, s) == None
    ensures f.Some? ==> RecordFrom(out, s) == RecordFrom(FoldRecord(out, f.value.nodes), f.value.rest)
    ensures f.Some? ==> |f.value.rest| < |s|
  {
    DecodeNodesStep(RecordLevel, s, f);
    if f.Some? && DecodeNodes(RecordLevel, f.value.rest).Some? {
      var nodes, more := f.value.nodes, DecodeNodes(RecordLevel, f.value.rest).value;
      assert (nodes + more)[|nodes|..] == more;
    }
  }

  lemma ScopeStep(out: ScopeLogs, s: bytes, f: Option<Field>)
    requires FirstField(ScopeLevel, s, f)
    ensures f.None? ==> ScopeFrom(out, s) == None
    ensures f.Some? ==> ScopeFrom(out, s) == ScopeFrom(FoldScope(out, f.value.nodes), f.value.rest)
    ensures f.Some? ==> |f.value.rest| < |s|
  {
    DecodeNodesStep(ScopeLevel, s, f);
    if f.Some? && DecodeNodes(ScopeLevel, f.value.rest).Some? {
      var nodes, more := f.value.nodes, DecodeNodes(ScopeLevel, f.value.rest).value;
      assert (nodes + more)[|nodes|..] == more;
    }
  }

  lemma ResourceStep(out: ResourceLogs, s: bytes, f: Option<Field>)
    requires FirstField(ResourceLevel, s, f)
    ensures f.None? ==> ResourceFrom(out, s) == None
    ensures f.Some? ==> ResourceFrom(out, s) == ResourceFrom(FoldResource(out, f.value.nodes), f.value.rest)
    ensures f.Some? ==> |f.value.rest| < |s|
  {
    DecodeNodesStep(ResourceLevel, s, f);
    if f.Some? && DecodeNodes(ResourceLevel, f.value.rest).Some? {
      var nodes, more := f.value.nodes, DecodeNodes(ResourceLevel, f.value.rest).value;
      assert (nodes + more)[|nodes|..] == more;
    }
  }

  lemma RequestStep(out: seq<ResourceLogs>, s: bytes, f: Option<Field>)
    requires FirstField(RequestLevel, s, f)
    ensures f.None? ==> RequestFrom(out, s) == None
    ensures f.Some? ==> RequestFrom(out, s) == RequestFrom(FoldRequest(out, f.value.nodes), f.value.rest)
    ensures f.Some? ==> |f.value.rest| < |s|
  {
    DecodeNodesStep(RequestLevel, s, f);
    if f.Some? && DecodeNodes(RequestLevel, f.value.rest).Some? {
      var nodes, more := f.value.nodes, DecodeNodes(RequestLevel, f.value.rest).value;
      assert (nodes + more)[|nodes|..] == more;
    }
  }

  // ---------- the decoders ----------

  /** The switch of the log record decoder: one field of `out`, or None for a thrown error. */
  method DecodeRecordField(r: DataReader, tag: Tag, out: LogRecord) returns (next: Option<LogRecord>)
    modifies r
    ensures var f := DecodeValue(RecordLevel, tag, old(r.Rest()));
            && (next.None? <==> f.None?)
            && (f.Some? ==> next == Some(FoldRecord(out, f.value.nodes)) && r.Rest() == f.value.rest)
  {
    var num := tag.fieldNumber;
    if num in {1, 11} {
      var v := r.ReadFixedWidth(8);
      if v.None? { return None; }
      next := Some(SetRecordField(out, Number(num, v.value)));
    } else if num in {2, 7} {
      var v := r.ReadVarint();
      if v.None? { return None; }
      next := Some(SetRecordField(out, Number(num, v.value)));
    } else if num == 8 {
      var v := r.ReadFixedWidth(4);
      if v.None? { return None; }
      next := Some(out.(flags := Some(v.value)));
    } else if num in {3, 5, 6, 9, 10, 12} {
      var b := r.ReadLengthDelimited();
      if b.None? { return None; }
      next := Some(SetRecordField(out, Bytes(num, b.value)));
    } else {
      var ok := r.SkipField(tag.wireType);
      if !ok { return None; }
      next := Some(out);
    }
  }

  method DecodeLogRecord(data: bytes) returns (result: Option<LogRecord>)
    ensures result == RecordFrom(NO_RECORD, data)
  {
    var r := new DataReader(data);
    var out := NO_RECORD;
    while r.offset < |data|
      invariant fresh(r) && r.view == data
      invariant RecordFrom(out, r.Rest()) == RecordFrom(NO_RECORD, data)
      decreases |r.Rest()|
    {
      ghost var s := r.Rest();
      ghost var f := if ReadTag(s).None? then None
        else DecodeValue(RecordLevel, ReadTag(s).value.value, ReadTag(s).value.rest);
      RecordStep(out, s, f);
      var tag := r.ReadFieldTag();
      if tag.None? { return None; }
      var next := DecodeRecordField(r, tag.value, out);
      if next.None? { return None; }
      out := next.value;
    }
    result := Some(out);
  }

  method DecodeScopeField(r: DataReader, tag: Tag, out: ScopeLogs) returns (next: Option<ScopeLogs>)
    modifies r
    ensures var f := DecodeValue(ScopeLevel, tag, old(r.Rest()));
            && (next.None? <==> f.None?)
            && (f.Some? ==> next == Some(FoldScope(out, f.value.nodes)) && r.Rest() == f.value.rest)
  {
    var num := tag.fieldNumber;
    if num !in {1, 2, 3} {
      var ok := r.SkipField(tag.wireType);
      return if ok then Some(out) else None;
    }
    var payload := r.ReadLengthDelimited();
    if payload.None? { return None; }
    if num == 1 {
      next := Some(out.(scope := Some(payload.value)));
    } else if num == 2 {
      var item := DecodeLogRecord(payload.value);
      if item.None? { return None; }
      next := Some(out.(logRecords := out.logRecords + [item.value]));
    } else {
      next := Some(out.(schemaUrl := Some(payload.value)));
    }
  }

  method DecodeScopeLogs(data: bytes) returns (result: Option<ScopeLogs>)
    ensures result == ScopeFrom(NO_SCOPE, data)
  {
    var r := new DataReader(data);
    var out := NO_SCOPE;
    while r.offset < |data|
      invariant fresh(r) && r.view == data
      invariant ScopeFrom(out, r.Rest()) == ScopeFrom(NO_SCOPE, data)
      decreases |r.Rest()|
    {
      ghost var s := r.Rest();
      ghost var f := if ReadTag(s).None? then None
        else DecodeValue(ScopeLevel, ReadTag(s).value.value, ReadTag(s).value.rest);
      ScopeStep(out, s, f);
      var tag := r.ReadFieldTag();
      if tag.None? { return None; }
      var next := DecodeScopeField(r, tag.value, out);
      if next.None? { return None; }
      out := next.value;
    }
    result := Some(out);
  }

  method DecodeResourceField(r: DataReader, tag: Tag, out: ResourceLogs) returns (next: Option<ResourceLogs>)
    modifies r
    ensures var f := DecodeValue(ResourceLevel, tag, old(r.Rest()));
            && (next.None? <==> f.None?)
            && (f.Some? ==> next == Some(FoldResource(out, f.value.nodes)) && r.Rest() == f.value.rest)
  {
    var num := tag.fieldNumber;
    if num !in {1, 2, 3} {
      var ok := r.SkipField(tag.wireType);
      return if ok then Some(out) else None;
    }
    var payload := r.ReadLengthDelimited();
    if payload.None? { return None; }
    if num == 1 {
      next := Some(out.(resource := Some(payload.value)));
    } else if num == 2 {
      var item := DecodeScopeLogs(payload.value);
      if item.None? { return None; }
      next := Some(out.(scopeLogs := out.scopeLogs + [item.value]));
    } else {
      next := Some(out.(schemaUrl := Some(payload.value)));
    }
  }

  method DecodeResourceLogs(data: bytes) returns (result: Option<ResourceLogs>)
    ensures result == ResourceFrom(NO_RESOURCE, data)
  {
    var r := new DataReader(data);
    var out := NO_RESOURCE;
    while r.offset < |data|
      invariant fresh(r) && r.view == data
      invariant ResourceFrom(out, r.Rest()) == ResourceFrom(NO_RESOURCE, data)
      decreases |r.Rest()|
    {
      ghost var s := r.Rest();
      ghost var f := if ReadTag(s).None? then None
        else DecodeValue(ResourceLevel, ReadTag(s).value.value, ReadTag(s).value.rest);
      ResourceStep(out, s, f);
      var tag := r.ReadFieldTag();
      if tag.None? { return None; }
      var next := DecodeResourceField(r, tag.value, out);
      if next.None? { return None; }
      out := next.value;
    }
    result := Some(out);
  }

  method DecodeRequestField(r: DataReader, tag: Tag, out: seq<ResourceLogs>) returns (next: Option<seq<ResourceLogs>>)
    modifies r
    ensures var f := DecodeValue(RequestLevel, tag, old(r.Rest()));
            && (next.None? <==> f.None?)
            && (f.Some? ==> next == Some(FoldRequest(out, f.value.nodes)) && r.Rest() == f.value.rest)
  {
    if tag.fieldNumber == 1 {
      var payload := r.ReadLengthDelimited();
      if payload.None? { return None; }
      var resource := DecodeResourceLogs(payload.value);
      if resource.None? { return None; }
      next := Some(out + [resource.value]);
    } else {
      var ok := r.SkipField(tag.wireType);
      next := if ok then Some(out) else None;
    }
  }

  method DecodeExportLogsServiceRequest(data: bytes) returns (resourceLogs: Option<seq<ResourceLogs>>)
    ensures resourceLogs == RequestFrom([], data)
  {
    var r := new DataReader(data);
    var out := [];
    while r.offset < |data|
      invariant fresh(r) && r.view == data
      invariant RequestFrom(out, r.Rest()) == RequestFrom([], data)
      decreases |r.Rest()|
    {
      ghost var s := r.Rest();
      ghost var f := if ReadTag(s).None? then None
        else DecodeValue(RequestLevel, ReadTag(s).value.value, ReadTag(s).value.rest);
      RequestStep(out, s, f);
      var tag := r.ReadFieldTag();
      if tag.None? { return None; }
      var next := DecodeRequestField(r, tag.value, out);
      if next.None? { return None; }
      out := next.value;
    }
    resourceLogs := Some(out);
  }

  // ---------- round trip ----------

  function AddNumber(num: nat, v: Option<nat>, tail: seq<Node>): seq<Node> {
    if v.None? then tail else [Number(num, v.value)] + tail
  }

  function AddBytes(num: nat, v: Option<bytes>, tail: seq<Node>): seq<Node> {
    if v.None? then tail else [Bytes(num, v.value)] + tail
  }

  function AddRepeated(num: nat, bs: seq<bytes>, tail: seq<Node>): seq<Node> {
    if bs == [] then tail else [Bytes(num, bs[0])] + AddRepeated(num, bs[1..], tail)
  }

  function RecordNodes(l: LogRecord): seq<Node> {
    AddNumber(1, l.timeUnixNano,
    AddNumber(2, l.severityNumber,
    AddBytes(3, l.severityText,
    AddBytes(5, l.body,
    AddRepeated(6, l.attributes, RecordTail(l))))))
  }

  function RecordTail(l: LogRecord): seq<Node> {
    AddNumber(7, l.droppedAttributesCount,
    AddNumber(8, l.flags,
    AddBytes(9, l.traceId, RecordEnd(l))))
  }

  function RecordEnd(l: LogRecord): seq<Node> {
    AddBytes(10, l.spanId,
    AddNumber(11, l.observedTimeUnixNano,
    AddBytes(12, l.eventName, [])))
  }

  function AddRecords(ls: seq<LogRecord>, tail: seq<Node>): seq<Node> {
    if ls == [] then tail else [Message(2, RecordNodes(ls[0]))] + AddRecords(ls[1..], tail)
  }

  function ScopeNodes(l: ScopeLogs): seq<Node> {
    AddBytes(1, l.scope, AddRecords(l.logRecords, AddBytes(3, l.schemaUrl, [])))
  }

  function AddScopes(ls: seq<ScopeLogs>, tail: seq<Node>): seq<Node> {
    if ls == [] then tail else [Message(2, ScopeNodes(ls[0]))] + AddScopes(ls[1..], tail)
  }

  function ResourceNodes(l: ResourceLogs): seq<Node> {
    AddBytes(1, l.resource, AddScopes(l.scopeLogs, AddBytes(3, l.schemaUrl, [])))
  }

  function RequestNodes(rs: seq<ResourceLogs>): seq<Node> {
    if rs == [] then [] else [Message(1, ResourceNodes(rs[0]))] + RequestNodes(rs[1..])
  }

  /** Values in the range of their fields; varint counts are exact in the source below 2^53. */
  predicate ValidRecord(l: LogRecord) {
    && (l.timeUnixNano.Some? ==> l.timeUnixNano.value < Pow2(64))
    && (l.observedTimeUnixNano.Some? ==> l.observedTimeUnixNano.value < Pow2(64))
    && (l.flags.Some? ==> l.flags.value < Pow2(32))
    && (l.severityNumber.Some? ==> l.severityNumber.value < Pow2(53))
    && (l.droppedAttributesCount.Some? ==> l.droppedAttributesCount.value < Pow2(53))
  }

  predicate ValidScope(l: ScopeLogs) {
    forall i :: 0 <= i < |l.logRecords| ==> ValidRecord(l.logRecords[i])
  }

  predicate ValidRequest(rs: seq<ResourceLogs>) {
    forall i :: 0 <= i < |rs| ==> forall j :: 0 <= j < |rs[i].scopeLogs| ==> ValidScope(rs[i].scopeLogs[j])
  }

  /** Fields that encode under the schema and hold no foreign field. */
  predicate Sound(level: Level, nodes: seq<Node>) {
    AllFit(level, nodes) && Known(nodes) == nodes
  }

  lemma SoundCons(level: Level, node: Node, tail: seq<Node>)
    requires Fits(level, node) && Sound(level, tail)
    requires !node.Foreign? && (node.Message? ==> Known(node.body) == node.body)
    ensures Sound(level, [node] + tail)
  {
    KnownSingle(node);
    KnownCons(node, tail);
    assert ([node] + tail)[1..] == tail;
  }

  lemma SoundNumber(level: Level, num: nat, v: Option<nat>, tail: seq<Node>)
    requires Sound(level, tail) && (v.Some? ==> Fits(level, Number(num, v.value)))
    ensures Sound(level, AddNumber(num, v, tail))
  {
    if v.Some? { SoundCons(level, Number(num, v.value), tail); }
  }

  lemma SoundBytes(level: Level, num: nat, v: Option<bytes>, tail: seq<Node>)
    requires Sound(level, tail) && num < 0x2000_0000 && KindOf(level, num) == AsBytes
    ensures Sound(level, AddBytes(num, v, tail))
  {
    if v.Some? { SoundCons(level, Bytes(num, v.value), tail); }
  }

  lemma {:induction false} SoundRepeated(level: Level, num: nat, bs: seq<bytes>, tail: seq<Node>)
    requires Sound(level, tail) && num < 0x2000_0000 && KindOf(level, num) == AsBytes
    ensures Sound(level, AddRepeated(num, bs, tail))
  {
    if bs != [] {
      SoundRepeated(level, num, bs[1..], tail);
      SoundCons(level, Bytes(num, bs[0]), AddRepeated(num, bs[1..], tail));
    }
  }

  lemma RecordTailSound(l: LogRecord)
    requires ValidRecord(l)
    ensures Sound(RecordLevel, RecordTail(l))
  {
    var t12 := AddBytes(12, l.eventName, []);
    var t11 := AddNumber(11, l.observedTimeUnixNano, t12);
    var t10 := AddBytes(10, l.spanId, t11);
    var t9 := AddBytes(9, l.traceId, t10);
    var t8 := AddNumber(8, l.flags, t9);
    SoundBytes(RecordLevel, 12, l.eventName, []);
    SoundNumber(RecordLevel, 11, l.observedTimeUnixNano, t12);
    SoundBytes(RecordLevel, 10, l.spanId, t11);
    SoundBytes(RecordLevel, 9, l.traceId, t10);
    SoundNumber(RecordLevel, 8, l.flags, t9);
    SoundNumber(RecordLevel, 7, l.droppedAttributesCount, t8);
  }

  lemma RecordSound(l: LogRecord)
    requires ValidRecord(l)
    ensures Sound(RecordLevel, RecordNodes(l))
  {
    RecordTailSound(l);
    var t6 := AddRepeated(6, l.attributes, RecordTail(l));
    var t5 := AddBytes(5, l.body, t6);
    var t3 := AddBytes(3, l.severityText, t5);
    var t2 := AddNumber(2, l.severityNumber, t3);
    SoundRepeated(RecordLevel, 6, l.attributes, RecordTail(l));
    SoundBytes(RecordLevel, 5, l.body, t6);
    SoundBytes(RecordLevel, 3, l.severityText, t5);
    SoundNumber(RecordLevel, 2, l.severityNumber, t3);
    SoundNumber(RecordLevel, 1, l.timeUnixNano, t2);
  }

  lemma {:induction false} SoundRecords(ls: seq<LogRecord>, tail: seq<Node>)
    requires Sound(ScopeLevel, tail) && forall i :: 0 <= i < |ls| ==> ValidRecord(ls[i])
    ensures Sound(ScopeLevel, AddRecords(ls, tail))
  {
    if ls != [] {
      RecordSound(ls[0]);
      SoundRecords(ls[1..], tail);
      SoundCons(ScopeLevel, Message(2, RecordNodes(ls[0])), AddRecords(ls[1..], tail));
    }
  }

  lemma ScopeSound(l: ScopeLogs)
    requires ValidScope(l)
    ensures Sound(ScopeLevel, ScopeNodes(l))
  {
    var t3 := AddBytes(3, l.schemaUrl, []);
    SoundBytes(ScopeLevel, 3, l.schemaUrl, []);
    SoundRecords(l.logRecords, t3);
    SoundBytes(ScopeLevel, 1, l.scope, AddRecords(l.logRecords, t3));
  }

  lemma {:induction false} SoundScopes(ls: seq<ScopeLogs>, tail: seq<Node>)
    requires Sound(ResourceLevel, tail) && forall i :: 0 <= i < |ls| ==> ValidScope(ls[i])
    ensures Sound(ResourceLevel, AddScopes(ls, tail))
  {
    if ls != [] {
      ScopeSound(ls[0]);
      SoundScopes(ls[1..], tail);
      SoundCons(ResourceLevel, Message(2, ScopeNodes(ls[0])), AddScopes(ls[1..], tail));
    }
  }

  lemma ResourceSound(l: ResourceLogs)
    requires forall j :: 0 <= j < |l.scopeLogs| ==> ValidScope(l.scopeLogs[j])
    ensures Sound(ResourceLevel, ResourceNodes(l))
  {
    var t3 := AddBytes(3, l.schemaUrl, []);
    SoundBytes(ResourceLevel, 3, l.schemaUrl, []);
    SoundScopes(l.scopeLogs, t3);
    SoundBytes(ResourceLevel, 1, l.resource, AddScopes(l.scopeLogs, t3));
  }

  lemma {:induction false} RequestSound(rs: seq<ResourceLogs>)
    requires ValidRequest(rs)
    ensures Sound(RequestLevel, RequestNodes(rs))
  {
    if rs != [] {
      ResourceSound(rs[0]);
      RequestSound(rs[1..]);
      SoundCons(RequestLevel, Message(1, ResourceNodes(rs[0])), RequestNodes(rs[1..]));
    }
  }

  lemma FoldRecordCons(out: LogRecord, node: Node, tail: seq<Node>)
    ensures FoldRecord(out, [node] + tail) == FoldRecord(SetRecordField(out, node), tail)
  {
    assert ([node] + tail)[1..] == tail;
  }

  lemma FoldNumber(out: LogRecord, next: LogRecord, num: nat, v: Option<nat>, tail: seq<Node>)
    requires next == if v.None? then out else SetRecordField(out, Number(num, v.value))
    ensures FoldRecord(out, AddNumber(num, v, tail)) == FoldRecord(next, tail)
  {
    if v.Some? { FoldRecordCons(out, Number(num, v.value), tail); }
  }

  lemma FoldBytes(out: LogRecord, next: LogRecord, num: nat, v: Option<bytes>, tail: seq<Node>)
    requires next == if v.None? then out else SetRecordField(out, Bytes(num, v.value))
    ensures FoldRecord(out, AddBytes(num, v, tail)) == FoldRecord(next, tail)
  {
    if v.Some? { FoldRecordCons(out, Bytes(num, v.value), tail); }
  }

  lemma {:induction false} FoldAttributes(out: LogRecord, bs: seq<bytes>, tail: seq<Node>)
    ensures FoldRecord(out, AddRepeated(6, bs, tail)) == FoldRecord(out.(attributes := out.attributes + bs), tail)
    decreases |bs|
  {
    if bs == [] {
      assert out.attributes + bs == out.attributes;
    } else {
      FoldRecordCons(out, Bytes(6, bs[0]), AddRepeated(6, bs[1..], tail));
      FoldAttributes(out.(attributes := out.attributes + [bs[0]]), bs[1..], tail);
      Assoc(out.attributes, [bs[0]], bs[1..]);
      assert [bs[0]] + bs[1..] == bs;
    }
  }

  lemma FoldRecordEnd(out: LogRecord, l: LogRecord)
    requires out == l.(spanId := None, observedTimeUnixNano := None, eventName := None)
    ensures FoldRecord(out, RecordEnd(l)) == l
  {
    var t12 := AddBytes(12, l.eventName, []);
    var t11 := AddNumber(11, l.observedTimeUnixNano, t12);
    var o10 := out.(spanId := l.spanId);
    var o11 := o10.(observedTimeUnixNano := l.observedTimeUnixNano);
    FoldBytes(out, o10, 10, l.spanId, t11);
    FoldNumber(o10, o11, 11, l.observedTimeUnixNano, t12);
    FoldBytes(o11, l, 12, l.eventName, []);
  }

  lemma FoldRecordTail(out: LogRecord, l: LogRecord)
    requires out == l.(droppedAttributesCount := None, flags := None, traceId := None, spanId := None,
                       observedTimeUnixNano := None, eventName := None)
    ensures FoldRecord(out, RecordTail(l)) == l
  {
    var t9 := AddBytes(9, l.traceId, RecordEnd(l));
    var t8 := AddNumber(8, l.flags, t9);
    var o7 := out.(droppedAttributesCount := l.droppedAttributesCount);
    var o8 := o7.(flags := l.flags);
    var o9 := o8.(traceId := l.traceId);
    FoldNumber(out, o7, 7, l.droppedAttributesCount, t8);
    FoldNumber(o7, o8, 8, l.flags, t9);
    FoldBytes(o8, o9, 9, l.traceId, RecordEnd(l));
    FoldRecordEnd(o9, l);
  }

  /** The record decoder's assignments, run over a record's own fields, rebuild the record. */
  lemma FoldRecordNodes(l: LogRecord)
    ensures FoldRecord(NO_RECORD, RecordNodes(l)) == l
  {
    var t6 := AddRepeated(6, l.attributes, RecordTail(l));
    var t5 := AddBytes(5, l.body, t6);
    var t3 := AddBytes(3, l.severityText, t5);
    var t2 := AddNumber(2, l.severityNumber, t3);
    var o1 := NO_RECORD.(timeUnixNano := l.timeUnixNano);
    var o2 := o1.(severityNumber := l.severityNumber);
    var o3 := o2.(severityText := l.severityText);
    var o5 := o3.(body := l.body);
    FoldNumber(NO_RECORD, o1, 1, l.timeUnixNano, t2);
    FoldNumber(o1, o2, 2, l.severityNumber, t3);
    FoldBytes(o2, o3, 3, l.severityText, t5);
    FoldBytes(o3, o5, 5, l.body, t6);
    FoldAttributes(o5, l.attributes, RecordTail(l));
    assert [] + l.attributes == l.attributes;
    FoldRecordTail(o5.(attributes := l.attributes), l);
  }

  lemma FoldScopeCons(out: ScopeLogs, node: Node, tail: seq<Node>)
    ensures FoldScope(out, [node] + tail) == FoldScope(SetScopeField(out, node), tail)
  {
    assert ([node] + tail)[1..] == tail;
  }

  lemma FoldScopeBytes(out: ScopeLogs, next: ScopeLogs, num: nat, v: Option<bytes>, tail: seq<Node>)
    requires next == if v.None? then out else SetScopeField(out, Bytes(num, v.value))
    ensures FoldScope(out, AddBytes(num, v, tail)) == FoldScope(next, tail)
  {
    if v.Some? { FoldScopeCons(out, Bytes(num, v.value), tail); }
  }

  lemma {:induction false} FoldRecords(out: ScopeLogs, ls: seq<LogRecord>, tail: seq<Node>)
    ensures FoldScope(out, AddRecords(ls, tail)) == FoldScope(out.(logRecords := out.logRecords + ls), tail)
    decreases |ls|
  {
    if ls == [] {
      assert out.logRecords + ls == out.logRecords;
    } else {
      FoldScopeCons(out, Message(2, RecordNodes(ls[0])), AddRecords(ls[1..], tail));
      FoldRecordNodes(ls[0]);
      FoldRecords(out.(logRecords := out.logRecords + [ls[0]]), ls[1..], tail);
      Assoc(out.logRecords, [ls[0]], ls[1..]);
      assert [ls[0]] + ls[1..] == ls;
    }
  }

  lemma FoldScopeNodes(l: ScopeLogs)
    ensures FoldScope(NO_SCOPE, ScopeNodes(l)) == l
  {
    var t3 := AddBytes(3, l.schemaUrl, []);
    var o1 := NO_SCOPE.(scope := l.scope);
    FoldScopeBytes(NO_SCOPE, o1, 1, l.scope, AddRecords(l.logRecords, t3));
    FoldRecords(o1, l.logRecords, t3);
    assert [] + l.logRecords == l.logRecords;
    FoldScopeBytes(o1.(logRecords := l.logRecords), l, 3, l.schemaUrl, []);
  }

  lemma FoldResourceCons(out: ResourceLogs, node: Node, tail: seq<Node>)
    ensures FoldResource(out, [node] + tail) == FoldResource(SetResourceField(out, node), tail)
  {
    assert ([node] + tail)[1..] == tail;
  }

  lemma FoldResourceBytes(out: ResourceLogs, next: ResourceLogs, num: nat, v: Option<bytes>, tail: seq<Node>)
    requires next == if v.None? then out else SetResourceField(out, Bytes(num, v.value))
    ensures FoldResource(out, AddBytes(num, v, tail)) == FoldResource(next, tail)
  {
    if v.Some? { FoldResourceCons(out, Bytes(num, v.value), tail); }
  }

  lemma {:induction false} FoldScopes(out: ResourceLogs, ls: seq<ScopeLogs>, tail: seq<Node>)
    ensures FoldResource(out, AddScopes(ls, tail)) == FoldResource(out.(scopeLogs := out.scopeLogs + ls), tail)
    decreases |ls|
  {
    if ls == [] {
      assert out.scopeLogs + ls == out.scopeLogs;
    } else {
      FoldResourceCons(out, Message(2, ScopeNodes(ls[0])), AddScopes(ls[1..], tail));
      FoldScopeNodes(ls[0]);
      FoldScopes(out.(scopeLogs := out.scopeLogs + [ls[0]]), ls[1..], tail);
      Assoc(out.scopeLogs, [ls[0]], ls[1..]);
      assert [ls[0]] + ls[1..] == ls;
    }
  }

  lemma FoldResourceNodes(l: ResourceLogs)
    ensures FoldResource(NO_RESOURCE, ResourceNodes(l)) == l
  {
    var t3 := AddBytes(3, l.schemaUrl, []);
    var o1 := NO_RESOURCE.(resource := l.resource);
    FoldResourceBytes(NO_RESOURCE, o1, 1, l.resource, AddScopes(l.scopeLogs, t3));
    FoldScopes(o1, l.scopeLogs, t3);
    assert [] + l.scopeLogs == l.scopeLogs;
    FoldResourceBytes(o1.(scopeLogs := l.scopeLogs), l, 3, l.schemaUrl, []);
  }

  lemma {:induction false} FoldRequestNodes(out: seq<ResourceLogs>, rs: seq<ResourceLogs>)
    ensures FoldRequest(out, RequestNodes(rs)) == out + rs
    decreases |rs|
  {
    if rs == [] {
      assert out + rs == out;
    } else {
      var tail := RequestNodes(rs[1..]);
      assert ([Message(1, ResourceNodes(rs[0]))] + tail)[1..] == tail;
      FoldResourceNodes(rs[0]);
      FoldRequestNodes(out + [rs[0]], rs[1..]);
      Assoc(out, [rs[0]], rs[1..]);
      assert [rs[0]] + rs[1..] == rs;
    }
  }

  /** What the decoder answers for a request body. */
  function Decode(data: bytes): Option<seq<ResourceLogs>> {
    RequestFrom([], data)
  }

  function Encode(rs: seq<ResourceLogs>): bytes {
    EncNodes(RequestLevel, RequestNodes(rs))
  }

  /** Decoding an encoded request gives the request back. */
  lemma ExportRoundTrip(rs: seq<ResourceLogs>)
    requires ValidRequest(rs)
    ensures Decode(Encode(rs)) == Some(rs)
  {
    RequestSound(rs);
    DecodeEncodedNodes(RequestLevel, RequestNodes(rs));
    FoldRequestNodes([], rs);
    assert [] + rs == rs;
  }

  // ---------- foreign fields, concatenation ----------

  /** `noisy` is `nodes` with foreign fields put in at any boundaries, at any depth. */
  predicate Inserted(nodes: seq<Node>, noisy: seq<Node>)
    decreases noisy
  {
    if noisy == [] then nodes == []
    else
      || (noisy[0].Foreign? && Inserted(nodes, noisy[1..]))
      || (nodes != [] && InsertedInside(nodes[0], noisy[0]) && Inserted(nodes[1..], noisy[1..]))
  }

  predicate InsertedInside(node: Node, noisy: Node)
    decreases noisy
  {
    if node.Message? && noisy.Message? then node.num == noisy.num && Inserted(node.body, noisy.body) else node == noisy
  }

  lemma {:induction false} InsertedKnown(nodes: seq<Node>, noisy: seq<Node>)
    requires Inserted(nodes, noisy)
    ensures Known(nodes) == Known(noisy)
    decreases noisy
  {
    if noisy != [] {
      if noisy[0].Foreign? && Inserted(nodes, noisy[1..]) {
        InsertedKnown(nodes, noisy[1..]);
      } else {
        InsertedKnown(nodes[1..], noisy[1..]);
        if nodes[0].Message? && noisy[0].Message? {
          InsertedKnown(nodes[0].body, noisy[0].body);
        }
      }
    }
  }

  /** Well-formed unknown fields, wherever they are inserted, do not change the result. */
  lemma ForeignFieldsHarmless(rs: seq<ResourceLogs>, noisy: seq<Node>)
    requires ValidRequest(rs) && Inserted(RequestNodes(rs), noisy) && AllFit(RequestLevel, noisy)
    ensures Decode(EncNodes(RequestLevel, noisy)) == Some(rs)
  {
    ExportRoundTrip(rs);
    RequestSound(rs);
    DecodeEncodedNodes(RequestLevel, RequestNodes(rs));
    InsertedKnown(RequestNodes(rs), noisy);
    DecodeEncodedNodes(RequestLevel, noisy);
  }

  lemma {:induction false} FoldRequestAppend(out: seq<ResourceLogs>, a: seq<Node>, b: seq<Node>)
    ensures FoldRequest(out, a + b) == FoldRequest(out, a) + FoldRequest([], b)
    decreases |a|, |b|
  {
    if a != [] {
      assert (a + b)[1..] == a[1..] + b;
      FoldRequestAppend(if a[0].Message? then out + [FoldResource(NO_RESOURCE, a[0].body)] else out, a[1..], b);
    } else {
      assert a + b == b;
      FoldRequestFrom(out, b);
    }
  }

  lemma {:induction false} FoldRequestFrom(out: seq<ResourceLogs>, b: seq<Node>)
    ensures FoldRequest(out, b) == out + FoldRequest([], b)
    decreases |b|
  {
    if b == [] {
      assert out + [] == out;
    } else if b[0].Message? {
      var first := [FoldResource(NO_RESOURCE, b[0].body)];
      assert [] + first == first;
      FoldRequestFrom(out + first, b[1..]);
      FoldRequestFrom(first, b[1..]);
      Assoc(out, first, FoldRequest([], b[1..]));
    } else {
      FoldRequestFrom(out, b[1..]);
    }
  }

  lemma {:induction false} KnownAppend(a: seq<Node>, b: seq<Node>)
    ensures Known(a + b) == Known(a) + Known(b)
    decreases |a|
  {
    if a == [] {
      assert a + b == b;
    } else {
      assert a + b == [a[0]] + (a[1..] + b) && a == [a[0]] + a[1..];
      KnownAppend(a[1..], b);
      KnownCons(a[0], a[1..] + b);
      KnownCons(a[0], a[1..]);
      Assoc(Known([a[0]]), Known(a[1..]), Known(b));
    }
  }

  /** Two request bodies one after the other decode to both results one after the other. */
  lemma Concatenation(a: seq<Node>, b: seq<Node>)
    requires AllFit(RequestLevel, a) && AllFit(RequestLevel, b)
    ensures var x, y := EncNodes(RequestLevel, a), EncNodes(RequestLevel, b);
            Decode(x).Some? && Decode(y).Some? && Decode(x + y) == Some(Decode(x).value + Decode(y).value)
  {
    EncNodesAppend(RequestLevel, a, b);
    DecodeEncodedNodes(RequestLevel, a);
    DecodeEncodedNodes(RequestLevel, b);
    DecodeEncodedNodes(RequestLevel, a + b);
    KnownAppend(a, b);
    FoldRequestAppend([], Known(a), Known(b));
  }
}
