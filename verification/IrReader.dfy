/** Bounds-checked reads of untrusted bytes: fields, record frames, table entries and the views over them. */
module IrReader {
  import opened Basics
  import opened Words
  import opened Bytes
  import opened IrModel

  function ReadU16(b: seq<U8>, off: nat): Result<U16, IrError> {
    if off + 2 <= |b| then Ok(U16At(b, off)) else Err(Truncated)
  }

  function ReadU32(b: seq<U8>, off: nat): Result<U32, IrError> {
    if off + 4 <= |b| then Ok(U32At(b, off)) else Err(Truncated)
  }

  /** `get(lo..hi)`, out of bounds when the slice does not exist. */
  function Slice(b: seq<U8>, lo: nat, hi: nat): Result<seq<U8>, IrError> {
    if lo <= hi <= |b| then Ok(b[lo..hi]) else Err(OutOfBounds)
  }

  datatype RecordView = RecordView(tag: U16, body: seq<U8>)

  /** The record frame at `off`. */
  function ReadRecord(b: seq<U8>, off: nat): (r: Result<RecordView, IrError>)
    ensures r.Ok? ==> off + RECORD_HEADER_LEN + |r.value.body| <= |b| && off % 8 == 0
    ensures r.Ok? ==> r.value.body == b[off + RECORD_HEADER_LEN..off + RECORD_HEADER_LEN + |r.value.body|]
    ensures r.Ok? ==> r.value.tag == U16At(b, off) && 1 <= r.value.tag <= 9
  {
    if off % 8 != 0 then Err(Misaligned)
    else
      var tag :- ReadU16(b, off);
      var len :- ReadU32(b, off + 4);
      if len < RECORD_HEADER_LEN then Err(OutOfBounds)
      else if len % 8 != 0 then Err(Misaligned)
      else
        var body :- Slice(b, off + RECORD_HEADER_LEN, off + len);
        if 1 <= tag <= 9 then Ok(RecordView(tag, body)) else Err(BadTag(tag))
  }

  /** A policy body of exactly its kind's length. */
  function DecodePolicy(k: Kind, b: seq<U8>): (r: Result<Policy, IrError>)
    ensures r.Ok? <==> |b| == BodyLen(k)
    ensures r.Ok? ==> KindOf(r.value) == k
  {
    if |b| != BodyLen(k) then Err(Truncated)
    else match k
      case 0 => Ok(Limiter(U32At(b, 0), U32At(b, 4), U64At(b, 8)))
      case 1 => Ok(Timeout(U64At(b, 0)))
      case 2 => Ok(Retry(U32At(b, 0), b[4], b[5], U64At(b, 8), U64At(b, 16)))
      case _ => Ok(Breaker(b[0], b[1], U32At(b, 4), U64At(b, 8), U32At(b, 16), U32At(b, 20), U64At(b, 24)))
  }

  // ---------------------------------------------------------------------
  // Table entries
  // ---------------------------------------------------------------------

  /** The record offset in slot `n % 4` of stage entry `n / 4`. */
  function SlotAt(stageTable: seq<U8>, n: nat): U32
    requires 4 * n + 4 <= |stageTable|
  {
    U32At(stageTable, 4 * n)
  }

  function EdgeAt(edgeTable: seq<U8>, j: nat): EdgeView
    requires (j + 1) * EDGE_LEN <= |edgeTable|
  {
    EdgeView(U16At(edgeTable, j * EDGE_LEN), U16At(edgeTable, j * EDGE_LEN + 2), U16At(edgeTable, j * EDGE_LEN + 4))
  }

  datatype RegistryView = RegistryView(body: seq<U8>, nameTable: seq<U8>, sortedIndex: seq<U8>, count: U32)

  function NameOffset(nameTable: seq<U8>, i: nat): U32
    requires (i + 1) * NAME_ENTRY_LEN <= |nameTable|
  {
    U32At(nameTable, i * NAME_ENTRY_LEN)
  }

  function Name(v: RegistryView, ordinal: nat): Option<seq<U8>> {
    if ordinal >= v.count || (ordinal + 1) * NAME_ENTRY_LEN > |v.nameTable| then None
    else
      var off := NameOffset(v.nameTable, ordinal);
      var end := off + U32At(v.nameTable, ordinal * NAME_ENTRY_LEN + 4);
      if end <= |v.body| then Some(v.body[off..end]) else None
  }

  function SortedOrdinal(v: RegistryView, rank: nat): Option<U16> {
    if (rank + 1) * SORTED_ENTRY_LEN <= |v.sortedIndex| then Some(U16At(v.sortedIndex, rank * SORTED_ENTRY_LEN))
    else None
  }

  function KeyOffset(entries: seq<U8>, i: nat): U32
    requires (i + 1) * BINDING_LEN <= |entries|
  {
    U32At(entries, i * BINDING_LEN + 8)
  }

  /** Config entry `i`, its key resolved against the body. */
  function ParseBinding(body: seq<U8>, entries: seq<U8>, i: nat): Result<Binding, IrError>
    requires (i + 1) * BINDING_LEN <= |entries|
  {
    var at := i * BINDING_LEN;
    var off := KeyOffset(entries, i);
    var key :- Slice(body, off, off + U32At(entries, at + 4));
    Ok(Binding(U16At(entries, at), U16At(entries, at + 2), key, ScalarValue(entries[at + 16], U64At(entries, at + 24))))
  }

  // ---------------------------------------------------------------------
  // The checked body and its accessors
  // ---------------------------------------------------------------------

  datatype Parsed = Parsed(
    body: seq<U8>,
    stageCount: U32,
    edgeCount: U32,
    stageTable: seq<U8>,
    edgeTable: seq<U8>,
    registry: Option<RegistryView>,
    configCount: U32,
    configEntries: seq<U8>)

  datatype StageView = StageView(body: seq<U8>, entry: seq<U8>)

  function Stage(v: Parsed, ordinal: nat): Option<StageView> {
    if ordinal >= v.stageCount || (ordinal + 1) * STAGE_ENTRY_LEN > |v.stageTable| then None
    else Some(StageView(v.body, v.stageTable[ordinal * STAGE_ENTRY_LEN..(ordinal + 1) * STAGE_ENTRY_LEN]))
  }

  function PolicyBody(s: StageView, k: Kind): Option<seq<U8>> {
    match ReadU32(s.entry, 4 * k)
    case Err(_) => None
    case Ok(off) =>
      if off == 0 then None
      else match ReadRecord(s.body, off)
        case Err(_) => None
        case Ok(record) => if record.tag == NodeTag(k) then Some(record.body) else None
  }

  /** The stage's policy of one kind, if any. */
  function PolicyOf(s: StageView, k: Kind): Option<Policy> {
    match PolicyBody(s, k)
    case None => None
    case Some(body) =>
      match DecodePolicy(k, body)
      case Err(_) => None
      case Ok(p) => Some(p)
  }

  function Edge(v: Parsed, index: nat): Option<EdgeView> {
    if (index + 1) * EDGE_LEN <= |v.edgeTable| then Some(EdgeAt(v.edgeTable, index)) else None
  }

  function ConfigBinding(v: Parsed, index: nat): Option<Binding> {
    if (index + 1) * BINDING_LEN > |v.configEntries| then None
    else match ParseBinding(v.body, v.configEntries, index)
      case Err(_) => None
      case Ok(b) => Some(b)
  }
}
