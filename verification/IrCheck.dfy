/**
 What a `ConductorSpec` body must satisfy to be accepted. The functions state
 each check's verdict; `IrLoops` runs them, one loop each.
 */
module IrCheck {
  import opened Basics
  import opened Words
  import opened Bytes
  import opened IrModel
  import opened IrReader

  type Check = Result<(), IrError>

  datatype Span = Span(offset: nat, len: nat)

  predicate Overlap(a: Span, b: Span) {
    a.offset < b.offset + b.len && b.offset < a.offset + a.len
  }

  function End(s: Span): nat {
    s.offset + s.len
  }

  function Verdict(ok: bool, e: IrError): Check {
    if ok then Ok(()) else Err(e)
  }

  /** The first failure among `checks(0), ..., checks(n - 1)`. */
  function FirstError(checks: nat -> Check, n: nat): Check {
    if n == 0 then Ok(())
    else
      var _ :- FirstError(checks, n - 1);
      checks(n - 1)
  }

  lemma {:induction false} FirstErrorOk(checks: nat -> Check, n: nat)
    ensures FirstError(checks, n).Ok? <==> forall k: nat | k < n :: checks(k).Ok?
  {
    if n > 0 {
      FirstErrorOk(checks, n - 1);
    }
  }

  lemma {:induction false} FirstErrorIs(checks: nat -> Check, n: nat, k: nat)
    requires k < n && checks(k).Err? && forall j: nat | j < k :: checks(j).Ok?
    ensures FirstError(checks, n) == checks(k)
  {
    if k == n - 1 {
      FirstErrorOk(checks, k);
    } else {
      FirstErrorIs(checks, n - 1, k);
    }
  }

  // ---------------------------------------------------------------------
  // Sections
  // ---------------------------------------------------------------------

  function SliceTable(body: seq<U8>, field: nat, count: U32, entryLen: nat): (r: Result<(nat, seq<U8>), IrError>)
    ensures r.Ok? ==>
              CONDUCTOR_HEADER_LEN <= r.value.0 && r.value.0 + |r.value.1| <= |body| && |r.value.1| == count * entryLen
    ensures r.Ok? ==> r.value.1 == body[r.value.0..r.value.0 + |r.value.1|]
  {
    var off :- ReadU32(body, field);
    if off < CONDUCTOR_HEADER_LEN then Err(OutOfBounds)
    else
      assert 0 <= count * entryLen;
      var t :- Slice(body, off, off + count * entryLen);
      Ok((off, t))
  }

  predicate SectionsDisjoint(sections: seq<Span>) {
    forall i, j | 0 <= i < j < |sections| :: !Overlap(sections[i], sections[j])
  }

  predicate EdgesInRange(edgeTable: seq<U8>, n: nat, stageCount: U32)
    requires n * EDGE_LEN <= |edgeTable|
  {
    forall j | 0 <= j < n ::
      EdgeAt(edgeTable, j).fromOrdinal < stageCount && EdgeAt(edgeTable, j).toOrdinal < stageCount
  }

  // ---------------------------------------------------------------------
  // Policy records
  // ---------------------------------------------------------------------

  /** The span of the record slot `n` points at, if the slot is not empty. */
  function RecordSpan(body: seq<U8>, stageTable: seq<U8>, n: nat): Result<Option<Span>, IrError>
    requires 4 * n + 4 <= |stageTable|
  {
    var off := SlotAt(stageTable, n);
    if off == 0 then Ok(None)
    else if off < CONDUCTOR_HEADER_LEN then Err(OutOfBounds)
    else
      var record :- ReadRecord(body, off);
      Ok(Some(Span(off, RECORD_HEADER_LEN + |record.body|)))
  }

  predicate OverlapsAny(s: Span, sections: seq<Span>) {
    exists i | 0 <= i < |sections| :: Overlap(s, sections[i])
  }

  function CheckSlot(body: seq<U8>, stageTable: seq<U8>, sections: seq<Span>, n: nat): Check
    requires 4 * n + 4 <= |stageTable|
  {
    var span :- RecordSpan(body, stageTable, n);
    if span.None? then Ok(())
    else
      var record :- ReadRecord(body, span.value.offset);
      if record.tag != NodeTag(n % KINDS) then Err(BadTag(record.tag))
      else
        var _ :- DecodePolicy(n % KINDS, record.body);
        Verdict(!OverlapsAny(span.value, sections), OutOfBounds)
  }

  function SlotChecks(body: seq<U8>, stageTable: seq<U8>, sections: seq<Span>): nat -> Check {
    (n: nat) => if 4 * n + 4 <= |stageTable| then CheckSlot(body, stageTable, sections, n) else Ok(())
  }

  function CheckPair(body: seq<U8>, stageTable: seq<U8>, a: Span, n: nat): Check
    requires 4 * n + 4 <= |stageTable|
  {
    var b :- RecordSpan(body, stageTable, n);
    Verdict(b.None? || !Overlap(a, b.value), OutOfBounds)
  }

  /** Record `a` against the slots from `from` on. */
  function PairChecks(body: seq<U8>, stageTable: seq<U8>, a: Span, from: nat): nat -> Check {
    (i: nat) => if 4 * (from + i) + 4 <= |stageTable| then CheckPair(body, stageTable, a, from + i) else Ok(())
  }

  /** Slot `a` against every slot after it, below `n`. */
  function CheckRow(body: seq<U8>, stageTable: seq<U8>, n: nat, a: nat): Check
    requires a < n && 4 * n <= |stageTable|
  {
    var span :- RecordSpan(body, stageTable, a);
    if span.None? then Ok(()) else FirstError(PairChecks(body, stageTable, span.value, a + 1), n - a - 1)
  }

  function RowChecks(body: seq<U8>, stageTable: seq<U8>, n: nat): nat -> Check {
    (a: nat) => if a < n && 4 * n <= |stageTable| then CheckRow(body, stageTable, n, a) else Ok(())
  }

  function Max(a: nat, b: nat): nat {
    if a < b then b else a
  }

  function SectionsEnd(sections: seq<Span>): nat {
    if sections == [] then 0 else Max(SectionsEnd(sections[..|sections| - 1]), End(sections[|sections| - 1]))
  }

  /** Where the record in slot `n` ends; 0 for an empty slot. */
  function RecordEnds(body: seq<U8>, stageTable: seq<U8>): nat -> Result<nat, IrError> {
    (n: nat) =>
      if 4 * n + 4 > |stageTable| then Ok(0)
      else match RecordSpan(body, stageTable, n)
        case Err(e) => Err(e)
        case Ok(span) => Ok(if span.None? then 0 else End(span.value))
  }

  /** The greatest of `start` and the first `n` ends. */
  function Highest(ends: nat -> Result<nat, IrError>, start: nat, n: nat): Result<nat, IrError> {
    if n == 0 then Ok(start)
    else
      var high :- Highest(ends, start, n - 1);
      var end :- ends(n - 1);
      Ok(Max(high, end))
  }

  /** Past every section and every record. */
  function Floor(sections: seq<Span>, body: seq<U8>, stageTable: seq<U8>, n: nat): Result<nat, IrError> {
    Highest(RecordEnds(body, stageTable), SectionsEnd(sections), n)
  }

  // ---------------------------------------------------------------------
  // The registry and the config section
  // ---------------------------------------------------------------------

  datatype ParsedRegistry = ParsedRegistry(view: RegistryView, nameSpan: Span, sortedSpan: Span)

  predicate NamesResolve(v: RegistryView) {
    forall i | 0 <= i < v.count :: Name(v, i).Some?
  }

  predicate SortedInRange(sorted: seq<U8>, stageCount: U32)
    requires stageCount * SORTED_ENTRY_LEN <= |sorted|
  {
    forall k | 0 <= k < stageCount :: U16At(sorted, k * SORTED_ENTRY_LEN) < stageCount
  }

  predicate RegistryFramed(body: seq<U8>, stageCount: U32, r: ParsedRegistry) {
    && r.view.body == body && r.view.count == stageCount
    && |r.view.nameTable| == stageCount * NAME_ENTRY_LEN && |r.view.sortedIndex| == stageCount * SORTED_ENTRY_LEN
    && r.nameSpan.len == |r.view.nameTable| && r.sortedSpan == Span(End(r.nameSpan), |r.view.sortedIndex|)
    && CONDUCTOR_HEADER_LEN <= r.nameSpan.offset && End(r.sortedSpan) <= |body|
    && r.view.nameTable == body[r.nameSpan.offset..End(r.nameSpan)]
    && r.view.sortedIndex == body[r.sortedSpan.offset..End(r.sortedSpan)]
  }

  function ParseRegistry(body: seq<U8>, stageCount: U32): (r: Result<Option<ParsedRegistry>, IrError>)
    ensures r.Ok? && r.value.Some? ==> RegistryFramed(body, stageCount, r.value.value)
  {
    var off :- ReadU32(body, 16);
    if off == 0 then Ok(None)
    else
      var names :- SliceTable(body, 16, stageCount, NAME_ENTRY_LEN);
      var sortedOff := names.0 + |names.1|;
      var sorted :- Slice(body, sortedOff, sortedOff + stageCount * SORTED_ENTRY_LEN);
      var view := RegistryView(body, names.1, sorted, stageCount);
      var _ :- Verdict(NamesResolve(view), OutOfBounds);
      var _ :- Verdict(SortedInRange(sorted, stageCount), OrdinalOutOfRange);
      Ok(Some(ParsedRegistry(view, Span(names.0, |names.1|), Span(sortedOff, |sorted|))))
  }

  datatype ParsedConfig = ParsedConfig(count: U32, entries: seq<U8>, span: Span)

  function CheckBinding(body: seq<U8>, entries: seq<U8>, stageCount: U32, i: nat): Check
    requires (i + 1) * BINDING_LEN <= |entries|
  {
    var b :- ParseBinding(body, entries, i);
    Verdict(b.nodeOrdinal < stageCount, OrdinalOutOfRange)
  }

  function BindingChecks(body: seq<U8>, entries: seq<U8>, stageCount: U32): nat -> Check {
    (i: nat) => if (i + 1) * BINDING_LEN <= |entries| then CheckBinding(body, entries, stageCount, i) else Ok(())
  }

  predicate ConfigFramed(body: seq<U8>, c: ParsedConfig) {
    && |c.entries| == c.count * BINDING_LEN && c.span.len == CONFIG_HEADER_LEN + |c.entries|
    && CONDUCTOR_HEADER_LEN <= c.span.offset && End(c.span) <= |body|
    && c.entries == body[c.span.offset + CONFIG_HEADER_LEN..End(c.span)]
  }

  function ParseConfig(body: seq<U8>, stageCount: U32): (r: Result<Option<ParsedConfig>, IrError>)
    ensures r.Ok? && r.value.Some? ==> ConfigFramed(body, r.value.value)
  {
    var off :- ReadU32(body, 20);
    if off == 0 then Ok(None)
    else if off < CONDUCTOR_HEADER_LEN then Err(OutOfBounds)
    else
      var count :- ReadU32(body, off);
      var start := off + CONFIG_HEADER_LEN;
      var entries :- Slice(body, start, start + count * BINDING_LEN);
      var _ :- FirstError(BindingChecks(body, entries, stageCount), count);
      Ok(Some(ParsedConfig(count, entries, Span(off, CONFIG_HEADER_LEN + count * BINDING_LEN))))
  }

  predicate NamesInHeap(nameTable: seq<U8>, n: nat, floor: nat)
    requires n * NAME_ENTRY_LEN <= |nameTable|
  {
    forall i | 0 <= i < n :: NameOffset(nameTable, i) >= floor
  }

  predicate KeysInHeap(entries: seq<U8>, n: nat, floor: nat)
    requires n * BINDING_LEN <= |entries|
  {
    forall i | 0 <= i < n :: KeyOffset(entries, i) >= floor
  }

  /** The name at a rank of the sorted index. */
  function Ranked(v: RegistryView, rank: nat): Result<seq<U8>, IrError> {
    match SortedOrdinal(v, rank)
    case None => Err(OutOfBounds)
    case Some(ordinal) =>
      match Name(v, ordinal)
      case None => Err(OutOfBounds)
      case Some(name) => Ok(name)
  }

  function Ranks(v: RegistryView): nat -> Result<seq<U8>, IrError> {
    (rank: nat) => Ranked(v, rank)
  }

  /** Each rank resolves, to a name not before the previous one. */
  function OrderChecks(names: nat -> Result<seq<U8>, IrError>): nat -> Check {
    (rank: nat) =>
      match names(rank)
      case Err(e) => Err(e)
      case Ok(name) =>
        if rank == 0 then Ok(())
        else match names(rank - 1)
          case Err(e) => Err(e)
          case Ok(prev) => Verdict(!Less(name, prev), RegistryUnsorted)
  }

  // ---------------------------------------------------------------------
  // The whole body
  // ---------------------------------------------------------------------

  /** The tables a body's header names. */
  datatype Tables = Tables(
    body: seq<U8>,
    stageCount: U32,
    edgeCount: U32,
    stageSpan: Span,
    stageTable: seq<U8>,
    edgeSpan: Span,
    edgeTable: seq<U8>,
    registry: Option<ParsedRegistry>,
    config: Option<ParsedConfig>)

  predicate Framed(t: Tables) {
    && |t.stageTable| == t.stageCount * STAGE_ENTRY_LEN && |t.edgeTable| == t.edgeCount * EDGE_LEN
    && t.stageSpan.len == |t.stageTable| && t.edgeSpan.len == |t.edgeTable|
    && CONDUCTOR_HEADER_LEN <= t.stageSpan.offset && End(t.stageSpan) <= |t.body|
    && CONDUCTOR_HEADER_LEN <= t.edgeSpan.offset && End(t.edgeSpan) <= |t.body|
    && t.stageTable == t.body[t.stageSpan.offset..End(t.stageSpan)]
    && t.edgeTable == t.body[t.edgeSpan.offset..End(t.edgeSpan)]
    && (t.registry.Some? ==> RegistryFramed(t.body, t.stageCount, t.registry.value))
    && (t.config.Some? ==> ConfigFramed(t.body, t.config.value))
  }

  function ReadTables(body: seq<U8>): (r: Result<Tables, IrError>)
    ensures r.Ok? ==> Framed(r.value) && r.value.body == body
  {
    var stageCount :- ReadU32(body, 0);
    var edgeCount :- ReadU32(body, 4);
    var stages :- SliceTable(body, 8, stageCount, STAGE_ENTRY_LEN);
    var edges :- SliceTable(body, 12, edgeCount, EDGE_LEN);
    var registry :- ParseRegistry(body, stageCount);
    var config :- ParseConfig(body, stageCount);
    Ok(Tables(body, stageCount, edgeCount, Span(stages.0, |stages.1|), stages.1, Span(edges.0, |edges.1|), edges.1,
              registry, config))
  }

  /** The spans that must not overlap. */
  function Sections(t: Tables): seq<Span> {
    [t.stageSpan, t.edgeSpan]
    + (if t.registry.None? then [] else [t.registry.value.nameSpan, t.registry.value.sortedSpan])
    + (if t.config.None? then [] else [t.config.value.span])
  }

  function Slots(t: Tables): nat {
    KINDS * t.stageCount
  }

  function CheckStrings(t: Tables, floor: nat): Check
    requires Framed(t)
  {
    var _ :- if t.registry.None? then Ok(())
             else
               var _ :- Verdict(NamesInHeap(t.registry.value.view.nameTable, t.stageCount, floor), OutOfBounds);
               FirstError(OrderChecks(Ranks(t.registry.value.view)), t.stageCount);
    if t.config.None? then Ok(())
    else Verdict(KeysInHeap(t.config.value.entries, t.config.value.count, floor), OutOfBounds)
  }

  function CheckTables(t: Tables): Check
    requires Framed(t)
  {
    var _ :- Verdict(SectionsDisjoint(Sections(t)), OutOfBounds);
    var _ :- Verdict(EdgesInRange(t.edgeTable, t.edgeCount, t.stageCount), OrdinalOutOfRange);
    var _ :- FirstError(SlotChecks(t.body, t.stageTable, Sections(t)), Slots(t));
    var _ :- FirstError(RowChecks(t.body, t.stageTable, Slots(t)), Slots(t));
    var floor :- Floor(Sections(t), t.body, t.stageTable, Slots(t));
    CheckStrings(t, floor)
  }

  function View(t: Tables): Parsed {
    Parsed(t.body, t.stageCount, t.edgeCount, t.stageTable, t.edgeTable,
           if t.registry.None? then None else Some(t.registry.value.view),
           if t.config.None? then 0 else t.config.value.count,
           if t.config.None? then [] else t.config.value.entries)
  }

  /** The checked view of a conductor body, or the first check that fails. */
  function Parse(body: seq<U8>): Result<Parsed, IrError> {
    var t :- ReadTables(body);
    var _ :- CheckTables(t);
    Ok(View(t))
  }

  /** The root record of a blob: a conductor spec. */
  function Root(bytes: seq<U8>): Result<seq<U8>, IrError> {
    var off :- ReadU32(bytes, 12);
    var root :- ReadRecord(bytes, off);
    if root.tag != CONDUCTOR_SPEC_TAG then Err(BadTag(root.tag)) else Ok(root.body)
  }

  /** `validate`: the checked view of untrusted bytes. */
  function Validate(bytes: seq<U8>): Result<Parsed, IrError> {
    if |bytes| < HEADER_LEN then Err(Truncated)
    else if bytes[..4] != MAGIC then Err(BadMagic)
    else
      var version :- ReadU16(bytes, 4);
      if version > VERSION then Err(UnsupportedVersion(version))
      else
        var total :- ReadU32(bytes, 8);
        if total != |bytes| then Err(Truncated)
        else
          var body :- Root(bytes);
          Parse(body)
  }
}
