/** The bytes of a conductor blob: every section, its length and its place. */
module IrEncoding {
  import opened Basics
  import opened Words
  import opened Bytes
  import opened IrModel
  import Arena
  import Bits

  /** Rounded up to a multiple of 8. */
  function Align8(x: nat): (r: nat)
    ensures x <= r < x + 8 && r % 8 == 0
  {
    x + 7 - (x + 7) % 8
  }

  /** Rounding up is adding 7 and clearing the low three bits, as the arena's alignment does. */
  lemma Align8Masks(x: nat)
    requires x + 7 <= Arena.USIZE_MAX
    ensures Bits.And(x + 7, Arena.USIZE_MAX - 7) == Align8(x)
  {
    hide Bits.And;
    assert Bits.IsPow2(8) by {
      assert Bits.IsPow2(1) && Bits.IsPow2(2) && Bits.IsPow2(4);
    }
    Arena.AlignUpIsLeast(x, 8);
    assert Align8(x) % 8 == 0;
  }

  function Zeros(n: nat): (z: seq<U8>)
    ensures |z| == n
  {
    seq(n, _ => 0)
  }

  // ---------------------------------------------------------------------
  // Policy records
  // ---------------------------------------------------------------------

  function PolicyBytes(p: Policy): (b: seq<U8>)
    ensures |b| == BodyLen(KindOf(p))
  {
    match p
    case Limiter(capacity, tokens, period) => ToLE(capacity, 4) + ToLE(tokens, 4) + ToLE(period, 8)
    case Timeout(duration) => ToLE(duration, 8)
    case Retry(attempts, backoff, jitter, base, cap) =>
      ToLE(attempts, 4) + [backoff] + [jitter] + ToLE(0, 2) + ToLE(base, 8) + ToLE(cap, 8)
    case Breaker(kind, rate, calls, span, trials, threshold, open) =>
      [kind] + [rate] + ToLE(0, 2) + ToLE(calls, 4) + ToLE(span, 8)
      + ToLE(trials, 4) + ToLE(threshold, 4) + ToLE(open, 8)
  }

  function FrameBytes(tag: U16, bodyLen: nat): (b: seq<U8>)
    ensures |b| == RECORD_HEADER_LEN
  {
    ToLE(tag, 2) + ToLE(0, 2) + ToLE(RECORD_HEADER_LEN + bodyLen, 4)
  }

  function RecordLen(slot: Option<Policy>): nat {
    if slot.None? then 0 else RECORD_HEADER_LEN + BodyLen(KindOf(slot.value))
  }

  function RecordBytes(slot: Option<Policy>): (b: seq<U8>)
    ensures |b| == RecordLen(slot)
  {
    if slot.None? then []
    else FrameBytes(NodeTag(KindOf(slot.value)), BodyLen(KindOf(slot.value))) + PolicyBytes(slot.value)
  }

  /** Every stage's slots in order: slot `k` of stage `i` at `4 * i + k`. */
  function SlotsOf(stages: seq<StageSpec>): (r: seq<Option<Policy>>)
    ensures |r| == KINDS * |stages|
  {
    if stages == [] then [] else SlotsOf(stages[..|stages| - 1]) + stages[|stages| - 1]
  }

  lemma {:induction false} SlotsAt(stages: seq<StageSpec>, i: nat, k: Kind)
    requires i < |stages|
    ensures SlotsOf(stages)[KINDS * i + k] == stages[i][k]
  {
    if i < |stages| - 1 {
      SlotsAt(stages[..|stages| - 1], i, k);
    }
  }

  function Records(slots: seq<Option<Policy>>): seq<U8> {
    if slots == [] then [] else Records(slots[..|slots| - 1]) + RecordBytes(slots[|slots| - 1])
  }

  /** The body offset of slot `n`'s record, the first record being at `base`. */
  function RecordOffset(slots: seq<Option<Policy>>, base: nat, n: nat): nat
    requires n < |slots|
  {
    if slots[n].None? then 0 else base + |Records(slots[..n])|
  }

  function SlotTable(slots: seq<Option<Policy>>, base: nat): (b: seq<U8>)
    ensures |b| == 4 * |slots|
  {
    if slots == [] then []
    else SlotTable(slots[..|slots| - 1], base) + ToLE(RecordOffset(slots, base, |slots| - 1), 4)
  }

  // ---------------------------------------------------------------------
  // Edges, names, sorted index, bindings
  // ---------------------------------------------------------------------

  function EdgeBytes(e: EdgeView): (b: seq<U8>)
    ensures |b| == EDGE_LEN
  {
    ToLE(e.fromOrdinal, 2) + ToLE(e.toOrdinal, 2) + ToLE(e.inputIndex, 2) + ToLE(0, 2)
  }

  function EdgeTable(edges: seq<EdgeView>): (b: seq<U8>)
    ensures |b| == EDGE_LEN * |edges|
  {
    if edges == [] then [] else EdgeTable(edges[..|edges| - 1]) + EdgeBytes(edges[|edges| - 1])
  }

  /** All names, end to end. */
  function Concat(names: seq<seq<U8>>): seq<U8> {
    if names == [] then [] else Concat(names[..|names| - 1]) + names[|names| - 1]
  }

  function NameTable(names: seq<seq<U8>>, heap: nat): (b: seq<U8>)
    ensures |b| == NAME_ENTRY_LEN * |names|
  {
    if names == [] then []
    else
      var k := |names| - 1;
      NameTable(names[..k], heap) + (ToLE(heap + |Concat(names[..k])|, 4) + ToLE(|names[k]|, 4))
  }

  function SortedTable(sorted: seq<U16>): (b: seq<U8>)
    ensures |b| == SORTED_ENTRY_LEN * |sorted|
  {
    if sorted == [] then [] else SortedTable(sorted[..|sorted| - 1]) + ToLE(sorted[|sorted| - 1], 2)
  }

  function KeysOf(config: seq<Binding>): (r: seq<seq<U8>>)
    ensures |r| == |config|
  {
    seq(|config|, i requires 0 <= i < |config| => config[i].key)
  }

  function BindingBytes(b: Binding, keyOff: nat): (r: seq<U8>)
    ensures |r| == BINDING_LEN
  {
    ToLE(b.nodeOrdinal, 2) + ToLE(b.fieldTag, 2) + ToLE(|b.key|, 4) + ToLE(keyOff, 4) + ToLE(0, 4)
    + ToLE(b.default.kind, 8) + ToLE(b.default.value, 8)
  }

  function BindingTable(config: seq<Binding>, heap: nat): (r: seq<U8>)
    ensures |r| == BINDING_LEN * |config|
  {
    if config == [] then []
    else
      var k := |config| - 1;
      BindingTable(config[..k], heap) + BindingBytes(config[k], heap + |Concat(KeysOf(config[..k]))|)
  }

  // ---------------------------------------------------------------------
  // The layout
  // ---------------------------------------------------------------------

  datatype Layout = Layout(
    total: nat,
    specRecordLen: nat,
    stageCount: U32,
    edgeCount: U32,
    edgeTableOff: nat,
    policyHeapOff: nat,
    registryOff: nat,
    configOff: nat,
    heapOff: nat)

  function Names(blob: ConductorBlob): seq<seq<U8>> {
    if blob.registry.None? then [] else blob.registry.value.names
  }

  function HeapBytes(blob: ConductorBlob): seq<U8> {
    Concat(Names(blob)) + Concat(KeysOf(blob.config))
  }

  predicate ArityOk(blob: ConductorBlob) {
    blob.registry.Some? ==>
      |blob.registry.value.names| == |blob.stages| && |blob.registry.value.sorted| == |blob.stages|
  }

  function RegistryLen(blob: ConductorBlob): nat {
    if blob.registry.None? then 0 else Align8((NAME_ENTRY_LEN + SORTED_ENTRY_LEN) * |blob.stages|)
  }

  function ConfigLen(blob: ConductorBlob): nat {
    if blob.config == [] then 0 else CONFIG_HEADER_LEN + BINDING_LEN * |blob.config|
  }

  /** The offsets of a blob, before the range checks. */
  function Plan(blob: ConductorBlob): Layout
    requires |blob.stages| < 0x1_0000_0000 && |blob.edges| < 0x1_0000_0000
  {
    var edgeTableOff := CONDUCTOR_HEADER_LEN + STAGE_ENTRY_LEN * |blob.stages|;
    var policyHeapOff := edgeTableOff + EDGE_LEN * |blob.edges|;
    var afterPolicies := policyHeapOff + |Records(SlotsOf(blob.stages))|;
    var afterRegistry := afterPolicies + RegistryLen(blob);
    var heapOff := afterRegistry + ConfigLen(blob);
    var specRecordLen := RECORD_HEADER_LEN + Align8(heapOff + |HeapBytes(blob)|);
    Layout(HEADER_LEN + specRecordLen, specRecordLen, |blob.stages|, |blob.edges|, edgeTableOff, policyHeapOff,
           if blob.registry.None? then 0 else afterPolicies,
           if blob.config == [] then 0 else afterRegistry,
           heapOff)
  }

  function LayoutOf(blob: ConductorBlob): Result<Layout, WriteError> {
    if |blob.stages| >= 0x1_0000_0000 || |blob.edges| >= 0x1_0000_0000 then Err(SpecTooLarge)
    else if !ArityOk(blob) then
      Err(RegistryArity(|blob.registry.value.names|, |blob.registry.value.sorted|, |blob.stages|))
    else if Plan(blob).total >= 0x1_0000_0000 then Err(SpecTooLarge)
    else Ok(Plan(blob))
  }

  // ---------------------------------------------------------------------
  // The blob
  // ---------------------------------------------------------------------

  function FileHeader(l: Layout): (b: seq<U8>)
    ensures |b| == BODY_OFFSET
  {
    MAGIC + ToLE(VERSION, 2) + ToLE(0, 2) + ToLE(l.total, 4) + ToLE(HEADER_LEN, 4)
    + ToLE(CONDUCTOR_SPEC_TAG, 2) + ToLE(0, 2) + ToLE(l.specRecordLen, 4)
  }

  function BodyHeader(l: Layout): (b: seq<U8>)
    ensures |b| == CONDUCTOR_HEADER_LEN
  {
    ToLE(l.stageCount, 4) + ToLE(l.edgeCount, 4) + ToLE(CONDUCTOR_HEADER_LEN, 4) + ToLE(l.edgeTableOff, 4)
    + ToLE(l.registryOff, 4) + ToLE(l.configOff, 4)
  }

  /** The body header, the stage and edge tables and the policy records. */
  function Front(blob: ConductorBlob, l: Layout): seq<U8> {
    BodyHeader(l) + SlotTable(SlotsOf(blob.stages), l.policyHeapOff)
    + EdgeTable(blob.edges) + Records(SlotsOf(blob.stages))
  }

  function RegistryBytes(blob: ConductorBlob, l: Layout): seq<U8> {
    if blob.registry.None? then []
    else
      var r := blob.registry.value;
      var tables := NameTable(r.names, l.heapOff) + SortedTable(r.sorted);
      tables + Zeros(Align8(|tables|) - |tables|)
  }

  function ConfigBytes(blob: ConductorBlob, l: Layout): seq<U8> {
    if blob.config == [] then []
    else ToLE(|blob.config|, 4) + ToLE(0, 4) + BindingTable(blob.config, l.heapOff + |Concat(Names(blob))|)
  }

  /** Everything before the string heap. */
  function Structure(blob: ConductorBlob, l: Layout): seq<U8> {
    Front(blob, l) + RegistryBytes(blob, l) + ConfigBytes(blob, l)
  }

  function BodyBytes(blob: ConductorBlob, l: Layout): seq<U8> {
    var used := Structure(blob, l) + HeapBytes(blob);
    used + Zeros(Align8(|used|) - |used|)
  }

  function Encode(blob: ConductorBlob, l: Layout): seq<U8> {
    FileHeader(l) + BodyBytes(blob, l)
  }

  /** The layout's offsets are the lengths of what precedes. */
  lemma Lengths(blob: ConductorBlob)
    requires |blob.stages| < 0x1_0000_0000 && |blob.edges| < 0x1_0000_0000 && ArityOk(blob)
    ensures var l := Plan(blob);
            && |Front(blob, l)| == l.policyHeapOff + |Records(SlotsOf(blob.stages))|
            && |RegistryBytes(blob, l)| == RegistryLen(blob) && |ConfigBytes(blob, l)| == ConfigLen(blob)
            && |Structure(blob, l)| == l.heapOff
            && |BodyBytes(blob, l)| == l.specRecordLen - RECORD_HEADER_LEN == l.total - BODY_OFFSET
            && |Encode(blob, l)| == l.total
  {
    hide ToLE, SlotTable, EdgeTable, Records, NameTable, SortedTable, BindingTable, Concat, Align8, SlotsOf, Zeros;
  }
}
