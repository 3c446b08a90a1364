/**
 Writing then reading: exactly which written blobs the reader accepts, with
 which error it refuses the others, and that an accepted one reads back whole.
 */
module IrRoundTrip {
  import opened Basics
  import opened Words
  import opened Bytes
  import opened IrModel
  import opened IrReader
  import opened IrCheck
  import opened IrEncoding
  import opened IrDecoding
  import opened IrSections

  // ---------------------------------------------------------------------
  // What a caller can check before writing
  // ---------------------------------------------------------------------

  predicate EdgesBelow(blob: ConductorBlob) {
    forall j | 0 <= j < |blob.edges| ::
      blob.edges[j].fromOrdinal < |blob.stages| && blob.edges[j].toOrdinal < |blob.stages|
  }

  predicate BindingsBelow(blob: ConductorBlob) {
    forall i | 0 <= i < |blob.config| :: blob.config[i].nodeOrdinal < |blob.stages|
  }

  predicate SortedBelow(blob: ConductorBlob) {
    blob.registry.Some? ==>
      forall k | 0 <= k < |blob.registry.value.sorted| :: blob.registry.value.sorted[k] < |blob.stages|
  }

  predicate OrdinalsBelow(blob: ConductorBlob) {
    EdgesBelow(blob) && BindingsBelow(blob) && SortedBelow(blob)
  }

  /** The sorted index lists names that never decrease. */
  predicate NamesOrdered(blob: ConductorBlob)
    requires ArityOk(blob) && SortedBelow(blob)
  {
    blob.registry.Some? ==>
      var r := blob.registry.value;
      forall k | 1 <= k < |r.sorted| :: !Less(r.names[r.sorted[k]], r.names[r.sorted[k - 1]])
  }

  // ---------------------------------------------------------------------
  // The tables the reader finds
  // ---------------------------------------------------------------------

  ghost function RegistryOf(blob: ConductorBlob, l: Layout): ParsedRegistry
    requires Writable(blob, l) && blob.registry.Some?
  {
    var r := blob.registry.value;
    ParsedRegistry(RegistryView(BodyBytes(blob, l), NameTable(r.names, l.heapOff), SortedTable(r.sorted), l.stageCount),
                   Span(l.registryOff, NAME_ENTRY_LEN * |blob.stages|),
                   Span(l.registryOff + NAME_ENTRY_LEN * |blob.stages|, SORTED_ENTRY_LEN * |blob.stages|))
  }

  ghost function ConfigOf(blob: ConductorBlob, l: Layout): (c: ParsedConfig)
    requires Writable(blob, l) && blob.config != []
  {
    ConfigCount(blob, l);
    ParsedConfig(|blob.config|, BindingTable(blob.config, KeyBase(blob, l)),
                 Span(l.configOff, CONFIG_HEADER_LEN + BINDING_LEN * |blob.config|))
  }

  lemma ConfigCount(blob: ConductorBlob, l: Layout)
    requires Writable(blob, l)
    ensures |blob.config| < 0x1_0000_0000
  {
    hide Records, SlotsOf, HeapBytes, BodyBytes, RegistryLen, LayoutOf, Plan;
    WritableFacts(blob, l);
  }

  ghost function TablesOf(blob: ConductorBlob, l: Layout): Tables
    requires Writable(blob, l)
  {
    Tables(BodyBytes(blob, l), l.stageCount, l.edgeCount,
           Span(CONDUCTOR_HEADER_LEN, STAGE_ENTRY_LEN * |blob.stages|),
           SlotTable(SlotsOf(blob.stages), l.policyHeapOff),
           Span(l.edgeTableOff, EDGE_LEN * |blob.edges|), EdgeTable(blob.edges),
           if blob.registry.None? then None else Some(RegistryOf(blob, l)),
           if blob.config == [] then None else Some(ConfigOf(blob, l)))
  }

  lemma SliceAt(body: seq<U8>, at: nat, x: seq<U8>)
    requires At(body, at, x)
    ensures Slice(body, at, at + |x|) == Ok(x)
  {
  }

  lemma StagesRead(blob: ConductorBlob, l: Layout)
    requires Writable(blob, l)
    ensures SliceTable(BodyBytes(blob, l), 8, l.stageCount, STAGE_ENTRY_LEN)
         == Ok((CONDUCTOR_HEADER_LEN, SlotTable(SlotsOf(blob.stages), l.policyHeapOff)))
    ensures SliceTable(BodyBytes(blob, l), 12, l.edgeCount, EDGE_LEN) == Ok((l.edgeTableOff, EdgeTable(blob.edges)))
  {
    hide BodyBytes, SlotTable, SlotsOf, EdgeTable, BodyHeader, LayoutOf, Plan, ReadU32, Records, HeapBytes,
      RegistryLen, ConfigLen;
    WritableFacts(blob, l);
    HeaderFields(blob, l);
    FrontPlaced(blob, l);
    SliceAt(BodyBytes(blob, l), CONDUCTOR_HEADER_LEN, SlotTable(SlotsOf(blob.stages), l.policyHeapOff));
    SliceAt(BodyBytes(blob, l), l.edgeTableOff, EdgeTable(blob.edges));
  }

  /** Every name reads back, from inside the heap. */
  lemma NameRead(blob: ConductorBlob, l: Layout, i: nat)
    requires Writable(blob, l) && blob.registry.Some? && i < |blob.stages|
    ensures |blob.registry.value.names| == |blob.stages|
    ensures var v := RegistryOf(blob, l).view;
            Name(v, i) == Some(blob.registry.value.names[i]) && NameOffset(v.nameTable, i) >= l.heapOff
  {
    hide BodyBytes, NameTable, SortedTable, Concat, LayoutOf, Plan, HeapBytes, ToLE, FromLE, Records, SlotsOf,
      RegistryLen, ConfigLen;
    WritableFacts(blob, l);
    RegistryPlaced(blob, l);
    var names, body := blob.registry.value.names, BodyBytes(blob, l);
    var table, off := NameTable(names, l.heapOff), l.heapOff + |Concat(names[..i])|;
    NameEntry(names, l.heapOff, i);
    ConcatEntry(names, i);
    NameFields(table, i, off, names[i]);
    Within(body, l.heapOff, Concat(names), |Concat(names[..i])|, names[i]);
  }

  lemma NameFields(table: seq<U8>, i: nat, off: nat, name: seq<U8>)
    requires NAME_ENTRY_LEN * (i + 1) <= |table| && off < 0x1_0000_0000 && |name| < 0x1_0000_0000
    requires table[NAME_ENTRY_LEN * i..NAME_ENTRY_LEN * i + NAME_ENTRY_LEN] == ToLE(off, 4) + ToLE(|name|, 4)
    ensures NameOffset(table, i) == off && U32At(table, i * NAME_ENTRY_LEN + 4) == |name|
  {
    hide ToLE, FromLE;
    Sizes();
    var x := ToLE(off, 4) + ToLE(|name|, 4);
    assert x[0..4] == ToLE(off, 4) && x[4..8] == ToLE(|name|, 4);
    FieldIn(table, NAME_ENTRY_LEN * i, x, 0, off, 4);
    FieldIn(table, NAME_ENTRY_LEN * i, x, 4, |name|, 4);
  }

  lemma SortedRead(blob: ConductorBlob, l: Layout, k: nat)
    requires Writable(blob, l) && blob.registry.Some? && k < |blob.stages|
    ensures |blob.registry.value.sorted| == |blob.stages|
    ensures SortedOrdinal(RegistryOf(blob, l).view, k) == Some(blob.registry.value.sorted[k])
  {
    hide BodyBytes, NameTable, SortedTable, LayoutOf, Plan, HeapBytes, Records, SlotsOf, RegistryLen, ConfigLen;
    WritableFacts(blob, l);
    SortedRoundTrip(blob.registry.value.sorted, k);
  }

  lemma RegistryRead(blob: ConductorBlob, l: Layout)
    requires Writable(blob, l)
    ensures ParseRegistry(BodyBytes(blob, l), l.stageCount)
         == if blob.registry.None? then Ok(None)
            else if SortedBelow(blob) then Ok(Some(RegistryOf(blob, l))) else Err(OrdinalOutOfRange)
  {
    hide BodyBytes, LayoutOf, Plan, ReadU32, Records, SlotsOf, HeapBytes, RegistryLen, ConfigLen, NameTable,
      SortedTable, Concat, U16At, SliceTable, Slice, NamesResolve, SortedInRange;
    WritableFacts(blob, l);
    HeaderFields(blob, l);
    if blob.registry.Some? {
      RegistryTablesRead(blob, l);
      NamesRead(blob, l);
      SortedVerdict(blob, l);
    }
  }

  lemma RegistryTablesRead(blob: ConductorBlob, l: Layout)
    requires Writable(blob, l) && blob.registry.Some?
    ensures l.registryOff >= CONDUCTOR_HEADER_LEN
    ensures var r := blob.registry.value;
            && |r.names| == |r.sorted| == |blob.stages| && l.stageCount == |blob.stages|
            && SliceTable(BodyBytes(blob, l), 16, l.stageCount, NAME_ENTRY_LEN)
              == Ok((l.registryOff, NameTable(r.names, l.heapOff)))
            && Slice(BodyBytes(blob, l), l.registryOff + NAME_ENTRY_LEN * |r.names|,
                     l.registryOff + NAME_ENTRY_LEN * |r.names| + SORTED_ENTRY_LEN * |r.names|)
                       == Ok(SortedTable(r.sorted))
  {
    hide BodyBytes, LayoutOf, Plan, ReadU32, Records, SlotsOf, HeapBytes, RegistryLen, ConfigLen, NameTable,
      SortedTable, Concat;
    WritableFacts(blob, l);
    HeaderFields(blob, l);
    RegistryPlaced(blob, l);
    var r := blob.registry.value;
    SliceAt(BodyBytes(blob, l), l.registryOff, NameTable(r.names, l.heapOff));
    SliceAt(BodyBytes(blob, l), l.registryOff + NAME_ENTRY_LEN * |r.names|, SortedTable(r.sorted));
  }

  lemma NamesRead(blob: ConductorBlob, l: Layout)
    requires Writable(blob, l) && blob.registry.Some?
    ensures NamesResolve(RegistryOf(blob, l).view)
  {
    hide BodyBytes, LayoutOf, Name, NameTable, SortedTable, Records, SlotsOf, HeapBytes, RegistryLen, ConfigLen;
    WritableFacts(blob, l);
    var v := RegistryOf(blob, l).view;
    forall i | 0 <= i < v.count ensures Name(v, i).Some? {
      NameRead(blob, l, i);
    }
  }

  lemma SortedVerdict(blob: ConductorBlob, l: Layout)
    requires Writable(blob, l) && blob.registry.Some?
    ensures |SortedTable(blob.registry.value.sorted)| == l.stageCount * SORTED_ENTRY_LEN
    ensures SortedInRange(SortedTable(blob.registry.value.sorted), l.stageCount) == SortedBelow(blob)
  {
    hide BodyBytes, LayoutOf, SortedTable, U16At, Records, SlotsOf, HeapBytes, RegistryLen, ConfigLen;
    WritableFacts(blob, l);
    var sorted := blob.registry.value.sorted;
    forall k | 0 <= k < l.stageCount ensures U16At(SortedTable(sorted), k * SORTED_ENTRY_LEN) == sorted[k] {
      SortedRoundTrip(sorted, k);
    }
    if SortedInRange(SortedTable(sorted), l.stageCount) {
      forall k | 0 <= k < |sorted| ensures sorted[k] < |blob.stages| {
        assert U16At(SortedTable(sorted), k * SORTED_ENTRY_LEN) < l.stageCount;
      }
    }
  }

  // ---------------------------------------------------------------------
  // The config section
  // ---------------------------------------------------------------------

  lemma BindingFields(table: seq<U8>, i: nat, b: Binding, off: nat)
    requires BINDING_LEN * (i + 1) <= |table| && off < 0x1_0000_0000 && |b.key| < 0x1_0000_0000
    requires table[BINDING_LEN * i..BINDING_LEN * i + BINDING_LEN] == BindingBytes(b, off)
    ensures var at := i * BINDING_LEN;
            && U16At(table, at) == b.nodeOrdinal && U16At(table, at + 2) == b.fieldTag
              && U32At(table, at + 4) == |b.key|
            && KeyOffset(table, i) == off && table[at + 16] == b.default.kind
              && U64At(table, at + 24) == b.default.value
  {
    hide FromLE, ToLE;
    Sizes();
    var x, at := BindingBytes(b, off), BINDING_LEN * i;
    BindingSlices(b, off);
    FieldIn(table, at, x, 0, b.nodeOrdinal, 2);
    FieldIn(table, at, x, 2, b.fieldTag, 2);
    FieldIn(table, at, x, 4, |b.key|, 4);
    FieldIn(table, at, x, 8, off, 4);
    FieldIn(table, at, x, 24, b.default.value, 8);
    ByteIn(table, at, x, 16);
  }

  lemma BindingSlices(b: Binding, off: nat)
    ensures var x := BindingBytes(b, off);
            && x[0..2] == ToLE(b.nodeOrdinal, 2) && x[2..4] == ToLE(b.fieldTag, 2) && x[4..8] == ToLE(|b.key|, 4)
            && x[8..12] == ToLE(off, 4) && x[16] == b.default.kind && x[24..32] == ToLE(b.default.value, 8)
  {
    LowByte(b.default.kind);
    hide ToLE;
    var x := BindingBytes(b, off);
    var a, c, d := ToLE(b.nodeOrdinal, 2), ToLE(b.fieldTag, 2), ToLE(|b.key|, 4);
    var e, z, k, v := ToLE(off, 4), ToLE(0, 4), ToLE(b.default.kind, 8), ToLE(b.default.value, 8);
    Pieces(a, c, d, e, z, k, v);
    BackPieces(a + c + d + e, z, k, v, []);
    assert x + [] == x;
    assert x[16..24][0] == x[16];
  }

  lemma LowByte(x: U8)
    ensures ToLE(x, 8)[0] == x
  {
  }

  /** Every binding reads back, its key from inside the heap. */
  lemma BindingRead(blob: ConductorBlob, l: Layout, i: nat)
    requires Writable(blob, l) && i < |blob.config|
    ensures ParseBinding(BodyBytes(blob, l), ConfigOf(blob, l).entries, i) == Ok(blob.config[i])
    ensures KeyOffset(ConfigOf(blob, l).entries, i) >= l.heapOff
  {
    hide BodyBytes, BindingTable, BindingBytes, Concat, LayoutOf, Plan, HeapBytes, ToLE, FromLE, Records, SlotsOf,
      RegistryLen, ConfigLen, U16At, U32At, U64At;
    WritableFacts(blob, l);
    KeysPlaced(blob, l);
    HeapParts(blob);
    var keys, body, base := KeysOf(blob.config), BodyBytes(blob, l), KeyBase(blob, l);
    var table, off := BindingTable(blob.config, base), base + |Concat(keys[..i])|;
    BindingEntry(blob.config, base, i);
    ConcatEntry(keys, i);
    BindingFields(table, i, blob.config[i], off);
    Within(body, base, Concat(keys), |Concat(keys[..i])|, keys[i]);
    SliceAt(body, off, keys[i]);
  }

  lemma HeapParts(blob: ConductorBlob)
    ensures |HeapBytes(blob)| == |Concat(Names(blob))| + |Concat(KeysOf(blob.config))|
  {
  }

  /** When every check passes or fails alike, the first failure is that failure. */
  lemma FirstErrorUniform(checks: nat -> Check, n: nat, e: IrError)
    requires forall k: nat | k < n :: checks(k).Err? ==> checks(k).error == e
    ensures FirstError(checks, n) == Verdict(forall k: nat | k < n :: checks(k).Ok?, e)
  {
    FirstErrorOk(checks, n);
    if !(forall k: nat | k < n :: checks(k).Ok?) {
      var k := FirstBad(checks, n);
      FirstErrorIs(checks, n, k);
    } else {
      assert FirstError(checks, n).value == ();
    }
  }

  lemma {:induction false} FirstBad(checks: nat -> Check, n: nat) returns (k: nat)
    requires exists j: nat | j < n :: checks(j).Err?
    ensures k < n && checks(k).Err? && forall j: nat | j < k :: checks(j).Ok?
  {
    if forall j: nat | j < n - 1 :: checks(j).Ok? {
      k := n - 1;
    } else {
      k := FirstBad(checks, n - 1);
    }
  }

  lemma BindingsVerdict(blob: ConductorBlob, l: Layout)
    requires Writable(blob, l) && blob.config != []
    ensures FirstError(BindingChecks(BodyBytes(blob, l), ConfigOf(blob, l).entries, l.stageCount), |blob.config|)
         == Verdict(BindingsBelow(blob), OrdinalOutOfRange)
  {
    hide BodyBytes, BindingTable, LayoutOf, Plan, ParseBinding, Records, SlotsOf, HeapBytes, RegistryLen, ConfigLen,
      FirstError;
    WritableFacts(blob, l);
    var checks := BindingChecks(BodyBytes(blob, l), ConfigOf(blob, l).entries, l.stageCount);
    forall i: nat | i < |blob.config|
      ensures checks(i) == Verdict(blob.config[i].nodeOrdinal < |blob.stages|, OrdinalOutOfRange) {
      BindingRead(blob, l, i);
    }
    FirstErrorUniform(checks, |blob.config|, OrdinalOutOfRange);
    assert BindingsBelow(blob) <==> forall i: nat | i < |blob.config| :: checks(i).Ok?;
  }

  lemma ConfigRead(blob: ConductorBlob, l: Layout)
    requires Writable(blob, l)
    ensures ParseConfig(BodyBytes(blob, l), l.stageCount)
         == if blob.config == [] then Ok(None)
            else if BindingsBelow(blob) then Ok(Some(ConfigOf(blob, l))) else Err(OrdinalOutOfRange)
  {
    hide BodyBytes, LayoutOf, Plan, ReadU32, Records, SlotsOf, HeapBytes, RegistryLen, BindingTable, BindingsBelow,
      BindingChecks, FirstError;
    WritableFacts(blob, l);
    HeaderFields(blob, l);
    if blob.config != [] {
      ConfigTableRead(blob, l);
      BindingsVerdict(blob, l);
    }
  }

  lemma ConfigTableRead(blob: ConductorBlob, l: Layout)
    requires Writable(blob, l) && blob.config != []
    ensures l.configOff >= CONDUCTOR_HEADER_LEN && ReadU32(BodyBytes(blob, l), l.configOff) == Ok(|blob.config|)
    ensures var start := l.configOff + CONFIG_HEADER_LEN;
            Slice(BodyBytes(blob, l), start, start + |blob.config| * BINDING_LEN) == Ok(ConfigOf(blob, l).entries)
  {
    hide BodyBytes, LayoutOf, Plan, Records, SlotsOf, HeapBytes, RegistryLen, BindingTable, ToLE, FromLE;
    WritableFacts(blob, l);
    ConfigCount(blob, l);
    ConfigPlaced(blob, l);
    Sizes();
    FromToLE(BodyBytes(blob, l), l.configOff, |blob.config|, 4);
    SliceAt(BodyBytes(blob, l), l.configOff + CONFIG_HEADER_LEN, BindingTable(blob.config, KeyBase(blob, l)));
  }

  lemma TablesRead(blob: ConductorBlob, l: Layout)
    requires Writable(blob, l)
    ensures ReadTables(BodyBytes(blob, l))
         == if SortedBelow(blob) && BindingsBelow(blob) then Ok(TablesOf(blob, l)) else Err(OrdinalOutOfRange)
  {
    hide BodyBytes, LayoutOf, Plan, Records, SlotsOf, HeapBytes, RegistryLen, SlotTable, EdgeTable, ReadU32,
      SliceTable, ParseRegistry, ParseConfig, RegistryOf, ConfigOf;
    WritableFacts(blob, l);
    HeaderFields(blob, l);
    StagesRead(blob, l);
    RegistryRead(blob, l);
    ConfigRead(blob, l);
  }
}
