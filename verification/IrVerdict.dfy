/** The reader's verdict on written blobs, and the round trip. */
module IrVerdict {
  import opened Basics
  import opened Words
  import opened Bytes
  import opened IrModel
  import opened IrReader
  import opened IrCheck
  import opened IrAccepted
  import opened IrLoops
  import opened IrEncoding
  import opened IrDecoding
  import opened IrSections
  import opened IrRoundTrip
  import opened IrWriter

  // ---------------------------------------------------------------------
  // Policy records
  // ---------------------------------------------------------------------

  lemma {:induction false} RecordsAligned(slots: seq<Option<Policy>>)
    ensures |Records(slots)| % 8 == 0
  {
    hide RecordBytes;
    if slots != [] {
      RecordsAligned(slots[..|slots| - 1]);
    }
  }

  /** Records lie in slot order. */
  lemma RecordsBefore(slots: seq<Option<Policy>>, a: nat, b: nat)
    requires a < b <= |slots|
    ensures |Records(slots[..a])| + RecordLen(slots[a]) <= |Records(slots[..b])|
  {
    hide RecordBytes;
    assert slots[..b][..a] == slots[..a];
    RecordEntry(slots[..b], a);
  }

  /** A slot of kind `k` holds a policy of that kind. */
  lemma SlotKind(stages: seq<StageSpec>, n: nat)
    requires n < KINDS * |stages|
    ensures var s := SlotsOf(stages)[n]; s.Some? ==> KindOf(s.value) == n % KINDS
  {
    SlotsAt(stages, n / KINDS, n % KINDS);
    assert KINDS * (n / KINDS) + n % KINDS == n;
  }

  function SpanOf(blob: ConductorBlob, l: Layout, n: nat): Option<Span>
    requires n < KINDS * |blob.stages|
  {
    var slots := SlotsOf(blob.stages);
    if slots[n].None? then None else Some(Span(l.policyHeapOff + |Records(slots[..n])|, RecordLen(slots[n])))
  }

  lemma SlotRead(blob: ConductorBlob, l: Layout, n: nat)
    requires Writable(blob, l) && n < KINDS * |blob.stages|
    ensures SlotAt(SlotTable(SlotsOf(blob.stages), l.policyHeapOff), n)
            == RecordOffset(SlotsOf(blob.stages), l.policyHeapOff, n)
    ensures SlotsOf(blob.stages)[n].Some?
            ==> CONDUCTOR_HEADER_LEN <= RecordOffset(SlotsOf(blob.stages), l.policyHeapOff, n)
  {
    hide SlotsOf, Records, SlotTable, ToLE, FromLE, LayoutOf, Plan, HeapBytes, RegistryLen, ConfigLen, BodyBytes;
    WritableFacts(blob, l);
    var slots := SlotsOf(blob.stages);
    SlotEntry(slots, l.policyHeapOff, n);
    RecordEntry(slots, n);
    Sizes();
    FromToLE(SlotTable(slots, l.policyHeapOff), 4 * n, RecordOffset(slots, l.policyHeapOff, n), 4);
  }

  /** The record a non-empty slot points at. */
  lemma RecordRead(blob: ConductorBlob, l: Layout, n: nat)
    requires Writable(blob, l) && n < KINDS * |blob.stages| && SlotsOf(blob.stages)[n].Some?
    ensures var p := SlotsOf(blob.stages)[n].value;
            ReadRecord(BodyBytes(blob, l), RecordOffset(SlotsOf(blob.stages), l.policyHeapOff, n))
            == Ok(RecordView(NodeTag(KindOf(p)), PolicyBytes(p)))
  {
    hide SlotsOf, Records, ToLE, FromLE, LayoutOf, Plan, HeapBytes, RegistryLen, ConfigLen, BodyBytes, ReadRecord,
      FrameBytes, PolicyBytes;
    WritableFacts(blob, l);
    FrontPlaced(blob, l);
    var slots, base := SlotsOf(blob.stages), l.policyHeapOff;
    RecordEntry(slots, n);
    Within(BodyBytes(blob, l), base, Records(slots), |Records(slots[..n])|, RecordBytes(slots[n]));
    RecordsAligned(slots[..n]);
    RecordRoundTrip(BodyBytes(blob, l), base + |Records(slots[..n])|, NodeTag(KindOf(slots[n].value)),
      PolicyBytes(slots[n].value));
  }

  lemma SpanRead(blob: ConductorBlob, l: Layout, n: nat)
    requires Writable(blob, l) && n < KINDS * |blob.stages|
    ensures RecordSpan(BodyBytes(blob, l), SlotTable(SlotsOf(blob.stages), l.policyHeapOff), n)
            == Ok(SpanOf(blob, l, n))
  {
    hide SlotsOf, Records, SlotTable, LayoutOf, BodyBytes, ReadRecord, PolicyBytes, SlotAt;
    SlotRead(blob, l, n);
    if SlotsOf(blob.stages)[n].Some? {
      RecordRead(blob, l, n);
    }
  }

  /** A written record lies between the edge table and whatever follows. */
  lemma SpanBounds(blob: ConductorBlob, l: Layout, n: nat)
    requires Writable(blob, l) && n < KINDS * |blob.stages| && SpanOf(blob, l, n).Some?
    ensures var s := SpanOf(blob, l, n).value;
            l.policyHeapOff <= s.offset && End(s) <= l.policyHeapOff + |Records(SlotsOf(blob.stages))| <= l.heapOff
  {
    hide SlotsOf, Records, LayoutOf, BodyBytes, Plan, HeapBytes, RegistryLen, ConfigLen;
    WritableFacts(blob, l);
    RecordEntry(SlotsOf(blob.stages), n);
  }

  // ---------------------------------------------------------------------
  // Each check on the written tables
  // ---------------------------------------------------------------------

  /** A section's place: before the records, or between them and the heap. */
  lemma SectionPlaces(blob: ConductorBlob, l: Layout)
    requires Writable(blob, l)
    ensures var sections := Sections(TablesOf(blob, l));
            && SectionsDisjoint(sections)
            && forall i | 0 <= i < |sections| ::
                 && (End(sections[i]) <= l.policyHeapOff
                     || l.policyHeapOff + |Records(SlotsOf(blob.stages))| <= sections[i].offset)
                 && End(sections[i]) <= l.heapOff
  {
    hide SlotsOf, Records, SlotTable, EdgeTable, NameTable, SortedTable, BindingTable, LayoutOf, BodyBytes, Plan,
      HeapBytes, Concat;
    WritableFacts(blob, l);
    var sections := Sections(TablesOf(blob, l));
    forall i, j | 0 <= i < j < |sections| ensures End(sections[i]) <= sections[j].offset {
    }
  }

  lemma SlotGood(blob: ConductorBlob, l: Layout, n: nat)
    requires Writable(blob, l) && n < KINDS * |blob.stages|
    ensures CheckSlot(BodyBytes(blob, l), SlotTable(SlotsOf(blob.stages), l.policyHeapOff),
            Sections(TablesOf(blob, l)), n) == Ok(())
  {
    hide SlotsOf, Records, SlotTable, LayoutOf, BodyBytes, ReadRecord, PolicyBytes, RecordSpan, Sections,
      DecodePolicy, TablesOf;
    SpanRead(blob, l, n);
    var slots := SlotsOf(blob.stages);
    if slots[n].Some? {
      RecordRead(blob, l, n);
      SlotKind(blob.stages, n);
      PolicyRoundTrip(slots[n].value);
      SpanBounds(blob, l, n);
      SectionPlaces(blob, l);
    }
  }

  lemma SlotsGood(blob: ConductorBlob, l: Layout)
    requires Writable(blob, l)
    ensures var t := TablesOf(blob, l); FirstError(SlotChecks(t.body, t.stageTable, Sections(t)), Slots(t)) == Ok(())
  {
    hide SlotsOf, SlotTable, LayoutOf, BodyBytes, CheckSlot, Sections, FirstError, Plan, Records, HeapBytes,
      RegistryLen, ConfigLen;
    WritableFacts(blob, l);
    var t := TablesOf(blob, l);
    var checks := SlotChecks(t.body, t.stageTable, Sections(t));
    forall n: nat | n < Slots(t) ensures checks(n) == Ok(()) {
      SlotGood(blob, l, n);
    }
    FirstErrorUniform(checks, Slots(t), OutOfBounds);
  }

  lemma PairGood(blob: ConductorBlob, l: Layout, a: nat, b: nat)
    requires Writable(blob, l) && a < b < KINDS * |blob.stages| && SpanOf(blob, l, a).Some?
    ensures CheckPair(BodyBytes(blob, l), SlotTable(SlotsOf(blob.stages), l.policyHeapOff), SpanOf(blob, l, a).value,
            b) == Ok(())
  {
    hide SlotsOf, SlotTable, LayoutOf, BodyBytes, RecordSpan, Records;
    SpanRead(blob, l, b);
    RecordsBefore(SlotsOf(blob.stages), a, b);
  }

  lemma RowGood(blob: ConductorBlob, l: Layout, a: nat)
    requires Writable(blob, l) && a < KINDS * |blob.stages|
    ensures CheckRow(BodyBytes(blob, l), SlotTable(SlotsOf(blob.stages), l.policyHeapOff), KINDS * |blob.stages|, a)
            == Ok(())
  {
    hide SlotsOf, SlotTable, LayoutOf, BodyBytes, RecordSpan, FirstError, Records, CheckPair;
    var body, table, n := BodyBytes(blob, l), SlotTable(SlotsOf(blob.stages), l.policyHeapOff), KINDS * |blob.stages|;
    SpanRead(blob, l, a);
    var span := SpanOf(blob, l, a);
    if span.Some? {
      var checks := PairChecks(body, table, span.value, a + 1);
      forall i: nat | i < n - a - 1 ensures checks(i) == Ok(()) {
        PairGood(blob, l, a, a + 1 + i);
      }
      FirstErrorUniform(checks, n - a - 1, OutOfBounds);
    }
  }

  lemma RowsGood(blob: ConductorBlob, l: Layout)
    requires Writable(blob, l)
    ensures var t := TablesOf(blob, l); FirstError(RowChecks(t.body, t.stageTable, Slots(t)), Slots(t)) == Ok(())
  {
    hide SlotsOf, SlotTable, LayoutOf, BodyBytes, CheckRow, FirstError, Plan, Records, HeapBytes, RegistryLen,
      ConfigLen;
    WritableFacts(blob, l);
    var t := TablesOf(blob, l);
    var checks := RowChecks(t.body, t.stageTable, Slots(t));
    forall a: nat | a < Slots(t) ensures checks(a) == Ok(()) {
      RowGood(blob, l, a);
    }
    FirstErrorUniform(checks, Slots(t), OutOfBounds);
  }

  lemma {:induction false} HighestBelow(ends: nat -> Result<nat, IrError>, start: nat, n: nat, bound: nat)
    requires start <= bound && forall k: nat | k < n :: ends(k).Ok? && ends(k).value <= bound
    ensures Highest(ends, start, n).Ok? && Highest(ends, start, n).value <= bound
  {
    if n > 0 {
      HighestBelow(ends, start, n - 1, bound);
    }
  }

  lemma {:induction false} SectionsBelow(sections: seq<Span>, bound: nat)
    requires forall i | 0 <= i < |sections| :: End(sections[i]) <= bound
    ensures SectionsEnd(sections) <= bound
  {
    if sections != [] {
      SectionsBelow(sections[..|sections| - 1], bound);
    }
  }

  lemma FloorGood(blob: ConductorBlob, l: Layout)
    requires Writable(blob, l)
    ensures var t := TablesOf(blob, l);
            var f := Floor(Sections(t), t.body, t.stageTable, Slots(t));
            f.Ok? && f.value <= l.heapOff
  {
    hide SlotsOf, SlotTable, LayoutOf, BodyBytes, RecordSpan, Highest, Plan, Records, HeapBytes, RegistryLen,
      ConfigLen, Sections;
    WritableFacts(blob, l);
    SectionPlaces(blob, l);
    var t := TablesOf(blob, l);
    SectionsBelow(Sections(t), l.heapOff);
    var ends := RecordEnds(t.body, t.stageTable);
    forall n: nat | n < Slots(t) ensures ends(n).Ok? && ends(n).value <= l.heapOff {
      SpanRead(blob, l, n);
      if SpanOf(blob, l, n).Some? {
        SpanBounds(blob, l, n);
      }
    }
    HighestBelow(ends, SectionsEnd(Sections(t)), Slots(t), l.heapOff);
  }

  lemma EdgesVerdict(blob: ConductorBlob, l: Layout)
    requires Writable(blob, l)
    ensures EDGE_LEN * |blob.edges| == |EdgeTable(blob.edges)|
    ensures EdgesInRange(EdgeTable(blob.edges), |blob.edges|, l.stageCount) == EdgesBelow(blob)
  {
    hide EdgeTable, EdgeAt, LayoutOf, Plan, Records, SlotsOf, HeapBytes, RegistryLen, ConfigLen, BodyBytes;
    WritableFacts(blob, l);
    forall j | 0 <= j < |blob.edges| ensures EdgeAt(EdgeTable(blob.edges), j) == blob.edges[j] {
      EdgeRoundTrip(blob.edges, j);
    }
    if EdgesInRange(EdgeTable(blob.edges), |blob.edges|, l.stageCount) {
      forall j | 0 <= j < |blob.edges|
        ensures blob.edges[j].fromOrdinal < |blob.stages| && blob.edges[j].toOrdinal < |blob.stages|
      {
        assert EdgeAt(EdgeTable(blob.edges), j).fromOrdinal < l.stageCount;
      }
    }
  }

  lemma RankRead(blob: ConductorBlob, l: Layout, k: nat)
    requires Writable(blob, l) && blob.registry.Some? && SortedBelow(blob) && k < |blob.stages|
    ensures |blob.registry.value.sorted| == |blob.registry.value.names| == |blob.stages|
    ensures Ranked(RegistryOf(blob, l).view, k) == Ok(blob.registry.value.names[blob.registry.value.sorted[k]])
  {
    hide LayoutOf, Plan, Name, SortedOrdinal, RegistryOf;
    WritableFacts(blob, l);
    SortedRead(blob, l, k);
    NameRead(blob, l, blob.registry.value.sorted[k]);
  }

  predicate Ascending(q: seq<seq<U8>>) {
    forall k | 1 <= k < |q| :: !Less(q[k], q[k - 1])
  }

  lemma RankVerdict(names: nat -> Result<seq<U8>, IrError>, q: seq<seq<U8>>, k: nat)
    requires k < |q| && names(k) == Ok(q[k]) && (k > 0 ==> names(k - 1) == Ok(q[k - 1]))
    ensures OrderChecks(names)(k) == Verdict(k == 0 || !Less(q[k], q[k - 1]), RegistryUnsorted)
  {
    hide Less;
  }

  lemma OrderUniform(names: nat -> Result<seq<U8>, IrError>, q: seq<seq<U8>>)
    requires forall k: nat | k < |q| :: names(k) == Ok(q[k])
    ensures FirstError(OrderChecks(names), |q|) == Verdict(Ascending(q), RegistryUnsorted)
  {
    hide FirstError, Less;
    var checks := OrderChecks(names);
    forall k: nat | k < |q| ensures checks(k) == Verdict(k == 0 || !Less(q[k], q[k - 1]), RegistryUnsorted) {
      RankVerdict(names, q, k);
    }
    hide OrderChecks;
    FirstErrorUniform(checks, |q|, RegistryUnsorted);
    if !Ascending(q) {
      var k :| 1 <= k < |q| && Less(q[k], q[k - 1]);
      assert checks(k).Err?;
    }
  }

  /** The names in sorted-index order. */
  function Indexed(blob: ConductorBlob): (q: seq<seq<U8>>)
    requires ArityOk(blob) && SortedBelow(blob) && blob.registry.Some?
    ensures |q| == |blob.stages|
  {
    var r := blob.registry.value;
    seq(|r.sorted|, k requires 0 <= k < |r.sorted| => r.names[r.sorted[k]])
  }

  lemma IndexedOrder(blob: ConductorBlob)
    requires ArityOk(blob) && SortedBelow(blob) && blob.registry.Some?
    ensures Ascending(Indexed(blob)) == NamesOrdered(blob)
  {
    hide Less;
    var r, q := blob.registry.value, Indexed(blob);
    if Ascending(q) {
      forall k | 1 <= k < |r.sorted| ensures !Less(r.names[r.sorted[k]], r.names[r.sorted[k - 1]]) {
        assert !Less(q[k], q[k - 1]);
      }
    }
    if NamesOrdered(blob) {
      forall k | 1 <= k < |q| ensures !Less(q[k], q[k - 1]) {
        assert !Less(r.names[r.sorted[k]], r.names[r.sorted[k - 1]]);
      }
    }
  }

  lemma OrderVerdict(blob: ConductorBlob, l: Layout)
    requires Writable(blob, l) && blob.registry.Some? && SortedBelow(blob) && ArityOk(blob)
    ensures FirstError(OrderChecks(Ranks(RegistryOf(blob, l).view)), |blob.stages|)
            == Verdict(NamesOrdered(blob), RegistryUnsorted)
  {
    hide LayoutOf, Plan, Ranked, RegistryOf, FirstError, Less;
    var names, q := Ranks(RegistryOf(blob, l).view), Indexed(blob);
    forall k: nat | k < |q| ensures names(k) == Ok(q[k]) {
      RankRead(blob, l, k);
    }
    OrderUniform(names, q);
    IndexedOrder(blob);
  }

  // ---------------------------------------------------------------------
  // The verdict and the round trip
  // ---------------------------------------------------------------------

  lemma StringsVerdict(blob: ConductorBlob, l: Layout, floor: nat)
    requires Writable(blob, l) && SortedBelow(blob) && ArityOk(blob) && floor <= l.heapOff && Framed(TablesOf(blob, l))
    ensures CheckStrings(TablesOf(blob, l), floor) == Verdict(NamesOrdered(blob), RegistryUnsorted)
  {
    hide LayoutOf, Plan, SlotTable, SlotsOf, EdgeTable, FirstError, OrderChecks, NamesOrdered, NamesInHeap,
      KeysInHeap, BodyBytes, Framed, NameTable, SortedTable, BindingTable, Records, HeapBytes, RegistryLen, ConfigLen;
    WritableFacts(blob, l);
    if blob.registry.Some? {
      NamesFloor(blob, l, floor);
      OrderVerdict(blob, l);
    } else {
      NoRegistryOrdered(blob);
    }
    if blob.config != [] {
      KeysFloor(blob, l, floor);
    }
  }

  lemma NoRegistryOrdered(blob: ConductorBlob)
    requires ArityOk(blob) && SortedBelow(blob) && blob.registry.None?
    ensures NamesOrdered(blob)
  {
  }

  lemma NamesFloor(blob: ConductorBlob, l: Layout, floor: nat)
    requires Writable(blob, l) && blob.registry.Some? && floor <= l.heapOff
    ensures NAME_ENTRY_LEN * |blob.stages| <= |RegistryOf(blob, l).view.nameTable|
    ensures NamesInHeap(RegistryOf(blob, l).view.nameTable, |blob.stages|, floor)
  {
    hide LayoutOf, Plan, NameTable, SortedTable, BodyBytes, NameOffset, Name, Records, SlotsOf, HeapBytes,
      RegistryLen, ConfigLen;
    WritableFacts(blob, l);
    forall i | 0 <= i < |blob.stages| ensures NameOffset(RegistryOf(blob, l).view.nameTable, i) >= floor {
      NameRead(blob, l, i);
    }
  }

  lemma KeysFloor(blob: ConductorBlob, l: Layout, floor: nat)
    requires Writable(blob, l) && blob.config != [] && floor <= l.heapOff
    ensures KeysInHeap(ConfigOf(blob, l).entries, |blob.config|, floor)
  {
    hide LayoutOf, BindingTable, BodyBytes, KeyOffset, ParseBinding;
    forall i | 0 <= i < |blob.config| ensures KeyOffset(ConfigOf(blob, l).entries, i) >= floor {
      BindingRead(blob, l, i);
    }
  }

  lemma TablesVerdict(blob: ConductorBlob, l: Layout)
    requires Writable(blob, l) && SortedBelow(blob) && BindingsBelow(blob) && ArityOk(blob) && Framed(TablesOf(blob, l))
    ensures CheckTables(TablesOf(blob, l))
         == if !EdgesBelow(blob) then Err(OrdinalOutOfRange) else Verdict(NamesOrdered(blob), RegistryUnsorted)
  {
    hide LayoutOf, Plan, SlotTable, SlotsOf, EdgeTable, FirstError, Sections, Floor, CheckStrings, Framed, SlotChecks,
      RowChecks, EdgesInRange, SectionsDisjoint, NamesOrdered, EdgesBelow, BodyBytes, RegistryOf, ConfigOf, Records,
      HeapBytes, RegistryLen, ConfigLen;
    WritableFacts(blob, l);
    SectionPlaces(blob, l);
    EdgesVerdict(blob, l);
    SlotsGood(blob, l);
    RowsGood(blob, l);
    FloorGood(blob, l);
    var t := TablesOf(blob, l);
    StringsVerdict(blob, l, Floor(Sections(t), t.body, t.stageTable, Slots(t)).value);
  }

  /** The verdict on a blob's own inputs. */
  function Expected(blob: ConductorBlob): Check
    requires ArityOk(blob)
  {
    if !OrdinalsBelow(blob) then Err(OrdinalOutOfRange)
    else Verdict(NamesOrdered(blob), RegistryUnsorted)
  }

  /**
   Exactly when the reader accepts what the writer wrote: every edge, binding
   and sorted ordinal names a stage and the sorted names never decrease. Any
   ordinal out of range is refused as such; otherwise bad order is.
   */
  lemma VerdictIsExact(blob: ConductorBlob, l: Layout)
    requires Writable(blob, l)
    ensures ArityOk(blob)
    ensures Validate(Encode(blob, l))
         == match Expected(blob)
            case Err(e) => Err(e)
            case Ok(_) => Ok(View(TablesOf(blob, l)))
  {
    hide LayoutOf, Plan, Encode, BodyBytes, Validate, ReadTables, CheckTables, TablesOf, View, Framed, NamesOrdered,
      EdgesBelow, BindingsBelow, SortedBelow, Records, SlotsOf, HeapBytes, RegistryLen, ConfigLen;
    WritableFacts(blob, l);
    HeaderRead(blob, l);
    TablesRead(blob, l);
    if SortedBelow(blob) && BindingsBelow(blob) {
      TablesVerdict(blob, l);
    }
  }

  // ---------------------------------------------------------------------
  // Reading back
  // ---------------------------------------------------------------------

  predicate StageHolds(v: Parsed, blob: ConductorBlob, i: nat, k: Kind)
    requires i < |blob.stages|
  {
    Stage(v, i).Some? && PolicyOf(Stage(v, i).value, k) == blob.stages[i][k]
  }

  lemma StageRead(blob: ConductorBlob, l: Layout, i: nat, k: Kind)
    requires Writable(blob, l) && i < |blob.stages|
    ensures StageHolds(View(TablesOf(blob, l)), blob, i, k)
  {
    hide LayoutOf, Plan, SlotTable, SlotsOf, EdgeTable, BodyBytes, ReadRecord, PolicyBytes, DecodePolicy, ReadU32,
      SlotAt, Records, HeapBytes, RegistryLen, ConfigLen, RegistryOf, ConfigOf;
    WritableFacts(blob, l);
    var n, slots := KINDS * i + k, SlotsOf(blob.stages);
    SlotsAt(blob.stages, i, k);
    SlotRead(blob, l, n);
    EntrySlot(SlotTable(slots, l.policyHeapOff), i, k);
    if slots[n].Some? {
      RecordRead(blob, l, n);
      PolicyRoundTrip(slots[n].value);
    }
  }

  /** The view holds the author's conductor, entry for entry. */
  ghost predicate Holds(v: Parsed, blob: ConductorBlob) {
    && v.stageCount == |blob.stages| && v.edgeCount == |blob.edges| && v.configCount == |blob.config|
    && (forall i: nat, k: Kind | i < |blob.stages| :: StageHolds(v, blob, i, k))
    && (forall j: nat | j < |blob.edges| :: Edge(v, j) == Some(blob.edges[j]))
    && (forall i: nat | i < |blob.config| :: ConfigBinding(v, i) == Some(blob.config[i]))
    && (v.registry.Some? <==> blob.registry.Some?)
    && (blob.registry.Some? ==> RegistryHolds(v.registry.value, blob.registry.value, |blob.stages|))
  }

  ghost predicate RegistryHolds(v: RegistryView, r: RegistrySpec, n: nat) {
    && v.count == n == |r.names| == |r.sorted|
    && (forall i: nat | i < n :: Name(v, i) == Some(r.names[i]))
    && (forall k: nat | k < n :: SortedOrdinal(v, k) == Some(r.sorted[k]))
  }

  lemma RegistryReadBack(blob: ConductorBlob, l: Layout)
    requires Writable(blob, l) && blob.registry.Some?
    ensures RegistryHolds(RegistryOf(blob, l).view, blob.registry.value, |blob.stages|)
  {
    hide LayoutOf, Plan, Name, SortedOrdinal, BodyBytes, NameTable, SortedTable, Records, SlotsOf, HeapBytes,
      RegistryLen, ConfigLen;
    WritableFacts(blob, l);
    var v := RegistryOf(blob, l).view;
    forall i: nat | i < |blob.stages|
      ensures Name(v, i) == Some(blob.registry.value.names[i])
              && SortedOrdinal(v, i) == Some(blob.registry.value.sorted[i])
    {
      NameRead(blob, l, i);
      SortedRead(blob, l, i);
    }
  }

  lemma ReadBack(blob: ConductorBlob, l: Layout)
    requires Writable(blob, l)
    ensures Holds(View(TablesOf(blob, l)), blob)
  {
    hide LayoutOf, Plan, SlotTable, SlotsOf, EdgeTable, BodyBytes, StageHolds, EdgeAt, ParseBinding, RegistryHolds,
      RegistryOf, Records, HeapBytes, RegistryLen, ConfigLen, BindingTable;
    WritableFacts(blob, l);
    var v := View(TablesOf(blob, l));
    forall i: nat, k: Kind | i < |blob.stages| ensures StageHolds(v, blob, i, k) {
      StageRead(blob, l, i, k);
    }
    forall j: nat | j < |blob.edges| ensures Edge(v, j) == Some(blob.edges[j]) {
      EdgeRoundTrip(blob.edges, j);
    }
    forall i: nat | i < |blob.config| ensures ConfigBinding(v, i) == Some(blob.config[i]) {
      BindingRead(blob, l, i);
    }
    if blob.registry.Some? {
      RegistryReadBack(blob, l);
    }
  }

  /**
   Writing then validating: whenever the writer succeeds, the reader's verdict
   is the one the inputs call for, and acceptance yields the inputs.
   */
  lemma RoundTrip(blob: ConductorBlob, available: nat)
    requires Outcome(blob, available).Ok?
    ensures ArityOk(blob) && LayoutOf(blob).Ok?
    ensures var r := Validate(Encode(blob, LayoutOf(blob).value));
            && (r.Ok? <==> OrdinalsBelow(blob) && NamesOrdered(blob))
            && (r.Ok? ==> Holds(r.value, blob))
            && (r.Err? ==> r.error == if OrdinalsBelow(blob) then RegistryUnsorted else OrdinalOutOfRange)
  {
    hide LayoutOf, Encode, Validate, TablesOf, View, Holds, EdgesBelow, BindingsBelow, SortedBelow, NamesOrdered;
    var l := LayoutOf(blob).value;
    VerdictIsExact(blob, l);
    ReadBack(blob, l);
  }

  // ---------------------------------------------------------------------
  // Lookup by name in written bytes
  // ---------------------------------------------------------------------

  /** Some entry of the sorted index leads to this name. */
  ghost predicate LeadsTo(r: RegistrySpec, name: seq<U8>) {
    exists k: nat | k < |r.sorted| :: r.sorted[k] < |r.names| && r.names[r.sorted[k]] == name
  }

  /** What the search of a written registry finds is what the written index leads to. */
  lemma ListedIsWritten(v: RegistryView, r: RegistrySpec, name: seq<U8>)
    requires RegistryHolds(v, r, |r.names|) && forall k | 0 <= k < |r.sorted| :: r.sorted[k] < |r.names|
    ensures Listed(v, name) <==> LeadsTo(r, name)
  {
    hide Name, SortedOrdinal;
    forall k: nat | k < v.count ensures Ranked(v, k) == Ok(r.names[r.sorted[k]]) {
      assert SortedOrdinal(v, k) == Some(r.sorted[k]);
      assert Name(v, r.sorted[k]) == Some(r.names[r.sorted[k]]);
    }
  }

  /**
   Looking a stage up by name in written bytes finds every stage exactly when
   the index leads to every stage's name.
   */
  lemma LookupFindsAll(blob: ConductorBlob, available: nat)
    requires Outcome(blob, available).Ok? && blob.registry.Some?
    ensures ArityOk(blob) && LayoutOf(blob).Ok?
    ensures var r, spec := Validate(Encode(blob, LayoutOf(blob).value)), blob.registry.value;
            r.Ok? ==> r.value.registry.Some?
                      && ((forall i: nat | i < |spec.names| :: Listed(r.value.registry.value, spec.names[i]))
                          <==> (forall i: nat | i < |spec.names| :: LeadsTo(spec, spec.names[i])))
  {
    hide LayoutOf, Encode, Validate, EdgesBelow, BindingsBelow, NamesOrdered, StageHolds, Listed, LeadsTo, Outcome;
    RoundTrip(blob, available);
    var r, spec := Validate(Encode(blob, LayoutOf(blob).value)), blob.registry.value;
    if r.Ok? {
      forall name ensures Listed(r.value.registry.value, name) <==> LeadsTo(spec, name) {
        ListedIsWritten(r.value.registry.value, spec, name);
      }
    }
  }

  // ---------------------------------------------------------------------
  // Blobs that are written and do not behave as documented
  // ---------------------------------------------------------------------

  /** Two stages without policies under one-byte names. */
  function TwoStages(a: U8, b: U8, sorted: seq<U16>): ConductorBlob {
    ConductorBlob([[None, None, None, None], [None, None, None, None]], [], Some(RegistrySpec([[a], [b]], sorted)), [])
  }

  lemma TwoStagesWritable(blob: ConductorBlob, a: U8, b: U8, sorted: seq<U16>)
    requires blob == TwoStages(a, b, sorted) && |sorted| == 2
    ensures EdgesBelow(blob) && BindingsBelow(blob) && LayoutOf(blob).Ok?
  {
    NoRecords(blob, a, b, sorted);
    SmallHeap(blob, a, b, sorted);
    hide Records, SlotsOf, HeapBytes;
  }

  function Misordered(): ConductorBlob {
    TwoStages(2, 1, [0, 1])
  }

  /** In-range edge and binding ordinals are not enough: this blob is written and then refused. */
  lemma OrdinalsAloneDoNotSuffice()
    ensures EdgesBelow(Misordered()) && BindingsBelow(Misordered()) && LayoutOf(Misordered()).Ok?
    ensures Validate(Encode(Misordered(), LayoutOf(Misordered()).value)) == Err(RegistryUnsorted)
  {
    TwoStagesWritable(Misordered(), 2, 1, [0, 1]);
    MisorderedExpected();
    hide LayoutOf, Encode, Validate, TablesOf, View, Expected, Misordered;
    VerdictIsExact(Misordered(), LayoutOf(Misordered()).value);
  }

  lemma MisorderedExpected()
    ensures ArityOk(Misordered()) && Expected(Misordered()) == Err(RegistryUnsorted)
  {
    var r := Misordered().registry.value;
    assert r.names[r.sorted[1]] == [1] && r.names[r.sorted[0]] == [2];
    assert Less([1], [2]);
  }

  function Repeating(): ConductorBlob {
    TwoStages(1, 2, [0, 0])
  }

  /** An accepted index may miss a stage: this blob's second stage has a name no search finds. */
  lemma IndexMayMissAStage()
    ensures LayoutOf(Repeating()).Ok?
    ensures var r := Validate(Encode(Repeating(), LayoutOf(Repeating()).value));
            && r.Ok? && r.value.registry.Some?
            && Name(r.value.registry.value, 1) == Some([2]) && !Listed(r.value.registry.value, [2])
  {
    var blob := Repeating();
    TwoStagesWritable(blob, 1, 2, [0, 0]);
    RepeatingExpected();
    var l, spec := LayoutOf(blob).value, blob.registry.value;
    assert |spec.names| == 2 && spec.names[0] == [1] && spec.names[1] == [2];
    assert !LeadsTo(spec, [2]);
    hide LayoutOf, Encode, Validate, TablesOf, Expected, Repeating, Listed, LeadsTo, Name, StageHolds;
    VerdictIsExact(blob, l);
    ReadBack(blob, l);
    ListedIsWritten(View(TablesOf(blob, l)).registry.value, spec, [2]);
  }

  lemma RepeatingExpected()
    ensures ArityOk(Repeating()) && Expected(Repeating()) == Ok(())
  {
    var r := Repeating().registry.value;
    assert r.names[r.sorted[1]] == [1] && r.names[r.sorted[0]] == [1];
  }

  lemma NoRecords(blob: ConductorBlob, a: U8, b: U8, sorted: seq<U16>)
    requires blob == TwoStages(a, b, sorted)
    ensures |Records(SlotsOf(blob.stages))| == 0
  {
    var slots := SlotsOf(blob.stages);
    forall n | 0 <= n < |slots| ensures slots[n].None? {
      SlotsAt(blob.stages, n / KINDS, n % KINDS);
    }
    AllEmpty(slots);
  }

  lemma {:induction false} AllEmpty(slots: seq<Option<Policy>>)
    requires forall n | 0 <= n < |slots| :: slots[n].None?
    ensures Records(slots) == []
  {
    if slots != [] {
      AllEmpty(slots[..|slots| - 1]);
    }
  }

  lemma SmallHeap(blob: ConductorBlob, a: U8, b: U8, sorted: seq<U16>)
    requires blob == TwoStages(a, b, sorted)
    ensures |HeapBytes(blob)| == 2
  {
    var names := blob.registry.value.names;
    var none: seq<seq<U8>> := [];
    assert names[..1] == [names[0]] && names[..1][..0] == none;
    assert Concat(names) == Concat(names[..1]) + names[1];
    assert Concat(names[..1]) == Concat(names[..1][..0]) + names[0];
    assert KeysOf(blob.config) == none;
  }
}
