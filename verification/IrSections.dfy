/** Where each section of an encoded body is, and what the reader's framing makes of it. */
module IrSections {
  import opened Basics
  import opened Words
  import opened Bytes
  import opened IrModel
  import opened IrReader
  import opened IrCheck
  import opened IrEncoding
  import opened IrDecoding

  /** A blob the writer encodes, at its layout. */
  ghost predicate Writable(blob: ConductorBlob, l: Layout) {
    LayoutOf(blob) == Ok(l)
  }

  lemma WritableFacts(blob: ConductorBlob, l: Layout)
    requires Writable(blob, l)
    ensures |blob.stages| < 0x1_0000_0000 && |blob.edges| < 0x1_0000_0000 && ArityOk(blob) && l == Plan(blob)
    ensures l.total < 0x1_0000_0000 && |BodyBytes(blob, l)| == l.total - BODY_OFFSET
    ensures l.stageCount == |blob.stages| && l.edgeCount == |blob.edges|
    ensures l.edgeTableOff == CONDUCTOR_HEADER_LEN + STAGE_ENTRY_LEN * |blob.stages|
    ensures l.policyHeapOff == l.edgeTableOff + EDGE_LEN * |blob.edges|
    ensures l.heapOff == l.policyHeapOff + |Records(SlotsOf(blob.stages))| + RegistryLen(blob) + ConfigLen(blob)
    ensures BODY_OFFSET + l.heapOff + |HeapBytes(blob)| <= l.total
    ensures blob.registry.None? ==> l.registryOff == 0
    ensures blob.registry.Some? ==> l.registryOff == l.policyHeapOff + |Records(SlotsOf(blob.stages))|
    ensures blob.config == [] ==> l.configOff == 0
    ensures blob.config != [] ==> l.configOff == l.policyHeapOff + |Records(SlotsOf(blob.stages))| + RegistryLen(blob)
  {
    hide Records, SlotsOf, HeapBytes, Align8, BodyBytes, RegistryLen, ConfigLen;
    Lengths(blob);
  }

  // ---------------------------------------------------------------------
  // The blob header
  // ---------------------------------------------------------------------

  /** The header and the root frame lead to the body. */
  lemma HeaderRead(blob: ConductorBlob, l: Layout)
    requires Writable(blob, l)
    ensures Validate(Encode(blob, l)) == Parse(BodyBytes(blob, l))
  {
    hide ToLE, FromLE, BodyBytes, Parse, LayoutOf, FileHeader, ReadRecord, ReadU16, ReadU32, Plan;
    WritableFacts(blob, l);
    BodyAligned(blob, l);
    HeaderBytes(l, BodyBytes(blob, l));
  }

  lemma HeaderBytes(l: Layout, body: seq<U8>)
    requires |body| % 8 == 0 && l.specRecordLen == RECORD_HEADER_LEN + |body|
             && l.total == BODY_OFFSET + |body| < 0x1_0000_0000
    ensures var bytes := FileHeader(l) + body;
            && bytes[..4] == MAGIC && ReadU16(bytes, 4) == Ok(VERSION)
            && ReadU32(bytes, 8) == Ok(l.total) && ReadU32(bytes, 12) == Ok(HEADER_LEN)
            && ReadRecord(bytes, HEADER_LEN) == Ok(RecordView(CONDUCTOR_SPEC_TAG, body))
  {
    hide ToLE, FromLE, ReadRecord;
    var x := FileHeader(l);
    var bytes := x + body;
    Sizes();
    assert bytes[0..|x|] == x;
    assert x[0..4] == MAGIC && x[4..6] == ToLE(VERSION, 2) && x[8..12] == ToLE(l.total, 4)
           && x[12..16] == ToLE(HEADER_LEN, 4);
    assert bytes[..4] == x[0..4];
    FieldIn(bytes, 0, x, 4, VERSION, 2);
    FieldIn(bytes, 0, x, 8, l.total, 4);
    FieldIn(bytes, 0, x, 12, HEADER_LEN, 4);
    var frame := FrameBytes(CONDUCTOR_SPEC_TAG, |body|);
    assert x[16..24] == frame;
    assert bytes == x[..16] + (frame + body);
    BackSlice(x[..16], frame + body);
    RecordRoundTrip(bytes, HEADER_LEN, CONDUCTOR_SPEC_TAG, body);
  }

  lemma BodyAligned(blob: ConductorBlob, l: Layout)
    requires Writable(blob, l)
    ensures |BodyBytes(blob, l)| % 8 == 0 && l.specRecordLen == RECORD_HEADER_LEN + |BodyBytes(blob, l)|
  {
    hide Structure, HeapBytes, Align8, Zeros, LayoutOf, Plan;
    WritableFacts(blob, l);
    Lengths(blob);
    var used := Structure(blob, l) + HeapBytes(blob);
    assert |BodyBytes(blob, l)| == Align8(|used|);
  }

  // ---------------------------------------------------------------------
  // The body's sections
  // ---------------------------------------------------------------------

  lemma Pieces(a: seq<U8>, b: seq<U8>, c: seq<U8>, d: seq<U8>, e: seq<U8>, f: seq<U8>, g: seq<U8>)
    ensures var s := a + b + c + d + e + f + g;
            && s[0..|a|] == a
            && s[|a|..|a| + |b|] == b
            && s[|a| + |b|..|a| + |b| + |c|] == c
            && s[|a| + |b| + |c|..|a| + |b| + |c| + |d|] == d
  {
    var t := a + b + c + d;
    FrontOfFour(t, e, f, g, 0, |a|);
    FrontOfFour(t, e, f, g, |a|, |a| + |b|);
    FrontOfFour(t, e, f, g, |a| + |b|, |a| + |b| + |c|);
    FrontOfFour(t, e, f, g, |a| + |b| + |c|, |t|);
    Four(a, b, c, d);
  }

  lemma FrontOfFour(t: seq<U8>, e: seq<U8>, f: seq<U8>, g: seq<U8>, lo: nat, hi: nat)
    requires lo <= hi <= |t|
    ensures (t + e + f + g)[lo..hi] == t[lo..hi]
  {
    FrontSlice(t + e + f, g, lo, hi);
    FrontSlice(t + e, f, lo, hi);
    FrontSlice(t, e, lo, hi);
  }

  lemma Four(a: seq<U8>, b: seq<U8>, c: seq<U8>, d: seq<U8>)
    ensures var t := a + b + c + d;
            && t[0..|a|] == a && t[|a|..|a| + |b|] == b
            && t[|a| + |b|..|a| + |b| + |c|] == c && t[|a| + |b| + |c|..|t|] == d
  {
    FrontOfFour(a, b, c, d, 0, |a|);
    FrontSlice(a + b + c, d, |a|, |a| + |b|);
    FrontSlice(a + b, c, |a|, |a| + |b|);
    BackSlice(a, b);
    FrontSlice(a + b + c, d, |a| + |b|, |a| + |b| + |c|);
    BackSlice(a + b, c);
    BackSlice(a + b + c, d);
  }

  lemma HeapLast(x: seq<U8>, h: seq<U8>, z: seq<U8>)
    ensures x + h + z == x + (h + z)
  {
  }

  lemma BackPieces(a: seq<U8>, e: seq<U8>, f: seq<U8>, g: seq<U8>, h: seq<U8>)
    ensures var s := a + e + f + g + h;
            && s[|a|..|a| + |e|] == e
            && s[|a| + |e|..|a| + |e| + |f|] == f
            && s[|a| + |e| + |f|..|a| + |e| + |f| + |g|] == g
  {
    var t := a + e + f + g;
    FrontSlice(t, h, |a|, |a| + |e|);
    FrontSlice(t, h, |a| + |e|, |a| + |e| + |f|);
    FrontSlice(t, h, |a| + |e| + |f|, |t|);
    Four(a, e, f, g);
  }

  /** `x` stands at `at`. */
  predicate At(body: seq<U8>, at: nat, x: seq<U8>) {
    at + |x| <= |body| && body[at..at + |x|] == x
  }

  lemma FrontPlaced(blob: ConductorBlob, l: Layout)
    requires Writable(blob, l)
    ensures var body := BodyBytes(blob, l);
            && At(body, 0, BodyHeader(l))
            && At(body, CONDUCTOR_HEADER_LEN, SlotTable(SlotsOf(blob.stages), l.policyHeapOff))
            && At(body, l.edgeTableOff, EdgeTable(blob.edges))
            && At(body, l.policyHeapOff, Records(SlotsOf(blob.stages)))
  {
    hide BodyHeader, SlotTable, EdgeTable, Records, SlotsOf, RegistryBytes, ConfigBytes, HeapBytes, LayoutOf, Plan,
      Align8, Zeros;
    WritableFacts(blob, l);
    var body := BodyBytes(blob, l);
    var used := Structure(blob, l) + HeapBytes(blob);
    var z := Zeros(Align8(|used|) - |used|);
    var a, b := BodyHeader(l), SlotTable(SlotsOf(blob.stages), l.policyHeapOff);
    var c, d := EdgeTable(blob.edges), Records(SlotsOf(blob.stages));
    var e, f, g := RegistryBytes(blob, l), ConfigBytes(blob, l), HeapBytes(blob) + z;
    HeapLast(a + b + c + d + e + f, HeapBytes(blob), z);
    assert body == a + b + c + d + e + f + g;
    Pieces(a, b, c, d, e, f, g);
  }

  lemma BackPlaced(blob: ConductorBlob, l: Layout)
    requires Writable(blob, l)
    ensures var body := BodyBytes(blob, l);
            && At(body, l.heapOff, HeapBytes(blob))
            && (blob.registry.Some? ==> At(body, l.registryOff, RegistryBytes(blob, l)))
            && (blob.config != [] ==> At(body, l.configOff, ConfigBytes(blob, l)))
  {
    hide Front, RegistryBytes, ConfigBytes, HeapBytes, LayoutOf, Plan, Align8, Zeros, Records, SlotsOf, RegistryLen,
      ConfigLen;
    WritableFacts(blob, l);
    Lengths(blob);
    var body := BodyBytes(blob, l);
    var used := Structure(blob, l) + HeapBytes(blob);
    BackPieces(Front(blob, l), RegistryBytes(blob, l), ConfigBytes(blob, l), HeapBytes(blob),
      Zeros(Align8(|used|) - |used|));
  }

  lemma Within(body: seq<U8>, at: nat, x: seq<U8>, off: nat, y: seq<U8>)
    requires At(body, at, x) && At(x, off, y)
    ensures At(body, at + off, y)
  {
    SubSlice(body, at, at + |x|, off, |y|);
  }

  lemma RegistryPlaced(blob: ConductorBlob, l: Layout)
    requires Writable(blob, l) && blob.registry.Some?
    ensures var r := blob.registry.value;
            && At(BodyBytes(blob, l), l.registryOff, NameTable(r.names, l.heapOff))
            && At(BodyBytes(blob, l), l.registryOff + NAME_ENTRY_LEN * |r.names|, SortedTable(r.sorted))
            && At(BodyBytes(blob, l), l.heapOff, Concat(r.names))
  {
    hide BodyBytes, NameTable, SortedTable, Concat, LayoutOf, Plan, Align8, Zeros;
    BackPlaced(blob, l);
    var r := blob.registry.value;
    var a, b := NameTable(r.names, l.heapOff), SortedTable(r.sorted);
    var x := RegistryBytes(blob, l);
    assert At(x, 0, a) && At(x, |a|, b);
    Within(BodyBytes(blob, l), l.registryOff, x, 0, a);
    Within(BodyBytes(blob, l), l.registryOff, x, |a|, b);
    assert At(HeapBytes(blob), 0, Concat(r.names));
    Within(BodyBytes(blob, l), l.heapOff, HeapBytes(blob), 0, Concat(r.names));
  }

  lemma EndPieces(a: seq<U8>, m: seq<U8>, b: seq<U8>)
    ensures At(a + m + b, 0, a) && At(a + m + b, |a| + |m|, b)
  {
    FrontSlice(a, m + b, 0, |a|);
    assert a + m + b == a + (m + b);
    BackSlice(a + m, b);
  }

  /** The heap offset where the config keys start. */
  function KeyBase(blob: ConductorBlob, l: Layout): nat {
    l.heapOff + |Concat(Names(blob))|
  }

  lemma ConfigPlaced(blob: ConductorBlob, l: Layout)
    requires Writable(blob, l) && blob.config != []
    ensures At(BodyBytes(blob, l), l.configOff, ToLE(|blob.config|, 4))
    ensures At(BodyBytes(blob, l), l.configOff + CONFIG_HEADER_LEN, BindingTable(blob.config, KeyBase(blob, l)))
    ensures At(BodyBytes(blob, l), KeyBase(blob, l), Concat(KeysOf(blob.config)))
  {
    hide BodyBytes, BindingTable, Concat, LayoutOf, Plan, Align8, ToLE, KeysOf, RegistryBytes, HeapBytes;
    BackPlaced(blob, l);
    var a, b := ToLE(|blob.config|, 4), BindingTable(blob.config, KeyBase(blob, l));
    var x := ConfigBytes(blob, l);
    EndPieces(a, ToLE(0, 4), b);
    Within(BodyBytes(blob, l), l.configOff, x, 0, a);
    Within(BodyBytes(blob, l), l.configOff, x, CONFIG_HEADER_LEN, b);
    KeysPlaced(blob, l);
  }

  lemma KeysPlaced(blob: ConductorBlob, l: Layout)
    requires Writable(blob, l)
    ensures At(BodyBytes(blob, l), KeyBase(blob, l), Concat(KeysOf(blob.config)))
  {
    hide BodyBytes, Concat, LayoutOf, KeysOf, RegistryBytes, ConfigBytes;
    BackPlaced(blob, l);
    var a, b := Concat(Names(blob)), Concat(KeysOf(blob.config));
    BackSlice(a, b);
    Within(BodyBytes(blob, l), l.heapOff, HeapBytes(blob), |a|, b);
  }

  lemma HeaderSlices(l: Layout)
    ensures var x := BodyHeader(l);
            && x[0..4] == ToLE(l.stageCount, 4) && x[4..8] == ToLE(l.edgeCount, 4)
              && x[8..12] == ToLE(CONDUCTOR_HEADER_LEN, 4)
            && x[12..16] == ToLE(l.edgeTableOff, 4) && x[16..20] == ToLE(l.registryOff, 4)
              && x[20..24] == ToLE(l.configOff, 4)
  {
    hide ToLE;
    var a, b, c := ToLE(l.stageCount, 4), ToLE(l.edgeCount, 4), ToLE(CONDUCTOR_HEADER_LEN, 4);
    var d, e, f := ToLE(l.edgeTableOff, 4), ToLE(l.registryOff, 4), ToLE(l.configOff, 4);
    Pieces(a, b, c, d, e, f, []);
    BackPieces(a + b + c + d, e, f, [], []);
    assert a + b + c + d + e + f + [] + [] == a + b + c + d + e + f + [] == BodyHeader(l);
  }

  /** The six fields of the body header. */
  lemma HeaderFields(blob: ConductorBlob, l: Layout)
    requires Writable(blob, l)
    ensures var body := BodyBytes(blob, l);
            && ReadU32(body, 0) == Ok(l.stageCount) && ReadU32(body, 4) == Ok(l.edgeCount)
            && ReadU32(body, 8) == Ok(CONDUCTOR_HEADER_LEN) && ReadU32(body, 12) == Ok(l.edgeTableOff)
            && ReadU32(body, 16) == Ok(l.registryOff) && ReadU32(body, 20) == Ok(l.configOff)
  {
    hide ToLE, FromLE, BodyBytes, BodyHeader, LayoutOf, Plan, Records, SlotsOf, RegistryLen, ConfigLen, HeapBytes;
    WritableFacts(blob, l);
    FrontPlaced(blob, l);
    Sizes();
    var body, x := BodyBytes(blob, l), BodyHeader(l);
    HeaderSlices(l);
    FieldIn(body, 0, x, 0, l.stageCount, 4);
    FieldIn(body, 0, x, 4, l.edgeCount, 4);
    FieldIn(body, 0, x, 8, CONDUCTOR_HEADER_LEN, 4);
    FieldIn(body, 0, x, 12, l.edgeTableOff, 4);
    FieldIn(body, 0, x, 16, l.registryOff, 4);
    FieldIn(body, 0, x, 20, l.configOff, 4);
  }
}
