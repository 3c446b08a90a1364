/** Reading back each kind of encoded entry. */
module IrDecoding {
  import opened Basics
  import opened Words
  import opened Bytes
  import opened IrModel
  import opened IrReader
  import opened IrEncoding

  // ---------------------------------------------------------------------
  // Slices of concatenations
  // ---------------------------------------------------------------------

  lemma FrontSlice(a: seq<U8>, b: seq<U8>, lo: nat, hi: nat)
    requires lo <= hi <= |a|
    ensures (a + b)[lo..hi] == a[lo..hi]
  {
  }

  lemma BackSlice(a: seq<U8>, b: seq<U8>)
    ensures (a + b)[|a|..|a| + |b|] == b
  {
  }

  /** A field inside a known stretch. */
  lemma FieldIn(s: seq<U8>, at: nat, x: seq<U8>, off: nat, v: nat, n: nat)
    requires at + |x| <= |s| && s[at..at + |x|] == x && off + n <= |x| && x[off..off + n] == ToLE(v, n) && v < Pow256(n)
    ensures Field(s, at + off, n) == v
  {
    SubSlice(s, at, at + |x|, off, n);
    FromToLE(s, at + off, v, n);
  }

  lemma ByteIn(s: seq<U8>, at: nat, x: seq<U8>, off: nat)
    requires at + |x| <= |s| && s[at..at + |x|] == x && off < |x|
    ensures s[at + off] == x[off]
  {
    assert s[at..at + |x|][off] == s[at + off];
  }

  // ---------------------------------------------------------------------
  // Policy bodies and record frames
  // ---------------------------------------------------------------------

  lemma LimiterRoundTrip(p: Policy)
    requires p.Limiter?
    ensures DecodePolicy(0, PolicyBytes(p)) == Ok(p)
  {
    hide ToLE, FromLE;
    var b := PolicyBytes(p);
    Sizes();
    assert b[0..|b|] == b;
    assert b[0..4] == ToLE(p.capacity, 4) && b[4..8] == ToLE(p.refillTokens, 4)
           && b[8..16] == ToLE(p.refillPeriodNs, 8);
    FieldIn(b, 0, b, 0, p.capacity, 4);
    FieldIn(b, 0, b, 4, p.refillTokens, 4);
    FieldIn(b, 0, b, 8, p.refillPeriodNs, 8);
  }

  lemma TimeoutRoundTrip(p: Policy)
    requires p.Timeout?
    ensures DecodePolicy(1, PolicyBytes(p)) == Ok(p)
  {
    hide ToLE, FromLE;
    var b := PolicyBytes(p);
    Sizes();
    assert b[0..|b|] == b;
    FieldIn(b, 0, b, 0, p.durationNs, 8);
  }

  lemma RetryRoundTrip(p: Policy)
    requires p.Retry?
    ensures DecodePolicy(2, PolicyBytes(p)) == Ok(p)
  {
    hide ToLE, FromLE;
    var b := PolicyBytes(p);
    Sizes();
    assert b[0..|b|] == b;
    assert b[0..4] == ToLE(p.maxAttempts, 4) && b[8..16] == ToLE(p.baseDelayNs, 8)
           && b[16..24] == ToLE(p.maxDelayNs, 8);
    FieldIn(b, 0, b, 0, p.maxAttempts, 4);
    FieldIn(b, 0, b, 8, p.baseDelayNs, 8);
    FieldIn(b, 0, b, 16, p.maxDelayNs, 8);
  }

  lemma BreakerRoundTrip(p: Policy)
    requires p.Breaker?
    ensures DecodePolicy(3, PolicyBytes(p)) == Ok(p)
  {
    hide ToLE, FromLE;
    var b := PolicyBytes(p);
    Sizes();
    assert b[0..|b|] == b;
    assert b[4..8] == ToLE(p.minimumCalls, 4) && b[8..16] == ToLE(p.windowSpan, 8)
           && b[16..20] == ToLE(p.halfOpenMaxCalls, 4);
    assert b[20..24] == ToLE(p.halfOpenSuccessThreshold, 4) && b[24..32] == ToLE(p.openDurationNs, 8);
    FieldIn(b, 0, b, 4, p.minimumCalls, 4);
    FieldIn(b, 0, b, 8, p.windowSpan, 8);
    FieldIn(b, 0, b, 16, p.halfOpenMaxCalls, 4);
    FieldIn(b, 0, b, 20, p.halfOpenSuccessThreshold, 4);
    FieldIn(b, 0, b, 24, p.openDurationNs, 8);
  }

  /** Every policy decodes from its own bytes. */
  lemma PolicyRoundTrip(p: Policy)
    ensures DecodePolicy(KindOf(p), PolicyBytes(p)) == Ok(p)
  {
    hide PolicyBytes, DecodePolicy;
    match p
    case Limiter(_, _, _) => LimiterRoundTrip(p);
    case Timeout(_) => TimeoutRoundTrip(p);
    case Retry(_, _, _, _, _) => RetryRoundTrip(p);
    case Breaker(_, _, _, _, _, _, _) => BreakerRoundTrip(p);
  }

  /** A framed body at an aligned offset reads back. */
  lemma RecordRoundTrip(s: seq<U8>, off: nat, tag: U16, body: seq<U8>)
    requires off + RECORD_HEADER_LEN + |body| <= |s| && off % 8 == 0 && |body| % 8 == 0 && 1 <= tag <= 9
    requires RECORD_HEADER_LEN + |body| < 0x1_0000_0000
    requires s[off..off + RECORD_HEADER_LEN + |body|] == FrameBytes(tag, |body|) + body
    ensures ReadRecord(s, off) == Ok(RecordView(tag, body))
  {
    hide ToLE, FromLE;
    Sizes();
    var x := FrameBytes(tag, |body|) + body;
    var len := RECORD_HEADER_LEN + |body|;
    assert x[0..2] == ToLE(tag, 2) && x[4..8] == ToLE(len, 4) && x[8..len] == body;
    FieldIn(s, off, x, 0, tag, 2);
    FieldIn(s, off, x, 4, len, 4);
    SubSlice(s, off, off + len, 8, |body|);
    assert len % 8 == 0;
  }

  // ---------------------------------------------------------------------
  // Table entries
  // ---------------------------------------------------------------------

  lemma {:induction false} SlotEntry(slots: seq<Option<Policy>>, base: nat, n: nat)
    requires n < |slots|
    ensures SlotTable(slots, base)[4 * n..4 * n + 4] == ToLE(RecordOffset(slots, base, n), 4)
    decreases |slots|
  {
    hide ToLE, Records;
    var k := |slots| - 1;
    var front := SlotTable(slots[..k], base);
    if n == k {
      BackSlice(front, ToLE(RecordOffset(slots, base, k), 4));
    } else {
      SlotEntry(slots[..k], base, n);
      assert slots[..k][..n] == slots[..n];
      FrontSlice(front, ToLE(RecordOffset(slots, base, k), 4), 4 * n, 4 * n + 4);
    }
  }

  lemma {:induction false} RecordEntry(slots: seq<Option<Policy>>, n: nat)
    requires n < |slots|
    ensures |Records(slots[..n])| + RecordLen(slots[n]) <= |Records(slots)|
    ensures Records(slots)[|Records(slots[..n])|..|Records(slots[..n])| + RecordLen(slots[n])] == RecordBytes(slots[n])
    decreases |slots|
  {
    hide RecordBytes;
    var k := |slots| - 1;
    var front := Records(slots[..k]);
    if n == k {
      BackSlice(front, RecordBytes(slots[k]));
    } else {
      RecordEntry(slots[..k], n);
      assert slots[..k][..n] == slots[..n];
      FrontSlice(front, RecordBytes(slots[k]), |Records(slots[..n])|, |Records(slots[..n])| + RecordLen(slots[n]));
    }
  }

  lemma {:induction false} EdgeEntry(edges: seq<EdgeView>, j: nat)
    requires j < |edges|
    ensures EdgeTable(edges)[EDGE_LEN * j..EDGE_LEN * j + EDGE_LEN] == EdgeBytes(edges[j])
    decreases |edges|
  {
    hide EdgeBytes;
    var k := |edges| - 1;
    var front := EdgeTable(edges[..k]);
    if j == k {
      BackSlice(front, EdgeBytes(edges[k]));
    } else {
      EdgeEntry(edges[..k], j);
      FrontSlice(front, EdgeBytes(edges[k]), EDGE_LEN * j, EDGE_LEN * j + EDGE_LEN);
    }
  }

  lemma EdgeRoundTrip(edges: seq<EdgeView>, j: nat)
    requires j < |edges|
    ensures EdgeAt(EdgeTable(edges), j) == edges[j]
  {
    hide ToLE, FromLE, EdgeTable;
    Sizes();
    EdgeEntry(edges, j);
    var e, x, s, at := edges[j], EdgeBytes(edges[j]), EdgeTable(edges), EDGE_LEN * j;
    assert x[0..2] == ToLE(e.fromOrdinal, 2) && x[2..4] == ToLE(e.toOrdinal, 2) && x[4..6] == ToLE(e.inputIndex, 2);
    FieldIn(s, at, x, 0, e.fromOrdinal, 2);
    FieldIn(s, at, x, 2, e.toOrdinal, 2);
    FieldIn(s, at, x, 4, e.inputIndex, 2);
  }

  lemma {:induction false} NameEntry(names: seq<seq<U8>>, heap: nat, i: nat)
    requires i < |names|
    ensures NameTable(names, heap)[NAME_ENTRY_LEN * i..NAME_ENTRY_LEN * i + NAME_ENTRY_LEN]
         == ToLE(heap + |Concat(names[..i])|, 4) + ToLE(|names[i]|, 4)
    decreases |names|
  {
    hide ToLE, Concat;
    var k := |names| - 1;
    var front := NameTable(names[..k], heap);
    var last := ToLE(heap + |Concat(names[..k])|, 4) + ToLE(|names[k]|, 4);
    if i == k {
      BackSlice(front, last);
    } else {
      NameEntry(names[..k], heap, i);
      assert names[..k][..i] == names[..i];
      FrontSlice(front, last, NAME_ENTRY_LEN * i, NAME_ENTRY_LEN * i + NAME_ENTRY_LEN);
    }
  }

  lemma {:induction false} ConcatEntry(names: seq<seq<U8>>, i: nat)
    requires i < |names|
    ensures |Concat(names[..i])| + |names[i]| <= |Concat(names)|
    ensures Concat(names)[|Concat(names[..i])|..|Concat(names[..i])| + |names[i]|] == names[i]
    decreases |names|
  {
    var k := |names| - 1;
    var front := Concat(names[..k]);
    if i == k {
      BackSlice(front, names[k]);
    } else {
      ConcatEntry(names[..k], i);
      assert names[..k][..i] == names[..i];
      FrontSlice(front, names[k], |Concat(names[..i])|, |Concat(names[..i])| + |names[i]|);
    }
  }

  lemma {:induction false} SortedEntry(sorted: seq<U16>, k: nat)
    requires k < |sorted|
    ensures SortedTable(sorted)[SORTED_ENTRY_LEN * k..SORTED_ENTRY_LEN * k + SORTED_ENTRY_LEN] == ToLE(sorted[k], 2)
    decreases |sorted|
  {
    hide ToLE;
    var m := |sorted| - 1;
    var front := SortedTable(sorted[..m]);
    if k == m {
      BackSlice(front, ToLE(sorted[m], 2));
    } else {
      SortedEntry(sorted[..m], k);
      FrontSlice(front, ToLE(sorted[m], 2), SORTED_ENTRY_LEN * k, SORTED_ENTRY_LEN * k + SORTED_ENTRY_LEN);
    }
  }

  lemma SortedRoundTrip(sorted: seq<U16>, k: nat)
    requires k < |sorted|
    ensures U16At(SortedTable(sorted), k * SORTED_ENTRY_LEN) == sorted[k]
  {
    hide ToLE, FromLE, SortedTable;
    Sizes();
    SortedEntry(sorted, k);
    FromToLE(SortedTable(sorted), k * SORTED_ENTRY_LEN, sorted[k], 2);
  }

  lemma {:induction false} BindingEntry(config: seq<Binding>, heap: nat, i: nat)
    requires i < |config|
    ensures BindingTable(config, heap)[BINDING_LEN * i..BINDING_LEN * i + BINDING_LEN]
         == BindingBytes(config[i], heap + |Concat(KeysOf(config)[..i])|)
    decreases |config|
  {
    hide BindingBytes, Concat;
    var k := |config| - 1;
    var front := BindingTable(config[..k], heap);
    assert KeysOf(config[..k]) == KeysOf(config)[..k];
    var last := BindingBytes(config[k], heap + |Concat(KeysOf(config[..k]))|);
    if i == k {
      BackSlice(front, last);
    } else {
      BindingEntry(config[..k], heap, i);
      assert KeysOf(config)[..k][..i] == KeysOf(config)[..i];
      FrontSlice(front, last, BINDING_LEN * i, BINDING_LEN * i + BINDING_LEN);
    }
  }

  // ---------------------------------------------------------------------
  // The smallest blob, byte by byte
  // ---------------------------------------------------------------------

  lemma SmallLE(x: U8)
    ensures ToLE(x, 2) == [x, 0] && ToLE(x, 4) == [x, 0, 0, 0]
  {
    var none: seq<U8> := [];
    assert ToLE(0, 0) == none && ToLE(0, 1) == [0] + ToLE(0, 0);
    assert ToLE(0, 2) == [0] + ToLE(0, 1) && ToLE(0, 3) == [0] + ToLE(0, 2);
    assert ToLE(x, 2) == [x] + ToLE(0, 1) && ToLE(x, 4) == [x] + ToLE(0, 3);
  }

  function NoStages(): ConductorBlob {
    ConductorBlob([], [], None, [])
  }

  const SMALLEST := Layout(48, 32, 0, 0, 24, 24, 0, 0, 24)

  /** A conductor without stages: the magic, version 1, 48 bytes in all, and a root of tag 1 and length 32 at 16. */
  lemma SmallestBytes()
    ensures Plan(NoStages()).total == 48
    ensures Encode(NoStages(), Plan(NoStages()))
            == [0x4b, 0x57, 0x49, 0x52, 1, 0, 0, 0, 48, 0, 0, 0, 16, 0, 0, 0, 1, 0, 0, 0, 32, 0, 0, 0]
               + [0, 0, 0, 0, 0, 0, 0, 0, 24, 0, 0, 0, 24, 0, 0, 0, 0, 0, 0, 0, 0, 0, 0, 0]
  {
    SmallestLayout();
    SmallestBody();
    SmallestFileHeader();
    SmallestBodyHeader();
    hide Plan, BodyBytes, FileHeader, BodyHeader, NoStages;
  }

  lemma SmallestLayout()
    ensures Plan(NoStages()) == SMALLEST
  {
    NothingEncoded();
    hide SlotsOf, Records, Concat, KeysOf, Align8;
  }

  lemma SmallestBody()
    ensures BodyBytes(NoStages(), SMALLEST) == BodyHeader(SMALLEST)
  {
    NothingEncoded();
    hide SlotsOf, Records, SlotTable, EdgeTable, Concat, KeysOf, Align8, BodyHeader;
    var blob, l := NoStages(), SMALLEST;
    assert HeapBytes(blob) == [] && Front(blob, l) == BodyHeader(l);
    assert Structure(blob, l) == BodyHeader(l);
  }

  lemma SmallestFileHeader()
    ensures FileHeader(SMALLEST)
            == [0x4b, 0x57, 0x49, 0x52, 1, 0, 0, 0, 48, 0, 0, 0, 16, 0, 0, 0, 1, 0, 0, 0, 32, 0, 0, 0]
  {
    SmallLE(0);
    SmallLE(1);
    SmallLE(16);
    SmallLE(32);
    SmallLE(48);
    hide ToLE;
  }

  lemma SmallestBodyHeader()
    ensures BodyHeader(SMALLEST) == [0, 0, 0, 0, 0, 0, 0, 0, 24, 0, 0, 0, 24, 0, 0, 0, 0, 0, 0, 0, 0, 0, 0, 0]
  {
    SmallLE(0);
    SmallLE(24);
    hide ToLE;
  }

  lemma NothingEncoded()
    ensures SlotsOf([]) == [] && Records([]) == [] && EdgeTable([]) == [] && Concat([]) == [] && KeysOf([]) == []
    ensures Align8(24) == 24 && forall heap: nat :: SlotTable([], heap) == []
  {
  }
}
