/** The single-pass writer: it fills a caller's buffer in place, section by section. */
module IrWriter {
  import opened Basics
  import opened Words
  import opened Bytes
  import opened IrModel
  import opened IrEncoding

  // ---------------------------------------------------------------------
  // Field writes. `s`, `base` and `done` describe the buffer: `s` with `done`
  // written at `base`; each write extends `done`.
  // ---------------------------------------------------------------------

  ghost predicate Wrote(buf: array<U8>, s: seq<U8>, base: nat, done: seq<U8>)
    reads buf
  {
    |s| == buf.Length && base + |done| <= |s| && buf[..] == Put(s, base, done)
  }

  method Emit(buf: array<U8>, ghost s: seq<U8>, ghost base: nat, ghost done: seq<U8>, off: nat, b: seq<U8>)
    requires Wrote(buf, s, base, done) && off == base + |done| && off + |b| <= buf.Length
    modifies buf
    ensures Wrote(buf, s, base, done + b)
  {
    PutAppend(s, base, done, b);
    WriteBytes(buf, off, b);
  }

  /** An offset or length as a `u32`; the layout keeps every one below 2^32. */
  method PutOffset(buf: array<U8>, ghost s: seq<U8>, ghost base: nat, ghost done: seq<U8>, off: nat, value: nat)
    requires Wrote(buf, s, base, done) && off == base + |done| && off + 4 <= buf.Length && value < 0x1_0000_0000
    modifies buf
    ensures Wrote(buf, s, base, done + ToLE(value, 4))
  {
    var narrowed := if value < 0x1_0000_0000 then value else 0xFFFF_FFFF;
    Emit(buf, s, base, done, off, ToLE(narrowed, 4));
  }

  method WriteFrame(buf: array<U8>, ghost s: seq<U8>, ghost base: nat, ghost done: seq<U8>, off: nat, tag: U16,
    bodyLen: nat)
    requires Wrote(buf, s, base, done) && off == base + |done| && off + RECORD_HEADER_LEN <= buf.Length && bodyLen < 64
    modifies buf
    ensures Wrote(buf, s, base, done + FrameBytes(tag, bodyLen))
  {
    hide ToLE;
    ghost var a, b := done + ToLE(tag, 2), done + ToLE(tag, 2) + ToLE(0, 2);
    Emit(buf, s, base, done, off, ToLE(tag, 2));
    Emit(buf, s, base, a, off + 2, ToLE(0, 2));
    PutOffset(buf, s, base, b, off + 4, RECORD_HEADER_LEN + bodyLen);
    assert b + ToLE(RECORD_HEADER_LEN + bodyLen, 4) == done + FrameBytes(tag, bodyLen);
  }

  method WriteLimiter(buf: array<U8>, ghost s: seq<U8>, ghost base: nat, ghost done: seq<U8>, off: nat, p: Policy)
    requires Wrote(buf, s, base, done) && off == base + |done| && p.Limiter? && off + 16 <= buf.Length
    modifies buf
    ensures Wrote(buf, s, base, done + PolicyBytes(p))
  {
    hide ToLE;
    Emit(buf, s, base, done, off, ToLE(p.capacity, 4));
    Emit(buf, s, base, done + ToLE(p.capacity, 4), off + 4, ToLE(p.refillTokens, 4));
    Emit(buf, s, base, done + ToLE(p.capacity, 4) + ToLE(p.refillTokens, 4), off + 8, ToLE(p.refillPeriodNs, 8));
    assert done + ToLE(p.capacity, 4) + ToLE(p.refillTokens, 4) + ToLE(p.refillPeriodNs, 8) == done + PolicyBytes(p);
  }

  method WriteRetry(buf: array<U8>, ghost s: seq<U8>, ghost base: nat, ghost done: seq<U8>, off: nat, p: Policy)
    requires Wrote(buf, s, base, done) && off == base + |done| && p.Retry? && off + 24 <= buf.Length
    modifies buf
    ensures Wrote(buf, s, base, done + PolicyBytes(p))
  {
    hide ToLE;
    ghost var a := done + ToLE(p.maxAttempts, 4);
    ghost var b := a + [p.backoffKind];
    ghost var c := b + [p.jitterKind];
    ghost var d := c + ToLE(0, 2);
    ghost var e := d + ToLE(p.baseDelayNs, 8);
    Emit(buf, s, base, done, off, ToLE(p.maxAttempts, 4));
    Emit(buf, s, base, a, off + 4, [p.backoffKind]);
    Emit(buf, s, base, b, off + 5, [p.jitterKind]);
    Emit(buf, s, base, c, off + 6, ToLE(0, 2));
    Emit(buf, s, base, d, off + 8, ToLE(p.baseDelayNs, 8));
    Emit(buf, s, base, e, off + 16, ToLE(p.maxDelayNs, 8));
    assert e + ToLE(p.maxDelayNs, 8) == done + PolicyBytes(p);
  }

  method WriteBreaker(buf: array<U8>, ghost s: seq<U8>, ghost base: nat, ghost done: seq<U8>, off: nat, p: Policy)
    requires Wrote(buf, s, base, done) && off == base + |done| && p.Breaker? && off + 32 <= buf.Length
    modifies buf
    ensures Wrote(buf, s, base, done + PolicyBytes(p))
  {
    hide ToLE;
    ghost var a := done + [p.windowKind];
    ghost var b := a + [p.failureRatePercent];
    ghost var c := b + ToLE(0, 2);
    ghost var d := c + ToLE(p.minimumCalls, 4);
    ghost var e := d + ToLE(p.windowSpan, 8);
    ghost var f := e + ToLE(p.halfOpenMaxCalls, 4);
    ghost var g := f + ToLE(p.halfOpenSuccessThreshold, 4);
    Emit(buf, s, base, done, off, [p.windowKind]);
    Emit(buf, s, base, a, off + 1, [p.failureRatePercent]);
    Emit(buf, s, base, b, off + 2, ToLE(0, 2));
    Emit(buf, s, base, c, off + 4, ToLE(p.minimumCalls, 4));
    Emit(buf, s, base, d, off + 8, ToLE(p.windowSpan, 8));
    Emit(buf, s, base, e, off + 16, ToLE(p.halfOpenMaxCalls, 4));
    Emit(buf, s, base, f, off + 20, ToLE(p.halfOpenSuccessThreshold, 4));
    Emit(buf, s, base, g, off + 24, ToLE(p.openDurationNs, 8));
    assert g + ToLE(p.openDurationNs, 8) == done + PolicyBytes(p);
  }

  method WriteRecord(buf: array<U8>, ghost s: seq<U8>, ghost base: nat, ghost done: seq<U8>, off: nat, p: Policy)
    requires Wrote(buf, s, base, done) && off == base + |done| && off + RecordLen(Some(p)) <= buf.Length
    modifies buf
    ensures Wrote(buf, s, base, done + RecordBytes(Some(p)))
  {
    hide ToLE, PolicyBytes, FrameBytes;
    ghost var frame := done + FrameBytes(NodeTag(KindOf(p)), BodyLen(KindOf(p)));
    WriteFrame(buf, s, base, done, off, NodeTag(KindOf(p)), BodyLen(KindOf(p)));
    match p {
      case Limiter(_, _, _) => WriteLimiter(buf, s, base, frame, off + 8, p);
      case Timeout(d) =>
        Emit(buf, s, base, frame, off + 8, ToLE(d, 8));
        TimeoutBytes(p);
      case Retry(_, _, _, _, _) => WriteRetry(buf, s, base, frame, off + 8, p);
      case Breaker(_, _, _, _, _, _, _) => WriteBreaker(buf, s, base, frame, off + 8, p);
    }
    assert frame + PolicyBytes(p) == done + RecordBytes(Some(p));
  }

  lemma TimeoutBytes(p: Policy)
    requires p.Timeout?
    ensures PolicyBytes(p) == ToLE(p.durationNs, 8)
  {
  }

  // ---------------------------------------------------------------------
  // Sections
  // ---------------------------------------------------------------------

  method WriteHeader(buf: array<U8>, l: Layout)
    requires BODY_OFFSET + CONDUCTOR_HEADER_LEN <= buf.Length && InWireRange(l)
    modifies buf
    ensures buf[..] == Put(old(buf[..]), 0, FileHeader(l) + BodyHeader(l))
  {
    hide ToLE;
    ghost var s := buf[..];
    PutSame(s, 0, []);
    WriteFileHeader(buf, s, l);
    WriteBodyHeader(buf, s, FileHeader(l), l);
  }

  predicate InWireRange(l: Layout) {
    && l.total < 0x1_0000_0000 && l.specRecordLen < 0x1_0000_0000 && l.edgeTableOff < 0x1_0000_0000
    && l.registryOff < 0x1_0000_0000 && l.configOff < 0x1_0000_0000
  }

  method WriteFileHeader(buf: array<U8>, ghost s: seq<U8>, l: Layout)
    requires Wrote(buf, s, 0, []) && BODY_OFFSET <= buf.Length && InWireRange(l)
    modifies buf
    ensures Wrote(buf, s, 0, FileHeader(l))
  {
    hide ToLE;
    ghost var a := MAGIC + ToLE(VERSION, 2);
    ghost var b := a + ToLE(0, 2);
    ghost var c := b + ToLE(l.total, 4);
    ghost var d := c + ToLE(HEADER_LEN, 4);
    ghost var e := d + ToLE(CONDUCTOR_SPEC_TAG, 2);
    ghost var f := e + ToLE(0, 2);
    Emit(buf, s, 0, [], 0, MAGIC);
    assert [] + MAGIC == MAGIC;
    Emit(buf, s, 0, MAGIC, 4, ToLE(VERSION, 2));
    Emit(buf, s, 0, a, 6, ToLE(0, 2));
    PutOffset(buf, s, 0, b, 8, l.total);
    PutOffset(buf, s, 0, c, 12, HEADER_LEN);
    Emit(buf, s, 0, d, HEADER_LEN, ToLE(CONDUCTOR_SPEC_TAG, 2));
    Emit(buf, s, 0, e, HEADER_LEN + 2, ToLE(0, 2));
    PutOffset(buf, s, 0, f, HEADER_LEN + 4, l.specRecordLen);
    assert f + ToLE(l.specRecordLen, 4) == FileHeader(l);
  }

  method WriteBodyHeader(buf: array<U8>, ghost s: seq<U8>, ghost done: seq<U8>, l: Layout)
    requires Wrote(buf, s, 0, done) && |done| == BODY_OFFSET && BODY_OFFSET + CONDUCTOR_HEADER_LEN <= buf.Length
             && InWireRange(l)
    modifies buf
    ensures Wrote(buf, s, 0, done + BodyHeader(l))
  {
    hide ToLE;
    ghost var a := done + ToLE(l.stageCount, 4);
    ghost var b := a + ToLE(l.edgeCount, 4);
    ghost var c := b + ToLE(CONDUCTOR_HEADER_LEN, 4);
    ghost var d := c + ToLE(l.edgeTableOff, 4);
    ghost var e := d + ToLE(l.registryOff, 4);
    Emit(buf, s, 0, done, BODY_OFFSET, ToLE(l.stageCount, 4));
    Emit(buf, s, 0, a, BODY_OFFSET + 4, ToLE(l.edgeCount, 4));
    PutOffset(buf, s, 0, b, BODY_OFFSET + 8, CONDUCTOR_HEADER_LEN);
    PutOffset(buf, s, 0, c, BODY_OFFSET + 12, l.edgeTableOff);
    PutOffset(buf, s, 0, d, BODY_OFFSET + 16, l.registryOff);
    PutOffset(buf, s, 0, e, BODY_OFFSET + 20, l.configOff);
    assert e + ToLE(l.configOff, 4) == done + BodyHeader(l);
  }

  lemma TakeNext<T>(q: seq<T>, n: nat)
    requires n < |q|
    ensures q[..n + 1][..n] == q[..n] && q[..n + 1][n] == q[n]
  {
  }

  lemma {:induction false} RecordsGrow(slots: seq<Option<Policy>>, n: nat)
    requires n <= |slots|
    ensures |Records(slots[..n])| <= |Records(slots)|
    decreases |slots| - n
  {
    if n < |slots| {
      TakeNext(slots, n);
      RecordsGrow(slots, n + 1);
    } else {
      assert slots[..n] == slots;
    }
  }

  lemma SlotStep(slots: seq<Option<Policy>>, base: nat, n: nat)
    requires n < |slots|
    ensures SlotTable(slots[..n + 1], base)
         == SlotTable(slots[..n], base) + ToLE(if slots[n].None? then 0 else base + |Records(slots[..n])|, 4)
    ensures |Records(slots[..n + 1])| == |Records(slots[..n])| + RecordLen(slots[n])
    ensures |Records(slots[..n])| <= |Records(slots)|
  {
    hide ToLE, RecordBytes;
    var q := slots[..n + 1];
    TakeNext(slots, n);
    assert SlotTable(q, base) == SlotTable(q[..n], base) + ToLE(RecordOffset(q, base, n), 4);
    assert Records(q) == Records(q[..n]) + RecordBytes(q[n]);
    RecordsGrow(slots, n);
  }

  method WriteStageTable(buf: array<U8>, stages: seq<StageSpec>, policyHeapOff: nat)
    requires BODY_OFFSET + CONDUCTOR_HEADER_LEN + STAGE_ENTRY_LEN * |stages| <= buf.Length
    requires policyHeapOff + |Records(SlotsOf(stages))| < 0x1_0000_0000
    modifies buf
    ensures buf[..] == Put(old(buf[..]), BODY_OFFSET + CONDUCTOR_HEADER_LEN, SlotTable(SlotsOf(stages), policyHeapOff))
  {
    hide ToLE, SlotsOf, Put, SlotTable, Records;
    ghost var s, slots := buf[..], SlotsOf(stages);
    var table, payload := BODY_OFFSET + CONDUCTOR_HEADER_LEN, policyHeapOff;
    PutSame(s, table, []);
    NoSlots(policyHeapOff);
    var i := 0;
    while i < |stages|
      invariant 0 <= i <= |stages|
      invariant payload == policyHeapOff + |Records(slots[..KINDS * i])|
      invariant Wrote(buf, s, table, SlotTable(slots[..KINDS * i], policyHeapOff))
    {
      var entry := table + i * STAGE_ENTRY_LEN;
      var k := 0;
      while k < KINDS
        invariant 0 <= k <= KINDS
        invariant payload == policyHeapOff + |Records(slots[..KINDS * i + k])|
        invariant Wrote(buf, s, table, SlotTable(slots[..KINDS * i + k], policyHeapOff))
      {
        ghost var n := KINDS * i + k;
        SlotsAt(stages, i, k);
        SlotStep(slots, policyHeapOff, n);
        var slot := stages[i][k];
        PutOffset(buf, s, table, SlotTable(slots[..n], policyHeapOff), entry + 4 * k,
                  if slot.None? then 0 else payload);
        payload := payload + RecordLen(slot);
        k := k + 1;
      }
      i := i + 1;
    }
    assert slots[..KINDS * i] == slots;
  }

  method WriteEdgeTable(buf: array<U8>, table: nat, edges: seq<EdgeView>)
    requires table + EDGE_LEN * |edges| <= buf.Length
    modifies buf
    ensures buf[..] == Put(old(buf[..]), table, EdgeTable(edges))
  {
    hide Put, EdgeBytes;
    ghost var s := buf[..];
    PutSame(s, table, []);
    var j := 0;
    while j < |edges|
      invariant 0 <= j <= |edges| && Wrote(buf, s, table, EdgeTable(edges[..j]))
    {
      TakeNext(edges, j);
      WriteEdge(buf, s, table, EdgeTable(edges[..j]), table + j * EDGE_LEN, edges[j]);
      j := j + 1;
    }
    assert edges[..j] == edges;
  }

  method WriteEdge(buf: array<U8>, ghost s: seq<U8>, ghost base: nat, ghost done: seq<U8>, off: nat, e: EdgeView)
    requires Wrote(buf, s, base, done) && off == base + |done| && off + EDGE_LEN <= buf.Length
    modifies buf
    ensures Wrote(buf, s, base, done + EdgeBytes(e))
  {
    hide ToLE;
    ghost var a := done + ToLE(e.fromOrdinal, 2);
    ghost var b := a + ToLE(e.toOrdinal, 2);
    ghost var c := b + ToLE(e.inputIndex, 2);
    Emit(buf, s, base, done, off, ToLE(e.fromOrdinal, 2));
    Emit(buf, s, base, a, off + 2, ToLE(e.toOrdinal, 2));
    Emit(buf, s, base, b, off + 4, ToLE(e.inputIndex, 2));
    Emit(buf, s, base, c, off + 6, ToLE(0, 2));
    assert c + ToLE(0, 2) == done + EdgeBytes(e);
  }

  method WritePolicyRecords(buf: array<U8>, heap: nat, stages: seq<StageSpec>)
    requires heap + |Records(SlotsOf(stages))| <= buf.Length
    modifies buf
    ensures buf[..] == Put(old(buf[..]), heap, Records(SlotsOf(stages)))
  {
    hide SlotsOf, Put, RecordBytes;
    ghost var s, slots := buf[..], SlotsOf(stages);
    PutSame(s, heap, []);
    var payload := heap;
    var i := 0;
    while i < |stages|
      invariant 0 <= i <= |stages|
      invariant payload == heap + |Records(slots[..KINDS * i])| && Wrote(buf, s, heap, Records(slots[..KINDS * i]))
    {
      var k := 0;
      while k < KINDS
        invariant 0 <= k <= KINDS
        invariant payload == heap + |Records(slots[..KINDS * i + k])|
                  && Wrote(buf, s, heap, Records(slots[..KINDS * i + k]))
      {
        ghost var n := KINDS * i + k;
        SlotsAt(stages, i, k);
        TakeNext(slots, n);
        RecordsGrow(slots, n + 1);
        var slot := stages[i][k];
        if slot.Some? {
          WriteRecord(buf, s, heap, Records(slots[..n]), payload, slot.value);
          payload := payload + RECORD_HEADER_LEN + BodyLen(KindOf(slot.value));
        } else {
          NoRecord(Records(slots[..n]));
        }
        k := k + 1;
      }
      i := i + 1;
    }
    assert slots[..KINDS * i] == slots;
  }

  lemma NoSlots(base: nat)
    ensures SlotTable([], base) == [] && Records([]) == []
  {
  }

  lemma NoRecord(done: seq<U8>)
    ensures done + RecordBytes(None) == done
  {
  }

  // ---------------------------------------------------------------------
  // The registry and the config section: a table and the string heap at once
  // ---------------------------------------------------------------------

  /** `s` with a table at `at` and heap bytes at `h`. */
  ghost predicate WroteBoth(buf: array<U8>, s: seq<U8>, at: nat, table: seq<U8>, h: nat, heap: seq<U8>)
    reads buf
  {
    |s| == buf.Length && at + |table| <= h && h + |heap| <= |s| && buf[..] == Put(Put(s, at, table), h, heap)
  }

  /** Extends the table. */
  method EmitTable(buf: array<U8>, ghost s: seq<U8>, ghost at: nat, ghost table: seq<U8>, ghost h: nat,
    ghost heap: seq<U8>, off: nat, b: seq<U8>)
    requires WroteBoth(buf, s, at, table, h, heap) && off == at + |table| && off + |b| <= h
    modifies buf
    ensures WroteBoth(buf, s, at, table + b, h, heap)
  {
    PutCommute(s, at, table, h, heap);
    PutAppend(Put(s, h, heap), at, table, b);
    PutCommute(s, at, table + b, h, heap);
    WriteBytes(buf, off, b);
  }

  method EmitTableOffset(buf: array<U8>, ghost s: seq<U8>, ghost at: nat, ghost table: seq<U8>, ghost h: nat,
    ghost heap: seq<U8>, off: nat, value: nat)
    requires WroteBoth(buf, s, at, table, h, heap) && off == at + |table| && off + 4 <= h && value < 0x1_0000_0000
    modifies buf
    ensures WroteBoth(buf, s, at, table + ToLE(value, 4), h, heap)
  {
    var narrowed := if value < 0x1_0000_0000 then value else 0xFFFF_FFFF;
    EmitTable(buf, s, at, table, h, heap, off, ToLE(narrowed, 4));
  }

  /** Extends the heap. */
  method EmitHeap(buf: array<U8>, ghost s: seq<U8>, ghost at: nat, ghost table: seq<U8>, ghost h: nat,
    ghost heap: seq<U8>, off: nat, b: seq<U8>)
    requires WroteBoth(buf, s, at, table, h, heap) && off == h + |heap| && off + |b| <= buf.Length
    modifies buf
    ensures WroteBoth(buf, s, at, table, h, heap + b)
  {
    PutAppend(Put(s, at, table), h, heap, b);
    WriteBytes(buf, off, b);
  }

  lemma {:induction false} ConcatGrow(names: seq<seq<U8>>, n: nat)
    requires n <= |names|
    ensures |Concat(names[..n])| <= |Concat(names)|
    decreases |names| - n
  {
    if n < |names| {
      TakeNext(names, n);
      ConcatGrow(names, n + 1);
    } else {
      assert names[..n] == names;
    }
  }

  lemma NameStep(names: seq<seq<U8>>, heap: nat, i: nat)
    requires i < |names|
    ensures NameTable(names[..i + 1], heap)
         == NameTable(names[..i], heap) + (ToLE(heap + |Concat(names[..i])|, 4) + ToLE(|names[i]|, 4))
    ensures Concat(names[..i + 1]) == Concat(names[..i]) + names[i]
    ensures |Concat(names[..i])| + |names[i]| <= |Concat(names)|
  {
    hide ToLE;
    var q := names[..i + 1];
    TakeNext(names, i);
    assert NameTable(q, heap) == NameTable(q[..i], heap) + (ToLE(heap + |Concat(q[..i])|, 4) + ToLE(|q[i]|, 4));
    assert Concat(q) == Concat(q[..i]) + q[i];
    ConcatGrow(names, i + 1);
  }

  /** Names go to the heap as their table entries are written; the sorted index follows the table. */
  method WriteRegistry(buf: array<U8>, registryOff: nat, heapOff: nat, r: RegistrySpec) returns (heap: nat)
    requires |r.names| == |r.sorted|
    requires registryOff + (NAME_ENTRY_LEN + SORTED_ENTRY_LEN) * |r.names| <= heapOff
    requires BODY_OFFSET + heapOff + |Concat(r.names)| <= buf.Length && heapOff + |Concat(r.names)| < 0x1_0000_0000
    modifies buf
    ensures heap == heapOff + |Concat(r.names)|
    ensures buf[..] == Put(Put(old(buf[..]), BODY_OFFSET + registryOff,
            NameTable(r.names, heapOff) + SortedTable(r.sorted)),
                           BODY_OFFSET + heapOff, Concat(r.names))
  {
    hide ToLE, Put, NameTable, Concat;
    ghost var s := buf[..];
    var nameTable := BODY_OFFSET + registryOff;
    ghost var h := BODY_OFFSET + heapOff;
    NoNames(heapOff);
    PutSame(s, nameTable, []);
    PutSame(s, h, []);
    heap := heapOff;
    var i := 0;
    while i < |r.names|
      invariant 0 <= i <= |r.names| && heap == heapOff + |Concat(r.names[..i])|
      invariant WroteBoth(buf, s, nameTable, NameTable(r.names[..i], heapOff), h, Concat(r.names[..i]))
    {
      NameStep(r.names, heapOff, i);
      WriteName(buf, s, nameTable, NameTable(r.names[..i], heapOff), h, Concat(r.names[..i]),
                nameTable + i * NAME_ENTRY_LEN, heap, r.names[i]);
      heap := heap + |r.names[i]|;
      i := i + 1;
    }
    assert r.names[..i] == r.names;
    WriteSorted(buf, s, nameTable, NameTable(r.names, heapOff), h, Concat(r.names),
      nameTable + NAME_ENTRY_LEN * |r.names|, r.sorted);
  }

  lemma NoNames(heap: nat)
    ensures NameTable([], heap) == [] && Concat([]) == []
  {
  }

  method WriteName(buf: array<U8>, ghost s: seq<U8>, ghost at: nat, ghost table: seq<U8>, ghost h: nat,
    ghost done: seq<U8>, entry: nat, heap: nat, name: seq<U8>)
    requires WroteBoth(buf, s, at, table, h, done) && entry == at + |table| && entry + NAME_ENTRY_LEN <= h
    requires BODY_OFFSET + heap == h + |done| && h + |done| + |name| <= buf.Length && heap + |name| < 0x1_0000_0000
    modifies buf
    ensures WroteBoth(buf, s, at, table + (ToLE(heap, 4) + ToLE(|name|, 4)), h, done + name)
  {
    hide ToLE, Put;
    EmitTableOffset(buf, s, at, table, h, done, entry, heap);
    EmitTableOffset(buf, s, at, table + ToLE(heap, 4), h, done, entry + 4, |name|);
    assert table + ToLE(heap, 4) + ToLE(|name|, 4) == table + (ToLE(heap, 4) + ToLE(|name|, 4));
    EmitHeap(buf, s, at, table + (ToLE(heap, 4) + ToLE(|name|, 4)), h, done, BODY_OFFSET + heap, name);
  }

  method WriteSorted(buf: array<U8>, ghost s: seq<U8>, ghost at: nat, ghost table: seq<U8>, ghost h: nat,
    ghost heap: seq<U8>, off: nat, sorted: seq<U16>)
    requires WroteBoth(buf, s, at, table, h, heap) && off == at + |table| && off + SORTED_ENTRY_LEN * |sorted| <= h
    modifies buf
    ensures WroteBoth(buf, s, at, table + SortedTable(sorted), h, heap)
  {
    hide ToLE, Put;
    assert table + [] == table;
    var k := 0;
    while k < |sorted|
      invariant 0 <= k <= |sorted| && WroteBoth(buf, s, at, table + SortedTable(sorted[..k]), h, heap)
    {
      TakeNext(sorted, k);
      EmitTable(buf, s, at, table + SortedTable(sorted[..k]), h, heap, off + k * SORTED_ENTRY_LEN, ToLE(sorted[k], 2));
      assert table + SortedTable(sorted[..k]) + ToLE(sorted[k], 2) == table + SortedTable(sorted[..k + 1]);
      k := k + 1;
    }
    assert sorted[..k] == sorted;
  }

  lemma BindingStep(config: seq<Binding>, heap: nat, i: nat)
    requires i < |config|
    ensures BindingTable(config[..i + 1], heap)
         == BindingTable(config[..i], heap) + BindingBytes(config[i], heap + |Concat(KeysOf(config[..i]))|)
    ensures Concat(KeysOf(config[..i + 1])) == Concat(KeysOf(config[..i])) + config[i].key
    ensures |Concat(KeysOf(config[..i]))| + |config[i].key| <= |Concat(KeysOf(config))|
  {
    hide BindingBytes;
    var q := config[..i + 1];
    TakeNext(config, i);
    assert BindingTable(q, heap) == BindingTable(q[..i], heap) + BindingBytes(q[i], heap + |Concat(KeysOf(q[..i]))|);
    assert KeysOf(q) == KeysOf(config)[..i + 1] && KeysOf(q[..i]) == KeysOf(config)[..i];
    NameStep(KeysOf(config), heap, i);
  }

  method WriteConfig(buf: array<U8>, configOff: nat, heapOff: nat, config: seq<Binding>)
    requires configOff + CONFIG_HEADER_LEN + BINDING_LEN * |config| <= heapOff
    requires BODY_OFFSET + heapOff + |Concat(KeysOf(config))| <= buf.Length
             && heapOff + |Concat(KeysOf(config))| < 0x1_0000_0000
    modifies buf
    ensures buf[..] == Put(Put(old(buf[..]), BODY_OFFSET + configOff,
                               ToLE(|config|, 4) + ToLE(0, 4) + BindingTable(config, heapOff)),
                           BODY_OFFSET + heapOff, Concat(KeysOf(config)))
  {
    hide ToLE, Put, BindingTable, BindingBytes, Concat;
    ghost var s := buf[..];
    var section := BODY_OFFSET + configOff;
    ghost var h := BODY_OFFSET + heapOff;
    ghost var head := ToLE(|config|, 4) + ToLE(0, 4);
    NoBindings(heapOff);
    PutSame(s, section, []);
    PutSame(s, h, []);
    EmitTableOffset(buf, s, section, [], h, [], section, |config|);
    assert [] + ToLE(|config|, 4) == ToLE(|config|, 4);
    EmitTable(buf, s, section, ToLE(|config|, 4), h, [], section + 4, ToLE(0, 4));
    assert head + [] == head;
    var entries := section + CONFIG_HEADER_LEN;
    var heap := heapOff;
    var i := 0;
    while i < |config|
      invariant 0 <= i <= |config| && heap == heapOff + |Concat(KeysOf(config[..i]))|
      invariant WroteBoth(buf, s, section, head + BindingTable(config[..i], heapOff), h, Concat(KeysOf(config[..i])))
    {
      BindingStep(config, heapOff, i);
      WriteBinding(buf, s, section, head + BindingTable(config[..i], heapOff), h, Concat(KeysOf(config[..i])),
                   entries + i * BINDING_LEN, heap, config[i]);
      assert head + BindingTable(config[..i], heapOff) + BindingBytes(config[i], heap)
             == head + BindingTable(config[..i + 1], heapOff);
      heap := heap + |config[i].key|;
      i := i + 1;
    }
    assert config[..i] == config;
  }

  lemma NoBindings(heap: nat)
    ensures BindingTable([], heap) == [] && Concat(KeysOf([])) == []
  {
  }

  method WriteBinding(buf: array<U8>, ghost s: seq<U8>, ghost at: nat, ghost table: seq<U8>, ghost h: nat,
    ghost done: seq<U8>, entry: nat, heap: nat, b: Binding)
    requires WroteBoth(buf, s, at, table, h, done) && entry == at + |table| && entry + BINDING_LEN <= h
    requires BODY_OFFSET + heap == h + |done| && h + |done| + |b.key| <= buf.Length && heap + |b.key| < 0x1_0000_0000
    modifies buf
    ensures WroteBoth(buf, s, at, table + BindingBytes(b, heap), h, done + b.key)
  {
    hide ToLE, Put;
    ghost var t0 := table + ToLE(b.nodeOrdinal, 2);
    ghost var t1 := t0 + ToLE(b.fieldTag, 2);
    ghost var t2 := t1 + ToLE(|b.key|, 4);
    ghost var t3 := t2 + ToLE(heap, 4);
    ghost var t4 := t3 + ToLE(0, 4);
    ghost var t5 := t4 + ToLE(b.default.kind, 8);
    EmitTable(buf, s, at, table, h, done, entry, ToLE(b.nodeOrdinal, 2));
    EmitTable(buf, s, at, t0, h, done, entry + 2, ToLE(b.fieldTag, 2));
    EmitTableOffset(buf, s, at, t1, h, done, entry + 4, |b.key|);
    EmitTableOffset(buf, s, at, t2, h, done, entry + 8, heap);
    EmitTable(buf, s, at, t3, h, done, entry + 12, ToLE(0, 4));
    EmitTable(buf, s, at, t4, h, done, entry + 16, ToLE(b.default.kind, 8));
    EmitTable(buf, s, at, t5, h, done, entry + 24, ToLE(b.default.value, 8));
    assert t5 + ToLE(b.default.value, 8) == table + BindingBytes(b, heap);
    EmitHeap(buf, s, at, table + BindingBytes(b, heap), h, done, BODY_OFFSET + heap, b.key);
  }

  // ---------------------------------------------------------------------
  // Layout and the whole blob
  // ---------------------------------------------------------------------

  method PayloadLen(slots: seq<Option<Policy>>) returns (total: nat)
    ensures total == |Records(slots)|
  {
    hide RecordBytes;
    total := 0;
    var n := 0;
    while n < |slots|
      invariant 0 <= n <= |slots| && total == |Records(slots[..n])|
    {
      TakeNext(slots, n);
      total := total + RecordLen(slots[n]);
      n := n + 1;
    }
    assert slots[..n] == slots;
  }

  lemma {:induction false} RecordsConcat(a: seq<Option<Policy>>, b: seq<Option<Policy>>)
    ensures |Records(a + b)| == |Records(a)| + |Records(b)|
    decreases |b|
  {
    hide RecordBytes;
    if b == [] {
      assert a + b == a;
    } else {
      var k := |b| - 1;
      RecordsConcat(a, b[..k]);
      assert (a + b)[..|a + b| - 1] == a + b[..k];
    }
  }

  method PoliciesLen(stages: seq<StageSpec>) returns (total: nat)
    ensures total == |Records(SlotsOf(stages))|
  {
    hide Records;
    NoSlots(0);
    total := 0;
    var i := 0;
    while i < |stages|
      invariant 0 <= i <= |stages| && total == |Records(SlotsOf(stages[..i]))|
    {
      TakeNext(stages, i);
      RecordsConcat(SlotsOf(stages[..i]), stages[i]);
      var len := PayloadLen(stages[i]);
      total := total + len;
      i := i + 1;
    }
    assert stages[..i] == stages;
  }

  method StringsLen(names: seq<seq<U8>>, start: nat) returns (total: nat)
    ensures total == start + |Concat(names)|
  {
    total := start;
    var i := 0;
    while i < |names|
      invariant 0 <= i <= |names| && total == start + |Concat(names[..i])|
    {
      TakeNext(names, i);
      total := total + |names[i]|;
      i := i + 1;
    }
    assert names[..i] == names;
  }

  method ComputeLayout(blob: ConductorBlob) returns (r: Result<Layout, WriteError>)
    ensures r == LayoutOf(blob)
  {
    hide Records, SlotsOf, Concat;
    if |blob.stages| >= 0x1_0000_0000 {
      return Err(SpecTooLarge);
    }
    if |blob.edges| >= 0x1_0000_0000 {
      return Err(SpecTooLarge);
    }
    if blob.registry.Some? {
      var reg := blob.registry.value;
      if |reg.names| != |blob.stages| || |reg.sorted| != |blob.stages| {
        return Err(RegistryArity(|reg.names|, |reg.sorted|, |blob.stages|));
      }
    }
    var edgeTableOff := CONDUCTOR_HEADER_LEN + STAGE_ENTRY_LEN * |blob.stages|;
    var policyHeapOff := edgeTableOff + EDGE_LEN * |blob.edges|;
    var policies := PoliciesLen(blob.stages);
    var afterPolicies := policyHeapOff + policies;
    var registryOff, afterRegistry := 0, afterPolicies;
    if blob.registry.Some? {
      registryOff := afterPolicies;
      afterRegistry := afterPolicies + Align8(NAME_ENTRY_LEN * |blob.stages| + SORTED_ENTRY_LEN * |blob.stages|);
    }
    var configOff, heapOff := 0, afterRegistry;
    if blob.config != [] {
      configOff := afterRegistry;
      heapOff := afterRegistry + (CONFIG_HEADER_LEN + BINDING_LEN * |blob.config|);
    }
    var strings := StringsLen(Names(blob), 0);
    strings := StringsLen(KeysOf(blob.config), strings);
    var specRecordLen := RECORD_HEADER_LEN + Align8(heapOff + strings);
    var total := HEADER_LEN + specRecordLen;
    if total >= 0x1_0000_0000 {
      return Err(SpecTooLarge);
    }
    return Ok(Layout(total, specRecordLen, |blob.stages|, |blob.edges|, edgeTableOff, policyHeapOff, registryOff,
      configOff, heapOff));
  }

  method FillZero(buf: array<U8>, n: nat)
    requires n <= buf.Length
    modifies buf
    ensures buf[..] == Zeros(n) + old(buf[n..])
  {
    var i := 0;
    while i < n
      invariant 0 <= i <= n
      invariant forall k | 0 <= k < buf.Length :: buf[k] == if k < i then 0 else old(buf[k])
    {
      buf[i] := 0;
      i := i + 1;
    }
  }

  /** The outcome of a write, without the bytes. */
  function Outcome(blob: ConductorBlob, available: nat): Result<nat, WriteError> {
    match LayoutOf(blob)
    case Err(e) => Err(e)
    case Ok(l) => if available < l.total then Err(BufferTooSmall(l.total, available)) else Ok(l.total)
  }

  predicate Countable(blob: ConductorBlob) {
    |blob.stages| < 0x1_0000_0000 && |blob.edges| < 0x1_0000_0000
  }

  /** The blob has an encoding that the wire's 32-bit offsets can address. */
  predicate Encodable(blob: ConductorBlob) {
    Countable(blob) && ArityOk(blob) && |Encode(blob, Plan(blob))| < 0x1_0000_0000
  }

  /** A write succeeds exactly when there is an encoding and it fits, and what each failure means. */
  lemma OutcomeExact(blob: ConductorBlob, available: nat)
    ensures var o := Outcome(blob, available);
            && (o.Ok? <==> Encodable(blob) && |Encode(blob, Plan(blob))| <= available)
            && (o.Ok? ==> o.value == |Encode(blob, Plan(blob))|)
            && (o.Err? && o.error.BufferTooSmall? <==> Encodable(blob) && |Encode(blob, Plan(blob))| > available)
            && (o.Err? && o.error.BufferTooSmall? ==>
                  && o.error == BufferTooSmall(|Encode(blob, Plan(blob))|, available)
                  && Outcome(blob, o.error.needed) == Ok(o.error.needed))
            && (o.Err? && o.error.RegistryArity? <==> Countable(blob) && !ArityOk(blob))
            && (o.Err? && o.error.RegistryArity? ==>
                  var r := blob.registry.value;
                  o.error == RegistryArity(|r.names|, |r.sorted|, |blob.stages|))
            && (o == Err(SpecTooLarge) <==> !Encodable(blob) && (Countable(blob) ==> ArityOk(blob)))
  {
    hide Encode, Plan;
    if Countable(blob) && ArityOk(blob) {
      Lengths(blob);
    }
  }

  /** The registry's tables, without their padding. */
  function RegistryTables(blob: ConductorBlob, l: Layout): seq<U8> {
    if blob.registry.None? then []
    else NameTable(blob.registry.value.names, l.heapOff) + SortedTable(blob.registry.value.sorted)
  }

  /** The front sections follow one another. */
  lemma AssembleFront(s: seq<U8>, blob: ConductorBlob, l: Layout)
    requires |blob.stages| < 0x1_0000_0000 && |blob.edges| < 0x1_0000_0000 && ArityOk(blob) && l == Plan(blob)
    requires l.total <= |s|
    ensures BODY_OFFSET + |Front(blob, l)| <= |s|
    ensures var slots := SlotsOf(blob.stages);
            Put(Put(Put(Put(s, 0, FileHeader(l) + BodyHeader(l)), BODY_OFFSET + CONDUCTOR_HEADER_LEN,
              SlotTable(slots, l.policyHeapOff)),
                    BODY_OFFSET + l.edgeTableOff, EdgeTable(blob.edges)), BODY_OFFSET + l.policyHeapOff, Records(slots))
            == Put(s, 0, FileHeader(l) + Front(blob, l))
  {
    hide ToLE, Put, SlotTable, EdgeTable, Records, SlotsOf, FileHeader, BodyHeader, RegistryBytes, ConfigBytes,
      HeapBytes, Align8, RegistryLen, ConfigLen, Encode, BodyBytes, Structure;
    Lengths(blob);
    var slots := SlotsOf(blob.stages);
    var a := FileHeader(l) + BodyHeader(l);
    var b, c, d := SlotTable(slots, l.policyHeapOff), EdgeTable(blob.edges), Records(slots);
    PutAppend(s, 0, a, b);
    PutAppend(s, 0, a + b, c);
    PutAppend(s, 0, a + b + c, d);
    assert a + b + c + d == FileHeader(l) + Front(blob, l);
  }

  /** A write of zeros over zeros. */
  lemma Pad(s: seq<U8>, x: seq<U8>, n: nat)
    requires |x| + n <= |s| && s[|x|..|x| + n] == Zeros(n)
    ensures Put(s, 0, x) == Put(s, 0, x + Zeros(n))
  {
    PutElsewhere(s, 0, x, |x|, |x| + n);
    PutSame(Put(s, 0, x), |x|, Zeros(n));
    PutAppend(s, 0, x, Zeros(n));
  }

  lemma ZeroStretch(s: seq<U8>, total: nat, lo: nat, n: nat)
    requires total <= |s| && s[..total] == Zeros(total) && lo + n <= total
    ensures s[lo..lo + n] == Zeros(n)
  {
    var z := s[lo..lo + n];
    forall k | 0 <= k < n ensures z[k] == 0 {
      assert z[k] == s[..total][lo + k];
    }
  }

  /** The tables and the heap, whichever was written first, fill the rest in order. */
  lemma AssembleTail(s: seq<U8>, x: seq<U8>, t: seq<U8>, p: nat, c: seq<U8>, names: seq<U8>, keys: seq<U8>, q: nat)
    requires var h := |x| + |t| + p + |c|; h + |names| + |keys| + q <= |s|
    requires var total := |x| + |t| + p + |c| + |names| + |keys| + q; s[..total] == Zeros(total)
    ensures var at := |x| + |t| + p;
            var h := at + |c|;
            Put(Put(Put(Put(Put(s, 0, x), |x|, t), h, names), at, c), h + |names|, keys)
            == Put(s, 0, x + (t + Zeros(p)) + c + (names + keys) + Zeros(q))
  {
    hide Put;
    var total := |x| + |t| + p + |c| + |names| + |keys| + q;
    var at := |x| + |t| + p;
    var h := at + |c|;
    PutAppend(s, 0, x, t);
    ZeroStretch(s, total, |x| + |t|, p);
    Pad(s, x + t, p);
    var y := x + t + Zeros(p);
    PutCommute(Put(s, 0, y), at, c, h, names);
    PutAppend(s, 0, y, c);
    PutAppend(s, 0, y + c, names);
    PutAppend(s, 0, y + c + names, keys);
    var z := y + c + names + keys;
    ZeroStretch(s, total, |z|, q);
    Pad(s, z, q);
    assert z + Zeros(q) == x + (t + Zeros(p)) + c + (names + keys) + Zeros(q);
  }

  lemma EncodeTail(blob: ConductorBlob, l: Layout)
    requires |blob.stages| < 0x1_0000_0000 && |blob.edges| < 0x1_0000_0000 && ArityOk(blob) && l == Plan(blob)
    ensures var t := RegistryTables(blob, l);
            var p := RegistryLen(blob) - |t|;
            && p >= 0
            && (FileHeader(l) + Front(blob, l)) + (t + Zeros(p)) + ConfigBytes(blob, l) + HeapBytes(blob)
               + Zeros(l.total - BODY_OFFSET - l.heapOff - |HeapBytes(blob)|) == Encode(blob, l)
  {
    hide ToLE, Front, FileHeader, NameTable, SortedTable, ConfigBytes, HeapBytes, Align8, Records, SlotsOf, ConfigLen,
      Zeros;
    Lengths(blob);
    var t := RegistryTables(blob, l);
    assert t + Zeros(RegistryLen(blob) - |t|) == RegistryBytes(blob, l) by {
      ZerosNone();
    }
    Regrouped(FileHeader(l), Front(blob, l), RegistryBytes(blob, l), ConfigBytes(blob, l), HeapBytes(blob),
              Zeros(l.total - BODY_OFFSET - l.heapOff - |HeapBytes(blob)|));
  }

  lemma ZerosNone()
    ensures [] + Zeros(0) == []
  {
  }

  lemma Regrouped(f: seq<U8>, a: seq<U8>, b: seq<U8>, c: seq<U8>, h: seq<U8>, z: seq<U8>)
    ensures (f + a) + b + c + h + z == f + ((a + b + c + h) + z)
  {
  }

  method WriteFront(buf: array<U8>, blob: ConductorBlob, l: Layout)
    requires LayoutOf(blob) == Ok(l) && l.total <= buf.Length
    modifies buf
    ensures BODY_OFFSET + |Front(blob, l)| <= buf.Length
    ensures buf[..] == Put(old(buf[..]), 0, FileHeader(l) + Front(blob, l))
  {
    hide ToLE, Put, SlotTable, EdgeTable, Records, SlotsOf, FileHeader, BodyHeader, Front, Concat, Align8;
    Lengths(blob);
    AssembleFront(buf[..], blob, l);
    WriteHeader(buf, l);
    WriteStageTable(buf, blob.stages, l.policyHeapOff);
    WriteEdgeTable(buf, BODY_OFFSET + l.edgeTableOff, blob.edges);
    WritePolicyRecords(buf, BODY_OFFSET + l.policyHeapOff, blob.stages);
  }

  method WriteTail(buf: array<U8>, blob: ConductorBlob, l: Layout)
    requires LayoutOf(blob) == Ok(l) && l.total <= buf.Length
    modifies buf
    ensures BODY_OFFSET + |Structure(blob, l)| + |HeapBytes(blob)| <= buf.Length
    ensures var names := Concat(Names(blob));
            var at := BODY_OFFSET + |Front(blob, l)|;
            var h := BODY_OFFSET + l.heapOff;
            && at + |RegistryTables(blob, l)| <= buf.Length && h + |HeapBytes(blob)| <= buf.Length
            && at + RegistryLen(blob) + |ConfigBytes(blob, l)| <= buf.Length
            && buf[..] == Put(Put(Put(Put(old(buf[..]), at, RegistryTables(blob, l)), h, names),
                                  at + RegistryLen(blob), ConfigBytes(blob, l)), h + |names|,
                                    Concat(KeysOf(blob.config)))
  {
    hide ToLE, Put, Front, NameTable, SortedTable, BindingTable, Concat, Align8, Records, SlotsOf;
    Lengths(blob);
    ghost var s := buf[..];
    ghost var at, h := BODY_OFFSET + |Front(blob, l)|, BODY_OFFSET + l.heapOff;
    var heap := l.heapOff;
    if blob.registry.Some? {
      heap := WriteRegistry(buf, l.registryOff, l.heapOff, blob.registry.value);
    } else {
      NoNames(0);
      PutSame(s, at, []);
      PutSame(s, h, []);
    }
    ghost var s2 := buf[..];
    if blob.config != [] {
      WriteConfig(buf, l.configOff, heap, blob.config);
    } else {
      NoBindings(0);
      PutSame(s2, at + RegistryLen(blob), []);
      PutSame(s2, h + |Concat(Names(blob))|, []);
    }
  }

  /** The blob's bytes over the cleared prefix. */
  method WriteBlob(buf: array<U8>, blob: ConductorBlob, l: Layout)
    requires LayoutOf(blob) == Ok(l) && l.total <= buf.Length
    modifies buf
    ensures buf[..] == Encode(blob, l) + old(buf[l.total..])
  {
    hide ToLE, Put, Front, FileHeader, NameTable, SortedTable, BindingTable, Concat, Align8, Records, SlotsOf;
    Lengths(blob);
    ghost var rest := buf[l.total..];
    FillZero(buf, l.total);
    ghost var s := buf[..];
    WriteFront(buf, blob, l);
    WriteTail(buf, blob, l);
    ghost var x, t := FileHeader(l) + Front(blob, l), RegistryTables(blob, l);
    EncodeTail(blob, l);
    AssembleTail(s, x, t, RegistryLen(blob) - |t|, ConfigBytes(blob, l), Concat(Names(blob)),
                 Concat(KeysOf(blob.config)), l.total - BODY_OFFSET - l.heapOff - |HeapBytes(blob)|);
    WholePut(s, Encode(blob, l), rest);
  }

  /**
   Writes a conductor into `buf`. Whatever the buffer held, the first `total`
   bytes become the encoding and the rest are untouched; an error writes nothing.
   */
  method WriteConductor(buf: array<U8>, blob: ConductorBlob) returns (r: Result<nat, WriteError>)
    modifies buf
    ensures r == Outcome(blob, buf.Length)
    ensures r.Ok? <==> Encodable(blob) && |Encode(blob, Plan(blob))| <= buf.Length
    ensures r.Err? ==> buf[..] == old(buf[..])
    ensures r.Ok? ==>
              && r.value <= buf.Length && buf[..r.value] == Encode(blob, Plan(blob))
              && buf[r.value..] == old(buf[r.value..])
  {
    hide Encode, Encodable, Plan, ArityOk;
    OutcomeExact(blob, buf.Length);
    var layout := ComputeLayout(blob);
    if layout.Err? {
      return Err(layout.error);
    }
    var l := layout.value;
    if buf.Length < l.total {
      return Err(BufferTooSmall(l.total, buf.Length));
    }
    WriteBlob(buf, blob, l);
    return Ok(l.total);
  }

  lemma WholePut(s: seq<U8>, x: seq<U8>, rest: seq<U8>)
    requires |s| == |x| + |rest| && s[|x|..] == rest
    ensures Put(s, 0, x) == x + rest
  {
  }
}
