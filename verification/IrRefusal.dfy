/**
 Exactly which bytes the reader accepts, in terms of the fields themselves, and
 which error the others get.
 */
module IrRefusal {
  import opened Basics
  import opened Words
  import opened Bytes
  import opened IrModel
  import opened IrReader
  import opened IrCheck
  import opened IrAccepted

  // ---------------------------------------------------------------------
  // Records
  // ---------------------------------------------------------------------

  /** The length field of a record's frame, 0 when the frame is cut off. */
  function FrameLen(b: seq<U8>, off: nat): U32 {
    if off + RECORD_HEADER_LEN <= |b| then U32At(b, off + 4) else 0
  }

  /** An aligned frame of a known tag whose whole record lies in the bytes. */
  predicate FrameOk(b: seq<U8>, off: nat) {
    && off % 8 == 0 && off + RECORD_HEADER_LEN <= |b|
    && RECORD_HEADER_LEN <= FrameLen(b, off) && FrameLen(b, off) % 8 == 0 && off + FrameLen(b, off) <= |b|
    && 1 <= U16At(b, off) <= 9
  }

  /** When a record is read, and which error it gives otherwise. */
  lemma RecordExact(b: seq<U8>, off: nat)
    ensures var r := ReadRecord(b, off);
            && (r.Ok? <==> FrameOk(b, off))
            && (r.Ok? ==> r.value == RecordView(U16At(b, off), b[off + RECORD_HEADER_LEN..off + FrameLen(b, off)]))
            && (r == Err(Truncated) <==> off % 8 == 0 && off + RECORD_HEADER_LEN > |b|)
            && (r == Err(Misaligned) <==>
                  || off % 8 != 0
                  || (off + RECORD_HEADER_LEN <= |b| && FrameLen(b, off) > 8 && FrameLen(b, off) % 8 != 0))
            && (r == Err(OutOfBounds) <==>
                  && off % 8 == 0 && off + RECORD_HEADER_LEN <= |b|
                  && (FrameLen(b, off) < 8 || (FrameLen(b, off) % 8 == 0 && off + FrameLen(b, off) > |b|)))
            && (r.Err? ==>
                  || r.error in {Truncated, Misaligned, OutOfBounds}
                  || (off + RECORD_HEADER_LEN <= |b| && r.error == BadTag(U16At(b, off)) && !(1 <= U16At(b, off) <= 9)))
  {
    hide FromLE;
  }

  // ---------------------------------------------------------------------
  // The tables
  // ---------------------------------------------------------------------

  function SpanAt(t: Tables, n: nat): Span
    requires Framed(t) && n < Slots(t)
  {
    Span(SlotAt(t.stageTable, n), FrameLen(t.body, SlotAt(t.stageTable, n)))
  }

  /** Slot `n` is empty, or leads to a record of its own kind, clear of the sections. */
  predicate SlotSound(t: Tables, n: nat)
    requires Framed(t) && n < Slots(t)
  {
    var off := SlotAt(t.stageTable, n);
    off == 0 ||
    (&& CONDUCTOR_HEADER_LEN <= off && FrameOk(t.body, off)
     && U16At(t.body, off) == NodeTag(n % KINDS) && FrameLen(t.body, off) == RECORD_HEADER_LEN + BodyLen(n % KINDS)
     && forall i | 0 <= i < |Sections(t)| :: !Overlap(SpanAt(t, n), Sections(t)[i]))
  }

  lemma SlotExact(t: Tables, n: nat)
    requires Framed(t) && n < Slots(t)
    ensures CheckSlot(t.body, t.stageTable, Sections(t), n).Ok? <==> SlotSound(t, n)
    ensures SlotSound(t, n) ==>
              RecordSpan(t.body, t.stageTable, n)
              == Ok(if SlotAt(t.stageTable, n) == 0 then None else Some(SpanAt(t, n)))
  {
    hide FromLE, ReadRecord, Sections, NodeTag, BodyLen;
    var off := SlotAt(t.stageTable, n);
    if off != 0 {
      RecordExact(t.body, off);
    }
  }

  predicate Used(t: Tables, n: nat)
    requires Framed(t) && n < Slots(t)
  {
    SlotAt(t.stageTable, n) != 0
  }

  ghost predicate SlotsSound(t: Tables)
    requires Framed(t)
  {
    forall n: nat | n < Slots(t) :: SlotSound(t, n)
  }

  predicate Crosses(t: Tables, a: nat, b: nat)
    requires Framed(t) && a < Slots(t) && b < Slots(t)
  {
    Used(t, a) && Used(t, b) && Overlap(SpanAt(t, a), SpanAt(t, b))
  }

  ghost predicate RowApart(t: Tables, a: nat)
    requires Framed(t) && a < Slots(t)
  {
    forall b: nat | a < b < Slots(t) :: !Crosses(t, a, b)
  }

  /** No two records share a byte. */
  ghost predicate RecordsApart(t: Tables)
    requires Framed(t)
  {
    forall a: nat | a < Slots(t) :: RowApart(t, a)
  }

  lemma SlotsExact(t: Tables)
    requires Framed(t)
    ensures FirstError(SlotChecks(t.body, t.stageTable, Sections(t)), Slots(t)).Ok? <==> SlotsSound(t)
  {
    hide CheckSlot, Sections, SlotSound, FirstError;
    var checks := SlotChecks(t.body, t.stageTable, Sections(t));
    FirstErrorOk(checks, Slots(t));
    forall n: nat | n < Slots(t) ensures checks(n).Ok? <==> SlotSound(t, n) {
      SlotExact(t, n);
    }
  }

  lemma PairExact(t: Tables, a: nat, b: nat)
    requires Framed(t) && SlotsSound(t) && a < Slots(t) && b < Slots(t) && Used(t, a)
    ensures CheckPair(t.body, t.stageTable, SpanAt(t, a), b).Ok? <==> !Crosses(t, a, b)
  {
    SlotExact(t, b);
    hide RecordSpan, SlotSound, SlotAt, FrameLen, SpanAt;
  }

  lemma PairsExact(t: Tables, a: nat, i: nat)
    requires Framed(t) && SlotsSound(t) && a + 1 + i < Slots(t) && Used(t, a)
    ensures PairChecks(t.body, t.stageTable, SpanAt(t, a), a + 1)(i).Ok? <==> !Crosses(t, a, a + 1 + i)
  {
    PairExact(t, a, a + 1 + i);
    assert PairChecks(t.body, t.stageTable, SpanAt(t, a), a + 1)(i)
           == CheckPair(t.body, t.stageTable, SpanAt(t, a), a + 1 + i);
    hide CheckPair, Crosses, SlotsSound, SpanAt, Used;
  }

  /** A used slot's row is its pairs. */
  lemma RowPairs(t: Tables, a: nat)
    requires Framed(t) && SlotsSound(t) && a < Slots(t) && Used(t, a)
    ensures CheckRow(t.body, t.stageTable, Slots(t), a)
            == FirstError(PairChecks(t.body, t.stageTable, SpanAt(t, a), a + 1), Slots(t) - a - 1)
  {
    SlotExact(t, a);
    hide RecordSpan, FirstError, SlotSound, SlotAt, SpanAt, PairChecks;
  }

  lemma RowUnused(t: Tables, a: nat)
    requires Framed(t) && SlotsSound(t) && a < Slots(t) && !Used(t, a)
    ensures CheckRow(t.body, t.stageTable, Slots(t), a) == Ok(()) && RowApart(t, a)
  {
    SlotExact(t, a);
    hide SlotSound, SpanAt, FirstError, PairChecks;
  }

  lemma RowExact(t: Tables, a: nat)
    requires Framed(t) && SlotsSound(t) && a < Slots(t)
    ensures CheckRow(t.body, t.stageTable, Slots(t), a).Ok? <==> RowApart(t, a)
  {
    hide CheckRow, FirstError, SlotsSound, SpanAt, PairChecks, Crosses, RowApart, Framed;
    if Used(t, a) {
      var pairs := PairChecks(t.body, t.stageTable, SpanAt(t, a), a + 1);
      RowPairs(t, a);
      FirstErrorOk(pairs, Slots(t) - a - 1);
      forall i: nat | i < Slots(t) - a - 1 ensures pairs(i).Ok? <==> !Crosses(t, a, a + 1 + i) {
        PairsExact(t, a, i);
      }
      Shifted(t, a, pairs);
    } else {
      RowUnused(t, a);
    }
  }

  lemma Shifted(t: Tables, a: nat, pairs: nat -> Check)
    requires Framed(t) && a < Slots(t)
    requires forall i: nat | i < Slots(t) - a - 1 :: pairs(i).Ok? <==> !Crosses(t, a, a + 1 + i)
    ensures RowApart(t, a) <==> forall i: nat | i < Slots(t) - a - 1 :: pairs(i).Ok?
  {
    hide Crosses;
    if forall i: nat | i < Slots(t) - a - 1 :: pairs(i).Ok? {
      forall b: nat | a < b < Slots(t) ensures !Crosses(t, a, b) {
        var i := b - a - 1;
        assert pairs(i).Ok? && a + 1 + i == b;
      }
    }
  }

  lemma RowsExact(t: Tables)
    requires Framed(t) && SlotsSound(t)
    ensures FirstError(RowChecks(t.body, t.stageTable, Slots(t)), Slots(t)).Ok? <==> RecordsApart(t)
  {
    hide CheckRow, SlotSound, SlotsSound, FirstError, RowApart;
    var checks := RowChecks(t.body, t.stageTable, Slots(t));
    FirstErrorOk(checks, Slots(t));
    forall a: nat | a < Slots(t) ensures checks(a).Ok? <==> RowApart(t, a) {
      RowExact(t, a);
    }
  }

  // ---------------------------------------------------------------------
  // The string heap
  // ---------------------------------------------------------------------

  /** An offset past every section and every record. */
  ghost predicate PastAll(t: Tables, x: nat)
    requires Framed(t)
  {
    && (forall i | 0 <= i < |Sections(t)| :: End(Sections(t)[i]) <= x)
    && (forall n: nat | n < Slots(t) && Used(t, n) :: End(SpanAt(t, n)) <= x)
  }

  lemma {:induction false} SectionsEndLeast(sections: seq<Span>, x: nat)
    ensures SectionsEnd(sections) <= x <==> forall i | 0 <= i < |sections| :: End(sections[i]) <= x
  {
    if sections != [] {
      var k := |sections| - 1;
      SectionsEndLeast(sections[..k], x);
      assert forall i | 0 <= i < k :: sections[..k][i] == sections[i];
    }
  }

  lemma {:induction false} HighestLeast(ends: nat -> Result<nat, IrError>, start: nat, n: nat, x: nat)
    requires forall k: nat | k < n :: ends(k).Ok?
    ensures Highest(ends, start, n).Ok?
    ensures Highest(ends, start, n).value <= x <==> start <= x && forall k: nat | k < n :: ends(k).value <= x
  {
    if n > 0 {
      HighestLeast(ends, start, n - 1, x);
    }
  }

  /** The floor is the least offset past every section and every record. */
  lemma FloorLeast(t: Tables, x: nat)
    requires Framed(t) && SlotsSound(t)
    ensures Floor(Sections(t), t.body, t.stageTable, Slots(t)).Ok?
    ensures Floor(Sections(t), t.body, t.stageTable, Slots(t)).value <= x <==> PastAll(t, x)
  {
    hide RecordSpan, SlotSound, SlotAt, FrameLen, SpanAt, Sections, Highest, SectionsEnd;
    var ends := RecordEnds(t.body, t.stageTable);
    forall n: nat | n < Slots(t) ensures ends(n) == Ok(if Used(t, n) then End(SpanAt(t, n)) else 0) {
      SlotExact(t, n);
    }
    SectionsEndLeast(Sections(t), x);
    HighestLeast(ends, SectionsEnd(Sections(t)), Slots(t), x);
    if PastAll(t, x) {
      assert forall n: nat | n < Slots(t) :: ends(n).value <= x;
    }
    if forall n: nat | n < Slots(t) :: ends(n).value <= x {
      forall n: nat | n < Slots(t) && Used(t, n) ensures End(SpanAt(t, n)) <= x {
        assert ends(n).value <= x;
      }
    }
  }

  /** The index resolves at this rank, to a name not before the previous rank's. */
  predicate RankSound(v: RegistryView, k: nat) {
    && Ranked(v, k).Ok?
    && (k > 0 ==> Ranked(v, k - 1).Ok? && !Less(Ranked(v, k).value, Ranked(v, k - 1).value))
  }

  /** Every name lies past everything else, and the index visits the names in order. */
  ghost predicate RegistrySound(t: Tables)
    requires Framed(t) && t.registry.Some?
  {
    var v := t.registry.value.view;
    && (forall i: nat | i < t.stageCount :: PastAll(t, NameOffset(v.nameTable, i)))
    && (forall k: nat | k < t.stageCount :: RankSound(v, k))
  }

  ghost predicate ConfigSound(t: Tables)
    requires Framed(t) && t.config.Some?
  {
    forall i: nat | i < t.config.value.count :: PastAll(t, KeyOffset(t.config.value.entries, i))
  }

  lemma RankExact(v: RegistryView, k: nat)
    ensures OrderChecks(Ranks(v))(k).Ok? <==> RankSound(v, k)
  {
    hide Ranked, Less;
    assert Ranks(v)(k) == Ranked(v, k);
    if k > 0 {
      assert Ranks(v)(k - 1) == Ranked(v, k - 1);
    }
  }

  lemma OrderExact(v: RegistryView, n: nat)
    ensures FirstError(OrderChecks(Ranks(v)), n).Ok? <==> forall k: nat | k < n :: RankSound(v, k)
  {
    hide RankSound, FirstError, OrderChecks, Ranks;
    var checks := OrderChecks(Ranks(v));
    FirstErrorOk(checks, n);
    forall k: nat | k < n ensures checks(k).Ok? <==> RankSound(v, k) {
      RankExact(v, k);
    }
  }

  lemma StringsExact(t: Tables, floor: nat)
    requires Framed(t) && SlotsSound(t) && Floor(Sections(t), t.body, t.stageTable, Slots(t)) == Ok(floor)
    ensures CheckStrings(t, floor).Ok? <==>
            (t.registry.Some? ==> RegistrySound(t)) && (t.config.Some? ==> ConfigSound(t))
  {
    hide PastAll, SlotSound, Floor, Sections, NameOffset, KeyOffset, FirstError, OrderChecks, Ranks, RankSound;
    forall x: nat ensures floor <= x <==> PastAll(t, x) {
      FloorLeast(t, x);
    }
    if t.registry.Some? {
      OrderExact(t.registry.value.view, t.stageCount);
    }
  }

  // ---------------------------------------------------------------------
  // The whole body
  // ---------------------------------------------------------------------

  /** What accepted tables are, check by check and in no order. */
  ghost predicate Sound(t: Tables)
    requires Framed(t)
  {
    && SectionsDisjoint(Sections(t))
    && EdgesInRange(t.edgeTable, t.edgeCount, t.stageCount)
    && SlotsSound(t) && RecordsApart(t)
    && (t.registry.Some? ==> RegistrySound(t)) && (t.config.Some? ==> ConfigSound(t))
  }

  lemma ChecksExact(t: Tables)
    requires Framed(t)
    ensures CheckTables(t).Ok? <==> Sound(t)
  {
    hide SectionsDisjoint, EdgesInRange, SlotsSound, RecordsApart, RegistrySound, ConfigSound, FirstError, Floor,
      CheckStrings, Sections;
    SlotsExact(t);
    if SlotsSound(t) {
      RowsExact(t);
      FloorLeast(t, 0);
      StringsExact(t, Floor(Sections(t), t.body, t.stageTable, Slots(t)).value);
    }
  }

  // ---------------------------------------------------------------------
  // The tables a body must hold
  // ---------------------------------------------------------------------

  /** A field of a slice is a field of the whole. */
  lemma SliceField(s: seq<U8>, lo: nat, hi: nat, off: nat)
    requires lo <= hi <= |s|
    ensures off + 2 <= hi - lo ==> U16At(s[lo..hi], off) == U16At(s, lo + off)
    ensures off + 4 <= hi - lo ==> U32At(s[lo..hi], off) == U32At(s, lo + off)
  {
    hide FromLE;
    if off + 2 <= hi - lo {
      SubSlice(s, lo, hi, off, 2);
      FromLESame(s[lo..hi], off, s, lo + off, 2);
    }
    if off + 4 <= hi - lo {
      SubSlice(s, lo, hi, off, 4);
      FromLESame(s[lo..hi], off, s, lo + off, 4);
    }
  }

  /** The table named by a header field lies past the header and inside the body. */
  predicate TableFits(body: seq<U8>, field: nat, count: U32, entryLen: nat)
    requires field + 4 <= |body|
  {
    CONDUCTOR_HEADER_LEN <= U32At(body, field) && U32At(body, field) + count * entryLen <= |body|
  }

  /** Entry `i` of a name table: an offset and a length that stay inside the body. */
  predicate NameFits(body: seq<U8>, table: nat, i: nat) {
    var at := table + i * NAME_ENTRY_LEN;
    at + NAME_ENTRY_LEN <= |body| && U32At(body, at) + U32At(body, at + 4) <= |body|
  }

  /** Entry `k` of a sorted index names a stage. */
  predicate RankFits(body: seq<U8>, table: nat, k: nat, stageCount: U32) {
    var at := table + k * SORTED_ENTRY_LEN;
    at + SORTED_ENTRY_LEN <= |body| && U16At(body, at) < stageCount
  }

  /** Entry `i` of a config table: a key inside the body and an ordinal that names a stage. */
  predicate BindingFits(body: seq<U8>, table: nat, i: nat, stageCount: U32) {
    var at := table + i * BINDING_LEN;
    at + BINDING_LEN <= |body| && U32At(body, at + 8) + U32At(body, at + 4) <= |body| && U16At(body, at) < stageCount
  }

  /** No registry, or one name and one rank per stage, each in range. */
  ghost predicate RegistryFits(body: seq<U8>, n: U32)
    requires CONDUCTOR_HEADER_LEN <= |body|
  {
    var off := U32At(body, 16);
    var ranks := off + n * NAME_ENTRY_LEN;
    off == 0 ||
    (&& CONDUCTOR_HEADER_LEN <= off && ranks + n * SORTED_ENTRY_LEN <= |body|
     && (forall i: nat | i < n :: NameFits(body, off, i))
     && (forall k: nat | k < n :: RankFits(body, ranks, k, n)))
  }

  ghost predicate ConfigFits(body: seq<U8>, n: U32)
    requires CONDUCTOR_HEADER_LEN <= |body|
  {
    var off := U32At(body, 20);
    off == 0 ||
    (&& CONDUCTOR_HEADER_LEN <= off && off + CONFIG_HEADER_LEN <= |body|
     && var table, count := off + CONFIG_HEADER_LEN, U32At(body, off);
        table + count * BINDING_LEN <= |body| && forall i: nat | i < count :: BindingFits(body, table, i, n))
  }

  ghost predicate TablesFit(body: seq<U8>) {
    && CONDUCTOR_HEADER_LEN <= |body|
    && TableFits(body, 8, U32At(body, 0), STAGE_ENTRY_LEN) && TableFits(body, 12, U32At(body, 4), EDGE_LEN)
    && RegistryFits(body, U32At(body, 0)) && ConfigFits(body, U32At(body, 0))
  }

  lemma NamesExact(body: seq<U8>, off: nat, v: RegistryView)
    requires off + v.count * NAME_ENTRY_LEN <= |body| && v.body == body
    requires v.nameTable == body[off..off + v.count * NAME_ENTRY_LEN]
    ensures NamesResolve(v) <==> forall i: nat | i < v.count :: NameFits(body, off, i)
  {
    hide FromLE;
    forall i: nat | i < v.count ensures Name(v, i).Some? <==> NameFits(body, off, i) {
      SliceField(body, off, off + v.count * NAME_ENTRY_LEN, i * NAME_ENTRY_LEN);
      SliceField(body, off, off + v.count * NAME_ENTRY_LEN, i * NAME_ENTRY_LEN + 4);
    }
  }

  lemma RanksExact(body: seq<U8>, off: nat, n: U32)
    requires off + n * SORTED_ENTRY_LEN <= |body|
    ensures SortedInRange(body[off..off + n * SORTED_ENTRY_LEN], n)
            <==> forall k: nat | k < n :: RankFits(body, off, k, n)
  {
    hide FromLE;
    forall k: nat | k < n ensures U16At(body[off..off + n * SORTED_ENTRY_LEN], k * SORTED_ENTRY_LEN)
                                  == U16At(body, off + k * SORTED_ENTRY_LEN)
    {
      SliceField(body, off, off + n * SORTED_ENTRY_LEN, k * SORTED_ENTRY_LEN);
    }
    if forall k: nat | k < n :: RankFits(body, off, k, n) {
      forall k | 0 <= k < n ensures U16At(body[off..off + n * SORTED_ENTRY_LEN], k * SORTED_ENTRY_LEN) < n {
        assert RankFits(body, off, k, n);
      }
    }
  }

  lemma RegistryExact(body: seq<U8>, n: U32)
    requires CONDUCTOR_HEADER_LEN <= |body|
    ensures ParseRegistry(body, n).Ok? <==> RegistryFits(body, n)
  {
    hide FromLE, NamesResolve, SortedInRange, NameFits, RankFits;
    var off := U32At(body, 16);
    if CONDUCTOR_HEADER_LEN <= off && off + n * NAME_ENTRY_LEN + n * SORTED_ENTRY_LEN <= |body| {
      var names := body[off..off + n * NAME_ENTRY_LEN];
      var at := off + n * NAME_ENTRY_LEN;
      NamesExact(body, off, RegistryView(body, names, body[at..at + n * SORTED_ENTRY_LEN], n));
      RanksExact(body, at, n);
    }
  }

  lemma BindingExact(body: seq<U8>, start: nat, count: U32, n: U32, i: nat)
    requires start + count * BINDING_LEN <= |body| && i < count
    ensures BindingChecks(body, body[start..start + count * BINDING_LEN], n)(i).Ok?
            <==> BindingFits(body, start, i, n)
  {
    hide FromLE;
    SliceField(body, start, start + count * BINDING_LEN, i * BINDING_LEN);
    SliceField(body, start, start + count * BINDING_LEN, i * BINDING_LEN + 4);
    SliceField(body, start, start + count * BINDING_LEN, i * BINDING_LEN + 8);
  }

  lemma ConfigExact(body: seq<U8>, n: U32)
    requires CONDUCTOR_HEADER_LEN <= |body|
    ensures ParseConfig(body, n).Ok? <==> ConfigFits(body, n)
  {
    hide FromLE, BindingFits, FirstError, BindingChecks;
    var off := U32At(body, 20);
    if CONDUCTOR_HEADER_LEN <= off && off + CONFIG_HEADER_LEN <= |body| {
      var start, count := off + CONFIG_HEADER_LEN, U32At(body, off);
      if start + count * BINDING_LEN <= |body| {
        var checks := BindingChecks(body, body[start..start + count * BINDING_LEN], n);
        FirstErrorOk(checks, count);
        forall i: nat | i < count ensures checks(i).Ok? <==> BindingFits(body, start, i, n) {
          BindingExact(body, start, count, n, i);
        }
      }
    }
  }

  lemma TablesExact(body: seq<U8>)
    ensures ReadTables(body).Ok? <==> TablesFit(body)
  {
    hide FromLE, ParseRegistry, ParseConfig, RegistryFits, ConfigFits;
    if CONDUCTOR_HEADER_LEN <= |body| {
      RegistryExact(body, U32At(body, 0));
      ConfigExact(body, U32At(body, 0));
    } else {
      ShortBody(body);
    }
  }

  lemma ShortBody(body: seq<U8>)
    requires |body| < CONDUCTOR_HEADER_LEN
    ensures ReadTables(body).Err?
  {
    hide FromLE, NamesResolve, SortedInRange, FirstError;
  }

  // ---------------------------------------------------------------------
  // Every blob
  // ---------------------------------------------------------------------

  /** The root's body, when the header and the root's frame are in order. */
  ghost predicate RootOk(bytes: seq<U8>) {
    && HEADER_LEN <= |bytes| && bytes[..4] == MAGIC && U16At(bytes, 4) <= VERSION && U32At(bytes, 8) == |bytes|
    && FrameOk(bytes, U32At(bytes, 12)) && U16At(bytes, U32At(bytes, 12)) == CONDUCTOR_SPEC_TAG
  }

  ghost function RootBody(bytes: seq<U8>): seq<U8>
    requires RootOk(bytes)
  {
    var off := U32At(bytes, 12);
    bytes[off + RECORD_HEADER_LEN..off + FrameLen(bytes, off)]
  }

  /**
   The reader accepts exactly the blobs whose header and root frame are in order,
   whose tables lie inside the body and whose entries are sound.
   */
  lemma AcceptedExactly(bytes: seq<U8>)
    ensures Validate(bytes).Ok? <==>
            RootOk(bytes) && TablesFit(RootBody(bytes)) && ReadTables(RootBody(bytes)).Ok?
            && Sound(ReadTables(RootBody(bytes)).value)
    ensures RootOk(bytes) ==> (TablesFit(RootBody(bytes)) <==> ReadTables(RootBody(bytes)).Ok?)
  {
    hide FromLE, ReadTables, CheckTables, Sound, TablesFit, ReadRecord, FrameOk;
    if HEADER_LEN <= |bytes| {
      RecordExact(bytes, U32At(bytes, 12));
      if RootOk(bytes) {
        assert Root(bytes) == Ok(RootBody(bytes));
        TablesExact(RootBody(bytes));
        if ReadTables(RootBody(bytes)).Ok? {
          ChecksExact(ReadTables(RootBody(bytes)).value);
        }
      }
    }
  }

  // ---------------------------------------------------------------------
  // Errors past the header
  // ---------------------------------------------------------------------

  /** The errors of a body never blame the blob's header. */
  predicate OfBody(e: IrError) {
    !e.BadMagic? && !e.UnsupportedVersion?
  }

  lemma {:induction false} FirstErrorOfBody(checks: nat -> Check, n: nat)
    requires forall k: nat | k < n && checks(k).Err? :: OfBody(checks(k).error)
    ensures FirstError(checks, n).Err? ==> OfBody(FirstError(checks, n).error)
  {
    if n > 0 {
      FirstErrorOfBody(checks, n - 1);
    }
  }

  lemma {:induction false} HighestOfBody(ends: nat -> Result<nat, IrError>, start: nat, n: nat)
    requires forall k: nat | k < n && ends(k).Err? :: OfBody(ends(k).error)
    ensures Highest(ends, start, n).Err? ==> OfBody(Highest(ends, start, n).error)
  {
    if n > 0 {
      HighestOfBody(ends, start, n - 1);
    }
  }

  lemma SpanOfBody(body: seq<U8>, table: seq<U8>, n: nat)
    requires 4 * n + 4 <= |table|
    ensures RecordSpan(body, table, n).Err? ==> OfBody(RecordSpan(body, table, n).error)
  {
    RecordExact(body, SlotAt(table, n));
    hide FromLE, ReadRecord;
  }

  lemma SlotOfBody(body: seq<U8>, table: seq<U8>, sections: seq<Span>, n: nat)
    requires 4 * n + 4 <= |table|
    ensures var c := CheckSlot(body, table, sections, n); c.Err? ==> OfBody(c.error)
  {
    SpanOfBody(body, table, n);
    RecordExact(body, SlotAt(table, n));
    hide FromLE, ReadRecord;
  }

  lemma PairOfBody(body: seq<U8>, table: seq<U8>, a: Span, from: nat, i: nat)
    ensures var c := PairChecks(body, table, a, from)(i); c.Err? ==> OfBody(c.error)
  {
    hide RecordSpan;
    if 4 * (from + i) + 4 <= |table| {
      SpanOfBody(body, table, from + i);
      assert PairChecks(body, table, a, from)(i) == CheckPair(body, table, a, from + i);
    }
  }

  lemma RowOfBody(body: seq<U8>, table: seq<U8>, n: nat, a: nat)
    requires a < n && 4 * n <= |table|
    ensures var c := CheckRow(body, table, n, a); c.Err? ==> OfBody(c.error)
  {
    SpanOfBody(body, table, a);
    hide RecordSpan, FirstError;
    var s := RecordSpan(body, table, a);
    if s.Ok? && s.value.Some? {
      var pairs := PairChecks(body, table, s.value.value, a + 1);
      forall i: nat | i < n - a - 1 && pairs(i).Err? ensures OfBody(pairs(i).error) {
        PairOfBody(body, table, s.value.value, a + 1, i);
      }
      hide PairChecks;
      FirstErrorOfBody(pairs, n - a - 1);
    }
  }

  lemma RecordsOfBody(t: Tables)
    requires Framed(t)
    ensures var c := FirstError(SlotChecks(t.body, t.stageTable, Sections(t)), Slots(t)); c.Err? ==> OfBody(c.error)
    ensures var c := FirstError(RowChecks(t.body, t.stageTable, Slots(t)), Slots(t)); c.Err? ==> OfBody(c.error)
    ensures var c := Floor(Sections(t), t.body, t.stageTable, Slots(t)); c.Err? ==> OfBody(c.error)
  {
    hide RecordSpan, FirstError, CheckSlot, CheckRow, Highest, Sections, SectionsEnd;
    var slots, rows := SlotChecks(t.body, t.stageTable, Sections(t)), RowChecks(t.body, t.stageTable, Slots(t));
    var ends := RecordEnds(t.body, t.stageTable);
    forall n: nat | n < Slots(t)
      ensures (slots(n).Err? ==> OfBody(slots(n).error)) && (rows(n).Err? ==> OfBody(rows(n).error))
      ensures ends(n).Err? ==> OfBody(ends(n).error)
    {
      SlotOfBody(t.body, t.stageTable, Sections(t), n);
      RowOfBody(t.body, t.stageTable, Slots(t), n);
      SpanOfBody(t.body, t.stageTable, n);
    }
    FirstErrorOfBody(slots, Slots(t));
    FirstErrorOfBody(rows, Slots(t));
    HighestOfBody(ends, SectionsEnd(Sections(t)), Slots(t));
  }

  lemma RankOfBody(v: RegistryView, k: nat)
    ensures var c := OrderChecks(Ranks(v))(k); c.Err? ==> OfBody(c.error)
  {
    hide Less, Name, SortedOrdinal;
    assert Ranks(v)(k) == Ranked(v, k);
    if k > 0 {
      assert Ranks(v)(k - 1) == Ranked(v, k - 1);
    }
  }

  lemma OrderOfBody(v: RegistryView, n: nat)
    ensures var c := FirstError(OrderChecks(Ranks(v)), n); c.Err? ==> OfBody(c.error)
  {
    hide FirstError, Less, OrderChecks, Ranks;
    var checks := OrderChecks(Ranks(v));
    forall k: nat | k < n && checks(k).Err? ensures OfBody(checks(k).error) {
      RankOfBody(v, k);
    }
    FirstErrorOfBody(checks, n);
  }

  lemma StringsOfBody(t: Tables, floor: nat)
    requires Framed(t)
    ensures CheckStrings(t, floor).Err? ==> OfBody(CheckStrings(t, floor).error)
  {
    hide FirstError, OrderChecks, NamesInHeap, KeysInHeap;
    if t.registry.Some? {
      OrderOfBody(t.registry.value.view, t.stageCount);
    }
  }

  lemma ChecksOfBody(t: Tables)
    requires Framed(t)
    ensures CheckTables(t).Err? ==> OfBody(CheckTables(t).error)
  {
    hide Framed, FirstError, Floor, Sections, SectionsDisjoint, EdgesInRange, CheckStrings, SlotChecks, RowChecks;
    RecordsOfBody(t);
    var floor := Floor(Sections(t), t.body, t.stageTable, Slots(t));
    if floor.Ok? {
      StringsOfBody(t, floor.value);
    }
  }

  lemma TablesOfBody(body: seq<U8>)
    ensures ReadTables(body).Err? ==> OfBody(ReadTables(body).error)
  {
    hide FromLE, NamesResolve, SortedInRange, FirstError;
    forall entries: seq<U8>, count: U32, stageCount: U32
      ensures var c := FirstError(BindingChecks(body, entries, stageCount), count); c.Err? ==> OfBody(c.error)
    {
      FirstErrorOfBody(BindingChecks(body, entries, stageCount), count);
    }
  }

  /** What the header alone decides, and that nothing later gives its two errors. */
  lemma HeaderRefusals(bytes: seq<U8>)
    ensures |bytes| < HEADER_LEN ==> Validate(bytes) == Err(Truncated)
    ensures Validate(bytes) == Err(BadMagic) <==> |bytes| >= HEADER_LEN && bytes[..4] != MAGIC
    ensures forall v: U16 ::
              Validate(bytes) == Err(UnsupportedVersion(v)) <==>
              |bytes| >= HEADER_LEN && bytes[..4] == MAGIC && U16At(bytes, 4) == v > VERSION
    ensures |bytes| >= HEADER_LEN && bytes[..4] == MAGIC && U16At(bytes, 4) <= VERSION && U32At(bytes, 8) != |bytes|
            ==> Validate(bytes) == Err(Truncated)
  {
    hide FromLE, ReadTables, CheckTables, ReadRecord;
    if |bytes| >= HEADER_LEN {
      RecordExact(bytes, U32At(bytes, 12));
      if Root(bytes).Ok? {
        TablesOfBody(Root(bytes).value);
        if ReadTables(Root(bytes).value).Ok? {
          ChecksOfBody(ReadTables(Root(bytes).value).value);
        }
      }
    }
  }

  // ---------------------------------------------------------------------
  // Tags
  // ---------------------------------------------------------------------

  /** The four policy tags are known, differ from each other and from the root's. */
  lemma TagsApart(j: Kind, k: Kind)
    ensures NodeTag(j) == NodeTag(k) <==> j == k
    ensures 1 <= NodeTag(k) <= 9 && NodeTag(k) != CONDUCTOR_SPEC_TAG
  {
  }

  /** A record of one kind in another kind's slot is refused by its tag. */
  lemma WrongKindRefused(t: Tables, n: nat, j: Kind)
    requires Framed(t) && n < Slots(t) && CONDUCTOR_HEADER_LEN <= SlotAt(t.stageTable, n)
    requires FrameOk(t.body, SlotAt(t.stageTable, n))
    requires U16At(t.body, SlotAt(t.stageTable, n)) == NodeTag(j) && j != n % KINDS
    ensures CheckSlot(t.body, t.stageTable, Sections(t), n) == Err(BadTag(NodeTag(j))) && !Accepted(t)
  {
    TagsApart(j, n % KINDS);
    RecordExact(t.body, SlotAt(t.stageTable, n));
    SlotExact(t, n);
    ChecksExact(t);
    hide FromLE, ReadRecord, NodeTag, Sections, SlotSound, CheckTables;
  }
}
