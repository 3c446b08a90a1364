/** What acceptance guarantees of arbitrary bytes: total accessors, disjoint pieces and a searchable registry. */
module IrAccepted {
  import opened Basics
  import opened Words
  import opened Bytes
  import opened IrModel
  import opened IrReader
  import opened IrCheck

  // ---------------------------------------------------------------------
  // What each passed check says of every entry
  // ---------------------------------------------------------------------

  lemma SlotPassed(body: seq<U8>, table: seq<U8>, sections: seq<Span>, n: nat, k: nat)
    requires k < n && 4 * n <= |table| && FirstError(SlotChecks(body, table, sections), n).Ok?
    ensures CheckSlot(body, table, sections, k).Ok?
  {
    FirstErrorOk(SlotChecks(body, table, sections), n);
    assert SlotChecks(body, table, sections)(k).Ok?;
  }

  lemma PairPassed(body: seq<U8>, table: seq<U8>, n: nat, a: nat, b: nat)
    requires a < b < n && 4 * n <= |table| && FirstError(RowChecks(body, table, n), n).Ok?
    ensures var s := RecordSpan(body, table, a);
            s.Ok? && (s.value.Some? ==> CheckPair(body, table, s.value.value, b).Ok?)
  {
    FirstErrorOk(RowChecks(body, table, n), n);
    assert RowChecks(body, table, n)(a).Ok?;
    var s := RecordSpan(body, table, a);
    if s.value.Some? {
      var pairs := PairChecks(body, table, s.value.value, a + 1);
      FirstErrorOk(pairs, n - a - 1);
      assert pairs(b - a - 1).Ok?;
    }
  }

  lemma {:induction false} SectionBelow(sections: seq<Span>, i: nat)
    requires i < |sections|
    ensures End(sections[i]) <= SectionsEnd(sections)
    decreases |sections|
  {
    if i < |sections| - 1 {
      SectionBelow(sections[..|sections| - 1], i);
    }
  }

  lemma {:induction false} HighestAbove(ends: nat -> Result<nat, IrError>, start: nat, n: nat, k: nat)
    requires Highest(ends, start, n).Ok?
    ensures start <= Highest(ends, start, n).value
    ensures k < n ==> ends(k).Ok? && ends(k).value <= Highest(ends, start, n).value
  {
    if n > 0 {
      HighestAbove(ends, start, n - 1, k);
    }
  }

  lemma FloorAbove(sections: seq<Span>, body: seq<U8>, table: seq<U8>, n: nat, k: nat)
    requires k < n && 4 * n <= |table| && Floor(sections, body, table, n).Ok?
    ensures var s := RecordSpan(body, table, k);
            s.Ok? && (s.value.Some? ==> End(s.value.value) <= Floor(sections, body, table, n).value)
  {
    HighestAbove(RecordEnds(body, table), SectionsEnd(sections), n, k);
  }

  lemma BindingPassed(body: seq<U8>, entries: seq<U8>, stageCount: U32, n: nat, i: nat)
    requires i < n && n * BINDING_LEN <= |entries| && FirstError(BindingChecks(body, entries, stageCount), n).Ok?
    ensures CheckBinding(body, entries, stageCount, i).Ok?
  {
    FirstErrorOk(BindingChecks(body, entries, stageCount), n);
    assert BindingChecks(body, entries, stageCount)(i).Ok?;
  }

  /** Any two ranks are in order once neighbours are. */
  lemma {:induction false} RanksInOrder(names: nat -> Result<seq<U8>, IrError>, n: nat, a: nat, b: nat)
    requires a <= b < n && FirstError(OrderChecks(names), n).Ok?
    ensures names(a).Ok? && names(b).Ok? && !Less(names(b).value, names(a).value)
    decreases b
  {
    FirstErrorOk(OrderChecks(names), n);
    assert OrderChecks(names)(a).Ok? && OrderChecks(names)(b).Ok?;
    if a < b {
      RanksInOrder(names, n, a, b - 1);
      LessTrans(names(a).value, names(b - 1).value, names(b).value);
    } else {
      LessTotal(names(a).value, names(a).value);
    }
  }

  // ---------------------------------------------------------------------
  // Disjoint pieces
  // ---------------------------------------------------------------------

  predicate Inside(s: Span, x: nat) {
    s.offset <= x < End(s)
  }

  /** No byte belongs to both. */
  ghost predicate Clear(a: Span, b: Span) {
    forall x: nat :: !(Inside(a, x) && Inside(b, x))
  }

  datatype Piece = Header | Section(i: nat) | Record(n: nat) | Heap

  predicate PieceOf(t: Tables, p: Piece)
    requires Framed(t)
  {
    match p
    case Header => true
    case Section(i) => i < |Sections(t)|
    case Record(n) => n < Slots(t) && SlotAt(t.stageTable, n) != 0
    case Heap => true
  }

  ghost predicate Accepted(t: Tables) {
    Framed(t) && CheckTables(t).Ok?
  }

  ghost function HeapFloor(t: Tables): nat
    requires Accepted(t)
  {
    Floor(Sections(t), t.body, t.stageTable, Slots(t)).value
  }

  lemma RecordOk(t: Tables, n: nat)
    requires Accepted(t) && n < Slots(t)
    ensures CheckSlot(t.body, t.stageTable, Sections(t), n).Ok?
    ensures var s := RecordSpan(t.body, t.stageTable, n); s.Ok? && (s.value.Some? <==> SlotAt(t.stageTable, n) != 0)
  {
    SlotPassed(t.body, t.stageTable, Sections(t), Slots(t), n);
  }

  ghost function PieceSpan(t: Tables, p: Piece): Span
    requires Accepted(t) && PieceOf(t, p)
  {
    match p
    case Header => Span(0, CONDUCTOR_HEADER_LEN)
    case Section(i) => Sections(t)[i]
    case Record(n) =>
      RecordOk(t, n);
      RecordSpan(t.body, t.stageTable, n).value.value
    case Heap => var f := HeapFloor(t); Span(f, if f <= |t.body| then |t.body| - f else 0)
  }

  lemma SectionBounds(t: Tables, i: nat)
    requires Framed(t) && i < |Sections(t)|
    ensures CONDUCTOR_HEADER_LEN <= Sections(t)[i].offset && End(Sections(t)[i]) <= |t.body|
  {
  }

  /** A piece other than the heap lies past the header, inside the body and below the heap. */
  lemma PieceBounds(t: Tables, p: Piece)
    requires Accepted(t) && PieceOf(t, p) && (p.Section? || p.Record?)
    ensures CONDUCTOR_HEADER_LEN <= PieceSpan(t, p).offset
    ensures End(PieceSpan(t, p)) <= |t.body| && End(PieceSpan(t, p)) <= HeapFloor(t)
  {
    match p
    case Section(i) =>
      SectionBounds(t, i);
      SectionBelow(Sections(t), i);
      HighestAbove(RecordEnds(t.body, t.stageTable), SectionsEnd(Sections(t)), Slots(t), 0);
    case Record(n) =>
      RecordOk(t, n);
      FloorAbove(Sections(t), t.body, t.stageTable, Slots(t), n);
  }

  /** The header, the tables, the policy records and the string heap share no byte. */
  lemma PiecesDisjoint(t: Tables, p: Piece, q: Piece)
    requires Accepted(t) && PieceOf(t, p) && PieceOf(t, q) && p != q
    ensures Clear(PieceSpan(t, p), PieceSpan(t, q))
  {
    if p.Section? && q.Section? {
      SectionPair(t, p.i, q.i);
    } else if p.Section? && q.Record? {
      RecordSection(t, q.n, p.i);
    } else if p.Record? && q.Section? {
      RecordSection(t, p.n, q.i);
    } else if p.Record? && q.Record? {
      RecordPair(t, p.n, q.n);
    } else {
      OuterPair(t, p, q);
    }
  }

  lemma NotOverlap(a: Span, b: Span)
    requires !Overlap(a, b)
    ensures Clear(a, b) && Clear(b, a)
  {
  }

  lemma SectionPair(t: Tables, i: nat, j: nat)
    requires Accepted(t) && i < |Sections(t)| && j < |Sections(t)| && i != j
    ensures Clear(Sections(t)[i], Sections(t)[j])
  {
    if i < j {
      NotOverlap(Sections(t)[i], Sections(t)[j]);
    } else {
      NotOverlap(Sections(t)[j], Sections(t)[i]);
    }
  }

  lemma RecordSection(t: Tables, n: nat, i: nat)
    requires Accepted(t) && PieceOf(t, Record(n)) && i < |Sections(t)|
    ensures Clear(PieceSpan(t, Record(n)), Sections(t)[i]) && Clear(Sections(t)[i], PieceSpan(t, Record(n)))
  {
    RecordOk(t, n);
    NotOverlap(PieceSpan(t, Record(n)), Sections(t)[i]);
  }

  lemma RecordPair(t: Tables, m: nat, n: nat)
    requires Accepted(t) && PieceOf(t, Record(m)) && PieceOf(t, Record(n)) && m != n
    ensures Clear(PieceSpan(t, Record(m)), PieceSpan(t, Record(n)))
  {
    var a, b := if m < n then m else n, if m < n then n else m;
    RecordOk(t, a);
    RecordOk(t, b);
    PairPassed(t.body, t.stageTable, Slots(t), a, b);
    NotOverlap(PieceSpan(t, Record(a)), PieceSpan(t, Record(b)));
  }

  lemma OuterPair(t: Tables, p: Piece, q: Piece)
    requires Accepted(t) && PieceOf(t, p) && PieceOf(t, q) && p != q
    requires p.Header? || p.Heap? || q.Header? || q.Heap?
    ensures Clear(PieceSpan(t, p), PieceSpan(t, q))
  {
    if p.Section? || p.Record? {
      PieceBounds(t, p);
    }
    if q.Section? || q.Record? {
      PieceBounds(t, q);
    }
    PieceBounds(t, Section(0));
  }

  // ---------------------------------------------------------------------
  // Total accessors
  // ---------------------------------------------------------------------

  lemma StagesTotal(t: Tables, i: nat, k: Kind)
    requires Accepted(t) && i < t.stageCount
    ensures Stage(View(t), i).Some?
    ensures PolicyOf(Stage(View(t), i).value, k).Some? <==> SlotAt(t.stageTable, KINDS * i + k) != 0
  {
    SlotReadable(t, i, k);
    StageFound(t, i);
    PolicyFound(t.body, t.stageTable, i, k);
  }

  lemma SlotReadable(t: Tables, i: nat, k: Kind)
    requires Accepted(t) && i < t.stageCount
    ensures var off := SlotAt(t.stageTable, KINDS * i + k); off == 0 || RecordReadable(t.body, off, k)
  {
    hide CheckSlot, RecordReadable;
    SlotVerdict(t, KINDS * i + k);
    SlotFacts(t.body, t.stageTable, Sections(t), i, k);
  }

  lemma SlotVerdict(t: Tables, n: nat)
    requires Accepted(t) && n < Slots(t)
    ensures CheckSlot(t.body, t.stageTable, Sections(t), n).Ok?
  {
    SlotPassed(t.body, t.stageTable, Sections(t), Slots(t), n);
  }

  lemma StageFound(t: Tables, i: nat)
    requires Framed(t) && i < t.stageCount
    ensures Stage(View(t), i) == Some(StageView(t.body, t.stageTable[i * STAGE_ENTRY_LEN..(i + 1) * STAGE_ENTRY_LEN]))
  {
  }

  lemma EntrySlot(table: seq<U8>, i: nat, k: Kind)
    requires (i + 1) * STAGE_ENTRY_LEN <= |table|
    ensures ReadU32(table[i * STAGE_ENTRY_LEN..(i + 1) * STAGE_ENTRY_LEN], 4 * k) == Ok(SlotAt(table, KINDS * i + k))
  {
    var lo, hi := i * STAGE_ENTRY_LEN, (i + 1) * STAGE_ENTRY_LEN;
    SubSlice(table, lo, hi, 4 * k, 4);
    assert lo + 4 * k == 4 * (KINDS * i + k);
    FromLESame(table[lo..hi], 4 * k, table, lo + 4 * k, 4);
  }

  predicate RecordReadable(body: seq<U8>, off: nat, k: Kind) {
    var r := ReadRecord(body, off);
    r.Ok? && r.value.tag == NodeTag(k) && DecodePolicy(k, r.value.body).Ok?
  }

  lemma SlotFacts(body: seq<U8>, table: seq<U8>, sections: seq<Span>, i: nat, k: Kind)
    requires (i + 1) * STAGE_ENTRY_LEN <= |table| && CheckSlot(body, table, sections, KINDS * i + k).Ok?
    ensures var off := SlotAt(table, KINDS * i + k); off == 0 || RecordReadable(body, off, k)
  {
    hide ReadRecord, DecodePolicy, SlotAt, OverlapsAny;
    assert (KINDS * i + k) % KINDS == k;
  }

  lemma PolicyFound(body: seq<U8>, table: seq<U8>, i: nat, k: Kind)
    requires (i + 1) * STAGE_ENTRY_LEN <= |table|
    requires SlotAt(table, KINDS * i + k) == 0 || RecordReadable(body, SlotAt(table, KINDS * i + k), k)
    ensures var s := StageView(body, table[i * STAGE_ENTRY_LEN..(i + 1) * STAGE_ENTRY_LEN]);
            PolicyOf(s, k).Some? <==> SlotAt(table, KINDS * i + k) != 0
  {
    EntrySlot(table, i, k);
  }

  lemma EdgesTotal(t: Tables, j: nat)
    requires Accepted(t)
    ensures Edge(View(t), j).Some? <==> j < t.edgeCount
    ensures j < t.edgeCount ==>
              var e := Edge(View(t), j).value;
              e.fromOrdinal < t.stageCount && e.toOrdinal < t.stageCount
  {
  }

  lemma ReadRegistry(body: seq<U8>)
    requires ReadTables(body).Ok? && ReadTables(body).value.registry.Some?
    ensures var t := ReadTables(body).value;
            NamesResolve(t.registry.value.view) && SortedInRange(t.registry.value.view.sortedIndex, t.stageCount)
  {
    hide ReadU32, SliceTable, ParseConfig, NamesResolve, SortedInRange;
  }

  lemma ReadConfig(body: seq<U8>)
    requires ReadTables(body).Ok? && ReadTables(body).value.config.Some?
    ensures var t := ReadTables(body).value;
            FirstError(BindingChecks(body, t.config.value.entries, t.stageCount), t.config.value.count).Ok?
  {
    hide ReadU32, SliceTable, ParseRegistry, BindingChecks, FirstError;
  }

  lemma StringsInHeap(t: Tables)
    requires Accepted(t)
    ensures t.registry.Some? ==>
              && NamesInHeap(t.registry.value.view.nameTable, t.stageCount, HeapFloor(t))
              && FirstError(OrderChecks(Ranks(t.registry.value.view)), t.stageCount).Ok?
    ensures t.config.Some? ==> KeysInHeap(t.config.value.entries, t.config.value.count, HeapFloor(t))
  {
    assert CheckStrings(t, HeapFloor(t)).Ok?;
  }

  /** Every name resolves inside the heap, and every sorted entry names a stage. */
  lemma NamesTotal(body: seq<U8>, i: nat)
    requires ReadTables(body).Ok? && Accepted(ReadTables(body).value) && ReadTables(body).value.registry.Some?
    ensures var t := ReadTables(body).value;
            var v := t.registry.value.view;
            && (Name(v, i).Some? <==> i < t.stageCount)
            && (SortedOrdinal(v, i).Some? <==> i < t.stageCount)
            && (i < t.stageCount ==>
                  SortedOrdinal(v, i).value < t.stageCount && NameOffset(v.nameTable, i) >= HeapFloor(t))
  {
    var t := ReadTables(body).value;
    ReadRegistry(body);
    StringsInHeap(t);
    RegistryTotal(body, t.stageCount, t.registry.value, i);
  }

  lemma RegistryTotal(body: seq<U8>, n: U32, r: ParsedRegistry, i: nat)
    requires RegistryFramed(body, n, r) && NamesResolve(r.view) && SortedInRange(r.view.sortedIndex, n)
    ensures Name(r.view, i).Some? <==> i < n
    ensures SortedOrdinal(r.view, i).Some? <==> i < n
    ensures i < n ==> SortedOrdinal(r.view, i).value < n
  {
  }

  /** Every binding decodes, its key inside the heap and its ordinal a stage. */
  lemma BindingsTotal(body: seq<U8>, i: nat)
    requires ReadTables(body).Ok? && Accepted(ReadTables(body).value) && ReadTables(body).value.config.Some?
    ensures var t := ReadTables(body).value;
            var v := View(t);
            && (ConfigBinding(v, i).Some? <==> i < v.configCount)
            && (i < v.configCount ==>
                  ConfigBinding(v, i).value.nodeOrdinal < t.stageCount && KeyOffset(v.configEntries, i) >= HeapFloor(t))
  {
    var t := ReadTables(body).value;
    ReadConfig(body);
    StringsInHeap(t);
    ConfigTotal(t, i);
  }

  lemma ConfigTotal(t: Tables, i: nat)
    requires Framed(t) && t.config.Some?
    requires FirstError(BindingChecks(t.body, t.config.value.entries, t.stageCount), t.config.value.count).Ok?
    ensures ConfigBinding(View(t), i).Some? <==> i < View(t).configCount
    ensures i < View(t).configCount ==> ConfigBinding(View(t), i).value.nodeOrdinal < t.stageCount
  {
    if i < t.config.value.count {
      BindingPassed(t.body, t.config.value.entries, t.stageCount, t.config.value.count, i);
    }
  }

  // ---------------------------------------------------------------------
  // Every accepted blob
  // ---------------------------------------------------------------------

  /** The tables behind an accepted blob's view. */
  ghost function TablesIn(bytes: seq<U8>): (t: Tables)
    requires Validate(bytes).Ok?
    ensures ReadTables(t.body) == Ok(t) && Accepted(t) && Validate(bytes).value == View(t)
  {
    ReadTables(Root(bytes).value).value
  }

  /** Inside any accepted bytes the header, the tables, the policy records and the string heap share no byte. */
  lemma BytesDisjoint(bytes: seq<U8>, p: Piece, q: Piece)
    requires Validate(bytes).Ok? && PieceOf(TablesIn(bytes), p) && PieceOf(TablesIn(bytes), q) && p != q
    ensures TablesIn(bytes).body == Validate(bytes).value.body
    ensures Clear(PieceSpan(TablesIn(bytes), p), PieceSpan(TablesIn(bytes), q))
  {
    hide Validate, ReadTables, CheckTables, PieceSpan, PieceOf;
    PiecesDisjoint(TablesIn(bytes), p, q);
  }

  /** Accepted bytes carry the magic, a known version, their own length and an aligned conductor root. */
  lemma AcceptedHeader(bytes: seq<U8>)
    requires Validate(bytes).Ok?
    ensures |bytes| >= HEADER_LEN && bytes[..4] == MAGIC && U16At(bytes, 4) <= VERSION && U32At(bytes, 8) == |bytes|
    ensures var off := U32At(bytes, 12);
            && off % 8 == 0 && off + RECORD_HEADER_LEN + |Validate(bytes).value.body| <= |bytes|
            && U16At(bytes, off) == CONDUCTOR_SPEC_TAG
            && Validate(bytes).value.body
               == bytes[off + RECORD_HEADER_LEN..off + RECORD_HEADER_LEN + |Validate(bytes).value.body|]
  {
    hide ReadTables, CheckTables, FromLE;
    var t := TablesIn(bytes);
    assert Root(bytes) == Ok(t.body);
  }

  ghost predicate StageTotal(v: Parsed, i: nat, k: Kind) {
    && KINDS * i + k < |v.stageTable| / 4 && Stage(v, i).Some?
    && (PolicyOf(Stage(v, i).value, k).Some? <==> SlotAt(v.stageTable, KINDS * i + k) != 0)
  }

  ghost predicate EdgeTotal(v: Parsed, j: nat) {
    && (Edge(v, j).Some? <==> j < v.edgeCount)
    && (Edge(v, j).Some? ==> Edge(v, j).value.fromOrdinal < v.stageCount && Edge(v, j).value.toOrdinal < v.stageCount)
  }

  ghost predicate NameTotal(r: RegistryView, i: nat) {
    && (Name(r, i).Some? <==> i < r.count) && (SortedOrdinal(r, i).Some? <==> i < r.count)
    && (SortedOrdinal(r, i).Some? ==> SortedOrdinal(r, i).value < r.count)
  }

  ghost predicate BindingTotal(v: Parsed, i: nat) {
    && (ConfigBinding(v, i).Some? <==> i < v.configCount)
    && (ConfigBinding(v, i).Some? ==> ConfigBinding(v, i).value.nodeOrdinal < v.stageCount)
  }

  /** Of any bytes the reader accepts, every accessor answers for exactly the entries there are. */
  lemma AccessorsTotal(bytes: seq<U8>)
    requires Validate(bytes).Ok?
    ensures var v := Validate(bytes).value;
            && (forall i: nat, k: Kind | i < v.stageCount :: StageTotal(v, i, k))
            && (forall j: nat :: EdgeTotal(v, j))
            && (v.registry.Some? ==> forall i: nat :: NameTotal(v.registry.value, i))
            && (forall i: nat :: BindingTotal(v, i))
  {
    hide Validate, ReadTables, CheckTables, Framed, StageTotal, EdgeTotal, NameTotal, BindingTotal;
    var t := TablesIn(bytes);
    var v := View(t);
    forall i: nat, k: Kind | i < v.stageCount ensures StageTotal(v, i, k) {
      StageAnswers(t, i, k);
    }
    forall j: nat ensures EdgeTotal(v, j) {
      EdgeAnswers(t, j);
    }
    if v.registry.Some? {
      forall i: nat ensures NameTotal(v.registry.value, i) {
        NameAnswers(t, i);
      }
    }
    forall i: nat ensures BindingTotal(v, i) {
      BindingAnswers(t, i);
    }
  }

  lemma StageAnswers(t: Tables, i: nat, k: Kind)
    requires Accepted(t) && i < t.stageCount
    ensures StageTotal(View(t), i, k)
  {
    hide CheckTables, PolicyOf, Stage, SlotAt;
    StagesTotal(t, i, k);
  }

  lemma EdgeAnswers(t: Tables, j: nat)
    requires Accepted(t)
    ensures EdgeTotal(View(t), j)
  {
    hide CheckTables, Edge, Framed;
    EdgesTotal(t, j);
  }

  lemma NameAnswers(t: Tables, i: nat)
    requires ReadTables(t.body) == Ok(t) && Accepted(t) && t.registry.Some?
    ensures NameTotal(View(t).registry.value, i)
  {
    hide CheckTables, Name, SortedOrdinal, ReadTables;
    NamesTotal(t.body, i);
  }

  lemma BindingAnswers(t: Tables, i: nat)
    requires ReadTables(t.body) == Ok(t) && Accepted(t)
    ensures BindingTotal(View(t), i)
  {
    hide CheckTables, ReadTables, Framed, ParseBinding;
    if t.config.Some? {
      hide ConfigBinding;
      BindingsTotal(t.body, i);
    }
  }
}
