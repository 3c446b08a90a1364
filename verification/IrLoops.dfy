/** The checks as the reader runs them, and the registry's binary search. */
module IrLoops {
  import opened Basics
  import opened Words
  import opened Bytes
  import opened IrModel
  import opened IrReader
  import opened IrCheck
  import opened IrAccepted

  method CheckSectionsDisjoint(sections: seq<Span>) returns (r: Check)
    ensures r == Verdict(SectionsDisjoint(sections), OutOfBounds)
  {
    var i := 0;
    while i < |sections|
      invariant 0 <= i <= |sections|
      invariant forall a, b | 0 <= a < b < |sections| && a < i :: !Overlap(sections[a], sections[b])
    {
      var j := i + 1;
      while j < |sections|
        invariant i < j <= |sections|
        invariant forall b | i < b < j :: !Overlap(sections[i], sections[b])
      {
        if Overlap(sections[i], sections[j]) {
          return Err(OutOfBounds);
        }
        j := j + 1;
      }
      i := i + 1;
    }
    return Ok(());
  }

  method CheckEdgeOrdinals(edgeTable: seq<U8>, n: nat, stageCount: U32) returns (r: Check)
    requires |edgeTable| == n * EDGE_LEN
    ensures r == Verdict(EdgesInRange(edgeTable, n, stageCount), OrdinalOutOfRange)
  {
    var j := 0;
    while j * EDGE_LEN < |edgeTable|
      invariant 0 <= j <= n && EdgesInRange(edgeTable, j, stageCount)
    {
      var edge := EdgeAt(edgeTable, j);
      if edge.fromOrdinal >= stageCount || edge.toOrdinal >= stageCount {
        return Err(OrdinalOutOfRange);
      }
      j := j + 1;
    }
    return Ok(());
  }

  /** One step further, or the step that failed. */
  lemma Extend(checks: nat -> Check, k: nat, n: nat)
    requires k < n && FirstError(checks, k).Ok?
    ensures FirstError(checks, k + 1) == checks(k)
    ensures checks(k).Err? ==> FirstError(checks, n) == checks(k)
    ensures checks(k).Ok? ==> checks(k) == Ok(())
  {
    FirstErrorOk(checks, k);
    if checks(k).Ok? {
      assert checks(k).value == ();
    }
    if checks(k).Err? {
      FirstErrorIs(checks, n, k);
    }
  }

  method CheckStagePolicies(body: seq<U8>, stageTable: seq<U8>, sections: seq<Span>, stages: nat) returns (r: Check)
    requires |stageTable| == stages * STAGE_ENTRY_LEN
    ensures r == FirstError(SlotChecks(body, stageTable, sections), KINDS * stages)
  {
    hide CheckSlot;
    ghost var checks := SlotChecks(body, stageTable, sections);
    var i := 0;
    while i * STAGE_ENTRY_LEN < |stageTable|
      invariant 0 <= i <= stages && FirstError(checks, KINDS * i) == Ok(())
    {
      var k := 0;
      while k < KINDS
        invariant 0 <= k <= KINDS && FirstError(checks, KINDS * i + k) == Ok(())
      {
        var n := KINDS * i + k;
        Extend(checks, n, KINDS * stages);
        r := CheckSlot(body, stageTable, sections, n);
        if r.Err? {
          return;
        }
        k := k + 1;
      }
      i := i + 1;
    }
    return Ok(());
  }

  method CheckRecordOverlaps(body: seq<U8>, stageTable: seq<U8>, stages: nat) returns (r: Check)
    requires |stageTable| == stages * STAGE_ENTRY_LEN
    ensures r == FirstError(RowChecks(body, stageTable, KINDS * stages), KINDS * stages)
  {
    hide CheckRow;
    var total := KINDS * stages;
    ghost var rows := RowChecks(body, stageTable, total);
    var a := 0;
    while a < total
      invariant 0 <= a <= total && FirstError(rows, a) == Ok(())
    {
      Extend(rows, a, total);
      r := CheckRecordRow(body, stageTable, total, a);
      if r.Err? {
        return;
      }
      a := a + 1;
    }
    return Ok(());
  }

  /** The inner loop: record `a` against every later one. */
  method CheckRecordRow(body: seq<U8>, stageTable: seq<U8>, total: nat, a: nat) returns (r: Check)
    requires a < total && 4 * total <= |stageTable|
    ensures r == CheckRow(body, stageTable, total, a)
  {
    hide RecordSpan, CheckPair;
    var span := RecordSpan(body, stageTable, a);
    if span.Err? {
      return Err(span.error);
    }
    if span.value.None? {
      return Ok(());
    }
    ghost var pairs := PairChecks(body, stageTable, span.value.value, a + 1);
    var b := a + 1;
    while b < total
      invariant a < b <= total && FirstError(pairs, b - a - 1) == Ok(())
    {
      Extend(pairs, b - a - 1, total - a - 1);
      r := CheckPair(body, stageTable, span.value.value, b);
      if r.Err? {
        return;
      }
      b := b + 1;
    }
    return Ok(());
  }

  lemma {:induction false} HighestErr(ends: nat -> Result<nat, IrError>, start: nat, k: nat, n: nat)
    requires k < n && Highest(ends, start, k).Ok? && ends(k).Err?
    ensures Highest(ends, start, n) == Err(ends(k).error)
  {
    if k < n - 1 {
      HighestErr(ends, start, k, n - 1);
    }
  }

  method ComputeFloor(sections: seq<Span>, body: seq<U8>, stageTable: seq<U8>, stages: nat)
    returns (r: Result<nat, IrError>)
    requires |stageTable| == stages * STAGE_ENTRY_LEN
    ensures r == Floor(sections, body, stageTable, KINDS * stages)
  {
    hide RecordSpan;
    var floor, i := 0, 0;
    while i < |sections|
      invariant 0 <= i <= |sections| && floor == SectionsEnd(sections[..i])
    {
      assert sections[..i + 1][..i] == sections[..i];
      floor := Max(floor, End(sections[i]));
      i := i + 1;
    }
    assert sections[..i] == sections;
    ghost var ends := RecordEnds(body, stageTable);
    var n := 0;
    while n < KINDS * stages
      invariant 0 <= n <= KINDS * stages && Highest(ends, SectionsEnd(sections), n) == Ok(floor)
    {
      var span := RecordSpan(body, stageTable, n);
      if span.Err? {
        HighestErr(ends, SectionsEnd(sections), n, KINDS * stages);
        return Err(span.error);
      }
      if span.value.Some? {
        floor := Max(floor, End(span.value.value));
      }
      n := n + 1;
    }
    return Ok(floor);
  }

  method CheckRegistryNames(v: RegistryView) returns (r: Check)
    ensures r == Verdict(NamesResolve(v), OutOfBounds)
  {
    var i := 0;
    while i < v.count
      invariant 0 <= i <= v.count && forall k | 0 <= k < i :: Name(v, k).Some?
    {
      if Name(v, i).None? {
        return Err(OutOfBounds);
      }
      i := i + 1;
    }
    return Ok(());
  }

  method CheckSortedOrdinals(sorted: seq<U8>, stageCount: U32) returns (r: Check)
    requires |sorted| == stageCount * SORTED_ENTRY_LEN
    ensures r == Verdict(SortedInRange(sorted, stageCount), OrdinalOutOfRange)
  {
    var k := 0;
    while k * SORTED_ENTRY_LEN < |sorted|
      invariant 0 <= k <= stageCount && forall j | 0 <= j < k :: U16At(sorted, j * SORTED_ENTRY_LEN) < stageCount
    {
      if U16At(sorted, k * SORTED_ENTRY_LEN) >= stageCount {
        return Err(OrdinalOutOfRange);
      }
      k := k + 1;
    }
    return Ok(());
  }

  method CheckConfigEntries(body: seq<U8>, entries: seq<U8>, n: nat, stageCount: U32) returns (r: Check)
    requires |entries| == n * BINDING_LEN
    ensures r == FirstError(BindingChecks(body, entries, stageCount), n)
  {
    hide ParseBinding;
    ghost var checks := BindingChecks(body, entries, stageCount);
    var i := 0;
    while i * BINDING_LEN < |entries|
      invariant 0 <= i <= n && FirstError(checks, i) == Ok(())
    {
      Extend(checks, i, n);
      var binding := ParseBinding(body, entries, i);
      if binding.Err? {
        return Err(binding.error);
      }
      if binding.value.nodeOrdinal >= stageCount {
        return Err(OrdinalOutOfRange);
      }
      i := i + 1;
    }
    return Ok(());
  }

  method CheckNamesInHeap(nameTable: seq<U8>, n: nat, floor: nat) returns (r: Check)
    requires |nameTable| == n * NAME_ENTRY_LEN
    ensures r == Verdict(NamesInHeap(nameTable, n, floor), OutOfBounds)
  {
    var i := 0;
    while i * NAME_ENTRY_LEN < |nameTable|
      invariant 0 <= i <= n && NamesInHeap(nameTable, i, floor)
    {
      if NameOffset(nameTable, i) < floor {
        return Err(OutOfBounds);
      }
      i := i + 1;
    }
    return Ok(());
  }

  method CheckKeysInHeap(entries: seq<U8>, n: nat, floor: nat) returns (r: Check)
    requires |entries| == n * BINDING_LEN
    ensures r == Verdict(KeysInHeap(entries, n, floor), OutOfBounds)
  {
    var i := 0;
    while i * BINDING_LEN < |entries|
      invariant 0 <= i <= n && KeysInHeap(entries, i, floor)
    {
      if KeyOffset(entries, i) < floor {
        return Err(OutOfBounds);
      }
      i := i + 1;
    }
    return Ok(());
  }

  method CheckSortedOrder(v: RegistryView, stageCount: U32) returns (r: Check)
    ensures r == FirstError(OrderChecks(Ranks(v)), stageCount)
  {
    hide Ranked, Less;
    ghost var names := Ranks(v);
    ghost var checks := OrderChecks(names);
    var previous: Option<seq<U8>> := None;
    var rank := 0;
    while rank < stageCount
      invariant 0 <= rank <= stageCount && FirstError(checks, rank) == Ok(())
      invariant if rank == 0 then previous == None else previous.Some? && Ranked(v, rank - 1) == Ok(previous.value)
    {
      Extend(checks, rank, stageCount);
      assert names(rank) == Ranked(v, rank) && (rank > 0 ==> names(rank - 1) == Ranked(v, rank - 1));
      var name := Ranked(v, rank);
      if name.Err? {
        return Err(name.error);
      }
      if previous.Some? && Less(name.value, previous.value) {
        return Err(RegistryUnsorted);
      }
      previous := Some(name.value);
      rank := rank + 1;
    }
    return Ok(());
  }

  // ---------------------------------------------------------------------
  // Lookup
  // ---------------------------------------------------------------------

  /** Some rank of the sorted index holds this name. */
  ghost predicate Listed(v: RegistryView, name: seq<U8>) {
    exists rank: nat | rank < v.count :: Ranked(v, rank) == Ok(name)
  }

  /** Every rank resolves, and the names never decrease. */
  ghost predicate Searchable(v: RegistryView) {
    && (forall rank: nat | rank < v.count :: Ranked(v, rank).Ok?)
    && (forall a: nat, b: nat | a <= b < v.count :: !Less(Ranked(v, b).value, Ranked(v, a).value))
  }

  /** An accepted blob's registry can be searched. */
  lemma AcceptedSearchable(t: Tables)
    requires Accepted(t) && t.registry.Some?
    ensures Searchable(t.registry.value.view)
  {
    var v := t.registry.value.view;
    StringsInHeap(t);
    forall a: nat, b: nat | a <= b < v.count
      ensures Ranked(v, a).Ok? && Ranked(v, b).Ok? && !Less(Ranked(v, b).value, Ranked(v, a).value)
    {
      RanksInOrder(Ranks(v), v.count, a, b);
    }
  }

  /** The registry of any accepted bytes can be searched. */
  lemma BytesSearchable(bytes: seq<U8>)
    requires Validate(bytes).Ok? && Validate(bytes).value.registry.Some?
    ensures Searchable(Validate(bytes).value.registry.value)
  {
    hide Validate, Searchable;
    AcceptedSearchable(TablesIn(bytes));
  }

  /**
   The binary search. Any answer is an ordinal of that name; over a searchable
   registry it answers exactly when a rank holds the name.
   */
  method Lookup(v: RegistryView, name: seq<U8>) returns (r: Option<U32>)
    ensures r.Some? ==> Name(v, r.value) == Some(name) && Listed(v, name)
    ensures Searchable(v) && Listed(v, name) ==> r.Some?
  {
    var low, high := 0, v.count;
    while low < high
      invariant 0 <= low <= high <= v.count
      invariant Searchable(v) ==> forall rank: nat | rank < v.count && Ranked(v, rank) == Ok(name) :: low <= rank < high
    {
      var mid := low + (high - low) / 2;
      assert Searchable(v) ==> Ranked(v, mid).Ok?;
      var ordinal := SortedOrdinal(v, mid);
      if ordinal.None? {
        return None;
      }
      var probe := Name(v, ordinal.value);
      if probe.None? {
        return None;
      }
      assert Ranked(v, mid) == Ok(probe.value);
      if name == probe.value {
        return Some(ordinal.value);
      }
      LessTotal(name, probe.value);
      if Less(name, probe.value) {
        high := mid;
      } else {
        low := mid + 1;
      }
    }
    return None;
  }

  /** Over accepted bytes the search answers exactly when the index lists the name. */
  method LookupIn(bytes: seq<U8>, name: seq<U8>) returns (r: Option<U32>)
    requires Validate(bytes).Ok? && Validate(bytes).value.registry.Some?
    ensures r.Some? <==> Listed(Validate(bytes).value.registry.value, name)
    ensures r.Some? ==> Name(Validate(bytes).value.registry.value, r.value) == Some(name)
  {
    hide Validate, Searchable, Listed, Name;
    BytesSearchable(bytes);
    r := Lookup(Validate(bytes).value.registry.value, name);
  }

  /** When the index lists every ordinal, a rank holds a name exactly when a stage has it. */
  lemma ListedIsNamed(v: RegistryView, name: seq<U8>)
    requires Searchable(v)
    requires forall o: nat | o < v.count :: exists rank: nat | rank < v.count :: SortedOrdinal(v, rank) == Some(o)
    ensures Listed(v, name) <==> exists o: nat | o < v.count :: Name(v, o) == Some(name)
  {
    if Listed(v, name) {
      var rank: nat :| rank < v.count && Ranked(v, rank) == Ok(name);
      assert Name(v, SortedOrdinal(v, rank).value) == Some(name);
    }
    if o: nat :| o < v.count && Name(v, o) == Some(name) {
      var rank: nat :| rank < v.count && SortedOrdinal(v, rank) == Some(o);
      assert Ranked(v, rank) == Ok(name);
    }
  }

  // ---------------------------------------------------------------------
  // The whole pass
  // ---------------------------------------------------------------------

  method ParseRegistrySection(body: seq<U8>, stageCount: U32) returns (r: Result<Option<ParsedRegistry>, IrError>)
    ensures r == ParseRegistry(body, stageCount)
  {
    hide ReadU32, SliceTable, NamesResolve, SortedInRange;
    var off := ReadU32(body, 16);
    if off.Err? {
      return Err(off.error);
    }
    if off.value == 0 {
      return Ok(None);
    }
    var names := SliceTable(body, 16, stageCount, NAME_ENTRY_LEN);
    if names.Err? {
      return Err(names.error);
    }
    var sortedOff := names.value.0 + |names.value.1|;
    var sorted := Slice(body, sortedOff, sortedOff + stageCount * SORTED_ENTRY_LEN);
    if sorted.Err? {
      return Err(sorted.error);
    }
    var view := RegistryView(body, names.value.1, sorted.value, stageCount);
    var c := CheckRegistryNames(view);
    if c.Err? {
      return Err(c.error);
    }
    c := CheckSortedOrdinals(sorted.value, stageCount);
    if c.Err? {
      return Err(c.error);
    }
    return Ok(Some(ParsedRegistry(view, Span(names.value.0, |names.value.1|), Span(sortedOff, |sorted.value|))));
  }

  method ParseConfigSection(body: seq<U8>, stageCount: U32) returns (r: Result<Option<ParsedConfig>, IrError>)
    ensures r == ParseConfig(body, stageCount)
  {
    hide ReadU32, BindingChecks, FirstError;
    var off := ReadU32(body, 20);
    if off.Err? {
      return Err(off.error);
    }
    if off.value == 0 {
      return Ok(None);
    }
    if off.value < CONDUCTOR_HEADER_LEN {
      return Err(OutOfBounds);
    }
    var count := ReadU32(body, off.value);
    if count.Err? {
      return Err(count.error);
    }
    var start := off.value + CONFIG_HEADER_LEN;
    var entries := Slice(body, start, start + count.value * BINDING_LEN);
    if entries.Err? {
      return Err(entries.error);
    }
    var c := CheckConfigEntries(body, entries.value, count.value, stageCount);
    if c.Err? {
      return Err(c.error);
    }
    return Ok(Some(ParsedConfig(count.value, entries.value,
      Span(off.value, CONFIG_HEADER_LEN + count.value * BINDING_LEN))));
  }

  method CheckHeapStrings(t: Tables, floor: nat) returns (r: Check)
    requires Framed(t)
    ensures r == CheckStrings(t, floor)
  {
    if t.registry.Some? {
      r := CheckNamesInHeap(t.registry.value.view.nameTable, t.stageCount, floor);
      if r.Err? {
        return;
      }
      r := CheckSortedOrder(t.registry.value.view, t.stageCount);
      if r.Err? {
        return;
      }
    }
    if t.config.Some? {
      r := CheckKeysInHeap(t.config.value.entries, t.config.value.count, floor);
      return;
    }
    return Ok(());
  }

  method CheckAll(t: Tables) returns (r: Check)
    requires Framed(t)
    ensures r == CheckTables(t)
  {
    var sections := Sections(t);
    r := CheckSectionsDisjoint(sections);
    if r.Err? {
      return;
    }
    r := CheckEdgeOrdinals(t.edgeTable, t.edgeCount, t.stageCount);
    if r.Err? {
      return;
    }
    r := CheckStagePolicies(t.body, t.stageTable, sections, t.stageCount);
    if r.Err? {
      return;
    }
    r := CheckRecordOverlaps(t.body, t.stageTable, t.stageCount);
    if r.Err? {
      return;
    }
    var floor := ComputeFloor(sections, t.body, t.stageTable, t.stageCount);
    if floor.Err? {
      return Err(floor.error);
    }
    r := CheckHeapStrings(t, floor.value);
  }

  method ParseBody(body: seq<U8>) returns (r: Result<Parsed, IrError>)
    ensures r == Parse(body)
  {
    var stageCount := ReadU32(body, 0);
    if stageCount.Err? {
      return Err(stageCount.error);
    }
    var edgeCount := ReadU32(body, 4);
    if edgeCount.Err? {
      return Err(edgeCount.error);
    }
    var stages := SliceTable(body, 8, stageCount.value, STAGE_ENTRY_LEN);
    if stages.Err? {
      return Err(stages.error);
    }
    var edges := SliceTable(body, 12, edgeCount.value, EDGE_LEN);
    if edges.Err? {
      return Err(edges.error);
    }
    var registry := ParseRegistrySection(body, stageCount.value);
    if registry.Err? {
      return Err(registry.error);
    }
    var config := ParseConfigSection(body, stageCount.value);
    if config.Err? {
      return Err(config.error);
    }
    var t := Tables(body, stageCount.value, edgeCount.value, Span(stages.value.0, |stages.value.1|), stages.value.1,
                    Span(edges.value.0, |edges.value.1|), edges.value.1, registry.value, config.value);
    var c := CheckAll(t);
    if c.Err? {
      return Err(c.error);
    }
    return Ok(View(t));
  }
}
