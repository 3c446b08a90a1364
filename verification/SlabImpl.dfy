/** The slab in place: slots with an in-band free list, and packed keys. */
module SlabImpl {
  import opened Basics
  import opened Bits
  import opened Words
  import opened Revision
  import opened SlabModel
  import opened SlabTheorems

  // ---------------------------------------------------------------------
  // Packed keys
  // ---------------------------------------------------------------------

  const GENERATION_MAX := 0xFF_FFFF
  const INDEX_MASK := 0xFFFF_FFFF

  /** 24 generation bits above 32 index bits. */
  function Pack(key: SlabKey): nat {
    Or(Shl(And(key.generation, GENERATION_MAX), 32), key.index)
  }

  function IndexOf(bits: nat): nat {
    And(bits, INDEX_MASK)
  }

  function GenerationOf(bits: nat): nat {
    And(Shr(bits, 32), GENERATION_MAX)
  }

  /** A packed key unpacks to itself, and its top eight bits are clear. */
  lemma PackRoundTrip(key: SlabKey)
    ensures Pack(key) < 0x100_0000_0000_0000
    ensures IndexOf(Pack(key)) == key.index && GenerationOf(Pack(key)) == key.generation
  {
    Pow2Sizes();
    var g := key.generation;
    AndBelow(g, 0x100_0000);
    Shift32(g);
    Shift32(1);
    OrDisjoint(g, 32, key.index);
    var bits := g * 0x1_0000_0000 + key.index;
    AndMask(bits, 0x1_0000_0000);
    ModUnique(bits, 0x1_0000_0000, g, key.index);
    Shift32(bits);
  }

  /** `wrapping_add(1) & MAX`. */
  lemma NextMasked(g: Generation)
    ensures And(g + 1, GENERATION_MAX) == NextGen(g)
  {
    hide And, IsPow2;
    Pow2Sizes();
    AndMask(g + 1, 0x100_0000);
  }

  // ---------------------------------------------------------------------
  // The free list in the slots
  // ---------------------------------------------------------------------

  datatype Slot<T> = Slot(generation: Generation, nextFree: U32, data: Option<T>)

  function HeadOf(free: seq<U32>): U32 {
    if free == [] then SENTINEL else free[0]
  }

  /** Each free slot points at the next one, the last at the sentinel. */
  ghost predicate Chained<T>(slots: seq<Slot<T>>, free: seq<U32>) {
    forall k | 0 <= k < |free| :: free[k] < |slots| && slots[free[k]].nextFree == HeadOf(free[k + 1..])
  }

  lemma ChainPop<T>(slots: seq<Slot<T>>, free: seq<U32>, s: Slot<T>)
    requires Chained(slots, free) && Distinct(free) && free != []
    ensures slots[free[0]].nextFree == HeadOf(free[1..])
    ensures Chained(slots[free[0] := s], free[1..])
  {
    forall k | 0 <= k < |free| - 1
      ensures free[1..][k] != free[0] && slots[free[1..][k]].nextFree == HeadOf(free[1..][k + 1..])
    {
      assert free[1..][k] == free[k + 1] && free[1..][k + 1..] == free[k + 2..];
    }
  }

  lemma ChainPush<T>(slots: seq<Slot<T>>, free: seq<U32>, i: U32, s: Slot<T>)
    requires Chained(slots, free) && i !in free && i < |slots| && s.nextFree == HeadOf(free)
    ensures Chained(slots[i := s], [i] + free)
  {
    var free' := [i] + free;
    forall k | 0 <= k < |free'|
      ensures free'[k] < |slots| && slots[i := s][free'[k]].nextFree == HeadOf(free'[k + 1..]) {
      if k == 0 {
        assert free'[1..] == free;
      } else {
        assert free'[k] == free[k - 1] && free'[k + 1..] == free[k..];
      }
    }
  }

  lemma ChainOther<T>(slots: seq<Slot<T>>, free: seq<U32>, i: U32, s: Slot<T>)
    requires Chained(slots, free) && i !in free && i < |slots|
    ensures Chained(slots[i := s], free)
  {
  }

  /** A free slot never points at itself: only a reserved one does. */
  lemma NoSelfLink<T>(slots: seq<Slot<T>>, free: seq<U32>, i: U32)
    requires Chained(slots, free) && Distinct(free) && i in free && i != SENTINEL
    ensures i < |slots| && slots[i].nextFree != i
  {
    var k :| 0 <= k < |free| && free[k] == i;
    if k + 1 < |free| {
      assert free[k + 1..][0] == free[k + 1];
    }
  }

  lemma FreshChain<T>(slots: seq<Slot<T>>, capacity: U32)
    requires |slots| == capacity
    requires forall i | 0 <= i < capacity :: slots[i].nextFree == if i + 1 < capacity then i + 1 else SENTINEL
    ensures Chained(slots, Fresh<T>(capacity).free)
  {
    var free := Fresh<T>(capacity).free;
    forall k | 0 <= k < |free| ensures free[k] < |slots| && slots[free[k]].nextFree == HeadOf(free[k + 1..]) {
      if k + 1 < capacity {
        assert free[k + 1..][0] == k + 1;
      }
    }
  }

  ghost predicate SlotIs<T>(slot: Slot<T>, cell: Cell<T>, i: nat) {
    && slot.generation == GenOf(cell.turns)
    && (cell.Reserved? ==> slot.nextFree == i)
    && (cell.Full? ==> slot.nextFree == SENTINEL && slot.data == Some(cell.value))
  }

  lemma {:induction false} OccupiedUpdate<T>(cells: seq<Cell<T>>, i: nat, c: Cell<T>)
    requires i < |cells|
    ensures Occupied(cells[i := c]) + (if cells[i].Full? then 1 else 0) == Occupied(cells) + (if c.Full? then 1 else 0)
    decreases |cells|
  {
    var k := |cells| - 1;
    if i < k {
      OccupiedUpdate(cells[..k], i, c);
      assert cells[i := c][..k] == cells[..k][i := c];
    } else {
      assert cells[i := c][..k] == cells[..k];
    }
  }

  lemma {:induction false} NoneOccupied<T>(n: nat)
    ensures Occupied(seq<Cell<T>>(n, _ => Vacant(0))) == 0
  {
    if n > 0 {
      NoneOccupied<T>(n - 1);
      assert seq<Cell<T>>(n, _ => Vacant(0))[..n - 1] == seq<Cell<T>>(n - 1, _ => Vacant(0));
    }
  }

  // ---------------------------------------------------------------------
  // Iteration order
  // ---------------------------------------------------------------------

  /** The occupied slots in index order. */
  function Entries<T>(cells: seq<Cell<T>>): seq<(SlabKey, T)>
    requires |cells| < 0x1_0000_0000
  {
    if cells == [] then []
    else
      var k := |cells| - 1;
      Entries(cells[..k]) + (if cells[k].Full? then [(SlabKey(k, GenOf(cells[k].turns)), cells[k].value)] else [])
  }

  /** The entries are exactly the bindings. */
  lemma {:induction false} EntriesAreBindings<T(!new)>(cells: seq<Cell<T>>, free: seq<U32>, key: SlabKey, value: T)
    requires |cells| < 0x1_0000_0000
    ensures (key, value) in Entries(cells) <==> Lookup(Slab(cells, free), key) == Some(value)
    decreases |cells|
  {
    if cells != [] {
      EntriesAreBindings(cells[..|cells| - 1], free, key, value);
    }
  }

  /** The entries come in index order, so each once. */
  lemma {:induction false} EntriesInOrder<T>(cells: seq<Cell<T>>)
    requires |cells| < 0x1_0000_0000
    ensures forall a | 0 <= a < |Entries(cells)| :: Entries(cells)[a].0.index < |cells|
    ensures forall a, b | 0 <= a < b < |Entries(cells)| :: Entries(cells)[a].0.index < Entries(cells)[b].0.index
    decreases |cells|
  {
    if cells != [] {
      EntriesInOrder(cells[..|cells| - 1]);
    }
  }

  class GenSlab<T(!new)> {
    var slots: seq<Slot<T>>
    var freeHead: U32
    var len: nat
    ghost var model: Slab<T>

    ghost predicate Valid()
      reads this
    {
      && WellFormed(model) && |slots| == |model.cells|
      && (forall i | 0 <= i < |slots| :: SlotIs(slots[i], model.cells[i], i))
      && Chained(slots, model.free) && freeHead == HeadOf(model.free)
      && len == Occupied(model.cells)
    }

    constructor (capacity: nat)
      requires capacity <= 0xFFFF_FFFF
      ensures Valid() && model == Fresh(capacity)
    {
      hide Chained, Occupied, WellFormed;
      var built: seq<Slot<T>> := [];
      var idx := 0;
      while idx < capacity
        invariant 0 <= idx <= capacity && |built| == idx
        invariant forall i | 0 <= i < idx :: built[i] == Slot(0, if i + 1 < capacity then i + 1 else SENTINEL, None)
      {
        var nextFree := if idx + 1 < capacity then idx + 1 else SENTINEL;
        built := built + [Slot(0, nextFree, None)];
        idx := idx + 1;
      }
      slots := built;
      freeHead := if capacity == 0 then SENTINEL else 0;
      len := 0;
      model := Fresh(capacity);
      FreshWellFormed<T>(capacity);
      NoneOccupied<T>(capacity);
      new;
      FreshChain(slots, capacity);
    }

    method Insert(value: T) returns (r: Result<SlabKey, SlabError>)
      requires Valid()
      modifies this
      ensures Valid() && (model, r) == SlabModel.Insert(old(model), value)
    {
      hide Occupied, Chained;
      var idx := freeHead;
      if idx == SENTINEL {
        HeadNotSentinel();
        return Err(NoRoom);
      }
      var slot := slots[idx];
      ParityKept(model.cells[idx].turns);
      if IsOccupied(slot.generation) {
        assert false;
      }
      ghost var t := model.cells[idx].turns + 1;
      var filled := Slot(NextGen(slot.generation), SENTINEL, Some(value));
      ChainPop(slots, model.free, filled);
      InsertKeeps(model, value);
      OccupiedUpdate(model.cells, idx, Full(t, value));
      slots := slots[idx := filled];
      freeHead := slot.nextFree;
      len := len + 1;
      model := SlabModel.Insert(model, value).0;
      r := Ok(SlabKey(idx, filled.generation));
    }

    /** A free index is a slot index, so it is never the sentinel. */
    lemma HeadNotSentinel()
      requires Valid()
      ensures freeHead == SENTINEL <==> model.free == []
    {
    }

    /** A key of odd generation matches a slot's generation only when the slot is full. */
    lemma MatchMeansFull(key: SlabKey)
      requires Valid() && Issuable(key) && key.index < |slots| && slots[key.index].generation == key.generation
      ensures model.cells[key.index].Full? && Lookup(model, key) == slots[key.index].data
    {
      ParityKept(model.cells[key.index].turns);
    }

    method Get(key: SlabKey) returns (r: Option<T>)
      requires Valid() && Issuable(key)
      ensures r == Lookup(model, key)
    {
      if key.index >= |slots| || slots[key.index].generation != key.generation {
        return None;
      }
      MatchMeansFull(key);
      return slots[key.index].data;
    }

    /** A write through the exclusive reference. */
    method Overwrite(key: SlabKey, value: T) returns (found: bool)
      requires Valid() && Issuable(key)
      modifies this
      ensures Valid() && found == Lookup(old(model), key).Some? && model.free == old(model).free
      ensures forall k: SlabKey :: Lookup(model, k) == if found && k == key then Some(value) else Lookup(old(model), k)
    {
      hide Occupied, Chained;
      if key.index >= |slots| || slots[key.index].generation != key.generation {
        return false;
      }
      MatchMeansFull(key);
      ghost var cell := Full(model.cells[key.index].turns, value);
      OccupiedUpdate(model.cells, key.index, cell);
      ChainOther(slots, model.free, key.index, slots[key.index].(data := Some(value)));
      slots := slots[key.index := slots[key.index].(data := Some(value))];
      model := model.(cells := model.cells[key.index := cell]);
      return true;
    }

    /** The bookkeeping of an emptied slot: bump, link, count. */
    method Release(idx: U32)
      requires Valid() && idx < |slots| && model.cells[idx].Full?
      modifies this
      ensures Valid() && model == Empty(old(model), idx)
    {
      hide Occupied, Chained;
      var slot := slots[idx];
      ghost var t := model.cells[idx].turns + 1;
      var emptied := Slot(NextGen(slot.generation), freeHead, None);
      ChainPush(slots, model.free, idx, emptied);
      EmptyKeeps(model, idx);
      OccupiedUpdate(model.cells, idx, Vacant(t));
      slots := slots[idx := emptied];
      freeHead := idx;
      len := len - 1;
      model := Empty(model, idx);
    }

    method Remove(key: SlabKey) returns (r: Option<T>)
      requires Valid() && Issuable(key)
      modifies this
      ensures Valid() && (model, r) == SlabModel.Remove(old(model), key)
    {
      if key.index >= |slots| || slots[key.index].generation != key.generation {
        return None;
      }
      MatchMeansFull(key);
      r := slots[key.index].data;
      Release(key.index);
    }

    method RetireSlot(key: SlabKey) returns (ok: bool)
      requires Valid() && Issuable(key)
      modifies this
      ensures Valid() && model == SlabModel.Remove(old(model), key).0 && ok == Lookup(old(model), key).Some?
    {
      if key.index >= |slots| || slots[key.index].generation != key.generation {
        return false;
      }
      MatchMeansFull(key);
      Release(key.index);
      return true;
    }

    method RemoveByIndex(idx: U32) returns (r: Option<T>)
      requires Valid()
      modifies this
      ensures Valid() && (model, r) == RemoveAt(old(model), idx)
    {
      if idx >= |slots| {
        return None;
      }
      ParityKept(model.cells[idx].turns);
      if !IsOccupied(slots[idx].generation) {
        return None;
      }
      r := slots[idx].data;
      Release(idx);
    }

    method GetByIndex(idx: U32) returns (r: Option<T>)
      requires Valid()
      ensures r == ValueAt(model, idx)
    {
      if idx >= |slots| {
        return None;
      }
      ParityKept(model.cells[idx].turns);
      if !IsOccupied(slots[idx].generation) {
        return None;
      }
      return slots[idx].data;
    }

    method Reserve() returns (r: Result<SlabKey, SlabError>)
      requires Valid()
      modifies this
      ensures Valid() && (model, r) == SlabModel.Reserve(old(model))
    {
      hide Occupied, Chained;
      var idx := freeHead;
      if idx == SENTINEL {
        HeadNotSentinel();
        return Err(NoRoom);
      }
      var slot := slots[idx];
      ParityKept(model.cells[idx].turns);
      if IsOccupied(slot.generation) {
        assert false;
      }
      ghost var c: Cell<T> := Reserved(model.cells[idx].turns);
      var marked := slot.(nextFree := idx);
      ChainPop(slots, model.free, marked);
      ReserveKeeps(model);
      OccupiedUpdate(model.cells, idx, c);
      freeHead := slot.nextFree;
      slots := slots[idx := marked];
      model := SlabModel.Reserve(model).0;
      r := Ok(SlabKey(idx, NextGen(slot.generation)));
    }

    /** The self-link and the next generation name a standing promise exactly. */
    lemma PromiseMarks(key: SlabKey)
      requires Valid() && key.index < |slots|
      ensures Promised(model, key) <==>
              slots[key.index].nextFree == key.index && NextGen(slots[key.index].generation) == key.generation
    {
      var i := key.index;
      if model.cells[i].Vacant? {
        NoSelfLink(slots, model.free, i);
      }
    }

    method Install(key: SlabKey, value: T) returns (r: Result<(), T>)
      requires Valid()
      modifies this
      ensures Valid() && (model, r) == SlabModel.Install(old(model), key, value)
    {
      hide Occupied, Chained;
      var idx := key.index;
      if idx >= |slots| {
        return Err(value);
      }
      PromiseMarks(key);
      if slots[idx].nextFree != idx || NextGen(slots[idx].generation) != key.generation {
        return Err(value);
      }
      ghost var c := Full(model.cells[idx].turns + 1, value);
      var filled := Slot(NextGen(slots[idx].generation), SENTINEL, Some(value));
      ChainOther(slots, model.free, idx, filled);
      OccupiedUpdate(model.cells, idx, c);
      InstallKeeps(model, key, value);
      slots := slots[idx := filled];
      len := len + 1;
      model := SlabModel.Install(model, key, value).0;
      return Ok(());
    }

    method Unreserve(key: SlabKey) returns (ok: bool)
      requires Valid()
      modifies this
      ensures Valid() && (model, ok) == SlabModel.Unreserve(old(model), key)
    {
      hide Occupied, Chained;
      var idx := key.index;
      if idx >= |slots| {
        return false;
      }
      PromiseMarks(key);
      if slots[idx].nextFree != idx || NextGen(slots[idx].generation) != key.generation {
        return false;
      }
      ghost var t := model.cells[idx].turns;
      ChainPush(slots, model.free, idx, slots[idx].(nextFree := freeHead));
      UnreserveKeeps(model, key);
      OccupiedUpdate(model.cells, idx, Vacant(t));
      slots := slots[idx := slots[idx].(nextFree := freeHead)];
      freeHead := idx;
      model := SlabModel.Unreserve(model, key).0;
      return true;
    }

    /** Iteration: every binding once, in index order. */
    method Iter() returns (items: seq<(SlabKey, T)>)
      requires Valid()
      ensures items == Entries(model.cells)
    {
      items := [];
      var idx := 0;
      while idx < |slots|
        invariant 0 <= idx <= |slots| && items == Entries(model.cells[..idx])
      {
        assert model.cells[..idx + 1][..idx] == model.cells[..idx];
        ParityKept(model.cells[idx].turns);
        if IsOccupied(slots[idx].generation) {
          items := items + [(SlabKey(idx, slots[idx].generation), slots[idx].data.value)];
        }
        idx := idx + 1;
      }
      assert model.cells[..idx] == model.cells;
    }
  }
}
