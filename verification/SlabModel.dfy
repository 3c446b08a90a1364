/**
 The generational slab as a value: which slots are vacant, reserved or full,
 how often each has turned, and the order of the free list. A run is any
 sequence of operations.
 */
module SlabModel {
  import opened Basics
  import opened Revision
  import opened Words

  const SENTINEL: U32 := 0xFFFF_FFFF

  datatype SlabKey = SlabKey(index: U32, generation: Generation)

  /** `turns` counts every fill and every emptying of the slot, without wrapping. */
  datatype Cell<T> = Vacant(turns: nat) | Reserved(turns: nat) | Full(turns: nat, value: T)

  datatype Slab<T> = Slab(cells: seq<Cell<T>>, free: seq<U32>)

  predicate Distinct(q: seq<U32>) {
    forall i, j | 0 <= i < j < |q| :: q[i] != q[j]
  }

  /** Odd turns are occupancy, and the free list is every vacant slot once. */
  ghost predicate WellFormed<T(!new)>(s: Slab<T>) {
    && |s.cells| < 0x1_0000_0000
    && (forall i | 0 <= i < |s.cells| :: s.cells[i].turns % 2 == (if s.cells[i].Full? then 1 else 0))
    && Distinct(s.free)
    && (forall k | 0 <= k < |s.free| :: s.free[k] < |s.cells| && s.cells[s.free[k]].Vacant?)
    && (forall i: U32 | i < |s.cells| && s.cells[i].Vacant? :: i in s.free)
  }

  /** The keys the slab hands out: odd generations. */
  predicate Issuable(key: SlabKey) {
    IsOccupied(key.generation)
  }

  function Lookup<T>(s: Slab<T>, key: SlabKey): Option<T> {
    if key.index < |s.cells| && s.cells[key.index].Full? && GenOf(s.cells[key.index].turns) == key.generation
    then Some(s.cells[key.index].value)
    else None
  }

  /** What a slot holds, whatever its generation. */
  function ValueAt<T>(s: Slab<T>, i: U32): Option<T> {
    if i < |s.cells| && s.cells[i].Full? then Some(s.cells[i].value) else None
  }

  /** The key was promised by a reservation that still stands. */
  predicate Promised<T>(s: Slab<T>, key: SlabKey) {
    && key.index < |s.cells| && s.cells[key.index].Reserved?
    && GenOf(s.cells[key.index].turns + 1) == key.generation
  }

  datatype SlabError = NoRoom

  // ---------------------------------------------------------------------
  // Operations
  // ---------------------------------------------------------------------

  function Fresh<T>(capacity: U32): Slab<T> {
    Slab(seq(capacity, _ => Vacant(0)), seq(capacity, i requires 0 <= i < capacity => i))
  }

  function Insert<T(!new)>(s: Slab<T>, value: T): (Slab<T>, Result<SlabKey, SlabError>)
    requires WellFormed(s)
  {
    if s.free == [] then (s, Err(NoRoom))
    else
      var i := s.free[0];
      var t := s.cells[i].turns + 1;
      (Slab(s.cells[i := Full(t, value)], s.free[1..]), Ok(SlabKey(i, GenOf(t))))
  }

  /** The emptying shared by removal, retirement and removal by index. */
  function Empty<T(!new)>(s: Slab<T>, i: U32): Slab<T>
    requires WellFormed(s) && i < |s.cells|
  {
    Slab(s.cells[i := Vacant(s.cells[i].turns + 1)], [i] + s.free)
  }

  function Remove<T(!new)>(s: Slab<T>, key: SlabKey): (Slab<T>, Option<T>)
    requires WellFormed(s)
  {
    if Lookup(s, key).None? then (s, None) else (Empty(s, key.index), Lookup(s, key))
  }

  function RemoveAt<T(!new)>(s: Slab<T>, i: U32): (Slab<T>, Option<T>)
    requires WellFormed(s)
  {
    if ValueAt(s, i).None? then (s, None) else (Empty(s, i), ValueAt(s, i))
  }

  function Reserve<T(!new)>(s: Slab<T>): (Slab<T>, Result<SlabKey, SlabError>)
    requires WellFormed(s)
  {
    if s.free == [] then (s, Err(NoRoom))
    else
      var i := s.free[0];
      var t := s.cells[i].turns;
      (Slab(s.cells[i := Reserved(t)], s.free[1..]), Ok(SlabKey(i, GenOf(t + 1))))
  }

  function Install<T(!new)>(s: Slab<T>, key: SlabKey, value: T): (Slab<T>, Result<(), T>)
    requires WellFormed(s)
  {
    if !Promised(s, key) then (s, Err(value))
    else (s.(cells := s.cells[key.index := Full(s.cells[key.index].turns + 1, value)]), Ok(()))
  }

  function Unreserve<T(!new)>(s: Slab<T>, key: SlabKey): (Slab<T>, bool)
    requires WellFormed(s)
  {
    if !Promised(s, key) then (s, false)
    else (Slab(s.cells[key.index := Vacant(s.cells[key.index].turns)], [key.index] + s.free), true)
  }

  datatype Op<T> =
    | DoInsert(value: T)
    | DoRemove(key: SlabKey)
    | DoRemoveAt(index: U32)
    | DoReserve
    | DoInstall(key: SlabKey, value: T)
    | DoUnreserve(key: SlabKey)

  function Step<T(!new)>(s: Slab<T>, op: Op<T>): Slab<T>
    requires WellFormed(s)
  {
    match op
    case DoInsert(v) => Insert(s, v).0
    case DoRemove(key) => Remove(s, key).0
    case DoRemoveAt(i) => RemoveAt(s, i).0
    case DoReserve => Reserve(s).0
    case DoInstall(key, v) => Install(s, key, v).0
    case DoUnreserve(key) => Unreserve(s, key).0
  }
}
