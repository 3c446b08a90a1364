/** What every run of a slab keeps. */
module SlabTheorems {
  import opened Basics
  import opened Words
  import opened Revision
  import opened SlabModel

  // ---------------------------------------------------------------------
  // Generations
  // ---------------------------------------------------------------------

  /** Parity survives the 24-bit wrap. */
  lemma {:induction false} ParityKept(turns: nat)
    ensures IsOccupied(GenOf(turns)) <==> turns % 2 == 1
  {
    if turns > 0 {
      ParityKept(turns - 1);
    }
  }

  /** Two turns share a generation exactly when a multiple of 2^24 lies between them. */
  lemma SameGeneration(a: nat, b: nat)
    requires a <= b
    ensures GenOf(a) == GenOf(b) <==> (b - a) % GENERATIONS == 0
  {
    hide GenOf;
    GenOfMod(a);
    GenOfMod(b);
  }

  // ---------------------------------------------------------------------
  // Well-formedness
  // ---------------------------------------------------------------------

  lemma FreshWellFormed<T(!new)>(capacity: U32)
    ensures WellFormed(Fresh<T>(capacity))
  {
    var s := Fresh<T>(capacity);
    forall i: U32 | i < |s.cells| && s.cells[i].Vacant? ensures i in s.free {
      assert s.free[i] == i;
    }
  }

  /** Taking the head slot off the free list for a cell that is not vacant. */
  lemma TakeKeeps<T(!new)>(s: Slab<T>, c: Cell<T>)
    requires WellFormed(s) && s.free != [] && !c.Vacant? && c.turns % 2 == (if c.Full? then 1 else 0)
    ensures WellFormed(Slab(s.cells[s.free[0] := c], s.free[1..]))
  {
    var s' := Slab(s.cells[s.free[0] := c], s.free[1..]);
    forall i: U32 | i < |s'.cells| && s'.cells[i].Vacant? ensures i in s'.free {
      assert i in s.free && i != s.free[0];
    }
  }

  /** Returning a slot that was not vacant. */
  lemma GiveKeeps<T(!new)>(s: Slab<T>, i: U32, turns: nat)
    requires WellFormed(s) && i < |s.cells| && !s.cells[i].Vacant? && turns % 2 == 0
    ensures WellFormed(Slab(s.cells[i := Vacant(turns)], [i] + s.free))
  {
    assert i !in s.free;
  }

  lemma InsertKeeps<T(!new)>(s: Slab<T>, v: T)
    requires WellFormed(s)
    ensures WellFormed(Insert(s, v).0) && |Insert(s, v).0.cells| == |s.cells|
  {
    if s.free != [] {
      assert s.cells[s.free[0]].Vacant?;
      TakeKeeps(s, Full(s.cells[s.free[0]].turns + 1, v));
    }
  }

  lemma ReserveKeeps<T(!new)>(s: Slab<T>)
    requires WellFormed(s)
    ensures WellFormed(Reserve(s).0) && |Reserve(s).0.cells| == |s.cells|
  {
    if s.free != [] {
      assert s.cells[s.free[0]].Vacant?;
      TakeKeeps(s, Reserved(s.cells[s.free[0]].turns));
    }
  }

  lemma EmptyKeeps<T(!new)>(s: Slab<T>, i: U32)
    requires WellFormed(s) && i < |s.cells| && s.cells[i].Full?
    ensures WellFormed(Empty(s, i)) && |Empty(s, i).cells| == |s.cells|
  {
    GiveKeeps(s, i, s.cells[i].turns + 1);
  }

  lemma InstallKeeps<T(!new)>(s: Slab<T>, key: SlabKey, v: T)
    requires WellFormed(s)
    ensures WellFormed(Install(s, key, v).0) && |Install(s, key, v).0.cells| == |s.cells|
  {
    if Promised(s, key) {
      var s' := Install(s, key, v).0;
      forall k | 0 <= k < |s.free| ensures s'.cells[s.free[k]].Vacant? {
        assert s.cells[s.free[k]].Vacant?;
      }
    }
  }

  lemma UnreserveKeeps<T(!new)>(s: Slab<T>, key: SlabKey)
    requires WellFormed(s)
    ensures WellFormed(Unreserve(s, key).0) && |Unreserve(s, key).0.cells| == |s.cells|
  {
    if Promised(s, key) {
      GiveKeeps(s, key.index, s.cells[key.index].turns);
    }
  }

  lemma StepKeeps<T(!new)>(s: Slab<T>, op: Op<T>)
    requires WellFormed(s)
    ensures WellFormed(Step(s, op)) && |Step(s, op).cells| == |s.cells|
  {
    hide WellFormed, Insert, Reserve, Install, Unreserve, Empty;
    match op
    case DoInsert(v) => InsertKeeps(s, v);
    case DoRemove(key) =>
      if Lookup(s, key).Some? {
        EmptyKeeps(s, key.index);
      }
    case DoRemoveAt(i) =>
      if ValueAt(s, i).Some? {
        EmptyKeeps(s, i);
      }
    case DoReserve => ReserveKeeps(s);
    case DoInstall(key, v) => InstallKeeps(s, key, v);
    case DoUnreserve(key) => UnreserveKeeps(s, key);
  }

  ghost function Run<T(!new)>(s: Slab<T>, ops: seq<Op<T>>): (r: Slab<T>)
    requires WellFormed(s)
    ensures WellFormed(r) && |r.cells| == |s.cells|
    decreases |ops|
  {
    if ops == [] then s
    else
      StepKeeps(s, ops[0]);
      Run(Step(s, ops[0]), ops[1..])
  }

  // ---------------------------------------------------------------------
  // Full means full
  // ---------------------------------------------------------------------

  /** How many of the slots are vacant. */
  function Vacancies<T>(cells: seq<Cell<T>>): nat {
    if cells == [] then 0
    else Vacancies(cells[..|cells| - 1]) + (if cells[|cells| - 1].Vacant? then 1 else 0)
  }

  function Occupied<T>(cells: seq<Cell<T>>): nat {
    if cells == [] then 0
    else Occupied(cells[..|cells| - 1]) + (if cells[|cells| - 1].Full? then 1 else 0)
  }

  function Reservations<T>(cells: seq<Cell<T>>): nat {
    if cells == [] then 0
    else Reservations(cells[..|cells| - 1]) + (if cells[|cells| - 1].Reserved? then 1 else 0)
  }

  lemma {:induction false} Partition<T>(cells: seq<Cell<T>>)
    ensures Vacancies(cells) + Occupied(cells) + Reservations(cells) == |cells|
  {
    if cells != [] {
      Partition(cells[..|cells| - 1]);
    }
  }

  lemma {:induction false} SomeVacancy<T>(cells: seq<Cell<T>>)
    ensures Vacancies(cells) == 0 <==> forall i | 0 <= i < |cells| :: !cells[i].Vacant?
  {
    if cells != [] {
      var k := |cells| - 1;
      SomeVacancy(cells[..k]);
      if forall i | 0 <= i < k :: !cells[..k][i].Vacant? {
        assert forall i | 0 <= i < k :: cells[i] == cells[..k][i];
      } else {
        var i :| 0 <= i < k && cells[..k][i].Vacant?;
        assert cells[i].Vacant?;
      }
    }
  }

  /** Insertion and reservation fail exactly when every slot is occupied or reserved. */
  lemma FullIsExact<T(!new)>(s: Slab<T>, value: T)
    requires WellFormed(s)
    ensures Insert(s, value).1.Err? <==> Occupied(s.cells) + Reservations(s.cells) == |s.cells|
    ensures Reserve(s).1.Err? <==> Occupied(s.cells) + Reservations(s.cells) == |s.cells|
  {
    Partition(s.cells);
    SomeVacancy(s.cells);
    if s.free != [] {
      assert s.cells[s.free[0]].Vacant?;
    }
    if i :| 0 <= i < |s.cells| && s.cells[i].Vacant? {
      var u: U32 := i;
      assert u in s.free;
    }
  }

  // ---------------------------------------------------------------------
  // The map from issued keys to values
  // ---------------------------------------------------------------------

  /** An insertion binds one new key and touches no other. */
  lemma InsertBinds<T(!new)>(s: Slab<T>, value: T, key: SlabKey)
    requires WellFormed(s) && s.free != []
    ensures var (s', r) := Insert(s, value);
            && r.Ok? && Issuable(r.value) && Lookup(s, r.value) == None
            && Lookup(s', key) == if key == r.value then Some(value) else Lookup(s, key)
  {
    var i := s.free[0];
    ParityKept(s.cells[i].turns + 1);
  }

  /** A removal unbinds its key, returns what it held and touches no other. */
  lemma RemoveUnbinds<T(!new)>(s: Slab<T>, gone: SlabKey, key: SlabKey)
    requires WellFormed(s)
    ensures var (s', v) := Remove(s, gone);
            v == Lookup(s, gone) && Lookup(s', key) == if key == gone then None else Lookup(s, key)
  {
  }

  /** What a slot holds is what its one live key resolves to, if it has one. */
  lemma ValueAtIsBinding<T>(s: Slab<T>, i: U32)
    ensures forall g: Generation | Lookup(s, SlabKey(i, g)).Some? :: Lookup(s, SlabKey(i, g)) == ValueAt(s, i)
    ensures ValueAt(s, i).Some? <==> exists g: Generation :: Lookup(s, SlabKey(i, g)).Some?
  {
    hide GenOf;
    if ValueAt(s, i).Some? {
      assert Lookup(s, SlabKey(i, GenOf(s.cells[i].turns))).Some?;
    }
  }

  /** Removing by index returns what the slot's key resolved to and unbinds that slot alone. */
  lemma RemoveAtUnbinds<T(!new)>(s: Slab<T>, i: U32, key: SlabKey)
    requires WellFormed(s)
    ensures var (s', v) := RemoveAt(s, i);
            && (v.Some? <==> exists g: Generation :: Lookup(s, SlabKey(i, g)).Some?)
            && (forall g: Generation | Lookup(s, SlabKey(i, g)).Some? :: v == Lookup(s, SlabKey(i, g)))
            && Lookup(s', key) == if key.index == i then None else Lookup(s, key)
  {
    ValueAtIsBinding(s, i);
    hide GenOf, WellFormed;
  }

  /** A reservation binds nothing; its key is dead until installed. */
  lemma ReserveBindsNothing<T(!new)>(s: Slab<T>, key: SlabKey)
    requires WellFormed(s)
    ensures var (s', r) := Reserve(s);
            && Lookup(s', key) == Lookup(s, key)
            && (r.Ok? ==> Promised(s', r.value) && Issuable(r.value) && Lookup(s', r.value) == None)
  {
    if s.free != [] {
      ParityKept(s.cells[s.free[0]].turns + 1);
    }
  }

  lemma InstallBinds<T(!new)>(s: Slab<T>, promise: SlabKey, value: T, key: SlabKey)
    requires WellFormed(s)
    ensures var (s', r) := Install(s, promise, value);
            && (r.Ok? <==> Promised(s, promise))
            && (r.Err? ==> r.error == value && s' == s)
            && (r.Ok? ==> Lookup(s, promise) == None
                          && Lookup(s', key) == if key == promise then Some(value) else Lookup(s, key))
  {
  }

  lemma UnreserveBindsNothing<T(!new)>(s: Slab<T>, promise: SlabKey, key: SlabKey)
    requires WellFormed(s)
    ensures var (s', ok) := Unreserve(s, promise);
            Lookup(s', key) == Lookup(s, key) && (ok <==> Promised(s, promise)) && !Promised(s', promise)
  {
  }

  /** A standing promise outlives every operation but its own installation or withdrawal. */
  lemma PromiseStands<T(!new)>(s: Slab<T>, key: SlabKey, op: Op<T>)
    requires WellFormed(s) && Promised(s, key)
    requires !(op.DoInstall? && op.key == key) && op != DoUnreserve(key)
    ensures Promised(Step(s, op), key) && Lookup(Step(s, op), key) == None
  {
    match op
    case DoInsert(v) => if s.free != [] { assert s.cells[s.free[0]].Vacant?; }
    case DoReserve => if s.free != [] { assert s.cells[s.free[0]].Vacant?; }
    case _ =>
  }

  /** So through any run without those, the promised key resolves to nothing. */
  lemma {:induction false} PromisedResolvesToNothing<T(!new)>(s: Slab<T>, key: SlabKey, ops: seq<Op<T>>)
    requires WellFormed(s) && Promised(s, key)
    requires forall k | 0 <= k < |ops| :: !(ops[k].DoInstall? && ops[k].key == key) && ops[k] != DoUnreserve(key)
    ensures Promised(Run(s, ops), key) && Lookup(Run(s, ops), key) == None
    decreases |ops|
  {
    hide WellFormed, Step;
    if ops != [] {
      StepKeeps(s, ops[0]);
      PromiseStands(s, key, ops[0]);
      PromisedResolvesToNothing(Step(s, ops[0]), key, ops[1..]);
    }
  }

  // ---------------------------------------------------------------------
  // Key reuse
  // ---------------------------------------------------------------------

  /** Whether an operation fills slot `i`. */
  predicate Fills<T(!new)>(s: Slab<T>, op: Op<T>, i: U32)
    requires WellFormed(s)
  {
    match op
    case DoInsert(_) => s.free != [] && s.free[0] == i
    case DoInstall(key, _) => Promised(s, key) && key.index == i
    case _ => false
  }

  ghost function FillCount<T(!new)>(s: Slab<T>, ops: seq<Op<T>>, i: U32): nat
    requires WellFormed(s)
    decreases |ops|
  {
    if ops == [] then 0
    else
      StepKeeps(s, ops[0]);
      (if Fills(s, ops[0], i) then 1 else 0) + FillCount(Step(s, ops[0]), ops[1..], i)
  }

  /** A slot's turns grow by one with each fill and each emptying, which alternate. */
  lemma TurnStep<T(!new)>(s: Slab<T>, op: Op<T>, i: U32)
    requires WellFormed(s) && i < |s.cells|
    ensures WellFormed(Step(s, op)) && |Step(s, op).cells| == |s.cells|
    ensures var t, t' := s.cells[i].turns, Step(s, op).cells[i].turns;
            && t <= t' <= t + 1
            && (t' + 1) / 2 == (t + 1) / 2 + (if Fills(s, op, i) then 1 else 0)
  {
    StepKeeps(s, op);
    if s.free != [] {
      assert s.cells[s.free[0]].Vacant?;
    }
  }

  lemma {:induction false} TurnRun<T(!new)>(s: Slab<T>, ops: seq<Op<T>>, i: U32)
    requires WellFormed(s) && i < |s.cells|
    ensures s.cells[i].turns <= Run(s, ops).cells[i].turns
    ensures (Run(s, ops).cells[i].turns + 1) / 2 == (s.cells[i].turns + 1) / 2 + FillCount(s, ops, i)
    decreases |ops|
  {
    hide WellFormed, Step, Fills;
    if ops != [] {
      TurnStep(s, ops[0], i);
      TurnRun(Step(s, ops[0]), ops[1..], i);
    }
  }

  /**
   Once emptied, a key resolves again exactly when its slot is full and has been
   filled a positive multiple of 2^23 times since: never before the 2^23rd fill.
   */
  lemma ReuseIsExact<T(!new)>(s: Slab<T>, key: SlabKey, ops: seq<Op<T>>)
    requires WellFormed(s) && Lookup(s, key).Some?
    ensures WellFormed(Empty(s, key.index))
    ensures var after := Empty(s, key.index);
            var fills := FillCount(after, ops, key.index);
            var r := Run(after, ops);
            Lookup(r, key).Some? <==> r.cells[key.index].Full? && fills > 0 && fills % 0x80_0000 == 0
  {
    var i := key.index;
    var after := Empty(s, i);
    EmptyKeeps(s, i);
    TurnRun(after, ops, i);
    var t0, t := s.cells[i].turns, Run(after, ops).cells[i].turns;
    var fills := FillCount(after, ops, i);
    SameGeneration(t0, t);
    if Run(after, ops).cells[i].Full? {
      OddTurns(t0, t, fills);
    }
  }

  lemma OddTurns(t0: nat, t: nat, fills: nat)
    requires t0 % 2 == 1 && t % 2 == 1 && t0 < t && (t + 1) / 2 == (t0 + 2) / 2 + fills
    ensures fills > 0 && ((t - t0) % GENERATIONS == 0 <==> fills % 0x80_0000 == 0)
  {
    assert t - t0 == 2 * fills;
  }

  /** Slot `i` filled and emptied `n` times over. */
  function Churn<T>(i: U32, value: T, n: nat): seq<Op<T>> {
    if n == 0 then [] else [DoInsert(value)] + ([DoRemoveAt(i)] + Churn(i, value, n - 1))
  }

  lemma RunCons<T(!new)>(s: Slab<T>, op: Op<T>, rest: seq<Op<T>>, i: U32)
    requires WellFormed(s)
    ensures WellFormed(Step(s, op))
    ensures Run(s, [op] + rest) == Run(Step(s, op), rest)
    ensures FillCount(s, [op] + rest, i) == (if Fills(s, op, i) then 1 else 0) + FillCount(Step(s, op), rest, i)
  {
    StepKeeps(s, op);
    assert ([op] + rest)[1..] == rest;
  }

  /** The slab after a vacant slot was filled and emptied `n` times. */
  function Turned<T>(s: Slab<T>, i: U32, n: nat): Slab<T>
    requires i < |s.cells|
  {
    s.(cells := s.cells[i := Vacant(s.cells[i].turns + 2 * n)])
  }

  lemma TurnedSum<T>(s: Slab<T>, i: U32, n: nat)
    requires i < |s.cells| && s.cells[i].Vacant?
    ensures Turned(s, i, 0) == s
    ensures Turned(Turned(s, i, 1), i, n) == Turned(s, i, n + 1)
  {
    var cells := s.cells;
    assert cells[i := Vacant(cells[i].turns)] == cells;
    var once := cells[i := Vacant(cells[i].turns + 2)];
    assert once[i := Vacant(once[i].turns + 2 * n)] == cells[i := Vacant(cells[i].turns + 2 * (n + 1))];
  }

  lemma FillHead<T(!new)>(s: Slab<T>, i: U32, value: T)
    requires WellFormed(s) && s.free != [] && s.free[0] == i
    ensures i < |s.cells| && s.cells[i].Vacant? && Fills(s, DoInsert(value), i)
    ensures Step(s, DoInsert(value)) == Slab(s.cells[i := Full(s.cells[i].turns + 1, value)], s.free[1..])
  {
  }

  /** The head slot of the free list, filled and emptied once, is the head again. */
  lemma TurnTwice<T(!new)>(s: Slab<T>, i: U32, value: T)
    requires WellFormed(s) && s.free != [] && s.free[0] == i
    ensures i < |s.cells| && s.cells[i].Vacant?
    ensures WellFormed(Step(s, DoInsert(value))) && WellFormed(Turned(s, i, 1))
    ensures Fills(s, DoInsert(value), i) && !Fills(Step(s, DoInsert(value)), DoRemoveAt(i), i)
    ensures Step(Step(s, DoInsert(value)), DoRemoveAt(i)) == Turned(s, i, 1)
    ensures Turned(s, i, 1).free == s.free
  {
    hide WellFormed;
    FillHead(s, i, value);
    StepKeeps(s, DoInsert(value));
    StepKeeps(Step(s, DoInsert(value)), DoRemoveAt(i));
    var t := s.cells[i].turns;
    assert s.cells[i := Full(t + 1, value)][i := Vacant(t + 2)] == s.cells[i := Vacant(t + 2)];
    assert [i] + s.free[1..] == s.free;
  }

  lemma ChurnCons<T>(i: U32, value: T, n: nat, last: seq<Op<T>>)
    ensures Churn(i, value, 0) + last == last
    ensures Churn(i, value, n + 1) + last == [DoInsert(value)] + ([DoRemoveAt(i)] + (Churn(i, value, n) + last))
  {
  }

  lemma {:induction false} ChurnTurns<T(!new)>(s: Slab<T>, i: U32, value: T, n: nat, last: seq<Op<T>>)
    requires WellFormed(s) && s.free != [] && s.free[0] == i
    ensures i < |s.cells| && WellFormed(Turned(s, i, n))
    ensures Run(s, Churn(i, value, n) + last) == Run(Turned(s, i, n), last)
    ensures FillCount(s, Churn(i, value, n) + last, i) == n + FillCount(Turned(s, i, n), last, i)
    decreases n
  {
    hide *;
    TurnTwice(s, i, value);
    if n == 0 {
      TurnedSum(s, i, 0);
      ChurnCons(i, value, 0, last);
    } else {
      var rest := Churn(i, value, n - 1) + last;
      ChurnCons(i, value, n - 1, last);
      RunCons(s, DoInsert(value), [DoRemoveAt(i)] + rest, i);
      RunCons(Step(s, DoInsert(value)), DoRemoveAt(i), rest, i);
      ChurnTurns(Turned(s, i, 1), i, value, n - 1, last);
      TurnedSum(s, i, n - 1);
    }
  }

  /** The bound is reached: after 2^23 fills of its slot a removed key names a new value. */
  lemma ReuseHappens<T(!new)>(s: Slab<T>, key: SlabKey, value: T, n: nat)
    requires WellFormed(s) && Lookup(s, key).Some? && n + 1 == 0x80_0000
    ensures WellFormed(Empty(s, key.index))
    ensures var ops := Churn(key.index, value, n) + [DoInsert(value)];
            && FillCount(Empty(s, key.index), ops, key.index) == n + 1
            && Lookup(Run(Empty(s, key.index), ops), key) == Some(value)
  {
    var i := key.index;
    var after := Empty(s, i);
    EmptyKeeps(s, i);
    var last := [DoInsert(value)];
    ChurnTurns(after, i, value, n, last);
    RunCons(Turned(after, i, n), DoInsert(value), [], i);
    assert [DoInsert(value)] + [] == last;
    SameGeneration(s.cells[i].turns, s.cells[i].turns + GENERATIONS);
  }
}
