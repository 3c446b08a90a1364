/** The bump arena: aligned disjoint blocks from one buffer, and destructors run newest first. */
module Arena {
  import opened Basics
  import opened Bits
  import opened Revision

  const USIZE_MAX := 0xFFFF_FFFF_FFFF_FFFF
  const ISIZE_MAX := 0x7FFF_FFFF_FFFF_FFFF

  datatype Phase = Build | Frozen

  datatype ArenaError =
    | ZeroCapacity
    | InvalidAlignment(alignment: nat)
    | Exhausted(requested: nat, available: nat)
    | DropRegistryFull(capacity: nat)
    | WrongPhase(current: Phase)

  /** A size and a power-of-two alignment whose padded size stays below `isize::MAX`. */
  predicate IsLayout(size: nat, align: nat) {
    IsPow2(align) && size + align - 1 <= ISIZE_MAX
  }

  // ---------------------------------------------------------------------
  // Mask arithmetic
  // ---------------------------------------------------------------------

  /** A mask and its complement split a word. */
  lemma {:induction false} AndSplit(x: nat, m: nat, w: nat)
    requires x < Shl(1, w) && m < Shl(1, w)
    ensures And(x, m) + And(x, Shl(1, w) - 1 - m) == x
  {
    if w > 0 {
      var h := Shl(1, w - 1);
      AndSplit(x / 2, m / 2, w - 1);
      assert (Shl(1, w) - 1 - m) / 2 == h - 1 - m / 2;
    }
  }

  lemma Word64()
    ensures Shl(1, 64) == USIZE_MAX + 1
  {
    Shift32(1);
    Shift32(0x1_0000_0000);
    ShlAdd(1, 32, 32);
  }

  /** `(addr + align - 1) & !(align - 1)`. */
  function AlignUp(addr: nat, align: nat): nat
    requires 0 < align <= USIZE_MAX
  {
    And(addr + align - 1, USIZE_MAX - (align - 1))
  }

  /** The least multiple of the alignment not below the address, wherever the sum does not overflow. */
  lemma AlignUpIsLeast(addr: nat, align: nat)
    requires IsPow2(align) && align <= USIZE_MAX && addr + align - 1 <= USIZE_MAX
    ensures var r := AlignUp(addr, align);
            addr <= r < addr + align && r % align == 0 && forall k: nat | addr <= k && k % align == 0 :: r <= k
  {
    hide And;
    var x, r := addr + align - 1, AlignUp(addr, align);
    Word64();
    AndSplit(x, align - 1, 64);
    AndMask(x, align);
    DivMod(x, align);
    ModUnique(r, align, x / align, 0);
    forall k: nat | addr <= k && k % align == 0 ensures r <= k {
      LeastMultiple(x, align, k);
    }
  }

  lemma {:induction false} MulLe(n: nat, a: nat, b: nat)
    requires a <= b
    ensures n * a <= n * b
  {
    Distribute(n, a, b - a);
  }

  lemma MulCancel(n: nat, a: nat, b: nat)
    requires n * a < n * b
    ensures a < b
  {
    if b <= a {
      MulLe(n, b, a);
      assert false;
    }
  }

  lemma LeastMultiple(x: nat, n: nat, k: nat)
    requires n > 0 && k % n == 0 && k + n > x
    ensures x - x % n <= k
  {
    DivMod(x, n);
    DivMod(k, n);
    Distribute(n, k / n, 1);
    MulCancel(n, x / n, k / n + 1);
    MulLe(n, x / n, k / n);
  }

  /** A layout is a size that, rounded up to its alignment, does not exceed `isize::MAX`. */
  lemma LayoutRounds(size: nat, align: nat)
    requires IsPow2(align) && align <= ISIZE_MAX + 1 && size <= ISIZE_MAX + 1
    ensures IsLayout(size, align) <==> AlignUp(size, align) <= ISIZE_MAX
  {
    hide IsPow2, AlignUp;
    AlignUpIsLeast(size, align);
    TopMultiple(align, AlignUp(size, align));
  }

  /** The last multiple of an alignment below the top of the range, and that no other lies above it. */
  lemma TopMultiple(align: nat, r: nat)
    requires IsPow2(align) && align <= ISIZE_MAX + 1 && r % align == 0
    ensures (ISIZE_MAX + 1 - align) % align == 0
    ensures r <= ISIZE_MAX ==> r + align <= ISIZE_MAX + 1
  {
    HalfWord();
    var q := Pow2Divides(align, ISIZE_MAX + 1);
    hide IsPow2;
    StepDown(align, q);
    if r <= ISIZE_MAX {
      MultipleBelow(align, q, r);
    }
  }

  lemma StepDown(n: nat, q: nat)
    requires n > 0 && n * q >= n
    ensures (n * q - n) % n == 0
  {
    if q > 0 {
      Distribute(n, q - 1, 1);
      ModUnique(n * q - n, n, q - 1, 0);
    }
  }

  lemma HalfWord()
    ensures IsPow2(ISIZE_MAX + 1)
  {
    Word64();
    Pow2Shl(63);
    assert Shl(1, 64) == 2 * Shl(1, 63);
  }

  /** A multiple below a larger multiple is a whole step below it. */
  lemma MultipleBelow(n: nat, q: nat, r: nat)
    requires n > 0 && r % n == 0 && r < n * q
    ensures r + n <= n * q
  {
    DivMod(r, n);
    MulCancel(n, r / n, q);
    Distribute(n, r / n, 1);
    MulLe(n, r / n + 1, q);
  }

  // ---------------------------------------------------------------------
  // Blocks
  // ---------------------------------------------------------------------

  datatype Block = Block(offset: nat, size: nat, align: nat)

  function EndOf(b: Block): nat {
    b.offset + b.size
  }

  /** The blocks follow one another below the cursor, each on its alignment. */
  ghost predicate Laid(blocks: seq<Block>, cursor: nat) {
    && (forall k | 0 <= k < |blocks| :: EndOf(blocks[k]) <= cursor)
    && (forall j, k | 0 <= j < k < |blocks| :: EndOf(blocks[j]) <= blocks[k].offset)
    && (forall k | 0 <= k < |blocks| :: blocks[k].align > 0 && blocks[k].offset % blocks[k].align == 0)
  }

  lemma NoneLaid()
    ensures Laid([], 0)
  {
  }

  /** No byte belongs to two blocks. */
  lemma BlocksDisjoint(blocks: seq<Block>, cursor: nat, j: nat, k: nat, x: nat)
    requires Laid(blocks, cursor) && j < |blocks| && k < |blocks| && j != k
    ensures !(blocks[j].offset <= x < EndOf(blocks[j]) && blocks[k].offset <= x < EndOf(blocks[k]))
  {
    if j < k {
      assert EndOf(blocks[j]) <= blocks[k].offset;
    } else {
      assert EndOf(blocks[k]) <= blocks[j].offset;
    }
  }

  lemma LaidGrows(blocks: seq<Block>, cursor: nat, b: Block)
    requires Laid(blocks, cursor) && cursor <= b.offset && b.align > 0 && b.offset % b.align == 0
    ensures Laid(blocks + [b], EndOf(b))
  {
    var grown := blocks + [b];
    forall k | 0 <= k < |grown| ensures EndOf(grown[k]) <= EndOf(b) {
      assert k < |blocks| ==> grown[k] == blocks[k];
    }
    forall j, k | 0 <= j < k < |grown| ensures EndOf(grown[j]) <= grown[k].offset {
      assert grown[j] == blocks[j];
    }
  }

  lemma AlignedSum(a: nat, b: nat, n: nat)
    requires n > 0 && a % n == 0 && b % n == 0
    ensures (a + b) % n == 0
  {
    DivMod(a, n);
    DivMod(b, n);
    Distribute(n, a / n, b / n);
    ModUnique(a + b, n, a / n + b / n, 0);
  }

  /** An aligned offset in an aligned buffer is an aligned address. */
  lemma AddressAligned(base: nat, alignment: nat, offset: nat, align: nat)
    requires IsPow2(align) && IsPow2(alignment) && align <= alignment && base % alignment == 0 && offset % align == 0
    ensures (base + offset) % align == 0
  {
    assert align > 0;
    hide IsPow2;
    ModMod(base, align, alignment);
    AlignedSum(base, offset, align);
  }

  // ---------------------------------------------------------------------
  // Destructors
  // ---------------------------------------------------------------------

  /** A registered destructor: the value's place and which destructor it is. */
  datatype DropEntry = DropEntry(offset: nat, dropFn: nat)

  function Reversed(q: seq<DropEntry>): (r: seq<DropEntry>)
    ensures |r| == |q|
  {
    if q == [] then [] else [q[|q| - 1]] + Reversed(q[..|q| - 1])
  }

  lemma {:induction false} ReversedAt(q: seq<DropEntry>, k: nat)
    requires k < |q|
    ensures Reversed(q)[k] == q[|q| - 1 - k]
    decreases |q|
  {
    if k > 0 {
      ReversedAt(q[..|q| - 1], k - 1);
    }
  }

  lemma NewestFirst(before: seq<DropEntry>, q: seq<DropEntry>, after: seq<DropEntry>)
    requires after == before + Reversed(q)
    ensures forall i | |before| <= i < |after| :: after[i] == q[|after| - 1 - i]
  {
    hide Reversed;
    forall i | |before| <= i < |after| ensures after[i] == q[|after| - 1 - i] {
      ReversedAt(q, i - |before|);
    }
  }

  class BumpAllocator {
    /** The buffer's address. */
    const base: nat
    const capacity: nat
    const alignment: nat
    var cursor: nat
    var drops: seq<DropEntry>
    const dropCapacity: nat
    var phase: Phase
    var generation: Generation
    /** The blocks handed out since the last reset. */
    ghost var blocks: seq<Block>
    /** Every destructor ever registered, and those that have run, in order. */
    ghost var registered: seq<DropEntry>
    ghost var ran: seq<DropEntry>

    ghost predicate Valid()
      reads this
    {
      && capacity > 0 && IsLayout(capacity, alignment) && base % alignment == 0
      && cursor <= capacity && Laid(blocks, cursor) && Aligned(blocks)
      && |drops| <= dropCapacity
      && multiset(registered) == multiset(ran) + multiset(drops)
    }

    /** Every block's address is a multiple of its alignment. */
    ghost predicate Aligned(q: seq<Block>)
    {
      forall k | 0 <= k < |q| :: q[k].align > 0 && (base + q[k].offset) % q[k].align == 0
    }

    constructor Make(bytes: nat, dropSlots: nat, alignment: nat, base: nat)
      requires bytes > 0 && IsLayout(bytes, alignment) && base % alignment == 0
      ensures Valid() && blocks == [] && registered == [] && ran == [] && phase == Build && cursor == 0
      ensures capacity == bytes && this.alignment == alignment && dropCapacity == dropSlots && generation == 0
    {
      this.base, capacity, this.alignment, cursor := base, bytes, alignment, 0;
      drops, dropCapacity, phase, generation := [], dropSlots, Build, 0;
      blocks, registered, ran := [], [], [];
    }

    /** `base` is what the system allocator returns for the layout. */
    static method FromBuilder(bytes: nat, dropSlots: nat, alignment: nat, base: nat)
      returns (r: Result<BumpAllocator, ArenaError>)
      requires alignment > 0 ==> base % alignment == 0
      ensures bytes == 0 ==> r == Err(ZeroCapacity)
      ensures bytes > 0 && !IsPow2(alignment) ==> r == Err(InvalidAlignment(alignment))
      ensures bytes > 0 && IsPow2(alignment) && !IsLayout(bytes, alignment) ==> r == Err(Exhausted(bytes, 0))
      ensures bytes > 0 && IsLayout(bytes, alignment) ==>
                r.Ok? && fresh(r.value) && r.value.Valid() && r.value.capacity == bytes && r.value.blocks == []
    {
      if bytes == 0 {
        return Err(ZeroCapacity);
      }
      if !IsPow2(alignment) {
        return Err(InvalidAlignment(alignment));
      }
      if !IsLayout(bytes, alignment) {
        return Err(Exhausted(bytes, 0));
      }
      var arena := new BumpAllocator.Make(bytes, dropSlots, alignment, base);
      return Ok(arena);
    }

    /** The alignment arithmetic of a request that fits the arena's alignment never overflows. */
    lemma RoundsUp(align: nat)
      requires Valid() && IsPow2(align) && align <= alignment
      ensures align <= USIZE_MAX
      ensures var a := AlignUp(cursor, align);
              && cursor <= a < cursor + align && a % align == 0 && (base + a) % align == 0
              && forall k: nat | cursor <= k && k % align == 0 :: a <= k
    {
      hide AlignUp, IsPow2, Laid;
      AlignUpIsLeast(cursor, align);
      AddressAligned(base, alignment, AlignUp(cursor, align), align);
    }

    /** The first fitting offset, or why there is none. */
    ghost function Place(size: nat, align: nat): Result<nat, ArenaError>
      reads this
      requires Valid() && IsLayout(size, align)
    {
      if phase != Build then Err(WrongPhase(phase))
      else if align > alignment then Err(Exhausted(size + align, capacity - cursor))
      else
        RoundsUp(align);
        var a := AlignUp(cursor, align);
        if a + size <= capacity then Ok(a) else Err(Exhausted(a + size - cursor, capacity - cursor))
    }

    /** The request would fit at this offset, clear of everything handed out. */
    ghost predicate Fits(o: nat, size: nat, align: nat)
      reads this
      requires align > 0
    {
      cursor <= o && o % align == 0 && o + size <= capacity
    }

    /** While building, a request is placed exactly when it fits somewhere, and at the least offset where it fits. */
    lemma PlaceExact(size: nat, align: nat)
      requires Valid() && IsLayout(size, align)
      ensures var r := Place(size, align);
              && (r == Err(WrongPhase(phase)) <==> phase != Build)
              && (phase == Build && align > alignment ==> r == Err(Exhausted(size + align, capacity - cursor)))
              && (phase == Build && align <= alignment ==>
                    && (r.Ok? <==> exists o: nat :: Fits(o, size, align))
                    && (r.Ok? ==> Fits(r.value, size, align) && forall o: nat | Fits(o, size, align) :: r.value <= o)
                    && (r.Err? ==> r.error.Exhausted? && r.error.requested > r.error.available == capacity - cursor))
    {
      hide IsPow2, AlignUp, Laid;
      if phase == Build && align <= alignment {
        RoundsUp(align);
        var a := AlignUp(cursor, align);
        assert a + size <= capacity ==> Fits(a, size, align);
      }
    }

    method AllocRaw(size: nat, align: nat) returns (r: Result<nat, ArenaError>)
      requires Valid() && IsLayout(size, align)
      modifies this`cursor, this`blocks
      ensures Valid() && r == old(Place(size, align))
      ensures r.Err? ==> cursor == old(cursor) && blocks == old(blocks)
      ensures r.Ok? ==> blocks == old(blocks) + [Block(r.value, size, align)] && cursor == r.value + size
    {
      hide IsPow2, AlignUp, Laid;
      if phase != Build {
        return Err(WrongPhase(phase));
      }
      if align > alignment {
        return Err(Exhausted(size + align, capacity - cursor));
      }
      RoundsUp(align);
      var aligned := AlignUp(cursor, align);
      if aligned + size > USIZE_MAX {
        assert false;
      }
      var newCursor := aligned + size;
      if newCursor > capacity {
        return Err(Exhausted(newCursor - cursor, capacity - cursor));
      }
      LaidGrows(blocks, cursor, Block(aligned, size, align));
      cursor := newCursor;
      blocks := blocks + [Block(aligned, size, align)];
      return Ok(aligned);
    }

    /** A value with a destructor: the registry is consulted before the phase. */
    method AllocWithDrop(size: nat, align: nat, dropFn: nat) returns (r: Result<nat, ArenaError>)
      requires Valid() && IsLayout(size, align)
      modifies this`cursor, this`blocks, this`drops, this`registered
      ensures Valid()
      ensures r == if |old(drops)| >= dropCapacity then Err(DropRegistryFull(dropCapacity)) else old(Place(size, align))
      ensures r.Err? ==>
                cursor == old(cursor) && blocks == old(blocks) && drops == old(drops) && registered == old(registered)
      ensures r.Ok? ==> blocks == old(blocks) + [Block(r.value, size, align)]
      ensures r.Ok? ==> drops == old(drops) + [DropEntry(r.value, dropFn)]
                        && registered == old(registered) + [DropEntry(r.value, dropFn)]
    {
      hide IsPow2, Laid;
      if |drops| >= dropCapacity {
        return Err(DropRegistryFull(dropCapacity));
      }
      r := AllocRaw(size, align);
      if r.Ok? {
        drops := drops + [DropEntry(r.value, dropFn)];
        registered := registered + [DropEntry(r.value, dropFn)];
      }
    }

    /** A slice of `count` elements; the size is computed before anything else is looked at. */
    method AllocSlice(elem: nat, align: nat, count: nat) returns (r: Result<nat, ArenaError>)
      requires Valid() && IsPow2(align)
      modifies this`cursor, this`blocks
      ensures Valid()
      ensures var bytes := elem * count;
              r == if bytes > USIZE_MAX then Err(Exhausted(USIZE_MAX, capacity - old(cursor)))
                   else if !IsLayout(bytes, align) then Err(Exhausted(bytes, capacity - old(cursor)))
                   else old(Place(bytes, align))
      ensures r.Err? ==> cursor == old(cursor) && blocks == old(blocks)
      ensures r.Ok? ==> blocks == old(blocks) + [Block(r.value, elem * count, align)]
    {
      hide IsPow2, Laid;
      var bytes := elem * count;
      if bytes > USIZE_MAX {
        return Err(Exhausted(USIZE_MAX, capacity - cursor));
      }
      if !IsLayout(bytes, align) {
        return Err(Exhausted(bytes, capacity - cursor));
      }
      r := AllocRaw(bytes, align);
    }

    method Freeze()
      requires Valid()
      modifies this`phase
      ensures Valid() && phase == Frozen
      ensures forall size: nat, align: nat | IsLayout(size, align) :: Place(size, align) == Err(WrongPhase(Frozen))
    {
      phase := Frozen;
    }

    /** Runs the registered destructors, newest first, leaving none. */
    method RunDrops()
      requires Valid()
      modifies this`drops, this`ran
      ensures Valid() && drops == [] && ran == old(ran) + Reversed(old(drops))
      ensures forall i | |old(ran)| <= i < |ran| :: ran[i] == old(drops)[|ran| - 1 - i]
    {
      hide IsPow2, Laid;
      ghost var was := drops;
      while drops != []
        invariant Valid() && ran + Reversed(drops) == old(ran) + Reversed(old(drops))
        decreases |drops|
      {
        var entry := drops[|drops| - 1];
        assert drops == drops[..|drops| - 1] + [entry];
        assert ran + Reversed(drops) == (ran + [entry]) + Reversed(drops[..|drops| - 1]);
        drops := drops[..|drops| - 1];
        ran := ran + [entry];
      }
      assert ran == old(ran) + Reversed(was);
      NewestFirst(old(ran), was, ran);
    }

    /** Every block is reclaimed, in any phase. */
    method Reset()
      requires Valid()
      modifies this`drops, this`ran, this`cursor, this`phase, this`generation, this`blocks
      ensures Valid() && phase == Build && cursor == 0 && blocks == [] && drops == []
      ensures ran == old(ran) + Reversed(old(drops))
      ensures generation == NextGen(old(generation))
    {
      NoneLaid();
      hide IsPow2, Reversed, Laid;
      RunDrops();
      cursor := 0;
      phase := Build;
      generation := NextGen(generation);
      blocks := [];
    }

    /** At the end of its life the arena has run every destructor it ever registered, each once. */
    method Drop()
      requires Valid()
      modifies this`drops, this`ran
      ensures multiset(ran) == multiset(registered) && ran == old(ran) + Reversed(old(drops))
      ensures forall i | |old(ran)| <= i < |ran| :: ran[i] == old(drops)[|ran| - 1 - i]
    {
      RunDrops();
    }
  }
}
