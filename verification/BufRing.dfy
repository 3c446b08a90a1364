/** The provided-buffer ring: ids offered to the kernel, in order, through a power-of-two ring. */
module BufRing {
  import opened Basics
  import opened Bits
  import opened Bytes
  import opened Words
  import opened RecvProtocol

  datatype RingEntry = RingEntry(addr: U64, len: U32, bid: U16)

  datatype ParamError = ZeroBufSize | EntriesNotPow2 | TooManyEntries

  function CheckParams(entries: U16, bufSize: U32): Result<(), ParamError> {
    if bufSize == 0 then Err(ZeroBufSize)
    else if entries == 0 || !IsPow2(entries) then Err(EntriesNotPow2)
    else if entries > 0x8000 then Err(TooManyEntries)
    else Ok(())
  }

  /** Every power of two is a shifted one. */
  lemma {:induction false} Pow2IsShift(n: nat) returns (k: nat)
    requires IsPow2(n)
    ensures n == Shl(1, k)
  {
    if n == 1 {
      k := 0;
    } else {
      k := Pow2IsShift(n / 2);
      k := k + 1;
    }
  }

  lemma {:induction false} ShlGrows(x: nat, k: nat)
    ensures Shl(x, k) >= x
  {
    if k > 0 {
      ShlGrows(x, k - 1);
    }
  }

  /** A `u16` shifted one is shifted by at most 15. */
  lemma ShiftInWord(k: nat)
    ensures Shl(1, k) < 0x1_0000 <==> k <= 15
  {
    Shift16(1);
    if k >= 16 {
      ShlAdd(1, 16, k - 16);
      ShlGrows(0x1_0000, k - 16);
    } else {
      ShlAdd(1, k, 16 - k);
      ShlDoubles(Shl(1, k), 16 - k);
    }
  }

  lemma ShlDoubles(x: nat, k: nat)
    requires k > 0 && x > 0
    ensures Shl(x, k) > x
  {
    ShlGrows(x, k - 1);
  }

  /** One, two, four and so on up to 2^15. */
  ghost predicate PoolEntries(entries: U16) {
    exists k: nat | k <= 15 :: entries == Shl(1, k)
  }

  /** Which pools are built, and what each refusal means; the limit on entries alone is never the reason. */
  lemma ParamsExact(entries: U16, bufSize: U32)
    ensures CheckParams(entries, bufSize).Ok? <==> bufSize > 0 && PoolEntries(entries)
    ensures CheckParams(entries, bufSize) == Err(ZeroBufSize) <==> bufSize == 0
    ensures CheckParams(entries, bufSize) == Err(EntriesNotPow2) <==> bufSize > 0 && !PoolEntries(entries)
    ensures CheckParams(entries, bufSize) != Err(TooManyEntries)
  {
    if IsPow2(entries) {
      var k := Pow2IsShift(entries);
      ShiftInWord(k);
      ShlToTop(k);
    }
    if k: nat :| k <= 15 && entries == Shl(1, k) {
      Pow2Shl(k);
    }
    hide IsPow2, Shl;
  }

  lemma ShlToTop(k: nat)
    requires k <= 15
    ensures Shl(1, k) <= 0x8000
  {
    Shift16(1);
    ShlAdd(1, k, 15 - k);
    ShlGrows(Shl(1, k), 15 - k);
    ShlAdd(1, 15, 1);
  }

  // ---------------------------------------------------------------------
  // What offering an id does to the ids the kernel has yet to pick
  // ---------------------------------------------------------------------

  /** The new id lands at the end, and on every unread position that shares its ring slot. */
  function Offer(avail: seq<U16>, n: nat, bid: U16): (r: seq<U16>)
    requires n > 0
    ensures |r| == |avail| + 1
  {
    seq(|avail| + 1, k requires 0 <= k <= |avail| => if (|avail| - k) % n == 0 then bid else avail[k])
  }

  function OfferAll(avail: seq<U16>, n: nat, ids: seq<U16>): seq<U16>
    requires n > 0
    decreases |ids|
  {
    if ids == [] then avail else OfferAll(Offer(avail, n, ids[0]), n, ids[1..])
  }

  lemma OfferOne(avail: seq<U16>, n: nat, bid: U16)
    requires n > 0
    ensures OfferAll(avail, n, [bid]) == Offer(avail, n, bid)
  {
    assert OfferAll(Offer(avail, n, bid), n, [bid][1..]) == Offer(avail, n, bid);
  }

  lemma OfferRoom(avail: seq<U16>, n: nat, bid: U16)
    requires |avail| < n
    ensures Offer(avail, n, bid) == avail + [bid]
  {
  }

  /** A full ring loses its oldest id and offers the new one twice. */
  lemma OfferOverfull(avail: seq<U16>, bid: U16)
    requires |avail| > 0
    ensures Offer(avail, |avail|, bid) == [bid] + avail[1..] + [bid]
  {
  }

  /** Offering appends exactly when the ring has room for every id. */
  lemma {:induction false} OfferAllRoom(avail: seq<U16>, n: nat, ids: seq<U16>)
    requires n > 0 && |avail| + |ids| <= n
    ensures OfferAll(avail, n, ids) == avail + ids
    decreases |ids|
  {
    if ids == [] {
      assert avail + ids == avail;
    } else {
      OfferRoom(avail, n, ids[0]);
      OfferAllRoom(avail + [ids[0]], n, ids[1..]);
      assert avail + [ids[0]] + ids[1..] == avail + ids;
    }
  }

  // ---------------------------------------------------------------------
  // Index arithmetic
  // ---------------------------------------------------------------------

  lemma SameSlot(a: nat, d: nat, n: nat)
    requires n > 0
    ensures (a + d) % n == a % n <==> d % n == 0
  {
    DivMod(a, n);
    DivMod(d, n);
    var s := a % n + d % n;
    Distribute(n, a / n, d / n);
    if s < n {
      ModUnique(a + d, n, a / n + d / n, s);
    } else {
      Distribute(n, a / n + d / n, 1);
      ModUnique(a + d, n, a / n + d / n + 1, s - n);
    }
  }

  /** The ring slot of the `j`-th push. */
  function SlotAt(j: nat, n: nat): (r: nat)
    requires n > 0
    ensures r < n
  {
    j % n
  }

  /** The ring spells the unread ids, each as its entry in the table. */
  ghost predicate Holds(ring: seq<RingEntry>, table: seq<RingEntry>, picked: nat, avail: seq<U16>) {
    && |ring| > 0
    && forall k | 0 <= k < |avail| :: avail[k] < |table| && ring[SlotAt(picked + k, |ring|)] == table[avail[k]]
  }

  lemma PushHolds(ring: seq<RingEntry>, table: seq<RingEntry>, picked: nat, avail: seq<U16>, bid: U16)
    requires Holds(ring, table, picked, avail) && bid < |table|
    ensures Holds(ring[SlotAt(picked + |avail|, |ring|) := table[bid]], table, picked, Offer(avail, |ring|, bid))
  {
    var n := |ring|;
    var p := SlotAt(picked + |avail|, n);
    var ring', avail' := ring[p := table[bid]], Offer(avail, n, bid);
    forall k | 0 <= k < |avail'| ensures avail'[k] < |table| && ring'[SlotAt(picked + k, n)] == table[avail'[k]] {
      SameSlot(picked + k, |avail| - k, n);
    }
  }

  lemma PickHolds(ring: seq<RingEntry>, table: seq<RingEntry>, picked: nat, avail: seq<U16>)
    requires Holds(ring, table, picked, avail) && avail != []
    ensures ring[SlotAt(picked, |ring|)] == table[avail[0]] && Holds(ring, table, picked + 1, avail[1..])
  {
    assert picked + 0 == picked;
    forall k | 0 <= k < |avail| - 1
      ensures avail[1..][k] < |table| && ring[SlotAt(picked + 1 + k, |ring|)] == table[avail[1..][k]]
    {
      assert picked + 1 + k == picked + (k + 1) && avail[1..][k] == avail[k + 1];
    }
  }

  /** A masked 16-bit counter names the ring slot of the unbounded one. */
  lemma MaskedSlot(j: nat, n: nat)
    requires IsPow2(n) && n <= 0x8000
    ensures And(Counter(j), n - 1) == SlotAt(j, n)
  {
    CounterMod(j);
    Pow2Sizes();
    AndMask(j % 0x1_0000, n);
    ModMod(j, n, 0x1_0000);
  }

  lemma InRange(bid: nat, n: nat, size: nat)
    requires bid < n
    ensures 0 <= bid * size && bid * size + size <= n * size
  {
    assert n * size == (bid + 1) * size + (n - bid - 1) * size;
    assert (n - bid - 1) * size >= 0;
  }

  /** Distinct ids name disjoint stretches of the storage. */
  lemma RegionsDisjoint(a: nat, b: nat, n: nat, size: nat)
    requires a < n && b < n && a != b
    ensures a * size + size <= n * size
    ensures a * size + size <= b * size || b * size + size <= a * size
  {
    InRange(a, n, size);
    if a < b {
      InRange(a, b, size);
    } else {
      InRange(b, a, size);
    }
  }

  class BufRingPool {
    const ring: array<RingEntry>
    var tail: U16
    /** The kernel's own read counter. */
    var head: U16
    const base: U64
    const bufSize: U32
    const entries: U16
    /** How many ids the kernel has picked so far. */
    ghost var picked: nat
    /** The ids offered and not yet picked, oldest first. */
    ghost var avail: seq<U16>

    ghost predicate Sized() {
      && ring.Length == entries && CheckParams(entries, bufSize).Ok?
      && base + entries * bufSize < 0x1_0000_0000_0000_0000
    }

    function EntryFor(bid: U16): RingEntry
      requires Sized() && bid < entries
    {
      InRange(bid, entries, bufSize);
      RingEntry(base + bid * bufSize, bufSize, bid)
    }

    /** Where `get` reads a buffer in the storage. */
    function Offset(bid: U16): nat {
      bid * bufSize
    }

    /** The entry offers the kernel exactly the stretch of storage `get` reads for its id. */
    predicate Backs(e: RingEntry) {
      && e.bid < entries && e.len == bufSize && e.addr == base + Offset(e.bid)
      && e.addr + e.len <= base + entries * bufSize
    }

    lemma EntryBacks(bid: U16)
      requires Sized() && bid < entries
      ensures Backs(EntryFor(bid)) && EntryFor(bid).bid == bid
    {
      InRange(bid, entries, bufSize);
    }

    /** Two entries of different ids never offer the kernel a common byte. */
    lemma EntriesDisjoint(e: RingEntry, f: RingEntry)
      requires Sized() && Backs(e) && Backs(f) && e.bid != f.bid
      ensures e.addr + e.len <= f.addr || f.addr + f.len <= e.addr
    {
      RegionsDisjoint(e.bid, f.bid, entries, bufSize);
    }

    /** The slice of the storage a completion names; the source panics outside these bounds. */
    method Get(storage: seq<U8>, bid: U16, len: U32) returns (view: seq<U8>)
      requires Sized() && |storage| == entries * bufSize && bid < entries && len <= bufSize
      ensures Offset(bid) + len <= |storage| && view == storage[Offset(bid)..Offset(bid) + len]
    {
      InRange(bid, entries, bufSize);
      var offset := bid * bufSize;
      view := storage[offset..offset + len];
    }

    /** What the kernel receives into an entry is what `get` reads for its id, and no other id sees it. */
    lemma ReceivedIsRead(storage: seq<U8>, e: RingEntry, data: seq<U8>, other: U16)
      requires Sized() && |storage| == entries * bufSize && Backs(e) && |data| <= e.len
      requires other < entries && other != e.bid
      ensures Offset(e.bid) + bufSize <= |storage| && Offset(other) + bufSize <= |storage|
      ensures var after := Put(storage, e.addr - base, data);
              && after[Offset(e.bid)..Offset(e.bid) + |data|] == data
              && after[Offset(other)..Offset(other) + bufSize] == storage[Offset(other)..Offset(other) + bufSize]
    {
      InRange(e.bid, entries, bufSize);
      InRange(other, entries, bufSize);
      RegionsDisjoint(e.bid, other, entries, bufSize);
    }

    ghost function Table(): (t: seq<RingEntry>)
      requires Sized()
      ensures |t| == entries
    {
      seq(entries, b requires 0 <= b < entries => EntryFor(b))
    }

    ghost predicate Valid()
      reads this, ring
    {
      && Sized()
      && tail == Counter(picked + |avail|) && head == Counter(picked)
      && Holds(ring[..], Table(), picked, avail)
    }

    constructor Empty(entries: U16, bufSize: U32, base: U64)
      requires CheckParams(entries, bufSize).Ok? && base + entries * bufSize < 0x1_0000_0000_0000_0000
      ensures Valid() && fresh(ring) && avail == [] && picked == 0 && this.entries == entries
      ensures this.bufSize == bufSize && this.base == base
    {
      ring := new RingEntry[entries](_ => RingEntry(0, 0, 0));
      tail, head := 0, 0;
      this.entries, this.bufSize, this.base := entries, bufSize, base;
      picked, avail := 0, [];
    }

    /** A pool of `entries` buffers offers every id once, in order. */
    static method New(entries: U16, bufSize: U32, base: U64) returns (r: Result<BufRingPool, ParamError>)
      requires base + entries * bufSize < 0x1_0000_0000_0000_0000
      ensures r.Err? <==> CheckParams(entries, bufSize).Err?
      ensures r.Err? ==> r.error == CheckParams(entries, bufSize).error
      ensures r.Ok? ==> fresh(r.value) && fresh(r.value.ring) && r.value.Valid() && r.value.entries == entries <= 0x8000
                        && r.value.avail == FirstIds(entries)
                        && r.value.bufSize == bufSize && r.value.base == base
    {
      var ok := CheckParams(entries, bufSize);
      if ok.Err? {
        return Err(ok.error);
      }
      var pool := new BufRingPool.Empty(entries, bufSize, base);
      var bid := 0;
      while bid < entries
        invariant 0 <= bid <= entries && pool.entries == entries && pool.Valid()
        invariant pool.bufSize == bufSize && pool.base == base
        invariant |pool.avail| == bid && forall k | 0 <= k < bid :: pool.avail[k] == k
        invariant fresh(pool) && fresh(pool.ring)
      {
        OfferRoom(pool.avail, entries, bid);
        pool.Recycle(bid);
        bid := bid + 1;
      }
      return Ok(pool);
    }

    /** Returns a buffer to the ring. */
    method Recycle(bid: U16)
      requires Valid() && bid < entries
      modifies ring, this`tail, this`avail
      ensures Valid() && avail == Offer(old(avail), entries, bid) && tail == Bump16(old(tail))
      ensures And(old(tail), entries - 1) < ring.Length
      ensures var e := ring[And(old(tail), entries - 1)]; Backs(e) && e.bid == bid
    {
      EntryBacks(bid);
      Push(EntryFor(bid));
    }

    method Push(e: RingEntry)
      requires Valid() && e.bid < entries && e == EntryFor(e.bid)
      modifies ring, this`tail, this`avail
      ensures Valid() && avail == Offer(old(avail), entries, e.bid) && tail == Bump16(old(tail))
      ensures And(old(tail), entries - 1) < ring.Length && ring[And(old(tail), entries - 1)] == e
    {
      ghost var before := ring[..];
      MaskedSlot(picked + |avail|, entries);
      var idx := And(tail, entries - 1);
      ring[idx] := e;
      assert ring[..] == before[idx := Table()[e.bid]];
      PushHolds(before, Table(), picked, avail, e.bid);
      tail := Bump16(tail);
      avail := Offer(avail, entries, e.bid);
    }

    /** The kernel picks the oldest offered buffer; `None` when there is none. */
    method Pick() returns (e: Option<RingEntry>)
      requires Valid() && |avail| <= entries
      modifies this`head, this`avail, this`picked
      ensures Valid()
      ensures old(avail) == [] ==> e == None && avail == [] && picked == old(picked)
      ensures old(avail) != [] ==>
                e == Some(EntryFor(old(avail)[0])) && avail == old(avail)[1..] && picked == old(picked) + 1
      ensures e.Some? ==> Backs(e.value) && e.value.bid == old(avail)[0]
    {
      if avail != [] {
        CountersDiffer(picked, |avail|);
      }
      if head == tail {
        return None;
      }
      MaskedSlot(picked, entries);
      PickHolds(ring[..], Table(), picked, avail);
      EntryBacks(avail[0]);
      e := Some(ring[And(head, entries - 1)]);
      head := Bump16(head);
      picked, avail := picked + 1, avail[1..];
    }
  }

  /** `wrapping_add(1)` on a `u16`. */
  function Bump16(x: U16): U16 {
    if x == 0xFFFF then 0 else x + 1
  }

  /** The 16-bit image of an unbounded counter. */
  function Counter(p: nat): U16 {
    if p == 0 then 0 else Bump16(Counter(p - 1))
  }

  lemma {:induction false} CounterMod(p: nat)
    ensures Counter(p) == p % 0x1_0000
  {
    if p > 0 {
      CounterMod(p - 1);
    }
  }

  lemma CountersDiffer(p: nat, d: nat)
    requires 0 < d <= 0x8000
    ensures Counter(p + d) != Counter(p)
  {
    CounterMod(p);
    CounterMod(p + d);
  }
}
