/** The worker's use of the recv registry and the buffer pool: completions, cancels and stream polls. */
module RecvDrain {
  import opened Basics
  import opened Words
  import opened RecvRegistry
  import opened RecvSlab
  import opened Token
  import opened BufRing

  /** The driver's pool, when it has one. */
  ghost function Footprint(pool: BufRingPool?): set<object> {
    if pool == null then {} else {pool, pool.ring}
  }

  ghost predicate Ready(pool: BufRingPool?)
    reads Footprint(pool)
  {
    pool != null ==> pool.Valid()
  }

  ghost function Avail(pool: BufRingPool?): seq<U16>
    reads Footprint(pool)
  {
    if pool == null then [] else pool.avail
  }

  /** What the kernel can pick after `ids` were recycled; without a pool they are dropped. */
  ghost function After(pool: BufRingPool?, avail: seq<U16>, ids: seq<U16>): seq<U16>
    requires pool != null ==> pool.entries > 0
  {
    if pool == null then avail else OfferAll(avail, pool.entries, ids)
  }

  /** Every id belongs to the pool. */
  ghost predicate Known(pool: BufRingPool?, ids: seq<U16>) {
    pool != null ==> forall k | 0 <= k < |ids| :: ids[k] < pool.entries
  }

  ghost function Owned(slab: RecvMultishotSlab): set<object> {
    {slab, slab.storage, slab.metadata}
  }

  /** The pool and the registry share no memory. */
  lemma Apart(slab: RecvMultishotSlab, pool: BufRingPool?)
    ensures Owned(slab) !! Footprint(pool)
  {
  }

  method RecycleProvided(pool: BufRingPool?, buf: Option<U16>)
    requires Ready(pool) && Known(pool, OptBuf(buf))
    modifies Footprint(pool)
    ensures Ready(pool) && Avail(pool) == After(pool, old(Avail(pool)), OptBuf(buf))
  {
    if buf.Some? && pool != null {
      assert OptBuf(buf)[0] == buf.value;
      OfferOne(pool.avail, pool.entries, buf.value);
      pool.Recycle(buf.value);
    }
  }

  /** A dropped stream's completion: its buffer goes back, and a terminal one frees the slot. */
  method Discard(slab: RecvMultishotSlab, pool: BufRingPool?, slot: U16, generation: U16, more: bool, buf: Option<U16>)
    requires slab.Valid() && Ready(pool) && Known(pool, OptBuf(buf))
    modifies Owned(slab), Footprint(pool)
    ensures slab.Valid() && Ready(pool)
    ensures slab.Model() == if more then old(slab.Model()) else FreeBySlot(old(slab.Model()), slot, generation)
    ensures Avail(pool) == After(pool, old(Avail(pool)), OptBuf(buf))
  {
    Apart(slab, pool);
    RecycleProvided(pool, buf);
    if !more {
      slab.FreeBySlot(slot, generation);
    }
  }

  /** Hands a completion to the registry, and its buffer to the ring when the registry does not keep it. */
  method Route(slab: RecvMultishotSlab, pool: BufRingPool?, slot: U16, generation: U16, result: I32, more: bool,
               buf: Option<U16>)
    returns (kept: bool)
    requires slab.Valid() && Ready(pool) && Known(pool, OptBuf(buf))
    modifies Owned(slab), Footprint(pool)
    ensures slab.Valid() && Ready(pool)
    ensures var (r, outcome) := Push(old(slab.Model()), slot, generation, ToEntry(result, buf), more);
            && slab.Model() == r && kept == (outcome.Queued? || outcome.Terminal?)
    ensures Avail(pool) == After(pool, old(Avail(pool)), if kept then [] else OptBuf(buf))
  {
    Apart(slab, pool);
    var outcome := slab.Push(slot, generation, ToEntry(result, buf), more);
    match outcome {
      case Queued => kept := true;
      case Terminal => kept := true;
      case Overflowed =>
        RecycleProvided(pool, buf);
        kept := false;
      case Stale =>
        RecycleProvided(pool, buf);
        kept := false;
    }
  }

  method PushRecvMultishotCompletion(slab: RecvMultishotSlab, pool: BufRingPool?, userData: U64, result: I32,
    more: bool, buf: Option<U16>)
    returns (wake: Option<U64>, retire: Option<U64>)
    requires slab.Valid() && Ready(pool) && Known(pool, OptBuf(buf))
    modifies Owned(slab), Footprint(pool)
    ensures slab.Valid() && Ready(pool)
    ensures var o := Complete(old(slab.Model()), SentinelSlot(userData), SentinelGeneration(userData),
                              result, more, buf);
            && slab.Model() == o.reg && wake == o.wake && retire == o.retire
            && Avail(pool) == After(pool, old(Avail(pool)), o.recycled)
  {
    var slot, generation := SentinelSlot(userData), SentinelGeneration(userData);
    var owner := slab.Owner(slot, generation);
    retire := if more then None else owner;
    var dropped := slab.IsCancelPending(slot, generation);
    if dropped {
      Discard(slab, pool, slot, generation, more, buf);
      return None, retire;
    }
    var kept := Route(slab, pool, slot, generation, result, more, buf);
    wake := if kept then owner else None;
  }

  // ---------------------------------------------------------------------
  // A dropped stream's cancel
  // ---------------------------------------------------------------------

  lemma {:induction false} QueueBufsAppend(q: seq<Entry>, e: Entry)
    ensures QueueBufs(q + [e]) == QueueBufs(q) + BufOf(e)
  {
    if q == [] {
      assert q + [e] == [e];
      assert QueueBufs([e]) == BufOf(e) + QueueBufs([e][1..]);
    } else {
      assert (q + [e])[1..] == q[1..] + [e];
      QueueBufsAppend(q[1..], e);
    }
  }

  lemma QueueBufsTake(q: seq<Entry>, k: nat)
    requires k < |q|
    ensures QueueBufs(q[..k + 1]) == QueueBufs(q[..k]) + BufOf(q[k])
  {
    assert q[..k + 1] == q[..k] + [q[k]];
    QueueBufsAppend(q[..k], q[k]);
  }

  /** The registry once `taken` entries of the key's queue are gone. */
  ghost function Drained(r: Registry, key: Key, taken: nat): (r': Registry)
    requires Shaped(r)
    requires KeyLive(r, key) ==> taken <= |r.cells[key.slot].queue|
    ensures Shaped(r')
  {
    if KeyLive(r, key) then
      var c := r.cells[key.slot];
      Store(r, key.slot, c.(queue := c.queue[taken..]))
    else r
  }

  ghost function QueueOf(r: Registry, key: Key): seq<Entry>
    requires Shaped(r)
  {
    if KeyLive(r, key) then r.cells[key.slot].queue else []
  }

  ghost function StashOf(r: Registry, key: Key): Option<Entry>
    requires Shaped(r)
  {
    if KeyLive(r, key) then r.cells[key.slot].stash else None
  }

  lemma PopDrained(r: Registry, key: Key, taken: nat)
    requires Shaped(r) && taken <= |QueueOf(r, key)|
    ensures Drained(r, key, 0) == r && QueueOf(Drained(r, key, taken), key) == QueueOf(r, key)[taken..]
    ensures var q := QueueOf(r, key);
            Pop(Drained(r, key, taken), key)
            == if taken < |q| then (Drained(r, key, taken + 1), Some(q[taken])) else (Drained(r, key, taken), None)
  {
    if KeyLive(r, key) {
      var c := r.cells[key.slot];
      assert c.queue[0..] == c.queue;
      assert r.cells[key.slot := c] == r.cells;
      var d := c.(queue := c.queue[taken..]);
      if taken < |c.queue| {
        assert c.queue[taken..][1..] == c.queue[taken + 1..];
        assert r.cells[key.slot := d][key.slot := d.(queue := d.queue[1..])]
               == r.cells[key.slot := d.(queue := d.queue[1..])];
      }
    }
  }

  /** After the queue is gone: the stash, the early free, the mark. */
  lemma FinishCancel(r: Registry, key: Key)
    requires Shaped(r)
    ensures var q := QueueOf(r, key);
            var (r1, stash) := TakeTerminal(Drained(r, key, |q|), key);
            && stash == StashOf(r, key) == StashOf(Drained(r, key, |q|), key)
            && DrainCancel(r, key)
               == if IsTerminated(r1, key) then CancelDrain(Free(r1, key), QueueBufs(q) + StashBufs(stash), false)
                  else CancelDrain(MarkCancelPending(r1, key), QueueBufs(q) + StashBufs(stash), true)
  {
    if KeyLive(r, key) {
      var c := r.cells[key.slot];
      var d := c.(queue := c.queue[|c.queue|..]);
      assert c.queue[|c.queue|..] == [];
      assert r.cells[key.slot := d][key.slot := d.(stash := None)] == r.cells[key.slot := d.(stash := None)];
    }
  }

  lemma {:induction false} OfferAllConcat(avail: seq<U16>, n: nat, a: seq<U16>, b: seq<U16>)
    requires n > 0
    ensures OfferAll(OfferAll(avail, n, a), n, b) == OfferAll(avail, n, a + b)
    decreases |a|
  {
    if a == [] {
      assert a + b == b;
    } else {
      assert (a + b)[1..] == a[1..] + b;
      OfferAllConcat(Offer(avail, n, a[0]), n, a[1..], b);
    }
  }

  lemma AfterConcat(pool: BufRingPool?, avail: seq<U16>, a: seq<U16>, b: seq<U16>)
    requires pool != null ==> pool.entries > 0
    ensures After(pool, After(pool, avail, a), b) == After(pool, avail, a + b)
  {
    if pool != null {
      OfferAllConcat(avail, pool.entries, a, b);
    }
  }

  ghost predicate EntriesKnown(pool: BufRingPool?, q: seq<Entry>) {
    forall k | 0 <= k < |q| :: Known(pool, BufOf(q[k]))
  }

  method RecycleEntry(pool: BufRingPool?, e: Entry)
    requires Ready(pool) && Known(pool, BufOf(e))
    modifies Footprint(pool)
    ensures Ready(pool) && Avail(pool) == After(pool, old(Avail(pool)), BufOf(e))
  {
    if e.bufId != NO_BUFFER {
      RecycleProvided(pool, Some(e.bufId));
    }
  }

  /** Takes the oldest queued entry and recycles its buffer. */
  method DrainOne(slab: RecvMultishotSlab, pool: BufRingPool?, key: Key) returns (e: Option<Entry>)
    requires slab.Valid() && Ready(pool) && EntriesKnown(pool, QueueOf(slab.Model(), key))
    modifies Owned(slab), Footprint(pool)
    ensures slab.Valid() && Ready(pool) && (slab.Model(), e) == Pop(old(slab.Model()), key)
    ensures Avail(pool) == After(pool, old(Avail(pool)), StashBufs(e))
  {
    Apart(slab, pool);
    e := slab.Pop(key);
    if e.Some? {
      RecycleEntry(pool, e.value);
    }
  }

  method DrainStash(slab: RecvMultishotSlab, pool: BufRingPool?, key: Key)
    requires slab.Valid() && Ready(pool) && Known(pool, StashBufs(StashOf(slab.Model(), key)))
    modifies Owned(slab), Footprint(pool)
    ensures slab.Valid() && Ready(pool) && slab.Model() == TakeTerminal(old(slab.Model()), key).0
    ensures Avail(pool) == After(pool, old(Avail(pool)), StashBufs(StashOf(old(slab.Model()), key)))
  {
    Apart(slab, pool);
    var e := slab.TakeTerminal(key);
    if e.Some? {
      RecycleEntry(pool, e.value);
    }
  }

  method DrainQueue(slab: RecvMultishotSlab, pool: BufRingPool?, key: Key)
    requires slab.Valid() && Ready(pool) && EntriesKnown(pool, QueueOf(slab.Model(), key))
    modifies Owned(slab), Footprint(pool)
    ensures slab.Valid() && Ready(pool)
    ensures var q := QueueOf(old(slab.Model()), key);
            && slab.Model() == Drained(old(slab.Model()), key, |q|)
            && Avail(pool) == After(pool, old(Avail(pool)), QueueBufs(q))
  {
    ghost var r, avail := slab.Model(), Avail(pool);
    ghost var q := QueueOf(r, key);
    ghost var k := 0;
    var done := false;
    PopDrained(r, key, 0);
    AfterNothing(pool, avail);
    assert q[..0] == [];
    hide Drained, Pop, After, EntriesKnown, Known, QueueBufs;
    while !done
      invariant slab.Valid() && Ready(pool) && 0 <= k <= |q| && (done ==> k == |q|)
      invariant slab.Model() == Drained(r, key, k)
      invariant Avail(pool) == After(pool, avail, QueueBufs(q[..k]))
      decreases |q| - k, !done
    {
      PopDrained(r, key, k);
      KnownSuffix(pool, q, k);
      var e := DrainOne(slab, pool, key);
      if e.None? {
        done := true;
        AfterConcat(pool, avail, QueueBufs(q[..k]), []);
        assert QueueBufs(q[..k]) + [] == QueueBufs(q[..k]);
      } else {
        AfterConcat(pool, avail, QueueBufs(q[..k]), BufOf(e.value));
        QueueBufsTake(q, k);
        k := k + 1;
      }
    }
    assert q[..k] == q;
  }

  lemma KnownSuffix(pool: BufRingPool?, q: seq<Entry>, k: nat)
    requires EntriesKnown(pool, q) && k <= |q|
    ensures EntriesKnown(pool, q[k..])
  {
  }

  lemma AfterNothing(pool: BufRingPool?, avail: seq<U16>)
    requires pool != null ==> pool.entries > 0
    ensures QueueBufs([]) == [] && After(pool, avail, []) == avail
  {
  }

  /** A terminated op's slot is freed at once; any other waits for its terminal completion. */
  method FreeOrMark(slab: RecvMultishotSlab, key: Key) returns (submit: Option<nat>)
    requires slab.Valid()
    modifies Owned(slab)
    ensures slab.Valid()
    ensures slab.Model() == if IsTerminated(old(slab.Model()), key) then Free(old(slab.Model()), key)
                            else MarkCancelPending(old(slab.Model()), key)
    ensures submit == if IsTerminated(old(slab.Model()), key) then None else Some(Encode(key))
  {
    var ended := slab.IsTerminated(key);
    if ended {
      slab.Free(key);
      return None;
    }
    slab.MarkCancelPending(key);
    submit := Some(Encode(key));
  }

  /** `submit` is the sentinel of the async cancel handed to the kernel, if any. */
  method SubmitRecvMultishotCancel(slab: RecvMultishotSlab, pool: BufRingPool?, key: Key) returns (submit: Option<nat>)
    requires slab.Valid() && Ready(pool)
    requires EntriesKnown(pool, QueueOf(slab.Model(), key)) && Known(pool, StashBufs(StashOf(slab.Model(), key)))
    modifies Owned(slab), Footprint(pool)
    ensures slab.Valid() && Ready(pool)
    ensures var o := DrainCancel(old(slab.Model()), key);
            && slab.Model() == o.reg && Avail(pool) == After(pool, old(Avail(pool)), o.recycled)
            && submit == (if o.submits then Some(Encode(key)) else None)
  {
    Apart(slab, pool);
    ghost var r, avail := slab.Model(), Avail(pool);
    FinishCancel(r, key);
    DrainQueue(slab, pool, key);
    DrainStash(slab, pool, key);
    AfterConcat(pool, avail, QueueBufs(QueueOf(r, key)), StashBufs(StashOf(r, key)));
    submit := FreeOrMark(slab, key);
  }

  // ---------------------------------------------------------------------
  // The stream's side
  // ---------------------------------------------------------------------

  /** One step of a stream; a seam without a registry ends it. */
  method RecvMultishotNext(slab: RecvMultishotSlab?, key: Key) returns (next: Next)
    requires slab != null ==> slab.Valid()
    modifies if slab == null then {} else Owned(slab)
    ensures slab == null ==> next == Ended
    ensures slab != null ==> slab.Valid() && (slab.Model(), next) == Advance(old(slab.Model()), key)
  {
    if slab == null {
      return Ended;
    }
    var e := slab.Pop(key);
    if e.Some? {
      return ToItem(e.value);
    }
    e := slab.TakeTerminal(key);
    if e.Some? {
      return ToItem(e.value);
    }
    var ended := slab.IsTerminated(key);
    if ended {
      slab.Free(key);
      return Ended;
    }
    return Pending;
  }

  datatype Alloc = Allocated(key: Key, sentinel: nat) | Full | Unsupported

  method AllocateRecvMultishotSlot(slab: RecvMultishotSlab?, owner: U64) returns (a: Alloc)
    requires slab != null ==> slab.Valid()
    modifies if slab == null then {} else Owned(slab)
    ensures slab == null <==> a == Unsupported
    ensures slab != null ==> slab.Valid() && slab.Model() == Allocate(old(slab.Model()), owner).0
    ensures slab != null ==> match Allocate(old(slab.Model()), owner).1
                             case None => a == Full
                             case Some(key) => a == Allocated(key, Encode(key)) && IsRecvMultishot(a.sentinel)
                                               && SlotLive(slab.Model(), SentinelSlot(a.sentinel),
                                                 SentinelGeneration(a.sentinel))
  {
    if slab == null {
      return Unsupported;
    }
    var key := slab.Allocate(owner);
    if key.None? {
      return Full;
    }
    SentinelRoundTrip(key.value);
    return Allocated(key.value, Encode(key.value));
  }
}
