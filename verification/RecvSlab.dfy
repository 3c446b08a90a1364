/** The mmap-backed multishot recv registry, updated in place. */
module RecvSlab {
  import opened Basics
  import opened Bits
  import opened Words
  import opened Bytes
  import opened RecvRegistry
  import opened RecvImage

  class RecvMultishotSlab {
    const storage: array<U8>
    const metadata: array<U8>
    var occupied: Bitmap
    var terminated: Bitmap
    var terminalStashed: Bitmap
    var cancelPending: Bitmap
    const worker: U8
    const cap: U16
    /** Every slot, as the bytes and bitmaps spell it. */
    ghost var raws: seq<Raw>

    ghost predicate Sized() {
      storage.Length == STORAGE_LEN && metadata.Length == METADATA_LEN && storage != metadata && cap <= MAX_SLOTS
    }

    ghost function Memory(): Image
      reads this, storage, metadata
      requires Sized()
    {
      Image(metadata[..], storage[..], occupied, terminated, terminalStashed, cancelPending)
    }

    ghost predicate Coherent()
      reads this, storage, metadata
    {
      Sized() && |raws| == MAX_SLOTS && raws == Decode(Memory(), |raws|)
    }

    ghost predicate Valid()
      reads this, storage, metadata
    {
      Coherent() && AllOk(cap, raws)
    }

    /** The registry this object holds. */
    ghost function Model(): (r: Registry)
      reads this, storage, metadata
      requires Valid()
      ensures Shaped(r)
    {
      ModelOf(worker, cap, raws)
    }

    constructor (worker: U8, cap: U16)
      ensures Valid() && fresh(storage) && fresh(metadata)
      ensures this.worker == worker && Model() == RecvRegistry.Fresh(worker, cap)
    {
      storage := new U8[STORAGE_LEN](_ => 0);
      metadata := new U8[METADATA_LEN](_ => 0);
      occupied := [0, 0, 0, 0];
      terminated := [0, 0, 0, 0];
      terminalStashed := [0, 0, 0, 0];
      cancelPending := [0, 0, 0, 0];
      this.worker := worker;
      this.cap := if cap < MAX_SLOTS then cap else MAX_SLOTS;
      new;
      raws := Decode(Memory(), MAX_SLOTS);
      ZeroImage(Memory());
      FreshRaw(worker, this.cap, raws);
    }

    // Field accessors

    method SetField(s: nat, f: MetaField, x: nat)
      requires Coherent() && s < MAX_SLOTS && Fits(f, x)
      modifies this`raws, metadata
      ensures Coherent() && raws == old(raws)[s := old(raws[s]).(meta := With(old(raws[s]).meta, f, x))]
    {
      ghost var i := Memory();
      WriteBytes(metadata, s * META_LEN + Off(f), ToLE(x, Width(f)));
      assert Memory() == i.(metadata := Set(i.metadata, s, f, x));
      FieldSet(i, s, f, x, |raws|);
      raws := Decode(Memory(), |raws|);
    }

    method WriteEntry(s: nat, k: nat, e: Entry)
      requires Coherent() && s < MAX_SLOTS && k < FIFO_DEPTH
      modifies this`raws, storage
      ensures Coherent() && raws == old(raws)[s := old(raws[s]).(ring := old(raws[s]).ring[k := e])]
    {
      ghost var i := Memory();
      WriteBytes(storage, EntryOffset(s, k), EntryBytes(e));
      EntrySet(i, s, k, e, |raws|);
      raws := Decode(Memory(), |raws|);
    }

    /** Clears the four flags of a slot and sets the occupied one as asked. */
    method SetFlags(s: nat, live: bool)
      requires Coherent() && s < MAX_SLOTS
      modifies this
      ensures Coherent()
      ensures raws == old(raws)[s := old(raws[s]).(occupied := live, terminated := false, stashed := false,
              cancelPending := false)]
    {
      ghost var i := Memory();
      occupied := if live then Raise(occupied, s) else Lower(occupied, s);
      terminated := Lower(terminated, s);
      terminalStashed := Lower(terminalStashed, s);
      cancelPending := Lower(cancelPending, s);
      FlagsSet(i, s, live, |raws|);
      raws := Decode(Memory(), |raws|);
    }

    method Lookup(s: nat) returns (m: MetaRec)
      requires Coherent() && s < MAX_SLOTS
      ensures m == raws[s].meta
    {
      DecodeAt(Memory(), |raws|, s);
      var bytes := metadata[..];
      m := MetaOf(bytes, s);
    }

    method ReadEntry(s: nat, k: nat) returns (e: Entry)
      requires Coherent() && s < MAX_SLOTS && k < FIFO_DEPTH
      ensures e == raws[s].ring[k]
    {
      DecodeAt(Memory(), |raws|, s);
      var bytes := storage[..];
      e := EntryAt(bytes, s, k);
    }

    // The registry operations

    method Allocate(owner: U64) returns (key: Option<Key>)
      requires Valid()
      modifies this, metadata
      ensures Valid() && (Model(), key) == RecvRegistry.Allocate(old(Model()), owner)
    {
      var slot := FirstFree();
      if slot.None? {
        return None;
      }
      var s := slot.value;
      ghost var before := raws;
      Claim(s, owner);
      AllocateRaw(worker, cap, before, s, owner);
      var m := Lookup(s);
      key := Some(Key(s, m.generation, worker));
    }

    method Claim(s: U16, owner: U64)
      requires Coherent() && s < MAX_SLOTS
      modifies this, metadata
      ensures Coherent()
      ensures raws == old(raws)[s := Raw(old(raws[s]).meta.(head := 0, len := 0, owner := owner), old(raws[s]).ring,
                                         true, false, false, false)]
    {
      SetFlags(s, true);
      SetField(s, Head, 0);
      SetField(s, Len, 0);
      SetField(s, OwnerToken, owner);
    }

    method SlotIsLive(slot: U16, low16: U16) returns (b: bool)
      requires Valid()
      ensures b == SlotLive(Model(), slot, low16)
    {
      if slot >= cap {
        return false;
      }
      DecodeAt(Memory(), |raws|, slot);
      var m := Lookup(slot);
      b := Has(occupied, slot) && m.generation % 0x1_0000 == low16;
    }

    method IsLive(key: Key) returns (b: bool)
      requires Valid()
      ensures b == KeyLive(Model(), key)
    {
      if key.worker != worker || key.slot >= cap {
        return false;
      }
      DecodeAt(Memory(), |raws|, key.slot);
      var m := Lookup(key.slot);
      b := Has(occupied, key.slot) && m.generation == key.generation;
    }

    method Push(slot: U16, low16: U16, e: Entry, more: bool) returns (outcome: PushOutcome)
      requires Valid()
      modifies this, storage, metadata
      ensures Valid() && (Model(), outcome) == RecvRegistry.Push(old(Model()), slot, low16, e, more)
    {
      var live := SlotIsLive(slot, low16);
      if !live {
        return Stale;
      }
      ghost var before := raws;
      if !more {
        StashTerminal(slot, e);
        TerminalRaw(worker, cap, before, slot, low16, e);
        return Terminal;
      }
      var m := Lookup(slot);
      if m.len >= FIFO_DEPTH {
        FullRaw(worker, cap, raws, slot, low16, e);
        return Overflowed;
      }
      Append(slot, m, e);
      QueueRaw(worker, cap, before, slot, low16, e);
      outcome := Queued;
    }

    method StashTerminal(s: U16, e: Entry)
      requires Coherent() && s < MAX_SLOTS
      modifies this, metadata
      ensures Coherent()
      ensures raws == old(raws)[s := old(raws[s]).(
                  meta := old(raws[s]).meta.(terminalResult := AsU32(e.result), terminalBuf := e.bufId),
                  terminated := true, stashed := true)]
    {
      RaiseTerminal(s);
      SetField(s, TerminalResult, AsU32(e.result));
      SetField(s, TerminalBuf, e.bufId);
    }

    method Append(s: U16, m: MetaRec, e: Entry)
      requires Coherent() && s < MAX_SLOTS && m == raws[s].meta && m.len < FIFO_DEPTH
      modifies this`raws, storage, metadata
      ensures Coherent()
      ensures raws == old(raws)[s := old(raws[s]).(
                  meta := m.(len := m.len + 1), ring := old(raws[s]).ring[(m.head + m.len) % FIFO_DEPTH := e])]
    {
      WriteEntry(s, (m.head + m.len) % FIFO_DEPTH, e);
      SetField(s, Len, m.len + 1);
    }

    method DropHead(s: U16, m: MetaRec)
      requires Coherent() && s < MAX_SLOTS && m == raws[s].meta && m.len > 0
      modifies this`raws, metadata
      ensures Coherent()
      ensures raws == old(raws)[s := old(raws[s]).(meta := m.(head := (m.head + 1) % FIFO_DEPTH, len := m.len - 1))]
    {
      SetField(s, Head, (m.head + 1) % FIFO_DEPTH);
      SetField(s, Len, m.len - 1);
    }

    method RaiseTerminal(s: U16)
      requires Coherent() && s < MAX_SLOTS
      modifies this
      ensures Coherent() && raws == old(raws)[s := old(raws[s]).(terminated := true, stashed := true)]
    {
      ghost var i := Memory();
      terminated := Raise(terminated, s);
      terminalStashed := Raise(terminalStashed, s);
      TerminalSet(i, s, |raws|);
      raws := Decode(Memory(), |raws|);
    }

    method Pop(key: Key) returns (e: Option<Entry>)
      requires Valid()
      modifies this`raws, metadata
      ensures Valid() && (Model(), e) == RecvRegistry.Pop(old(Model()), key)
    {
      var live := IsLive(key);
      if !live {
        return None;
      }
      var s := key.slot;
      var m := Lookup(s);
      if m.len == 0 {
        EmptyRaw(worker, cap, raws, key);
        return None;
      }
      ghost var before := raws;
      var head := ReadEntry(s, m.head);
      e := Some(head);
      DropHead(s, m);
      PopRaw(worker, cap, before, key);
    }

    method TakeTerminal(key: Key) returns (e: Option<Entry>)
      requires Valid()
      modifies this
      ensures Valid() && (Model(), e) == RecvRegistry.TakeTerminal(old(Model()), key)
    {
      var live := IsLive(key);
      if live {
        DecodeAt(Memory(), |raws|, key.slot);
      }
      if !live || !Has(terminalStashed, key.slot) {
        return None;
      }
      var s := key.slot;
      ghost var before, i := raws, Memory();
      terminalStashed := Lower(terminalStashed, s);
      StashTaken(i, s, |raws|);
      raws := Decode(Memory(), |raws|);
      TakeRaw(worker, cap, before, key);
      var m := Lookup(s);
      e := Some(Entry(AsI32(m.terminalResult), m.terminalBuf));
    }

    method Owner(slot: U16, low16: U16) returns (owner: Option<U64>)
      requires Valid()
      ensures owner == RecvRegistry.Owner(Model(), slot, low16)
    {
      var live := SlotIsLive(slot, low16);
      if !live {
        return None;
      }
      var m := Lookup(slot);
      owner := Some(m.owner);
    }

    method IsTerminated(key: Key) returns (b: bool)
      requires Valid()
      ensures b == RecvRegistry.IsTerminated(Model(), key)
    {
      var live := IsLive(key);
      if live {
        DecodeAt(Memory(), |raws|, key.slot);
      }
      b := live && Has(terminated, key.slot);
    }

    method IsCancelPending(slot: U16, low16: U16) returns (b: bool)
      requires Valid()
      ensures b == RecvRegistry.IsCancelPending(Model(), slot, low16)
    {
      var live := SlotIsLive(slot, low16);
      if live {
        DecodeAt(Memory(), |raws|, slot);
      }
      b := live && Has(cancelPending, slot);
    }

    method MarkCancelPending(key: Key)
      requires Valid()
      modifies this
      ensures Valid() && Model() == RecvRegistry.MarkCancelPending(old(Model()), key)
    {
      var live := IsLive(key);
      if !live {
        return;
      }
      ghost var before, i := raws, Memory();
      cancelPending := Raise(cancelPending, key.slot);
      CancelMarked(i, key.slot, |raws|);
      raws := Decode(Memory(), |raws|);
      MarkRaw(worker, cap, before, key);
    }

    /** Empties a slot and bumps its generation. */
    method Vacate(s: U16)
      requires Valid() && s < MAX_SLOTS
      modifies this, metadata
      ensures Valid() && Model() == Store(old(Model()), s, Vacated(old(Model()).cells[s]))
    {
      ghost var before := raws;
      SetFlags(s, false);
      SetField(s, Len, 0);
      var m := Lookup(s);
      SetField(s, Generation, Bump(m.generation));
      assert raws == before[s := Raw(before[s].meta.(len := 0, generation := Bump(m.generation)), before[s].ring,
                                     false, false, false, false)];
      VacateRaw(worker, cap, before, s);
    }

    method Free(key: Key)
      requires Valid()
      modifies this, metadata
      ensures Valid() && Model() == RecvRegistry.Free(old(Model()), key)
    {
      var live := IsLive(key);
      if live {
        Vacate(key.slot);
      }
    }

    method FreeBySlot(slot: U16, low16: U16)
      requires Valid()
      modifies this, metadata
      ensures Valid() && Model() == RecvRegistry.FreeBySlot(old(Model()), slot, low16)
    {
      var live := SlotIsLive(slot, low16);
      if live {
        Vacate(slot);
      }
    }

    method FirstFree() returns (slot: Option<U16>)
      requires Valid()
      ensures slot == FirstFreeFrom(Model(), 0)
    {
      forall s | 0 <= s < MAX_SLOTS ensures raws[s].occupied == Has(occupied, s) {
        DecodeAt(Memory(), |raws|, s);
      }
      slot := ScanFree(occupied, cap);
      if slot.Some? {
        LeastFree(Model(), slot.value);
      } else {
        NoneFree(Model());
      }
    }
  }

  // What each in-place write does to the decoded slots

  lemma FieldSet(i: Image, s: nat, f: MetaField, x: nat, n: nat)
    requires s < n <= MAX_SLOTS && Fits(f, x)
    ensures var raws := Decode(i, n);
            Decode(i.(metadata := Set(i.metadata, s, f, x)), n) == raws[s := raws[s].(meta := With(raws[s].meta, f, x))]
  {
    var i' := i.(metadata := Set(i.metadata, s, f, x));
    DecodeAt(i, n, s);
    forall t | 0 <= t < n
      ensures MetaOf(i'.metadata, t) == if s == t then With(MetaOf(i.metadata, s), f, x) else MetaOf(i.metadata, t)
    {
      SetMeta(i.metadata, s, f, x, t);
    }
    DecodeSet(i, i', n, s, SlotOf(i, s).(meta := With(MetaOf(i.metadata, s), f, x)));
  }

  lemma EntrySet(i: Image, s: nat, k: nat, e: Entry, n: nat)
    requires s < n <= MAX_SLOTS && k < FIFO_DEPTH
    ensures var raws := Decode(i, n);
            Decode(i.(storage := SetEntry(i.storage, s, k, e)), n) == raws[s := raws[s].(ring := raws[s].ring[k := e])]
  {
    var i' := i.(storage := SetEntry(i.storage, s, k, e));
    DecodeAt(i, n, s);
    forall t | 0 <= t < n
      ensures RingOf(i'.storage, t) == if s == t then RingOf(i.storage, s)[k := e] else RingOf(i.storage, t)
    {
      SetRing(i.storage, s, k, e, t);
    }
    DecodeSet(i, i', n, s, SlotOf(i, s).(ring := RingOf(i.storage, s)[k := e]));
  }

  lemma FlagsSet(i: Image, s: nat, live: bool, n: nat)
    requires s < n <= MAX_SLOTS
    ensures var raws := Decode(i, n);
            var i' := i.(occupied := if live then Raise(i.occupied, s) else Lower(i.occupied, s),
                         terminated := Lower(i.terminated, s), stashed := Lower(i.stashed, s),
                         cancelPending := Lower(i.cancelPending, s));
            Decode(i', n) == raws[s := raws[s].(occupied := live, terminated := false, stashed := false,
              cancelPending := false)]
  {
    var i' := i.(occupied := if live then Raise(i.occupied, s) else Lower(i.occupied, s),
                 terminated := Lower(i.terminated, s), stashed := Lower(i.stashed, s),
                 cancelPending := Lower(i.cancelPending, s));
    DecodeAt(i, n, s);
    var r := SlotOf(i, s).(occupied := live, terminated := false, stashed := false, cancelPending := false);
    forall t | 0 <= t < n ensures SlotOf(i', t) == if t == s then r else SlotOf(i, t) {
      RaiseHas(i.occupied, s, t);
      LowerHas(i.occupied, s, t);
      LowerHas(i.terminated, s, t);
      LowerHas(i.stashed, s, t);
      LowerHas(i.cancelPending, s, t);
    }
    DecodeSet(i, i', n, s, r);
  }

  lemma TerminalSet(i: Image, s: nat, n: nat)
    requires s < n <= MAX_SLOTS
    ensures var raws := Decode(i, n);
            Decode(i.(terminated := Raise(i.terminated, s), stashed := Raise(i.stashed, s)), n)
            == raws[s := raws[s].(terminated := true, stashed := true)]
  {
    var i' := i.(terminated := Raise(i.terminated, s), stashed := Raise(i.stashed, s));
    DecodeAt(i, n, s);
    var r := SlotOf(i, s).(terminated := true, stashed := true);
    forall t | 0 <= t < n ensures SlotOf(i', t) == if t == s then r else SlotOf(i, t) {
      RaiseHas(i.terminated, s, t);
      RaiseHas(i.stashed, s, t);
    }
    DecodeSet(i, i', n, s, r);
  }

  lemma StashTaken(i: Image, s: nat, n: nat)
    requires s < n <= MAX_SLOTS
    ensures var raws := Decode(i, n);
            Decode(i.(stashed := Lower(i.stashed, s)), n) == raws[s := raws[s].(stashed := false)]
  {
    var i' := i.(stashed := Lower(i.stashed, s));
    DecodeAt(i, n, s);
    var r := SlotOf(i, s).(stashed := false);
    forall t | 0 <= t < n ensures SlotOf(i', t) == if t == s then r else SlotOf(i, t) {
      LowerHas(i.stashed, s, t);
    }
    DecodeSet(i, i', n, s, r);
  }

  lemma CancelMarked(i: Image, s: nat, n: nat)
    requires s < n <= MAX_SLOTS
    ensures var raws := Decode(i, n);
            Decode(i.(cancelPending := Raise(i.cancelPending, s)), n) == raws[s := raws[s].(cancelPending := true)]
  {
    var i' := i.(cancelPending := Raise(i.cancelPending, s));
    DecodeAt(i, n, s);
    var r := SlotOf(i, s).(cancelPending := true);
    forall t | 0 <= t < n ensures SlotOf(i', t) == if t == s then r else SlotOf(i, t) {
      RaiseHas(i.cancelPending, s, t);
    }
    DecodeSet(i, i', n, s, r);
  }

  /** How many of word `w`'s bits lie below `cap`. */
  function WidthAt(cap: U16, w: nat): (n: nat)
    ensures n <= 64
  {
    if w < cap / 64 then 64 else if w == cap / 64 then cap % 64 else 0
  }

  /** The scan over the inverted bitmap words: the least clear bit below `cap`. */
  method ScanFree(m: Bitmap, cap: U16) returns (slot: Option<U16>)
    requires cap <= MAX_SLOTS
    ensures slot.Some? ==> slot.value < cap && !Has(m, slot.value)
    ensures slot.Some? ==> forall s: nat | s < slot.value :: Has(m, s)
    ensures slot.None? ==> forall s: nat | s < cap :: Has(m, s)
  {
    var w := 0;
    while w < WORDS && WidthAt(cap, w) > 0
      invariant 0 <= w <= WORDS
      invariant forall s: nat | s < 64 * w && s < cap :: Has(m, s)
      decreases WORDS - w
    {
      var width := WidthAt(cap, w);
      ScanWord(m[w], width);
      var available := And(WORD_MAX - m[w], Shl(1, width) - 1);
      if available != 0 {
        LowestBit(available);
        var bit := TrailingZeros(available);
        WordBits(m, w, bit);
        return Some(w * 64 + bit);
      }
      WordBits(m, w, width);
      w := w + 1;
    }
    slot := None;
  }

  /** The slots of word `w` below `bit` are occupied when its low bits are all set. */
  lemma WordBits(m: Bitmap, w: nat, bit: nat)
    requires w < WORDS && bit <= 64 && forall i: nat | i < bit :: Bit(m[w], i)
    ensures forall s: nat | 64 * w <= s < 64 * w + bit :: Has(m, s)
    ensures bit < 64 ==> Has(m, 64 * w + bit) == Bit(m[w], bit)
  {
    forall s: nat | 64 * w <= s < 64 * w + bit ensures Has(m, s) {
      assert s / 64 == w && s % 64 == s - 64 * w;
    }
    if bit < 64 {
      assert (64 * w + bit) / 64 == w && (64 * w + bit) % 64 == bit;
    }
  }

  /** What one masked, inverted bitmap word shows. */
  lemma ScanWord(word: U64, width: nat)
    requires width <= 64
    ensures Shl(1, width) > 0
    ensures var available := And(WORD_MAX - word, Shl(1, width) - 1);
            && (forall i: nat :: Bit(available, i) <==> i < width && !Bit(word, i))
            && (available == 0 ==> forall i: nat | i < width :: Bit(word, i))
  {
    BitMask(width, 0);
    var available := And(WORD_MAX - word, Shl(1, width) - 1);
    OneBelow(0);
    forall i: nat ensures Bit(available, i) <==> i < width && !Bit(word, i) {
      BitMask(width, i);
      BitAnd(WORD_MAX - word, Shl(1, width) - 1, i);
      BitFlip(word, WORD_MAX, 64, i);
    }
    if available == 0 {
      forall i: nat | i < width ensures Bit(word, i) {
        BitZero(i);
        assert !Bit(available, i);
      }
    }
  }

  lemma {:induction false} LeastFreeFrom(r: Registry, from: nat, slot: nat)
    requires Shaped(r) && from <= slot < r.cap && !r.cells[slot].occupied
    requires forall t | from <= t < slot :: r.cells[t].occupied
    ensures FirstFreeFrom(r, from) == Some(slot)
    decreases slot - from
  {
    if from < slot {
      LeastFreeFrom(r, from + 1, slot);
    }
  }

  lemma LeastFree(r: Registry, slot: nat)
    requires Shaped(r) && slot < r.cap && !r.cells[slot].occupied
    requires forall t | 0 <= t < slot :: r.cells[t].occupied
    ensures FirstFreeFrom(r, 0) == Some(slot)
  {
    LeastFreeFrom(r, 0, slot);
  }

  lemma NoneFree(r: Registry)
    requires Shaped(r) && forall t | 0 <= t < r.cap :: r.cells[t].occupied
    ensures FirstFreeFrom(r, 0) == None
  {
  }

  lemma {:induction false} ZeroField(m: seq<U8>, lo: nat, hi: nat)
    requires lo <= hi <= |m| && forall k | lo <= k < hi :: m[k] == 0
    ensures FromLE(m, lo, hi) == 0
    decreases hi - lo
  {
    if lo < hi {
      ZeroField(m, lo + 1, hi);
    }
  }

  lemma ZeroImage(i: Image)
    requires forall k | 0 <= k < METADATA_LEN :: i.metadata[k] == 0
    requires i.occupied == i.terminated == i.stashed == i.cancelPending == [0, 0, 0, 0]
    ensures forall s | 0 <= s < MAX_SLOTS :: Vacant(Decode(i, MAX_SLOTS)[s])
  {
    forall s | 0 <= s < MAX_SLOTS ensures Vacant(Decode(i, MAX_SLOTS)[s]) {
      DecodeAt(i, MAX_SLOTS, s);
      ZeroMeta(i.metadata, s);
      BitZero(s % 64);
    }
  }

  lemma ZeroMeta(m: Metadata, s: nat)
    requires s < MAX_SLOTS && forall k | 0 <= k < METADATA_LEN :: m[k] == 0
    ensures MetaOf(m, s) == MetaRec(0, 0, 0, 0, 0, 0)
  {
    ZeroGet(m, s, Head);
    ZeroGet(m, s, Len);
    ZeroGet(m, s, Generation);
    ZeroGet(m, s, OwnerToken);
    ZeroGet(m, s, TerminalResult);
    ZeroGet(m, s, TerminalBuf);
    MetaFields(m, s);
  }

  lemma ZeroGet(m: Metadata, s: nat, f: MetaField)
    requires s < MAX_SLOTS && forall k | 0 <= k < METADATA_LEN :: m[k] == 0
    ensures Get(m, s, f) == 0
  {
    var at := s * META_LEN + Off(f);
    ZeroField(m, at, at + Width(f));
  }
}
