/**
 The packed form of the recv registry: two byte regions and four bitmaps, and
 the registry value they stand for.
 */
module RecvImage {
  import opened Basics
  import opened Bits
  import opened Words
  import opened Bytes
  import opened RecvRegistry

  const ENTRY_LEN := 6
  const META_LEN := 26
  const STORAGE_LEN := 98304
  const METADATA_LEN := 6656
  const WORDS := 4
  const WORD_MAX := 0xFFFF_FFFF_FFFF_FFFF

  // ---------------------------------------------------------------------
  // Bitmaps
  // ---------------------------------------------------------------------

  type Bitmap = m: seq<U64> | |m| == WORDS witness [0, 0, 0, 0]

  predicate Has(m: Bitmap, s: nat)
    requires s < MAX_SLOTS
  {
    Bit(m[s / 64], s % 64)
  }

  lemma OneBelow(bit: nat)
    requires bit < 64
    ensures Shl(1, 64) == 0x1_0000_0000_0000_0000 && 0 < Shl(1, bit) < Shl(1, 64)
  {
    Shift32(1);
    Shift32(0x1_0000_0000);
    ShlAdd(1, 32, 32);
    ShlMono(bit, 64);
  }

  lemma {:induction false} ShlMono(j: nat, k: nat)
    requires j < k
    ensures 0 < Shl(1, j) < Shl(1, k)
    decreases k
  {
    BitMask(j, 0);
    if j < k - 1 {
      ShlMono(j, k - 1);
    }
  }

  /** `m[word] |= 1 << bit`. */
  function Raise(m: Bitmap, s: nat): Bitmap
    requires s < MAX_SLOTS
  {
    OneBelow(s % 64);
    OrBound(m[s / 64], Shl(1, s % 64), 64);
    m[s / 64 := Or(m[s / 64], Shl(1, s % 64))]
  }

  /** `m[word] &= !(1 << bit)`. */
  function Lower(m: Bitmap, s: nat): Bitmap
    requires s < MAX_SLOTS
  {
    OneBelow(s % 64);
    m[s / 64 := And(m[s / 64], WORD_MAX - Shl(1, s % 64))]
  }

  lemma RaiseHas(m: Bitmap, s: nat, t: nat)
    requires s < MAX_SLOTS && t < MAX_SLOTS
    ensures Has(Raise(m, s), t) <==> s == t || Has(m, t)
  {
    BitOr(m[s / 64], Shl(1, s % 64), t % 64);
    BitOne(s % 64, t % 64);
  }

  lemma LowerHas(m: Bitmap, s: nat, t: nat)
    requires s < MAX_SLOTS && t < MAX_SLOTS
    ensures Has(Lower(m, s), t) <==> s != t && Has(m, t)
  {
    OneBelow(s % 64);
    BitAnd(m[s / 64], WORD_MAX - Shl(1, s % 64), t % 64);
    BitFlip(Shl(1, s % 64), WORD_MAX, 64, t % 64);
    BitOne(s % 64, t % 64);
  }

  // ---------------------------------------------------------------------
  // The metadata record
  // ---------------------------------------------------------------------

  datatype MetaField = Head | Len | Generation | OwnerToken | TerminalResult | TerminalBuf

  function Off(f: MetaField): nat {
    match f
    case Head => 0
    case Len => 2
    case Generation => 4
    case OwnerToken => 12
    case TerminalResult => 20
    case TerminalBuf => 24
  }

  function Width(f: MetaField): nat {
    match f
    case Head => 2
    case Len => 2
    case Generation => 8
    case OwnerToken => 8
    case TerminalResult => 4
    case TerminalBuf => 2
  }

  type Metadata = m: seq<U8> | |m| == METADATA_LEN witness seq(METADATA_LEN, _ => 0)
  type Storage = m: seq<U8> | |m| == STORAGE_LEN witness seq(STORAGE_LEN, _ => 0)

  function Get(m: Metadata, s: nat, f: MetaField): nat
    requires s < MAX_SLOTS
  {
    Field(m, s * META_LEN + Off(f), Width(f))
  }

  function Set(m: Metadata, s: nat, f: MetaField, x: nat): Metadata
    requires s < MAX_SLOTS
  {
    Put(m, s * META_LEN + Off(f), ToLE(x, Width(f)))
  }

  /** Writing one field changes no other field and no other slot. */
  lemma SetGet(m: Metadata, s: nat, f: MetaField, x: nat, t: nat, g: MetaField)
    requires s < MAX_SLOTS && t < MAX_SLOTS && x < Pow256(Width(f))
    ensures Get(Set(m, s, f, x), t, g) == if s == t && f == g then x else Get(m, t, g)
  {
    if s == t && f == g {
      FieldRoundTrip(m, s * META_LEN + Off(f), Width(f), x);
    } else {
      var at := t * META_LEN + Off(g);
      FieldElsewhere(m, s * META_LEN + Off(f), ToLE(x, Width(f)), at, Width(g));
    }
  }

  // ---------------------------------------------------------------------
  // The FIFO payload
  // ---------------------------------------------------------------------

  function EntryOffset(s: nat, k: nat): nat {
    (s * FIFO_DEPTH + k) * ENTRY_LEN
  }

  function EntryAt(m: Storage, s: nat, k: nat): Entry
    requires s < MAX_SLOTS && k < FIFO_DEPTH
  {
    Entry(AsI32(U32At(m, EntryOffset(s, k))), U16At(m, EntryOffset(s, k) + 4))
  }

  function EntryBytes(e: Entry): (b: seq<U8>)
    ensures |b| == ENTRY_LEN
  {
    ToLE(AsU32(e.result), 4) + ToLE(e.bufId, 2)
  }

  function SetEntry(m: Storage, s: nat, k: nat, e: Entry): Storage
    requires s < MAX_SLOTS && k < FIFO_DEPTH
  {
    Put(m, EntryOffset(s, k), EntryBytes(e))
  }

  /** Writing one ring entry changes no other entry and no other slot's ring. */
  lemma SetEntryAt(m: Storage, s: nat, k: nat, e: Entry, t: nat, j: nat)
    requires s < MAX_SLOTS && k < FIFO_DEPTH && t < MAX_SLOTS && j < FIFO_DEPTH
    ensures EntryAt(SetEntry(m, s, k, e), t, j) == if s == t && k == j then e else EntryAt(m, t, j)
  {
    var off, at := EntryOffset(s, k), EntryOffset(t, j);
    var m' := SetEntry(m, s, k, e);
    if s == t && k == j {
      PutAt(m, off, EntryBytes(e));
      assert m'[off..off + 4] == m'[off..off + 6][..4] == ToLE(AsU32(e.result), 4);
      assert m'[off + 4..off + 6] == m'[off..off + 6][4..] == ToLE(e.bufId, 2);
      Sizes();
      FromToLE(m', off, AsU32(e.result), 4);
      FromToLE(m', off + 4, e.bufId, 2);
      SignRoundTrip(e.result);
    } else {
      FieldElsewhere(m, off, EntryBytes(e), at, 4);
      FieldElsewhere(m, off, EntryBytes(e), at + 4, 2);
    }
  }

  // ---------------------------------------------------------------------
  // Decoded slots
  // ---------------------------------------------------------------------

  /** One slot's metadata record. */
  datatype MetaRec = MetaRec(head: U16, len: U16, generation: U64, owner: U64, terminalResult: U32, terminalBuf: U16)

  function MetaOf(m: Metadata, s: nat): MetaRec
    requires s < MAX_SLOTS
  {
    var at := s * META_LEN;
    MetaRec(U16At(m, at), U16At(m, at + 2), U64At(m, at + 4), U64At(m, at + 12), U32At(m, at + 20), U16At(m, at + 24))
  }

  lemma MetaFields(m: Metadata, s: nat)
    requires s < MAX_SLOTS
    ensures MetaOf(m, s) == MetaRec(Get(m, s, Head), Get(m, s, Len), Get(m, s, Generation),
                                    Get(m, s, OwnerToken), Get(m, s, TerminalResult), Get(m, s, TerminalBuf))
  {
  }

  predicate Fits(f: MetaField, x: nat) {
    match f
    case Head => x < 0x1_0000
    case Len => x < 0x1_0000
    case Generation => x < 0x1_0000_0000_0000_0000
    case OwnerToken => x < 0x1_0000_0000_0000_0000
    case TerminalResult => x < 0x1_0000_0000
    case TerminalBuf => x < 0x1_0000
  }

  function With(r: MetaRec, f: MetaField, x: nat): MetaRec
    requires Fits(f, x)
  {
    match f
    case Head => r.(head := x)
    case Len => r.(len := x)
    case Generation => r.(generation := x)
    case OwnerToken => r.(owner := x)
    case TerminalResult => r.(terminalResult := x)
    case TerminalBuf => r.(terminalBuf := x)
  }

  /** Every slot's record after one field write. */
  lemma SetMeta(m: Metadata, s: nat, f: MetaField, x: nat, t: nat)
    requires s < MAX_SLOTS && t < MAX_SLOTS && Fits(f, x)
    ensures MetaOf(Set(m, s, f, x), t) == if s == t then With(MetaOf(m, s), f, x) else MetaOf(m, t)
  {
    Sizes();
    SetGet(m, s, f, x, t, Head);
    SetGet(m, s, f, x, t, Len);
    SetGet(m, s, f, x, t, Generation);
    SetGet(m, s, f, x, t, OwnerToken);
    SetGet(m, s, f, x, t, TerminalResult);
    SetGet(m, s, f, x, t, TerminalBuf);
    MetaFields(m, t);
    MetaFields(Set(m, s, f, x), t);
  }

  /** One slot's ring of entries, in storage order. */
  function RingOf(m: Storage, s: nat): Ring
    requires s < MAX_SLOTS
  {
    seq(FIFO_DEPTH, k requires 0 <= k < FIFO_DEPTH => EntryAt(m, s, k))
  }

  lemma SetRing(m: Storage, s: nat, k: nat, e: Entry, t: nat)
    requires s < MAX_SLOTS && k < FIFO_DEPTH && t < MAX_SLOTS
    ensures RingOf(SetEntry(m, s, k, e), t) == if s == t then RingOf(m, s)[k := e] else RingOf(m, t)
  {
    forall j | 0 <= j < FIFO_DEPTH
      ensures EntryAt(SetEntry(m, s, k, e), t, j) == if s == t && k == j then e else EntryAt(m, t, j)
    {
      SetEntryAt(m, s, k, e, t, j);
    }
  }

  type Ring = r: seq<Entry> | |r| == FIFO_DEPTH witness seq(FIFO_DEPTH, _ => Entry(0, 0))

  /** A slot as its bytes and bits spell it. */
  datatype Raw = Raw(
    meta: MetaRec,
    ring: Ring,
    occupied: bool,
    terminated: bool,
    stashed: bool,
    cancelPending: bool)

  /** The registry's memory: its two regions and its four bitmaps. */
  datatype Image = Image(
    metadata: Metadata,
    storage: Storage,
    occupied: Bitmap,
    terminated: Bitmap,
    stashed: Bitmap,
    cancelPending: Bitmap)

  function SlotOf(i: Image, s: nat): Raw
    requires s < MAX_SLOTS
  {
    Raw(MetaOf(i.metadata, s), RingOf(i.storage, s), Has(i.occupied, s), Has(i.terminated, s),
        Has(i.stashed, s), Has(i.cancelPending, s))
  }

  /** `f(0), f(1), ..., f(n - 1)`. */
  function Collect<T>(f: nat -> T, n: nat): (r: seq<T>)
    ensures |r| == n
  {
    if n == 0 then [] else Collect(f, n - 1) + [f(n - 1)]
  }

  lemma {:induction false} CollectAt<T>(f: nat -> T, n: nat, s: nat)
    requires s < n
    ensures Collect(f, n)[s] == f(s)
  {
    if s < n - 1 {
      CollectAt(f, n - 1, s);
    }
  }

  /** The first `n` slots. */
  function Decode(i: Image, n: nat): (r: seq<Raw>)
    requires n <= MAX_SLOTS
    ensures |r| == n
  {
    Collect((s: nat) => SlotOf(i, if s < MAX_SLOTS then s else 0), n)
  }

  lemma DecodeAt(i: Image, n: nat, s: nat)
    requires s < n <= MAX_SLOTS
    ensures Decode(i, n)[s] == SlotOf(i, s)
  {
    CollectAt((s: nat) => SlotOf(i, if s < MAX_SLOTS then s else 0), n, s);
  }

  /** An image that differs in slot `s` alone decodes to the same slots but for that one. */
  lemma DecodeSet(i: Image, i': Image, n: nat, s: nat, r: Raw)
    requires s < n <= MAX_SLOTS
    requires forall t | 0 <= t < n :: SlotOf(i', t) == if t == s then r else SlotOf(i, t)
    ensures Decode(i', n) == Decode(i, n)[s := r]
  {
    forall t | 0 <= t < n ensures Decode(i', n)[t] == Decode(i, n)[s := r][t] {
      DecodeAt(i, n, t);
      DecodeAt(i', n, t);
    }
  }

  predicate RawOk(r: Raw) {
    r.meta.head < FIFO_DEPTH && r.meta.len <= FIFO_DEPTH
  }

  /** The `len` entries from `head` on, around the ring. */
  function Window(ring: Ring, head: nat, len: nat): (q: seq<Entry>)
    requires head < FIFO_DEPTH
    ensures |q| == len
    decreases len
  {
    if len == 0 then [] else [ring[head]] + Window(ring, (head + 1) % FIFO_DEPTH, len - 1)
  }

  /** What the slot means. */
  function CellFrom(r: Raw): (c: Cell)
    requires RawOk(r)
    ensures |c.queue| <= FIFO_DEPTH
  {
    Cell(r.occupied, r.meta.generation, r.meta.owner, Window(r.ring, r.meta.head, r.meta.len), r.terminated,
         if r.stashed then Some(Entry(AsI32(r.meta.terminalResult), r.meta.terminalBuf)) else None,
         r.cancelPending)
  }

  /** Writing behind the last entry appends to the queue. */
  lemma {:induction false} WindowGrows(ring: Ring, head: nat, len: nat, e: Entry)
    requires head < FIFO_DEPTH && len < FIFO_DEPTH
    ensures Window(ring[(head + len) % FIFO_DEPTH := e], head, len + 1) == Window(ring, head, len) + [e]
    decreases len
  {
    var k := (head + len) % FIFO_DEPTH;
    var ring' := ring[k := e];
    if len == 0 {
      assert Window(ring', head, 1) == [ring'[head]] + Window(ring', (head + 1) % FIFO_DEPTH, 0);
    } else {
      var next := (head + 1) % FIFO_DEPTH;
      NextIndex(head, len - 1);
      WindowGrows(ring, next, len - 1, e);
      assert k != head;
      assert [ring[head]] + (Window(ring, next, len - 1) + [e]) == ([ring[head]] + Window(ring, next, len - 1)) + [e];
    }
  }

  lemma NextIndex(h: nat, k: nat)
    ensures ((h + 1) % FIFO_DEPTH + k) % FIFO_DEPTH == (h + (k + 1)) % FIFO_DEPTH
  {
  }

  predicate AllOk(cap: U16, raws: seq<Raw>) {
    |raws| == MAX_SLOTS && cap <= MAX_SLOTS && forall s | 0 <= s < MAX_SLOTS :: RawOk(raws[s])
  }

  /** The registry a sequence of slots stands for. */
  function ModelOf(worker: U8, cap: U16, raws: seq<Raw>): (r: Registry)
    requires AllOk(cap, raws)
    ensures Shaped(r)
  {
    Registry(worker, cap, seq(MAX_SLOTS, s requires 0 <= s < MAX_SLOTS => CellFrom(raws[s])))
  }

  lemma ModelOne(worker: U8, cap: U16, raws: seq<Raw>, s: nat, r: Raw)
    requires AllOk(cap, raws) && s < MAX_SLOTS && RawOk(r)
    ensures AllOk(cap, raws[s := r])
    ensures ModelOf(worker, cap, raws[s := r]) == Store(ModelOf(worker, cap, raws), s, CellFrom(r))
  {
  }

  // The registry operations on decoded slots

  predicate Vacant(r: Raw) {
    r.meta == MetaRec(0, 0, 0, 0, 0, 0) && !r.occupied && !r.terminated && !r.stashed && !r.cancelPending
  }

  lemma FreshRaw(worker: U8, cap: U16, raws: seq<Raw>)
    requires |raws| == MAX_SLOTS && cap <= MAX_SLOTS && forall s | 0 <= s < MAX_SLOTS :: Vacant(raws[s])
    ensures AllOk(cap, raws) && ModelOf(worker, cap, raws) == RecvRegistry.Fresh(worker, cap)
  {
  }

  lemma AllocateRaw(worker: U8, cap: U16, raws: seq<Raw>, s: U16, owner: U64)
    requires AllOk(cap, raws) && s < cap && FirstFreeFrom(ModelOf(worker, cap, raws), 0) == Some(s)
    ensures var r := Raw(raws[s].meta.(head := 0, len := 0, owner := owner), raws[s].ring, true, false, false, false);
            && AllOk(cap, raws[s := r])
            && Allocate(ModelOf(worker, cap, raws), owner)
               == (ModelOf(worker, cap, raws[s := r]), Some(Key(s, raws[s].meta.generation, worker)))
  {
    ModelOne(worker, cap, raws, s, Raw(raws[s].meta.(head := 0, len := 0, owner := owner), raws[s].ring, true, false,
      false, false));
  }

  lemma TerminalRaw(worker: U8, cap: U16, raws: seq<Raw>, s: U16, low16: U16, e: Entry)
    requires AllOk(cap, raws) && SlotLive(ModelOf(worker, cap, raws), s, low16)
    ensures var m := raws[s].meta.(terminalResult := AsU32(e.result), terminalBuf := e.bufId);
            var r := raws[s].(meta := m, terminated := true, stashed := true);
            && AllOk(cap, raws[s := r])
            && Push(ModelOf(worker, cap, raws), s, low16, e, false) == (ModelOf(worker, cap, raws[s := r]), Terminal)
  {
    SignRoundTrip(e.result);
    var m := raws[s].meta.(terminalResult := AsU32(e.result), terminalBuf := e.bufId);
    ModelOne(worker, cap, raws, s, raws[s].(meta := m, terminated := true, stashed := true));
  }

  lemma QueueRaw(worker: U8, cap: U16, raws: seq<Raw>, s: U16, low16: U16, e: Entry)
    requires AllOk(cap, raws) && SlotLive(ModelOf(worker, cap, raws), s, low16) && raws[s].meta.len < FIFO_DEPTH
    ensures var m := raws[s].meta;
            var r := raws[s].(meta := m.(len := m.len + 1), ring := raws[s].ring[(m.head + m.len) % FIFO_DEPTH := e]);
            && AllOk(cap, raws[s := r])
            && Push(ModelOf(worker, cap, raws), s, low16, e, true) == (ModelOf(worker, cap, raws[s := r]), Queued)
  {
    var m := raws[s].meta;
    WindowGrows(raws[s].ring, m.head, m.len, e);
    ModelOne(worker, cap, raws, s,
             raws[s].(meta := m.(len := m.len + 1), ring := raws[s].ring[(m.head + m.len) % FIFO_DEPTH := e]));
  }

  lemma FullRaw(worker: U8, cap: U16, raws: seq<Raw>, s: U16, low16: U16, e: Entry)
    requires AllOk(cap, raws) && SlotLive(ModelOf(worker, cap, raws), s, low16) && raws[s].meta.len >= FIFO_DEPTH
    ensures Push(ModelOf(worker, cap, raws), s, low16, e, true) == (ModelOf(worker, cap, raws), Overflowed)
  {
  }

  lemma EmptyRaw(worker: U8, cap: U16, raws: seq<Raw>, key: Key)
    requires AllOk(cap, raws) && KeyLive(ModelOf(worker, cap, raws), key) && raws[key.slot].meta.len == 0
    ensures Pop(ModelOf(worker, cap, raws), key) == (ModelOf(worker, cap, raws), None)
  {
  }

  lemma PopRaw(worker: U8, cap: U16, raws: seq<Raw>, key: Key)
    requires AllOk(cap, raws) && KeyLive(ModelOf(worker, cap, raws), key) && raws[key.slot].meta.len > 0
    ensures var s := key.slot;
            var m := raws[s].meta;
            var r := raws[s].(meta := m.(head := (m.head + 1) % FIFO_DEPTH, len := m.len - 1));
            && AllOk(cap, raws[s := r])
            && Pop(ModelOf(worker, cap, raws), key) == (ModelOf(worker, cap, raws[s := r]), Some(raws[s].ring[m.head]))
  {
    var s := key.slot;
    var m := raws[s].meta;
    ModelOne(worker, cap, raws, s, raws[s].(meta := m.(head := (m.head + 1) % FIFO_DEPTH, len := m.len - 1)));
  }

  lemma TakeRaw(worker: U8, cap: U16, raws: seq<Raw>, key: Key)
    requires AllOk(cap, raws) && KeyLive(ModelOf(worker, cap, raws), key) && raws[key.slot].stashed
    ensures var s := key.slot;
            var m := raws[s].meta;
            && AllOk(cap, raws[s := raws[s].(stashed := false)])
            && TakeTerminal(ModelOf(worker, cap, raws), key)
               == (ModelOf(worker, cap, raws[s := raws[s].(stashed := false)]),
                 Some(Entry(AsI32(m.terminalResult), m.terminalBuf)))
  {
    ModelOne(worker, cap, raws, key.slot, raws[key.slot].(stashed := false));
  }

  lemma MarkRaw(worker: U8, cap: U16, raws: seq<Raw>, key: Key)
    requires AllOk(cap, raws) && KeyLive(ModelOf(worker, cap, raws), key)
    ensures AllOk(cap, raws[key.slot := raws[key.slot].(cancelPending := true)])
    ensures MarkCancelPending(ModelOf(worker, cap, raws), key)
            == ModelOf(worker, cap, raws[key.slot := raws[key.slot].(cancelPending := true)])
  {
    ModelOne(worker, cap, raws, key.slot, raws[key.slot].(cancelPending := true));
  }

  lemma VacateRaw(worker: U8, cap: U16, raws: seq<Raw>, s: nat)
    requires AllOk(cap, raws) && s < MAX_SLOTS
    ensures var m := raws[s].meta;
            var r := Raw(m.(len := 0, generation := Bump(m.generation)), raws[s].ring, false, false, false, false);
            && AllOk(cap, raws[s := r])
            && Store(ModelOf(worker, cap, raws), s, Vacated(ModelOf(worker, cap, raws).cells[s]))
               == ModelOf(worker, cap, raws[s := r])
  {
    var m := raws[s].meta;
    ModelOne(worker, cap, raws, s, Raw(m.(len := 0, generation := Bump(m.generation)), raws[s].ring, false, false,
      false, false));
  }
}
