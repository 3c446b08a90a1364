/**
 The multishot recv registry as a value: what its packed bytes and bitmaps mean,
 and what every registry, drain and stream operation does to that meaning.
 `RecvSlab` implements these operations on bytes; `RecvProtocol` runs them
 against the kernel.
 */
module RecvRegistry {
  import opened Basics
  import opened Words

  const MAX_SLOTS := 256
  const FIFO_DEPTH := 64
  const NO_BUFFER: U16 := 0xFFFF

  /** A byte count or negative errno, and the provided buffer it consumed. */
  datatype Entry = Entry(result: I32, bufId: U16)

  datatype Key = Key(slot: U16, generation: U64, worker: U8)

  datatype Cell = Cell(
    occupied: bool,
    generation: U64,
    owner: U64,
    queue: seq<Entry>,
    terminated: bool,
    stash: Option<Entry>,
    cancelPending: bool)

  datatype Registry = Registry(worker: U8, cap: U16, cells: seq<Cell>)

  predicate Shaped(r: Registry) {
    && |r.cells| == MAX_SLOTS
    && r.cap <= MAX_SLOTS
    && (forall s | 0 <= s < MAX_SLOTS :: |r.cells[s].queue| <= FIFO_DEPTH)
  }

  function Fresh(worker: U8, cap: U16): Registry {
    Registry(worker, if cap < MAX_SLOTS then cap else MAX_SLOTS,
             seq(MAX_SLOTS, _ => Cell(false, 0, 0, [], false, None, false)))
  }

  /** The slot holds an op at this low-16 generation, as a sentinel names it. */
  predicate SlotLive(r: Registry, slot: U16, low16: U16)
    requires Shaped(r)
  {
    slot < r.cap && r.cells[slot].occupied && r.cells[slot].generation % 0x1_0000 == low16
  }

  /** The slot holds an op at this full generation, as a stream's key names it. */
  predicate KeyLive(r: Registry, key: Key)
    requires Shaped(r)
  {
    && key.worker == r.worker
    && key.slot < r.cap
    && r.cells[key.slot].occupied
    && r.cells[key.slot].generation == key.generation
  }

  function Store(r: Registry, slot: nat, c: Cell): (r': Registry)
    requires Shaped(r) && slot < MAX_SLOTS && |c.queue| <= FIFO_DEPTH
    ensures Shaped(r')
  {
    r.(cells := r.cells[slot := c])
  }

  /** The least free slot at or after `from`. */
  function FirstFreeFrom(r: Registry, from: nat): (s: Option<U16>)
    requires Shaped(r) && from <= r.cap
    ensures s.Some? ==> from <= s.value < r.cap && !r.cells[s.value].occupied
    ensures s.Some? ==> forall t | from <= t < s.value :: r.cells[t].occupied
    ensures s.None? ==> forall t | from <= t < r.cap :: r.cells[t].occupied
    decreases r.cap - from
  {
    if from == r.cap then None
    else if !r.cells[from].occupied then Some(from)
    else FirstFreeFrom(r, from + 1)
  }

  function Allocate(r: Registry, owner: U64): (o: (Registry, Option<Key>))
    requires Shaped(r)
    ensures Shaped(o.0)
  {
    match FirstFreeFrom(r, 0)
    case None => (r, None)
    case Some(s) =>
      var c := r.cells[s];
      (Store(r, s, Cell(true, c.generation, owner, [], false, None, false)),
       Some(Key(s, c.generation, r.worker)))
  }

  datatype PushOutcome = Queued | Terminal | Overflowed | Stale

  function Push(r: Registry, slot: U16, low16: U16, e: Entry, more: bool): (o: (Registry, PushOutcome))
    requires Shaped(r)
    ensures Shaped(o.0)
  {
    if !SlotLive(r, slot, low16) then (r, Stale)
    else
      var c := r.cells[slot];
      if !more then (Store(r, slot, c.(terminated := true, stash := Some(e))), Terminal)
      else if |c.queue| >= FIFO_DEPTH then (r, Overflowed)
      else (Store(r, slot, c.(queue := c.queue + [e])), Queued)
  }

  function Pop(r: Registry, key: Key): (o: (Registry, Option<Entry>))
    requires Shaped(r)
    ensures Shaped(o.0)
  {
    if !KeyLive(r, key) || r.cells[key.slot].queue == [] then (r, None)
    else
      var c := r.cells[key.slot];
      (Store(r, key.slot, c.(queue := c.queue[1..])), Some(c.queue[0]))
  }

  function TakeTerminal(r: Registry, key: Key): (o: (Registry, Option<Entry>))
    requires Shaped(r)
    ensures Shaped(o.0)
  {
    if !KeyLive(r, key) || r.cells[key.slot].stash.None? then (r, None)
    else
      var c := r.cells[key.slot];
      (Store(r, key.slot, c.(stash := None)), c.stash)
  }

  function Owner(r: Registry, slot: U16, low16: U16): Option<U64>
    requires Shaped(r)
  {
    if SlotLive(r, slot, low16) then Some(r.cells[slot].owner) else None
  }

  predicate IsTerminated(r: Registry, key: Key)
    requires Shaped(r)
  {
    KeyLive(r, key) && r.cells[key.slot].terminated
  }

  predicate IsCancelPending(r: Registry, slot: U16, low16: U16)
    requires Shaped(r)
  {
    SlotLive(r, slot, low16) && r.cells[slot].cancelPending
  }

  function MarkCancelPending(r: Registry, key: Key): (r': Registry)
    requires Shaped(r)
    ensures Shaped(r')
  {
    if KeyLive(r, key) then Store(r, key.slot, r.cells[key.slot].(cancelPending := true)) else r
  }

  /** `wrapping_add(1)` on a `u64`. */
  function Bump(g: U64): U64 {
    if g == 0xFFFF_FFFF_FFFF_FFFF then 0 else g + 1
  }

  function Vacated(c: Cell): Cell {
    Cell(false, Bump(c.generation), c.owner, [], false, None, false)
  }

  function Free(r: Registry, key: Key): (r': Registry)
    requires Shaped(r)
    ensures Shaped(r')
  {
    if KeyLive(r, key) then Store(r, key.slot, Vacated(r.cells[key.slot])) else r
  }

  function FreeBySlot(r: Registry, slot: U16, low16: U16): (r': Registry)
    requires Shaped(r)
    ensures Shaped(r')
  {
    if SlotLive(r, slot, low16) then Store(r, slot, Vacated(r.cells[slot])) else r
  }

  // ---------------------------------------------------------------------
  // The completion drain, the cancel drain and the stream's poll
  // ---------------------------------------------------------------------

  /** Which buffers an entry, a stash or a queue still carries. */
  function BufOf(e: Entry): seq<U16> {
    if e.bufId == NO_BUFFER then [] else [e.bufId]
  }

  function StashBufs(stash: Option<Entry>): seq<U16> {
    if stash.None? then [] else BufOf(stash.value)
  }

  function QueueBufs(queue: seq<Entry>): seq<U16> {
    if queue == [] then [] else BufOf(queue[0]) + QueueBufs(queue[1..])
  }

  function OptBuf(buf: Option<U16>): seq<U16> {
    if buf.None? then [] else [buf.value]
  }

  function ToEntry(result: I32, buf: Option<U16>): Entry {
    Entry(result, if buf.None? then NO_BUFFER else buf.value)
  }

  /** The targets of one completion: who to wake, who to retire, what went back to the ring. */
  datatype Completion = Completion(reg: Registry, wake: Option<U64>, retire: Option<U64>, recycled: seq<U16>)

  function Complete(r: Registry, slot: U16, low16: U16, result: I32, more: bool, buf: Option<U16>): (o: Completion)
    requires Shaped(r)
    ensures Shaped(o.reg)
  {
    var owner := Owner(r, slot, low16);
    var retire := if more then None else owner;
    if IsCancelPending(r, slot, low16) then
      Completion(if more then r else FreeBySlot(r, slot, low16), None, retire, OptBuf(buf))
    else
      var (r', outcome) := Push(r, slot, low16, ToEntry(result, buf), more);
      match outcome
      case Queued => Completion(r', owner, retire, [])
      case Terminal => Completion(r', owner, retire, [])
      case Overflowed => Completion(r', None, retire, OptBuf(buf))
      case Stale => Completion(r', None, retire, OptBuf(buf))
  }

  /** `submits` says whether an async cancel is handed to the kernel. */
  datatype CancelDrain = CancelDrain(reg: Registry, recycled: seq<U16>, submits: bool)

  function DrainCancel(r: Registry, key: Key): (o: CancelDrain)
    requires Shaped(r)
    ensures Shaped(o.reg)
  {
    if !KeyLive(r, key) then CancelDrain(r, [], true)
    else
      var c := r.cells[key.slot];
      var recycled := QueueBufs(c.queue) + StashBufs(c.stash);
      if c.terminated then CancelDrain(Free(r, key), recycled, false)
      else CancelDrain(Store(r, key.slot, c.(queue := [], stash := None, cancelPending := true)), recycled, true)
  }

  datatype Next = Item(result: I32, buf: Option<U16>) | Pending | Ended

  function ToItem(e: Entry): Next {
    Item(e.result, if e.bufId == NO_BUFFER then None else Some(e.bufId))
  }

  function Advance(r: Registry, key: Key): (o: (Registry, Next))
    requires Shaped(r)
    ensures Shaped(o.0)
  {
    var (r1, e) := Pop(r, key);
    if e.Some? then (r1, ToItem(e.value))
    else
      var (r2, t) := TakeTerminal(r1, key);
      if t.Some? then (r2, ToItem(t.value))
      else if IsTerminated(r2, key) then (Free(r2, key), Ended)
      else (r2, Pending)
  }
}
