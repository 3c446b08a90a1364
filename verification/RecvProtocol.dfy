/**
 The life of provided buffers and multishot recv ops: the worker's registry,
 its recv streams, the cancel inbox, the completion drain and the kernel, as
 one labelled machine. A label whose guard fails changes nothing, so a run is
 any sequence of labels.

 The kernel side keeps to the io_uring contract: it takes buffers from the ring
 in order, names at most one per completion and only with a non-negative
 result, posts one completion without `MORE` per op and nothing after it, and
 answers an accepted cancel with one bufferless completion carrying the op's
 sentinel, in any order relative to the op's own.
 */
module RecvProtocol {
  import opened Basics
  import opened Words
  import opened RecvRegistry
  import opened Token

  const INBOX_CAPACITY := 256

  /** One completion as the kernel posted it. */
  datatype Posted = Posted(entry: Entry, more: bool)

  /** `op` and `ofCancel` say which request this completion answers; only the kernel knows. */
  datatype Cqe = Cqe(userData: nat, result: I32, more: bool, buf: Option<U16>, op: nat, ofCancel: bool)

  /** Who is responsible for an op: its stream, the inbox, the kernel's cancel, or nobody. */
  datatype Phase = Live(stream: nat) | Dropped | Cancelling | Freed

  /**
   The record of one submitted op. `epoch` counts the frees of its slot before
   it, `posted` is everything the kernel said, `drained` how much of that the
   drain has read, `kept` which of it the registry kept, `yielded` what the
   stream handed out, `cancels` the accepted cancels not answered yet, `retired`
   how often its owner was retired, and `finished` that the stream saw its end.
   */
  datatype Op = Op(
    key: Key,
    epoch: nat,
    owner: U64,
    phase: Phase,
    posted: seq<Posted>,
    drained: nat,
    kept: seq<bool>,
    yielded: seq<Entry>,
    cancels: nat,
    retired: nat,
    finished: bool)

  datatype Stream = Idle | Multishot(key: Key, op: nat) | Fallback | Done

  /**
   `ring` holds the ids the kernel may pick, oldest first; `held` the ids lent
   to consumers; `epochs` counts the frees of each slot; `current` maps each
   occupied slot to its op.
   */
  datatype World = World(
    reg: Registry,
    ring: seq<U16>,
    cq: seq<Cqe>,
    held: multiset<U16>,
    streams: map<nat, Stream>,
    inbox: seq<Key>,
    inboxOps: seq<nat>,
    ops: seq<Op>,
    epochs: seq<nat>,
    current: map<nat, nat>)

  datatype Label =
    | Poll(stream: nat, token: U64, submitted: bool)
    | DropStream(stream: nat)
    | DropBuf(id: U16)
    | CancelTick(accepted: bool)
    | CompletionTick
    | KernelPost(op: nat, result: I32, more: bool, takesBuffer: bool)
    | KernelCancelled(op: nat, result: I32)

  predicate Sized(w: World) {
    && Shaped(w.reg)
    && |w.epochs| == MAX_SLOTS
    && |w.inbox| == |w.inboxOps|
    && (forall k | 0 <= k < |w.inboxOps| :: w.inboxOps[k] < |w.ops|)
    && (forall k | 0 <= k < |w.cq| :: w.cq[k].op < |w.ops|)
    && (forall x | x in w.streams && w.streams[x].Multishot? :: w.streams[x].op < |w.ops|)
    && (forall s | s in w.current :: s < MAX_SLOTS && w.current[s] < |w.ops|)
    && (forall i | 0 <= i < |w.ops| :: w.ops[i].key.slot < MAX_SLOTS)
  }

  /** The buffer ring holds at most 2^15 entries, so no real id is `NO_BUFFER`. */
  type PoolSize = n: nat | n <= 0x8000

  /** The ids `0..entries`, as the pool pushes them at construction. */
  function FirstIds(entries: PoolSize): seq<U16> {
    seq(entries, i requires 0 <= i < entries => i)
  }

  function Start(worker: U8, cap: U16, entries: PoolSize): World {
    World(RecvRegistry.Fresh(worker, cap), FirstIds(entries), [], multiset{}, map[], [], [], [],
      seq(MAX_SLOTS, _ => 0), map[])
  }

  function HasEnded(op: Op): bool {
    op.posted != [] && !op.posted[|op.posted| - 1].more
  }

  function EndDrained(op: Op): bool {
    HasEnded(op) && op.drained == |op.posted|
  }

  function StreamOf(w: World, x: nat): Stream {
    if x in w.streams then w.streams[x] else Idle
  }

  /** Slot `s` was freed: its op is nobody's any more. */
  function Release(w: World, s: nat, i: nat, finished: bool): (w': World)
    requires Sized(w) && s < MAX_SLOTS && i < |w.ops|
    ensures Sized(w')
  {
    w.(epochs := w.epochs[s := w.epochs[s] + 1],
       current := w.current - {s},
       ops := w.ops[i := w.ops[i].(phase := Phase.Freed, finished := finished)])
  }

  /** `start_multishot`: allocate, submit, and fall back when either fails. */
  function StartStream(w: World, x: nat, token: U64, submitted: bool): (w': World)
    requires Sized(w)
    ensures Sized(w')
  {
    var (reg, key) := Allocate(w.reg, token);
    match key
    case None => w.(streams := w.streams[x := Fallback])
    case Some(k) =>
      if submitted then
        var op := Op(k, w.epochs[k.slot], token, Live(x), [], 0, [], [], 0, 0, false);
        w.(reg := reg, ops := w.ops + [op], current := w.current[k.slot as nat := |w.ops|],
           streams := w.streams[x := Multishot(k, |w.ops|)])
      else
        w.(reg := Free(reg, k), epochs := w.epochs[k.slot := w.epochs[k.slot] + 1],
           streams := w.streams[x := Fallback])
  }

  /** One `poll_next` of a stream whose op is in flight. */
  function PollStream(w: World, x: nat, key: Key, i: nat): (w': World)
    requires Sized(w) && i < |w.ops|
    ensures Sized(w')
  {
    var (reg, next) := Advance(w.reg, key);
    match next
    case Item(result, buf) =>
      w.(reg := reg, held := w.held + multiset(OptBuf(buf)),
         ops := w.ops[i := w.ops[i].(yielded := w.ops[i].yielded + [ToEntry(result, buf)])])
    case Pending => w.(reg := reg)
    case Ended =>
      if key.slot < MAX_SLOTS
      then Release(w.(reg := reg, streams := w.streams[x := Done]), key.slot, i, true)
      else w
  }

  /** The worker takes the oldest queued cancel. */
  function TickCancel(w: World, accepted: bool): (w': World)
    requires Sized(w) && w.inbox != []
    ensures Sized(w')
  {
    var key, i := w.inbox[0], w.inboxOps[0];
    var o := DrainCancel(w.reg, key);
    var w1 := w.(reg := o.reg, ring := w.ring + o.recycled, inbox := w.inbox[1..], inboxOps := w.inboxOps[1..]);
    if o.submits then
      w1.(ops := w.ops[i := w.ops[i].(phase := Cancelling, cancels := if accepted then 1 else 0)])
    else if key.slot < MAX_SLOTS then Release(w1, key.slot, i, false)
    else w1
  }

  /** The drain's bookkeeping for the op a slot currently belongs to. */
  function Charge(op: Op, retires: bool, pushed: Option<bool>): Op {
    op.(retired := op.retired + (if retires then 1 else 0),
        kept := op.kept + (if pushed.Some? then [pushed.value] else []))
  }

  /** Whether a completion reached `push` on a live slot, and whether it was kept. */
  function Pushed(r: Registry, slot: U16, low16: U16, more: bool): Option<bool>
    requires Shaped(r)
  {
    if !SlotLive(r, slot, low16) || r.cells[slot].cancelPending then None
    else Some(!more || |r.cells[slot].queue| < FIFO_DEPTH)
  }

  function Read(w: World): World
    requires Sized(w) && w.cq != []
  {
    var c := w.cq[0];
    var op := w.ops[c.op];
    w.(cq := w.cq[1..], ops := if c.ofCancel then w.ops else w.ops[c.op := op.(drained := op.drained + 1)])
  }

  /** The worker routes the oldest completion. */
  function TickCompletion(w: World): (w': World)
    requires Sized(w) && w.cq != []
    ensures Sized(w')
  {
    var c := w.cq[0];
    var slot, low16 := SentinelSlot(c.userData), SentinelGeneration(c.userData);
    var o := Complete(w.reg, slot, low16, c.result, c.more, c.buf);
    var w1 := Read(w).(reg := o.reg, ring := w.ring + o.recycled);
    if slot !in w.current then w1
    else
      var i := w.current[slot];
      var w2 := w1.(ops := w1.ops[i := Charge(w1.ops[i], o.retire.Some?, Pushed(w.reg, slot, low16, c.more))]);
      if IsCancelPending(w.reg, slot, low16) && !c.more then Release(w2, slot, i, false) else w2
  }

  function TickKernel(w: World, i: nat, result: I32, more: bool, takesBuffer: bool): (w': World)
    requires Sized(w)
    ensures Sized(w')
  {
    if i >= |w.ops| || HasEnded(w.ops[i]) || (takesBuffer && (w.ring == [] || result < 0)) then w
    else
      var buf := if takesBuffer then Some(w.ring[0]) else None;
      var op := w.ops[i];
      w.(ring := if takesBuffer then w.ring[1..] else w.ring,
         cq := w.cq + [Cqe(Encode(op.key), result, more, buf, i, false)],
         ops := w.ops[i := op.(posted := op.posted + [Posted(ToEntry(result, buf), more)])])
  }

  function AnswerCancel(w: World, i: nat, result: I32): (w': World)
    requires Sized(w)
    ensures Sized(w')
  {
    if i >= |w.ops| || w.ops[i].cancels == 0 then w
    else w.(cq := w.cq + [Cqe(Encode(w.ops[i].key), result, false, None, i, true)],
            ops := w.ops[i := w.ops[i].(cancels := w.ops[i].cancels - 1)])
  }

  /** `Drop` of a stream: a multishot one queues its key for the cancel drain. */
  function Abandon(w: World, x: nat): (w': World)
    requires Sized(w)
    ensures Sized(w')
  {
    match StreamOf(w, x)
    case Multishot(key, i) =>
      var w1 := w.(streams := w.streams[x := Done], ops := w.ops[i := w.ops[i].(phase := Dropped)]);
      if |w.inbox| < INBOX_CAPACITY
      then w1.(inbox := w.inbox + [key], inboxOps := w.inboxOps + [i])
      else w1
    case _ => w.(streams := w.streams[x := Done])
  }

  /** A consumer drops a buffer view. */
  function GiveBack(w: World, id: U16): (w': World)
    requires Sized(w)
    ensures Sized(w')
  {
    if id in w.held then w.(held := w.held - multiset{id}, ring := w.ring + [id]) else w
  }

  function PollTick(w: World, x: nat, token: U64, submitted: bool): (w': World)
    requires Sized(w)
    ensures Sized(w')
  {
    var w1 := if StreamOf(w, x).Idle? then StartStream(w, x, token, submitted) else w;
    match StreamOf(w1, x)
    case Multishot(key, i) => PollStream(w1, x, key, i)
    case _ => w1
  }

  function Step(w: World, l: Label): (w': World)
    requires Sized(w)
    ensures Sized(w')
  {
    match l
    case Poll(x, token, submitted) => PollTick(w, x, token, submitted)
    case DropStream(x) => Abandon(w, x)
    case DropBuf(id) => GiveBack(w, id)
    case CancelTick(accepted) => if w.inbox == [] then w else TickCancel(w, accepted)
    case CompletionTick => if w.cq == [] then w else TickCompletion(w)
    case KernelPost(i, result, more, takesBuffer) => TickKernel(w, i, result, more, takesBuffer)
    case KernelCancelled(i, result) => AnswerCancel(w, i, result)
  }

  function Run(worker: U8, cap: U16, entries: PoolSize, ls: seq<Label>): (w: World)
    ensures Sized(w)
  {
    if ls == [] then Start(worker, cap, entries)
    else Step(Run(worker, cap, entries, ls[..|ls| - 1]), ls[|ls| - 1])
  }

  /** Every completion waiting to be drained is of one of its slot's last 2^16 uses. */
  ghost predicate Timely(w: World)
    requires Sized(w)
  {
    forall k | 0 <= k < |w.cq| ::
      var op := w.ops[w.cq[k].op];
      w.epochs[op.key.slot] < op.epoch + 0x1_0000
  }

  // ---------------------------------------------------------------------
  // Where the buffers are
  // ---------------------------------------------------------------------

  function Occ(s: seq<U16>, b: U16): nat {
    if s == [] then 0 else (if s[0] == b then 1 else 0) + Occ(s[1..], b)
  }

  function InCell(c: Cell, b: U16): nat {
    Occ(QueueBufs(c.queue), b) + Occ(StashBufs(c.stash), b)
  }

  function InCells(cells: seq<Cell>, b: U16): nat {
    if cells == [] then 0 else InCells(cells[..|cells| - 1], b) + InCell(cells[|cells| - 1], b)
  }

  function InCq(cq: seq<Cqe>, b: U16): nat {
    if cq == [] then 0 else Occ(OptBuf(cq[0].buf), b) + InCq(cq[1..], b)
  }

  /** In how many places buffer `b` is: ring, pending completions, FIFOs and stashes, consumers' hands. */
  function Places(w: World, b: U16): nat {
    Occ(w.ring, b) + InCq(w.cq, b) + InCells(w.reg.cells, b) + w.held[b]
  }

  // ---------------------------------------------------------------------
  // The invariant
  // ---------------------------------------------------------------------

  /** The completions of op `i` still waiting in the queue, in order. */
  function Waiting(cq: seq<Cqe>, i: nat): seq<Posted> {
    if cq == [] then []
    else (if cq[0].op == i && !cq[0].ofCancel then [Posted(ToEntry(cq[0].result, cq[0].buf), cq[0].more)] else [])
         + Waiting(cq[1..], i)
  }

  /** The entries the registry kept, in arrival order. */
  function Kept(posted: seq<Posted>, kept: seq<bool>): seq<Entry>
    requires |posted| == |kept|
  {
    if posted == [] then []
    else
      var k := |posted| - 1;
      Kept(posted[..k], kept[..k]) + (if kept[k] then [posted[k].entry] else [])
  }

  function StashSeq(stash: Option<Entry>): seq<Entry> {
    if stash.None? then [] else [stash.value]
  }

  /** What the kernel posted for `op`, and how far the drain got. */
  ghost predicate TraceInv(cq: seq<Cqe>, i: nat, op: Op) {
    && op.drained <= |op.posted|
    && (forall k | 0 <= k < |op.posted| - 1 :: op.posted[k].more)
    && Waiting(cq, i) == op.posted[op.drained..]
  }

  /** The registry kept every terminal, and the stream saw a prefix of what was kept. */
  ghost predicate OrderInv(op: Op, pending: seq<Entry>) {
    && |op.kept| == op.drained <= |op.posted|
    && (forall k | 0 <= k < |op.kept| :: op.kept[k] || op.posted[k].more)
    && op.yielded + pending == Kept(op.posted[..op.drained], op.kept)
  }

  /** An op that still owns its slot. */
  ghost predicate HeldInv(op: Op, c: Cell) {
    && c.occupied && c.owner == op.owner && c.generation == op.key.generation
    && c.terminated == EndDrained(op)
    && op.retired == (if EndDrained(op) then 1 else 0)
    && c.cancelPending == op.phase.Cancelling?
    && (c.stash.Some? ==> c.terminated)
    && !op.finished
    && if op.phase.Cancelling? then !c.terminated && c.queue == []
       else op.cancels == 0 && OrderInv(op, c.queue + StashSeq(c.stash))
  }

  /** The wrapping generation of a slot after `epoch` frees. */
  function Generation(epoch: nat): U64 {
    if epoch == 0 then 0 else Bump(Generation(epoch - 1))
  }

  ghost predicate OpInv(w: World, i: nat)
    requires Sized(w) && i < |w.ops|
  {
    var op := w.ops[i];
    var s := op.key.slot;
    && s < w.reg.cap && op.key.worker == w.reg.worker && op.key.generation == Generation(op.epoch)
    && TraceInv(w.cq, i, op)
    && (if op.phase.Freed? then
          op.epoch < w.epochs[s] && op.retired == 1 && (op.finished ==> EndDrained(op) && OrderInv(op, []))
        else
          s in w.current && w.current[s] == i && op.epoch == w.epochs[s] && HeldInv(op, w.reg.cells[s]))
    && (op.phase.Live? ==> StreamOf(w, op.phase.stream) == Multishot(op.key, i))
    && (op.phase.Dropped? ==> i in w.inboxOps)
  }

  ghost predicate CellInv(w: World, s: nat)
    requires Sized(w) && s < MAX_SLOTS
  {
    var c := w.reg.cells[s];
    && c.generation == Generation(w.epochs[s])
    && (c.occupied <==> s in w.current)
    && (if c.occupied then
          var op := w.ops[w.current[s]];
          s < w.reg.cap && op.key.slot == s && !op.phase.Freed?
        else c.queue == [] && c.stash == None)
  }

  ghost predicate StreamInv(w: World, x: nat)
    requires Sized(w)
  {
    match StreamOf(w, x)
    case Multishot(key, i) => i < |w.ops| && w.ops[i].phase == Live(x) && w.ops[i].key == key
    case _ => true
  }

  ghost predicate InboxInv(w: World)
    requires Sized(w)
  {
    && (forall k | 0 <= k < |w.inbox| ::
          w.ops[w.inboxOps[k]].phase.Dropped? && w.ops[w.inboxOps[k]].key == w.inbox[k])
    && (forall j, k | 0 <= j < k < |w.inbox| :: w.inboxOps[j] != w.inboxOps[k])
  }

  ghost predicate CqeInv(w: World, c: Cqe)
    requires Sized(w) && c.op < |w.ops|
  {
    && c.userData == Encode(w.ops[c.op].key)
    && (c.ofCancel ==> !c.more && c.buf.None? && (w.ops[c.op].phase.Cancelling? || w.ops[c.op].phase.Freed?))
    && (c.buf.Some? ==> c.result >= 0)
  }

  ghost predicate Inv(w: World) {
    && Sized(w)
    && (forall i | 0 <= i < |w.ops| :: OpInv(w, i))
    && (forall s | 0 <= s < MAX_SLOTS :: CellInv(w, s))
    && (forall x: nat :: StreamInv(w, x))
    && InboxInv(w)
    && (forall k | 0 <= k < |w.cq| :: CqeInv(w, w.cq[k]))
  }

  /** Every buffer of the pool is in exactly one place. */
  ghost predicate Conserved(w: World, entries: PoolSize) {
    forall b: U16 :: Places(w, b) == if b < entries then 1 else 0
  }
}
