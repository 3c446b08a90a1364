/**
 What the recv protocol promises in every run whose pending completions are of
 recent slot uses: no buffer is lost or doubled, every op retires its owner
 once, streams see what arrived in order, and the bounded stores never overflow.
 */
module RecvTheorems {
  import opened Basics
  import opened Words
  import opened RecvRegistry
  import opened Token
  import opened RecvProtocol
  import opened RecvSafety

  // ---------------------------------------------------------------------
  // Each step keeps every buffer
  // ---------------------------------------------------------------------

  /** The oldest completion names a real buffer, never the no-buffer mark. */
  lemma HeadBuffer(w: World, entries: PoolSize)
    requires Conserved(w, entries) && w.cq != [] && w.cq[0].buf.Some?
    ensures w.cq[0].buf.value < entries
  {
    var b := w.cq[0].buf.value;
    assert Occ(OptBuf(w.cq[0].buf), b) == 1;
    assert Places(w, b) >= 1;
  }

  /** A step that rewrites one cell keeps the count when what the cell lost went elsewhere. */
  lemma Moved(w: World, w': World, s: nat, c: Cell, b: U16)
    requires s < |w.reg.cells| && w'.reg.cells == w.reg.cells[s := c]
    requires Occ(w'.ring, b) + InCq(w'.cq, b) + InCell(c, b) + w'.held[b]
          == Occ(w.ring, b) + InCq(w.cq, b) + InCell(w.reg.cells[s], b) + w.held[b]
    ensures Places(w', b) == Places(w, b)
  {
    CellsUpdate(w.reg.cells, s, c, b);
  }

  lemma StartConserves(w: World, x: nat, token: U64, submitted: bool, b: U16)
    requires Inv(w) && StreamOf(w, x).Idle?
    ensures Places(StartStream(w, x, token, submitted), b) == Places(w, b)
  {
    var free := FirstFreeFrom(w.reg, 0);
    if free.Some? {
      assert CellInv(w, free.value);
      var w' := StartStream(w, x, token, submitted);
      Moved(w, w', free.value, w'.reg.cells[free.value], b);
    }
  }

  lemma ItemBuf(e: Entry)
    ensures ToItem(e).Item? && OptBuf(ToItem(e).buf) == BufOf(e)
  {
  }

  lemma PollConserves(w: World, x: nat, key: Key, i: nat, b: U16)
    requires Inv(w) && StreamOf(w, x) == Multishot(key, i)
    ensures Places(PollStream(w, x, key, i), b) == Places(w, b)
  {
    assert StreamInv(w, x) && OpInv(w, i);
    AdvanceCell(w.reg, key);
    var w', c := PollStream(w, x, key, i), w.reg.cells[key.slot];
    if c.queue != [] {
      ItemBuf(c.queue[0]);
      YieldCount(BufOf(c.queue[0]), w.held, b);
      OccConcat(BufOf(c.queue[0]), QueueBufs(c.queue[1..]), b);
      Moved(w, w', key.slot, c.(queue := c.queue[1..]), b);
    } else if c.stash.Some? {
      ItemBuf(c.stash.value);
      YieldCount(BufOf(c.stash.value), w.held, b);
      Moved(w, w', key.slot, c.(stash := None), b);
    } else if c.terminated {
      Moved(w, w', key.slot, Vacated(c), b);
    }
  }

  lemma YieldCount(bufs: seq<U16>, held: multiset<U16>, b: U16)
    requires |bufs| <= 1
    ensures (held + multiset(bufs))[b] == held[b] + Occ(bufs, b)
  {
    assert |bufs| == 1 ==> bufs == [bufs[0]];
  }

  lemma CancelConserves(w: World, accepted: bool, b: U16)
    requires Inv(w) && w.inbox != []
    ensures Places(TickCancel(w, accepted), b) == Places(w, b)
  {
    CancelCell(w);
    CancelShape(w, accepted);
    var w', s := TickCancel(w, accepted), w.inbox[0].slot;
    var c := w.reg.cells[s];
    assert w'.ring == w.ring + (QueueBufs(c.queue) + StashBufs(c.stash));
    OccConcat(w.ring, QueueBufs(c.queue) + StashBufs(c.stash), b);
    OccConcat(QueueBufs(c.queue), StashBufs(c.stash), b);
    Moved(w, w', s, w'.reg.cells[s], b);
  }

  /** A pushed entry adds its buffer to the cell. */
  lemma PushCount(c: Cell, e: Entry, b: U16)
    ensures InCell(c.(queue := c.queue + [e]), b) == InCell(c, b) + Occ(BufOf(e), b)
    ensures c.stash.None? ==> InCell(c.(terminated := true, stash := Some(e)), b) == InCell(c, b) + Occ(BufOf(e), b)
  {
    QueueAppend(c.queue, e);
    OccConcat(QueueBufs(c.queue), BufOf(e), b);
  }

  lemma PendingConserves(w: World, b: U16)
    requires Inv(w) && Timely(w) && w.cq != [] && !w.ops[w.cq[0].op].phase.Freed?
    requires w.reg.cells[w.ops[w.cq[0].op].key.slot].cancelPending
    ensures Places(TickCompletion(w), b) == Places(w, b)
  {
    HeldHead(w);
    PendingTick(w);
    var s := w.ops[w.cq[0].op].key.slot;
    OccConcat(w.ring, OptBuf(w.cq[0].buf), b);
    if !w.cq[0].more {
      Moved(w, TickCompletion(w), s, Vacated(w.reg.cells[s]), b);
    }
  }

  lemma PushConserves(w: World, entries: PoolSize, b: U16)
    requires Inv(w) && Timely(w) && w.cq != [] && !w.ops[w.cq[0].op].phase.Freed? && Conserved(w, entries)
    requires !w.reg.cells[w.ops[w.cq[0].op].key.slot].cancelPending
    ensures Places(TickCompletion(w), b) == Places(w, b)
  {
    HeldHead(w);
    PushTick(w);
    HeadPosted(w);
    var c, s := w.cq[0], w.ops[w.cq[0].op].key.slot;
    var cell, e := w.reg.cells[s], ToEntry(c.result, c.buf);
    if c.buf.Some? {
      HeadBuffer(w, entries);
    }
    assert BufOf(e) == OptBuf(c.buf);
    OccConcat(w.ring, OptBuf(c.buf), b);
    OccConcat(w.ring, [], b);
    PushCount(cell, e, b);
    Moved(w, TickCompletion(w), s, PushedCell(cell, e, c.more), b);
  }

  lemma CompletionConserves(w: World, entries: PoolSize, b: U16)
    requires Inv(w) && Timely(w) && w.cq != [] && Conserved(w, entries)
    ensures Places(TickCompletion(w), b) == Places(w, b)
  {
    if w.ops[w.cq[0].op].phase.Freed? {
      StaleShape(w);
      OccConcat(w.ring, OptBuf(w.cq[0].buf), b);
    } else if w.reg.cells[w.ops[w.cq[0].op].key.slot].cancelPending {
      PendingConserves(w, b);
    } else {
      PushConserves(w, entries, b);
    }
  }

  lemma KernelConserves(w: World, i: nat, result: I32, more: bool, takesBuffer: bool, b: U16)
    requires Sized(w)
    ensures Places(TickKernel(w, i, result, more, takesBuffer), b) == Places(w, b)
  {
    var w' := TickKernel(w, i, result, more, takesBuffer);
    if w' != w {
      CqAppend(w.cq, w'.cq[|w.cq|], b);
    }
  }

  lemma CancelledConserves(w: World, i: nat, result: I32, b: U16)
    requires Sized(w)
    ensures Places(AnswerCancel(w, i, result), b) == Places(w, b)
  {
    if i < |w.ops| && w.ops[i].cancels > 0 {
      CqAppend(w.cq, AnswerCancel(w, i, result).cq[|w.cq|], b);
    }
  }

  lemma DropBufConserves(w: World, id: U16, b: U16)
    requires Sized(w)
    ensures Places(GiveBack(w, id), b) == Places(w, b)
  {
    OccConcat(w.ring, [id], b);
  }

  lemma AbandonConserves(w: World, x: nat, b: U16)
    requires Sized(w)
    ensures Places(Abandon(w, x), b) == Places(w, b)
  {
  }

  lemma StreamStepConserves(w: World, x: nat, token: U64, submitted: bool, b: U16)
    requires Inv(w)
    ensures Places(PollTick(w, x, token, submitted), b) == Places(w, b)
  {
    if StreamOf(w, x).Idle? {
      StartConserves(w, x, token, submitted, b);
      StartKeepsInv(w, x, token, submitted);
      var w1 := StartStream(w, x, token, submitted);
      if StreamOf(w1, x).Multishot? {
        PollConserves(w1, x, StreamOf(w1, x).key, StreamOf(w1, x).op, b);
      }
    } else if StreamOf(w, x).Multishot? {
      PollConserves(w, x, StreamOf(w, x).key, StreamOf(w, x).op, b);
    }
  }

  /** Which function each label runs. */
  lemma StepIs(w: World, l: Label)
    requires Sized(w)
    ensures match l
            case Poll(x, token, submitted) => Step(w, l) == PollTick(w, x, token, submitted)
            case DropStream(x) => Step(w, l) == Abandon(w, x)
            case DropBuf(id) => Step(w, l) == GiveBack(w, id)
            case CancelTick(accepted) => Step(w, l) == if w.inbox == [] then w else TickCancel(w, accepted)
            case CompletionTick => if w.cq == [] then Step(w, l) == w else Step(w, l) == TickCompletion(w)
            case KernelPost(i, result, more, takesBuffer) => Step(w, l) == TickKernel(w, i, result, more, takesBuffer)
            case KernelCancelled(i, result) => Step(w, l) == AnswerCancel(w, i, result)
  {
    hide PollTick, Abandon, GiveBack, TickCancel, TickCompletion, TickKernel, AnswerCancel;
  }

  lemma StepKeepsBuffer(w: World, l: Label, entries: PoolSize, b: U16)
    requires Inv(w) && Timely(w) && Conserved(w, entries)
    ensures Places(Step(w, l), b) == Places(w, b)
  {
    assert Sized(w);
    hide *;
    StepIs(w, l);
    match l
    case Poll(x, token, submitted) => StreamStepConserves(w, x, token, submitted, b);
    case DropStream(x) => AbandonConserves(w, x, b);
    case DropBuf(id) => DropBufConserves(w, id, b);
    case CancelTick(accepted) => if w.inbox != [] { CancelConserves(w, accepted, b); }
    case CompletionTick => if w.cq != [] { CompletionConserves(w, entries, b); }
    case KernelPost(i, result, more, takesBuffer) => KernelConserves(w, i, result, more, takesBuffer, b);
    case KernelCancelled(i, result) => CancelledConserves(w, i, result, b);
  }

  lemma StepConserves(w: World, l: Label, entries: PoolSize)
    requires Inv(w) && Timely(w) && Conserved(w, entries)
    ensures Conserved(Step(w, l), entries)
  {
    forall b: U16 ensures Places(Step(w, l), b) == if b < entries then 1 else 0 {
      StepKeepsBuffer(w, l, entries, b);
    }
  }

  // ---------------------------------------------------------------------
  // Whole runs
  // ---------------------------------------------------------------------

  /** In every state of the run, pending completions belong to recent slot uses. */
  ghost predicate TimelyRun(worker: U8, cap: U16, entries: PoolSize, ls: seq<Label>) {
    forall k | 0 <= k < |ls| :: Timely(Run(worker, cap, entries, ls[..k]))
  }

  lemma {:induction false} RunSafe(worker: U8, cap: U16, entries: PoolSize, ls: seq<Label>)
    requires TimelyRun(worker, cap, entries, ls)
    ensures Inv(Run(worker, cap, entries, ls)) && Conserved(Run(worker, cap, entries, ls), entries)
  {
    if ls == [] {
      InitInv(worker, cap, entries);
      var w := Start(worker, cap, entries);
      forall b: U16 ensures Places(w, b) == if b < entries then 1 else 0 {
        IdsOnce(entries, b);
        NoneInCells(w.reg.cells, b);
      }
    } else {
      var before := ls[..|ls| - 1];
      forall k | 0 <= k < |before| ensures Timely(Run(worker, cap, entries, before[..k])) {
        assert before[..k] == ls[..k];
      }
      RunSafe(worker, cap, entries, before);
      var w := Run(worker, cap, entries, before);
      assert Timely(w);
      StepKeepsInv(w, ls[|ls| - 1]);
      StepConserves(w, ls[|ls| - 1], entries);
    }
  }

  lemma {:induction false} NoneInCells(cells: seq<Cell>, b: U16)
    requires forall s | 0 <= s < |cells| :: cells[s].queue == [] && cells[s].stash == None
    ensures InCells(cells, b) == 0
  {
    if cells != [] {
      NoneInCells(cells[..|cells| - 1], b);
    }
  }

  /**
   Every buffer of the pool is in exactly one place: on the ring, in a pending
   completion, in a FIFO or stash, or lent to a consumer.
   */
  lemma BuffersConserved(worker: U8, cap: U16, entries: PoolSize, ls: seq<Label>, b: U16)
    requires TimelyRun(worker, cap, entries, ls)
    ensures Places(Run(worker, cap, entries, ls), b) == if b < entries then 1 else 0
  {
    RunSafe(worker, cap, entries, ls);
  }

  /** Retired at most once, and once as soon as the last completion is drained or the slot is freed. */
  predicate RetiredOnce(op: Op) {
    op.retired <= 1 && (EndDrained(op) || op.phase.Freed? ==> op.retired == 1)
  }

  lemma RetiresOnce(worker: U8, cap: U16, entries: PoolSize, ls: seq<Label>)
    requires TimelyRun(worker, cap, entries, ls)
    ensures forall op | op in Run(worker, cap, entries, ls).ops :: RetiredOnce(op)
  {
    RunSafe(worker, cap, entries, ls);
    var w := Run(worker, cap, entries, ls);
    forall i | 0 <= i < |w.ops| ensures RetiredOnce(w.ops[i]) {
      assert OpInv(w, i);
    }
  }

  /** A stream has yielded, in arrival order, a prefix of what the registry kept; no terminal was dropped. */
  predicate InOrder(op: Op) {
    && |op.kept| == op.drained <= |op.posted|
    && op.yielded <= Kept(op.posted[..op.drained], op.kept)
    && (forall k | 0 <= k < |op.kept| :: op.kept[k] || op.posted[k].more)
  }

  /** A stream that ended has yielded everything kept, the terminal last and once. */
  predicate SawAll(op: Op) {
    var k := |op.posted| - 1;
    && HasEnded(op) && |op.kept| == |op.posted|
    && op.yielded == Kept(op.posted[..k], op.kept[..k]) + [op.posted[k].entry]
  }

  lemma StreamOrder(worker: U8, cap: U16, entries: PoolSize, ls: seq<Label>)
    requires TimelyRun(worker, cap, entries, ls)
    ensures forall op | op in Run(worker, cap, entries, ls).ops ::
              (op.phase.Live? || op.finished ==> InOrder(op)) && (op.finished ==> SawAll(op))
  {
    RunSafe(worker, cap, entries, ls);
    var w := Run(worker, cap, entries, ls);
    forall i | 0 <= i < |w.ops|
      ensures w.ops[i].phase.Live? || w.ops[i].finished ==> InOrder(w.ops[i])
      ensures w.ops[i].finished ==> SawAll(w.ops[i])
    {
      assert OpInv(w, i);
      if w.ops[i].finished {
        FinishedSawAll(w.ops[i]);
      }
    }
  }

  lemma FinishedSawAll(op: Op)
    requires EndDrained(op) && OrderInv(op, [])
    ensures SawAll(op)
  {
    assert op.posted[..op.drained] == op.posted;
    assert op.yielded + [] == op.yielded;
  }

  /**
   What a poll finds for op `i`: the next entry the registry kept, the end once
   all of them are out and the last completion is drained, else nothing yet.
   */
  ghost predicate AnswersNext(op: Op, next: Next)
    requires |op.kept| == op.drained <= |op.posted|
  {
    var all := Kept(op.posted[..op.drained], op.kept);
    && op.yielded <= all
    && (next.Item? <==> |op.yielded| < |all|)
    && (next.Item? ==> next == ToItem(all[|op.yielded|]))
    && (next.Ended? <==> op.yielded == all && EndDrained(op))
    && (next.Pending? <==> op.yielded == all && !EndDrained(op))
  }

  /** The next step of a live cell, by what it holds. */
  lemma AdvanceLive(r: Registry, key: Key)
    requires Shaped(r) && KeyLive(r, key) && (r.cells[key.slot].stash.Some? ==> r.cells[key.slot].terminated)
    ensures var c := r.cells[key.slot];
            var pending := c.queue + StashSeq(c.stash);
            Advance(r, key).1 == if pending != [] then ToItem(pending[0]) else if c.terminated then Ended else Pending
  {
  }

  /** In every run a live stream's poll answers the next kept entry, and ends exactly when there is no more to come. */
  lemma StreamAnswers(worker: U8, cap: U16, entries: PoolSize, ls: seq<Label>, x: nat)
    requires TimelyRun(worker, cap, entries, ls) && StreamOf(Run(worker, cap, entries, ls), x).Multishot?
    ensures var w := Run(worker, cap, entries, ls);
            var op := w.ops[StreamOf(w, x).op];
            |op.kept| == op.drained <= |op.posted| && AnswersNext(op, Advance(w.reg, StreamOf(w, x).key).1)
  {
    RunSafe(worker, cap, entries, ls);
    hide *;
    PollAnswers(Run(worker, cap, entries, ls), x);
  }

  lemma PollAnswers(w: World, x: nat)
    requires Inv(w) && StreamOf(w, x).Multishot?
    ensures Sized(w) && StreamOf(w, x).op < |w.ops|
    ensures var op := w.ops[StreamOf(w, x).op];
            |op.kept| == op.drained <= |op.posted| && AnswersNext(op, Advance(w.reg, StreamOf(w, x).key).1)
  {
    LiveCell(w, x);
    hide Inv, Advance, AnswersNext;
    var Multishot(key, i) := StreamOf(w, x);
    var c := w.reg.cells[key.slot];
    AdvanceLive(w.reg, key);
    PendingAnswers(w.ops[i], c.queue + StashSeq(c.stash), c.terminated, Advance(w.reg, key).1);
  }

  lemma LiveCell(w: World, x: nat)
    requires Inv(w) && StreamOf(w, x).Multishot?
    ensures Sized(w) && StreamOf(w, x).op < |w.ops| && KeyLive(w.reg, StreamOf(w, x).key)
    ensures var op, c := w.ops[StreamOf(w, x).op], w.reg.cells[StreamOf(w, x).key.slot];
            && (c.stash.Some? ==> c.terminated) && c.terminated == EndDrained(op)
            && OrderInv(op, c.queue + StashSeq(c.stash))
  {
    assert StreamInv(w, x) && OpInv(w, StreamOf(w, x).op);
    hide OrderInv;
  }

  lemma PendingAnswers(op: Op, pending: seq<Entry>, terminated: bool, next: Next)
    requires OrderInv(op, pending) && terminated == EndDrained(op)
    requires next == if pending != [] then ToItem(pending[0]) else if terminated then Ended else Pending
    ensures AnswersNext(op, next)
  {
    hide Kept, EndDrained;
    var all := Kept(op.posted[..op.drained], op.kept);
    if pending != [] {
      assert all[|op.yielded|] == pending[0];
    }
  }

  /** Nothing is in progress: no stream, no queued cancel, no completion to drain, and every op has ended. */
  ghost predicate AtRest(w: World) {
    && w.cq == [] && w.inbox == []
    && (forall x: nat :: !StreamOf(w, x).Multishot?)
    && (forall i | 0 <= i < |w.ops| :: HasEnded(w.ops[i]))
  }

  /** Once everything is at rest every slot is free again and every buffer is on the ring or lent out. */
  lemma NothingLeaks(worker: U8, cap: U16, entries: PoolSize, ls: seq<Label>)
    requires TimelyRun(worker, cap, entries, ls) && AtRest(Run(worker, cap, entries, ls))
    ensures var w := Run(worker, cap, entries, ls);
            && (forall s | 0 <= s < MAX_SLOTS :: !w.reg.cells[s].occupied)
            && (forall b: U16 :: Occ(w.ring, b) + w.held[b] == if b < entries then 1 else 0)
  {
    RunSafe(worker, cap, entries, ls);
    var w := Run(worker, cap, entries, ls);
    hide Run;
    forall s | 0 <= s < MAX_SLOTS ensures !w.reg.cells[s].occupied && CellInv(w, s) {
      RestFrees(w, s);
    }
    forall b: U16 ensures Occ(w.ring, b) + w.held[b] == if b < entries then 1 else 0 {
      NoneInCells(w.reg.cells, b);
      assert Places(w, b) == if b < entries then 1 else 0;
    }
  }

  /** An occupied slot is some stream's, some queued cancel's, or waits for its op's last completion. */
  lemma OccupiedIsBusy(w: World, s: nat)
    requires Inv(w) && s < MAX_SLOTS && w.reg.cells[s].occupied
    ensures s in w.current && w.current[s] < |w.ops|
    ensures var i := w.current[s];
            var op := w.ops[i];
            || (op.phase.Live? && StreamOf(w, op.phase.stream) == Multishot(op.key, i))
            || (op.phase.Dropped? && i in w.inboxOps)
            || (op.phase.Cancelling? && (HasEnded(op) ==> Waiting(w.cq, i) != []))
  {
    assert CellInv(w, s);
    assert OpInv(w, w.current[s]);
  }

  lemma RestFrees(w: World, s: nat)
    requires Inv(w) && AtRest(w) && s < MAX_SLOTS
    ensures !w.reg.cells[s].occupied && CellInv(w, s)
  {
    assert CellInv(w, s);
    if w.reg.cells[s].occupied {
      OccupiedIsBusy(w, s);
      assert false;
    }
  }

  // ---------------------------------------------------------------------
  // Allocation
  // ---------------------------------------------------------------------

  /** A slot is refused exactly when all are taken; else the least free one becomes a fresh cell under a new key. */
  lemma AllocateExact(r: Registry, owner: U64)
    requires Shaped(r)
    ensures var (r', k) := Allocate(r, owner);
            && (k.None? <==> forall t | 0 <= t < r.cap :: r.cells[t].occupied)
            && (k.None? ==> r' == r)
            && (k.Some? ==>
                  var s := k.value.slot;
                  && s < r.cap && !r.cells[s].occupied && (forall t | 0 <= t < s :: r.cells[t].occupied)
                  && !KeyLive(r, k.value) && KeyLive(r', k.value)
                  && r' == r.(cells := r.cells[s := Cell(true, r.cells[s].generation, owner, [], false, None, false)]))
  {
  }

  /** A fresh registry after these owners each asked for a slot. */
  function Filled(worker: U8, cap: U16, owners: seq<U64>): (r: Registry)
    ensures Shaped(r)
  {
    if owners == [] then Fresh(worker, cap)
    else Allocate(Filled(worker, cap, owners[..|owners| - 1]), owners[|owners| - 1]).0
  }

  /** With the first `n` slots taken the next is slot `n`, if there is one. */
  lemma TakesNext(r: Registry, n: nat, owner: U64)
    requires Shaped(r) && forall s | 0 <= s < r.cap :: r.cells[s].occupied <==> s < n
    ensures Allocate(r, owner).1.Some? <==> n < r.cap
    ensures n < r.cap ==> Allocate(r, owner).1.value.slot == n
  {
    AllocateExact(r, owner);
    hide Allocate;
    if n < r.cap {
      assert !r.cells[n].occupied;
    }
  }

  /** A registry hands out as many slots as it was asked to hold, up to 256, lowest first, and no more. */
  lemma {:induction false} HoldsItsCapacity(worker: U8, cap: U16, owners: seq<U64>, owner: U64)
    ensures var r, most := Filled(worker, cap, owners), if cap < MAX_SLOTS then cap else MAX_SLOTS;
            && r.cap == most
            && (forall s | 0 <= s < most :: r.cells[s].occupied <==> s < |owners|)
            && (Allocate(r, owner).1.Some? <==> |owners| < most)
            && (|owners| < most ==> Allocate(r, owner).1.value.slot == |owners|)
  {
    hide Allocate;
    if owners != [] {
      var k := |owners| - 1;
      var r0, r := Filled(worker, cap, owners[..k]), Filled(worker, cap, owners);
      HoldsItsCapacity(worker, cap, owners[..k], owners[k]);
      AllocateExact(r0, owners[k]);
      assert r == Allocate(r0, owners[k]).0;
      forall s | 0 <= s < r.cap ensures r.cells[s].occupied <==> s < |owners| {
        assert r0.cells[s].occupied <==> s < k;
      }
    }
    TakesNext(Filled(worker, cap, owners), |owners|, owner);
  }

  /** Of a live stream's completions only data that meets a full FIFO is not kept. */
  lemma KeptUnlessFull(w: World)
    requires Inv(w) && Timely(w) && w.cq != [] && w.ops[w.cq[0].op].phase.Live?
    ensures var i := w.cq[0].op;
            var op := w.ops[i];
            TickCompletion(w).ops[i].kept ==
            op.kept + [!w.cq[0].more || |w.reg.cells[op.key.slot].queue| < FIFO_DEPTH]
  {
    HeldHead(w);
    PushTick(w);
  }

  /**
   A completion wakes its slot's owner exactly when the registry keeps it, and
   its buffer goes back to the ring exactly when nobody is woken; it retires the
   owner exactly when it is a live slot's last.
   */
  lemma CompletionTargets(r: Registry, slot: U16, low16: U16, result: I32, more: bool, buf: Option<U16>)
    requires Shaped(r)
    ensures var o := RecvRegistry.Complete(r, slot, low16, result, more, buf);
            && (o.wake.Some? <==> Pushed(r, slot, low16, more) == Some(true))
            && (o.wake.Some? ==> o.wake == Some(r.cells[slot].owner))
            && o.recycled == (if o.wake.Some? then [] else OptBuf(buf))
            && (o.retire.Some? <==> SlotLive(r, slot, low16) && !more)
            && (o.retire.Some? ==> o.retire == Some(r.cells[slot].owner))
  {
  }

  /** Without its cancel mark a slot outlives its terminal completion, which stays stashed with its buffer. */
  lemma UnmarkedTerminalKeepsSlot(r: Registry, slot: U16, low16: U16, result: I32, buf: Option<U16>)
    requires Shaped(r) && SlotLive(r, slot, low16)
    ensures var o := RecvRegistry.Complete(r, slot, low16, result, false, buf);
            (o.reg.cells[slot].occupied <==> !r.cells[slot].cancelPending)
            && (o.reg.cells[slot].occupied ==>
                  o.recycled == [] && o.reg.cells[slot].stash == Some(ToEntry(result, buf)))
  {
  }

  /** In every reachable state, whoever is woken or retired owns the op whose sentinel arrived. */
  lemma TargetsOwnTheOp(w: World)
    requires Inv(w) && Timely(w) && w.cq != []
    ensures var c := w.cq[0];
            var o := RecvRegistry.Complete(w.reg, SentinelSlot(c.userData), SentinelGeneration(c.userData),
                                           c.result, c.more, c.buf);
            && (o.wake.Some? ==> o.wake == Some(w.ops[c.op].owner))
            && (o.retire.Some? ==> o.retire == Some(w.ops[c.op].owner))
  {
    assert Sized(w);
    hide Inv, RecvRegistry.Complete;
    var c := w.cq[0];
    var slot, low16 := SentinelSlot(c.userData), SentinelGeneration(c.userData);
    CompletionTargets(w.reg, slot, low16, c.result, c.more, c.buf);
    HeadOwner(w);
  }

  /** The slot a pending sentinel resolves to is its own op's, never a later one's. */
  lemma HeadOwner(w: World)
    requires Inv(w) && Timely(w) && w.cq != []
    ensures var c := w.cq[0];
            SlotLive(w.reg, SentinelSlot(c.userData), SentinelGeneration(c.userData)) ==>
              w.reg.cells[SentinelSlot(c.userData)].owner == w.ops[c.op].owner
  {
    HeadLive(w);
    if !w.ops[w.cq[0].op].phase.Freed? {
      HeldHead(w);
    }
  }

  /**
   Why recency is needed, exactly: a freed op's sentinel names its slot's next
   occupant if and only if a whole number of 2^16 uses lies between them.
   */
  lemma SentinelAliases(w: World, i: nat)
    requires Inv(w) && i < |w.ops| && w.ops[i].phase.Freed?
    ensures var op := w.ops[i];
            var s := op.key.slot;
            SlotLive(w.reg, SentinelSlot(Encode(op.key)), SentinelGeneration(Encode(op.key))) <==>
            s in w.current && (w.epochs[s] - op.epoch) % 0x1_0000 == 0
  {
    var op := w.ops[i];
    assert OpInv(w, i) && CellInv(w, op.key.slot);
    SentinelRoundTrip(op.key);
    EpochLow16(op.epoch);
    EpochLow16(w.epochs[op.key.slot]);
    Congruent16(w.epochs[op.key.slot], op.epoch);
  }

  lemma Congruent16(a: nat, b: nat)
    requires b <= a
    ensures a % 0x1_0000 == b % 0x1_0000 <==> (a - b) % 0x1_0000 == 0
  {
  }

  /** Room in the inbox for whoever may still drop, and its keys name distinct live slots. */
  ghost predicate InboxSound(w: World)
    requires Sized(w)
  {
    && ((exists x: nat :: StreamOf(w, x).Multishot?) ==> |w.inbox| < INBOX_CAPACITY)
    && (forall k | 0 <= k < |w.inbox| :: KeyLive(w.reg, w.inbox[k]))
    && (forall j, k | 0 <= j < k < |w.inbox| :: w.inbox[j].slot != w.inbox[k].slot)
  }

  lemma InboxNeverFull(worker: U8, cap: U16, entries: PoolSize, ls: seq<Label>)
    requires TimelyRun(worker, cap, entries, ls)
    ensures InboxSound(Run(worker, cap, entries, ls))
  {
    RunSafe(worker, cap, entries, ls);
    var w := Run(worker, cap, entries, ls);
    if x: nat :| StreamOf(w, x).Multishot? {
      assert StreamInv(w, x);
      InboxRoom(w, StreamOf(w, x).op);
    }
    forall k | 0 <= k < |w.inbox| ensures OpInv(w, w.inboxOps[k]) {
    }
  }

  /** At most `entries` ids, all of the pool, none twice. */
  predicate RingSound(ring: seq<U16>, entries: PoolSize) {
    && |ring| <= entries
    && (forall k | 0 <= k < |ring| :: ring[k] < entries)
    && (forall j, k | 0 <= j < k < |ring| :: ring[j] != ring[k])
  }

  lemma RingNeverOverfull(worker: U8, cap: U16, entries: PoolSize, ls: seq<Label>)
    requires TimelyRun(worker, cap, entries, ls)
    ensures RingSound(Run(worker, cap, entries, ls).ring, entries)
  {
    RunSafe(worker, cap, entries, ls);
    RingOfWorld(Run(worker, cap, entries, ls), entries);
  }

  lemma RingOfWorld(w: World, entries: PoolSize)
    requires Conserved(w, entries)
    ensures RingSound(w.ring, entries)
  {
    var ring := w.ring;
    forall k | 0 <= k < |ring| ensures ring[k] < entries {
      OccAt(ring, k);
      assert Places(w, ring[k]) >= 1;
    }
    forall j, k | 0 <= j < k < |ring| ensures ring[j] != ring[k] {
      assert Places(w, ring[j]) <= 1;
      if ring[j] == ring[k] {
        Twice(ring, j, k);
      }
    }
    Pigeonhole(seq(|ring|, k requires 0 <= k < |ring| => ring[k] as nat), entries);
  }

  lemma Twice(s: seq<U16>, j: nat, k: nat)
    requires j < k < |s| && s[j] == s[k]
    ensures Occ(s, s[j]) >= 2
  {
    assert s == s[..k] + s[k..];
    OccConcat(s[..k], s[k..], s[j]);
    OccAt(s[..k], j);
    OccAt(s[k..], 0);
  }
}
