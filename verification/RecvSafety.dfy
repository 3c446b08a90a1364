/** Every step of the recv protocol keeps its invariant and every buffer id. */
module RecvSafety {
  import opened Basics
  import opened Bits
  import opened Words
  import opened RecvRegistry
  import opened Token
  import opened RecvProtocol

  // ---------------------------------------------------------------------
  // Counting buffers
  // ---------------------------------------------------------------------

  lemma {:induction false} CellsUpdate(cells: seq<Cell>, s: nat, c: Cell, b: U16)
    requires s < |cells|
    ensures InCells(cells[s := c], b) + InCell(cells[s], b) == InCells(cells, b) + InCell(c, b)
  {
    var k := |cells| - 1;
    var cells' := cells[s := c];
    if s == k {
      assert cells'[..k] == cells[..k];
    } else {
      CellsUpdate(cells[..k], s, c, b);
      assert cells'[..k] == cells[..k][s := c];
    }
  }

  lemma {:induction false} CqAppend(cq: seq<Cqe>, c: Cqe, b: U16)
    ensures InCq(cq + [c], b) == InCq(cq, b) + Occ(OptBuf(c.buf), b)
  {
    if cq == [] {
      assert [c][1..] == [];
    } else {
      CqAppend(cq[1..], c, b);
      assert (cq + [c])[1..] == cq[1..] + [c];
    }
  }

  lemma {:induction false} QueueAppend(queue: seq<Entry>, e: Entry)
    ensures QueueBufs(queue + [e]) == QueueBufs(queue) + BufOf(e)
  {
    if queue == [] {
      assert [e][1..] == [];
    } else {
      QueueAppend(queue[1..], e);
      assert (queue + [e])[1..] == queue[1..] + [e];
    }
  }

  lemma {:induction false} OccConcat(s: seq<U16>, t: seq<U16>, b: U16)
    ensures Occ(s + t, b) == Occ(s, b) + Occ(t, b)
  {
    if s == [] {
      assert s + t == t;
    } else {
      OccConcat(s[1..], t, b);
      assert (s + t)[1..] == s[1..] + t;
    }
  }

  lemma {:induction false} OccAbsent(s: seq<U16>, b: U16)
    requires b !in s
    ensures Occ(s, b) == 0
  {
    if s != [] {
      OccAbsent(s[1..], b);
    }
  }

  lemma {:induction false} OccAt(s: seq<U16>, k: nat)
    requires k < |s|
    ensures Occ(s, s[k]) >= 1
  {
    if k > 0 {
      OccAt(s[1..], k - 1);
    }
  }

  lemma IdsOnce(entries: PoolSize, b: U16)
    ensures Occ(FirstIds(entries), b) == if b < entries then 1 else 0
  {
    var ids := FirstIds(entries);
    if b < entries {
      assert ids == ids[..b] + ([b] + ids[b + 1..]);
      OccConcat(ids[..b], [b] + ids[b + 1..], b);
      OccConcat([b], ids[b + 1..], b);
      OccAbsent(ids[..b], b);
      OccAbsent(ids[b + 1..], b);
    } else {
      OccAbsent(ids, b);
    }
  }

  // ---------------------------------------------------------------------
  // Traces
  // ---------------------------------------------------------------------

  lemma {:induction false} WaitingAppend(cq: seq<Cqe>, c: Cqe, i: nat)
    ensures Waiting(cq + [c], i) == Waiting(cq, i) +
            (if c.op == i && !c.ofCancel then [Posted(ToEntry(c.result, c.buf), c.more)] else [])
  {
    if cq == [] {
      assert [c][1..] == [];
    } else {
      WaitingAppend(cq[1..], c, i);
      assert (cq + [c])[1..] == cq[1..] + [c];
    }
  }

  lemma KeptSnoc(posted: seq<Posted>, kept: seq<bool>, p: Posted, b: bool)
    requires |posted| == |kept|
    ensures Kept(posted + [p], kept + [b]) == Kept(posted, kept) + if b then [p.entry] else []
  {
    assert (posted + [p])[..|posted|] == posted;
    assert (kept + [b])[..|kept|] == kept;
  }

  lemma {:induction false} EpochLow16(epoch: nat)
    ensures Generation(epoch) % 0x1_0000 == epoch % 0x1_0000
  {
    if epoch > 0 {
      EpochLow16(epoch - 1);
      BumpLow16(Generation(epoch - 1), epoch - 1);
    }
  }

  lemma BumpLow16(g: U64, e: nat)
    requires g % 0x1_0000 == e % 0x1_0000
    ensures Bump(g) % 0x1_0000 == (e + 1) % 0x1_0000
  {
  }

  /** A sentinel still names its own op's slot, and no later occupant's. */
  lemma HeadLive(w: World)
    requires Inv(w) && Timely(w) && w.cq != []
    ensures var op := w.ops[w.cq[0].op];
            && SentinelSlot(w.cq[0].userData) == op.key.slot
            && SentinelGeneration(w.cq[0].userData) == op.key.generation % 0x1_0000
            && (SlotLive(w.reg, op.key.slot, op.key.generation % 0x1_0000) <==> !op.phase.Freed?)
            && (op.phase.Freed? && op.key.slot in w.current ==> w.current[op.key.slot] != w.cq[0].op)
  {
    var c := w.cq[0];
    var op := w.ops[c.op];
    var s := op.key.slot;
    assert CqeInv(w, c) && OpInv(w, c.op);
    assert CellInv(w, s);
    SentinelRoundTrip(op.key);
    if op.phase.Freed? {
      EpochLow16(op.epoch);
      EpochLow16(w.epochs[s]);
      assert w.epochs[s] < op.epoch + 0x1_0000;
      if w.epochs[s] % 0x1_0000 == op.epoch % 0x1_0000 {
        SameResidue(w.epochs[s], op.epoch, 0x1_0000);
      }
    }
  }

  // ---------------------------------------------------------------------
  // The invariant, step by step
  // ---------------------------------------------------------------------

  lemma InitInv(worker: U8, cap: U16, entries: PoolSize)
    ensures Inv(Start(worker, cap, entries))
  {
  }

  /**
   `w'` differs from `w` only in op `i`, in slot `s` (no slot when `s` is
   `MAX_SLOTS`), in idle streams or the stream of `i`, and in queue and inbox
   entries of `i`.
   */
  ghost predicate Touches(w: World, w': World, i: nat, s: nat)
    requires Sized(w) && Sized(w') && i <= |w.ops|
  {
    && (|w'.ops| == |w.ops| || (i == |w.ops| && |w'.ops| == i + 1))
    && (forall j | 0 <= j < |w.ops| && j != i :: w'.ops[j] == w.ops[j])
    && (i < |w.ops| ==> w'.ops[i].key == w.ops[i].key)
    && w'.reg.cap == w.reg.cap && w'.reg.worker == w.reg.worker
    && (forall t | 0 <= t < MAX_SLOTS && t != s ::
          w'.reg.cells[t] == w.reg.cells[t] && w'.epochs[t] == w.epochs[t])
    && (forall t | 0 <= t < MAX_SLOTS && t != s ::
          (t in w'.current <==> t in w.current) && (t in w.current ==> w'.current[t] == w.current[t]))
    && (s < MAX_SLOTS ==> w.epochs[s] <= w'.epochs[s])
    && (forall y: nat :: StreamOf(w', y) == StreamOf(w, y) || StreamOf(w, y).Idle?
                         || (StreamOf(w, y).Multishot? && StreamOf(w, y).op == i))
    && (forall j | j in w.inboxOps && j != i :: j in w'.inboxOps)
    && (forall j | 0 <= j < |w.ops| && j != i :: Waiting(w'.cq, j) == Waiting(w.cq, j))
  }

  /** `i` owns what the step touches. */
  ghost predicate Owns(w: World, w': World, i: nat, s: nat)
    requires Sized(w) && Sized(w') && i <= |w.ops|
  {
    if s < MAX_SLOTS then
      (s in w.current ==> w.current[s] == i) && (i < |w.ops| ==> w.ops[i].key.slot == s)
    else i < |w.ops| && |w'.ops| == |w.ops| && w'.ops[i].phase.Freed? == w.ops[i].phase.Freed?
  }

  lemma OthersKept(w: World, w': World, i: nat, s: nat)
    requires Inv(w) && Sized(w') && i <= |w.ops| && Touches(w, w', i, s) && Owns(w, w', i, s)
    ensures forall j | 0 <= j < |w.ops| && j != i :: OpInv(w', j)
    ensures forall t | 0 <= t < MAX_SLOTS && t != s :: CellInv(w', t)
  {
    forall j | 0 <= j < |w.ops| && j != i ensures OpInv(w', j) {
      assert OpInv(w, j);
    }
    forall t | 0 <= t < MAX_SLOTS && t != s ensures CellInv(w', t) {
      assert CellInv(w, t);
      if t in w.current && w.current[t] == i {
        assert OpInv(w, i);
      }
    }
  }

  /** The usual step: one held op, its slot, and possibly its stream or the head of the queue. */
  lemma UpdateTouches(w: World, w': World, i: nat, s: nat)
    requires Sized(w) && Sized(w') && i < |w.ops| && OpInv(w, i) && s == w.ops[i].key.slot && !w.ops[i].phase.Freed?
    requires |w'.ops| == |w.ops| && w'.ops == w.ops[i := w'.ops[i]] && w'.ops[i].key == w.ops[i].key
    requires w'.reg == w.reg.(cells := w.reg.cells[s := w'.reg.cells[s]])
    requires w'.epochs == w.epochs[s := w'.epochs[s]] && w.epochs[s] <= w'.epochs[s]
    requires w'.current == w.current || w'.current == w.current - {s}
    requires w'.streams == w.streams
             || (w.ops[i].phase.Live? && w'.streams == w.streams[w.ops[i].phase.stream := Done])
    requires w'.inboxOps == w.inboxOps || (w.inboxOps != [] && w.inboxOps[0] == i && w'.inboxOps == w.inboxOps[1..])
    requires w'.cq == w.cq || (w.cq != [] && w.cq[0].op == i && w'.cq == w.cq[1..])
    ensures Touches(w, w', i, s) && Owns(w, w', i, s)
  {
    assert s in w.current && w.current[s] == i && (w.ops[i].phase.Live? ==> StreamOf(w, w.ops[i].phase.stream).op == i);
    hide OpInv;
    if w.inboxOps != [] {
      assert w.inboxOps == [w.inboxOps[0]] + w.inboxOps[1..];
    }
  }

  lemma StartCell(w: World, x: nat, token: U64, submitted: bool, s: U16)
    requires Inv(w) && StreamOf(w, x).Idle? && FirstFreeFrom(w.reg, 0) == Some(s)
    ensures var w' := StartStream(w, x, token, submitted);
            CellInv(w', s) && (submitted ==> OpInv(w', |w.ops|))
  {
    assert CellInv(w, s);
    NoneWaiting(w.cq, |w.ops|, |w.ops|);
  }

  lemma StartTouches(w: World, x: nat, token: U64, submitted: bool, s: U16)
    requires Inv(w) && StreamOf(w, x).Idle? && FirstFreeFrom(w.reg, 0) == Some(s)
    ensures var w' := StartStream(w, x, token, submitted);
            Touches(w, w', |w.ops|, s) && Owns(w, w', |w.ops|, s)
  {
    assert CellInv(w, s);
  }

  lemma StartKeepsInv(w: World, x: nat, token: U64, submitted: bool)
    requires Inv(w) && StreamOf(w, x).Idle?
    ensures Inv(StartStream(w, x, token, submitted))
  {
    var w' := StartStream(w, x, token, submitted);
    var free := FirstFreeFrom(w.reg, 0);
    if free.Some? {
      StartCell(w, x, token, submitted, free.value);
      StartTouches(w, x, token, submitted, free.value);
      OthersKept(w, w', |w.ops|, free.value);
    } else {
      forall j | 0 <= j < |w.ops| ensures OpInv(w', j) {
        assert OpInv(w, j);
      }
      forall t | 0 <= t < MAX_SLOTS ensures CellInv(w', t) {
        assert CellInv(w, t);
      }
    }
    StartRest(w, x, token, submitted);
  }

  lemma StartRest(w: World, x: nat, token: U64, submitted: bool)
    requires Inv(w) && StreamOf(w, x).Idle?
    ensures var w' := StartStream(w, x, token, submitted);
            && (forall y: nat :: StreamInv(w', y)) && InboxInv(w')
            && (forall k | 0 <= k < |w'.cq| :: CqeInv(w', w'.cq[k]))
  {
    var w' := StartStream(w, x, token, submitted);
    forall y: nat ensures StreamInv(w', y) {
      assert StreamInv(w, y);
    }
    forall k | 0 <= k < |w'.cq| ensures CqeInv(w', w'.cq[k]) {
      assert CqeInv(w, w.cq[k]);
    }
  }

  lemma {:induction false} NoneWaiting(cq: seq<Cqe>, i: nat, n: nat)
    requires i >= n && forall k | 0 <= k < |cq| :: cq[k].op < n
    ensures Waiting(cq, i) == []
  {
    if cq != [] {
      assert cq[0].op < n;
      NoneWaiting(cq[1..], i, n);
    }
  }

  /** What `Advance` does to a live key's cell. */
  lemma AdvanceCell(r: Registry, key: Key)
    requires Shaped(r) && KeyLive(r, key)
    ensures var c := r.cells[key.slot];
            Advance(r, key) ==
            if c.queue != [] then (Store(r, key.slot, c.(queue := c.queue[1..])), ToItem(c.queue[0]))
            else if c.stash.Some? then (Store(r, key.slot, c.(stash := None)), ToItem(c.stash.value))
            else if c.terminated then (Store(r, key.slot, Vacated(c)), Ended)
            else (r, Pending)
  {
  }

  lemma YieldQueued(op: Op, c: Cell)
    requires HeldInv(op, c) && !op.phase.Cancelling? && c.queue != []
    ensures HeldInv(op.(yielded := op.yielded + [c.queue[0]]), c.(queue := c.queue[1..]))
  {
    assert op.yielded + (c.queue + StashSeq(c.stash))
        == (op.yielded + [c.queue[0]]) + (c.queue[1..] + StashSeq(c.stash));
  }

  lemma YieldTerminal(op: Op, c: Cell)
    requires HeldInv(op, c) && !op.phase.Cancelling? && c.queue == [] && c.stash.Some?
    ensures HeldInv(op.(yielded := op.yielded + [c.stash.value]), c.(stash := None))
  {
    assert op.yielded + (c.queue + StashSeq(c.stash)) == (op.yielded + [c.stash.value]) + ([] + StashSeq(None));
  }

  /** When nothing is left, the stream has seen everything that was kept. */
  lemma FinishHeld(op: Op, c: Cell)
    requires HeldInv(op, c) && !op.phase.Cancelling? && c.queue == [] && c.stash.None? && c.terminated
    ensures op.retired == 1 && EndDrained(op)
    ensures OrderInv(op.(phase := Phase.Freed, finished := true), [])
  {
    assert op.yielded + (c.queue + StashSeq(c.stash)) == op.yielded + [];
  }

  lemma EntryRoundTrip(e: Entry)
    ensures ToItem(e).Item? && ToEntry(ToItem(e).result, ToItem(e).buf) == e
  {
  }

  lemma PollItem(w: World, x: nat, key: Key, i: nat)
    requires Inv(w) && StreamOf(w, x) == Multishot(key, i) && key.slot < MAX_SLOTS && i < |w.ops|
    requires Advance(w.reg, key).1.Item?
    ensures OpInv(PollStream(w, x, key, i), i) && CellInv(PollStream(w, x, key, i), key.slot)
  {
    assert StreamInv(w, x) && OpInv(w, i) && CellInv(w, key.slot);
    AdvanceCell(w.reg, key);
    hide Inv, Advance, Waiting, Kept;
    var c, op := w.reg.cells[key.slot], w.ops[i];
    var e := if c.queue != [] then c.queue[0] else c.stash.value;
    EntryRoundTrip(e);
    if c.queue != [] {
      YieldQueued(op, c);
    } else {
      YieldTerminal(op, c);
    }
    HeldStays(w, PollStream(w, x, key, i), i);
  }

  lemma PollEnd(w: World, x: nat, key: Key, i: nat)
    requires Inv(w) && StreamOf(w, x) == Multishot(key, i) && key.slot < MAX_SLOTS && i < |w.ops|
    requires Advance(w.reg, key).1.Ended?
    ensures OpInv(PollStream(w, x, key, i), i) && CellInv(PollStream(w, x, key, i), key.slot)
  {
    assert StreamInv(w, x) && OpInv(w, i) && CellInv(w, key.slot);
    AdvanceCell(w.reg, key);
    hide Inv, Advance, Waiting, Kept;
    FinishHeld(w.ops[i], w.reg.cells[key.slot]);
    HeldLeaves(w, PollStream(w, x, key, i), i);
  }

  lemma PollTouches(w: World, x: nat, key: Key, i: nat)
    requires Inv(w) && StreamOf(w, x) == Multishot(key, i) && key.slot < MAX_SLOTS && i < |w.ops|
    ensures var w' := PollStream(w, x, key, i);
            Touches(w, w', i, key.slot) && Owns(w, w', i, key.slot)
  {
    assert StreamInv(w, x) && OpInv(w, i);
    AdvanceCell(w.reg, key);
    var w' := PollStream(w, x, key, i);
    assert w.reg.cells == w.reg.cells[key.slot := w.reg.cells[key.slot]];
    UpdateTouches(w, w', i, key.slot);
  }

  lemma PollKeepsInv(w: World, x: nat, key: Key, i: nat)
    requires Inv(w) && StreamOf(w, x) == Multishot(key, i)
    ensures Inv(PollStream(w, x, key, i))
  {
    var w' := PollStream(w, x, key, i);
    assert StreamInv(w, x) && OpInv(w, i);
    AdvanceCell(w.reg, key);
    match Advance(w.reg, key).1 {
      case Item(_, _) => PollItem(w, x, key, i);
      case Ended => PollEnd(w, x, key, i);
      case Pending => assert w' == w && CellInv(w, key.slot);
    }
    PollTouches(w, x, key, i);
    OthersKept(w, w', i, key.slot);
    PollRest(w, w', x, i);
  }

  lemma PollRest(w: World, w': World, x: nat, i: nat)
    requires Inv(w) && Sized(w') && |w'.ops| == |w.ops| && i < |w.ops| && w.ops[i].phase == Live(x)
    requires w'.cq == w.cq && w'.inbox == w.inbox && w'.inboxOps == w.inboxOps
    requires w'.ops == w.ops[i := w'.ops[i]] && w'.ops[i].key == w.ops[i].key
    requires (w'.streams == w.streams && w'.ops[i].phase == Live(x))
             || (w'.streams == w.streams[x := Done] && w'.ops[i].phase.Freed?)
    ensures forall y: nat :: StreamInv(w', y)
    ensures InboxInv(w')
    ensures forall k | 0 <= k < |w'.cq| :: CqeInv(w', w'.cq[k])
  {
    forall y: nat ensures StreamInv(w', y) {
      assert StreamInv(w, y);
    }
    forall k | 0 <= k < |w'.cq| ensures CqeInv(w', w'.cq[k]) {
      assert CqeInv(w, w.cq[k]);
    }
  }

  lemma DropOps(w: World, w': World, x: nat)
    requires Inv(w) && Sized(w') && w' == Abandon(w, x) && StreamOf(w, x).Multishot?
    requires |w.inbox| < INBOX_CAPACITY
    ensures forall j | 0 <= j < |w'.ops| :: OpInv(w', j)
    ensures forall t | 0 <= t < MAX_SLOTS :: CellInv(w', t)
  {
    assert StreamInv(w, x);
    var i := StreamOf(w, x).op;
    forall j | 0 <= j < |w'.ops| ensures OpInv(w', j) {
      assert OpInv(w, j);
      assert j in w.inboxOps ==> j in w'.inboxOps;
    }
    forall t | 0 <= t < MAX_SLOTS ensures CellInv(w', t) {
      assert CellInv(w, t);
    }
  }

  lemma DropRest(w: World, w': World, x: nat)
    requires Inv(w) && Sized(w') && w' == Abandon(w, x) && StreamOf(w, x).Multishot?
    requires |w.inbox| < INBOX_CAPACITY
    ensures forall y: nat :: StreamInv(w', y)
    ensures InboxInv(w')
    ensures forall k | 0 <= k < |w'.cq| :: CqeInv(w', w'.cq[k])
  {
    assert StreamInv(w, x);
    forall y: nat ensures StreamInv(w', y) {
      assert StreamInv(w, y);
    }
    forall k | 0 <= k < |w'.cq| ensures CqeInv(w', w'.cq[k]) {
      assert CqeInv(w, w.cq[k]);
    }
  }

  lemma DropKeepsInv(w: World, x: nat)
    requires Inv(w)
    ensures Inv(Abandon(w, x))
  {
    var w' := Abandon(w, x);
    if StreamOf(w, x).Multishot? {
      assert StreamInv(w, x);
      InboxRoom(w, StreamOf(w, x).op);
      DropOps(w, w', x);
      DropRest(w, w', x);
    } else {
      forall j | 0 <= j < |w'.ops| ensures OpInv(w', j) {
        assert OpInv(w, j);
      }
      forall t | 0 <= t < MAX_SLOTS ensures CellInv(w', t) {
        assert CellInv(w, t);
      }
      forall y: nat ensures StreamInv(w', y) {
        assert StreamInv(w, y);
      }
      forall k | 0 <= k < |w'.cq| ensures CqeInv(w', w'.cq[k]) {
        assert CqeInv(w, w.cq[k]);
      }
    }
  }

  /** Queued cancels occupy distinct slots, and a live op occupies one more. */
  lemma InboxRoom(w: World, i: nat)
    requires Inv(w) && i < |w.ops| && w.ops[i].phase.Live?
    ensures |w.inbox| < w.reg.cap <= INBOX_CAPACITY
  {
    var slots := seq(|w.inbox|, k requires 0 <= k < |w.inbox| => w.inbox[k].slot as nat) + [w.ops[i].key.slot];
    assert OpInv(w, i);
    forall k | 0 <= k < |w.inbox| ensures OpInv(w, w.inboxOps[k]) {
    }
    Pigeonhole(slots, w.reg.cap);
  }

  lemma {:induction false} Pigeonhole(xs: seq<nat>, n: nat)
    requires forall k | 0 <= k < |xs| :: xs[k] < n
    requires forall j, k | 0 <= j < k < |xs| :: xs[j] != xs[k]
    ensures |xs| <= n
    decreases n
  {
    if |xs| > 0 {
      // Send whoever has the value n - 1 to the last one's value, then drop the last.
      var k := |xs| - 1;
      var rest := seq(k, j requires 0 <= j < k => if xs[j] == n - 1 then xs[k] else xs[j]);
      Pigeonhole(rest, n - 1);
    }
  }

  // The cancel drain

  lemma CancelCell(w: World)
    requires Inv(w) && w.inbox != []
    ensures var key, i := w.inbox[0], w.inboxOps[0];
            && KeyLive(w.reg, key) && w.ops[i].phase.Dropped? && w.ops[i].key == key && OpInv(w, i)
            && CellInv(w, key.slot) && !w.reg.cells[key.slot].cancelPending
  {
    assert OpInv(w, w.inboxOps[0]);
    assert CellInv(w, w.inbox[0].slot);
  }

  /** How the cancel drain changes a slot. */
  lemma CancelShape(w: World, accepted: bool)
    requires Inv(w) && w.inbox != []
    ensures var i, w' := w.inboxOps[0], TickCancel(w, accepted);
            var op := w.ops[i];
            var s := op.key.slot;
            var c := w.reg.cells[s];
            w' == if c.terminated then
                    w.(reg := Store(w.reg, s, Vacated(c)), ring := w'.ring,
                       inbox := w.inbox[1..], inboxOps := w.inboxOps[1..],
                       ops := w.ops[i := op.(phase := Phase.Freed, finished := false)],
                       epochs := w.epochs[s := w.epochs[s] + 1], current := w.current - {s})
                  else
                    w.(reg := Store(w.reg, s, c.(queue := [], stash := None, cancelPending := true)), ring := w'.ring,
                       inbox := w.inbox[1..], inboxOps := w.inboxOps[1..],
                       ops := w.ops[i := op.(phase := Cancelling, cancels := if accepted then 1 else 0)])
  {
    CancelCell(w);
  }

  lemma MarkHeld(op: Op, c: Cell, cancels: nat)
    requires HeldInv(op, c) && !c.terminated
    ensures HeldInv(op.(phase := Cancelling, cancels := cancels), c.(queue := [], stash := None, cancelPending := true))
  {
  }

  /** Rewriting a held op and its cell keeps the op's place in the world. */
  lemma HeldStays(w: World, w': World, i: nat)
    requires Sized(w) && Sized(w') && i < |w.ops| == |w'.ops|
    requires OpInv(w, i) && CellInv(w, w.ops[i].key.slot) && !w.ops[i].phase.Freed?
    requires w'.ops[i].key == w.ops[i].key && w'.ops[i].epoch == w.ops[i].epoch && !w'.ops[i].phase.Freed?
    requires w'.reg.cap == w.reg.cap && w'.reg.worker == w.reg.worker
    requires w'.epochs == w.epochs && w'.current == w.current
    requires TraceInv(w'.cq, i, w'.ops[i])
    requires HeldInv(w'.ops[i], w'.reg.cells[w.ops[i].key.slot])
    requires w'.ops[i].phase.Live? ==> StreamOf(w', w'.ops[i].phase.stream) == Multishot(w.ops[i].key, i)
    requires w'.ops[i].phase.Dropped? ==> i in w'.inboxOps
    ensures OpInv(w', i) && CellInv(w', w.ops[i].key.slot)
  {
  }

  /** Freeing a slot settles its op and empties its cell. */
  lemma HeldLeaves(w: World, w': World, i: nat)
    requires Sized(w) && Sized(w') && i < |w.ops| == |w'.ops|
    requires OpInv(w, i) && CellInv(w, w.ops[i].key.slot) && !w.ops[i].phase.Freed?
    requires w'.ops[i].key == w.ops[i].key && w'.ops[i].epoch == w.ops[i].epoch && w'.ops[i].phase.Freed?
    requires w'.ops[i].retired == 1
    requires w'.ops[i].finished ==> EndDrained(w'.ops[i]) && OrderInv(w'.ops[i], [])
    requires w'.reg.cap == w.reg.cap && w'.reg.worker == w.reg.worker
    requires TraceInv(w'.cq, i, w'.ops[i])
    requires var s := w.ops[i].key.slot;
             && w'.reg.cells[s] == Vacated(w.reg.cells[s])
             && w'.epochs[s] == w.epochs[s] + 1 && s !in w'.current
    ensures OpInv(w', i) && CellInv(w', w.ops[i].key.slot)
  {
  }

  lemma CancelOp(w: World, accepted: bool)
    requires Inv(w) && w.inbox != []
    ensures var w', i := TickCancel(w, accepted), w.inboxOps[0];
            OpInv(w', i) && CellInv(w', w.ops[i].key.slot)
  {
    CancelCell(w);
    CancelShape(w, accepted);
    var i, w' := w.inboxOps[0], TickCancel(w, accepted);
    var c := w.reg.cells[w.ops[i].key.slot];
    if c.terminated {
      HeldLeaves(w, w', i);
    } else {
      MarkHeld(w.ops[i], c, if accepted then 1 else 0);
      HeldStays(w, w', i);
    }
  }

  lemma CancelTouches(w: World, accepted: bool)
    requires Inv(w) && w.inbox != []
    ensures var w', i := TickCancel(w, accepted), w.inboxOps[0];
            Touches(w, w', i, w.ops[i].key.slot) && Owns(w, w', i, w.ops[i].key.slot)
  {
    CancelCell(w);
    CancelShape(w, accepted);
    var i := w.inboxOps[0];
    var s := w.ops[i].key.slot;
    assert w.epochs == w.epochs[s := w.epochs[s]];
    assert OpInv(w, i);
    UpdateTouches(w, TickCancel(w, accepted), i, s);
  }

  lemma CancelRest(w: World, w': World, i: nat)
    requires Inv(w) && Sized(w') && |w'.ops| == |w.ops| && w.inbox != [] && i == w.inboxOps[0]
    requires w'.cq == w.cq && w'.inbox == w.inbox[1..] && w'.inboxOps == w.inboxOps[1..]
    requires w'.ops == w.ops[i := w'.ops[i]] && w'.ops[i].key == w.ops[i].key
    requires w'.streams == w.streams && (w'.ops[i].phase.Freed? || w'.ops[i].phase.Cancelling?)
    ensures forall y: nat :: StreamInv(w', y)
    ensures InboxInv(w')
    ensures forall k | 0 <= k < |w'.cq| :: CqeInv(w', w'.cq[k])
  {
    forall y: nat ensures StreamInv(w', y) {
      assert StreamInv(w, y);
    }
    forall k | 0 <= k < |w'.cq| ensures CqeInv(w', w'.cq[k]) {
      assert CqeInv(w, w.cq[k]);
    }
  }

  lemma CancelKeepsInv(w: World, accepted: bool)
    requires Inv(w) && w.inbox != []
    ensures Inv(TickCancel(w, accepted))
  {
    var w', i := TickCancel(w, accepted), w.inboxOps[0];
    CancelCell(w);
    CancelShape(w, accepted);
    CancelOp(w, accepted);
    CancelTouches(w, accepted);
    OthersKept(w, w', i, w.ops[i].key.slot);
    CancelRest(w, w', i);
  }

  // The completion drain

  /** The oldest completion, when it is the op's own, is the next thing the kernel said. */
  lemma HeadPosted(w: World)
    requires Inv(w) && w.cq != [] && !w.cq[0].ofCancel
    ensures var c, op := w.cq[0], w.ops[w.cq[0].op];
            && op.drained < |op.posted|
            && op.posted[op.drained] == Posted(ToEntry(c.result, c.buf), c.more)
            && TraceInv(w.cq[1..], c.op, op.(drained := op.drained + 1))
            && !EndDrained(op)
            && (EndDrained(op.(drained := op.drained + 1)) <==> !c.more)
  {
    var c, op := w.cq[0], w.ops[w.cq[0].op];
    assert OpInv(w, c.op);
    assert Waiting(w.cq, c.op) == [Posted(ToEntry(c.result, c.buf), c.more)] + Waiting(w.cq[1..], c.op);
    assert op.posted[op.drained..][0] == op.posted[op.drained];
    assert op.posted[op.drained..][1..] == op.posted[op.drained + 1..];
  }

  /** A completion pushed on a held, not cancelled op: queued, stashed or overflowed. */
  lemma PushHeld(op: Op, c: Cell, e: Entry, more: bool)
    requires HeldInv(op, c) && !op.phase.Cancelling? && |c.queue| <= FIFO_DEPTH
    requires op.drained < |op.posted| && op.posted[op.drained] == Posted(e, more)
    requires !EndDrained(op) && (EndDrained(op.(drained := op.drained + 1)) <==> !more)
    ensures var keeps := !more || |c.queue| < FIFO_DEPTH;
            var op' := Charge(op.(drained := op.drained + 1), !more, Some(keeps));
            var c' := if !more then c.(terminated := true, stash := Some(e))
                      else if keeps then c.(queue := c.queue + [e]) else c;
            HeldInv(op', c')
  {
    hide Kept;
    var keeps := !more || |c.queue| < FIFO_DEPTH;
    var d := op.drained;
    KeptSnoc(op.posted[..d], op.kept, op.posted[d], keeps);
    assert op.posted[..d + 1] == op.posted[..d] + [op.posted[d]];
    var pending := c.queue + StashSeq(c.stash);
    assert pending == c.queue;
    assert op.yielded + (c.queue + [e]) == (op.yielded + c.queue) + [e];
    assert (c.queue + [e]) + StashSeq(None) == c.queue + [e];
  }

  /** Bookkeeping that charges nothing changes nothing. */
  lemma ChargeNothing(op: Op)
    ensures Charge(op, false, None) == op
  {
    assert op.kept + [] == op.kept;
  }

  /** A completion of a freed op touches nothing but the ring. */
  lemma StaleShape(w: World)
    requires Inv(w) && Timely(w) && w.cq != [] && w.ops[w.cq[0].op].phase.Freed?
    ensures TickCompletion(w) == Read(w).(ring := w.ring + OptBuf(w.cq[0].buf))
  {
    HeadLive(w);
    var s := w.ops[w.cq[0].op].key.slot;
    if s in w.current {
      var i := w.current[s];
      ChargeNothing(w.ops[i]);
      assert Read(w).ops[i] == w.ops[i];
    }
  }

  lemma StaleOp(w: World, w': World)
    requires Inv(w) && w.cq != [] && w.ops[w.cq[0].op].phase.Freed?
    requires Sized(w') && w' == Read(w).(ring := w'.ring)
    ensures OpInv(w', w.cq[0].op)
  {
    assert OpInv(w, w.cq[0].op);
    if !w.cq[0].ofCancel {
      HeadPosted(w);
    }
  }

  lemma StaleKeepsInv(w: World)
    requires Inv(w) && Timely(w) && w.cq != [] && w.ops[w.cq[0].op].phase.Freed?
    ensures Inv(TickCompletion(w))
  {
    var w' := TickCompletion(w);
    StaleShape(w);
    StaleOp(w, w');
    ReadTouches(w, w');
    OthersKept(w, w', w.cq[0].op, MAX_SLOTS);
    ReadRest(w, w');
  }

  lemma ReadTouches(w: World, w': World)
    requires Inv(w) && w.cq != [] && Sized(w') && w' == Read(w).(ring := w'.ring)
    ensures Touches(w, w', w.cq[0].op, MAX_SLOTS) && Owns(w, w', w.cq[0].op, MAX_SLOTS)
  {
  }

  lemma ReadRest(w: World, w': World)
    requires Inv(w) && w.cq != [] && Sized(w') && |w'.ops| == |w.ops| && w'.cq == w.cq[1..]
    requires w'.streams == w.streams && w'.inbox == w.inbox && w'.inboxOps == w.inboxOps
    requires forall j | 0 <= j < |w.ops| :: w'.ops[j].key == w.ops[j].key
    requires forall j | 0 <= j < |w.ops| ::
               w'.ops[j].phase == w.ops[j].phase || (w.ops[j].phase.Cancelling? && w'.ops[j].phase.Freed?)
    ensures forall y: nat :: StreamInv(w', y)
    ensures InboxInv(w')
    ensures forall k | 0 <= k < |w'.cq| :: CqeInv(w', w'.cq[k])
  {
    forall y: nat ensures StreamInv(w', y) {
      assert StreamInv(w, y);
    }
    forall k | 0 <= k < |w'.cq| ensures CqeInv(w', w'.cq[k]) {
      assert CqeInv(w, w.cq[k + 1]);
    }
  }

  /** The oldest completion's op after the drain has read it. */
  function ReadOp(w: World): Op
    requires Sized(w) && w.cq != []
  {
    var op := w.ops[w.cq[0].op];
    if w.cq[0].ofCancel then op else op.(drained := op.drained + 1)
  }

  /** The oldest completion's op owns its slot. */
  lemma HeldHead(w: World)
    requires Inv(w) && Timely(w) && w.cq != [] && !w.ops[w.cq[0].op].phase.Freed?
    ensures var c, op := w.cq[0], w.ops[w.cq[0].op];
            && SentinelSlot(c.userData) == op.key.slot
            && SlotLive(w.reg, op.key.slot, SentinelGeneration(c.userData))
            && op.key.slot in w.current && w.current[op.key.slot] == c.op
            && OpInv(w, c.op) && CellInv(w, op.key.slot) && CqeInv(w, c)
  {
    HeadLive(w);
    assert OpInv(w, w.cq[0].op);
    assert CellInv(w, w.ops[w.cq[0].op].key.slot);
  }

  lemma PendingComplete(r: Registry, slot: U16, low16: U16, result: I32, more: bool, buf: Option<U16>)
    requires Shaped(r) && SlotLive(r, slot, low16) && r.cells[slot].cancelPending
    ensures var o := Complete(r, slot, low16, result, more, buf);
            && o.reg == (if more then r else Store(r, slot, Vacated(r.cells[slot])))
            && o.retire.Some? == !more && o.recycled == OptBuf(buf)
  {
  }

  /** How the drain changes a slot whose stream dropped. */
  lemma PendingTick(w: World)
    requires Inv(w) && Timely(w) && w.cq != [] && !w.ops[w.cq[0].op].phase.Freed?
    requires w.reg.cells[w.ops[w.cq[0].op].key.slot].cancelPending
    ensures var c, s := w.cq[0], w.ops[w.cq[0].op].key.slot;
            var w1 := w.(cq := w.cq[1..], ring := w.ring + OptBuf(c.buf),
                         ops := w.ops[c.op := Charge(ReadOp(w), !c.more, None)]);
            && s in w.current && w.current[s] == c.op
            && TickCompletion(w) ==
               if c.more then w1
               else w1.(reg := Store(w.reg, s, Vacated(w.reg.cells[s])),
                        ops := w.ops[c.op := Charge(ReadOp(w), true, None).(phase := Phase.Freed, finished := false)],
                        epochs := w.epochs[s := w.epochs[s] + 1], current := w.current - {s})
  {
    HeldHead(w);
    hide Inv, OpInv, CellInv, CqeInv, RecvRegistry.Complete;
    var c, s := w.cq[0], w.ops[w.cq[0].op].key.slot;
    PendingComplete(w.reg, s, SentinelGeneration(c.userData), c.result, c.more, c.buf);
    assert Read(w).ops[c.op] == ReadOp(w);
    assert Read(w).ops[c.op := Charge(ReadOp(w), !c.more, None)] == w.ops[c.op := Charge(ReadOp(w), !c.more, None)];
  }

  /** What the registry makes of a completion for a slot nobody cancelled. */
  function PushedCell(c: Cell, e: Entry, more: bool): Cell {
    if !more then c.(terminated := true, stash := Some(e))
    else if |c.queue| < FIFO_DEPTH then c.(queue := c.queue + [e])
    else c
  }

  /** How the drain changes a slot that still has its stream. */
  lemma PushTick(w: World)
    requires Inv(w) && Timely(w) && w.cq != [] && !w.ops[w.cq[0].op].phase.Freed?
    requires !w.reg.cells[w.ops[w.cq[0].op].key.slot].cancelPending
    ensures var c, s := w.cq[0], w.ops[w.cq[0].op].key.slot;
            var cell := w.reg.cells[s];
            var keeps := !c.more || |cell.queue| < FIFO_DEPTH;
            && s in w.current && w.current[s] == c.op && !c.ofCancel
            && TickCompletion(w) ==
               w.(cq := w.cq[1..], ring := w.ring + (if keeps then [] else OptBuf(c.buf)),
                  reg := w.reg.(cells := w.reg.cells[s := PushedCell(cell, ToEntry(c.result, c.buf), c.more)]),
                  ops := w.ops[c.op := Charge(ReadOp(w), !c.more, Some(keeps))])
  {
    HeldHead(w);
    var s := w.ops[w.cq[0].op].key.slot;
    assert w.reg.cells == w.reg.cells[s := w.reg.cells[s]];
  }

  lemma PushKeepsOp(w: World)
    requires Inv(w) && Timely(w) && w.cq != [] && !w.ops[w.cq[0].op].phase.Freed?
    requires !w.reg.cells[w.ops[w.cq[0].op].key.slot].cancelPending
    ensures OpInv(TickCompletion(w), w.cq[0].op)
    ensures CellInv(TickCompletion(w), w.ops[w.cq[0].op].key.slot)
  {
    HeldHead(w);
    PushTick(w);
    var c, op := w.cq[0], w.ops[w.cq[0].op];
    HeadPosted(w);
    PushHeld(op, w.reg.cells[op.key.slot], ToEntry(c.result, c.buf), c.more);
    HeldStays(w, TickCompletion(w), c.op);
  }

  /** An intermediate completion of a cancelled op is read and dropped. */
  lemma DiscardHeld(op: Op, c: Cell)
    requires HeldInv(op, c) && op.phase.Cancelling? && !EndDrained(op.(drained := op.drained + 1))
    ensures HeldInv(Charge(op.(drained := op.drained + 1), false, None), c)
  {
  }

  lemma PendingKeepsOp(w: World)
    requires Inv(w) && Timely(w) && w.cq != [] && !w.ops[w.cq[0].op].phase.Freed?
    requires w.reg.cells[w.ops[w.cq[0].op].key.slot].cancelPending
    ensures OpInv(TickCompletion(w), w.cq[0].op)
    ensures CellInv(TickCompletion(w), w.ops[w.cq[0].op].key.slot)
  {
    HeldHead(w);
    PendingTick(w);
    var c, op := w.cq[0], w.ops[w.cq[0].op];
    if !c.ofCancel {
      HeadPosted(w);
    }
    if c.more {
      DiscardHeld(op, w.reg.cells[op.key.slot]);
      HeldStays(w, TickCompletion(w), c.op);
    } else {
      HeldLeaves(w, TickCompletion(w), c.op);
    }
  }

  lemma HeldTouches(w: World)
    requires Inv(w) && Timely(w) && w.cq != [] && !w.ops[w.cq[0].op].phase.Freed?
    ensures var w', i := TickCompletion(w), w.cq[0].op;
            Touches(w, w', i, w.ops[i].key.slot) && Owns(w, w', i, w.ops[i].key.slot)
  {
    HeldHead(w);
    var w', i := TickCompletion(w), w.cq[0].op;
    var s := w.ops[i].key.slot;
    if w.reg.cells[s].cancelPending {
      PendingTick(w);
    } else {
      PushTick(w);
    }
    assert w.reg.cells == w.reg.cells[s := w.reg.cells[s]];
    assert w.epochs == w.epochs[s := w.epochs[s]];
    UpdateTouches(w, w', i, s);
  }

  lemma HeldRest(w: World)
    requires Inv(w) && Timely(w) && w.cq != [] && !w.ops[w.cq[0].op].phase.Freed?
    ensures var w' := TickCompletion(w);
            && (forall y: nat :: StreamInv(w', y)) && InboxInv(w')
            && (forall k | 0 <= k < |w'.cq| :: CqeInv(w', w'.cq[k]))
  {
    HeldHead(w);
    if w.reg.cells[w.ops[w.cq[0].op].key.slot].cancelPending {
      PendingTick(w);
    } else {
      PushTick(w);
    }
    ReadRest(w, TickCompletion(w));
  }

  lemma CompletionKeepsInv(w: World)
    requires Inv(w) && Timely(w) && w.cq != []
    ensures Inv(TickCompletion(w))
  {
    var w', i := TickCompletion(w), w.cq[0].op;
    if w.ops[i].phase.Freed? {
      StaleKeepsInv(w);
    } else {
      if w.reg.cells[w.ops[i].key.slot].cancelPending {
        PendingKeepsOp(w);
      } else {
        PushKeepsOp(w);
      }
      HeldTouches(w);
      OthersKept(w, w', i, w.ops[i].key.slot);
      HeldRest(w);
    }
  }

  // The kernel

  /** Posting appends to the op's trace. */
  lemma KernelTrace(cq: seq<Cqe>, i: nat, op: Op, c: Cqe)
    requires TraceInv(cq, i, op) && !HasEnded(op) && c.op == i && !c.ofCancel
    ensures TraceInv(cq + [c], i, op.(posted := op.posted + [Posted(ToEntry(c.result, c.buf), c.more)]))
  {
    var p := Posted(ToEntry(c.result, c.buf), c.more);
    WaitingAppend(cq, c, i);
    assert (op.posted + [p])[op.drained..] == op.posted[op.drained..] + [p];
  }

  lemma KernelOp(w: World, i: nat, result: I32, more: bool, takesBuffer: bool)
    requires Sized(w) && i < |w.ops| && OpInv(w, i) && TickKernel(w, i, result, more, takesBuffer) != w
    ensures OpInv(TickKernel(w, i, result, more, takesBuffer), i)
  {
    var w' := TickKernel(w, i, result, more, takesBuffer);
    var c, op := w'.cq[|w.cq|], w.ops[i];
    KernelTrace(w.cq, i, op, c);
    PostHeld(op, Posted(ToEntry(result, c.buf), more), w.reg.cells[op.key.slot]);
  }

  lemma KernelTouches(w: World, i: nat, result: I32, more: bool, takesBuffer: bool)
    requires Inv(w) && i < |w.ops| && TickKernel(w, i, result, more, takesBuffer) != w
    ensures var w' := TickKernel(w, i, result, more, takesBuffer);
            Touches(w, w', i, MAX_SLOTS) && Owns(w, w', i, MAX_SLOTS)
  {
    var w' := TickKernel(w, i, result, more, takesBuffer);
    forall j | 0 <= j < |w.ops| && j != i ensures Waiting(w'.cq, j) == Waiting(w.cq, j) {
      WaitingAppend(w.cq, w'.cq[|w.cq|], j);
    }
  }

  lemma KernelKeepsInv(w: World, i: nat, result: I32, more: bool, takesBuffer: bool)
    requires Inv(w)
    ensures Inv(TickKernel(w, i, result, more, takesBuffer))
  {
    var w' := TickKernel(w, i, result, more, takesBuffer);
    if w' != w {
      assert OpInv(w, i);
      KernelOp(w, i, result, more, takesBuffer);
      KernelTouches(w, i, result, more, takesBuffer);
      OthersKept(w, w', i, MAX_SLOTS);
      assert CqeInv(w', w'.cq[|w.cq|]);
      AppendRest(w, w');
    }
  }

  /** Posting does not disturb what was already drained. */
  lemma PostHeld(op: Op, p: Posted, c: Cell)
    requires !HasEnded(op) && op.drained <= |op.posted|
    ensures var op' := op.(posted := op.posted + [p]);
            && !EndDrained(op) && !EndDrained(op')
            && (HeldInv(op, c) ==> HeldInv(op', c))
  {
    var op' := op.(posted := op.posted + [p]);
    assert op'.posted[..op.drained] == op.posted[..op.drained];
  }

  lemma AppendRest(w: World, w': World)
    requires Inv(w) && Sized(w') && |w'.ops| == |w.ops| && |w'.cq| == |w.cq| + 1 && w'.cq[..|w.cq|] == w.cq
    requires w'.streams == w.streams && w'.inbox == w.inbox && w'.inboxOps == w.inboxOps
    requires forall j | 0 <= j < |w.ops| :: w'.ops[j].key == w.ops[j].key && w'.ops[j].phase == w.ops[j].phase
    requires CqeInv(w', w'.cq[|w.cq|])
    ensures forall y: nat :: StreamInv(w', y)
    ensures InboxInv(w')
    ensures forall k | 0 <= k < |w'.cq| :: CqeInv(w', w'.cq[k])
  {
    forall y: nat ensures StreamInv(w', y) {
      assert StreamInv(w, y);
    }
    forall k | 0 <= k < |w.cq| ensures CqeInv(w', w'.cq[k]) {
      assert w'.cq[k] == w'.cq[..|w.cq|][k];
      assert CqeInv(w, w.cq[k]);
    }
  }

  lemma AnsweredOp(w: World, i: nat, result: I32)
    requires Sized(w) && i < |w.ops| && OpInv(w, i) && w.ops[i].cancels > 0
    ensures OpInv(AnswerCancel(w, i, result), i)
    ensures w.ops[i].phase.Cancelling? || w.ops[i].phase.Freed?
  {
    WaitingAppend(w.cq, Cqe(Encode(w.ops[i].key), result, false, None, i, true), i);
  }

  lemma AnsweredTouches(w: World, i: nat, result: I32)
    requires Sized(w) && i < |w.ops| && w.ops[i].cancels > 0
    ensures var w' := AnswerCancel(w, i, result);
            Touches(w, w', i, MAX_SLOTS) && Owns(w, w', i, MAX_SLOTS)
  {
    forall j | 0 <= j < |w.ops| && j != i
      ensures Waiting(AnswerCancel(w, i, result).cq, j) == Waiting(w.cq, j)
    {
      WaitingAppend(w.cq, Cqe(Encode(w.ops[i].key), result, false, None, i, true), j);
    }
  }

  lemma AnsweredKeepsInv(w: World, i: nat, result: I32)
    requires Inv(w)
    ensures Inv(AnswerCancel(w, i, result))
  {
    var w' := AnswerCancel(w, i, result);
    if i < |w.ops| && w.ops[i].cancels > 0 {
      assert OpInv(w, i);
      AnsweredOp(w, i, result);
      AnsweredTouches(w, i, result);
      OthersKept(w, w', i, MAX_SLOTS);
      AppendRest(w, w');
    }
  }

  lemma DropBufKeepsInv(w: World, id: U16)
    requires Inv(w)
    ensures Inv(GiveBack(w, id))
  {
    var w' := GiveBack(w, id);
    forall j | 0 <= j < |w.ops| ensures OpInv(w', j) {
      assert OpInv(w, j);
    }
    forall t | 0 <= t < MAX_SLOTS ensures CellInv(w', t) {
      assert CellInv(w, t);
    }
    forall y: nat ensures StreamInv(w', y) {
      assert StreamInv(w, y);
    }
    forall k | 0 <= k < |w.cq| ensures CqeInv(w', w'.cq[k]) {
      assert CqeInv(w, w.cq[k]);
    }
  }

  lemma StepKeepsInv(w: World, l: Label)
    requires Inv(w) && Timely(w)
    ensures Inv(Step(w, l))
  {
    assert Sized(w);
    hide Inv, Timely, StartStream, PollStream, Abandon, GiveBack, TickCancel, TickCompletion, TickKernel,
      AnswerCancel;
    match l
    case Poll(x, token, submitted) =>
      if StreamOf(w, x).Idle? {
        StartKeepsInv(w, x, token, submitted);
        var w1 := StartStream(w, x, token, submitted);
        if StreamOf(w1, x).Multishot? {
          PollKeepsInv(w1, x, StreamOf(w1, x).key, StreamOf(w1, x).op);
        }
      } else if StreamOf(w, x).Multishot? {
        PollKeepsInv(w, x, StreamOf(w, x).key, StreamOf(w, x).op);
      }
    case DropStream(x) => DropKeepsInv(w, x);
    case DropBuf(id) => DropBufKeepsInv(w, id);
    case CancelTick(accepted) => if w.inbox != [] { CancelKeepsInv(w, accepted); }
    case CompletionTick => if w.cq != [] { CompletionKeepsInv(w); }
    case KernelPost(i, result, more, takesBuffer) => KernelKeepsInv(w, i, result, more, takesBuffer);
    case KernelCancelled(i, result) => AnsweredKeepsInv(w, i, result);
  }
}
