/**
 Why the in-place drains and the pool ring realise the protocol: in every state
 a run reaches, the ids they recycle belong to the pool and fit the ring, so
 `recycle` neither panics nor overwrites an unread entry.
 */
module RecvRefinement {
  import opened Basics
  import opened Words
  import opened RecvRegistry
  import opened Token
  import opened RecvProtocol
  import opened RecvTheorems
  import opened BufRing

  /** The ids are of the pool and the ring takes them all behind those it holds. */
  ghost predicate Fits(w: World, entries: PoolSize, ids: seq<U16>) {
    && entries > 0
    && (forall k | 0 <= k < |ids| :: ids[k] < entries)
    && OfferAll(w.ring, entries, ids) == w.ring + ids
  }

  lemma RoomFor(w: World, entries: PoolSize, ids: seq<U16>)
    requires entries > 0 && RingSound(w.ring + ids, entries)
    ensures Fits(w, entries, ids)
  {
    OfferAllRoom(w.ring, entries, ids);
    forall k | 0 <= k < |ids| ensures ids[k] < entries {
      assert (w.ring + ids)[|w.ring| + k] == ids[k];
    }
  }

  /** What the drain recycles for the oldest completion. */
  function Discarded(w: World): seq<U16>
    requires Sized(w) && w.cq != []
  {
    var c := w.cq[0];
    Complete(w.reg, SentinelSlot(c.userData), SentinelGeneration(c.userData), c.result, c.more, c.buf).recycled
  }

  lemma CompletionRing(w: World)
    requires Sized(w) && w.cq != []
    ensures Step(w, CompletionTick).ring == w.ring + Discarded(w)
  {
  }

  lemma CancelRing(w: World)
    requires Sized(w) && w.inbox != []
    ensures Step(w, CancelTick(true)).ring == w.ring + DrainCancel(w.reg, w.inbox[0]).recycled
  {
  }

  /** A step keeps the ring sound. */
  lemma StepRing(w: World, l: Label, entries: PoolSize)
    requires Inv(w) && Timely(w) && Conserved(w, entries)
    ensures RingSound(Step(w, l).ring, entries)
  {
    StepConserves(w, l, entries);
    RingOfWorld(Step(w, l), entries);
  }

  lemma CompletionFits(worker: U8, cap: U16, entries: PoolSize, ls: seq<Label>)
    requires entries > 0 && TimelyRun(worker, cap, entries, ls)
    requires var w := Run(worker, cap, entries, ls); w.cq != [] && Timely(w)
    ensures var w := Run(worker, cap, entries, ls);
            var c := w.cq[0];
            && (c.buf.Some? ==> c.buf.value < entries)
            && Fits(w, entries, Discarded(w))
  {
    var w := Run(worker, cap, entries, ls);
    RunSafe(worker, cap, entries, ls);
    if w.cq[0].buf.Some? {
      HeadBuffer(w, entries);
    }
    StepRing(w, CompletionTick, entries);
    CompletionRing(w);
    RoomFor(w, entries, Discarded(w));
  }

  lemma CancelFits(worker: U8, cap: U16, entries: PoolSize, ls: seq<Label>)
    requires entries > 0 && TimelyRun(worker, cap, entries, ls)
    requires var w := Run(worker, cap, entries, ls); w.inbox != [] && Timely(w)
    ensures var w := Run(worker, cap, entries, ls);
            Fits(w, entries, DrainCancel(w.reg, w.inbox[0]).recycled)
  {
    var w := Run(worker, cap, entries, ls);
    RunSafe(worker, cap, entries, ls);
    StepRing(w, CancelTick(true), entries);
    CancelRing(w);
    RoomFor(w, entries, DrainCancel(w.reg, w.inbox[0]).recycled);
  }

  lemma GiveBackFits(worker: U8, cap: U16, entries: PoolSize, ls: seq<Label>, id: U16)
    requires entries > 0 && TimelyRun(worker, cap, entries, ls)
    requires var w := Run(worker, cap, entries, ls); id in w.held && Timely(w)
    ensures Fits(Run(worker, cap, entries, ls), entries, [id])
  {
    var w := Run(worker, cap, entries, ls);
    RunSafe(worker, cap, entries, ls);
    StepRing(w, DropBuf(id), entries);
    RoomFor(w, entries, [id]);
  }
}
