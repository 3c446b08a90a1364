/** A recv stream's own steps, and that they are the protocol's. */
module RecvStreams {
  import opened Basics
  import opened Words
  import opened RecvRegistry
  import opened RecvSlab
  import opened RecvDrain
  import opened CancelInbox
  import opened RecvProtocol

  datatype RecvState = NotStarted | InFlight(key: Key) | SingleShot | Over

  /** What a poll answers: the registry's next step, a single-shot recv's turn, or the end. */
  datatype Polled = Yields(next: Next) | SingleShotTurn | Finished

  /** Starting: an op in flight, or a fallback that leaves no slot behind. */
  function Started(r: Registry, owner: U64, submitted: bool): (o: (Registry, RecvState))
    requires Shaped(r)
    ensures Shaped(o.0)
  {
    match Allocate(r, owner)
    case (_, None) => (r, SingleShot)
    case (r', Some(key)) => if submitted then (r', InFlight(key)) else (Free(r', key), SingleShot)
  }

  function Answer(next: Next): Polled {
    if next.Ended? then Finished else Yields(next)
  }

  function PolledFrom(r: Registry, s: RecvState): (o: (Registry, RecvState, Polled))
    requires Shaped(r)
    ensures Shaped(o.0)
  {
    match s
    case InFlight(key) =>
      var (r', next) := Advance(r, key);
      (r', if next.Ended? then Over else s, Answer(next))
    case SingleShot => (r, s, SingleShotTurn)
    case _ => (r, s, Finished)
  }

  function PollOnce(r: Registry, s: RecvState, owner: U64, submitted: bool): (o: (Registry, RecvState, Polled))
    requires Shaped(r)
    ensures Shaped(o.0)
  {
    if s.NotStarted? then
      var (r1, s1) := Started(r, owner, submitted);
      PolledFrom(r1, s1)
    else PolledFrom(r, s)
  }

  class RecvStream {
    var state: RecvState

    constructor ()
      ensures state == NotStarted
    {
      state := NotStarted;
    }

    /** `submitted` says whether the backend took the multishot op. */
    method Start(slab: RecvMultishotSlab?, owner: U64, submitted: bool)
      requires slab != null ==> slab.Valid()
      modifies this, if slab == null then {} else Owned(slab)
      ensures slab == null ==> state == Over
      ensures slab != null ==> slab.Valid() && (slab.Model(), state) == Started(old(slab.Model()), owner, submitted)
    {
      var a := AllocateRecvMultishotSlot(slab, owner);
      match a {
        case Unsupported => state := Over;
        case Full => state := SingleShot;
        case Allocated(key, _) =>
          if submitted {
            state := InFlight(key);
          } else {
            slab.Free(key);
            state := SingleShot;
          }
      }
    }

    method PollNext(slab: RecvMultishotSlab?, owner: U64, submitted: bool) returns (p: Polled)
      requires slab != null ==> slab.Valid()
      modifies this, if slab == null then {} else Owned(slab)
      ensures slab == null && !old(state).SingleShot? ==> state == Over && p == Finished
      ensures slab != null ==>
                slab.Valid() && (slab.Model(), state, p) == PollOnce(old(slab.Model()), old(state), owner, submitted)
    {
      if state.NotStarted? {
        Start(slab, owner, submitted);
      }
      match state {
        case InFlight(key) =>
          var next := RecvMultishotNext(slab, key);
          p := Answer(next);
          if next.Ended? {
            state := Over;
          }
        case SingleShot => p := SingleShotTurn;
        case Over => p := Finished;
        case NotStarted => assert false;
      }
    }

    /** Only an op in flight is cancelled, through the inbox. */
    method Drop(inbox: RecvCancelInbox)
      requires inbox.Valid()
      modifies inbox, inbox.storage
      ensures inbox.Valid()
      ensures inbox.Pending() ==
              if state.InFlight? && |old(inbox.Pending())| < inbox.n then old(inbox.Pending()) + [state.key]
                                 else old(inbox.Pending())
    {
      if state.InFlight? {
        inbox.PushCancel(state.key);
      }
    }
  }

  // ---------------------------------------------------------------------
  // The protocol's streams
  // ---------------------------------------------------------------------

  function StateOf(s: Stream): RecvState {
    match s
    case Idle => NotStarted
    case Multishot(key, _) => InFlight(key)
    case Fallback => SingleShot
    case Done => Over
  }

  /** A stream the registry ends holds a live key. */
  lemma EndedWasLive(r: Registry, key: Key)
    requires Shaped(r) && Advance(r, key).1.Ended?
    ensures KeyLive(r, key)
  {
  }

  /** The protocol's poll is the stream's, on the registry and on the stream's state. */
  lemma PollIsProtocol(w: World, x: nat, token: U64, submitted: bool)
    requires Sized(w)
    ensures var (r, s, _) := PollOnce(w.reg, StateOf(StreamOf(w, x)), token, submitted);
            PollTick(w, x, token, submitted).reg == r && StateOf(StreamOf(PollTick(w, x, token, submitted), x)) == s
  {
    var w1 := if StreamOf(w, x).Idle? then StartStream(w, x, token, submitted) else w;
    StartIsProtocol(w, x, token, submitted);
    if StreamOf(w1, x).Multishot? {
      StepIsProtocol(w1, x);
    }
  }

  lemma StartIsProtocol(w: World, x: nat, token: U64, submitted: bool)
    requires Sized(w)
    ensures var (r, s) := Started(w.reg, token, submitted);
            var w1 := StartStream(w, x, token, submitted);
            w1.reg == r && StateOf(StreamOf(w1, x)) == s && !StreamOf(w1, x).Idle?
  {
  }

  lemma StepIsProtocol(w: World, x: nat)
    requires Sized(w) && StreamOf(w, x).Multishot?
    ensures var (r, s, _) := PolledFrom(w.reg, StateOf(StreamOf(w, x)));
            var w' := PollStream(w, x, StreamOf(w, x).key, StreamOf(w, x).op);
            w'.reg == r && StateOf(StreamOf(w', x)) == s
  {
    var key := StreamOf(w, x).key;
    if Advance(w.reg, key).1.Ended? {
      EndedWasLive(w.reg, key);
    }
  }

  /** A stream goes in flight exactly when a slot was free and the op submitted; a fallback leaves no slot behind. */
  lemma StartExact(r: Registry, owner: U64, submitted: bool)
    requires Shaped(r)
    ensures var (r', s) := Started(r, owner, submitted);
            && (s.InFlight? <==> submitted && exists t | 0 <= t < r.cap :: !r.cells[t].occupied)
            && (s.InFlight? ==> !KeyLive(r, s.key) && KeyLive(r', s.key) && r'.cells[s.key.slot].owner == owner)
            && (!s.InFlight? ==>
                  s == SingleShot && forall t | 0 <= t < MAX_SLOTS :: r'.cells[t].occupied == r.cells[t].occupied)
  {
    var (r1, k) := Allocate(r, owner);
    if k.Some? {
      assert !r.cells[k.value.slot].occupied;
    }
  }

  // ---------------------------------------------------------------------
  // What the caller is handed
  // ---------------------------------------------------------------------

  function YieldedBy(w: World, i: nat): seq<Entry> {
    if i < |w.ops| then w.ops[i].yielded else []
  }

  /** The op of stream `x` handed out exactly this from `w` to `w'`, with its buffer. */
  predicate HandsOut(w: World, w': World, x: nat, result: I32, buf: Option<U16>) {
    && StreamOf(w', x).Multishot?
    && YieldedBy(w', StreamOf(w', x).op) == YieldedBy(w, StreamOf(w', x).op) + [ToEntry(result, buf)]
    && w'.held == w.held + multiset(OptBuf(buf))
  }

  predicate HandsOutNothing(w: World, w': World, x: nat) {
    && StreamOf(w', x).Multishot?
    && YieldedBy(w', StreamOf(w', x).op) == YieldedBy(w, StreamOf(w', x).op)
    && w'.held == w.held
  }

  /** The answer of a poll says exactly what the protocol's record of the poll says. */
  ghost predicate Tells(w: World, w': World, x: nat, p: Polled) {
    && (forall result: I32, buf: Option<U16> | buf != Some(NO_BUFFER) ::
          p == Yields(Item(result, buf)) <==> HandsOut(w, w', x, result, buf))
    && (p.Yields? && p.next.Item? ==> p.next.buf != Some(NO_BUFFER))
    && (p == Yields(Pending) <==> HandsOutNothing(w, w', x))
    && (p == Finished <==> StreamOf(w', x).Done?)
    && (p == SingleShotTurn <==> StreamOf(w', x).Fallback?)
    && p != Yields(Ended)
  }

  lemma AdvanceItem(r: Registry, key: Key)
    requires Shaped(r) && Advance(r, key).1.Item?
    ensures Advance(r, key).1.buf != Some(NO_BUFFER)
  {
  }

  lemma SameEntry(q: seq<Entry>, r: I32, b: Option<U16>, r': I32, b': Option<U16>)
    requires b != Some(NO_BUFFER) && b' != Some(NO_BUFFER)
    ensures q + [ToEntry(r, b)] == q + [ToEntry(r', b')] <==> r == r' && b == b'
  {
    assert (q + [ToEntry(r, b)])[|q|] == ToEntry(r, b) && (q + [ToEntry(r', b')])[|q|] == ToEntry(r', b');
  }

  lemma StepTells(w: World, x: nat)
    requires Sized(w) && StreamOf(w, x).Multishot?
    ensures Tells(w, PollStream(w, x, StreamOf(w, x).key, StreamOf(w, x).op), x,
                  PolledFrom(w.reg, StateOf(StreamOf(w, x))).2)
  {
    hide Advance;
    var Multishot(key, i) := StreamOf(w, x);
    var w' := PollStream(w, x, key, i);
    var p := PolledFrom(w.reg, InFlight(key)).2;
    var next := Advance(w.reg, key).1;
    if next.Ended? {
      EndedWasLive(w.reg, key);
      assert StreamOf(w', x).Done?;
    } else if next.Item? {
      AdvanceItem(w.reg, key);
      forall result: I32, buf: Option<U16> | buf != Some(NO_BUFFER)
        ensures p == Yields(Item(result, buf)) <==> HandsOut(w, w', x, result, buf)
      {
        SameEntry(w.ops[i].yielded, next.result, next.buf, result, buf);
      }
    } else {
      assert StreamOf(w', x) == StreamOf(w, x) && YieldedBy(w', i) == YieldedBy(w, i);
    }
  }

  /**
   What `poll_next` answers against the protocol's record: an item exactly when
   the op yielded that entry and lent its buffer, pending exactly when it stays
   in flight and yielded nothing, the end exactly when the stream is done.
   */
  lemma PollTells(w: World, x: nat, token: U64, submitted: bool)
    requires Sized(w)
    ensures Tells(w, PollTick(w, x, token, submitted), x, PollOnce(w.reg, StateOf(StreamOf(w, x)), token, submitted).2)
  {
    var w1 := if StreamOf(w, x).Idle? then StartStream(w, x, token, submitted) else w;
    StartIsProtocol(w, x, token, submitted);
    StartYieldsNothing(w, x, token, submitted);
    if StreamOf(w1, x).Multishot? {
      StepTells(w1, x);
      var w' := PollTick(w, x, token, submitted);
      if StreamOf(w', x).Multishot? {
        assert StreamOf(w', x).op == StreamOf(w1, x).op;
      }
    }
  }

  lemma StartYieldsNothing(w: World, x: nat, token: U64, submitted: bool)
    requires Sized(w)
    ensures var w1 := StartStream(w, x, token, submitted);
            w1.held == w.held && forall i: nat :: YieldedBy(w1, i) == YieldedBy(w, i)
  {
  }

  /** The protocol's drop queues what the stream's drop queues. */
  lemma DropIsProtocol(w: World, x: nat)
    requires Sized(w)
    ensures var s := StateOf(StreamOf(w, x));
            Abandon(w, x).inbox == if s.InFlight? && |w.inbox| < INBOX_CAPACITY then w.inbox + [s.key] else w.inbox
  {
  }
}
