/**
 What the ring promises its callers, for every interleaving of any number of
 producers with the one consumer.
 */
module MpscTheorems {
  import opened Basics
  import opened Bits
  import opened MpscRing
  import opened MpscSafety

  /** Completed pops returned exactly the claimed values, in claim order. */
  ghost predicate Fifo<T>(m: Machine<T>, h: History<T>) {
    && |h.popped| == m.dequeuePos <= |h.claims|
    && (forall p | 0 <= p < |h.popped| :: h.popped[p] == Some(h.claims[p].value))
  }

  /** A push that returned `Ok` is already popped, or still sits intact in its slot. */
  ghost predicate NothingLost<T>(m: Machine<T>, h: History<T>)
    requires Sized(m)
  {
    forall p | p in h.published ::
      && p < |h.claims|
      && (p < Released(m) || m.cells[Slot(p, |m.sequences|)] == Some(h.claims[p].value))
  }

  lemma PoppedIsClaimedPrefix<T>(n: nat, ls: seq<Label<T>>)
    requires IsPow2(n) && n >= 2
    ensures Fifo(Run(Unbounded, n, ls), Past(n, ls))
    ensures NothingLost(Run(Unbounded, n, ls), Past(n, ls))
  {
    RunInv(n, ls);
    var m, h := Run(Unbounded, n, ls), Past(n, ls);
    forall p | p in h.published && p >= Released(m)
      ensures m.cells[Slot(p, n)] == Some(h.claims[p].value)
    {
      assert SlotInv(m, h, p);
    }
  }

  /** Who may touch a cell: a producer between its claim and its publish, or the consumer mid-read. */
  datatype Agent = TheProducer(thread: nat) | TheConsumer

  predicate Owns<T>(m: Machine<T>, a: Agent, slot: nat)
    requires |m.sequences| > 0
  {
    match a
    case TheProducer(t) =>
      var p := At(m, t);
      (p.AtWrite? || p.AtPublish?) && Slot(p.pos, |m.sequences|) == slot
    case TheConsumer =>
      (m.consumer.AtRead? || m.consumer.AtRelease?) && Slot(m.consumer.pos, |m.sequences|) == slot
  }

  /** No two threads ever own one cell at the same time. */
  lemma CellOwnersAreExclusive<T>(n: nat, ls: seq<Label<T>>, a: Agent, b: Agent, slot: nat)
    requires IsPow2(n) && n >= 2
    requires Owns(Run(Unbounded, n, ls), a, slot) && Owns(Run(Unbounded, n, ls), b, slot)
    ensures a == b
  {
    RunInv(n, ls);
    var m, h := Run(Unbounded, n, ls), Past(n, ls);
    var p := PositionOf(m, h, a);
    var q := PositionOf(m, h, b);
    if p != q {
      SlotOthers(n, Released(m), p);
    }
  }

  /** The window position an owner works on; a producer's is unpublished, the consumer's published. */
  lemma PositionOf<T>(m: Machine<T>, h: History<T>, a: Agent) returns (p: nat)
    requires Inv(m, h)
    requires a.TheConsumer? ==> m.consumer.AtRead? || m.consumer.AtRelease?
    requires a.TheProducer? ==> At(m, a.thread).AtWrite? || At(m, a.thread).AtPublish?
    ensures a.TheConsumer? ==> p == m.consumer.pos && p in h.published
    ensures a.TheProducer? ==> p == At(m, a.thread).pos && p !in h.published
    ensures a.TheProducer? ==> p < |h.claims| && h.claims[p].thread == a.thread
    ensures Released(m) <= p < Released(m) + |m.sequences|
  {
    match a
    case TheProducer(t) =>
      assert ProducerInv(m, h, t);
      p := At(m, t).pos;
    case TheConsumer =>
      p := m.consumer.pos;
  }

  /**
   `push` reports full exactly when the position it holds is the next one and
   all `n` slots are claimed and not yet released at that instant.
   */
  lemma FullIsExact<T>(n: nat, ls: seq<Label<T>>, t: nat)
    requires IsPow2(n) && n >= 2
    requires At(Run(Unbounded, n, ls), t).AtSequence?
    ensures var m := Run(Unbounded, n, ls);
            var p := At(m, t);
            At(Run(Unbounded, n, ls + [LoadSequence(t)]), t) == Refused(p.value)
            <==> p.pos == m.enqueuePos && m.enqueuePos - Released(m) == n
  {
    RunInv(n, ls);
    var m, h := Run(Unbounded, n, ls), Past(n, ls);
    assert (ls + [LoadSequence(t)])[..|ls|] == ls;
    assert ProducerInv(m, h, t);
    SequenceMeaning(m, h, At(m, t).pos);
  }

  /** Positions in flight never exceed `n + 1`, and `n + 1` only between the two stores of `pop`. */
  lemma OccupancyBound<T>(n: nat, ls: seq<Label<T>>)
    requires IsPow2(n) && n >= 2
    ensures var m := Run(Unbounded, n, ls);
            && m.dequeuePos <= m.enqueuePos <= m.dequeuePos + n + 1
            && (m.enqueuePos == m.dequeuePos + n + 1 ==> m.consumer.AtAdvance?)
  {
    RunInv(n, ls);
  }

  /** The consumer sees an empty ring exactly when its position is not published yet. */
  lemma EmptyIsExact<T>(n: nat, ls: seq<Label<T>>)
    requires IsPow2(n) && n >= 2
    requires Run(Unbounded, n, ls).consumer.AtProbe?
    ensures Run(Unbounded, n, ls + [Probe]).consumer.Resting?
            <==> Run(Unbounded, n, ls).dequeuePos !in Past(n, ls).published
  {
    RunInv(n, ls);
    assert (ls + [Probe])[..|ls|] == ls;
    HeadSequence(Run(Unbounded, n, ls), Past(n, ls));
  }

  // ---------------------------------------------------------------------
  // One slot is not enough
  // ---------------------------------------------------------------------

  /** Labels played from the front, machine and history together. */
  function Play<T>(m: Machine<T>, h: History<T>, ls: seq<Label<T>>): (Machine<T>, History<T>)
    requires Sized(m)
    decreases |ls|
  {
    if ls == [] then (m, h) else Play(Next(Unbounded, m, ls[0]), Record(m, h, ls[0]), ls[1..])
  }

  lemma {:induction false} PlaySnoc<T>(m: Machine<T>, h: History<T>, ls: seq<Label<T>>, l: Label<T>)
    requires Sized(m)
    ensures Sized(Play(m, h, ls).0)
    ensures var (m', h') := Play(m, h, ls);
            Play(m, h, ls + [l]) == (Next(Unbounded, m', l), Record(m', h', l))
    decreases |ls|
  {
    if ls != [] {
      PlaySnoc(Next(Unbounded, m, ls[0]), Record(m, h, ls[0]), ls[1..], l);
      assert (ls + [l])[1..] == ls[1..] + [l];
    }
  }

  lemma {:induction false} RunIsPlay<T>(n: nat, ls: seq<Label<T>>)
    requires n > 0
    ensures (Run(Unbounded, n, ls), Past(n, ls)) == Play(Init(n), History([], [], {}), ls)
    decreases |ls|
  {
    if ls != [] {
      var before := ls[..|ls| - 1];
      RunIsPlay(n, before);
      PlaySnoc(Init(n), History([], [], {}), before, ls[|ls| - 1]);
      assert before + [ls[|ls| - 1]] == ls;
    }
  }

  lemma PlayNone<T>(m: Machine<T>, h: History<T>)
    requires Sized(m)
    ensures Play(m, h, []) == (m, h)
  {
  }

  lemma PlayCons<T>(m: Machine<T>, h: History<T>, l: Label<T>, rest: seq<Label<T>>)
    requires Sized(m)
    ensures Play(m, h, [l] + rest) == Play(Next(Unbounded, m, l), Record(m, h, l), rest)
  {
    assert ([l] + rest)[1..] == rest;
  }

  /** A single-slot ring whose consumer has not moved. */
  function Single<T>(enq: nat, sequence: nat, cell: Option<T>, threads: map<nat, Producer<T>>,
    c: Consumer<T>): Machine<T> {
    Machine(enq, 0, [sequence], [cell], threads, c)
  }

  lemma OneCell<X>(x: X, y: X)
    ensures [x][0 := y] == [y]
  {
  }

  lemma Retarget<T>(threads: map<nat, Producer<T>>, t: nat, p: Producer<T>, q: Producer<T>)
    ensures threads[t := p][t := q] == threads[t := q]
  {
  }

  function PushThen<T>(t: nat, v: T, rest: seq<Label<T>>): seq<Label<T>> {
    [Push(t, v)] + ([LoadPos(t)] + ([LoadSequence(t)] + ([CompareExchange(t, false)]
      + ([WriteCell(t)] + ([Publish(t)] + rest)))))
  }

  function PopThen<T>(rest: seq<Label<T>>): seq<Label<T>> {
    [Pop] + ([Probe] + ([ReadCell] + ([Release] + ([Advance] + rest))))
  }

  /** Two whole pushes and one whole pop. */
  function Overrun<T>(a: T, b: T): seq<Label<T>> {
    PushThen(0, a, PushThen(1, b, PopThen([])))
  }

  lemma ClaimOnOneSlot<T>(k: nat, cell: Option<T>, threads: map<nat, Producer<T>>, h: History<T>, t: nat, v: T,
    rest: seq<Label<T>>)
    requires t !in threads
    ensures Play(Single(k, k, cell, threads, Resting), h,
                 [Push(t, v)] + ([LoadPos(t)] + ([LoadSequence(t)] + ([CompareExchange(t, false)] + rest))))
            == Play(Single(k + 1, k, cell, threads[t := AtWrite(v, k)], Resting),
              h.(claims := h.claims + [Claim(t, v)]), rest)
  {
    var r3 := [CompareExchange(t, false)] + rest;
    var r2 := [LoadSequence(t)] + r3;
    var m0 := Single(k, k, cell, threads, Resting);
    var m1 := Single(k, k, cell, threads[t := AtLoad(v)], Resting);
    var m2 := Single(k, k, cell, threads[t := AtSequence(v, k)], Resting);
    var m3 := Single(k, k, cell, threads[t := AtCas(v, k)], Resting);
    Retarget(threads, t, AtLoad(v), AtSequence(v, k));
    Retarget(threads, t, AtSequence(v, k), AtCas(v, k));
    Retarget(threads, t, AtCas(v, k), AtWrite(v, k));
    PlayCons(m0, h, Push(t, v), [LoadPos(t)] + r2);
    PlayCons(m1, h, LoadPos(t), r2);
    PlayCons(m2, h, LoadSequence(t), r3);
    PlayCons(m3, h, CompareExchange(t, false), rest);
  }

  lemma PushOnOneSlot<T>(k: nat, cell: Option<T>, threads: map<nat, Producer<T>>, h: History<T>, t: nat, v: T,
    rest: seq<Label<T>>)
    requires t !in threads
    ensures Play(Single(k, k, cell, threads, Resting), h, PushThen(t, v, rest))
            == Play(Single(k + 1, k + 1, Some(v), threads[t := Idle], Resting),
                    h.(claims := h.claims + [Claim(t, v)], published := h.published + {k}), rest)
  {
    var h' := h.(claims := h.claims + [Claim(t, v)]);
    var r5 := [Publish(t)] + rest;
    ClaimOnOneSlot(k, cell, threads, h, t, v, [WriteCell(t)] + r5);
    var m4 := Single(k + 1, k, cell, threads[t := AtWrite(v, k)], Resting);
    var m5 := Single(k + 1, k, Some(v), threads[t := AtPublish(v, k)], Resting);
    Retarget(threads, t, AtWrite(v, k), AtPublish(v, k));
    Retarget(threads, t, AtPublish(v, k), Idle);
    OneCell(cell, Some(v));
    OneCell(k, k + 1);
    PlayCons(m4, h', WriteCell(t), r5);
    PlayCons(m5, h', Publish(t), rest);
  }

  lemma ReadOneSlot<T>(k: nat, v: T, threads: map<nat, Producer<T>>, h: History<T>, rest: seq<Label<T>>)
    requires k >= 1
    ensures Play(Single(k, k, Some(v), threads, Resting), h, [Pop] + ([Probe] + ([ReadCell] + rest)))
            == Play(Single(k, k, Some(v), threads, AtRelease(0, Some(v))), h, rest)
  {
    var r2 := [ReadCell] + rest;
    PlayCons(Single(k, k, Some(v), threads, Resting), h, Pop, [Probe] + r2);
    PlayCons(Single(k, k, Some(v), threads, AtProbe(0)), h, Probe, r2);
    PlayCons(Single(k, k, Some(v), threads, AtRead(0)), h, ReadCell, rest);
  }

  lemma PopOnOneSlot<T>(k: nat, v: T, threads: map<nat, Producer<T>>, h: History<T>, rest: seq<Label<T>>)
    requires k >= 1
    ensures Play(Single(k, k, Some(v), threads, Resting), h, PopThen(rest))
            == Play(Machine(k, 1, [1], [Some(v)], threads, Resting), h.(popped := h.popped + [Some(v)]), rest)
  {
    var r4 := [Advance] + rest;
    OneCell(k, 1);
    ReadOneSlot(k, v, threads, h, [Release] + r4);
    PlayCons(Single(k, k, Some(v), threads, AtRelease(0, Some(v))), h, Release, r4);
    PlayCons(Single(k, 1, Some(v), threads, AtAdvance(0, Some(v))), h, Advance, rest);
  }

  /** With one slot the second push overwrites the first value, which is never popped. */
  lemma OneSlotLoses<T>(n: nat, a: T, b: T)
    requires n == 1 && a != b
    ensures Past(n, Overrun(a, b)).claims == [Claim(0, a), Claim(1, b)]
    ensures Past(n, Overrun(a, b)).popped == [Some(b)]
    ensures !Fifo(Run(Unbounded, n, Overrun(a, b)), Past(n, Overrun(a, b)))
  {
    hide Play, PushThen, PopThen, Run, Past;
    var end: seq<Label<T>> := [];
    RunIsPlay(n, Overrun(a, b));
    var none: map<nat, Producer<T>> := map[];
    var h0: History<T> := History([], [], {});
    var h1: History<T> := History(h0.claims + [Claim(0, a)], [], h0.published + {0});
    var h2: History<T> := History(h1.claims + [Claim(1, b)], [], h1.published + {1});
    assert Init<T>(n) == Single(0, 0, None, none, Resting);
    PushOnOneSlot(0, None, none, h0, 0, a, PushThen(1, b, PopThen(end)));
    PushOnOneSlot(1, Some(a), none[0 := Idle], h1, 1, b, PopThen(end));
    PopOnOneSlot(2, b, none[0 := Idle][1 := Idle], h2, end);
    PlayNone(Machine(2, 1, [1], [Some(b)], none[0 := Idle][1 := Idle], Resting), h2.(popped := h2.popped + [Some(b)]));
    var h := Past(n, Overrun(a, b));
    assert h.popped[0] == Some(b) && h.claims[0].value == a;
  }

  /** First-in first-out holds in every run if and only if the ring has at least two slots. */
  lemma FifoIffTwoSlots<T(!new)>(n: nat, a: T, b: T)
    requires IsPow2(n) && a != b
    ensures (forall ls: seq<Label<T>> :: Fifo(Run(Unbounded, n, ls), Past(n, ls))) <==> n >= 2
  {
    if n >= 2 {
      forall ls: seq<Label<T>> ensures Fifo(Run(Unbounded, n, ls), Past(n, ls)) {
        PoppedIsClaimedPrefix(n, ls);
      }
    } else {
      OneSlotLoses(n, a, b);
    }
  }
}
