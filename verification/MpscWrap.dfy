/**
 The ring on machine words. Positions, sequences and gap tests wrap at `modulus`
 (2^64 for a 64-bit `usize`); as long as no producer sits on a position that has
 fallen half the range behind its slot's sequence, the wrapped machine computes
 exactly what the unbounded one does.
 */
module MpscWrap {
  import opened Basics
  import opened Bits
  import opened MpscRing
  import opened MpscSafety
  import opened MpscTheorems

  function WrapProducer<T>(m: Modulus, p: Producer<T>): Producer<T> {
    match p
    case AtSequence(v, pos) => AtSequence(v, pos % m)
    case AtCas(v, pos) => AtCas(v, pos % m)
    case AtWrite(v, pos) => AtWrite(v, pos % m)
    case AtPublish(v, pos) => AtPublish(v, pos % m)
    case _ => p
  }

  function WrapConsumer<T>(m: Modulus, c: Consumer<T>): Consumer<T> {
    match c
    case Resting => Resting
    case AtProbe(pos) => AtProbe(pos % m)
    case AtRead(pos) => AtRead(pos % m)
    case AtRelease(pos, v) => AtRelease(pos % m, v)
    case AtAdvance(pos, v) => AtAdvance(pos % m, v)
  }

  function WrapSequences(m: Modulus, s: seq<nat>): (r: seq<nat>)
    ensures |r| == |s|
  {
    seq(|s|, i requires 0 <= i < |s| => s[i] % m)
  }

  function WrapThreads<T>(m: Modulus, threads: map<nat, Producer<T>>): map<nat, Producer<T>> {
    map t | t in threads :: WrapProducer(m, threads[t])
  }

  function WrapMachine<T>(m: Modulus, u: Machine<T>): Machine<T> {
    Machine(u.enqueuePos % m, u.dequeuePos % m, WrapSequences(m, u.sequences), u.cells,
            WrapThreads(m, u.producers), WrapConsumer(m, u.consumer))
  }

  /** No producer about to compare or exchange lags its slot by half the range or more. */
  ghost predicate Near<T>(m: Modulus, u: Machine<T>) {
    |u.sequences| > 0 &&
    forall t: nat | At(u, t).AtSequence? || At(u, t).AtCas? ::
      u.sequences[Slot(At(u, t).pos, |u.sequences|)] < At(u, t).pos + m / 2
  }

  ghost predicate Fits(m: Modulus, n: nat) {
    IsPow2(m) && IsPow2(n) && 2 <= n <= m / 2
  }

  // ---------------------------------------------------------------------
  // Modular arithmetic
  // ---------------------------------------------------------------------

  lemma AddMod(a: nat, b: nat, m: Modulus)
    ensures (a % m + b) % m == (a + b) % m
  {
    var k, r := a / m, a % m;
    DivMod(a, m);
    DivMod(r + b, m);
    var j, s := (r + b) / m, (r + b) % m;
    assert m * (k + j) == m * k + m * j;
    ModUnique(a + b, m, k + j, s);
  }

  /** The wrapping difference of two residues is the residue of the difference. */
  lemma SubMod(a: nat, b: nat, m: Modulus)
    ensures (a % m - b % m) % m == (a - b) % m
  {
    DivMod(a, m);
    DivMod(b, m);
    var d := a / m - b / m;
    assert a - b == a % m - b % m + m * d by {
      assert m * d == m * (a / m) - m * (b / m);
    }
    ShiftMod(a % m - b % m, m, d);
  }

  lemma {:induction false} ShiftMod(x: int, m: Modulus, d: int)
    ensures (x + m * d) % m == x % m
    decreases if d < 0 then -d else d
  {
    if d > 0 {
      ShiftMod(x, m, d - 1);
      assert x + m * d == (x + m * (d - 1)) + m;
      OneLap(x + m * (d - 1), m);
    } else if d < 0 {
      ShiftMod(x, m, d + 1);
      assert (x + m * d) + m == x + m * (d + 1);
      OneLap(x + m * d, m);
    }
  }

  lemma OneLap(x: int, m: Modulus)
    ensures (x + m) % m == x % m
  {
    var q, r := x / m, x % m;
    assert x == m * q + r;
    var q', r' := (x + m) / m, (x + m) % m;
    assert x + m == m * q' + r';
    var d := q' - q - 1;
    assert m * d == r - r' by {
      assert m * d == m * q' - m * q - m;
    }
    assert m * (0 - d) == 0 - m * d;
    if d >= 1 {
      MulMono(m, d);
    } else if d <= -1 {
      MulMono(m, 0 - d);
    }
  }

  /** The gap test on wrapped operands reads the same as on unbounded ones. */
  lemma ClassifyWraps(s: nat, p: nat, m: Modulus)
    requires m % 2 == 0 && p <= s + m / 2 && s < p + m / 2
    ensures Classify(Wrapping(m), s % m, p % m) == Classify(Unbounded, s, p)
  {
    SubMod(s, p, m);
    if s >= p {
      ModUnique(s - p, m, 0, s - p);
    } else {
      OneLap(s - p, m);
      ModUnique(s - p + m, m, 0, s - p + m);
    }
  }

  /** Half the range is the exact limit: from there on the wrapped test calls an old position full. */
  lemma ClassifyExact(s: nat, p: nat, m: Modulus)
    requires m % 2 == 0 && p <= s < p + m
    ensures Classify(Wrapping(m), s % m, p % m) == Classify(Unbounded, s, p) <==> s < p + m / 2
  {
    SubMod(s, p, m);
    ModUnique(s - p, m, 0, s - p);
  }

  lemma SlotWraps(pos: nat, n: nat, m: Modulus)
    requires Fits(m, n)
    ensures Slot(pos % m, n) == Slot(pos, n)
  {
    AndMask(pos, n);
    AndMask(pos % m, n);
    ModMod(pos, n, m);
  }

  // ---------------------------------------------------------------------
  // Updates commute with wrapping
  // ---------------------------------------------------------------------

  lemma WrapAt<T>(m: Modulus, u: Machine<T>, t: nat)
    ensures At(WrapMachine(m, u), t) == WrapProducer(m, At(u, t))
  {
  }

  lemma WrapMove<T>(m: Modulus, u: Machine<T>, t: nat, p: Producer<T>)
    ensures Move(WrapMachine(m, u), t, WrapProducer(m, p)) == WrapMachine(m, Move(u, t, p))
  {
    assert WrapThreads(m, u.producers)[t := WrapProducer(m, p)] == WrapThreads(m, u.producers[t := p]);
  }

  lemma WrapStore(m: Modulus, s: seq<nat>, i: nat, x: nat)
    requires i < |s|
    ensures WrapSequences(m, s)[i := x % m] == WrapSequences(m, s[i := x])
  {
  }

  /** A producer about to exchange is less than one full range behind `enqueuePos`. */
  lemma CasDistance<T>(m: Modulus, u: Machine<T>, h: History<T>, t: nat)
    requires Inv(u, h) && Near(m, u) && Fits(m, |u.sequences|) && At(u, t).AtCas?
    ensures At(u, t).pos <= u.enqueuePos < At(u, t).pos + m
  {
    assert ProducerInv(u, h, t);
    var n := |u.sequences|;
    var q := WindowTwin(n, Released(u), At(u, t).pos);
    assert SlotInv(u, h, q);
  }

  lemma WrapLoadStep<T>(m: Modulus, u: Machine<T>, h: History<T>, l: Label<T>)
    requires Inv(u, h)
    requires l.Push? || l.LoadPos?
    ensures Next(Wrapping(m), WrapMachine(m, u), l) == WrapMachine(m, Next(Unbounded, u, l))
  {
    WrapAt(m, u, l.thread);
    WrapMove(m, u, l.thread, At(Next(Unbounded, u, l), l.thread));
  }

  lemma WrapTestStep<T>(m: Modulus, u: Machine<T>, h: History<T>, l: Label<T>)
    requires Inv(u, h) && Near(m, u) && Fits(m, |u.sequences|)
    requires l.LoadSequence?
    ensures Next(Wrapping(m), WrapMachine(m, u), l) == WrapMachine(m, Next(Unbounded, u, l))
  {
    hide Slot, IsPow2, SlotsInv;
    var p, n := At(u, l.thread), |u.sequences|;
    WrapAt(m, u, l.thread);
    if p.AtSequence? {
      assert Classify(Wrapping(m), WrapSequences(m, u.sequences)[Slot(p.pos % m, n)], p.pos % m)
          == Classify(Unbounded, u.sequences[Slot(p.pos, n)], p.pos) by {
        assert ProducerInv(u, h, l.thread);
        SlotWraps(p.pos, n, m);
        SequenceMeaning(u, h, p.pos);
        Pow2Even(m);
        ClassifyWraps(u.sequences[Slot(p.pos, n)], p.pos, m);
      }
      WrapMove(m, u, l.thread, At(Next(Unbounded, u, l), l.thread));
    }
  }

  lemma WrapCasStep<T>(m: Modulus, u: Machine<T>, h: History<T>, l: Label<T>)
    requires Inv(u, h) && Near(m, u) && Fits(m, |u.sequences|)
    requires l.CompareExchange?
    ensures Next(Wrapping(m), WrapMachine(m, u), l) == WrapMachine(m, Next(Unbounded, u, l))
  {
    hide Slot, IsPow2, SlotsInv;
    var p := At(u, l.thread);
    WrapAt(m, u, l.thread);
    if p.AtCas? {
      assert u.enqueuePos % m == p.pos % m <==> u.enqueuePos == p.pos by {
        CasDistance(m, u, h, l.thread);
        if u.enqueuePos % m == p.pos % m {
          SameResidue(u.enqueuePos, p.pos, m);
        }
      }
      AddMod(p.pos, 1, m);
      WrapMove(m, u, l.thread, AtWrite(p.value, p.pos));
      WrapMove(m, u, l.thread, AtSequence(p.value, u.enqueuePos));
    }
  }

  lemma Pow2Even(m: nat)
    requires IsPow2(m) && m >= 2
    ensures m % 2 == 0
  {
  }

  lemma WrapWriteStep<T>(m: Modulus, u: Machine<T>, h: History<T>, l: Label<T>)
    requires Inv(u, h) && Fits(m, |u.sequences|)
    requires l.WriteCell? || l.Publish?
    ensures Next(Wrapping(m), WrapMachine(m, u), l) == WrapMachine(m, Next(Unbounded, u, l))
  {
    hide Slot, IsPow2, SlotsInv;
    var p, n := At(u, l.thread), |u.sequences|;
    WrapAt(m, u, l.thread);
    WrapMove(m, u, l.thread, At(Next(Unbounded, u, l), l.thread));
    if p.AtWrite? || p.AtPublish? {
      SlotWraps(p.pos, n, m);
      AddMod(p.pos, 1, m);
      WrapStore(m, u.sequences, Slot(p.pos, n), p.pos + 1);
    }
  }

  lemma WrapProbeStep<T>(m: Modulus, u: Machine<T>, h: History<T>, l: Label<T>)
    requires Inv(u, h) && Fits(m, |u.sequences|)
    requires l.Probe?
    ensures Next(Wrapping(m), WrapMachine(m, u), l) == WrapMachine(m, Next(Unbounded, u, l))
  {
    hide Slot, IsPow2, SlotsInv;
    var n := |u.sequences|;
    if u.consumer.AtProbe? {
      var pos := u.consumer.pos;
      assert Classify(Wrapping(m), WrapSequences(m, u.sequences)[Slot(pos % m, n)], (pos % m + 1) % m)
          == Classify(Unbounded, u.sequences[Slot(pos, n)], pos + 1) by {
        SlotWraps(pos, n, m);
        AddMod(pos, 1, m);
        HeadSequence(u, h);
        Pow2Even(m);
        ClassifyWraps(u.sequences[Slot(pos, n)], pos + 1, m);
      }
    }
  }

  lemma WrapConsumerStep<T>(m: Modulus, u: Machine<T>, h: History<T>, l: Label<T>)
    requires Inv(u, h) && Fits(m, |u.sequences|)
    requires l.Pop? || l.ReadCell? || l.Release? || l.Advance?
    ensures Next(Wrapping(m), WrapMachine(m, u), l) == WrapMachine(m, Next(Unbounded, u, l))
  {
    hide Slot, IsPow2, SlotsInv;
    var n := |u.sequences|;
    if !u.consumer.Resting? {
      var pos := u.consumer.pos;
      SlotWraps(pos, n, m);
      AddMod(pos, 1, m);
      AddMod(pos, n, m);
      WrapStore(m, u.sequences, Slot(pos, n), pos + n);
    }
  }

  /** In every run that stays near, the wrapped machine is the wrap of the unbounded one. */
  lemma {:induction false} WrappedRunAgrees<T>(m: Modulus, n: nat, ls: seq<Label<T>>)
    requires Fits(m, n)
    requires forall k | 0 <= k < |ls| :: Near(m, Run(Unbounded, n, ls[..k]))
    ensures Run(Wrapping(m), n, ls) == WrapMachine(m, Run(Unbounded, n, ls))
  {
    if ls == [] {
      WrapInit<T>(m, n);
    } else {
      var before, l := ls[..|ls| - 1], ls[|ls| - 1];
      forall k | 0 <= k < |before| ensures Near(m, Run(Unbounded, n, before[..k])) {
        assert before[..k] == ls[..k];
      }
      WrappedRunAgrees(m, n, before);
      RunInv(n, before);
      var u, h := Run(Unbounded, n, before), Past(n, before);
      assert Near(m, u);
      match l
      case Push(_, _) => WrapLoadStep(m, u, h, l);
      case LoadPos(_) => WrapLoadStep(m, u, h, l);
      case LoadSequence(_) => WrapTestStep(m, u, h, l);
      case CompareExchange(_, _) => WrapCasStep(m, u, h, l);
      case WriteCell(_) => WrapWriteStep(m, u, h, l);
      case Publish(_) => WrapWriteStep(m, u, h, l);
      case Probe => WrapProbeStep(m, u, h, l);
      case _ => WrapConsumerStep(m, u, h, l);
    }
  }

  lemma WrapInit<T>(m: Modulus, n: nat)
    requires Fits(m, n)
    ensures WrapMachine(m, Init<T>(n)) == Init<T>(n)
  {
    forall i | 0 <= i < n ensures i % m == i {
      ModUnique(i, m, 0, i);
    }
    ModUnique(0, m, 0, 0);
    assert WrapSequences(m, Init<T>(n).sequences) == Init<T>(n).sequences;
  }

  // ---------------------------------------------------------------------
  // Construction and teardown
  // ---------------------------------------------------------------------

  /** The seeding loop of `new`: slot `i` starts at sequence `i`. */
  method New<T>(n: nat) returns (ring: Machine<T>)
    ensures ring == Init(n)
  {
    var sequences := seq(n, _ => 0);
    var i := 0;
    while i < n
      invariant 0 <= i <= n && |sequences| == n
      invariant forall j | 0 <= j < i :: sequences[j] == j
    {
      sequences := sequences[i := i];
      i := i + 1;
    }
    ring := Machine(0, 0, sequences, seq(n, _ => None), map[], Resting);
    assert sequences == Init<T>(n).sequences;
  }

  /** Nobody is inside `push` or `pop`, which exclusive access at teardown guarantees. */
  ghost predicate Quiescent<T>(u: Machine<T>) {
    && u.consumer.Resting?
    && (forall t: nat :: At(u, t).Idle? || At(u, t).Refused?)
  }

  /** At rest every claimed position is published and its value sits in its slot. */
  lemma QuiescentCells<T>(u: Machine<T>, h: History<T>, pos: nat)
    requires Inv(u, h) && Quiescent(u) && u.dequeuePos <= pos < u.enqueuePos
    ensures u.cells[Slot(pos, |u.sequences|)] == Some(h.claims[pos].value)
  {
    assert SlotInv(u, h, pos);
    var owner := h.claims[pos].thread;
    assert At(u, owner).Idle? || At(u, owner).Refused?;
  }

  lemma TeardownFacts<T>(n: nat, ls: seq<Label<T>>)
    requires IsPow2(n) && n >= 2 && Quiescent(Run(Unbounded, n, ls))
    ensures var u, h := Run(Unbounded, n, ls), Past(n, ls);
            && |h.popped| == u.dequeuePos <= u.enqueuePos == |h.claims| && u.enqueuePos <= u.dequeuePos + n
            && (forall p | 0 <= p < |h.popped| :: h.popped[p] == Some(h.claims[p].value))
            && (forall p | u.dequeuePos <= p < u.enqueuePos :: u.cells[Slot(p, n)] == Some(h.claims[p].value))
  {
    hide Run, Past, Slot;
    RunInv(n, ls);
    var u, h := Run(Unbounded, n, ls), Past(n, ls);
    forall p | u.dequeuePos <= p < u.enqueuePos ensures u.cells[Slot(p, n)] == Some(h.claims[p].value) {
      QuiescentCells(u, h, p);
    }
  }

  /**
   The teardown loop over the wrapped machine: it releases each claimed value
   that was never popped, once, oldest first.
   */
  method DropRing<T>(m: Modulus, ring: Machine<T>, ghost ls: seq<Label<T>>) returns (released: seq<Option<T>>)
    requires |ring.sequences| > 0 && |ring.cells| == |ring.sequences|
    requires Fits(m, |ring.sequences|)
    requires ring == WrapMachine(m, Run(Unbounded, |ring.sequences|, ls))
    requires Quiescent(Run(Unbounded, |ring.sequences|, ls))
    ensures var h := Past(|ring.sequences|, ls);
            && |h.popped| + |released| == |h.claims|
            && (forall i | 0 <= i < |h.claims| ::
                  (h.popped + released)[i] == Some(h.claims[i].value))
  {
    ghost var n := |ring.sequences|;
    ghost var u, h := Run(Unbounded, n, ls), Past(n, ls);
    TeardownFacts(n, ls);
    assert ring.cells == u.cells && ring.dequeuePos == u.dequeuePos % m && ring.enqueuePos == u.enqueuePos % m;
    hide *;
    released := ReleaseRange(m, ring.cells, ring.dequeuePos, ring.enqueuePos, u.dequeuePos, u.enqueuePos);
    forall i | 0 <= i < |h.claims| ensures (h.popped + released)[i] == Some(h.claims[i].value) {
      if i >= |h.popped| {
        assert released[i - |h.popped|] == u.cells[Slot(i, n)];
      }
    }
  }

  /** Walks wrapped positions from `pos` to `end`, taking each slot's cell. */
  method ReleaseRange<T>(m: Modulus, cells: seq<Option<T>>, start: nat, end: nat, ghost lo: nat, ghost hi: nat)
    returns (released: seq<Option<T>>)
    requires |cells| > 0 && Fits(m, |cells|) && lo <= hi <= lo + |cells| && start == lo % m && end == hi % m
    ensures |released| == hi - lo
    ensures forall i | 0 <= i < |released| :: released[i] == cells[Slot(lo + i, |cells|)]
  {
    assert |cells| < m;
    hide Slot, Fits;
    ghost var at := lo;
    var pos := start;
    released := [];
    while pos != end
      invariant lo <= at <= hi && pos == at % m && |released| == at - lo
      invariant forall i | 0 <= i < |released| :: released[i] == cells[Slot(lo + i, |cells|)]
      decreases hi - at
    {
      SlotWraps(at, |cells|, m);
      released := released + [cells[Slot(pos, |cells|)]];
      AddMod(at, 1, m);
      pos := (pos + 1) % m;
      at := at + 1;
    }
    SameResidue(at, hi, m);
  }
}
