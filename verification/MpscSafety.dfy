/** Every interleaving keeps the ring invariant, and what that gives. */
module MpscSafety {
  import opened Basics
  import opened Bits
  import opened MpscRing

  lemma InitInv<T>(n: nat)
    requires IsPow2(n)
    ensures Inv(Init<T>(n), History([], [], {}))
  {
    var m := Init<T>(n);
    forall pos | 0 <= pos < n ensures SlotInv(m, History([], [], {}), pos) {
      AndMask(pos, n);
      ModUnique(pos, n, 0, pos);
    }
  }

  /** The consumer's own slot holds the position itself, or the position plus one. */
  lemma HeadSequence<T>(m: Machine<T>, h: History<T>)
    requires Inv(m, h) && !m.consumer.AtAdvance?
    ensures m.sequences[Slot(m.dequeuePos, |m.sequences|)] ==
            if m.dequeuePos in h.published then m.dequeuePos + 1 else m.dequeuePos
  {
    assert SlotInv(m, h, m.dequeuePos);
  }

  /** Every slot is used by exactly one position of the window that starts at `lo`. */
  lemma WindowTwin(n: nat, lo: nat, pos: nat) returns (q: nat)
    requires IsPow2(n)
    ensures lo <= q < lo + n && Slot(q, n) == Slot(pos, n)
  {
    AndMask(pos, n);
    q := Congruent(n, lo, pos % n);
    AndMask(q, n);
  }

  lemma Congruent(n: nat, lo: nat, r: nat) returns (q: nat)
    requires r < n
    ensures lo <= q < lo + n && q % n == r
  {
    var k, s := lo / n, lo % n;
    DivMod(lo, n);
    if s <= r {
      q := lo - s + r;
      ModUnique(q, n, k, r);
    } else {
      q := lo - s + n + r;
      assert n * (k + 1) == n * k + n;
      ModUnique(q, n, k + 1, r);
    }
  }

  /** What a loaded sequence says about a position at or below `enqueuePos`. */
  lemma SequenceMeaning<T>(m: Machine<T>, h: History<T>, pos: nat)
    requires Inv(m, h) && IsPow2(|m.sequences|) && |m.sequences| >= 2 && pos <= m.enqueuePos
    ensures var n, rel := |m.sequences|, Released(m);
            var sequence := m.sequences[Slot(pos, n)];
            && (sequence == pos ==> pos < rel + n)
            && (sequence < pos <==> pos == m.enqueuePos == rel + n)
            && (pos == m.enqueuePos < rel + n ==> sequence == pos)
            && pos < sequence + n + 1
  {
    var n, rel := |m.sequences|, Released(m);
    if pos == rel + n {
      SlotLap(n, rel);
      assert SlotInv(m, h, rel);
    } else if rel <= pos {
      assert SlotInv(m, h, pos);
    } else {
      var q := WindowTwin(n, rel, pos);
      assert SlotInv(m, h, q);
    }
  }

  lemma ProducerSteps<T>(m: Machine<T>, h: History<T>, l: Label<T>)
    requires Inv(m, h) && IsPow2(|m.sequences|) && |m.sequences| >= 2
    requires l.Push? || l.LoadPos? || l.LoadSequence?
    ensures Inv(Next(Unbounded, m, l), Record(m, h, l))
  {
    hide Slot, IsPow2;
    var m' := Next(Unbounded, m, l);
    if l.LoadSequence? && At(m, l.thread).AtSequence? {
      assert ProducerInv(m, h, l.thread);
      SequenceMeaning(m, h, At(m, l.thread).pos);
    }
    forall t: nat ensures ProducerInv(m', h, t) {
      assert ProducerInv(m, h, t);
    }
    forall pos | Released(m') <= pos < Released(m') + |m'.sequences| ensures SlotInv(m', h, pos) {
      assert SlotInv(m, h, pos);
    }
  }

  lemma CasStep<T>(m: Machine<T>, h: History<T>, l: Label<T>)
    requires Inv(m, h) && IsPow2(|m.sequences|)
    requires l.CompareExchange?
    ensures Inv(Next(Unbounded, m, l), Record(m, h, l))
  {
    hide Slot, IsPow2;
    var m', h' := Next(Unbounded, m, l), Record(m, h, l);
    assert ProducerInv(m, h, l.thread);
    forall t: nat ensures ProducerInv(m', h', t) {
      assert ProducerInv(m, h, t);
    }
    forall pos | Released(m') <= pos < Released(m') + |m'.sequences| ensures SlotInv(m', h', pos) {
      assert SlotInv(m, h, pos);
      if pos < |h.claims| {
        assert h'.claims[pos] == h.claims[pos];
      }
    }
  }

  lemma WriteStep<T>(m: Machine<T>, h: History<T>, l: Label<T>)
    requires Inv(m, h) && IsPow2(|m.sequences|)
    requires l.WriteCell?
    ensures Inv(Next(Unbounded, m, l), Record(m, h, l))
  {
    hide Slot, IsPow2;
    var m' := Next(Unbounded, m, l);
    var n, rel := |m.sequences|, Released(m);
    if At(m, l.thread).AtWrite? {
      assert ProducerInv(m, h, l.thread);
      SlotOthers(n, rel, At(m, l.thread).pos);
    }
    forall t: nat ensures ProducerInv(m', h, t) {
      assert ProducerInv(m, h, t);
    }
    forall pos | rel <= pos < rel + n ensures SlotInv(m', h, pos) {
      assert SlotInv(m, h, pos);
    }
  }

  lemma PublishStep<T>(m: Machine<T>, h: History<T>, l: Label<T>)
    requires Inv(m, h) && IsPow2(|m.sequences|)
    requires l.Publish?
    ensures Inv(Next(Unbounded, m, l), Record(m, h, l))
  {
    hide Slot, IsPow2;
    var m', h' := Next(Unbounded, m, l), Record(m, h, l);
    var n, rel := |m.sequences|, Released(m);
    if At(m, l.thread).AtPublish? {
      assert ProducerInv(m, h, l.thread);
      SlotOthers(n, rel, At(m, l.thread).pos);
    }
    forall t: nat ensures ProducerInv(m', h', t) {
      assert ProducerInv(m, h, t);
    }
    forall pos | rel <= pos < rel + n ensures SlotInv(m', h', pos) {
      assert SlotInv(m, h, pos);
    }
  }

  lemma ReadSteps<T>(m: Machine<T>, h: History<T>, l: Label<T>)
    requires Inv(m, h) && IsPow2(|m.sequences|)
    requires l.Pop? || l.Probe? || l.ReadCell? || l.Advance?
    ensures Inv(Next(Unbounded, m, l), Record(m, h, l))
  {
    hide Slot, IsPow2;
    var m', h' := Next(Unbounded, m, l), Record(m, h, l);
    if !m.consumer.AtAdvance? {
      HeadSequence(m, h);
      assert SlotInv(m, h, m.dequeuePos);
    }
    forall t: nat ensures ProducerInv(m', h', t) {
      assert ProducerInv(m, h, t);
    }
    forall pos | Released(m') <= pos < Released(m') + |m'.sequences| ensures SlotInv(m', h', pos) {
      assert SlotInv(m, h, pos);
    }
  }

  lemma ReleaseStep<T>(m: Machine<T>, h: History<T>, l: Label<T>)
    requires Inv(m, h) && IsPow2(|m.sequences|)
    requires l.Release?
    ensures Inv(Next(Unbounded, m, l), Record(m, h, l))
  {
    hide Slot, IsPow2;
    var m' := Next(Unbounded, m, l);
    var n, rel := |m.sequences|, Released(m);
    if m.consumer.AtRelease? {
      SlotOthers(n, rel, rel);
      SlotLap(n, rel);
      forall pos | rel + 1 <= pos < rel + 1 + n ensures SlotInv(m', h, pos) {
        if pos < rel + n {
          assert SlotInv(m, h, pos);
        }
      }
      forall t: nat ensures ProducerInv(m', h, t) {
        assert ProducerInv(m, h, t);
      }
    }
  }

  lemma StepInv<T>(m: Machine<T>, h: History<T>, l: Label<T>)
    requires Inv(m, h) && IsPow2(|m.sequences|) && |m.sequences| >= 2
    ensures Inv(Next(Unbounded, m, l), Record(m, h, l))
  {
    match l
    case Push(_, _) => ProducerSteps(m, h, l);
    case LoadPos(_) => ProducerSteps(m, h, l);
    case LoadSequence(_) => ProducerSteps(m, h, l);
    case CompareExchange(_, _) => CasStep(m, h, l);
    case WriteCell(_) => WriteStep(m, h, l);
    case Publish(_) => PublishStep(m, h, l);
    case Release => ReleaseStep(m, h, l);
    case _ => ReadSteps(m, h, l);
  }

  /** The invariant holds after every interleaving. */
  lemma {:induction false} RunInv<T>(n: nat, ls: seq<Label<T>>)
    requires IsPow2(n) && n >= 2
    ensures Inv(Run(Unbounded, n, ls), Past(n, ls))
  {
    if ls == [] {
      InitInv<T>(n);
    } else {
      var before := ls[..|ls| - 1];
      RunInv(n, before);
      StepInv(Run(Unbounded, n, before), Past(n, before), ls[|ls| - 1]);
    }
  }
}
