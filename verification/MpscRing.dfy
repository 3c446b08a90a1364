/**
 The bounded multi-producer single-consumer ring as an interleaving of atomic
 steps: every load, compare-exchange and store of `push` and `pop` is one
 labelled transition, and a run is any sequence of labels. A label whose thread
 is not at the matching program point leaves the machine unchanged, so
 quantifying over label sequences quantifies over all interleavings of any
 number of producers with the one consumer.

 The same transition function runs on unbounded positions and on wrapping
 machine words; `MpscWrap` relates the two.
 */
module MpscRing {
  import opened Basics
  import opened Bits

  type Modulus = m: nat | m > 0 witness 1

  /** How position counters behave. */
  datatype Word = Unbounded | Wrapping(modulus: Modulus)

  /** The three outcomes of comparing a slot's sequence with a position. */
  datatype Gap = Same | Behind | Ahead

  function Reduce(w: Word, x: nat): nat {
    match w
    case Unbounded => x
    case Wrapping(m) => x % m
  }

  /** The gap test: `sequence.wrapping_sub(pos)` against 0 and half the range. */
  function Classify(w: Word, sequence: nat, pos: nat): Gap {
    match w
    case Unbounded =>
      if sequence == pos then Same else if sequence < pos then Behind else Ahead
    case Wrapping(m) =>
      var gap := (sequence - pos) % m;
      if gap == 0 then Same else if gap > (m - 1) / 2 then Behind else Ahead
  }

  /** Program points of one `push` call. */
  datatype Producer<T> =
    | Idle
    | AtLoad(value: T)
    | AtSequence(value: T, pos: nat)
    | AtCas(value: T, pos: nat)
    | AtWrite(value: T, pos: nat)
    | AtPublish(value: T, pos: nat)
    | Refused(value: T)

  /** Program points of one `pop` call; a cell read before it was written is `None`. */
  datatype Consumer<T> =
    | Resting
    | AtProbe(pos: nat)
    | AtRead(pos: nat)
    | AtRelease(pos: nat, taken: Option<T>)
    | AtAdvance(pos: nat, taken: Option<T>)

  datatype Machine<T> = Machine(
    enqueuePos: nat,
    dequeuePos: nat,
    sequences: seq<nat>,
    cells: seq<Option<T>>,
    producers: map<nat, Producer<T>>,
    consumer: Consumer<T>)

  datatype Label<T> =
    | Push(thread: nat, value: T)
    | LoadPos(thread: nat)
    | LoadSequence(thread: nat)
    | CompareExchange(thread: nat, spurious: bool)
    | WriteCell(thread: nat)
    | Publish(thread: nat)
    | Pop
    | Probe
    | ReadCell
    | Release
    | Advance

  ghost predicate Sized<T>(m: Machine<T>) {
    |m.sequences| > 0 && |m.cells| == |m.sequences|
  }

  /** `pos & (N - 1)`. */
  function Slot(pos: nat, n: nat): (i: nat)
    requires n > 0
    ensures i < n
  {
    And(pos, n - 1)
  }

  function Init<T>(n: nat): Machine<T> {
    Machine(0, 0, seq(n, i => i), seq(n, _ => None), map[], Resting)
  }

  function At<T>(m: Machine<T>, thread: nat): Producer<T> {
    if thread in m.producers then m.producers[thread] else Idle
  }

  function Move<T>(m: Machine<T>, thread: nat, p: Producer<T>): Machine<T> {
    m.(producers := m.producers[thread := p])
  }

  /** One atomic step of the producer `l.thread`. */
  function ProducerStep<T>(w: Word, m: Machine<T>, l: Label<T>): Machine<T>
    requires Sized(m)
    requires l.Push? || l.LoadPos? || l.LoadSequence? || l.CompareExchange? || l.WriteCell? || l.Publish?
  {
    var n := |m.sequences|;
    match (l, At(m, l.thread))
    case (Push(t, v), Idle) => Move(m, t, AtLoad(v))
    case (Push(t, v), Refused(_)) => Move(m, t, AtLoad(v))
    case (LoadPos(t), AtLoad(v)) => Move(m, t, AtSequence(v, m.enqueuePos))
    case (LoadSequence(t), AtSequence(v, pos)) =>
      (match Classify(w, m.sequences[Slot(pos, n)], pos)
       case Same => Move(m, t, AtCas(v, pos))
       case Behind => Move(m, t, Refused(v))
       case Ahead => Move(m, t, AtLoad(v)))
    case (CompareExchange(t, spurious), AtCas(v, pos)) =>
      if pos == m.enqueuePos && !spurious then
        Move(m, t, AtWrite(v, pos)).(enqueuePos := Reduce(w, pos + 1))
      else
        Move(m, t, AtSequence(v, m.enqueuePos))
    case (WriteCell(t), AtWrite(v, pos)) =>
      Move(m, t, AtPublish(v, pos)).(cells := m.cells[Slot(pos, n) := Some(v)])
    case (Publish(t), AtPublish(v, pos)) =>
      Move(m, t, Idle).(sequences := m.sequences[Slot(pos, n) := Reduce(w, pos + 1)])
    case _ => m
  }

  /** One atomic step of the consumer. */
  function ConsumerStep<T>(w: Word, m: Machine<T>, l: Label<T>): Machine<T>
    requires Sized(m)
    requires l.Pop? || l.Probe? || l.ReadCell? || l.Release? || l.Advance?
  {
    var n := |m.sequences|;
    match (l, m.consumer)
    case (Pop, Resting) => m.(consumer := AtProbe(m.dequeuePos))
    case (Probe, AtProbe(pos)) =>
      if Classify(w, m.sequences[Slot(pos, n)], Reduce(w, pos + 1)).Behind?
      then m.(consumer := Resting)
      else m.(consumer := AtRead(pos))
    case (ReadCell, AtRead(pos)) => m.(consumer := AtRelease(pos, m.cells[Slot(pos, n)]))
    case (Release, AtRelease(pos, v)) =>
      m.(sequences := m.sequences[Slot(pos, n) := Reduce(w, pos + n)], consumer := AtAdvance(pos, v))
    case (Advance, AtAdvance(pos, v)) => m.(dequeuePos := Reduce(w, pos + 1), consumer := Resting)
    case _ => m
  }

  function Next<T>(w: Word, m: Machine<T>, l: Label<T>): (m': Machine<T>)
    requires Sized(m)
    ensures Sized(m') && |m'.sequences| == |m.sequences|
  {
    if l.Pop? || l.Probe? || l.ReadCell? || l.Release? || l.Advance? then ConsumerStep(w, m, l)
    else ProducerStep(w, m, l)
  }

  /** The machine after the labels `ls`, oldest first, from a fresh ring of `n` slots. */
  function Run<T>(w: Word, n: nat, ls: seq<Label<T>>): (m: Machine<T>)
    requires n > 0
    ensures Sized(m) && |m.sequences| == n
  {
    if ls == [] then Init(n)
    else Next(w, Run(w, n, ls[..|ls| - 1]), ls[|ls| - 1])
  }

  // ---------------------------------------------------------------------
  // What happened: the history a run leaves behind
  // ---------------------------------------------------------------------

  datatype Claim<T> = Claim(thread: nat, value: T)

  /**
   `claims[p]` is the winner of position `p`, `popped` what the completed pops
   returned, `published` the positions whose push returned `Ok`.
   */
  datatype History<T> = History(claims: seq<Claim<T>>, popped: seq<Option<T>>, published: set<nat>)

  function Record<T>(m: Machine<T>, h: History<T>, l: Label<T>): History<T> {
    match l
    case CompareExchange(t, spurious) =>
      var p := At(m, t);
      if p.AtCas? && p.pos == m.enqueuePos && !spurious
      then h.(claims := h.claims + [Claim(t, p.value)]) else h
    case Publish(t) =>
      var p := At(m, t);
      if p.AtPublish? then h.(published := h.published + {p.pos}) else h
    case Advance =>
      if m.consumer.AtAdvance? then h.(popped := h.popped + [m.consumer.taken]) else h
    case _ => h
  }

  function Past<T>(n: nat, ls: seq<Label<T>>): History<T>
    requires n > 0
  {
    if ls == [] then History([], [], {})
    else
      var before := ls[..|ls| - 1];
      Record(Run(Unbounded, n, before), Past(n, before), ls[|ls| - 1])
  }

  // ---------------------------------------------------------------------
  // The invariant
  // ---------------------------------------------------------------------

  /** The first position whose slot the consumer has not handed back to producers. */
  function Released<T>(m: Machine<T>): nat {
    if m.consumer.AtAdvance? then m.dequeuePos + 1 else m.dequeuePos
  }

  predicate Holds<T>(p: Producer<T>, pos: nat) {
    (p.AtWrite? || p.AtPublish?) && p.pos == pos
  }

  /** What slot `Slot(pos)` looks like for a position of the current window. */
  ghost predicate SlotInv<T>(m: Machine<T>, h: History<T>, pos: nat)
    requires Sized(m)
  {
    var i := Slot(pos, |m.sequences|);
    if pos in h.published then
      pos < |h.claims| && m.sequences[i] == pos + 1 && m.cells[i] == Some(h.claims[pos].value)
    else
      m.sequences[i] == pos && (pos < |h.claims| ==> Holds(At(m, h.claims[pos].thread), pos))
  }

  ghost predicate SlotsInv<T>(m: Machine<T>, h: History<T>)
    requires Sized(m)
  {
    forall pos | Released(m) <= pos < Released(m) + |m.sequences| :: SlotInv(m, h, pos)
  }

  ghost predicate ProducerInv<T>(m: Machine<T>, h: History<T>, thread: nat)
    requires Sized(m)
  {
    match At(m, thread)
    case AtSequence(_, pos) => pos <= m.enqueuePos
    case AtCas(_, pos) => pos <= m.enqueuePos && pos < Released(m) + |m.sequences|
    case AtWrite(v, pos) =>
      && Released(m) <= pos < |h.claims| && pos !in h.published && h.claims[pos] == Claim(thread, v)
    case AtPublish(v, pos) =>
      && Released(m) <= pos < |h.claims| && pos !in h.published && h.claims[pos] == Claim(thread, v)
      && m.cells[Slot(pos, |m.sequences|)] == Some(v)
    case _ => true
  }

  ghost predicate ConsumerInv<T>(m: Machine<T>, h: History<T>) {
    match m.consumer
    case Resting => true
    case AtProbe(pos) => pos == m.dequeuePos
    case AtRead(pos) => pos == m.dequeuePos < |h.claims| && pos in h.published
    case AtRelease(pos, v) =>
      pos == m.dequeuePos < |h.claims| && pos in h.published && v == Some(h.claims[pos].value)
    case AtAdvance(pos, v) =>
      pos == m.dequeuePos < |h.claims| && pos in h.published && v == Some(h.claims[pos].value)
  }

  ghost predicate CountersInv<T>(m: Machine<T>, h: History<T>) {
    && |h.claims| == m.enqueuePos
    && |h.popped| == m.dequeuePos
    && Released(m) <= m.enqueuePos <= Released(m) + |m.sequences|
    && (forall p | p in h.published :: p < m.enqueuePos)
    && (forall p: nat | p < Released(m) :: p in h.published)
    && (forall p | 0 <= p < |h.popped| :: p < |h.claims| && h.popped[p] == Some(h.claims[p].value))
  }

  ghost predicate Inv<T>(m: Machine<T>, h: History<T>) {
    && Sized(m)
    && CountersInv(m, h)
    && SlotsInv(m, h)
    && (forall t: nat :: ProducerInv(m, h, t))
    && ConsumerInv(m, h)
  }

  // ---------------------------------------------------------------------
  // Slots and positions
  // ---------------------------------------------------------------------

  /** Positions less than a lap apart use different slots. */
  lemma SlotOthers(n: nat, lo: nat, pos: nat)
    requires IsPow2(n) && lo <= pos < lo + n
    ensures forall q | lo <= q < lo + n && q != pos :: Slot(q, n) != Slot(pos, n)
  {
    forall q | lo <= q < lo + n && q != pos
      ensures Slot(q, n) != Slot(pos, n)
    {
      AndMask(pos, n);
      AndMask(q, n);
      if q % n == pos % n {
        SameResidue(q, pos, n);
      }
    }
  }

  lemma OneLapOn(pos: nat, n: nat)
    requires n > 0
    ensures (pos + n) % n == pos % n
  {
    DivMod(pos, n);
    Distribute(n, pos / n, 1);
    ModUnique(pos + n, n, pos / n + 1, pos % n);
  }

  /** One lap later the slot is the same. */
  lemma SlotLap(n: nat, pos: nat)
    requires IsPow2(n)
    ensures Slot(pos + n, n) == Slot(pos, n)
  {
    assert n > 0;
    hide And, IsPow2;
    AndMask(pos, n);
    AndMask(pos + n, n);
    OneLapOn(pos, n);
  }
}
