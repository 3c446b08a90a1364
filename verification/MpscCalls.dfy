/**
 What becomes of every call of `push`: the ledger records each call by the
 value its caller passed, and every run gives it exactly one fate.
 */
module MpscCalls {
  import opened Basics
  import opened Bits
  import opened MpscRing
  import opened MpscSafety
  import opened MpscTheorems

  datatype Call<T> = Call(thread: nat, value: T)

  datatype Fate = InFlight | RefusedAs(index: nat) | ClaimedAs(pos: nat)

  /**
   `calls` in the order they began, each with its fate; `refusals` what the
   refused calls handed back; `last` the newest call of each thread; `claimants`
   and `refusers` the calls behind each claim and each refusal.
   */
  datatype Ledger<T> = Ledger(
    calls: seq<Call<T>>,
    fates: seq<Fate>,
    refusals: seq<Call<T>>,
    last: map<nat, nat>,
    claimants: seq<nat>,
    refusers: seq<nat>)

  function Settle<T>(g: Ledger<T>, t: nat, f: Fate): seq<Fate> {
    if t in g.last && g.last[t] < |g.fates| then g.fates[g.last[t] := f] else g.fates
  }

  function LastCall<T>(g: Ledger<T>, t: nat): nat {
    if t in g.last then g.last[t] else 0
  }

  /** A call begins with the caller's value; how it is settled is read off the machine's step from `m` to `m'`. */
  function Log<T>(m: Machine<T>, m': Machine<T>, g: Ledger<T>, l: Label<T>): Ledger<T> {
    match l
    case Push(t, v) =>
      if At(m, t).Idle? || At(m, t).Refused? then
        g.(calls := g.calls + [Call(t, v)], fates := g.fates + [InFlight], last := g.last[t := |g.calls|])
      else g
    case LoadSequence(t) =>
      if !At(m, t).Refused? && At(m', t).Refused? then
        g.(fates := Settle(g, t, RefusedAs(|g.refusals|)), refusals := g.refusals + [Call(t, At(m', t).value)],
           refusers := g.refusers + [LastCall(g, t)])
      else g
    case CompareExchange(t, _) =>
      if !At(m, t).AtWrite? && At(m', t).AtWrite? then
        g.(fates := Settle(g, t, ClaimedAs(|g.claimants|)), claimants := g.claimants + [LastCall(g, t)])
      else g
    case _ => g
  }

  function Book<T>(n: nat, ls: seq<Label<T>>): Ledger<T>
    requires n > 0
  {
    if ls == [] then Ledger([], [], [], map[], [], [])
    else
      var before := ls[..|ls| - 1];
      Log(Run(Unbounded, n, before), Run(Unbounded, n, ls), Book(n, before), ls[|ls| - 1])
  }

  /** Between its begin and its claim or refusal. */
  predicate Trying<T>(p: Producer<T>) {
    p.AtLoad? || p.AtSequence? || p.AtCas?
  }

  /** What the machine shows of call `c`, under each fate. */
  ghost predicate Fated<T>(m: Machine<T>, h: History<T>, g: Ledger<T>, c: nat)
    requires c < |g.calls| == |g.fates|
  {
    var Call(t, v) := g.calls[c];
    t in g.last && c <= g.last[t] &&
    match g.fates[c]
    case InFlight => g.last[t] == c && Trying(At(m, t)) && At(m, t).value == v
    case RefusedAs(k) =>
      && k < |g.refusals| == |g.refusers| && g.refusals[k] == Call(t, v) && g.refusers[k] == c
      && (g.last[t] == c ==> At(m, t) == Refused(v))
    case ClaimedAs(p) =>
      && p < |h.claims| == |g.claimants| && h.claims[p] == Claim(t, v) && g.claimants[p] == c
      && (if p in h.published then g.last[t] == c ==> At(m, t).Idle?
          else g.last[t] == c && Holds(At(m, t), p) && At(m, t).value == v)
  }

  ghost predicate Threads<T>(m: Machine<T>, g: Ledger<T>) {
    forall t: nat ::
      if t in g.last then g.last[t] < |g.calls| && g.calls[g.last[t]].thread == t else At(m, t).Idle?
  }

  /** Every claim and every refusal is some call's. */
  ghost predicate Attributed<T>(h: History<T>, g: Ledger<T>) {
    && |g.calls| == |g.fates| && |g.claimants| == |h.claims| && |g.refusers| == |g.refusals|
    && (forall p | 0 <= p < |g.claimants| :: g.claimants[p] < |g.calls| && g.fates[g.claimants[p]] == ClaimedAs(p))
    && (forall k | 0 <= k < |g.refusers| :: g.refusers[k] < |g.calls| && g.fates[g.refusers[k]] == RefusedAs(k))
  }

  /** One thread's claims come in the order of its calls. */
  ghost predicate InCallOrder<T>(h: History<T>, g: Ledger<T>)
    requires |g.claimants| == |h.claims|
  {
    forall p, q | 0 <= p < q < |h.claims| && h.claims[p].thread == h.claims[q].thread ::
      g.claimants[p] < g.claimants[q]
  }

  ghost predicate Settled<T>(m: Machine<T>, h: History<T>, g: Ledger<T>) {
    && Attributed(h, g)
    && Threads(m, g)
    && (forall c | 0 <= c < |g.calls| :: Fated(m, h, g, c))
    && InCallOrder(h, g)
  }

  // ---------------------------------------------------------------------
  // One step
  // ---------------------------------------------------------------------

  lemma Counted<T>(m: Machine<T>, h: History<T>)
    requires Inv(m, h)
    ensures Sized(m) && |h.claims| == m.enqueuePos
  {
  }

  /** A thread inside a call is inside its newest one. */
  lemma NewestCall<T>(m: Machine<T>, h: History<T>, g: Ledger<T>, t: nat)
    requires Settled(m, h, g) && !At(m, t).Idle?
    ensures t in g.last && g.last[t] < |g.calls| && g.calls[g.last[t]].thread == t
    ensures Fated(m, h, g, g.last[t])
  {
  }

  /** A call begins. */
  lemma BeginStep<T>(m: Machine<T>, h: History<T>, g: Ledger<T>, l: Label<T>)
    requires Sized(m) && Settled(m, h, g) && l.Push?
    ensures var m' := Next(Unbounded, m, l); Settled(m', Record(m, h, l), Log(m, m', g, l))
  {
    hide Slot, Classify;
    var m' := Next(Unbounded, m, l);
    var g' := Log(m, m', g, l);
    if !At(m, l.thread).Idle? {
      NewestCall(m, h, g, l.thread);
    }
    forall c | 0 <= c < |g'.calls| ensures Fated(m', h, g', c) {
      if c < |g.calls| {
        assert Fated(m, h, g, c);
      }
    }
  }

  /** A call moves on, still trying with its value. */
  lemma MoveStep<T>(m: Machine<T>, h: History<T>, g: Ledger<T>, t: nat, p: Producer<T>)
    requires Settled(m, h, g) && Trying(At(m, t)) && Trying(p) && p.value == At(m, t).value
    ensures Settled(Move(m, t, p), h, g)
  {
    var m' := Move(m, t, p);
    NewestCall(m, h, g, t);
    forall c | 0 <= c < |g.calls| ensures Fated(m', h, g, c) {
      assert Fated(m, h, g, c);
    }
  }

  lemma RefuseStep<T>(m: Machine<T>, h: History<T>, g: Ledger<T>, t: nat)
    requires Settled(m, h, g) && Trying(At(m, t))
    ensures var m' := Move(m, t, Refused(At(m, t).value)); Settled(m', h, Log(m, m', g, LoadSequence(t)))
  {
    var m' := Move(m, t, Refused(At(m, t).value));
    var g' := Log(m, m', g, LoadSequence(t));
    NewestCall(m, h, g, t);
    assert Attributed(h, g') && Threads(m', g') && InCallOrder(h, g') by {
      hide Fated;
    }
    forall c | 0 <= c < |g'.calls| ensures Fated(m', h, g', c) {
      RefusalFates(m, h, g, t, c);
    }
    hide Log, Fated, Attributed, Threads, InCallOrder, Move;
  }

  lemma RefusalFates<T>(m: Machine<T>, h: History<T>, g: Ledger<T>, t: nat, c: nat)
    requires Settled(m, h, g) && Trying(At(m, t)) && c < |g.calls|
    ensures var m' := Move(m, t, Refused(At(m, t).value));
            var g' := Log(m, m', g, LoadSequence(t));
            |g'.calls| == |g'.fates| == |g.calls| && Fated(m', h, g', c)
  {
    NewestCall(m, h, g, t);
    assert Fated(m, h, g, c);
    hide Settled;
  }

  lemma LoadStep<T>(m: Machine<T>, h: History<T>, g: Ledger<T>, l: Label<T>)
    requires Sized(m) && Settled(m, h, g) && (l.LoadPos? || l.LoadSequence?)
    ensures var m' := Next(Unbounded, m, l); Settled(m', Record(m, h, l), Log(m, m', g, l))
  {
    hide Slot, Classify, Settled, Settle, LastCall;
    var m', t := Next(Unbounded, m, l), l.thread;
    if At(m', t).Refused? && !At(m, t).Refused? {
      RefuseStep(m, h, g, t);
    } else if m' != m {
      MoveStep(m, h, g, t, At(m', t));
    }
  }

  /** A claim goes to the newest call of its thread. */
  lemma ClaimOrder<T>(m: Machine<T>, h: History<T>, g: Ledger<T>, t: nat, v: T)
    requires Settled(m, h, g) && Trying(At(m, t))
    ensures t in g.last
    ensures InCallOrder(h.(claims := h.claims + [Claim(t, v)]), g.(claimants := g.claimants + [g.last[t]]))
  {
    NewestCall(m, h, g, t);
    var claims, claimants := h.claims + [Claim(t, v)], g.claimants + [g.last[t]];
    forall p, q | 0 <= p < q < |claims| && claims[p].thread == claims[q].thread ensures claimants[p] < claimants[q] {
      if q == |h.claims| {
        assert Fated(m, h, g, g.claimants[p]);
      }
    }
  }

  lemma WinStep<T>(m: Machine<T>, h: History<T>, g: Ledger<T>, t: nat)
    requires Inv(m, h) && Settled(m, h, g) && At(m, t).AtCas? && At(m, t).pos == m.enqueuePos
    ensures var l := CompareExchange(t, false);
            var m' := Next(Unbounded, m, l);
            Settled(m', Record(m, h, l), Log(m, m', g, l))
  {
    Counted(m, h);
    hide Inv, Slot;
    var l := CompareExchange(t, false);
    var m', h' := Next(Unbounded, m, l), Record(m, h, l);
    var g' := Log(m, m', g, l);
    NewestCall(m, h, g, t);
    ClaimOrder(m, h, g, t, At(m, t).value);
    forall c | 0 <= c < |g'.calls| ensures Fated(m', h', g', c) {
      assert Fated(m, h, g, c);
    }
  }

  lemma ClaimStep<T>(m: Machine<T>, h: History<T>, g: Ledger<T>, l: Label<T>)
    requires Inv(m, h) && Settled(m, h, g) && l.CompareExchange?
    ensures var m' := Next(Unbounded, m, l); Settled(m', Record(m, h, l), Log(m, m', g, l))
  {
    Counted(m, h);
    hide Inv, Slot, Settled, Settle, LastCall;
    var t := l.thread;
    if At(m, t).AtCas? && At(m, t).pos == m.enqueuePos && !l.spurious {
      WinStep(m, h, g, t);
    } else if At(m, t).AtCas? {
      MoveStep(m, h, g, t, AtSequence(At(m, t).value, m.enqueuePos));
    }
  }

  lemma WriteKeeps<T>(m: Machine<T>, h: History<T>, g: Ledger<T>, t: nat)
    requires Sized(m) && Settled(m, h, g)
    ensures Settled(Next(Unbounded, m, WriteCell(t)), h, g)
  {
    hide Slot;
    var m' := Next(Unbounded, m, WriteCell(t));
    if m' != m {
      NewestCall(m, h, g, t);
    }
    forall c | 0 <= c < |g.calls| ensures Fated(m', h, g, c) {
      assert Fated(m, h, g, c);
    }
  }

  lemma PublishKeeps<T>(m: Machine<T>, h: History<T>, g: Ledger<T>, t: nat)
    requires Sized(m) && Settled(m, h, g)
    ensures Settled(Next(Unbounded, m, Publish(t)), Record(m, h, Publish(t)), g)
  {
    hide Slot;
    var m', h' := Next(Unbounded, m, Publish(t)), Record(m, h, Publish(t));
    if m' != m {
      NewestCall(m, h, g, t);
    }
    forall c | 0 <= c < |g.calls| ensures Fated(m', h', g, c) {
      assert Fated(m, h, g, c);
    }
  }

  lemma ConsumerKeeps<T>(m: Machine<T>, h: History<T>, g: Ledger<T>, l: Label<T>)
    requires Inv(m, h) && Settled(m, h, g)
    requires l.Pop? || l.Probe? || l.ReadCell? || l.Release? || l.Advance?
    ensures var m' := Next(Unbounded, m, l); Settled(m', Record(m, h, l), Log(m, m', g, l))
  {
    Counted(m, h);
    hide Inv, Slot, Classify;
    var m', h' := Next(Unbounded, m, l), Record(m, h, l);
    forall c | 0 <= c < |g.calls| ensures Fated(m', h', g, c) {
      assert Fated(m, h, g, c);
    }
  }

  lemma StepSettles<T>(m: Machine<T>, h: History<T>, g: Ledger<T>, l: Label<T>)
    requires Inv(m, h) && Settled(m, h, g)
    ensures Sized(m)
    ensures var m' := Next(Unbounded, m, l); Settled(m', Record(m, h, l), Log(m, m', g, l))
  {
    Counted(m, h);
    hide Inv, Settled, Next, Settle, LastCall;
    match l
    case Push(_, _) => BeginStep(m, h, g, l);
    case LoadPos(_) => LoadStep(m, h, g, l);
    case LoadSequence(_) => LoadStep(m, h, g, l);
    case CompareExchange(_, _) => ClaimStep(m, h, g, l);
    case WriteCell(t) => WriteKeeps(m, h, g, t);
    case Publish(t) => PublishKeeps(m, h, g, t);
    case _ => ConsumerKeeps(m, h, g, l);
  }

  // ---------------------------------------------------------------------
  // Every run
  // ---------------------------------------------------------------------

  lemma {:induction false} RunSettles<T>(n: nat, ls: seq<Label<T>>)
    requires IsPow2(n) && n >= 2
    ensures Settled(Run(Unbounded, n, ls), Past(n, ls), Book(n, ls))
  {
    if ls != [] {
      var before := ls[..|ls| - 1];
      RunSettles(n, before);
      RunInv(n, before);
      StepSettles(Run(Unbounded, n, before), Past(n, before), Book(n, before), ls[|ls| - 1]);
    }
  }

  /**
   Each call of `push` is exactly one of three: still trying with the value its
   caller passed, refused with that value, or the owner of exactly one claim of it.
   */
  lemma EveryPushHasOneFate<T>(n: nat, ls: seq<Label<T>>, c: nat)
    requires IsPow2(n) && n >= 2 && c < |Book(n, ls).calls|
    ensures |Book(n, ls).fates| == |Book(n, ls).calls|
    ensures var m, h, g := Run(Unbounded, n, ls), Past(n, ls), Book(n, ls);
            var Call(t, v) := g.calls[c];
            && (g.fates[c].InFlight? ==> Trying(At(m, t)) && At(m, t).value == v)
            && (forall p: nat :: g.fates[c] == ClaimedAs(p) <==> p < |h.claims| == |g.claimants| && g.claimants[p] == c)
            && (forall k: nat :: g.fates[c] == RefusedAs(k) <==> k < |g.refusers| && g.refusers[k] == c)
            && (g.fates[c].ClaimedAs? ==> h.claims[g.fates[c].pos] == Claim(t, v))
            && (g.fates[c].RefusedAs? ==>
                  g.fates[c].index < |g.refusals| && g.refusals[g.fates[c].index] == Call(t, v))
  {
    RunSettles(n, ls);
    var m, h, g := Run(Unbounded, n, ls), Past(n, ls), Book(n, ls);
    hide Run, Past, Book;
    assert Fated(m, h, g, c);
  }

  /** A push returns only refused, with its own value, or published; a thread with no call is idle. */
  lemma ReturnsRefusedOrPublished<T>(n: nat, ls: seq<Label<T>>, t: nat)
    requires IsPow2(n) && n >= 2
    ensures var m, h, g := Run(Unbounded, n, ls), Past(n, ls), Book(n, ls);
            && (t !in g.last ==> At(m, t).Idle?)
            && (t in g.last ==>
                  && g.last[t] < |g.calls| == |g.fates| && g.calls[g.last[t]].thread == t
                  && (forall c | 0 <= c < |g.calls| && g.calls[c].thread == t :: c <= g.last[t])
                  && (At(m, t).Idle? <==> g.fates[g.last[t]].ClaimedAs? && g.fates[g.last[t]].pos in h.published)
                  && (At(m, t).Refused? <==> g.fates[g.last[t]].RefusedAs?)
                  && (At(m, t).Refused? ==> At(m, t).value == g.calls[g.last[t]].value)
                  && (Trying(At(m, t)) <==> g.fates[g.last[t]].InFlight?))
  {
    RunSettles(n, ls);
    var m, h, g := Run(Unbounded, n, ls), Past(n, ls), Book(n, ls);
    hide Run, Past, Book;
    if t in g.last {
      assert Fated(m, h, g, g.last[t]);
      forall c | 0 <= c < |g.calls| && g.calls[c].thread == t ensures c <= g.last[t] {
        assert Fated(m, h, g, c);
      }
    }
  }

  /** What one thread pushed is popped in the order it pushed it, each value as its caller passed it. */
  lemma PoppedInCallOrder<T>(n: nat, ls: seq<Label<T>>)
    requires IsPow2(n) && n >= 2
    ensures var h, g := Past(n, ls), Book(n, ls);
            && |h.popped| <= |g.claimants|
            && (forall p | 0 <= p < |h.popped| ::
                  g.claimants[p] < |g.calls| && h.popped[p] == Some(g.calls[g.claimants[p]].value))
            && (forall p, q |
                  0 <= p < q < |h.popped| && g.calls[g.claimants[p]].thread == g.calls[g.claimants[q]].thread ::
                  g.claimants[p] < g.claimants[q])
  {
    RunSettles(n, ls);
    PoppedIsClaimedPrefix(n, ls);
    var m, h, g := Run(Unbounded, n, ls), Past(n, ls), Book(n, ls);
    hide Run, Past, Book;
    forall p | 0 <= p < |h.popped|
      ensures g.claimants[p] < |g.calls|
      ensures h.claims[p] == Claim(g.calls[g.claimants[p]].thread, g.calls[g.claimants[p]].value)
    {
      assert Fated(m, h, g, g.claimants[p]);
    }
  }

  // ---------------------------------------------------------------------
  // A push left alone ends
  // ---------------------------------------------------------------------

  /** The thread's next step of its own, its exchange not failing by itself. */
  function OwnStep<T>(p: Producer<T>, t: nat): Label<T>
    requires Trying(p)
  {
    if p.AtLoad? then LoadPos(t) else if p.AtSequence? then LoadSequence(t) else CompareExchange(t, false)
  }

  /** At most `k` steps of thread `t` alone, until its call is claimed or refused. */
  function Alone<T>(m: Machine<T>, t: nat, k: nat): (m': Machine<T>)
    requires Sized(m)
    ensures Sized(m')
    decreases k
  {
    if k == 0 || !Trying(At(m, t)) then m else Alone(Next(Unbounded, m, OwnStep(At(m, t), t)), t, k - 1)
  }

  predicate IsFull<T>(m: Machine<T>) {
    m.enqueuePos == Released(m) + |m.sequences|
  }

  /** How a call of `v` ends when nobody else moves. */
  ghost predicate Ends<T>(m: Machine<T>, t: nat, v: T, m': Machine<T>) {
    At(m', t) == if IsFull(m) then Refused(v) else AtWrite(v, m.enqueuePos)
  }

  /** From the current position: refused, or at the exchange that wins. */
  lemma EndsFromHere<T>(m: Machine<T>, h: History<T>, t: nat, k: nat)
    requires Inv(m, h) && IsPow2(|m.sequences|) && |m.sequences| >= 2 && k >= 2
    requires At(m, t).AtSequence? && At(m, t).pos == m.enqueuePos
    ensures Ends(m, t, At(m, t).value, Alone(m, t, k))
  {
    SequenceMeaning(m, h, m.enqueuePos);
    assert CountersInv(m, h);
    hide Inv, Slot, IsPow2;
    var v, m1 := At(m, t).value, Next(Unbounded, m, LoadSequence(t));
    assert Alone(m, t, k) == Alone(m1, t, k - 1);
    if !IsFull(m) {
      assert m1 == Move(m, t, AtCas(v, m.enqueuePos));
      var m2 := Next(Unbounded, m1, CompareExchange(t, false));
      assert Alone(m1, t, k - 1) == Alone(m2, t, k - 2);
    }
  }

  /** From the start, and from a failed exchange: first to the current position. */
  lemma EndsFromThere<T>(m: Machine<T>, h: History<T>, t: nat, k: nat)
    requires Inv(m, h) && IsPow2(|m.sequences|) && |m.sequences| >= 2 && k >= 3
    requires At(m, t).AtLoad? || At(m, t).AtCas?
    ensures Ends(m, t, At(m, t).value, Alone(m, t, k))
  {
    var l := OwnStep(At(m, t), t);
    StepInv(m, h, l);
    var m1, h1 := Next(Unbounded, m, l), Record(m, h, l);
    hide Inv, Slot, IsPow2;
    assert Alone(m, t, k) == Alone(m1, t, k - 1);
    if Trying(At(m1, t)) {
      EndsFromHere(m1, h1, t, k - 1);
    } else {
      CasRoom(m, h, t);
    }
  }

  lemma CasRoom<T>(m: Machine<T>, h: History<T>, t: nat)
    requires Inv(m, h) && At(m, t).AtCas? && At(m, t).pos == m.enqueuePos
    ensures !IsFull(m)
  {
    assert ProducerInv(m, h, t);
  }

  lemma EndsAlone<T>(m: Machine<T>, h: History<T>, t: nat, k: nat)
    requires Inv(m, h) && IsPow2(|m.sequences|) && |m.sequences| >= 2 && Trying(At(m, t)) && k >= 4
    ensures Ends(m, t, At(m, t).value, Alone(m, t, k))
  {
    hide Inv, Slot, IsPow2, Classify;
    if At(m, t).AtSequence? {
      var l := LoadSequence(t);
      StepInv(m, h, l);
      FullHere(m, h, t);
      var m1 := Next(Unbounded, m, l);
      assert Alone(m, t, k) == Alone(m1, t, k - 1);
      if Trying(At(m1, t)) {
        EndsFromThere(m1, Record(m, h, l), t, k - 1);
      }
    } else {
      EndsFromThere(m, h, t, k);
    }
  }

  lemma FullHere<T>(m: Machine<T>, h: History<T>, t: nat)
    requires Inv(m, h) && IsPow2(|m.sequences|) && |m.sequences| >= 2 && At(m, t).AtSequence?
    ensures At(Next(Unbounded, m, LoadSequence(t)), t).Refused? ==> IsFull(m)
  {
    assert ProducerInv(m, h, t);
    SequenceMeaning(m, h, At(m, t).pos);
  }

  /**
   From any reachable state a push that is left alone is settled within four of
   its own steps: refused if the ring is full, else the owner of the next position.
   */
  lemma PushAloneEnds<T>(n: nat, ls: seq<Label<T>>, t: nat)
    requires IsPow2(n) && n >= 2 && Trying(At(Run(Unbounded, n, ls), t))
    ensures var m := Run(Unbounded, n, ls);
            Ends(m, t, At(m, t).value, Alone(m, t, 4))
  {
    RunInv(n, ls);
    EndsAlone(Run(Unbounded, n, ls), Past(n, ls), t, 4);
  }
}
