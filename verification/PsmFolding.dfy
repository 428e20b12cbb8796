/** What folding requests on the active ring preserves, over every interleaving of the threads that use it. */
module PsmFolding {
  import opened PsmOps

  /** The class the queue will leave the chip in once everything pending has been carried out. */
  function Pending(q: Queues): OpId
    requires q.active != [] || q.last.Valid?
  {
    if q.active == [] then q.last.id else q.active[|q.active| - 1].id
  }

  /** Each entry asks for the opposite of what comes before it, starting from the op last taken. */
  ghost predicate Folded(q: Queues) {
    && q.last.Valid? && |q.active| <= 2
    && (|q.active| >= 1 ==> !SameClass(q.active[0].id, q.last.id))
    && (|q.active| == 2 ==> !SameClass(q.active[1].id, q.active[0].id))
  }

  /** A request on a folded queue leaves it folded, and pending is the class just asked for. */
  lemma PutFolded(q: Queues, op: Op)
    requires Folded(q)
    ensures var q' := PutActive(q, op);
            Folded(q') && q'.last == q.last && SameClass(Pending(q'), op.id) && !Stalls(q, op)
  {
    hide PutRing, PutRings;
  }

  lemma TakeFolded(q: Queues)
    requires Folded(q) && q.active != []
    ensures Folded(TakeActive(q)) && Pending(TakeActive(q)) == Pending(q)
    ensures !SameClass(q.active[0].id, q.last.id)
  {}

  /** The clean-up spins exactly when nothing has been taken since reset and the request meets two entries of
      which the younger is the other kind of wake-up. */
  lemma StallsExactly(q: Queues, op: Op)
    requires |q.active| <= 2
    ensures Stalls(q, op) <==>
              && q.last.Invalid? && |q.active| == 2
              && SameClass(q.active[1].id, op.id) && q.active[1].id != op.id
    ensures |PutActive(q, op).active| <= 2 <==> !Stalls(q, op)
  {
    hide PutRing, PutRings;
  }

  // ---------- all threads together ----------

  /** `hands` are the ops some thread has out of the rings: requesters between taking a free op and submitting
      it, and the power-save thread with the op it carries out. `want` is the id last submitted; `quiet` says that
      nothing has been submitted since reset or since a forced wake-up last emptied the queue. That call submits its
      wake-up in later steps, among those of the other threads. */
  datatype Pool = Pool(q: Queues, hands: seq<nat>, want: OpId, quiet: bool, spinning: bool)

  datatype Step =
    | Grab
    | Submit(hand: nat, id: OpId)
    | Take
    | GiveBack(hand: nat)
    | Empty

  function Without<T>(s: seq<T>, i: nat): seq<T>
    requires i < |s|
  {
    s[..i] + s[i + 1..]
  }

  function Next(p: Pool, step: Step): Pool {
    if p.spinning then p
    else match step
      case Grab =>
        if p.q.free == [] then p
        else p.(q := p.q.(free := p.q.free[1..]), hands := p.hands + [p.q.free[0].index])
      case Submit(h, id) =>
        if h >= |p.hands| then p
        else
          var op := Op(p.hands[h], id);
          Pool(PutActive(p.q, op), Without(p.hands, h), id, false, Stalls(p.q, op))
      case Take =>
        if p.q.active == [] then p
        else p.(q := TakeActive(p.q), hands := p.hands + [p.q.active[0].index])
      case GiveBack(h) =>
        if h >= |p.hands| then p
        else p.(q := p.q.(free := PutRing(p.q.free, Op(p.hands[h], Sleep))), hands := Without(p.hands, h))
      case Empty => p.(q := Drain(p.q), quiet := true)
  }

  function Run(p: Pool, steps: seq<Step>): Pool
    decreases |steps|
  {
    if steps == [] then p else Run(Next(p, steps[0]), steps[1..])
  }

  // ---------- conservation ----------

  function Indices(s: seq<Op>): (r: seq<nat>)
    ensures |r| == |s|
    ensures forall k :: 0 <= k < |s| ==> r[k] == s[k].index
  {
    seq(|s|, k requires 0 <= k < |s| => s[k].index)
  }

  ghost function Everywhere(p: Pool): multiset<nat> {
    multiset(Indices(p.q.free)) + multiset(Indices(p.q.active)) + multiset(p.hands)
  }

  /** Every op instance is in exactly one place. */
  ghost predicate Conserved(p: Pool) {
    Everywhere(p) == multiset(Indices(Start().free))
  }

  lemma ConservedCount(p: Pool)
    requires Conserved(p)
    ensures |p.q.free| + |p.q.active| + |p.hands| == RING_SIZE
  {
    assert |Everywhere(p)| == |Indices(p.q.free)| + |Indices(p.q.active)| + |p.hands|;
  }

  lemma IndicesAppend(a: seq<Op>, b: seq<Op>)
    ensures multiset(Indices(a + b)) == multiset(Indices(a)) + multiset(Indices(b))
  {
    assert Indices(a + b) == Indices(a) + Indices(b);
  }

  lemma IndicesSplit(a: seq<Op>, n: nat)
    requires n <= |a|
    ensures multiset(Indices(a)) == multiset(Indices(a[..n])) + multiset(Indices(a[n..]))
  {
    assert a == a[..n] + a[n..];
    IndicesAppend(a[..n], a[n..]);
  }

  lemma IndicesOne(op: Op)
    ensures multiset(Indices([op])) == multiset{op.index}
  {
    assert Indices([op]) == [op.index];
  }

  lemma WithoutCount(s: seq<nat>, i: nat)
    requires i < |s|
    ensures multiset(s) == multiset(Without(s, i)) + multiset{s[i]}
  {
    assert s == s[..i] + [s[i]] + s[i + 1..];
  }

  /** What moves between the rings when nothing overflows. */
  lemma FreedIndices(q: Queues, n: nat)
    requires n <= |q.active| && |q.free| + |q.active| <= RING_SIZE
    ensures var q' := Freed(q, n);
            multiset(Indices(q'.free)) + multiset(Indices(q'.active)) ==
            multiset(Indices(q.free)) + multiset(Indices(q.active))
  {
    IndicesAppend(q.free, q.active[..n]);
    IndicesSplit(q.active, n);
  }

  lemma PutIndices(q: Queues, op: Op)
    requires |q.free| + |q.active| < RING_SIZE
    ensures var q' := PutActive(q, op);
            multiset(Indices(q'.free)) + multiset(Indices(q'.active)) ==
            multiset(Indices(q.free)) + multiset(Indices(q.active)) + multiset{op.index}
  {
    IndicesOne(op);
    hide Indices, Surplus, Redundant, PutRings, Freed;
    if Redundant(q, op.id) {
      IndicesAppend(q.free, [op]);
    } else {
      IndicesAppend(q.active, [op]);
      var r := q.(active := q.active + [op]);
      FreedIndices(r, Surplus(r.active));
    }
  }

  lemma GrabConserved(p: Pool)
    requires Conserved(p) && p.q.free != []
    ensures Conserved(p.(q := p.q.(free := p.q.free[1..]), hands := p.hands + [p.q.free[0].index]))
  {
    IndicesSplit(p.q.free, 1);
    IndicesOne(p.q.free[0]);
    assert p.q.free[..1] == [p.q.free[0]];
    hide Indices;
  }

  lemma TakeConserved(p: Pool)
    requires Conserved(p) && p.q.active != []
    ensures Conserved(p.(q := TakeActive(p.q), hands := p.hands + [p.q.active[0].index]))
  {
    IndicesSplit(p.q.active, 1);
    IndicesOne(p.q.active[0]);
    assert p.q.active[..1] == [p.q.active[0]];
    hide Indices;
  }

  lemma SubmitConserved(p: Pool, h: nat, id: OpId)
    requires Conserved(p) && h < |p.hands|
    ensures Conserved(p.(q := PutActive(p.q, Op(p.hands[h], id)), hands := Without(p.hands, h)))
  {
    ConservedCount(p);
    WithoutCount(p.hands, h);
    PutIndices(p.q, Op(p.hands[h], id));
    hide Indices, PutActive, Without;
  }

  lemma GiveBackConserved(p: Pool, h: nat)
    requires Conserved(p) && h < |p.hands|
    ensures Conserved(p.(q := p.q.(free := PutRing(p.q.free, Op(p.hands[h], Sleep))), hands := Without(p.hands, h)))
  {
    var op := Op(p.hands[h], Sleep);
    ConservedCount(p);
    WithoutCount(p.hands, h);
    IndicesOne(op);
    IndicesAppend(p.q.free, [op]);
    hide Indices, Without;
  }

  lemma DrainConserved(p: Pool)
    requires Conserved(p)
    ensures Conserved(p.(q := Drain(p.q)))
  {
    ConservedCount(p);
    DrainIndices(p.q);
    assert multiset(Indices([])) == multiset{};
    hide Indices, Drain;
  }

  lemma SameConserved(p: Pool, q: Pool)
    requires Conserved(p) && q.q == p.q && q.hands == p.hands
    ensures Conserved(q)
  {}

  lemma NextConserved(p: Pool, step: Step)
    requires Conserved(p)
    ensures Conserved(Next(p, step))
  {
    hide Conserved, PutActive, PutRing, Drain, TakeActive, Without;
    if p.spinning { return; }
    match step {
      case Grab => if p.q.free != [] { GrabConserved(p); }
      case Take => if p.q.active != [] { TakeConserved(p); }
      case Submit(h, id) =>
        if h < |p.hands| {
          SubmitConserved(p, h, id);
          SameConserved(p.(q := PutActive(p.q, Op(p.hands[h], id)), hands := Without(p.hands, h)), Next(p, step));
        }
      case GiveBack(h) => if h < |p.hands| { GiveBackConserved(p, h); }
      case Empty =>
        DrainConserved(p);
        SameConserved(p.(q := Drain(p.q)), Next(p, step));
    }
  }

  lemma DrainIndices(q: Queues)
    requires |q.free| + |q.active| <= RING_SIZE
    ensures multiset(Indices(Drain(q).free)) == multiset(Indices(q.free)) + multiset(Indices(q.active))
    ensures Drain(q).active == []
  {
    IndicesAppend(q.free, q.active);
  }

  /** From reset, in every interleaving, each of the sixteen op instances is in exactly one place: a ring never
      overflows and none is lost, folded twice or handed to two threads. */
  lemma {:induction false} OpsConserved(p: Pool, steps: seq<Step>)
    requires Conserved(p)
    ensures var r := Run(p, steps);
            Conserved(r) && |r.q.free| + |r.q.active| + |r.hands| == RING_SIZE
    decreases |steps|
  {
    hide Conserved, Next;
    if steps == [] {
      ConservedCount(p);
    } else {
      NextConserved(p, steps[0]);
      OpsConserved(Next(p, steps[0]), steps[1..]);
    }
  }

  function Boot(): Pool {
    Pool(Start(), [], Wakeup, true, false)
  }

  lemma BootConserved()
    ensures Conserved(Boot())
  {
    assert multiset(Indices(Boot().q.active)) == multiset{};
  }

  // ---------- folding ----------

  /** What the queue will have done in the end is of the class of `id`. */
  ghost predicate EndsIn(q: Queues, id: OpId) {
    (q.active != [] || q.last.Valid?) && SameClass(Pending(q), id)
  }

  /** The last request stands, or has been dropped by a forced wake-up that has not yet made its own. */
  ghost predicate Stands(p: Pool) {
    if p.quiet then p.q.active == [] else EndsIn(p.q, p.want)
  }

  ghost predicate Faithful(p: Pool) {
    !p.spinning && Folded(p.q) && Stands(p)
  }

  lemma NextFaithful(p: Pool, step: Step)
    requires Faithful(p)
    ensures Faithful(Next(p, step))
  {
    hide PutRing, PutRings, PutActive, Stalls;
    match step {
      case Submit(h, id) => if h < |p.hands| { PutFolded(p.q, Op(p.hands[h], id)); }
      case Take => if p.q.active != [] { TakeFolded(p.q); }
      case Grab =>
      case GiveBack(h) => if h < |p.hands| { assert Next(p, step).q.active == p.q.active; }
      case Empty =>
    }
  }

  /** Once an op has been taken and the queue is folded - it is whenever it is then empty - every interleaving
      keeps it folded: sleep and wake alternate, the head undoes the op last taken, at most two are queued, the
      clean-up always ends, and what is pending is of the class last asked for, unless nothing is pending because a
      forced wake-up has emptied the queue and nothing has been asked for since. */
  lemma {:induction false} RequestsPreserved(p: Pool, steps: seq<Step>)
    requires Faithful(p)
    ensures Faithful(Run(p, steps))
    decreases |steps|
  {
    hide Faithful, Next;
    if steps != [] {
      NextFaithful(p, steps[0]);
      RequestsPreserved(Next(p, steps[0]), steps[1..]);
    }
  }

  lemma EmptyIsFolded(q: Queues)
    requires q.active == []
    ensures Folded(q) <==> q.last.Valid?
  {}

  // ---------- from reset ----------

  /** From the very first request on: at most two are pending, and what will have been done in the end is of the class
      last asked for. */
  ghost predicate Wanted(p: Pool) {
    !p.spinning ==> |p.q.active| <= 2 && Stands(p)
  }

  lemma PutWanted(q: Queues, op: Op)
    requires |q.active| <= 2 && !Stalls(q, op)
    ensures var q' := PutActive(q, op);
            q'.last == q.last && |q'.active| <= 2 && EndsIn(q', op.id)
  {
    hide PutRing, PutRings;
  }

  lemma NextWanted(p: Pool, step: Step)
    requires Wanted(p)
    ensures Wanted(Next(p, step))
  {
    match step {
      case Submit(h, id) =>
        if !p.spinning && h < |p.hands| && !Stalls(p.q, Op(p.hands[h], id)) { PutWanted(p.q, Op(p.hands[h], id)); }
      case Grab =>
      case Take =>
      case GiveBack(_) =>
      case Empty =>
    }
    hide PutActive, Stalls, PutRing, PutRings;
  }

  /** How many ops the power-save thread gets in a run. */
  function Takes(p: Pool, steps: seq<Step>): nat
    decreases |steps|
  {
    if steps == [] then 0
    else (if steps[0].Take? && !p.spinning && p.q.active != [] then 1 else 0) + Takes(Next(p, steps[0]), steps[1..])
  }

  /** Folded but perhaps for its head. */
  ghost predicate TailFolded(q: Queues) {
    |q.active| <= 2 && (|q.active| == 2 ==> !SameClass(q.active[0].id, q.active[1].id))
  }

  /** What holds after `k` ops have been taken since reset. */
  ghost predicate AfterTakes(p: Pool, k: nat) {
    && Wanted(p)
    && (k == 0 <==> p.q.last.Invalid?)
    && (k >= 1 ==> !p.spinning && TailFolded(p.q))
    && (k >= 2 ==> Folded(p.q))
  }

  lemma PutTailFolded(q: Queues, op: Op)
    requires q.last.Valid? && TailFolded(q)
    ensures TailFolded(PutActive(q, op)) && PutActive(q, op).last == q.last && !Stalls(q, op)
    ensures Folded(q) ==> Folded(PutActive(q, op))
  {
    hide PutRing, PutRings;
  }

  lemma NextAfterTakes(p: Pool, step: Step, k: nat)
    requires AfterTakes(p, k)
    ensures AfterTakes(Next(p, step), k + Takes(p, [step]))
  {
    NextWanted(p, step);
    TakesOne(p, step);
    hide Wanted, Takes, PutActive, Stalls, PutRing, PutRings;
    match step {
      case Submit(h, id) =>
        if k >= 1 && h < |p.hands| { PutTailFolded(p.q, Op(p.hands[h], id)); }
        assert k == 0 ==> Next(p, step).q.last.Invalid? by { PutKeepsLast(p.q); }
      case Take => if !p.spinning { WantedShort(p); }
      case Grab =>
      case GiveBack(_) =>
      case Empty =>
    }
  }

  lemma WantedShort(p: Pool)
    requires Wanted(p) && !p.spinning
    ensures |p.q.active| <= 2
  {}

  lemma PutKeepsLast(q: Queues)
    ensures forall op :: PutActive(q, op).last == q.last
  {
    hide PutRing, PutRings, Surplus;
  }

  lemma {:induction false} RunAfterTakes(p: Pool, steps: seq<Step>, k: nat)
    requires AfterTakes(p, k)
    ensures AfterTakes(Run(p, steps), k + Takes(p, steps))
    decreases |steps|
  {
    hide AfterTakes, Next;
    if steps != [] {
      NextAfterTakes(p, steps[0], k);
      TakesOne(p, steps[0]);
      RunAfterTakes(Next(p, steps[0]), steps[1..], k + Takes(p, [steps[0]]));
    }
  }

  lemma TakesOne(p: Pool, step: Step)
    ensures Takes(p, [step]) == if step.Take? && !p.spinning && p.q.active != [] then 1 else 0
  {
    assert [step][1..] == [];
  }

  /** Every run from reset. The class pending is the class last asked for, unless nothing was asked for since reset or
      since a forced wake-up emptied the queue, which is then still empty. Once the thread has taken an op the clean-up
      ends and the queue is folded but perhaps for its head; once it has taken a second one the queue is folded, and
      stays so. */
  lemma FoldedFromReset(steps: seq<Step>)
    ensures var p, k := Run(Boot(), steps), Takes(Boot(), steps);
            && Wanted(p)
            && (k == 0 <==> p.q.last.Invalid?)
            && (k >= 1 ==>
                 !p.spinning && (Folded(p.q) <==> p.q.active == [] || !SameClass(p.q.active[0].id, p.q.last.id)))
            && (k >= 2 ==> Faithful(p))
  {
    assert AfterTakes(Boot(), 0);
    RunAfterTakes(Boot(), steps, 0);
  }

  /** Nobody asks for sleep, or empties the queue. */
  predicate Calm(steps: seq<Step>) {
    forall k :: 0 <= k < |steps| ==> !steps[k].Empty? && (steps[k].Submit? ==> !steps[k].id.Sleep?)
  }

  ghost predicate WakeStands(p: Pool) {
    Wanted(p) && !p.quiet && !p.want.Sleep?
  }

  lemma {:induction false} CalmKeeps(p: Pool, more: seq<Step>)
    requires WakeStands(p) && Calm(more)
    ensures WakeStands(Run(p, more))
    decreases |more|
  {
    hide Wanted, PutActive, Stalls, PutRing;
    if more != [] {
      NextWanted(p, more[0]);
      CalmKeeps(Next(p, more[0]), more[1..]);
    }
  }

  /** The wake-up a forced wake-up submits after it has emptied the queue, in any run from reset and whatever others
      asked for in between: the queue will end awake, until somebody asks for sleep or empties it again. */
  lemma WakeupStands(steps: seq<Step>, hand: nat, more: seq<Step>)
    requires var p := Run(Boot(), steps); !p.spinning && hand < |p.hands|
    requires Calm(more)
    ensures var r := Run(Next(Run(Boot(), steps), Submit(hand, Wakeup)), more);
            r.spinning || EndsIn(r.q, Wakeup)
  {
    var p := Run(Boot(), steps);
    RunAfterTakes(Boot(), steps, 0);
    NextWanted(p, Submit(hand, Wakeup));
    CalmKeeps(Next(p, Submit(hand, Wakeup)), more);
    hide PutActive, Stalls, Run;
  }

  /** Whether the first op taken leaves the queue folded for good: exactly when it was alone or the one behind it asks
      for the opposite. */
  lemma FirstTakeDecides(steps: seq<Step>)
    requires var p := Run(Boot(), steps); p.q.last.Invalid? && !p.spinning && p.q.active != []
    ensures var p := Run(Boot(), steps);
            (forall more :: Faithful(Run(Next(p, Take), more))) <==>
              |p.q.active| == 1 || !SameClass(p.q.active[0].id, p.q.active[1].id)
  {
    RunAfterTakes(Boot(), steps, 0);
    TakeDecides(Run(Boot(), steps), Takes(Boot(), steps));
  }

  lemma TakeFoldsExactly(q: Queues)
    requires q.last.Invalid? && 1 <= |q.active| <= 2
    ensures Folded(TakeActive(q)) <==> |q.active| == 1 || !SameClass(q.active[0].id, q.active[1].id)
  {}

  lemma TakeDecides(p: Pool, k: nat)
    requires AfterTakes(p, k) && p.q.last.Invalid? && !p.spinning && p.q.active != []
    ensures (forall more :: Faithful(Run(Next(p, Take), more))) <==>
              |p.q.active| == 1 || !SameClass(p.q.active[0].id, p.q.active[1].id)
  {
    var t := Next(p, Take);
    NextWanted(p, Take);
    TakeFoldsExactly(p.q);
    assert t.q == TakeActive(p.q) && (Faithful(t) <==> Folded(t.q));
    hide AfterTakes, Next, Folded, Faithful;
    FaithfulForGood(t);
  }

  lemma FaithfulForGood(p: Pool)
    ensures (forall more :: Faithful(Run(p, more))) <==> Faithful(p)
  {
    if Faithful(p) {
      forall more ensures Faithful(Run(p, more)) { RequestsPreserved(p, more); }
    } else {
      AtOnce(p, []);
    }
  }

  lemma AtOnce(p: Pool, none: seq<Step>)
    requires !Faithful(p) && none == []
    ensures !forall more :: Faithful(Run(p, more))
  {
    assert !Faithful(Run(p, none));
  }

  /** Two forced wake-ups at once, after reset: both empty the queue before either has asked. */
  const BOTH_EMPTY: seq<Step> := [Empty, Empty, Grab, Submit(0, Wakeup), Grab, Submit(0, Wakeup)]

  lemma TwoWakeups(more: seq<Step>)
    ensures var p := Run(Boot(), BOTH_EMPTY);
            && p.q.active == [Op(0, Wakeup), Op(1, Wakeup)] && p.hands == [] && p.q.last.Invalid?
            && p.q.free == Start().free[2..] && !p.spinning
            && Run(Boot(), BOTH_EMPTY + more) == Run(p, more)
  {
    var s := BOTH_EMPTY + more;
    BothAsk(Next(Next(Boot(), Empty), Empty));
    RunTwo(Boot(), BOTH_EMPTY);
    RunTwo(Boot(), s);
    var p2 := Next(Next(Boot(), Empty), Empty);
    assert p2.q == Start() by { assert Start().free + [] == Start().free; }
    hide PutActive, Start, Next;
    RunTwo(p2, BOTH_EMPTY[2..]);
    RunTwo(p2, s[2..]);
    var p4 := Next(Next(p2, Grab), Submit(0, Wakeup));
    RunTwo(p4, BOTH_EMPTY[2..][2..]);
    RunTwo(p4, s[2..][2..]);
    assert s[2..][2..][2..] == more;
    assert BOTH_EMPTY[2..][2..][2..] == [];
  }

  lemma BothAsk(p: Pool)
    requires p.q == Start() && p.hands == [] && !p.spinning
    ensures var t := Next(Next(Next(Next(p, Grab), Submit(0, Wakeup)), Grab), Submit(0, Wakeup));
            && t.q.active == [Op(0, Wakeup), Op(1, Wakeup)] && t.hands == [] && t.q.last.Invalid?
            && t.q.free == Start().free[2..] && !t.spinning
  {
    var p1 := Next(Next(p, Grab), Submit(0, Wakeup));
    assert p1.q.active == [Op(0, Wakeup)] && p1.hands == [] && p1.q.free == Start().free[1..];
    hide Start;
  }

  /** Before that, a queue of two equal requests is possible, and taking one of them does not fold the rest. */
  lemma UnfoldedAtFirst()
    ensures var p := Run(Boot(), BOTH_EMPTY + [Take]);
            p.q.last == LastOp.Valid(Wakeup) && |p.q.active| == 1 && p.q.active[0].id == Wakeup && !Folded(p.q)
  {
    TwoWakeups([Take]);
    RunOne(Run(Boot(), BOTH_EMPTY), Take);
    hide Run;
  }

  lemma RunOne(p: Pool, step: Step)
    ensures Run(p, [step]) == Next(p, step)
  {
    assert [step][1..] == [];
  }

  lemma RunTwo(p: Pool, s: seq<Step>)
    requires |s| >= 2
    ensures Run(p, s) == Run(Next(Next(p, s[0]), s[1]), s[2..])
  {
    assert s[1..][1..] == s[2..];
  }

  ghost predicate Short(p: Pool) {
    !p.spinning ==> |p.q.active| <= 2
  }

  /** In every run from reset the clean-up can spin only before the first op is taken. */
  lemma {:induction false} NeverSpinsOnceTaken(p: Pool, steps: seq<Step>)
    requires Short(p) && (p.q.last.Valid? ==> !p.spinning)
    ensures var r := Run(p, steps);
            Short(r) && (r.q.last.Valid? ==> !r.spinning)
    decreases |steps|
  {
    if steps != [] {
      match steps[0] {
        case Submit(h, id) =>
          if h < |p.hands| && !p.spinning { StallsExactly(p.q, Op(p.hands[h], id)); }
        case _ =>
      }
      hide PutActive, Stalls, PutRing, PutRings;
      NeverSpinsOnceTaken(Next(p, steps[0]), steps[1..]);
    }
  }

  /** And before it, it can: two forced wake-ups at once and a host wake-up, none of them taken yet. */
  lemma SpinsAtFirst()
    ensures Run(Boot(), BOTH_EMPTY + [Grab, Submit(0, HostAwake)]).spinning
  {
    var p := Run(Boot(), BOTH_EMPTY);
    TwoWakeups([Grab, Submit(0, HostAwake)]);
    assert p.q.free[0] == Op(2, Sleep);
    StallsExactly(Next(p, Grab).q, Op(2, HostAwake));
    RunTwo(p, [Grab, Submit(0, HostAwake)]);
    hide PutActive, Start, Stalls;
  }
}
