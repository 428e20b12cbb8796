/** The power-save thread's operation queues: sixteen op objects that circulate between a free ring, an active
    ring and the threads using them, and the folding of sleep and wake requests on the active ring.
    An op is its place in the array of instances together with the id it carries while it is queued. */
module PsmOps {
  const RING_SIZE: nat := 16

  datatype OpId = Sleep | Wakeup | HostAwake

  datatype Op = Op(index: nat, id: OpId)

  datatype LastOp = Invalid | Valid(id: OpId)

  datatype Queues = Queues(free: seq<Op>, active: seq<Op>, last: LastOp)

  predicate SameClass(a: OpId, b: OpId) {
    a.Sleep? <==> b.Sleep?
  }

  /** What RB_PUT does: an element that does not fit is dropped. */
  function PutRing(s: seq<Op>, x: Op): seq<Op> {
    if |s| < RING_SIZE then s + [x] else s
  }

  function PutRings(s: seq<Op>, xs: seq<Op>): seq<Op> {
    if |s| + |xs| <= RING_SIZE then s + xs
    else if |s| < RING_SIZE then s + xs[..RING_SIZE - |s|]
    else s
  }

  predicate Redundant(q: Queues, id: OpId) {
    q.last.Valid? && SameClass(id, if q.active == [] then q.last.id else q.active[|q.active| - 1].id)
  }

  /** Neither rule of the clean-up loop applies, and more than two entries are left: it spins for ever. */
  predicate Spins(active: seq<Op>) {
    |active| > 2 &&
    var a, b := active[|active| - 2].id, active[|active| - 1].id;
    SameClass(a, b) && a != b
  }

  /** How many entries the clean-up takes from the head. */
  function Surplus(active: seq<Op>): (n: nat)
    ensures n <= |active|
  {
    if |active| <= 2 || Spins(active) then 0
    else if active[|active| - 1].id == active[|active| - 2].id then |active| - 2
    else |active| - 2 + |active| % 2
  }

  function Freed(q: Queues, n: nat): Queues
    requires n <= |q.active|
  {
    q.(free := PutRings(q.free, q.active[..n]), active := q.active[n..])
  }

  function CleanUp(q: Queues): Queues {
    Freed(q, Surplus(q.active))
  }

  /** The requester hands over an op: queued, folded away, or given back when the ring is full. */
  function PutActive(q: Queues, op: Op): Queues {
    if Redundant(q, op.id) then q.(free := PutRing(q.free, op))
    else if |q.active| < RING_SIZE then CleanUp(q.(active := q.active + [op]))
    else CleanUp(q).(free := PutRing(CleanUp(q).free, op))
  }

  /** The thread takes the oldest op. */
  function TakeActive(q: Queues): Queues
    requires q.active != []
  {
    q.(active := q.active[1..], last := Valid(q.active[0].id))
  }

  /** A forced wake-up first empties the active ring; the id last taken is not touched. */
  function Drain(q: Queues): Queues {
    q.(free := PutRings(q.free, q.active), active := [])
  }

  // ---------- the rings themselves ----------

  class OpRing {
    const queue: array<Op>
    var read: nat
    var write: nat

    ghost predicate Valid()
      reads this
    {
      queue.Length == RING_SIZE && read <= write <= read + RING_SIZE
    }

    ghost function Ops(): (s: seq<Op>)
      requires Valid()
      reads this, queue
      ensures |s| == write - read
      ensures forall k :: 0 <= k < |s| ==> s[k] == queue[(read + k) % RING_SIZE]
    {
      seq(write - read, k requires 0 <= k < write - read reads this, queue requires queue.Length == RING_SIZE =>
            queue[(read + k) % RING_SIZE])
    }

    constructor ()
      ensures Valid() && Ops() == [] && fresh(queue)
    {
      queue := new Op[RING_SIZE](_ => Op(0, Sleep));
      read, write := 0, 0;
    }

    method Put(x: Op)
      requires Valid()
      modifies this`write, queue
      ensures Valid() && Ops() == PutRing(old(Ops()), x)
    {
      if write - read < RING_SIZE {
        ghost var was := Ops();
        queue[write % RING_SIZE] := x;
        write := write + 1;
        forall k | 0 <= k < |was| ensures Ops()[k] == was[k] {
          Slots(read, k, write - 1 - read);
        }
        assert Ops() == was + [x];
      }
    }

    method Get() returns (x: Op)
      requires Valid() && Ops() != []
      modifies this`read, this`write
      ensures Valid() && x == old(Ops()[0]) && Ops() == old(Ops())[1..]
    {
      x := queue[read % RING_SIZE];
      read := read + 1;
      if read == write {
        read, write := 0, 0;
      }
    }

    /** The id of the k-th youngest op. */
    method FromEnd(k: nat) returns (id: OpId)
      requires Valid() && 1 <= k <= |Ops()|
      ensures id == Ops()[|Ops()| - k].id
    {
      id := queue[(write - k) % RING_SIZE].id;
    }
  }

  lemma Slots(read: nat, j: nat, k: nat)
    requires j < k < RING_SIZE
    ensures (read + j) % RING_SIZE != (read + k) % RING_SIZE
  {}

  class PsmQueues {
    const freeQ: OpRing
    const activeQ: OpRing
    var last: LastOp

    ghost predicate Valid()
      reads this, freeQ, activeQ
    {
      && freeQ != activeQ && freeQ.queue != activeQ.queue
      && freeQ.Valid() && activeQ.Valid()
    }

    ghost function State(): Queues
      requires Valid()
      reads this, freeQ, activeQ, freeQ.queue, activeQ.queue
    {
      Queues(freeQ.Ops(), activeQ.Ops(), last)
    }

    /** What a reset sets up: every op instance free. */
    constructor ()
      ensures Valid() && State() == Start()
      ensures fresh(freeQ) && fresh(activeQ) && fresh(freeQ.queue) && fresh(activeQ.queue)
    {
      freeQ := new OpRing();
      activeQ := new OpRing();
      last := LastOp.Invalid;
      new;
      var i := 0;
      while i < RING_SIZE
        invariant 0 <= i <= RING_SIZE
        invariant Valid() && fresh(freeQ) && fresh(freeQ.queue) && fresh(activeQ) && fresh(activeQ.queue)
        invariant activeQ.Ops() == [] && last == LastOp.Invalid
        invariant freeQ.Ops() == Start().free[..i]
      {
        freeQ.Put(Op(i, Sleep));
        i := i + 1;
      }
    }

    method IsRedundant(id: OpId) returns (b: bool)
      requires Valid()
      ensures b == Redundant(State(), id)
    {
      b := false;
      if last.Valid? {
        var prev := last.id;
        if activeQ.write != activeQ.read {
          prev := activeQ.FromEnd(1);
        }
        if id.Sleep? {
          b := prev.Sleep?;
        } else {
          b := (id.Wakeup? && prev.Wakeup?) || (id.HostAwake? && prev.Wakeup?)
               || (id.HostAwake? && prev.HostAwake?) || (id.Wakeup? && prev.HostAwake?);
        }
      }
    }

    /** Frees the oldest active op. */
    method FreeOldest()
      requires Valid() && State().active != []
      modifies freeQ, freeQ.queue, activeQ
      ensures Valid() && State() == Moved(old(State()))
    {
      var op := activeQ.Get();
      freeQ.Put(op);
    }

    /** One round of the clean-up. */
    method CleanUpRound() returns (stuck: bool)
      requires Valid() && |State().active| > 2
      modifies freeQ, freeQ.queue, activeQ
      ensures Valid() && State() == Round(old(State()))
      ensures stuck <==> Round(old(State())) == old(State())
    {
      var prev := activeQ.FromEnd(1);
      var prevPrev := activeQ.FromEnd(2);
      RoundCases(State());
      hide PutRing, Moved, Round;
      stuck := false;
      if (prev.Sleep? && prevPrev.Wakeup?) || (prev.Sleep? && prevPrev.HostAwake?)
         || (prev.Wakeup? && prevPrev.Sleep?) || (prev.HostAwake? && prevPrev.Sleep?) {
        FreeOldest();
        FreeOldest();
      } else if prev == prevPrev {
        FreeOldest();
      } else {
        stuck := true;
      }
    }

    /** The clean-up loop. `settled` is false when the loop in the driver would not end: neither of its rules
        applies, so a further round finds the same two entries again. */
    method CleanUpActive() returns (settled: bool)
      requires Valid()
      modifies freeQ, freeQ.queue, activeQ
      ensures Valid() && State() == CleanUp(old(State()))
      ensures settled <==> !Spins(old(State().active))
    {
      ghost var goal, spins := CleanUp(State()), Spins(State().active);
      var stuck := false;
      while activeQ.write - activeQ.read > 2 && !stuck
        invariant Valid()
        invariant CleanUp(State()) == goal && Spins(State().active) == spins
        invariant stuck ==> Spins(State().active)
        decreases |State().active|, !stuck
      {
        CleanUpStep(State());
        stuck := CleanUpRound();
      }
      settled := !stuck;
    }

    /** Puts an op on the active ring, or frees it when it is redundant or the ring is full. `settled` is false
        when the driver would be left spinning in the clean-up. */
    method PutActiveOp(op: Op) returns (settled: bool)
      requires Valid()
      modifies freeQ, freeQ.queue, activeQ, activeQ.queue
      ensures Valid() && State() == PutActive(old(State()), op)
      ensures settled <==> !Stalls(old(State()), op)
    {
      settled := true;
      var redundant := IsRedundant(op.id);
      hide PutRings, CleanUp, Spins, Redundant, Freed;
      if redundant {
        freeQ.Put(op);
      } else {
        var full := activeQ.write - activeQ.read >= RING_SIZE;
        if !full {
          activeQ.Put(op);
        }
        settled := CleanUpActive();
        if full {
          freeQ.Put(op);
        }
      }
    }

    method GetActiveOp() returns (op: Op)
      requires Valid() && State().active != []
      modifies this`last, activeQ
      ensures Valid() && op == old(State().active[0]) && State() == TakeActive(old(State()))
    {
      op := activeQ.Get();
      last := LastOp.Valid(op.id);
    }

    method GetFreeOp() returns (op: Op)
      requires Valid() && State().free != []
      modifies freeQ
      ensures Valid() && op == old(State().free[0]) && State() == old(State()).(free := old(State().free)[1..])
    {
      op := freeQ.Get();
    }

    method PutFreeOp(op: Op)
      requires Valid()
      modifies freeQ, freeQ.queue
      ensures Valid() && State() == old(State()).(free := PutRing(old(State().free), op))
    {
      freeQ.Put(op);
    }

    method DrainActive()
      requires Valid()
      modifies freeQ, freeQ.queue, activeQ
      ensures Valid() && State() == Drain(old(State()))
    {
      ghost var goal := Drain(State());
      while activeQ.write != activeQ.read
        invariant Valid()
        invariant Drain(State()) == goal
        decreases |State().active|
      {
        DrainStep(State());
        FreeOldest();
      }
    }
  }

  function Moved(q: Queues): Queues
    requires q.active != []
  {
    q.(free := PutRing(q.free, q.active[0]), active := q.active[1..])
  }

  /** The clean-up is entered with a pair of entries it has no rule for. */
  predicate Stalls(q: Queues, op: Op) {
    !Redundant(q, op.id) && Spins(if |q.active| < RING_SIZE then q.active + [op] else q.active)
  }

  lemma PutRingsNext(free: seq<Op>, xs: seq<Op>)
    requires xs != []
    ensures PutRings(free, xs) == PutRings(PutRing(free, xs[0]), xs[1..])
  {}

  lemma DrainStep(q: Queues)
    requires q.active != []
    ensures Drain(q) == Drain(Moved(q))
  {
    PutRingsNext(q.free, q.active);
  }

  /** What one round does: two entries go when the last two alternate, one when they are equal, none otherwise. */
  function Round(q: Queues): Queues
    requires |q.active| > 2
  {
    var a, b := q.active[|q.active| - 2].id, q.active[|q.active| - 1].id;
    if !SameClass(a, b) then Moved(Moved(q)) else if a == b then Moved(q) else q
  }

  lemma RoundCases(q: Queues)
    requires |q.active| > 2
    ensures var a, b := q.active[|q.active| - 2].id, q.active[|q.active| - 1].id;
            && Moved(q).active != []
            && (!SameClass(a, b) ==> Round(q) == Moved(Moved(q)) && Round(q) != q)
            && (a == b ==> Round(q) == Moved(q) && Round(q) != q)
            && (SameClass(a, b) && a != b ==> Round(q) == q)
  {
    assert |Moved(q).active| == |q.active| - 1 && |Moved(Moved(q)).active| == |q.active| - 2;
    hide PutRing, Moved;
  }

  lemma FreedNext(q: Queues, n: nat)
    requires 0 < n <= |q.active|
    ensures Freed(q, n) == Freed(Moved(q), n - 1)
  {
    PutRingsNext(q.free, q.active[..n]);
    assert q.active[..n][1..] == q.active[1..][..n - 1];
  }

  lemma SurplusStep(q: Queues)
    requires |q.active| > 2
    ensures Spins(q.active) == Spins(Round(q).active)
    ensures Spins(q.active) <==> Round(q) == q
    ensures Surplus(q.active) == |q.active| - |Round(q).active| + Surplus(Round(q).active)
  {}

  lemma CleanUpStep(q: Queues)
    requires |q.active| > 2
    ensures CleanUp(q) == CleanUp(Round(q)) && Spins(q.active) == Spins(Round(q).active)
    ensures Spins(q.active) <==> Round(q) == q
  {
    SurplusStep(q);
    RoundMoves(q);
    hide Surplus, Spins, PutRings, Freed, Moved, Round;
    var n := Surplus(q.active);
    if Round(q) == Moved(q) || Round(q) == Moved(Moved(q)) {
      FreedNext(q, n);
      if Round(q) == Moved(Moved(q)) {
        FreedNext(Moved(q), n - 1);
      }
    }
  }

  lemma RoundMoves(q: Queues)
    requires |q.active| > 2
    ensures |Moved(q).active| == |q.active| - 1 && |Moved(Moved(q)).active| == |q.active| - 2
    ensures Round(q) == q || Round(q) == Moved(q) || Round(q) == Moved(Moved(q))
    ensures |Moved(q).active| < |q.active|
  {
    hide PutRing;
  }

  function Start(): (q: Queues)
    ensures |q.free| == RING_SIZE
  {
    Queues(seq(RING_SIZE, i requires 0 <= i < RING_SIZE => Op(i, Sleep)), [], LastOp.Invalid)
  }
}
