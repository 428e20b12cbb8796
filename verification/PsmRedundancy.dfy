/** Folding, the state machine and the switching of the monitor together: whether a request that was folded away had
    nothing left to do. */
module PsmRedundancy {
  import opened PsmOps
  import opened PsmMachine
  import opened PsmFolding

  /** Where a call that enables (`on`) or disables the monitor is: it has set the disable bit, emptied the queue, asked
      for a wake-up and waits for ACT. These calls are made one at a time. */
  datatype Phase = Steady | Setting(on: bool) | Drained(on: bool) | Asked(on: bool)

  /** `spinning` is the clean-up loop that does not end: it holds the queue's lock, and nothing moves any more. */
  datatype Joint = Joint(q: Queues, psm: Psm, phase: Phase, spinning: bool)

  datatype Move =
    | Request(op: Op)             // a sleep request first tests the disable bit
    | Late(index: nat)            // a sleep request that made the test at some earlier moment
    | Carry(cancelled: bool)      // the thread carries out the oldest op, unless sleeping is cancelled altogether
    | Switch(on: bool)
    | Clear
    | Ask(index: nat)
    | Finish
    | GiveUp
    | Machine(step: PsmMachine.Step)

  function Queued(j: Joint, op: Op): Joint {
    j.(q := PutActive(j.q, op), spinning := Stalls(j.q, op))
  }

  function Perform(j: Joint, m: Move): Joint {
    if j.spinning then j
    else match m
      case Request(op) => if op.id.Sleep? && j.psm.disableMonitor then j else Queued(j, op)
      case Late(index) => Queued(j, Op(index, Sleep))
      case Carry(cancelled) =>
        if j.psm.waiting || j.q.active == [] then j
        else
          var id := j.q.active[0].id;
          j.(q := TakeActive(j.q), psm := if id.Sleep? && cancelled then j.psm else NotifyWmt(j.psm, ActionOf(id)).psm)
      case Switch(on) =>
        if !j.phase.Steady? then j else j.(phase := Setting(on), psm := j.psm.(disableMonitor := true))
      case Clear => if !j.phase.Setting? then j else j.(q := Drain(j.q), phase := Drained(j.phase.on))
      case Ask(index) =>
        if j.phase.Drained? || j.phase.Asked? then Queued(j, Op(index, Wakeup)).(phase := Asked(j.phase.on)) else j
      case Finish =>
        if !j.phase.Asked? || j.psm.work != Act then j
        else j.(phase := Steady, psm := j.psm.(disableMonitor := !j.phase.on))
      case GiveUp => if j.phase.Drained? || j.phase.Asked? then j.(phase := Steady) else j
      case Machine(s) =>
        if s.Handling? || s.Resetting? || s.Monitoring? then j else j.(psm := PsmMachine.Next(j.psm, s))
  }

  function PerformAll(j: Joint, ms: seq<Move>): Joint
    decreases |ms|
  {
    if ms == [] then j else PerformAll(Perform(j, ms[0]), ms[1..])
  }

  /** The thread waits exactly in the two states that await an answer. */
  ghost predicate Prompt(p: Psm) {
    Gated(p) && !p.rollBackEn && (p.waiting <==> p.work == ActInact || p.work == InactAct)
  }

  /** The state is where the op last taken leads. */
  ghost predicate Agrees(j: Joint) {
    j.q.last.Valid? ==>
      if j.q.last.id.Sleep? then j.psm.work == ActInact || j.psm.work == Inact
      else j.psm.work == InactAct || j.psm.work == Act
  }

  /** The sleep op about to be carried out is turned down. */
  predicate Refused(j: Joint, cancelled: bool) {
    && !j.psm.waiting && j.q.active != [] && j.q.active[0].id.Sleep?
    && j.psm.work == Act && (cancelled || j.psm.disableMonitor)
  }

  /** After an op has been taken, state and op agree exactly unless it was a sleep op turned down. A wake-up always
      makes them agree again. */
  lemma CarryAgrees(j: Joint, cancelled: bool)
    requires Prompt(j.psm) && !j.psm.waiting && j.q.active != [] && !j.spinning
    ensures var t := Perform(j, Carry(cancelled));
            Prompt(t.psm) && (Agrees(t) <==> !Refused(j, cancelled))
  {}

  /** A request folded away with nothing pending would have had nothing to do exactly when state and last op agree, or
      the monitor would have turned it down anyway. */
  lemma FoldedAway(j: Joint, id: OpId)
    requires Prompt(j.psm) && !j.psm.waiting && j.q.active == [] && Redundant(j.q, id)
    ensures NotifyWmt(j.psm, ActionOf(id)).notified == [] <==> Agrees(j) || (id.Sleep? && j.psm.disableMonitor)
  {}

  // ---------- what every run keeps ----------

  /** What holds whoever is late or cancelled: a refused sleep is the only disagreement. */
  ghost predicate Orderly(j: Joint) {
    && Prompt(j.psm)
    && (if j.spinning then j.q.last.Invalid? && j.q.active != [] else |j.q.active| <= 2)
    && (j.phase.Steady? || j.psm.disableMonitor)
    && (j.q.last.Invalid? ==> j.psm.work == Act)
    && (j.q.last.Valid? ==> TailFolded(j.q))
    && (!Agrees(j) ==> j.q.last == LastOp.Valid(Sleep) && j.psm.work == Act)
    && ((j.phase.Drained? || j.phase.Asked?) && HeadsForSleep(j.psm) ==> WakesFirst(j.q))
  }

  predicate HeadsForSleep(p: Psm) {
    p.work == ActInact || p.work == Inact
  }

  predicate WakesFirst(q: Queues) {
    q.active != [] ==> !q.active[0].id.Sleep?
  }

  predicate WakesLast(q: Queues) {
    q.active != [] ==> !Pending(q).Sleep?
  }

  /** A disagreement is mended before it can matter: a wake-up is pending, or the next enable will ask for one. */
  ghost predicate Mended(j: Joint) {
    !j.spinning ==>
      && (j.phase == Asked(true) ==> WakesLast(j.q))
      && (!Agrees(j) && (!j.psm.disableMonitor || j.phase == Asked(true)) ==> j.q.active != [])
  }

  /** The steps that spoil it. */
  predicate Upsets(j: Joint, m: Move) {
    && !j.spinning
    && match m
       case Late(_) => j.phase == Asked(true) && !Redundant(j.q, Sleep)
       case Carry(cancelled) =>
         && cancelled && |j.q.active| == 1 && j.q.active[0].id.Sleep?
         && j.psm.work == Act && !j.psm.disableMonitor
       case Machine(s) => Unsuccessful(j.psm, s)
       case _ => false
  }

  /** An exchange rolled back, or a wait that ends unanswered. */
  predicate Unsuccessful(p: Psm, s: PsmMachine.Step) {
    (s.Telling? && s.a.ROLL_BACK?) || (s.Waking? && p.waiting && !p.sleepEn && !p.wakeupEn)
  }

  lemma PutShape(q: Queues, op: Op)
    requires |q.active| <= 2 && (q.last.Valid? ==> TailFolded(q))
    ensures var t := PutActive(q, op);
            && t.last == q.last
            && (Stalls(q, op) ==> q.last.Invalid? && t.active != [])
            && (!Stalls(q, op) ==> |t.active| <= 2)
            && (q.last.Valid? ==> TailFolded(t))
            && (t.active == [] <==> q.active == [] && Redundant(q, op.id))
            && EndsIn(t, op.id)
            && (q.last == LastOp.Valid(Sleep) && WakesFirst(q) ==> WakesFirst(t))
  {
    hide PutRing, PutRings;
  }

  lemma QueuedOrderly(j: Joint, op: Op)
    requires Orderly(j) && !j.spinning
    ensures Orderly(Queued(j, op))
  {
    PutShape(j.q, op);
    hide PutActive, Stalls, Prompt, TailFolded, WakesFirst;
  }

  lemma MachineOrderly(j: Joint, s: PsmMachine.Step)
    requires Orderly(j) && !Unsuccessful(j.psm, s)
    ensures Orderly(Perform(j, Machine(s)))
    ensures Mended(j) ==> Mended(Perform(j, Machine(s)))
  {
    hide TailFolded, WakesFirst, WakesLast;
  }

  lemma CarryOrderly(j: Joint, cancelled: bool)
    requires Orderly(j)
    ensures Orderly(Perform(j, Carry(cancelled)))
    ensures Mended(j) && !Upsets(j, Carry(cancelled)) ==> Mended(Perform(j, Carry(cancelled)))
  {}

  lemma MoveOrderly(j: Joint, m: Move)
    requires Orderly(j) && (m.Machine? ==> !Unsuccessful(j.psm, m.step))
    ensures Orderly(Perform(j, m))
  {
    if j.spinning { return; }
    match m {
      case Request(op) => QueuedOrderly(j, op);
      case Late(index) => QueuedOrderly(j, Op(index, Sleep));
      case Ask(index) => QueuedOrderly(j, Op(index, Wakeup));
      case Machine(s) => MachineOrderly(j, s);
      case Carry(cancelled) => CarryOrderly(j, cancelled);
      case Switch(_) =>
      case Clear =>
      case Finish =>
      case GiveUp =>
    }
    hide PutActive, Stalls;
  }

  lemma QueuedMended(j: Joint, op: Op)
    requires Orderly(j) && Mended(j) && !j.spinning
    requires j.phase == Asked(true) && op.id.Sleep? ==> Redundant(j.q, Sleep)
    ensures Mended(Queued(j, op))
  {
    PutShape(j.q, op);
    hide PutActive, Stalls, Prompt, TailFolded;
  }

  lemma AskMended(j: Joint, index: nat)
    requires Orderly(j) && !j.spinning && (j.phase.Drained? || j.phase.Asked?)
    ensures Mended(Perform(j, Ask(index)))
  {
    PutShape(j.q, Op(index, Wakeup));
    hide PutActive, Stalls, Prompt, TailFolded;
  }

  lemma MoveMended(j: Joint, m: Move)
    requires Orderly(j) && Mended(j) && !Upsets(j, m)
    ensures Mended(Perform(j, m))
  {
    if j.spinning { return; }
    match m {
      case Request(op) => if !(op.id.Sleep? && j.psm.disableMonitor) { QueuedMended(j, op); }
      case Late(index) => QueuedMended(j, Op(index, Sleep));
      case Ask(index) => if j.phase.Drained? || j.phase.Asked? { AskMended(j, index); }
      case Machine(s) => MachineOrderly(j, s);
      case Carry(cancelled) => CarryOrderly(j, cancelled);
      case Switch(_) =>
      case Clear =>
      case Finish =>
      case GiveUp =>
    }
    hide PutActive, Stalls;
  }

  predicate Smooth(j: Joint, ms: seq<Move>)
    decreases |ms|
  {
    ms != [] ==> !Upsets(j, ms[0]) && Smooth(Perform(j, ms[0]), ms[1..])
  }

  lemma {:induction false} SmoothKeeps(j: Joint, ms: seq<Move>)
    requires Orderly(j) && Mended(j) && Smooth(j, ms)
    ensures Orderly(PerformAll(j, ms)) && Mended(PerformAll(j, ms))
    decreases |ms|
  {
    if ms != [] {
      SmoothStep(j, ms[0]);
      hide Orderly, Mended, Perform, Upsets;
      SmoothKeeps(Perform(j, ms[0]), ms[1..]);
    }
  }

  lemma SmoothStep(j: Joint, m: Move)
    requires Orderly(j) && Mended(j) && !Upsets(j, m)
    ensures Orderly(Perform(j, m)) && Mended(Perform(j, m))
  {
    if j.spinning { return; }
    MoveMended(j, m);
    MoveOrderly(j, m);
  }

  // ---------- what it is for ----------

  /** A request folded away now, with nothing pending, would have told WMT nothing. */
  ghost predicate FoldsRightly(j: Joint, id: OpId) {
    j.q.active == [] && Redundant(j.q, id) ==> NotifyWmt(j.psm, ActionOf(id)).notified == []
  }

  lemma MendedFolds(j: Joint, id: OpId)
    requires Orderly(j) && Mended(j)
    ensures FoldsRightly(j, id)
  {}

  /** After a reset, with the monitor off as the reset leaves it or on as at first start. */
  function AfterReset(monitorOn: bool): Joint {
    Joint(Start(), Fresh().(disableMonitor := !monitorOn), Steady, false)
  }

  /** In every run from a reset without an upsetting step, a request folded away with nothing pending was redundant:
      sleeps refused while the monitor is off do no harm, as the call that switches it on asks for a wake-up first. */
  lemma FoldedAwayRedundant(monitorOn: bool, ms: seq<Move>, id: OpId)
    requires Smooth(AfterReset(monitorOn), ms)
    ensures FoldsRightly(PerformAll(AfterReset(monitorOn), ms), id)
  {
    hide Smooth, PerformAll, FoldsRightly;
    SmoothKeeps(AfterReset(monitorOn), ms);
    MendedFolds(PerformAll(AfterReset(monitorOn), ms), id);
  }

  /** So it will stay, whatever follows without an upsetting step. */
  ghost predicate Harmless(j: Joint) {
    forall ms, id :: Smooth(j, ms) ==> FoldsRightly(PerformAll(j, ms), id)
  }

  lemma MendedHarmless(j: Joint)
    requires Orderly(j) && Mended(j)
    ensures Harmless(j)
  {
    hide Orderly, Mended, Smooth, PerformAll, FoldsRightly;
    forall ms, id | Smooth(j, ms) ensures FoldsRightly(PerformAll(j, ms), id) {
      SmoothKeeps(j, ms);
      MendedFolds(PerformAll(j, ms), id);
    }
  }

  lemma HarmAtOnce(j: Joint, none: seq<Move>, id: OpId)
    requires !FoldsRightly(j, id) && none == []
    ensures !Harmless(j)
  {
    hide FoldsRightly;
    assert Smooth(j, none) && PerformAll(j, none) == j;
  }

  /** Harm that a step leads to is harm before it. */
  lemma HarmAhead(j: Joint, m: Move)
    requires !Upsets(j, m) && !Harmless(Perform(j, m))
    ensures !Harmless(j)
  {
    hide FoldsRightly, Upsets, Perform;
    var ms, id :| Smooth(Perform(j, m), ms) && !FoldsRightly(PerformAll(Perform(j, m), ms), id);
    var all := [m] + ms;
    assert all[0] == m && all[1..] == ms;
    assert Smooth(j, all) && PerformAll(j, all) == PerformAll(Perform(j, m), ms);
  }

  /** A sleep refused, with the enable call about to finish and nothing pending. */
  lemma HarmForgotten(j: Joint)
    requires Orderly(j) && !j.spinning && !Agrees(j) && j.q.active == []
    requires !j.psm.disableMonitor || j.phase == Asked(true)
    ensures !Harmless(j)
  {
    hide Harmless;
    if j.psm.disableMonitor {
      var t := Perform(j, Finish);
      HarmAtOnce(t, [], Sleep);
      HarmAhead(j, Finish);
    } else {
      HarmAtOnce(j, [], Sleep);
    }
  }

  /** The answer that ends the wait. */
  lemma HarmAnswered(j: Joint)
    requires Orderly(j) && !j.spinning && j.psm.waiting
    requires var a := if j.psm.work == ActInact then SLEEP else WAKEUP;
             !Harmless(Perform(Perform(j, Machine(Telling(a))), Machine(Waking)))
    ensures !Harmless(j)
  {
    var a := if j.psm.work == ActInact then SLEEP else WAKEUP;
    hide Harmless;
    HarmAhead(Perform(j, Machine(Telling(a))), Machine(Waking));
    HarmAhead(j, Machine(Telling(a)));
  }

  /** With the chip awake a sleep at the end of the queue is refused, after all that is before it. */
  lemma {:induction false} HarmAwake(j: Joint)
    requires Orderly(j) && !j.spinning && j.phase == Asked(true) && !WakesLast(j.q)
    requires j.psm.work == Act
    ensures !Harmless(j)
    decreases |j.q.active|
  {
    hide Harmless;
    var t := Perform(j, Carry(false));
    CarryOrderly(j, false);
    if |j.q.active| == 1 {
      HarmForgotten(t);
    } else {
      HarmAwake(t);
    }
    HarmAhead(j, Carry(false));
  }

  lemma HarmComing(j: Joint)
    requires Orderly(j) && !j.spinning && j.phase == Asked(true) && !WakesLast(j.q)
    ensures !Harmless(j)
  {
    hide Harmless;
    match j.psm.work {
      case Act => HarmAwake(j);
      case InactAct => HarmWaking(j);
      case Inact => HarmAsleep(j);
      case ActInact =>
        var t := Perform(Perform(j, Machine(Telling(SLEEP))), Machine(Waking));
        MachineOrderly(j, Telling(SLEEP));
        MachineOrderly(Perform(j, Machine(Telling(SLEEP))), Waking);
        HarmAsleep(t);
        HarmAnswered(j);
    }
  }

  lemma HarmWaking(j: Joint)
    requires Orderly(j) && !j.spinning && j.phase == Asked(true) && !WakesLast(j.q)
    requires j.psm.work == InactAct
    ensures !Harmless(j)
  {
    hide Harmless;
    var t := Perform(Perform(j, Machine(Telling(WAKEUP))), Machine(Waking));
    MachineOrderly(j, Telling(WAKEUP));
    MachineOrderly(Perform(j, Machine(Telling(WAKEUP))), Waking);
    HarmAwake(t);
    HarmAnswered(j);
  }

  /** Asleep, the head of the queue is a wake-up. */
  lemma HarmAsleep(j: Joint)
    requires Orderly(j) && !j.spinning && j.phase == Asked(true) && !WakesLast(j.q)
    requires j.psm.work == Inact
    ensures !Harmless(j)
  {
    hide Harmless;
    CarryOrderly(j, false);
    HarmWaking(Perform(j, Carry(false)));
    HarmAhead(j, Carry(false));
  }

  /** Exactly the mended states are harmless. */
  lemma HarmlessExactly(j: Joint)
    requires Orderly(j)
    ensures Harmless(j) <==> Mended(j)
  {
    hide Harmless;
    if Mended(j) {
      MendedHarmless(j);
    } else if j.phase == Asked(true) && !WakesLast(j.q) {
      HarmComing(j);
    } else {
      HarmForgotten(j);
    }
  }

  /** And each upsetting request or cancellation does upset: a sleep request that made its test before an enable call
      and is queued after that call has asked for its wake-up, and a sleep op cancelled with the monitor on and nothing
      behind it. Anything else stays harmless. */
  lemma UpsetsExactly(j: Joint, m: Move)
    requires Orderly(j) && Mended(j) && !m.Machine?
    ensures Harmless(Perform(j, m)) <==> !Upsets(j, m)
  {
    hide Harmless;
    MoveOrderly(j, m);
    HarmlessExactly(Perform(j, m));
    if Upsets(j, m) {
      UpsetSpoils(j, m);
    } else {
      MoveMended(j, m);
    }
  }

  lemma UpsetSpoils(j: Joint, m: Move)
    requires Orderly(j) && Mended(j) && !m.Machine? && Upsets(j, m)
    ensures !Mended(Perform(j, m))
  {
    if m.Late? {
      PutShape(j.q, Op(m.index, Sleep));
      StallsExactly(j.q, Op(m.index, Sleep));
      hide PutActive, Stalls;
    }
  }

  // ---------- it happens ----------

  /** The chip is awake and the monitor on, and a sleep request is folded away that would have been carried out. */
  ghost predicate Forgotten(j: Joint) {
    && !j.spinning && !j.psm.waiting && !j.psm.disableMonitor && j.psm.work == Act
    && j.q.active == [] && Redundant(j.q, Sleep) && NotifyWmt(j.psm, SLEEP).notified == [SLEEP]
  }

  lemma PerformTwo(j: Joint, ms: seq<Move>)
    requires |ms| >= 2
    ensures PerformAll(j, ms) == PerformAll(Perform(Perform(j, ms[0]), ms[1]), ms[2..])
  {
    hide Perform;
    assert ms[1..][1..] == ms[2..];
  }

  lemma PerformOne(j: Joint, m: Move)
    ensures PerformAll(j, [m]) == Perform(j, m)
  {
    hide Perform;
    assert [m][1..] == [];
  }

  lemma PutAlone(q: Queues, op: Op)
    requires q.active == [] && !Redundant(q, op.id)
    ensures PutActive(q, op).active == [op] && PutActive(q, op).last == q.last && !Stalls(q, op)
  {
    hide PutRing, PutRings;
  }

  /** A sleep request of another thread tests the bit, then an enable call sets it, empties the queue and asks for its
      wake-up; the thread takes that, then the sleep, and refuses it; the call ends. */
  lemma SleepTestedEarlier()
    ensures Forgotten(PerformAll(AfterReset(true),
                                 [Switch(true), Clear, Ask(0), Carry(false), Late(1), Carry(false), Finish]))
  {
    var ms := [Switch(true), Clear, Ask(0), Carry(false), Late(1), Carry(false), Finish];
    var j2 := Perform(Perform(AfterReset(true), ms[0]), ms[1]);
    var j4 := Perform(Perform(j2, ms[2]), ms[3]);
    WokenByEnable();
    LateRefused(j4);
    hide *;
    PerformTwo(AfterReset(true), ms);
    PerformTwo(j2, ms[2..]);
    PerformTwo(j4, ms[2..][2..]);
    PerformOne(Perform(Perform(j4, ms[4]), ms[5]), Finish);
    assert ms[2..][2..][2..] == [Finish];
  }

  lemma WokenByEnable()
    ensures var j := Perform(Perform(Perform(Perform(AfterReset(true), Switch(true)), Clear), Ask(0)), Carry(false));
            j.q.active == [] && j.q.last == LastOp.Valid(Wakeup) && j.phase == Asked(true) && !j.spinning
            && j.psm == Fresh().(disableMonitor := true)
  {
    var j := Perform(Perform(AfterReset(true), Switch(true)), Clear);
    assert j.q.active == [] && j.q.last.Invalid? && j.phase == Drained(true);
    PutAlone(j.q, Op(0, Wakeup));
    hide PutActive, Stalls, Start;
  }

  lemma LateRefused(j: Joint)
    requires j.q.active == [] && j.q.last == LastOp.Valid(Wakeup) && j.phase == Asked(true) && !j.spinning
    requires j.psm == Fresh().(disableMonitor := true)
    ensures Forgotten(Perform(Perform(Perform(j, Late(1)), Carry(false)), Finish))
  {
    PutAlone(j.q, Op(1, Sleep));
    hide PutActive, Stalls, Start;
  }

  /** A sleep op taken while sleeping is cancelled. */
  lemma SleepCancelled()
    ensures Forgotten(PerformAll(AfterReset(true), [Request(Op(0, Sleep)), Carry(true)]))
  {
    var ms := [Request(Op(0, Sleep)), Carry(true)];
    PutAlone(AfterReset(true).q, Op(0, Sleep));
    hide PutActive, Stalls, Start;
    PerformTwo(AfterReset(true), ms);
  }
}
