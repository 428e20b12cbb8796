/** The power-save state machine: its four states and event flags, the notifications it exchanges with the WMT
    thread, and the gate it puts on traffic. Held packets are whole records here; HoldFifo has their bytes. */
module PsmMachine {
  import opened HoldFifo
  import Ops = PsmOps

  datatype Work = Act | ActInact | Inact | InactAct

  datatype Action = SLEEP | HOST_AWAKE | WAKEUP | EIRQ | ROLL_BACK

  /** What the thread's handler makes of an op. */
  function ActionOf(op: Ops.OpId): Action {
    match op case Sleep => SLEEP case Wakeup => WAKEUP case HostAwake => HOST_AWAKE
  }

  datatype Psm = Psm(
    work: Work,
    blockData: bool,
    sleepEn: bool,
    wakeupEn: bool,
    rollBackEn: bool,
    disableMonitor: bool,
    waiting: bool,          // the thread has notified WMT and waits, holding the thread lock
    held: seq<Packet>,
    sent: seq<Packet>)      // handed to the sender, oldest first

  datatype Told = Told(psm: Psm, notified: seq<Action>, ok: bool)

  function SetState(p: Psm, s: Work): Psm {
    p.(work := s, blockData := p.blockData || s != Act)
  }

  function ReleaseHeld(p: Psm): Psm {
    var n := Min(RELEASE_MAX, |p.held|);
    p.(sent := p.sent + p.held[..n], held := p.held[n..])
  }

  /** What WMT reports back. An EIRQ queues a host-awake op and is refused here. */
  function NotifyStp(p: Psm, a: Action): Told {
    if a.EIRQ? then Told(p, [], false)
    else match p.work
      case ActInact =>
        if a.SLEEP? then Told(p.(wakeupEn := false, sleepEn := true), [], true)
        else if a.ROLL_BACK? then Told(p.(rollBackEn := true), [], true)
        else Told(p, [], false)
      case InactAct =>
        if a.WAKEUP? || a.HOST_AWAKE? then Told(p.(sleepEn := false, wakeupEn := true), [], true)
        else if a.ROLL_BACK? then Told(p.(rollBackEn := true), [], true)
        else Told(p, [], false)
      case Inact => Told(p, [], false)
      case Act => Told(p, [], false)
  }

  /** The thread carries out an op. What it tells WMT is in `notified`; it then waits for the answer. */
  function NotifyWmt(p: Psm, a: Action): Told {
    match p.work
    case Act =>
      if a.SLEEP? then
        if p.disableMonitor then Told(p, [], false)
        else Told(ReleaseHeld(SetState(p, ActInact)).(waiting := true), [SLEEP], true)
      else if a.WAKEUP? || a.HOST_AWAKE? then Told(ReleaseHeld(p), [], true)
      else Told(p, [], false)
    case Inact =>
      if a.WAKEUP? || a.HOST_AWAKE? then Told(SetState(p, InactAct).(waiting := true), [a], true)
      else if a.SLEEP? then Told(p, [], true)
      else Told(p, [], false)
    case ActInact => Told(p, [], false)
    case InactAct => Told(p, [], false)
  }

  /** The wait ends, by an event or by its timeout. */
  function Awaken(p: Psm): Psm {
    var q := p.(waiting := false);
    if p.wakeupEn then SetState(ReleaseHeld(q.(wakeupEn := false)).(blockData := false), Act)
    else if p.sleepEn then SetState(q.(sleepEn := false), Inact)
    else if p.rollBackEn then
      if p.work.ActInact? then SetState(ReleaseHeld(q.(rollBackEn := false)).(blockData := false), Act)
      else if p.work.InactAct? then SetState(q.(rollBackEn := false), Inact)
      else q.(rollBackEn := false)
    else q
  }

  /** A client other than WMT sends a packet. */
  function Offer(p: Psm, x: Packet): Psm {
    if p.blockData then p.(held := Kept(p.held, x))
    else
      var q := if p.held != [] then ReleaseHeld(p) else p;
      q.(sent := q.sent + [x])
  }

  function Reset(p: Psm): Psm {
    SetState(Psm(p.work, false, false, false, false, true, p.waiting, [], p.sent), Act)
  }

  // ---------- the driver's object ----------

  class StpPsm {
    var workState: Work
    var blockDataEn: bool
    var sleepEn: bool
    var wakeupEn: bool
    var rollBackEn: bool
    var disableMonitor: bool
    ghost var waiting: bool
    var held: seq<Packet>
    var sent: seq<Packet>
    var notified: seq<Action>   // every wmt_notify call so far

    ghost function State(): Psm
      reads this
    {
      Psm(workState, blockDataEn, sleepEn, wakeupEn, rollBackEn, disableMonitor, waiting, held, sent)
    }

    constructor ()
      ensures State() == Fresh() && notified == []
    {
      workState := Act;
      blockDataEn, sleepEn, wakeupEn, rollBackEn, disableMonitor := false, false, false, false, false;
      waiting, held, sent, notified := false, [], [], [];
    }

    method SetWorkState(s: Work)
      modifies this`workState, this`blockDataEn
      ensures State() == SetState(old(State()), s)
    {
      workState := s;
      if workState != Act {
        blockDataEn := true;
      }
    }

    method ReleaseData()
      modifies this`held, this`sent
      ensures State() == ReleaseHeld(old(State()))
    {
      var i := RELEASE_MAX;
      ghost var was, whole := State(), held;
      while held != [] && i > 0
        invariant 0 <= i <= RELEASE_MAX
        invariant var n := RELEASE_MAX - i;
                  n <= |whole| && held == whole[n..] && sent == was.sent + whole[..n]
      {
        sent := sent + [held[0]];
        held := held[1..];
        i := i - 1;
      }
    }

    method TellStp(action: Action) returns (ok: bool)
      modifies this`sleepEn, this`wakeupEn, this`rollBackEn
      ensures var t := NotifyStp(old(State()), action);
              State() == t.psm && ok == t.ok
    {
      ok := false;
      if action.EIRQ? {
        return;
      }
      if workState.ActInact? {
        if action.SLEEP? {
          wakeupEn := false;
          sleepEn := true;
          ok := true;
        } else if action.ROLL_BACK? {
          rollBackEn := true;
          ok := true;
        }
      } else if workState.InactAct? {
        if action.WAKEUP? || action.HOST_AWAKE? {
          sleepEn := false;
          wakeupEn := true;
          ok := true;
        } else if action.ROLL_BACK? {
          rollBackEn := true;
          ok := true;
        }
      }
    }

    method TellWmt(action: Action) returns (ok: bool)
      modifies this
      ensures var t := NotifyWmt(old(State()), action);
              State() == t.psm && notified == old(notified) + t.notified && ok == t.ok
    {
      ok := true;
      if workState.Act? {
        if action.SLEEP? {
          if disableMonitor {
            return false;
          }
          SetWorkState(ActInact);
          ReleaseData();
          notified := notified + [SLEEP];
          waiting := true;
        } else if action.WAKEUP? || action.HOST_AWAKE? {
          ReleaseData();
        } else {
          ok := false;
        }
      } else if workState.Inact? {
        if action.WAKEUP? {
          SetWorkState(InactAct);
          notified := notified + [WAKEUP];
          waiting := true;
        } else if action.HOST_AWAKE? {
          SetWorkState(InactAct);
          notified := notified + [HOST_AWAKE];
          waiting := true;
        } else if !action.SLEEP? {
          ok := false;
        }
      } else {
        ok := false;
      }
    }

    /** What follows the wait for WMT's answer. */
    method WaitWmtEvent()
      modifies this
      ensures State() == Awaken(old(State())) && notified == old(notified)
    {
      waiting := false;
      if wakeupEn {
        wakeupEn := false;
        ReleaseData();
        blockDataEn := false;
        SetWorkState(Act);
      } else if sleepEn {
        sleepEn := false;
        SetWorkState(Inact);
      } else if rollBackEn {
        rollBackEn := false;
        if workState.ActInact? {
          ReleaseData();
          blockDataEn := false;
          SetWorkState(Act);
        } else if workState.InactAct? {
          SetWorkState(Inact);
        }
      }
    }

    /** The gate in front of the sender. */
    method SendData(x: Packet)
      modifies this`held, this`sent
      ensures State() == Offer(old(State()), x)
    {
      if !blockDataEn {
        if held != [] {
          ReleaseData();
        }
        sent := sent + [x];
      } else {
        held := Kept(held, x);
      }
    }
  }

  function Fresh(): Psm {
    Psm(Act, false, false, false, false, false, false, [], [])
  }

  // ---------- what every run keeps ----------

  /** One lock-held region each. While the thread waits it holds the lock that an op and a send take. */
  datatype Step =
    | Handling(a: Action)
    | Telling(a: Action)
    | Waking
    | Offering(x: Packet)
    | Monitoring(on: bool)
    | Resetting

  function Next(p: Psm, s: Step): Psm {
    match s
    case Handling(a) => if p.waiting then p else NotifyWmt(p, a).psm
    case Telling(a) => NotifyStp(p, a).psm
    case Waking => if p.waiting then Awaken(p) else p
    case Offering(x) => if p.waiting then p else Offer(p, x)
    case Monitoring(on) => p.(disableMonitor := !on)
    case Resetting => if p.waiting then p else Reset(p)
  }

  function Run(p: Psm, steps: seq<Step>): Psm
    decreases |steps|
  {
    if steps == [] then p else Run(Next(p, steps[0]), steps[1..])
  }

  /** Traffic is blocked exactly outside ACT, and an answer is pending only in the state that asked for it. */
  ghost predicate Gated(p: Psm) {
    && (p.blockData <==> p.work != Act)
    && !(p.sleepEn && p.wakeupEn)
    && (p.sleepEn ==> p.work == ActInact)
    && (p.wakeupEn ==> p.work == InactAct)
    && (p.waiting ==> p.work == ActInact || p.work == InactAct)
  }

  lemma NextGated(p: Psm, s: Step)
    requires Gated(p)
    ensures Gated(Next(p, s))
  {
    hide Kept;
  }

  lemma {:induction false} RunGated(p: Psm, steps: seq<Step>)
    requires Gated(p)
    ensures Gated(Run(p, steps))
    decreases |steps|
  {
    hide Gated, Next;
    if steps != [] {
      NextGated(p, steps[0]);
      RunGated(Next(p, steps[0]), steps[1..]);
    }
  }

  /** The chip is taken for asleep only after a sleep WMT confirmed, or a wake-up WMT rolled back. */
  lemma InactEntered(p: Psm, s: Step)
    requires Gated(p) && p.work != Inact && Next(p, s).work == Inact
    ensures s == Waking && p.waiting
    ensures (p.work == ActInact && p.sleepEn) || (p.work == InactAct && p.rollBackEn && !p.wakeupEn)
  {
    hide Kept;
  }

  /** A client's packet is sent at once only in ACT, behind the oldest held ones; otherwise it is held. */
  lemma OfferedInAct(p: Psm, x: Packet)
    requires Gated(p)
    ensures var q, n := Offer(p, x), Min(RELEASE_MAX, |p.held|);
            if p.work == Act then q.sent == p.sent + p.held[..n] + [x] && q.held == p.held[n..]
            else q.sent == p.sent && q.held == Kept(p.held, x)
  {
    hide Kept;
    if p.work == Act && p.held == [] {
      assert p.held[..0] == [] && p.held[0..] == [];
      assert p.sent + [] == p.sent;
    }
  }

  // ---------- order of traffic ----------

  lemma {:induction false} Rotate<T>(x: T, r: seq<T>)
    requires [x] + r == r + [x]
    ensures forall k :: 0 <= k < |r| ==> r[k] == x
    decreases |r|
  {
    if r != [] {
      assert ([x] + r)[0] == (r + [x])[0] == r[0];
      assert [x] + r == [r[0]] + ([x] + r[1..]);
      assert r + [x] == [r[0]] + (r[1..] + [x]);
      assert ([x] + r)[1..] == [x] + r[1..];
      Rotate(x, r[1..]);
      forall k | 0 < k < |r| ensures r[k] == x { assert r[k] == r[1..][k - 1]; }
    }
  }

  /** Inserting before a tail is appending to it exactly when the tail is nothing but copies. */
  lemma Insertion<T>(pre: seq<T>, x: T, r: seq<T>)
    ensures pre + [x] + r == pre + r + [x] <==> forall k :: 0 <= k < |r| ==> r[k] == x
  {
    if pre + [x] + r == pre + r + [x] {
      assert [x] + r == (pre + [x] + r)[|pre|..] && r + [x] == (pre + r + [x])[|pre|..];
      Rotate(x, r);
    }
  }

  /** Packets offered stay in order, in front of the gate and behind it, exactly while a direct send overtakes none
      (a release lets through only twenty) and the FIFO has room. */
  lemma OfferKeepsOrder(p: Psm, x: Packet)
    requires Gated(p)
    ensures var q := Offer(p, x);
            q.sent + q.held == p.sent + p.held + [x] <==>
              if p.work == Act then forall k :: RELEASE_MAX <= k < |p.held| ==> p.held[k] == x
              else |Records(p.held)| + |x.payload| + 7 <= FIFO_SIZE || p.held == []
  {
    hide Records;
    if p.work == Act {
      var n := Min(RELEASE_MAX, |p.held|);
      var r := p.held[n..];
      Insertion(p.sent + p.held[..n], x, r);
      assert p.sent + p.held == p.sent + p.held[..n] + r;
      assert (forall k :: 0 <= k < |r| ==> r[k] == x) <==> (forall k :: n <= k < |p.held| ==> p.held[k] == x) by {
        assert forall k :: n <= k < |p.held| ==> p.held[k] == r[k - n];
      }
    } else {
      assert p.sent + p.held + [x] == p.sent + (p.held + [x]);
      assert |p.sent + [x]| == |p.sent| + 1;
    }
  }

  /** The traffic is as it was, or as a release leaves it. */
  ghost predicate AtMostReleased(p: Psm, q: Psm) {
    || (q.held == p.held && q.sent == p.sent)
    || (q.held == ReleaseHeld(p).held && q.sent == ReleaseHeld(p).sent)
  }

  lemma NotifyWmtReleases(p: Psm, a: Action)
    ensures AtMostReleased(p, NotifyWmt(p, a).psm)
  {}

  lemma AwakenReleases(p: Psm)
    ensures AtMostReleased(p, Awaken(p))
  {}

  lemma ReleaseKeepsOrder(p: Psm)
    ensures var q := ReleaseHeld(p);
            q.sent + q.held == p.sent + p.held && p.sent <= q.sent
  {
    var n := Min(RELEASE_MAX, |p.held|);
    assert p.sent + p.held == p.sent + p.held[..n] + p.held[n..];
  }

  /** No other step reorders, and only a reset discards. */
  lemma OthersKeepOrder(p: Psm, s: Step)
    requires !s.Offering? && !s.Resetting?
    ensures var q := Next(p, s);
            q.sent + q.held == p.sent + p.held && p.sent <= q.sent
  {
    ReleaseKeepsOrder(p);
    hide ReleaseHeld, NotifyWmt, Awaken, Offer, Reset;
    match s {
      case Handling(a) => NotifyWmtReleases(p, a);
      case Waking => AwakenReleases(p);
      case Telling(_) =>
      case Monitoring(_) =>
    }
  }

  /** The steps that let held traffic through: entering ACT, leaving it, and an op to wake up carried out in it. */
  predicate Lets(p: Psm, s: Step) {
    var q := Next(p, s);
    || (p.work != Act && q.work == Act)
    || (p.work == Act && q.work != Act)
    || (p.work == Act && s.Handling? && (s.a.WAKEUP? || s.a.HOST_AWAKE?))
  }

  /** They send the twenty oldest, or all, and no other step but a client's packet or a reset touches the traffic. */
  lemma ReleasedExactly(p: Psm, s: Step)
    requires Gated(p) && !s.Offering? && !s.Resetting?
    ensures var q, n := Next(p, s), Min(20, |p.held|);
            if Lets(p, s) then q.sent == p.sent + p.held[..n] && q.held == p.held[n..]
            else q.sent == p.sent && q.held == p.held
  {
    hide Kept;
  }

  /** n ops to wake up a chip that is awake let 20 * n held packets out, in order. */
  lemma {:induction false} WakeupsDrain(p: Psm, n: nat)
    requires Gated(p) && p.work == Act
    ensures var q, k := Run(p, Copies(n, Handling(WAKEUP))), Min(20 * n, |p.held|);
            q.sent == p.sent + p.held[..k] && q.held == p.held[k..] && q.work == Act
    decreases n
  {
    var steps := Copies(n, Handling(WAKEUP));
    if n == 0 {
      assert p.sent + p.held[..0] == p.sent;
    } else {
      var q, m := Next(p, steps[0]), Min(20, |p.held|);
      ReleasedExactly(p, steps[0]);
      NextGated(p, steps[0]);
      assert q.work == Act;
      assert steps[1..] == Copies(n - 1, Handling(WAKEUP));
      hide Next, Gated;
      WakeupsDrain(q, n - 1);
      var k, j := Min(20 * n, |p.held|), Min(20 * (n - 1), |q.held|);
      assert k == m + j;
      assert p.held[..k] == p.held[..m] + q.held[..j];
      assert p.sent + p.held[..m] + q.held[..j] == p.sent + (p.held[..m] + q.held[..j]);
    }
  }

  // ---------- what WMT's reports lead to ----------

  function Reported(p: Psm, rs: seq<Action>): Psm
    decreases |rs|
  {
    if rs == [] then p else Reported(Next(p, Telling(rs[0])), rs[1..])
  }

  lemma {:induction false} ReportsAdd(p: Psm, rs: seq<Action>)
    requires Gated(p) && p.waiting
    ensures var q := Reported(p, rs);
            && q == p.(sleepEn := q.sleepEn, wakeupEn := q.wakeupEn, rollBackEn := q.rollBackEn)
            && (q.sleepEn <==> p.sleepEn || (p.work == ActInact && SLEEP in rs))
            && (q.wakeupEn <==> p.wakeupEn || (p.work == InactAct && (WAKEUP in rs || HOST_AWAKE in rs)))
            && (q.rollBackEn <==> p.rollBackEn || ROLL_BACK in rs)
    decreases |rs|
  {
    if rs != [] {
      var q := Next(p, Telling(rs[0]));
      NextGated(p, Telling(rs[0]));
      assert forall a :: a in rs <==> a == rs[0] || a in rs[1..];
      ReportsAdd(q, rs[1..]);
    }
  }

  /** A sleep op, whatever WMT reports meanwhile and in whatever order: INACT when the sleep is among the reports, back
      to ACT when only a roll-back is, and otherwise the wait ends where it was. */
  lemma SleepOutcome(p: Psm, rs: seq<Action>)
    requires Gated(p) && p.work == Act && !p.disableMonitor && !p.rollBackEn
    ensures var q := Next(Reported(Next(p, Handling(SLEEP)), rs), Waking);
            && q.work == (if SLEEP in rs then Inact else if ROLL_BACK in rs then Act else ActInact)
            && (q.blockData <==> q.work != Act)
            && !q.sleepEn && !q.wakeupEn && (q.rollBackEn <==> SLEEP in rs && ROLL_BACK in rs)
  {
    NextGated(p, Handling(SLEEP));
    ReportsAdd(Next(p, Handling(SLEEP)), rs);
    hide Reported, Kept;
  }

  /** And an op to wake up: ACT when a wake-up is among the reports, back to INACT when only a roll-back is. */
  lemma WakeOutcome(p: Psm, a: Action, rs: seq<Action>)
    requires Gated(p) && p.work == Inact && !p.rollBackEn && (a == WAKEUP || a == HOST_AWAKE)
    ensures var woken := WAKEUP in rs || HOST_AWAKE in rs;
            var q := Next(Reported(Next(p, Handling(a)), rs), Waking);
            && q.work == (if woken then Act else if ROLL_BACK in rs then Inact else InactAct)
            && (q.blockData <==> q.work != Act)
            && !q.sleepEn && !q.wakeupEn && (q.rollBackEn <==> woken && ROLL_BACK in rs)
  {
    NextGated(p, Handling(a));
    ReportsAdd(Next(p, Handling(a)), rs);
    hide Reported, Kept;
  }

  /** An op fails exactly when it is a sleep turned down, comes while an exchange is under way, or is no op of the
      queue. WMT is told of it, with that very action, exactly when it sets out to change the state. */
  lemma OpAnswered(p: Psm, a: Action)
    ensures var t := NotifyWmt(p, a);
            && (t.ok <==>
                 && (a == SLEEP || a == WAKEUP || a == HOST_AWAKE) && (p.work == Act || p.work == Inact)
                 && !(a == SLEEP && p.work == Act && p.disableMonitor))
            && t.notified == (if t.psm.work != p.work then [a] else [])
            && (t.psm.work != p.work <==>
                 || (p.work == Act && a == SLEEP && !p.disableMonitor)
                 || (p.work == Inact && (a == WAKEUP || a == HOST_AWAKE)))
  {}

  /** After a reset the gate is open with nothing behind it, no report is pending, and no op puts the chip to sleep. */
  lemma ResetOpens(p: Psm, x: Packet, a: Action)
    requires Gated(p) && !p.waiting
    ensures var q := Next(p, Resetting);
            && Gated(q) && !q.sleepEn && !q.wakeupEn && !q.rollBackEn
            && Offer(q, x).sent == p.sent + [x] && Offer(q, x).held == []
            && Next(q, Handling(a)).work == Act
  {}

  lemma {:induction false} RunAppend(p: Psm, a: seq<Step>, b: seq<Step>)
    ensures Run(p, a + b) == Run(Run(p, a), b)
    decreases |a|
  {
    hide Next;
    if a == [] {
      assert a + b == b;
    } else {
      assert (a + b)[1..] == a[1..] + b;
      RunAppend(Next(p, a[0]), a[1..], b);
    }
  }

  lemma RunThree(p: Psm, a: Step, b: Step, c: Step)
    ensures Run(p, [a, b, c]) == Next(Next(Next(p, a), b), c)
  {
    hide Next;
    assert [a, b, c][1..] == [b, c] && [b, c][1..] == [c] && [c][1..] == [];
    var q := Next(Next(p, a), b);
    assert Run(p, [a, b, c]) == Run(Next(p, a), [b, c]);
    assert Run(Next(p, a), [b, c]) == Run(q, [c]);
    assert Run(q, [c]) == Run(Next(q, c), []);
  }

  const GO_TO_SLEEP: seq<Step> := [Handling(SLEEP), Telling(SLEEP), Waking]
  const WAKE_AGAIN: seq<Step> := [Handling(WAKEUP), Telling(WAKEUP), Waking]

  function Copies<T>(n: nat, x: T): (s: seq<T>)
    ensures |s| == n && forall k :: 0 <= k < n ==> s[k] == x
  {
    seq(n, _ => x)
  }

  lemma {:induction false} CopiesHeld(p: Psm, x: Packet, n: nat)
    requires p.blockData && !p.waiting && |Records(p.held)| + n * (|x.payload| + 7) <= FIFO_SIZE
    ensures Run(p, Copies(n, Offering(x))) == p.(held := p.held + Copies(n, x))
    decreases n
  {
    var steps := Copies(n, Offering(x));
    if n == 0 {
      assert p.held + Copies(n, x) == p.held;
    } else {
      var q := p.(held := p.held + [x]);
      RecordsAppend(p.held, x);
      assert n * (|x.payload| + 7) == (|x.payload| + 7) + (n - 1) * (|x.payload| + 7);
      assert Next(p, steps[0]) == q;
      assert steps[1..] == Copies(n - 1, Offering(x));
      hide Next, Records;
      CopiesHeld(q, x, n - 1);
      assert p.held + [x] + Copies(n - 1, x) == p.held + Copies(n, x);
    }
  }

  /** It happens: 41 small packets held while the chip sleeps, 20 released as it wakes, 20 more by the next direct
      send, which then goes out before the last one. */
  lemma Overtaken(x: Packet, y: Packet)
    requires |x.payload| == 1
    ensures var p := Run(Fresh(), GO_TO_SLEEP + Copies(41, Offering(x)) + WAKE_AGAIN);
            && p.work == Act && p.sent + p.held == Copies(41, x)
            && Offer(p, y).sent == Copies(40, x) + [y] && Offer(p, y).held == [x]
  {
    var a, b := GO_TO_SLEEP, Copies(41, Offering(x));
    RunAppend(Fresh(), a + b, WAKE_AGAIN);
    RunAppend(Fresh(), a, b);
    RunThree(Fresh(), Handling(SLEEP), Telling(SLEEP), Waking);
    var p1 := Run(Fresh(), a);
    assert p1 == Psm(Inact, true, false, false, false, false, false, [], []);
    CopiesHeld(p1, x, 41);
    var p2 := Run(p1, b);
    assert [] + Copies(41, x) == Copies(41, x);
    RunThree(p2, Handling(WAKEUP), Telling(WAKEUP), Waking);
    WokenWith(p2, x, y);
  }

  lemma WokenWith(p: Psm, x: Packet, y: Packet)
    requires p == Psm(Inact, true, false, false, false, false, false, Copies(41, x), [])
    ensures var q := Next(Next(Next(p, Handling(WAKEUP)), Telling(WAKEUP)), Waking);
            && q.work == Act && q.sent + q.held == Copies(41, x)
            && Offer(q, y).sent == Copies(40, x) + [y] && Offer(q, y).held == [x]
  {
    var p2 := Next(Next(p, Handling(WAKEUP)), Telling(WAKEUP));
    assert p2 == Psm(InactAct, true, false, true, false, false, true, Copies(41, x), []);
    var q := Next(p2, Waking);
    assert q.held == Copies(21, x) && q.sent == Copies(20, x) && q.work == Act && !q.blockData;
  }
}
