/** Everything that decides when the chip sleeps, running together: the power-save thread, the WMT thread, the policy
    calls, the wake interrupt and the chip. The power-save thread may be given any op at any time, so the results
    hold whatever the timer and the senders queue and however it is folded. Exchanges the chip understands succeed. */
module PowerSystem {
  import opened PsmMachine
  import opened WmtPower
  import Policies = PsPolicy

  /** What the WMT thread is doing with the power-save request given to it. */
  datatype Wmt =
    | Idle
    | Queued(request: Action)
    | Chosen(request: Action, sent: Action)     // the exchange is decided and on its way to the chip
    | Answered(request: Action, sent: Action)   // the chip has answered
    | Recorded(request: Action)                 // flag and interrupt are updated; the PSM is still to be told

  /** The policy lock: free, or held by a call that has stopped the monitor and waits for ACT; `after` is what it
      leaves when ACT is reached, `otherwise` what it leaves when it gives up. */
  datatype Lock = Free | Forcing(after: Policies.Policy, otherwise: Policies.Policy)

  datatype Sys = Sys(
    psm: Psm,
    policy: Policies.Policy,
    lock: Lock,
    wmt: Wmt,
    wake: Wake,
    asleep: bool,      // the chip
    line: bool)        // the chip's wake line

  /** A fresh driver, with the monitor as initialised (on) or as a PSM reset leaves it (off). */
  function Boot(monitorOn: bool): Sys {
    Sys(Fresh().(disableMonitor := !monitorOn), Policies.Policy(true, 0, false, monitorOn), Free, Idle,
        Wake(false, false), false, false)
  }

  datatype Step =
    | Handle(op: Ops.OpId)
    | Choose(readOk: bool)      // whether the wake line could be read
    | Arrive
    | Record
    | Report
    | Awake
    | Irq
    | RaiseLine
    | LowerLine
    | Start(e: Policies.Event)
    | Finish

  /** The chip's side of the protocol: a sleeping chip that raised its line answers HOST_AWAKE only, one that did not
      answers the wake-up pulse only, and an awake chip takes the sleep command. */
  predicate Understood(s: Sys, x: Action) {
    if x.SLEEP? then !s.asleep
    else s.asleep && (x.HOST_AWAKE? <==> s.line)
  }

  /** What the call leaves, given whether the chip could be woken when it had to be. */
  function After(p: Policies.Policy, e: Policies.Event, ok: bool): Policies.Policy {
    Policies.Next(p, e, ok)
  }

  /** The call goes through a monitor call, which stops the monitor and forces the chip awake first. */
  predicate Forces(p: Policies.Policy, e: Policies.Event) {
    match e
    case Beginning => !p.busy && p.enable
    case Ending => p.busy && p.hold == 0 && p.enable
    case Calling(c) => !p.busy && match c
      case Ctrl(on) => if on then p.hold == 0 else p.enable
      case Hold => p.hold == 0
      case Release => p.hold == 1 && p.enable
      case Enable => p.hold == 0 && p.enable
      case Disable => p.enable
  }

  function Next(s: Sys, step: Step): Sys {
    match step
    case Handle(op) =>
      if s.psm.waiting then s
      else
        var t := NotifyWmt(s.psm, ActionOf(op));
        if t.notified == [] then s.(psm := t.psm)
        else s.(psm := t.psm, wake := Notified(s.wake, t.notified[0]), wmt := Queued(t.notified[0]))
    case Choose(readOk) =>
      if !s.wmt.Queued? then s
      else s.(wmt := Chosen(s.wmt.request, Exchange(s.wmt.request, s.wake, readOk && s.line)))
    case Arrive =>
      if s.wmt.Chosen? && Understood(s, s.wmt.sent) then
        s.(asleep := s.wmt.sent.SLEEP?, wmt := Answered(s.wmt.request, s.wmt.sent))
      else s
    case Record =>
      if !s.wmt.Answered? then s
      else s.(wake := Finished(s.wake, s.wmt.sent), wmt := Recorded(s.wmt.request))
    case Report =>
      if !s.wmt.Recorded? then s
      else s.(psm := NotifyStp(s.psm, s.wmt.request).psm, wmt := Idle)
    case Awake =>
      if s.psm.waiting && (s.psm.sleepEn || s.psm.wakeupEn || s.psm.rollBackEn) then s.(psm := Awaken(s.psm)) else s
    case Irq => if s.wake.armed && s.line then s.(wake := Interrupted(s.wake)) else s
    case RaiseLine => s.(line := true)
    case LowerLine => if s.asleep then s else s.(line := false)
    case Start(e) =>
      if !s.lock.Free? then s
      else if Forces(s.policy, e) then
        // the busy mark goes up once the call has succeeded, and down before the monitor is touched
        s.(policy := s.policy.(monitorOn := false, busy := s.policy.busy && !e.Ending?),
           psm := s.psm.(disableMonitor := true), lock := Forcing(After(s.policy, e, true), After(s.policy, e, false)))
      else s.(policy := After(s.policy, e, true))
    case Finish =>
      if s.lock.Forcing? && s.psm.work == Act then
        s.(policy := s.lock.after, psm := s.psm.(disableMonitor := !s.lock.after.monitorOn), lock := Free)
      else s
  }

  function Run(s: Sys, steps: seq<Step>): Sys
    decreases |steps|
  {
    if steps == [] then s else Run(Next(s, steps[0]), steps[1..])
  }

  // ---------- invariant ----------

  /** PSM and WMT thread agree on what is going on. */
  ghost predicate Synchronised(s: Sys) {
    && !s.psm.rollBackEn
    && (s.psm.waiting <==> s.psm.work == ActInact || s.psm.work == InactAct)
    && (s.psm.sleepEn || s.psm.wakeupEn ==> s.psm.waiting && s.wmt == Idle)
    && !(s.psm.sleepEn && s.psm.wakeupEn)
    && (s.psm.sleepEn ==> s.psm.work == ActInact) && (s.psm.wakeupEn ==> s.psm.work == InactAct)
    && (s.psm.waiting && s.wmt == Idle ==> s.psm.sleepEn || s.psm.wakeupEn)
    && (s.wmt != Idle ==> s.psm.waiting)
    && (s.wmt != Idle ==> if s.psm.work == ActInact then s.wmt.request == SLEEP else WakeRequest(s.wmt.request))
    && (s.wmt.Chosen? || s.wmt.Answered? ==>
         if s.psm.work == ActInact then s.wmt.sent == SLEEP else WakeRequest(s.wmt.sent))
  }

  /** The chip is asleep from the moment it answers the sleep command until it answers a wake-up. */
  ghost predicate ChipFollows(s: Sys) {
    s.asleep <==>
      match s.psm.work
      case Act => false
      case Inact => true
      case ActInact => s.wmt.Answered? || s.wmt.Recorded? || s.psm.sleepEn
      case InactAct => s.wmt.Queued? || s.wmt.Chosen?
  }

  /** Once a sleep is recorded, a remembered request is one the chip still makes, and so is one being answered. */
  ghost predicate FlagHonest(s: Sys) {
    && (s.asleep && !(s.wmt.Answered? && s.wmt.sent == SLEEP) && s.wake.asked ==> s.line)
    && (s.wmt.Chosen? && s.wmt.sent == HOST_AWAKE ==> s.line)
  }

  /** The monitor follows the policy, and a call that forces the chip awake holds everything else off. */
  ghost predicate Locked(s: Sys) {
    && s.psm.disableMonitor == !s.policy.monitorOn
    && Policies.Arbitrated(s.policy)
    && (s.lock.Forcing? ==> !s.policy.busy && !s.policy.monitorOn)
    && (s.lock.Forcing? ==> Policies.Arbitrated(s.lock.after) && Policies.Arbitrated(s.lock.otherwise))
  }

  /** With the monitor off, either the PSM is in ACT or the next operation will force it there before it runs. */
  ghost predicate Covered(s: Sys) {
    s.lock.Forcing? || s.policy.monitorOn || s.psm.work == Act || (!s.policy.busy && s.policy.enable)
  }

  /** Everything but what protects an operation. */
  ghost predicate Coherent(s: Sys) {
    Synchronised(s) && ChipFollows(s) && FlagHonest(s) && Locked(s)
  }

  ghost predicate Inv(s: Sys) {
    Coherent(s) && Covered(s)
  }

  lemma BootInv(monitorOn: bool)
    ensures Inv(Boot(monitorOn)) && Settled(Boot(monitorOn))
  {}

  /** From boot on, more than `Covered` holds: the monitor is never off, with the lock free, outside ACT. */
  ghost predicate Settled(s: Sys) {
    s.lock.Free? && !s.policy.monitorOn ==> s.psm.work == Act
  }

  lemma KeepsSynchronised(s: Sys, step: Step)
    requires Coherent(s)
    ensures Synchronised(Next(s, step))
  {
    hide Policies.Next, After;
  }

  lemma KeepsChip(s: Sys, step: Step)
    requires Coherent(s)
    ensures ChipFollows(Next(s, step)) && FlagHonest(Next(s, step))
  {
    hide Policies.Next, After;
  }

  lemma CallsKeepLocked(s: Sys, step: Step)
    requires Coherent(s) && (step.Start? || step.Finish?)
    ensures Locked(Next(s, step))
  {
    hide Synchronised, ChipFollows, FlagHonest;
  }

  lemma OpKeepsMonitor(p: Psm, a: Action)
    ensures NotifyWmt(p, a).psm.disableMonitor == p.disableMonitor
  {}

  lemma ReportKeepsMonitor(p: Psm, a: Action)
    ensures NotifyStp(p, a).psm.disableMonitor == p.disableMonitor
  {}

  lemma WakingKeepsMonitor(p: Psm)
    ensures Awaken(p).disableMonitor == p.disableMonitor
  {}

  /** No other step touches policy, lock or disable bit. */
  lemma OthersLeaveLocked(s: Sys, step: Step)
    requires !step.Start? && !step.Finish?
    ensures var t := Next(s, step);
            t.policy == s.policy && t.lock == s.lock && t.psm.disableMonitor == s.psm.disableMonitor
  {
    hide Policies.Next, After, Forces, NotifyWmt, NotifyStp, Awaken;
    hide Understood, Exchange, Finished, Notified, Interrupted;
    match step {
      case Handle(op) => OpKeepsMonitor(s.psm, ActionOf(op));
      case Report => if s.wmt.Recorded? { ReportKeepsMonitor(s.psm, s.wmt.request); }
      case Awake => WakingKeepsMonitor(s.psm);
      case _ =>
    }
  }

  lemma KeepsLocked(s: Sys, step: Step)
    requires Coherent(s)
    ensures Locked(Next(s, step))
  {
    hide Next;
    if step.Start? || step.Finish? {
      CallsKeepLocked(s, step);
    } else {
      OthersLeaveLocked(s, step);
    }
  }

  lemma KeepsCovered(s: Sys, step: Step)
    requires Coherent(s) && Covered(s)
    ensures Covered(Next(s, step))
  {}

  lemma KeepsSettled(s: Sys, step: Step)
    requires Coherent(s) && Settled(s)
    ensures Settled(Next(s, step))
  {}

  lemma {:induction false} RunInv(s: Sys, steps: seq<Step>)
    requires Coherent(s)
    ensures var t := Run(s, steps);
            && Coherent(t)
            && (Covered(s) ==> Covered(t)) && (Settled(s) ==> Settled(t))
    decreases |steps|
  {
    if steps != [] {
      KeepsSynchronised(s, steps[0]);
      KeepsChip(s, steps[0]);
      KeepsLocked(s, steps[0]);
      if Covered(s) { KeepsCovered(s, steps[0]); }
      if Settled(s) { KeepsSettled(s, steps[0]); }
      hide Synchronised, ChipFollows, FlagHonest, Locked, Covered, Settled, Next;
      RunInv(Next(s, steps[0]), steps[1..]);
    }
  }

  // ---------- no sleep under an operation ----------

  /** An operation in flight finds the chip awake and the PSM in ACT. */
  ghost predicate Undisturbed(s: Sys) {
    s.policy.busy ==> s.psm.work == Act && !s.asleep
  }

  /** From the DISABLE_PSM_MONITOR that returned 0 to its ENABLE_PSM_MONITOR the chip is awake, the PSM is in ACT,
      and an op that asks for sleep is refused without a word to WMT. */
  lemma NoSleepUnderOp(s0: Sys, steps: seq<Step>)
    requires Inv(s0)
    ensures var s := Run(s0, steps);
            && Undisturbed(s)
            && (s.policy.busy ==>
                 && s.psm.disableMonitor && s.lock.Free?
                 && NotifyWmt(s.psm, SLEEP) == Told(s.psm, [], false))
  {
    RunInv(s0, steps);
  }

  /** With the monitor stopped and no call forcing, the PSM is in ACT in every run from boot. */
  lemma StoppedInAct(monitorOn: bool, steps: seq<Step>)
    ensures Settled(Run(Boot(monitorOn), steps))
  {
    BootInv(monitorOn);
    RunInv(Boot(monitorOn), steps);
  }

  /** Whatever led to it, a state is safe for operations in all its continuations exactly when it is covered. */
  lemma CoveredExactly(s: Sys)
    requires Coherent(s)
    ensures (forall more :: Undisturbed(Run(s, more))) <==> Covered(s)
  {
    if Covered(s) {
      forall more ensures Undisturbed(Run(s, more)) {
        NoSleepUnderOp(s, more);
      }
    } else {
      var more := [Start(Policies.Beginning)];
      RunOne(s, more[0]);
      assert !Undisturbed(Run(s, more));
    }
  }

  /** The other half of a sleep op whose monitor test was made some time ago: it leaves ACT without testing again. */
  function CommitSleep(s: Sys): Sys {
    s.(psm := ReleaseHeld(SetState(s.psm, ActInact)).(waiting := true), wmt := Queued(SLEEP))
  }

  /** Test and transition are one step of `Handle`. Made apart, the transition is safe for everything that may follow
      exactly when by then a call is forcing the chip awake, or the monitor is still on, or no operation is in flight
      and the policy still asks for the monitor, so that the next operation forces it awake. */
  lemma StaleTest(s: Sys)
    requires Inv(s) && s.psm.work == Act
    ensures (forall more :: Undisturbed(Run(CommitSleep(s), more))) <==>
              s.lock.Forcing? || s.policy.monitorOn || (!s.policy.busy && s.policy.enable)
  {
    CoveredExactly(CommitSleep(s));
  }

  /** Both ways to miss it, after a test that found the monitor on: an operation starts before the transition, or the
      policy is switched off before it and an operation, which then forces nothing, starts after it. */
  lemma StaleTestRuns()
    ensures var open := Boot(true);
            var busy := Run(open, [Start(Policies.Beginning), Finish]);
            var shut := Run(open, [Start(Policies.Calling(Policies.Ctrl(false))), Finish]);
            && NotifyWmt(open.psm, SLEEP).notified == [SLEEP]
            && busy.psm.work == Act && !Undisturbed(CommitSleep(busy))
            && shut.psm.work == Act && !shut.policy.busy && Undisturbed(CommitSleep(shut))
            && !Undisturbed(Run(CommitSleep(shut), [Start(Policies.Beginning)]))
  {
    RunTwo(Boot(true), Start(Policies.Beginning), Finish);
    RunTwo(Boot(true), Start(Policies.Calling(Policies.Ctrl(false))), Finish);
    RunOne(CommitSleep(Run(Boot(true), [Start(Policies.Calling(Policies.Ctrl(false))), Finish])),
           Start(Policies.Beginning));
  }

  /** The call that forces the chip awake runs out of retries. */
  function GiveUp(s: Sys): Sys
    requires s.lock.Forcing?
  {
    s.(policy := s.lock.otherwise, psm := s.psm.(disableMonitor := !s.lock.otherwise.monitorOn), lock := Free)
  }

  /** That is safe for everything that may follow exactly when the PSM is in ACT after all, or the policy still asks
      for the monitor, so that the next operation tries again. A ps_ctrl(0) that gives up ignores it and is not. */
  lemma WakeGivenUp(s0: Sys, e: Policies.Event, steps: seq<Step>)
    requires Inv(s0) && s0.lock.Free? && Forces(s0.policy, e)
    requires Run(Next(s0, Start(e)), steps).lock == Next(s0, Start(e)).lock
    ensures var s := Run(Next(s0, Start(e)), steps);
            (forall more :: Undisturbed(Run(GiveUp(s), more))) <==>
              s.psm.work == Act || s.lock.otherwise.enable
  {
    var s1 := Next(s0, Start(e));
    KeepsSynchronised(s0, Start(e));
    KeepsChip(s0, Start(e));
    KeepsLocked(s0, Start(e));
    RunInv(s1, steps);
    var s := Run(s1, steps);
    assert !s.lock.otherwise.busy && !s.lock.otherwise.monitorOn;
    assert Coherent(GiveUp(s));
    CoveredExactly(GiveUp(s));
  }

  /** Such a call: the chip is asleep, the policy is switched off without waking it, and an operation starts on it. */
  lemma WakeGivenUpRun()
    ensures var slept := Run(Boot(true), [Handle(Ops.Sleep), Choose(true), Arrive, Record, Report, Awake]);
            var off := Next(slept, Start(Policies.Calling(Policies.Ctrl(false))));
            && slept.asleep && off.lock.Forcing?
            && var on := Next(GiveUp(off), Start(Policies.Beginning));
            && on.policy.busy && on.asleep
  {
    var s2 := Next(Next(Boot(true), Handle(Ops.Sleep)), Choose(true));
    var s4 := Next(Next(s2, Arrive), Record);
    assert [Handle(Ops.Sleep), Choose(true), Arrive, Record, Report, Awake]
        == [Handle(Ops.Sleep), Choose(true)] + [Arrive, Record, Report, Awake];
    assert [Arrive, Record, Report, Awake] == [Arrive, Record] + [Report, Awake];
    RunTwoThen(Boot(true), Handle(Ops.Sleep), Choose(true), [Arrive, Record, Report, Awake]);
    RunTwoThen(s2, Arrive, Record, [Report, Awake]);
    RunTwo(s4, Report, Awake);
  }

  // ---------- the wake exchange ----------

  /** When the exchange is chosen the chip is asleep; HOST_AWAKE is chosen only if it asked, and the choice is the one
      it waits for exactly when the line could be read, or the interrupt was taken, or it did not ask. */
  lemma RightExchange(s0: Sys, steps: seq<Step>, readOk: bool)
    requires Inv(s0)
    requires var s := Run(s0, steps); s.wmt.Queued? && WakeRequest(s.wmt.request)
    ensures var s := Run(s0, steps);
            var x := Exchange(s.wmt.request, s.wake, readOk && s.line);
            && s.asleep && s.psm.work == InactAct
            && (x == HOST_AWAKE ==> s.line)
            && (Understood(s, x) <==> readOk || s.wake.asked || !s.line)
  {
    RunInv(s0, steps);
  }

  /** While the exchange is on its way nothing but the chip's own line can change. */
  lemma {:induction false} InFlight(s: Sys, more: seq<Step>)
    requires Coherent(s) && s.wmt.Chosen? && Arrive !in more
    ensures var t := Run(s, more);
            && t.wmt == s.wmt && t.asleep == s.asleep
            && (s.asleep ==> (t.line <==> s.line || RaiseLine in more))
    decreases |more|
  {
    if more != [] {
      var u := Next(s, more[0]);
      assert u.wmt == s.wmt && u.asleep == s.asleep;
      assert s.asleep ==> (u.line <==> s.line || more[0] == RaiseLine);
      RunInv(s, [more[0]]);
      RunOne(s, more[0]);
      hide Coherent, Next;
      InFlight(u, more[1..]);
      assert RaiseLine in more <==> more[0] == RaiseLine || RaiseLine in more[1..];
    }
  }

  /** Chosen with the line read right, the exchange is understood when it arrives, whichever request was folded,
      exactly unless the chip raised its line in between. */
  lemma ExchangeArrives(s0: Sys, steps: seq<Step>, more: seq<Step>)
    requires Inv(s0) && Run(s0, steps).wmt.Queued? && Arrive !in more
    ensures var s := Run(s0, steps);
            var t := Run(Next(s, Choose(true)), more);
            && t.wmt == Chosen(s.wmt.request, Exchange(s.wmt.request, s.wake, s.line))
            && (WakeRequest(s.wmt.request) ==> t.wmt.sent == if s.line then HOST_AWAKE else WAKEUP)
            && (Understood(t, t.wmt.sent) <==> !WakeRequest(s.wmt.request) || s.line || RaiseLine !in more)
  {
    RunInv(s0, steps);
    var s := Run(s0, steps);
    KeepsSynchronised(s, Choose(true));
    KeepsChip(s, Choose(true));
    KeepsLocked(s, Choose(true));
    InFlight(Next(s, Choose(true)), more);
  }

  /** Once the exchange is recorded the PSM accepts the call back, made with the request it queued, and gets where it
      was going. */
  lemma CallbackAccepted(s0: Sys, steps: seq<Step>)
    requires Inv(s0)
    ensures var s := Run(s0, steps);
            s.wmt.Recorded? ==>
              var t := NotifyStp(s.psm, s.wmt.request);
              && t.ok
              && Awaken(t.psm).work == if s.wmt.request == SLEEP then Inact else Act
  {
    RunInv(s0, steps);
  }

  // ---------- a sleeping chip is heard ----------

  /** Once its sleep is recorded, the chip's interrupt is enabled or has already been taken. */
  ghost predicate Audible(s: Sys) {
    s.psm.work == Inact || (s.psm.work == ActInact && (s.wmt.Recorded? || s.psm.sleepEn)) ==>
      s.wake.armed || s.wake.asked
  }

  lemma KeepsAudible(s: Sys, step: Step)
    requires Coherent(s) && Audible(s)
    ensures Audible(Next(s, step))
  {
    hide Policies.Next, After, Locked, ChipFollows, FlagHonest;
  }

  lemma {:induction false} RunAudible(s: Sys, steps: seq<Step>)
    requires Coherent(s) && Audible(s)
    ensures Audible(Run(s, steps))
    decreases |steps|
  {
    if steps != [] {
      KeepsAudible(s, steps[0]);
      RunInv(s, [steps[0]]);
      RunOne(s, steps[0]);
      hide Coherent, Audible, Next;
      RunAudible(Next(s, steps[0]), steps[1..]);
    }
  }

  /** In every run from boot: a chip that raises its line while the PSM has it asleep is heard. Its interrupt is taken,
      if it was not before, so that the wake-up sent next is HOST_AWAKE even if the line cannot then be read. */
  lemma SleepingChipHeard(monitorOn: bool, steps: seq<Step>, op: Ops.OpId, readOk: bool)
    requires Run(Boot(monitorOn), steps).psm.work == Inact && !op.Sleep?
    ensures var s := Run(Boot(monitorOn), steps);
            var t := Next(Next(s, RaiseLine), Irq);
            && t.line && t.wake.asked
            && Next(Next(t, Handle(op)), Choose(readOk)).wmt == Chosen(ActionOf(op), HOST_AWAKE)
            && !Next(Next(Next(t, Handle(op)), Choose(readOk)), Arrive).asleep
  {
    BootInv(monitorOn);
    RunInv(Boot(monitorOn), steps);
    RunAudible(Boot(monitorOn), steps);
    hide Policies.Next, After, Forces, Run, Boot;
  }

  // ---------- one interrupt a sleep ----------

  /** No sleep is recorded on the way. */
  predicate NoSleepRecorded(s: Sys, more: seq<Step>)
    decreases |more|
  {
    more != [] ==>
      && !(more[0].Record? && s.wmt.Answered? && s.wmt.sent == SLEEP)
      && NoSleepRecorded(Next(s, more[0]), more[1..])
  }

  /** Only recording a sleep enables the interrupt, and only taking it remembers a request. */
  lemma {:induction false} Disarmed(s: Sys, more: seq<Step>)
    requires NoSleepRecorded(s, more)
    ensures var t := Run(s, more);
            && (!s.wake.armed ==> !t.wake.armed)
            && (!s.wake.asked && (!s.wake.armed || Irq !in more) ==> !t.wake.asked)
    decreases |more|
  {
    if more != [] {
      DisarmedOne(s, more[0]);
      hide Next;
      Disarmed(Next(s, more[0]), more[1..]);
    }
  }

  lemma DisarmedOne(s: Sys, step: Step)
    requires !(step.Record? && s.wmt.Answered? && s.wmt.sent == SLEEP)
    ensures var t := Next(s, step);
            && (!s.wake.armed ==> !t.wake.armed)
            && (!s.wake.asked && (!s.wake.armed || step != Irq) ==> !t.wake.asked)
  {}

  /** The interrupt is taken at most once until the next sleep is recorded. */
  lemma TakenOnce(s: Sys, more: seq<Step>)
    requires s.wake.armed && s.line && NoSleepRecorded(Next(s, Irq), more)
    ensures var t := Run(Next(s, Irq), more);
            Next(s, Irq).wake.asked && Next(t, Irq) == t
  {
    Disarmed(Next(s, Irq), more);
  }

  /** A wake-up the PSM asks for with WAKEUP is not interrupted. */
  lemma PulseUninterrupted(s: Sys, op: Ops.OpId, more: seq<Step>)
    requires !s.psm.waiting && NotifyWmt(s.psm, ActionOf(op)).notified == [WAKEUP]
    requires NoSleepRecorded(Next(s, Handle(op)), more)
    ensures var t := Run(Next(s, Handle(op)), more); Next(t, Irq) == t
  {
    Disarmed(Next(s, Handle(op)), more);
  }

  /** A recorded wake-up answers the request: it is forgotten until the interrupt is taken again. */
  lemma RequestAnswered(s: Sys, more: seq<Step>)
    requires s.wmt.Answered? && WakeRequest(s.wmt.sent) && NoSleepRecorded(Next(s, Record), more)
    requires Irq !in more
    ensures !Run(Next(s, Record), more).wake.asked
  {
    Disarmed(Next(s, Record), more);
  }

  lemma RunOne(s: Sys, a: Step)
    ensures Run(s, [a]) == Next(s, a)
  {
    assert [a][1..] == [];
  }

  lemma RunTwo(s: Sys, a: Step, b: Step)
    ensures Run(s, [a, b]) == Next(Next(s, a), b)
  {
    assert [a, b][1..] == [b];
    RunOne(Next(s, a), b);
  }

  lemma RunTwoThen(s: Sys, a: Step, b: Step, rest: seq<Step>)
    ensures Run(s, [a, b] + rest) == Run(Next(Next(s, a), b), rest)
  {
    assert ([a, b] + rest)[1..] == [b] + rest && ([b] + rest)[1..] == rest;
  }
}
