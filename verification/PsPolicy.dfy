/** Who may switch the power-save monitor on: the configured policy, the keep-awake references, and WMT operations,
    which run with it off. Each call is one region under the policy lock. `ok` is whether the chip could be woken,
    which the monitor calls need. */
module PsPolicy {
  datatype Policy = Policy(enable: bool, hold: nat, busy: bool, monitorOn: bool)

  function PsmDisable(p: Policy): Policy {
    p.(monitorOn := false)
  }

  /** Off while the chip is being woken; on again only if that succeeds. */
  function PsmEnable(p: Policy, ok: bool): Policy {
    p.(monitorOn := ok)
  }

  function EnableLocked(p: Policy, ok: bool): Policy {
    if p.hold == 0 && p.enable then PsmEnable(p, ok) else p
  }

  function DisableLocked(p: Policy): Policy {
    if p.enable then PsmDisable(p) else p
  }

  datatype Call =
    | Ctrl(on: bool)
    | Hold
    | Release
    | Enable
    | Disable

  datatype Returned = Returned(policy: Policy, ret: int)

  function Apply(p: Policy, c: Call, ok: bool): Returned {
    match c
    case Ctrl(on) =>
      if on then
        var q := p.(enable := true);
        Returned(if p.busy then q else EnableLocked(q, ok), 0)
      else
        Returned((if p.busy then p else DisableLocked(p)).(enable := false), 0)
    case Hold =>
      var q := p.(hold := p.hold + 1);
      Returned(if p.hold == 0 && !p.busy then PsmDisable(q) else q, 0)
    case Release =>
      if p.hold == 0 then Returned(p, -1)
      else
        var q := p.(hold := p.hold - 1);
        Returned(if q.hold == 0 && !q.busy then EnableLocked(q, ok) else q, 0)
    case Enable => Returned(if p.busy then p else EnableLocked(p, ok), 0)
    case Disable => Returned(if p.busy then p else DisableLocked(p), if p.busy || !p.enable || ok then 0 else -1)
  }

  /** An operation starts, with the operation lock held: refused when the chip could not be woken. */
  function Begin(p: Policy, ok: bool): Returned {
    var ret := if p.enable && !ok then -1 else 0;
    Returned(DisableLocked(p).(busy := ret == 0), ret)
  }

  function End(p: Policy, ok: bool): Policy {
    EnableLocked(p.(busy := false), ok)
  }

  class PolicyLock {
    var gPsEnable: bool
    var gPsHold: int
    var gPsOpBusy: bool
    var monitorOn: bool

    ghost predicate Valid()
      reads this
    {
      gPsHold >= 0
    }

    ghost function State(): Policy
      requires Valid()
      reads this
    {
      Policy(gPsEnable, gPsHold, gPsOpBusy, monitorOn)
    }

    constructor ()
      ensures Valid() && State() == Policy(true, 0, false, false)
    {
      gPsEnable, gPsHold, gPsOpBusy, monitorOn := true, 0, false, false;
    }

    method StpPsmDisable(ok: bool) returns (ret: int)
      modifies this`monitorOn
      ensures !monitorOn && ret == if ok then 0 else -1
    {
      monitorOn := false;
      ret := if ok then 0 else -1;
    }

    method StpPsmEnable(ok: bool)
      modifies this`monitorOn
      ensures monitorOn == ok
    {
      monitorOn := false;
      if ok {
        monitorOn := true;
      }
    }

    method PsEnableLocked(ok: bool)
      requires Valid()
      modifies this`monitorOn
      ensures Valid() && State() == EnableLocked(old(State()), ok)
    {
      if gPsHold != 0 {
        return;
      }
      if gPsEnable {
        StpPsmEnable(ok);
      }
    }

    method PsDisableLocked(ok: bool) returns (ret: int)
      requires Valid()
      modifies this`monitorOn
      ensures Valid() && State() == DisableLocked(old(State()))
      ensures ret == if old(gPsEnable) && !ok then -1 else 0
    {
      ret := 0;
      if gPsEnable {
        ret := StpPsmDisable(ok);
      }
    }

    method DisablePsmMonitor(ok: bool) returns (ret: int)
      requires Valid()
      modifies this
      ensures Valid()
      ensures var r := Begin(old(State()), ok); State() == r.policy && ret == r.ret
    {
      ret := PsDisableLocked(ok);
      gPsOpBusy := ret == 0;
    }

    method EnablePsmMonitor(ok: bool)
      requires Valid()
      modifies this
      ensures Valid() && State() == End(old(State()), ok)
    {
      gPsOpBusy := false;
      PsEnableLocked(ok);
    }

    method PsCtrl(state: nat, ok: bool) returns (ret: int)
      requires Valid()
      modifies this
      ensures Valid()
      ensures var r := Apply(old(State()), Ctrl(state != 0), ok); State() == r.policy && ret == r.ret
    {
      if state == 0 {
        if !gPsOpBusy {
          var _ := PsDisableLocked(ok);
        }
        gPsEnable := false;
      } else {
        gPsEnable := true;
        if !gPsOpBusy {
          PsEnableLocked(ok);
        }
      }
      ret := 0;
    }

    method PsmHold(ok: bool) returns (ret: int)
      requires Valid()
      modifies this
      ensures Valid()
      ensures var r := Apply(old(State()), Hold, ok); State() == r.policy && ret == r.ret
    {
      gPsHold := gPsHold + 1;
      if gPsHold == 1 {
        if !gPsOpBusy {
          var _ := StpPsmDisable(ok);
        }
      }
      ret := 0;
    }

    method PsmRelease(ok: bool) returns (ret: int)
      requires Valid()
      modifies this
      ensures Valid()
      ensures var r := Apply(old(State()), Release, ok); State() == r.policy && ret == r.ret
    {
      gPsHold := gPsHold - 1;
      var left := gPsHold;
      if left < 0 {
        gPsHold := 0;
        return -1;
      }
      if left == 0 {
        if !gPsOpBusy {
          PsEnableLocked(ok);
        }
      }
      ret := 0;
    }

    method PsEnable(ok: bool) returns (ret: int)
      requires Valid()
      modifies this
      ensures Valid()
      ensures var r := Apply(old(State()), Enable, ok); State() == r.policy && ret == r.ret
    {
      ret := 0;
      if gPsOpBusy {
        return;
      }
      PsEnableLocked(ok);
    }

    method PsDisable(ok: bool) returns (ret: int)
      requires Valid()
      modifies this
      ensures Valid()
      ensures var r := Apply(old(State()), Disable, ok); State() == r.policy && ret == r.ret
    {
      if gPsOpBusy {
        return 0;
      }
      ret := PsDisableLocked(ok);
    }
  }

  // ---------- arbitration ----------

  /** Monitor on only with no operation in flight, no keep-awake reference, and the policy for it. */
  ghost predicate Arbitrated(p: Policy) {
    p.monitorOn ==> !p.busy && p.hold == 0 && p.enable
  }

  datatype Event = Calling(c: Call) | Beginning | Ending

  /** The operation lock admits one operation at a time. */
  function Next(p: Policy, e: Event, ok: bool): Policy {
    match e
    case Calling(c) => Apply(p, c, ok).policy
    case Beginning => if p.busy then p else Begin(p, ok).policy
    case Ending => if p.busy then End(p, ok) else p
  }

  function Run(p: Policy, es: seq<(Event, bool)>): Policy
    decreases |es|
  {
    if es == [] then p else Run(Next(p, es[0].0, es[0].1), es[1..])
  }

  /** In every interleaving, whichever wake-ups fail. */
  lemma {:induction false} AlwaysArbitrated(p: Policy, es: seq<(Event, bool)>)
    requires Arbitrated(p)
    ensures Arbitrated(Run(p, es))
    decreases |es|
  {
    if es != [] {
      assert Arbitrated(Next(p, es[0].0, es[0].1));
      AlwaysArbitrated(Next(p, es[0].0, es[0].1), es[1..]);
    }
  }

  // ---------- what the policy remembers ----------

  /** The keep-awake references taken and not yet dropped, by the events alone; one dropped that was never taken is
      ignored. */
  function References(start: nat, es: seq<(Event, bool)>): nat
    decreases |es|
  {
    if es == [] then start
    else References(match es[0].0
                    case Calling(Hold) => start + 1
                    case Calling(Release) => if start == 0 then 0 else start - 1
                    case _ => start, es[1..])
  }

  /** What ps_ctrl last asked for. */
  function Configured(start: bool, es: seq<(Event, bool)>): bool
    decreases |es|
  {
    if es == [] then start
    else Configured(match es[0].0 case Calling(Ctrl(on)) => on case _ => start, es[1..])
  }

  /** In every interleaving, whichever wake-ups fail: the count is the number of references outstanding, and the policy
      the one last configured. So the monitor is never on while somebody keeps the chip awake, or against the policy. */
  lemma {:induction false} Remembers(p: Policy, es: seq<(Event, bool)>)
    requires Arbitrated(p)
    ensures var q := Run(p, es);
            && q.hold == References(p.hold, es)
            && q.enable == Configured(p.enable, es)
            && (q.monitorOn ==> References(p.hold, es) == 0 && Configured(p.enable, es) && !q.busy)
    decreases |es|
  {
    if es != [] {
      assert Arbitrated(Next(p, es[0].0, es[0].1));
      Remembers(Next(p, es[0].0, es[0].1), es[1..]);
    }
  }

  /** What the callers are told, in any state a run leads to: a release fails exactly when nothing is outstanding, and
      an operation is refused exactly when the policy is for power saving and the chip cannot be woken; otherwise it is
      in flight with the monitor off. */
  lemma Answers(p: Policy, es: seq<(Event, bool)>, ok: bool)
    requires Arbitrated(p)
    ensures var q := Run(p, es);
            && Apply(q, Release, ok).ret == (if References(p.hold, es) == 0 then -1 else 0)
            && Begin(q, ok).ret == (if Configured(p.enable, es) && !ok then -1 else 0)
            && (Begin(q, ok).ret == 0 <==> Begin(q, ok).policy.busy)
            && !Begin(q, ok).policy.monitorOn
            && Apply(q, Disable, ok).ret == (if !q.busy && Configured(p.enable, es) && !ok then -1 else 0)
  {
    Remembers(p, es);
    AlwaysArbitrated(p, es);
  }

  /** An operation is in flight, by the events alone, when every wake-up succeeds. */
  function InFlight(start: bool, es: seq<(Event, bool)>): bool
    decreases |es|
  {
    if es == [] then start
    else InFlight(match es[0].0 case Beginning => true case Ending => false case _ => start, es[1..])
  }

  /** While every wake-up succeeds and nobody calls ps_disable, the monitor is on exactly when it should be: no
      operation in flight, no reference outstanding, and the policy for it. */
  lemma {:induction false} OnExactly(p: Policy, es: seq<(Event, bool)>)
    requires p.monitorOn <==> !p.busy && p.hold == 0 && p.enable
    requires forall k :: 0 <= k < |es| ==> es[k].1 && es[k].0 != Calling(Disable)
    ensures Run(p, es).monitorOn <==>
              !InFlight(p.busy, es) && References(p.hold, es) == 0 && Configured(p.enable, es)
    decreases |es|
  {
    if es != [] {
      OnExactly(Next(p, es[0].0, es[0].1), es[1..]);
    }
  }

  /** Calls made one after the other, with what they return, while the chip can be woken. */
  function Calls(p: Policy, cs: seq<Call>): Policy
    decreases |cs|
  {
    if cs == [] then p else Calls(Apply(p, cs[0], true).policy, cs[1..])
  }

  function Returns(p: Policy, cs: seq<Call>): seq<int>
    decreases |cs|
  {
    if cs == [] then [] else [Apply(p, cs[0], true).ret] + Returns(Apply(p, cs[0], true).policy, cs[1..])
  }

  lemma CallDeferred(p: Policy, c: Call)
    requires p.busy && !p.monitorOn && !c.Disable?
    ensures var q := Apply(p, c, true);
            && q.policy.busy && !q.policy.monitorOn
            && End(q.policy, true) == Apply(End(p, true), c, true).policy
            && q.ret == Apply(End(p, true), c, true).ret
  {}

  /** A policy change during an operation is recorded and applied when it ends: any sequence of ps_ctrl, keep-awake
      and ps_enable calls leaves the same policy, the same monitor and the same answers as the same calls made right
      after the operation. */
  lemma {:induction false} Deferral(p: Policy, cs: seq<Call>)
    requires p.busy && Arbitrated(p) && forall k :: 0 <= k < |cs| ==> !cs[k].Disable?
    ensures End(Calls(p, cs), true) == Calls(End(p, true), cs)
    ensures Returns(p, cs) == Returns(End(p, true), cs)
    decreases |cs|
  {
    if cs != [] {
      CallDeferred(p, cs[0]);
      Deferral(Apply(p, cs[0], true).policy, cs[1..]);
    }
  }

  lemma {:induction false} CallsAppend(p: Policy, cs: seq<Call>, c: Call)
    ensures Calls(p, cs + [c]) == Apply(Calls(p, cs), c, true).policy
    decreases |cs|
  {
    if cs == [] {
      assert [c][1..] == [] && [] + [c] == [c];
    } else {
      assert (cs + [c])[1..] == cs[1..] + [c];
      CallsAppend(Apply(p, cs[0], true).policy, cs[1..], c);
    }
  }

  lemma {:induction false} CallsBusy(p: Policy, cs: seq<Call>)
    requires p.busy && !p.monitorOn
    ensures Calls(p, cs).busy && !Calls(p, cs).monitorOn
    decreases |cs|
  {
    if cs != [] { CallsBusy(Apply(p, cs[0], true).policy, cs[1..]); }
  }

  /** ps_disable is the exception: during an operation it is skipped and not recorded. As the last call it is lost
      exactly when the policy and the keep-awake count by then ask for the monitor. */
  lemma DisableIsLost(p: Policy, cs: seq<Call>)
    requires p.busy && Arbitrated(p) && forall k :: 0 <= k < |cs| ==> !cs[k].Disable?
    ensures var all, q := cs + [Disable], Calls(p, cs);
            End(Calls(p, all), true) == Calls(End(p, true), all) <==> !(q.enable && q.hold == 0)
  {
    CallsAppend(p, cs, Disable);
    CallsAppend(End(p, true), cs, Disable);
    Deferral(p, cs);
    CallsBusy(p, cs);
  }
}
