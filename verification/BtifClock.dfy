/** The BTIF driver's states and the clock references it holds: one on the controller's clock and one per DMA channel
    while it is on, none otherwise. Both channels are in DMA mode and the clock framework does not fail. */
module BtifClock {
  datatype State = Off | Suspended | DpIdle | On

  datatype Ret = Ok | Fail | InvalidState | AlreadyOpen | NotOpen

  datatype Driver = Driver(state: State, enable: bool, btifRefs: int, dmaRefs: int)

  datatype Done = Done(driver: Driver, ret: Ret)

  /** Set up or torn down as a whole: the controller, and both channels. */
  function Init(d: Driver): Driver {
    d.(btifRefs := d.btifRefs + 1, dmaRefs := d.dmaRefs + 2)
  }

  function Free(d: Driver): Driver {
    d.(btifRefs := d.btifRefs - 1, dmaRefs := d.dmaRefs - 2)
  }

  function ExitDpIdle(d: Driver): Driver {
    if d.state == On then d else Init(d).(state := On)
  }

  /** `waited` is false when the transmitter was still busy at the end of the longest wait. */
  function EnterDpIdle(d: Driver, waited: bool): Done {
    match d.state
    case On => if waited then Done(Free(d).(state := DpIdle), Ok) else Done(d, Fail)
    case Suspended => if waited then Done(Free(Init(d)).(state := DpIdle), Ok) else Done(Init(d), Fail)
    case DpIdle => Done(d, Ok)
    case Off => Done(d, InvalidState)
  }

  datatype Call =
    | Open
    | Close
    | Send
    | Enter(waited: bool)
    | Exit
    | Suspend
    | Resume(waited: bool)

  function Apply(d: Driver, c: Call): Done {
    match c
    case Open => if d.enable then Done(d, AlreadyOpen) else Done(Init(d).(enable := true, state := On), Ok)
    case Close => if !d.enable then Done(d, NotOpen) else Done(Free(ExitDpIdle(d)).(enable := false, state := Off), Ok)
    case Send => Done(ExitDpIdle(d), Ok)
    case Enter(w) => EnterDpIdle(d, w)
    case Exit => Done(ExitDpIdle(d), Ok)
    case Suspend =>
      if !d.enable then Done(d, Ok)
      else if d.state == On then Done(d, Fail)
      else Done(Free(ExitDpIdle(d)).(state := Suspended), Ok)
    case Resume(w) => if d.enable && d.state == Suspended then EnterDpIdle(d, w) else Done(d, Ok)
  }

  class BtifDriver {
    var state: State
    var enable: bool
    var btifRefs: int
    var dmaRefs: int
    var btifClock: bool    // whether the clock itself runs
    var dmaClock: bool

    ghost function Value(): Driver
      reads this
    {
      Driver(state, enable, btifRefs, dmaRefs)
    }

    /** A clock runs exactly while somebody holds it. */
    ghost predicate Valid()
      reads this
    {
      && (btifClock <==> btifRefs > 0) && (dmaClock <==> dmaRefs > 0)
      && btifRefs >= (if state == On then 1 else 0) && dmaRefs >= (if state == On then 2 else 0)
    }

    constructor ()
      ensures Valid() && Value() == Driver(Off, false, 0, 0)
    {
      state, enable, btifRefs, dmaRefs, btifClock, dmaClock := Off, false, 0, 0, false, false;
    }

    method BtifClkCtrl(on: bool)
      requires (btifClock <==> btifRefs > 0) && (!on ==> btifRefs > 0)
      modifies this`btifRefs, this`btifClock
      ensures btifRefs == old(btifRefs) + (if on then 1 else -1) && (btifClock <==> btifRefs > 0)
    {
      if on {
        btifRefs := btifRefs + 1;
        if btifRefs == 1 { btifClock := true; }
      } else {
        btifRefs := btifRefs - 1;
        if btifRefs == 0 { btifClock := false; }
      }
    }

    method DmaClkCtrl(on: bool)
      requires (dmaClock <==> dmaRefs > 0) && (!on ==> dmaRefs > 0)
      modifies this`dmaRefs, this`dmaClock
      ensures dmaRefs == old(dmaRefs) + (if on then 1 else -1) && (dmaClock <==> dmaRefs > 0)
    {
      if on {
        dmaRefs := dmaRefs + 1;
        if dmaRefs == 1 { dmaClock := true; }
      } else {
        dmaRefs := dmaRefs - 1;
        if dmaRefs == 0 { dmaClock := false; }
      }
    }

    method BtifInit()
      requires Valid()
      modifies this`btifRefs, this`btifClock, this`dmaRefs, this`dmaClock
      ensures Valid() && Value() == Init(old(Value()))
    {
      BtifClkCtrl(true);   // controller
      DmaClkCtrl(true);    // transmit channel
      DmaClkCtrl(true);    // receive channel
    }

    method BtifFree()
      requires (btifClock <==> btifRefs > 0) && (dmaClock <==> dmaRefs > 0) && btifRefs >= 1 && dmaRefs >= 2
      modifies this`btifRefs, this`btifClock, this`dmaRefs, this`dmaClock
      ensures (btifClock <==> btifRefs > 0) && (dmaClock <==> dmaRefs > 0)
      ensures Value() == Free(old(Value()))
    {
      BtifClkCtrl(false);
      DmaClkCtrl(false);
      DmaClkCtrl(false);
    }

    method BtifExitDpIdle()
      requires Valid()
      modifies this
      ensures Valid() && Value() == ExitDpIdle(old(Value()))
    {
      if state == DpIdle {
        DmaClkCtrl(true);
        DmaClkCtrl(true);
        BtifClkCtrl(true);
      } else if state == Suspended || state == Off {
        BtifInit();
      }
      state := On;
    }

    method BtifEnterDpIdle(waited: bool) returns (ret: Ret)
      requires Valid()
      modifies this
      ensures Valid()
      ensures var r := EnterDpIdle(old(Value()), waited); Value() == r.driver && ret == r.ret
    {
      ret := Ok;
      if state == On || state == Suspended {
        if state == Suspended {
          BtifInit();
        }
        if waited {
          DmaClkCtrl(false);
          DmaClkCtrl(false);
          BtifClkCtrl(false);
        } else {
          ret := Fail;
        }
      } else if state == Off {
        ret := InvalidState;
      }
      if ret == Ok {
        state := DpIdle;
      }
    }

    method BtifOpen() returns (ret: Ret)
      requires Valid()
      modifies this
      ensures Valid()
      ensures var r := Apply(old(Value()), Open); Value() == r.driver && ret == r.ret
    {
      if enable {
        return AlreadyOpen;
      }
      BtifInit();
      enable := true;
      state := On;
      ret := Ok;
    }

    method BtifClose() returns (ret: Ret)
      requires Valid()
      modifies this
      ensures Valid()
      ensures var r := Apply(old(Value()), Close); Value() == r.driver && ret == r.ret
    {
      if !enable {
        return NotOpen;
      }
      BtifExitDpIdle();
      enable := false;
      BtifFree();
      state := Off;
      ret := Ok;
    }

    method BtifSuspend() returns (ret: Ret)
      requires Valid()
      modifies this
      ensures Valid()
      ensures var r := Apply(old(Value()), Suspend); Value() == r.driver && ret == r.ret
    {
      ret := Ok;
      if enable {
        if state == On {
          ret := Fail;
        } else {
          BtifExitDpIdle();
          BtifFree();
          state := Suspended;
        }
      }
    }

    method BtifResume(waited: bool) returns (ret: Ret)
      requires Valid()
      modifies this
      ensures Valid()
      ensures var r := Apply(old(Value()), Resume(waited)); Value() == r.driver && ret == r.ret
    {
      ret := Ok;
      if enable && state == Suspended {
        ret := BtifEnterDpIdle(waited);
      }
    }
  }

  // ---------- conservation ----------

  ghost predicate Balanced(d: Driver) {
    && d.btifRefs == (if d.state == On then 1 else 0)
    && d.dmaRefs == (if d.state == On then 2 else 0)
  }

  /** What breaks the balance: opening a driver that a send woke while it was closed, and a transmitter that stays
      busy while the driver comes back from suspend. */
  predicate Leaks(d: Driver, c: Call) {
    match c
    case Open => !d.enable && d.state == On
    case Enter(waited) => !waited && d.state == Suspended
    case Resume(waited) => !waited && d.enable && d.state == Suspended
    case Close => false
    case Send => false
    case Exit => false
    case Suspend => false
  }

  /** A call keeps the references balanced exactly when it is not one of those. */
  lemma CallBalanced(d: Driver, c: Call)
    requires Balanced(d)
    ensures Balanced(Apply(d, c).driver) <==> !Leaks(d, c)
  {}

  /** What a caller may conclude from the answer, call by call. */
  lemma AnswerMeans(d: Driver, c: Call)
    ensures var t, ret := Apply(d, c).driver, Apply(d, c).ret;
            match c
            case Open => t.enable && (ret == Ok <==> !d.enable) && if ret == Ok then t.state == On else t == d
            case Close => !t.enable && (ret == Ok <==> d.enable) && if ret == Ok then t.state == Off else t == d
            case Send => ret == Ok && t.state == On && t.enable == d.enable
            case Exit => ret == Ok && t.state == On && t.enable == d.enable
            case Enter(_) =>
              (ret == Ok <==> t.state == DpIdle) && t.enable == d.enable && (ret != Ok ==> t.state == d.state)
            case Suspend =>
              && t.enable == d.enable
              && if d.enable then (ret == Ok <==> d.state != On) && t.state == (if ret == Ok then Suspended else On)
                 else ret == Ok && t == d
            case Resume(_) =>
              && t.enable == d.enable
              && if d.enable && d.state == Suspended then t.state == (if ret == Ok then DpIdle else Suspended)
                 else ret == Ok && t == d
  {}

  function Run(d: Driver, cs: seq<Call>): Driver
    decreases |cs|
  {
    if cs == [] then d else Run(Apply(d, cs[0]).driver, cs[1..])
  }

  predicate LeakFree(d: Driver, cs: seq<Call>)
    decreases |cs|
  {
    cs == [] || (!Leaks(d, cs[0]) && LeakFree(Apply(d, cs[0]).driver, cs[1..]))
  }

  /** In every run without such a call the controller clock is held once and the DMA clock twice while the driver is
      on, and neither in any other state. */
  lemma {:induction false} RunBalanced(d: Driver, cs: seq<Call>)
    requires Balanced(d) && LeakFree(d, cs)
    ensures Balanced(Run(d, cs))
    decreases |cs|
  {
    if cs != [] {
      CallBalanced(d, cs[0]);
      RunBalanced(Apply(d, cs[0]).driver, cs[1..]);
    }
  }

  /** Sends and wake-ups only while open, and a transmitter that drains. */
  predicate Disciplined(d: Driver, cs: seq<Call>)
    decreases |cs|
  {
    cs != [] ==>
      && (cs[0].Send? || cs[0].Exit? ==> d.enable)
      && (cs[0].Enter? || cs[0].Resume? ==> cs[0].waited)
      && Disciplined(Apply(d, cs[0]).driver, cs[1..])
  }

  /** Such a client never meets one of them. */
  lemma {:induction false} DisciplinedIsLeakFree(d: Driver, cs: seq<Call>)
    requires Disciplined(d, cs) && (d.state == On ==> d.enable)
    ensures LeakFree(d, cs)
    decreases |cs|
  {
    if cs != [] {
      DisciplinedIsLeakFree(Apply(d, cs[0]).driver, cs[1..]);
    }
  }

  /** Both leaks can be reached from a driver never opened. */
  lemma LeaksReachable()
    ensures var d := Driver(Off, false, 0, 0);
            && Run(d, [Open, Close, Send, Open]) == Driver(On, true, 2, 4)
            && Run(d, [Open, Enter(true), Suspend, Resume(false)]) == Driver(Suspended, true, 1, 2)
  {
    var d := Driver(Off, false, 0, 0);
    var a, b := [Open, Close, Send, Open], [Open, Enter(true), Suspend, Resume(false)];
    RunFour(d, a);
    RunFour(d, b);
  }

  lemma RunFour(d: Driver, cs: seq<Call>)
    requires |cs| == 4
    ensures Run(d, cs) ==
            Apply(Apply(Apply(Apply(d, cs[0]).driver, cs[1]).driver, cs[2]).driver, cs[3]).driver
  {
    var d1 := Apply(d, cs[0]).driver;
    var d2 := Apply(d1, cs[1]).driver;
    var d3 := Apply(d2, cs[2]).driver;
    var c1 := cs[1..];
    var c2 := c1[1..];
    var c3 := c2[1..];
    assert c1[0] == cs[1] && c2[0] == cs[2] && c3[0] == cs[3] && c3[1..] == [];
    hide Apply;
    assert Run(d, cs) == Run(d1, c1);
    assert Run(d1, c1) == Run(d2, c2);
    assert Run(d2, c2) == Run(d3, c3);
    assert Run(d3, c3) == Run(Apply(d3, cs[3]).driver, c3[1..]);
  }
}
