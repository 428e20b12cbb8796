/** The WMT thread's side of sleeping and waking: which exchange a queued request needs, and the bookkeeping of the
    chip's own wake interrupt. */
module WmtPower {
  import opened PsmMachine

  /** `asked`: the chip raised its interrupt since it last went to sleep. `armed`: that interrupt is enabled. */
  datatype Wake = Wake(asked: bool, armed: bool)

  predicate WakeRequest(a: Action) {
    a.WAKEUP? || a.HOST_AWAKE?
  }

  /** The queue folds the two wake-ups into one, so the choice is made when it is sent. */
  function Exchange(queued: Action, w: Wake, asserted: bool): Action {
    if WakeRequest(queued) then if w.asked || asserted then HOST_AWAKE else WAKEUP
    else queued
  }

  function Finished(w: Wake, sent: Action): Wake {
    if sent.SLEEP? then Wake(false, true)
    else if WakeRequest(sent) then w.(asked := false)
    else w
  }

  function Interrupted(w: Wake): Wake {
    Wake(true, false)
  }

  /** What the PSM's notification does before the request is queued for the WMT thread. */
  function Notified(w: Wake, a: Action): Wake {
    if a.WAKEUP? then w.(armed := false) else w
  }

  class WakeControl {
    var gPsChipWakeReq: bool
    var eirqEnabled: bool
    var exchanges: seq<Action>   // commands and pulses sent to the chip
    var answers: seq<Action>     // calls back to the PSM

    ghost function State(): Wake
      reads this
    {
      Wake(gPsChipWakeReq, eirqEnabled)
    }

    constructor ()
      ensures State() == Wake(false, false) && exchanges == [] && answers == []
    {
      gPsChipWakeReq, eirqEnabled, exchanges, answers := false, false, [], [];
    }

    method PsChipWakeReq(asserted: bool) returns (b: bool)
      ensures b <==> gPsChipWakeReq || asserted
    {
      if gPsChipWakeReq {
        return true;
      }
      b := asserted;
    }

    method AwakeDone()
      modifies this`gPsChipWakeReq
      ensures State() == old(State()).(asked := false)
    {
      gPsChipWakeReq := false;
    }

    method SleepDone()
      modifies this`gPsChipWakeReq, this`eirqEnabled
      ensures State() == Wake(false, true)
    {
      gPsChipWakeReq := false;
      eirqEnabled := true;
    }

    /** The wake interrupt: it disables itself. */
    method BgfIrqIsr()
      modifies this`gPsChipWakeReq, this`eirqEnabled
      ensures State() == Interrupted(old(State()))
    {
      eirqEnabled := false;
      gPsChipWakeReq := true;
    }

    method PsHandler(action: Action)
      modifies this`eirqEnabled
      ensures State() == Notified(old(State()), action)
    {
      if action.WAKEUP? {
        eirqEnabled := false;
      }
    }

    /** Carries out a queued power-save request. `asserted` is what reading the wake line gives, `txOk` and `evtOk`
        how the exchange goes. Whatever happens, the PSM is called back with the action it queued. */
    method PwrSv(queued: Action, asserted: bool, txOk: bool, evtOk: bool) returns (done: bool)
      modifies this
      ensures var x := Exchange(queued, old(State()), asserted);
              && (done <==> txOk && evtOk && (x.SLEEP? || WakeRequest(x)))
              && State() == (if done then Finished(old(State()), x) else old(State()))
              && exchanges == (if x.SLEEP? || WakeRequest(x) then old(exchanges) + [x] else old(exchanges))
              && answers == old(answers) + [queued]
    {
      done := false;
      var action := queued;
      if action.WAKEUP? || action.HOST_AWAKE? {
        var asked := PsChipWakeReq(asserted);
        action := if asked then HOST_AWAKE else WAKEUP;
      }
      if action.SLEEP? {
        exchanges := exchanges + [SLEEP];
        if txOk && evtOk {
          SleepDone();
          done := true;
        }
      } else if action.WAKEUP? {
        exchanges := exchanges + [WAKEUP];
        if txOk && evtOk {
          AwakeDone();
          done := true;
        }
      } else if action.HOST_AWAKE? {
        exchanges := exchanges + [HOST_AWAKE];
        if txOk && evtOk {
          AwakeDone();
          done := true;
        }
      }
      answers := answers + [queued];
    }
  }
}
