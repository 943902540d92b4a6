/** The production runner with its shutdown sequence and HID session as one object, proved
    against the shutdown protocol. Ports that decide something are parameters: the outcome of a
    disconnect call, of the neutral report, of power on and of the listener's installation. */
module ProductionRunner {
  import opened Shutdown

  class Backend {
    // Shutdown sequence.
    var requested: bool
    var neutralPending: bool
    var disconnectPending: bool
    // Runner.
    const timerReady: bool
    var disconnectTimerPending: bool
    var reportRunning: bool
    var powered: bool

    // What the ports were asked to do.
    ghost var phase: Phase
    ghost var posting: bool
    ghost var callbackQueued: bool
    ghost var exits: nat
    ghost var ons: nat
    ghost var offs: nat

    ghost function State(): Runner
      reads this
    {
      Runner(phase, Flow(requested, posting, callbackQueued, neutralPending, disconnectPending, exits),
             Power(powered, ons, offs), Timers(timerReady, reportRunning, disconnectTimerPending))
    }

    constructor (timerReady: bool)
      ensures State() == Init(timerReady)
    {
      this.timerReady := timerReady;
      requested, neutralPending, disconnectPending := false, false, false;
      disconnectTimerPending, reportRunning, powered := false, false, false;
      phase, posting, callbackQueued, exits, ons, offs := Booted, false, false, 0, 0, 0;
    }

    method PowerOff()
      modifies this`powered, this`offs
      ensures State() == old(State()).(power := Shutdown.PowerOff(old(State().power)))
    {
      var was := powered;
      powered := false;
      if was {
        offs := offs + 1;
      }
    }

    method StopReportTimer()
      modifies this`reportRunning
      ensures State() == old(State()).(timers := Stopped(old(State().timers)))
    {
      if reportRunning {
        reportRunning := false;
      }
    }

    method ArmDisconnectTimer()
      modifies this`disconnectTimerPending
      ensures State() == old(State()).(timers := old(State().timers).(disconnectArmed := true))
    {
      if disconnectTimerPending {
        return;
      }
      disconnectTimerPending := true;
    }

    method CancelDisconnectTimer()
      modifies this`disconnectTimerPending
      ensures State() == old(State()).(timers := old(State().timers).(disconnectArmed := false))
    {
      if disconnectTimerPending {
        disconnectTimerPending := false;
      }
    }

    /** The disconnect call may report the close before it returns, which enters the close
        handler and through it this method again, by then with the report timer stopped. */
    method FinishShutdown(d: Disconnect)
      modifies this
      ensures State() == Finish(old(State()), d)
      decreases if reportRunning then 2 else 0
    {
      if reportRunning {
        if disconnectPending {
          return;
        }
        disconnectPending := true;
        if d.closesAtOnce {
          HandleClosed(d);
        }
        if d.ok {
          ArmDisconnectTimer();
          return;
        }
        disconnectPending := false;
        StopReportTimer();
      }
      CancelDisconnectTimer();
      PowerOff();
      exits := exits + 1;
    }

    method HandleClosed(d: Disconnect)
      modifies this
      ensures State() == Step(old(State()), Closed(d))
      decreases 1
    {
      if !timerReady {
        return;
      }
      reportRunning := false;
      if neutralPending {
        neutralPending := false;
        FinishShutdown(d);
        return;
      }
      if disconnectPending {
        disconnectPending := false;
        FinishShutdown(d);
      }
    }

    method HandleCanSendNow(d: Disconnect)
      modifies this
      ensures State() == Step(old(State()), CanSend(d))
    {
      if !timerReady {
        return;
      }
      if neutralPending {
        neutralPending := false;
        FinishShutdown(d);
      }
    }

    method HandleOpened(started: bool)
      modifies this`reportRunning
      ensures State() == Step(old(State()), Opened(started))
    {
      if !timerReady {
        return;
      }
      if started {
        reportRunning := true;
      }
    }

    method DisconnectTimeout(d: Disconnect)
      requires disconnectTimerPending
      modifies this
      ensures State() == Step(old(State()), Timeout(d))
    {
      disconnectTimerPending := false;
      if !disconnectPending {
        return;
      }
      disconnectPending := false;
      StopReportTimer();
      FinishShutdown(d);
    }

    method OnMainThread(neutral: Neutral, d: Disconnect)
      requires callbackQueued
      modifies this
      ensures State() == Step(old(State()), Callback(neutral, d))
    {
      callbackQueued := false;
      match neutral
      case NeutralLater => neutralPending := true;
      case _ => FinishShutdown(d);
    }

    /** The atomic exchange of a request; `first` says that this thread has to post. */
    method RequestExchange() returns (first: bool)
      modifies this`requested, this`posting
      ensures first == !old(requested) && State() == Step(old(State()), Exchange)
    {
      var was := requested;
      requested := true;
      if was {
        return false;
      }
      posting := true;
      return true;
    }

    method RequestPost()
      requires posting
      modifies this`posting, this`callbackQueued
      ensures State() == Step(old(State()), Post)
    {
      posting, callbackQueued := false, true;
    }

    method SwitchOn(ok: bool)
      requires phase == Booted && exits == 0
      modifies this
      ensures State() == Step(old(State()), PowerOn(ok))
    {
      if ok {
        powered := true;
        ons := ons + 1;
        requested, neutralPending, disconnectPending := false, false, false;
        phase, posting, callbackQueued := Powered, false, false;
      } else {
        phase := Leaving;
      }
    }
  }
}
